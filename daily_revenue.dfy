/**
  The revenue sweep of `update_daily_revenue.py`: every asset's revenue is reset to
  zero, then each rental with a positive payment that has started by `today` is walked
  month by month from its start date to min(end date or today, today). In every
  month the daily rate `payment / days_in_month` is rounded half-up to a cent, the
  month's amount `daily_rate * days` is rounded half-up to a cent again, and the
  rental's total is added onto its asset. Money is held in integer cents.
*/
module DailyRevenue {
  import opened Options
  import opened Calendar
  import opened Money

  type AssetKey = int

  /** A rental row as the sweep reads it; `paymentCents` is `payment_amount` in cents. */
  datatype Rental = Rental(asset: Option<AssetKey>, start: Date, end: Option<Date>, paymentCents: int)

  predicate WellFormed(r: Rental) {
    ValidDate(r.start) && (r.end.Some? ==> ValidDate(r.end.value))
  }

  predicate AllWellFormed(rentals: seq<Rental>) {
    forall i :: 0 <= i < |rentals| ==> WellFormed(rentals[i])
  }

  /** One pass of the month loop: the month's length and the number of days charged in it. */
  datatype Segment = Segment(daysInMonth: int, days: int)

  function Min(a: int, b: int): int {
    if a <= b then a else b
  }

  /** The last counted day: the end date, or today when there is none, but never after today. */
  function EffectiveEnd(r: Rental, today: Date): Date {
    var e := if r.end.Some? then r.end.value else today;
    if !LessEq(e, today) then today else e
  }

  /** `days_in_month`: the day number of the day before the first of the next month. */
  function MonthLength(current: Date): (dim: int)
    requires ValidDate(current)
    ensures dim == DaysInMonth(current.year, current.month)
  {
    LastDayOfMonth(current);
    PreviousDay(NextMonthStart(current)).day
  }

  /** `days_to_count`: from `current`'s day to the end's day in the end's month, else to the month's end. */
  function DaysToCount(current: Date, end: Date): int
    requires ValidDate(current)
  {
    var dim := MonthLength(current);
    var endDay := Min(if current.month == end.month && current.year == end.year then end.day else dim, dim);
    endDay - current.day + 1
  }

  /**
    The months the loop visits from `current` while `current <= end`. Every month is
    28 to 31 days long and every month charges between 1 and that many days.
  */
  function Segments(current: Date, end: Date): (segs: seq<Segment>)
    requires ValidDate(current) && ValidDate(end)
    ensures forall i :: 0 <= i < |segs| ==> 28 <= segs[i].daysInMonth <= 31
    ensures forall i :: 0 <= i < |segs| ==> 1 <= segs[i].days <= segs[i].daysInMonth
    ensures |segs| == 0 <==> !LessEq(current, end)
    decreases Ordinal(end) - Ordinal(current)
  {
    OrderIsOrdinalOrder(current, end);
    if !LessEq(current, end) then []
    else
      NextMonthStartOrdinal(current);
      [Segment(MonthLength(current), DaysToCount(current, end))] + Segments(NextMonthStart(current), end)
  }

  /** The amount charged for one month: the rounded daily rate times the days, rounded again. */
  function SegmentCents(s: Segment, paymentCents: int): int
    requires s.daysInMonth > 0
  {
    var dailyRate := RoundHalfUp(paymentCents, s.daysInMonth);
    RoundHalfUp(dailyRate * s.days, 1)
  }

  predicate ValidSegments(segs: seq<Segment>) {
    forall i :: 0 <= i < |segs| ==> 28 <= segs[i].daysInMonth <= 31 && 1 <= segs[i].days <= segs[i].daysInMonth
  }

  function TotalCents(segs: seq<Segment>, paymentCents: int): int
    requires ValidSegments(segs)
  {
    if segs == [] then 0 else SegmentCents(segs[0], paymentCents) + TotalCents(segs[1..], paymentCents)
  }

  function TotalDays(segs: seq<Segment>): int {
    if segs == [] then 0 else segs[0].days + TotalDays(segs[1..])
  }

  /** Whether the sweep adds the rental at all: a positive payment and a start no later than today. */
  predicate Counted(r: Rental, today: Date) {
    r.paymentCents > 0 && LessEq(r.start, today)
  }

  /** The total one rental adds to its asset, in cents. */
  function RentalCents(r: Rental, today: Date): int
    requires WellFormed(r) && ValidDate(today)
  {
    TotalCents(Segments(r.start, EffectiveEnd(r, today)), r.paymentCents)
  }

  /** What the rental at the end of `rentals` adds to asset `a`. */
  function Contribution(a: AssetKey, r: Rental, today: Date): int
    requires WellFormed(r) && ValidDate(today)
  {
    if Counted(r, today) && r.asset == Some(a) then RentalCents(r, today) else 0
  }

  /** The revenue of asset `a` after the sweep has processed `rentals` in order. */
  function AssetRevenue(a: AssetKey, rentals: seq<Rental>, today: Date): int
    requires AllWellFormed(rentals) && ValidDate(today)
  {
    if rentals == [] then 0
    else AssetRevenue(a, rentals[..|rentals| - 1], today) + Contribution(a, rentals[|rentals| - 1], today)
  }

  /** The revenue column after a sweep over an asset table with keys `keys`. */
  function Recomputed(keys: set<AssetKey>, rentals: seq<Rental>, today: Date): map<AssetKey, int>
    requires AllWellFormed(rentals) && ValidDate(today)
  {
    map a | a in keys :: AssetRevenue(a, rentals, today)
  }

  function CountUpdated(rentals: seq<Rental>, today: Date): nat {
    if rentals == [] then 0
    else
      var r := rentals[|rentals| - 1];
      CountUpdated(rentals[..|rentals| - 1], today) + (if Counted(r, today) && r.asset.Some? then 1 else 0)
  }

  /** One more rental raises the count by one exactly when it is counted against an asset. */
  lemma CountUpdatedStep(rentals: seq<Rental>, today: Date)
    requires |rentals| > 0
    ensures var r := rentals[|rentals| - 1];
            CountUpdated(rentals, today)
            == CountUpdated(rentals[..|rentals| - 1], today) + (if Counted(r, today) && r.asset.Some? then 1 else 0)
  {
  }

  /** The column after the sweep adds one rental: its total goes onto its own asset's entry. */
  function Credit(column: map<AssetKey, int>, r: Rental, today: Date): map<AssetKey, int>
    requires WellFormed(r) && ValidDate(today)
  {
    if Counted(r, today) && r.asset.Some? && r.asset.value in column
    then column[r.asset.value := column[r.asset.value] + RentalCents(r, today)]
    else column
  }

  /** Processing one more rental changes at most the entry of its own asset. */
  lemma RecomputedStep(keys: set<AssetKey>, rentals: seq<Rental>, today: Date)
    requires AllWellFormed(rentals) && ValidDate(today) && |rentals| > 0
    ensures Recomputed(keys, rentals, today)
            == Credit(Recomputed(keys, rentals[..|rentals| - 1], today), rentals[|rentals| - 1], today)
  {
    var r := rentals[|rentals| - 1];
    var before := Recomputed(keys, rentals[..|rentals| - 1], today);
    var after := Recomputed(keys, rentals, today);
    var credited := Credit(before, r, today);
    assert after.Keys == keys == credited.Keys;
    forall a | a in keys ensures after[a] == credited[a] {
      assert after[a] == before[a] + Contribution(a, r, today);
    }
  }

  /** The month loop for one rental (lines 47-73), with its running total. */
  method RentalTotal(start: Date, endDate: Date, paymentCents: int) returns (total: int)
    requires ValidDate(start) && ValidDate(endDate)
    ensures total == TotalCents(Segments(start, endDate), paymentCents)
  {
    total := 0;
    var current := start;
    while LessEq(current, endDate)
      invariant ValidDate(current)
      invariant total + TotalCents(Segments(current, endDate), paymentCents)
                == TotalCents(Segments(start, endDate), paymentCents)
      decreases Ordinal(endDate) - Ordinal(current)
    {
      OrderIsOrdinalOrder(current, endDate);
      NextMonthStartOrdinal(current);
      var nextMonthStart;
      if current.month == 12 {
        nextMonthStart := Date(current.year + 1, 1, 1);
      } else {
        nextMonthStart := Date(current.year, current.month + 1, 1);
      }
      var daysInMonth := PreviousDay(nextMonthStart).day;
      var dailyRate := RoundHalfUp(paymentCents, daysInMonth);
      var startDay := current.day;
      var endDay := Min(if current.month == endDate.month && current.year == endDate.year then endDate.day else daysInMonth, daysInMonth);
      var daysToCount := endDay - startDay + 1;
      ghost var segs := Segments(current, endDate);
      assert segs[0] == Segment(daysInMonth, daysToCount) && segs[1..] == Segments(nextMonthStart, endDate);
      total := total + RoundHalfUp(dailyRate * daysToCount, 1);
      current := nextMonthStart;
    }
  }

  /**
    The months visited cover the counted window exactly: the days charged add up to the
    inclusive day count from `current` to `end`, and to nothing when `current` is after `end`.
  */
  lemma {:induction false} DaysCoverage(current: Date, end: Date)
    requires ValidDate(current) && ValidDate(end)
    ensures TotalDays(Segments(current, end)) == if LessEq(current, end) then Ordinal(end) - Ordinal(current) + 1 else 0
    decreases Ordinal(end) - Ordinal(current)
  {
    OrderIsOrdinalOrder(current, end);
    if LessEq(current, end) {
      var next := NextMonthStart(current);
      NextMonthStartOrdinal(current);
      OrderIsOrdinalOrder(next, end);
      DaysCoverage(next, end);
      var segs := Segments(current, end);
      assert segs[1..] == Segments(next, end);
      if !LessEq(next, end) {
        assert current.year == end.year && current.month == end.month;
      }
    }
  }

  /** The second rounding (line 70) is exact: a month's amount is the rounded daily rate times the days. */
  lemma SecondRoundingIsExact(s: Segment, paymentCents: int)
    requires s.daysInMonth > 0
    ensures SegmentCents(s, paymentCents) == RoundHalfUp(paymentCents, s.daysInMonth) * s.days
  {
    RoundWholeIsExact(RoundHalfUp(paymentCents, s.daysInMonth) * s.days);
  }

  /**
    Rounding drift: a month's amount is within half a cent per charged day of the exact
    proration `payment * days / days_in_month`.
  */
  lemma SegmentDrift(s: Segment, paymentCents: int)
    requires 28 <= s.daysInMonth <= 31 && 1 <= s.days <= s.daysInMonth && paymentCents >= 0
    ensures -s.days * s.daysInMonth <= 2 * s.daysInMonth * SegmentCents(s, paymentCents) - 2 * paymentCents * s.days <= s.days * s.daysInMonth
  {
    var dim, days := s.daysInMonth, s.days;
    var rate := RoundHalfUp(paymentCents, dim);
    SecondRoundingIsExact(s, paymentCents);
    var e := 2 * dim * rate - 2 * paymentCents;
    assert -dim <= e <= dim;
    ScaleBounds(e, dim, days);
    Distribute(dim, rate, paymentCents, days);
  }

  lemma Distribute(dim: int, rate: int, paymentCents: int, days: int)
    ensures (2 * dim * rate - 2 * paymentCents) * days == 2 * dim * (rate * days) - 2 * paymentCents * days
  {
  }

  lemma ScaleBounds(x: int, bound: int, k: int)
    requires -bound <= x <= bound && k >= 0
    ensures -bound * k <= x * k <= bound * k
  {
    assert (bound - x) * k >= 0 && (x + bound) * k >= 0;
  }

  /** With a positive payment every rental adds a non-negative amount. */
  lemma {:induction false} TotalCentsNonNegative(segs: seq<Segment>, paymentCents: int)
    requires ValidSegments(segs) && paymentCents > 0
    ensures TotalCents(segs, paymentCents) >= 0
  {
    if segs != [] {
      var rate := RoundHalfUp(paymentCents, segs[0].daysInMonth);
      assert rate >= 0;
      SecondRoundingIsExact(segs[0], paymentCents);
      assert SegmentCents(segs[0], paymentCents) >= 0 by {
        assert rate * segs[0].days >= 0;
      }
      assert ValidSegments(segs[1..]);
      TotalCentsNonNegative(segs[1..], paymentCents);
    }
  }

  /** Rentals are processed independently: the sweep over two batches is the sum of the sweeps. */
  lemma {:induction false} AssetRevenueAppend(a: AssetKey, xs: seq<Rental>, ys: seq<Rental>, today: Date)
    requires AllWellFormed(xs) && AllWellFormed(ys) && ValidDate(today)
    ensures AllWellFormed(xs + ys)
    ensures AssetRevenue(a, xs + ys, today) == AssetRevenue(a, xs, today) + AssetRevenue(a, ys, today)
    decreases |ys|
  {
    if ys != [] {
      var ys' := ys[..|ys| - 1];
      assert (xs + ys)[..|xs + ys| - 1] == xs + ys';
      AssetRevenueAppend(a, xs, ys', today);
    } else {
      assert xs + ys == xs;
    }
  }

  /** An asset that no counted rental references keeps revenue 0 after the sweep. */
  lemma {:induction false} UnreferencedAssetEarnsNothing(a: AssetKey, rentals: seq<Rental>, today: Date)
    requires AllWellFormed(rentals) && ValidDate(today)
    requires forall i :: 0 <= i < |rentals| && Counted(rentals[i], today) ==> rentals[i].asset != Some(a)
    ensures AssetRevenue(a, rentals, today) == 0
  {
    if rentals != [] {
      UnreferencedAssetEarnsNothing(a, rentals[..|rentals| - 1], today);
    }
  }

  /** A rental with no positive payment, or one starting after today, changes no asset. */
  lemma SkippedRentalChangesNothing(keys: set<AssetKey>, rentals: seq<Rental>, r: Rental, today: Date)
    requires AllWellFormed(rentals) && WellFormed(r) && ValidDate(today)
    requires r.paymentCents <= 0 || !LessEq(r.start, today)
    ensures AllWellFormed(rentals + [r])
    ensures Recomputed(keys, rentals + [r], today) == Recomputed(keys, rentals, today)
  {
    assert (rentals + [r])[..|rentals|] == rentals;
  }

  /** Re-running the sweep on its own output with the same rentals and today gives the same column. */
  lemma SweepIsIdempotent(keys: set<AssetKey>, rentals: seq<Rental>, today: Date)
    requires AllWellFormed(rentals) && ValidDate(today)
    ensures Recomputed(Recomputed(keys, rentals, today).Keys, rentals, today) == Recomputed(keys, rentals, today)
  {
  }

  /** The counted window never extends past today. */
  lemma EffectiveEndNotAfterToday(r: Rental, today: Date)
    requires WellFormed(r) && ValidDate(today)
    ensures LessEq(EffectiveEnd(r, today), today)
    ensures r.end.Some? && LessEq(r.end.value, today) ==> EffectiveEnd(r, today) == r.end.value
    ensures r.end.None? ==> EffectiveEnd(r, today) == today
  {
  }

  /** A full 31-day month at 3100.00 is charged exactly 3100.00 (100.00 a day). */
  lemma FullMonthExample()
    ensures RentalCents(Rental(Some(1), Date(2024, 1, 1), Some(Date(2024, 1, 31)), 310000), Date(2024, 6, 1)) == 310000
  {
    var r := Rental(Some(1), Date(2024, 1, 1), Some(Date(2024, 1, 31)), 310000);
    var end := Date(2024, 1, 31);
    assert EffectiveEnd(r, Date(2024, 6, 1)) == end;
    assert Segments(Date(2024, 2, 1), end) == [];
    assert Segments(Date(2024, 1, 1), end) == [Segment(31, 31)];
    assert RoundHalfUp(310000, 31) == 10000;
    SecondRoundingIsExact(Segment(31, 31), 310000);
  }

  /**
    2024-01-20 to 2024-02-10 at 3000.00: January charges 12 days at 96.77 and February
    (29 days, a leap year) 10 days at 103.45, so the sweep adds 2195.74.
  */
  lemma TwoMonthExample()
    ensures RentalCents(Rental(Some(1), Date(2024, 1, 20), Some(Date(2024, 2, 10)), 300000), Date(2024, 6, 1)) == 219574
  {
    var end := Date(2024, 2, 10);
    assert Segments(Date(2024, 3, 1), end) == [];
    assert Segments(Date(2024, 2, 1), end) == [Segment(29, 10)];
    assert Segments(Date(2024, 1, 20), end) == [Segment(31, 12), Segment(29, 10)];
    assert RoundHalfUp(300000, 31) == 9677;
    assert RoundHalfUp(300000, 29) == 10345;
  }

  /**
    One pass of the sweep's loop body: a counted rental's total is added onto its asset's
    entry; `updated` says whether the rental was counted against an asset.
  */
  method AddRental(column: map<AssetKey, int>, rental: Rental, today: Date)
    returns (newColumn: map<AssetKey, int>, updated: bool)
    requires WellFormed(rental) && ValidDate(today)
    requires rental.asset.Some? ==> rental.asset.value in column
    ensures newColumn == Credit(column, rental, today)
    ensures updated <==> Counted(rental, today) && rental.asset.Some?
  {
    newColumn, updated := column, false;
    if rental.paymentCents > 0 && LessEq(rental.start, today) {
      var endDate := if rental.end.Some? then rental.end.value else today;
      if !LessEq(endDate, today) {
        endDate := today;
      }
      var total := RentalTotal(rental.start, endDate, rental.paymentCents);
      if rental.asset.Some? {
        var a := rental.asset.value;
        newColumn := column[a := column[a] + total];
        updated := true;
      }
    }
  }

  /** The asset table's `revenue` column, keyed by asset. */
  class RevenueLedger {
    var revenue: map<AssetKey, int>

    constructor (revenue: map<AssetKey, int>)
      ensures this.revenue == revenue
    {
      this.revenue := revenue;
    }

    /**
      `update_revenue_for_rentals`: the new revenue column depends only on the asset
      keys, the rentals and today, never on the old revenue values.
    */
    method UpdateRevenueForRentals(rentals: seq<Rental>, today: Date) returns (updatedRentals: nat)
      requires ValidDate(today) && AllWellFormed(rentals)
      requires forall i :: 0 <= i < |rentals| && rentals[i].asset.Some? ==> rentals[i].asset.value in revenue
      modifies this
      ensures revenue == Recomputed(old(revenue).Keys, rentals, today)
      ensures updatedRentals == CountUpdated(rentals, today)
    {
      var keys := revenue.Keys;
      var column := map a | a in keys :: 0;
      updatedRentals := 0;
      var i := 0;
      while i < |rentals|
        invariant 0 <= i <= |rentals|
        invariant column == Recomputed(keys, rentals[..i], today)
        invariant updatedRentals == CountUpdated(rentals[..i], today)
      {
        assert rentals[..i + 1][..i] == rentals[..i];
        RecomputedStep(keys, rentals[..i + 1], today);
        CountUpdatedStep(rentals[..i + 1], today);
        var updated;
        column, updated := AddRental(column, rentals[i], today);
        if updated {
          updatedRentals := updatedRentals + 1;
        }
        i := i + 1;
      }
      assert rentals[..|rentals|] == rentals;
      revenue := column;
    }
  }
}
