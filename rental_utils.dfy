/**
  The pro-rating helpers of `rentals/utils.py`. `calculate_rental_revenue` walks the
  months from the rental's start to its end (today when there is none), charges each
  month `monthly_payment / days_in_month` per active day of the month's window clipped
  to the rental, and rounds the total once, at the end. Amounts are exact reals.
*/
module RentalUtils {
  import opened Options
  import opened Calendar
  import opened Money
  import DailyRevenue

  /**
    `calculate_daily_rate`: the payment spread over the days of `targetDate`'s month
    (today's month when no date is given), within half a cent either way.
  */
  function CalculateDailyRate(payment: real, targetDate: Option<Date>, today: Date): (cents: int)
    requires ValidDate(today) && (targetDate.Some? ==> ValidDate(targetDate.value))
    ensures var d := if targetDate.Some? then targetDate.value else today;
            var exact := payment * 100.0 / DaysInMonth(d.year, d.month) as real;
            -1.0 / 2.0 <= exact - cents as real <= 1.0 / 2.0
  {
    var d := if targetDate.None? then today else targetDate.value;
    var daysInMonth := DaysInMonth(d.year, d.month);
    RoundCentsHalfEven(payment / daysInMonth as real)
  }

  /** One pass of the loop: the month's length and its active days. */
  datatype Window = Window(daysInMonth: int, activeDays: int)

  /** The loop's position: the rental's first day, or a later first-of-month. */
  predicate LoopPosition(current: Date, rentalStart: Date) {
    LessEq(rentalStart, current) && (current == rentalStart || current.day == 1)
  }

  /** `active_days`: the inclusive length of [max(start, first of month), min(end, last of month)]. */
  function ActiveDays(current: Date, rentalStart: Date, rentalEnd: Date): int
    requires ValidDate(current) && ValidDate(rentalStart) && ValidDate(rentalEnd)
  {
    var daysInMonth := DaysInMonth(current.year, current.month);
    var startOfMonth := Date(current.year, current.month, 1);
    var endOfMonth := Date(current.year, current.month, daysInMonth);
    var activeStart := MaxDate(rentalStart, startOfMonth);
    var activeEnd := MinDate(rentalEnd, endOfMonth);
    Ordinal(activeEnd) - Ordinal(activeStart) + 1
  }

  /** The months the loop visits from `current` while `current <= rentalEnd`. */
  function Windows(current: Date, rentalStart: Date, rentalEnd: Date): (ws: seq<Window>)
    requires ValidDate(current) && ValidDate(rentalStart) && ValidDate(rentalEnd)
    ensures forall i :: 0 <= i < |ws| ==> 28 <= ws[i].daysInMonth <= 31
    decreases Ordinal(rentalEnd) - Ordinal(current)
  {
    OrderIsOrdinalOrder(current, rentalEnd);
    if !LessEq(current, rentalEnd) then []
    else
      NextMonthStartOrdinal(current);
      [Window(DaysInMonth(current.year, current.month), ActiveDays(current, rentalStart, rentalEnd))]
        + Windows(NextMonthStart(current), rentalStart, rentalEnd)
  }

  /** What one month earns: each active day is worth `monthly / days_in_month`. */
  function Share(w: Window, monthlyPayment: real): real
    requires w.daysInMonth > 0
  {
    w.activeDays as real * (monthlyPayment / w.daysInMonth as real)
  }

  /** Charging `activeDays` at the month's daily rate is the month's share. */
  lemma ChargeIsShare(activeDays: int, daysInMonth: int, dailyRate: real, monthlyPayment: real)
    requires daysInMonth > 0 && dailyRate == monthlyPayment / daysInMonth as real
    ensures activeDays as real * dailyRate == Share(Window(daysInMonth, activeDays), monthlyPayment)
  {
  }

  /** The unrounded total over the visited months. */
  function ExactTotal(ws: seq<Window>, monthlyPayment: real): real
    requires forall i :: 0 <= i < |ws| ==> ws[i].daysInMonth > 0
  {
    if ws == [] then 0.0
    else Share(ws[0], monthlyPayment) + ExactTotal(ws[1..], monthlyPayment)
  }

  /** One month of the walk: the month's window is charged, then the walk resumes next month. */
  lemma WindowsStep(current: Date, rentalStart: Date, rentalEnd: Date, monthlyPayment: real)
    requires ValidDate(current) && ValidDate(rentalStart) && ValidDate(rentalEnd) && LessEq(current, rentalEnd)
    ensures ExactTotal(Windows(current, rentalStart, rentalEnd), monthlyPayment)
            == Share(Window(DaysInMonth(current.year, current.month), ActiveDays(current, rentalStart, rentalEnd)), monthlyPayment)
               + ExactTotal(Windows(NextMonthStart(current), rentalStart, rentalEnd), monthlyPayment)
  {
    var ws := Windows(current, rentalStart, rentalEnd);
    var w := Window(DaysInMonth(current.year, current.month), ActiveDays(current, rentalStart, rentalEnd));
    var rest := Windows(NextMonthStart(current), rentalStart, rentalEnd);
    assert ws == [w] + rest;
    assert ws[0] == w && ws[1..] == rest;
  }

  /** The loop's running total plus what remains is unchanged by charging one month. */
  lemma RunningTotalStep(total: real, activeDays: int, dailyRate: real,
                         current: Date, rentalStart: Date, rentalEnd: Date, monthlyPayment: real)
    requires ValidDate(current) && ValidDate(rentalStart) && ValidDate(rentalEnd) && LessEq(current, rentalEnd)
    requires activeDays == ActiveDays(current, rentalStart, rentalEnd)
    requires dailyRate == monthlyPayment / DaysInMonth(current.year, current.month) as real
    ensures (total + activeDays as real * dailyRate)
            + ExactTotal(Windows(NextMonthStart(current), rentalStart, rentalEnd), monthlyPayment)
            == total + ExactTotal(Windows(current, rentalStart, rentalEnd), monthlyPayment)
  {
    WindowsStep(current, rentalStart, rentalEnd, monthlyPayment);
    ChargeIsShare(activeDays, DaysInMonth(current.year, current.month), dailyRate, monthlyPayment);
  }

  /** `calculate_rental_revenue`: the exact pro-rated total, rounded to a cent only once. */
  method CalculateRentalRevenue(rentalStart: Date, rentalEnd: Option<Date>, monthlyPayment: real, today: Date)
    returns (cents: int)
    requires ValidDate(rentalStart) && ValidDate(today) && (rentalEnd.Some? ==> ValidDate(rentalEnd.value))
    ensures var end := if rentalEnd.Some? then rentalEnd.value else today;
            cents == RoundCentsHalfEven(ExactTotal(Windows(rentalStart, rentalStart, end), monthlyPayment))
  {
    var end := if rentalEnd.None? then today else rentalEnd.value;
    var totalRevenue := 0.0;
    var current := rentalStart;
    ghost var whole := ExactTotal(Windows(rentalStart, rentalStart, end), monthlyPayment);
    while LessEq(current, end)
      invariant ValidDate(current)
      invariant totalRevenue + ExactTotal(Windows(current, rentalStart, end), monthlyPayment) == whole
      decreases Ordinal(end) - Ordinal(current)
    {
      var daysInMonth := DaysInMonth(current.year, current.month);
      var startOfMonth := Date(current.year, current.month, 1);
      var endOfMonth := Date(current.year, current.month, daysInMonth);
      var activeStart := MaxDate(rentalStart, startOfMonth);
      var activeEnd := MinDate(end, endOfMonth);
      var activeDays := Ordinal(activeEnd) - Ordinal(activeStart) + 1;
      var dailyRate := monthlyPayment / daysInMonth as real;
      assert activeDays == ActiveDays(current, rentalStart, end);
      RunningTotalStep(totalRevenue, activeDays, dailyRate, current, rentalStart, end, monthlyPayment);
      totalRevenue := totalRevenue + activeDays as real * dailyRate;
      OrderIsOrdinalOrder(current, end);
      DayAfterMonthEnd(current);
      NextMonthStartOrdinal(current);
      current := NextDay(endOfMonth);
    }
    cents := RoundCentsHalfEven(totalRevenue);
  }

  /** Charging every day of a month earns exactly the monthly payment. */
  lemma WholeMonthShare(daysInMonth: int, monthlyPayment: real)
    requires daysInMonth > 0
    ensures Share(Window(daysInMonth, daysInMonth), monthlyPayment) == monthlyPayment
  {
  }

  function TotalActiveDays(ws: seq<Window>): int {
    if ws == [] then 0 else ws[0].activeDays + TotalActiveDays(ws[1..])
  }

  /** From the loop's position, the month's window starts at `current`. */
  lemma WindowStartsAtCurrent(current: Date, rentalStart: Date)
    requires ValidDate(current) && ValidDate(rentalStart) && LoopPosition(current, rentalStart)
    ensures MaxDate(rentalStart, Date(current.year, current.month, 1)) == current
  {
  }

  /** The month's window is the same day count as the daily sweep's `days_to_count`. */
  lemma ActiveDaysIsDaysToCount(current: Date, rentalStart: Date, rentalEnd: Date)
    requires ValidDate(current) && ValidDate(rentalStart) && ValidDate(rentalEnd)
    requires LoopPosition(current, rentalStart) && LessEq(current, rentalEnd)
    ensures ActiveDays(current, rentalStart, rentalEnd) == DailyRevenue.DaysToCount(current, rentalEnd)
  {
    WindowStartsAtCurrent(current, rentalStart);
    var dim := DaysInMonth(current.year, current.month);
    var endOfMonth := Date(current.year, current.month, dim);
    if current.year == rentalEnd.year && current.month == rentalEnd.month {
      assert MinDate(rentalEnd, endOfMonth) == rentalEnd;
    } else {
      assert MinDate(rentalEnd, endOfMonth) == endOfMonth;
    }
  }

  /**
    The walk here and the daily sweep's walk visit the same months with the same day
    counts: from any loop position the two window lists agree month by month.
  */
  lemma {:induction false} WindowsMatchSegments(current: Date, rentalStart: Date, rentalEnd: Date)
    requires ValidDate(current) && ValidDate(rentalStart) && ValidDate(rentalEnd)
    requires LoopPosition(current, rentalStart)
    ensures var ws := Windows(current, rentalStart, rentalEnd);
            var segs := DailyRevenue.Segments(current, rentalEnd);
            |ws| == |segs|
            && (forall i :: 0 <= i < |ws| ==> ws[i].daysInMonth == segs[i].daysInMonth && ws[i].activeDays == segs[i].days)
            && TotalActiveDays(ws) == DailyRevenue.TotalDays(segs)
    decreases Ordinal(rentalEnd) - Ordinal(current)
  {
    OrderIsOrdinalOrder(current, rentalEnd);
    if LessEq(current, rentalEnd) {
      var next := NextMonthStart(current);
      NextMonthStartOrdinal(current);
      OrderIsOrdinalOrder(rentalStart, current);
      OrderIsOrdinalOrder(rentalStart, next);
      WindowsMatchSegments(next, rentalStart, rentalEnd);
      ActiveDaysIsDaysToCount(current, rentalStart, rentalEnd);
      var ws := Windows(current, rentalStart, rentalEnd);
      var segs := DailyRevenue.Segments(current, rentalEnd);
      assert ws[1..] == Windows(next, rentalStart, rentalEnd);
      assert segs[1..] == DailyRevenue.Segments(next, rentalEnd);
      forall i | 0 <= i < |ws|
        ensures ws[i].daysInMonth == segs[i].daysInMonth && ws[i].activeDays == segs[i].days
      {
        if i > 0 {
          assert ws[i] == ws[1..][i - 1] && segs[i] == segs[1..][i - 1];
        }
      }
    }
  }

  /**
    Every day from the rental's start to its end is charged exactly once: the active
    days add up to the inclusive length of the rental, and to nothing when it ends
    before it starts.
  */
  lemma ActiveDaysCoverage(rentalStart: Date, rentalEnd: Date)
    requires ValidDate(rentalStart) && ValidDate(rentalEnd)
    ensures TotalActiveDays(Windows(rentalStart, rentalStart, rentalEnd))
            == if LessEq(rentalStart, rentalEnd) then Ordinal(rentalEnd) - Ordinal(rentalStart) + 1 else 0
  {
    WindowsMatchSegments(rentalStart, rentalStart, rentalEnd);
    DailyRevenue.DaysCoverage(rentalStart, rentalEnd);
  }

  /** Every visited month charges between one day and the whole month. */
  lemma ActiveDaysInMonth(rentalStart: Date, rentalEnd: Date)
    requires ValidDate(rentalStart) && ValidDate(rentalEnd)
    ensures var ws := Windows(rentalStart, rentalStart, rentalEnd);
            forall i :: 0 <= i < |ws| ==> 1 <= ws[i].activeDays <= ws[i].daysInMonth
  {
    WindowsMatchSegments(rentalStart, rentalStart, rentalEnd);
  }

  /** A non-negative payment never produces a negative total. */
  lemma {:induction false} ExactTotalNonNegative(ws: seq<Window>, monthlyPayment: real)
    requires forall i :: 0 <= i < |ws| ==> 1 <= ws[i].activeDays <= ws[i].daysInMonth
    requires monthlyPayment >= 0.0
    ensures ExactTotal(ws, monthlyPayment) >= 0.0
  {
    if ws != [] {
      ExactTotalNonNegative(ws[1..], monthlyPayment);
      ShareNonNegative(ws[0], monthlyPayment);
    }
  }

  lemma ShareNonNegative(w: Window, monthlyPayment: real)
    requires 1 <= w.activeDays <= w.daysInMonth && monthlyPayment >= 0.0
    ensures 0.0 <= Share(w, monthlyPayment) <= monthlyPayment
  {
    var rate := monthlyPayment / w.daysInMonth as real;
    assert rate >= 0.0;
    assert w.activeDays as real * rate <= w.daysInMonth as real * rate;
  }

  /** A rental that ends before it starts earns nothing. */
  lemma ReversedRangeEarnsNothing(rentalStart: Date, rentalEnd: Date, monthlyPayment: real)
    requires ValidDate(rentalStart) && ValidDate(rentalEnd) && !LessEq(rentalStart, rentalEnd)
    ensures RoundCentsHalfEven(ExactTotal(Windows(rentalStart, rentalStart, rentalEnd), monthlyPayment)) == 0
  {
    assert Windows(rentalStart, rentalStart, rentalEnd) == [];
  }

  /** A rental covering exactly one calendar month earns exactly its monthly payment. */
  lemma CalendarMonthEarnsPayment(year: int, month: int, monthlyPayment: real)
    requires 1 <= year && 1 <= month <= 12
    ensures var first := Date(year, month, 1);
            ExactTotal(Windows(first, first, Date(year, month, DaysInMonth(year, month))), monthlyPayment)
            == monthlyPayment
  {
    var first := Date(year, month, 1);
    var last := Date(year, month, DaysInMonth(year, month));
    var next := NextMonthStart(first);
    NextMonthStartOrdinal(first);
    OrderIsOrdinalOrder(next, last);
    assert Windows(next, first, last) == [];
    WindowsStep(first, first, last, monthlyPayment);
    assert ActiveDays(first, first, last) == DaysInMonth(year, month);
    WholeMonthShare(DaysInMonth(year, month), monthlyPayment);
  }

  /** The example rental's windows: 12 days of January and 10 days of (leap) February. */
  lemma TwoMonthWindows()
    ensures Windows(Date(2024, 1, 20), Date(2024, 1, 20), Date(2024, 2, 10)) == [Window(31, 12), Window(29, 10)]
  {
    var start := Date(2024, 1, 20);
    var end := Date(2024, 2, 10);
    assert DailyRevenue.Segments(Date(2024, 3, 1), end) == [];
    assert DailyRevenue.Segments(Date(2024, 2, 1), end) == [DailyRevenue.Segment(29, 10)];
    assert DailyRevenue.Segments(start, end) == [DailyRevenue.Segment(31, 12), DailyRevenue.Segment(29, 10)];
    WindowsMatchSegments(start, start, end);
  }

  lemma TwoMonthExactTotal()
    ensures ExactTotal([Window(31, 12), Window(29, 10)], 3000.0) * 100.0 == 197400000.0 / 899.0
  {
    var ws := [Window(31, 12), Window(29, 10)];
    assert ws[1..] == [Window(29, 10)] && ws[1..][1..] == [];
  }

  lemma TwoMonthRounding()
    ensures RoundCentsHalfEven(1974000.0 / 899.0) == 219577
  {
    var r := RoundCentsHalfEven(1974000.0 / 899.0);
    assert 1974000.0 / 899.0 * 100.0 == 197400000.0 / 899.0;
  }

  /**
    2024-01-20 to 2024-02-10 at 3000.00: 12 days at 3000/31 and 10 days at 3000/29 come
    to 2195.77, while the daily sweep, which rounds each daily rate first, adds 2195.74.
  */
  lemma RoundingOrderMatters()
    ensures var start := Date(2024, 1, 20);
            var end := Date(2024, 2, 10);
            RoundCentsHalfEven(ExactTotal(Windows(start, start, end), 3000.0)) == 219577
            && DailyRevenue.RentalCents(DailyRevenue.Rental(Some(1), start, Some(end), 300000), Date(2024, 6, 1)) == 219574
  {
    DailyRevenue.TwoMonthExample();
    TwoMonthWindows();
    TwoMonthExactTotal();
    var total := ExactTotal([Window(31, 12), Window(29, 10)], 3000.0);
    assert total == 1974000.0 / 899.0;
    TwoMonthRounding();
  }
}
