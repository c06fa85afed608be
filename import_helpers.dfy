/**
  `try_get` from the spreadsheet import command: given a row and candidate column
  names, return the first value that is present and usable. A spreadsheet cell is
  missing (`pd.isna`: NaN, None, NaT), text, or a number; `str()` of a number is its
  decimal digits.
*/
module ImportHelpers {
  import opened Options
  import opened Text

  datatype Cell = NA | TextCell(text: string) | Number(value: int)

  /** The decimal digits of a natural number. */
  function Digits(n: nat): (r: string)
    ensures |r| >= 1
    ensures forall i :: 0 <= i < |r| ==> '0' <= r[i] <= '9'
  {
    if n < 10 then [('0' as int + n) as char] else Digits(n / 10) + [('0' as int + n % 10) as char]
  }

  /** `str(v)`. */
  function Show(c: Cell): string {
    match c
    case NA => "nan"
    case TextCell(t) => t
    case Number(n) => if n < 0 then "-" + Digits(-n) else Digits(n)
  }

  /** Every character is whitespace. */
  predicate Blank(s: string) {
    forall i :: 0 <= i < |s| ==> IsSpace(s[i])
  }

  /** A value `try_get` accepts: not missing, and not all whitespace. */
  predicate Usable(c: Cell) {
    !c.NA? && !Blank(Show(c))
  }

  /** `Usable` is the source's test: not NaN, and `str(v).strip()` not empty. */
  lemma UsableIsStripTest(c: Cell)
    ensures Usable(c) <==> !c.NA? && Strip(Show(c)) != ""
  {
    StripEmptyIffBlank(Show(c));
  }

  /** A key `try_get` accepts: not `None`, in the row, and holding a usable value. */
  predicate Qualifies(row: map<string, Cell>, key: Option<string>) {
    key.Some? && key.value in row && Usable(row[key.value])
  }

  /** The index of the first qualifying key, or `|keys|` when none qualifies. */
  function FirstQualifying(row: map<string, Cell>, keys: seq<Option<string>>): (i: nat)
    ensures i <= |keys|
    ensures i < |keys| ==> Qualifies(row, keys[i])
    ensures forall j :: 0 <= j < i ==> !Qualifies(row, keys[j])
  {
    if keys == [] then 0
    else if Qualifies(row, keys[0]) then 0
    else 1 + FirstQualifying(row, keys[1..])
  }

  /**
    `try_get(row, *keys)`: the value under the first qualifying key, exactly as the
    row holds it (unstripped), or `None` when no key qualifies.
  */
  function TryGet(row: map<string, Cell>, keys: seq<Option<string>>): (r: Option<Cell>)
    ensures var i := FirstQualifying(row, keys);
            r == if i < |keys| then Some(row[keys[i].value]) else None
  {
    if keys == [] then None
    else if keys[0].Some? && keys[0].value in row && Usable(row[keys[0].value]) then
      Some(row[keys[0].value])
    else
      var r := TryGet(row, keys[1..]);
      assert FirstQualifying(row, keys) == 1 + FirstQualifying(row, keys[1..]);
      r
  }

  /** Keys are tried in order: more keys after a hit change nothing; after a miss only they count. */
  lemma {:induction false} TryGetAppend(row: map<string, Cell>, a: seq<Option<string>>, b: seq<Option<string>>)
    ensures TryGet(row, a + b) == if TryGet(row, a).Some? then TryGet(row, a) else TryGet(row, b)
  {
    if a == [] {
      assert a + b == b;
    } else {
      assert (a + b)[0] == a[0];
      assert (a + b)[1..] == a[1..] + b;
      if !Qualifies(row, a[0]) {
        TryGetAppend(row, a[1..], b);
      }
    }
  }

  /** A number is never blank, so a number under a present key is always accepted. */
  lemma NumberIsUsable(n: int)
    ensures Usable(Number(n))
  {
    var s := Show(Number(n));
    assert !IsSpace(s[|s| - 1]);
  }

  /**
    A `None` key, a missing column, a NaN and a blank string are all passed over, and
    the value found comes back unstripped.
  */
  lemma SkipsUnusable()
    ensures var row := map["Model" := NA, "Notes" := TextCell("  "), "Brand" := TextCell(" Dell ")];
            TryGet(row, [None, Some("Serial"), Some("Model"), Some("Notes"), Some("Brand")]) == Some(TextCell(" Dell "))
  {
    var row := map["Model" := NA, "Notes" := TextCell("  "), "Brand" := TextCell(" Dell ")];
    assert Blank("  ");
    assert !IsSpace(" Dell "[1]);
    assert Qualifies(row, Some("Brand"));
    var keys := [None, Some("Serial"), Some("Model"), Some("Notes"), Some("Brand")];
    assert !Qualifies(row, keys[0]) && !Qualifies(row, keys[1]) && !Qualifies(row, keys[2]) && !Qualifies(row, keys[3]);
  }
}
