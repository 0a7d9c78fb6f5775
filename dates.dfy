/**
 * `try_parse_date` (tool_for_comparing_csv_data.py, inside
 * `normalize_dates`): a total date parser from one cell to a `Timestamp`
 * or `NaT`.
 */
module DateParsing {
  import opened Wrappers
  import opened PyText
  import opened Calendar
  import opened Cells

  /** `str(x).strip()` with every U+200B, U+00A0 and space removed. */
  function CleanText(s: string): string {
    RemoveChar(RemoveChar(RemoveChar(Strip(s), '\U{200B}'), '\U{A0}'), ' ')
  }

  /** The strict `format='%Y%m%d'` parse of eight digits: four for the year, two for the month, two for the day. */
  function ParseYmd(s: string): Option<Instant>
    requires IsDigits(s) && |s| == 8
  {
    var y, m, d := DigitsValue(s[..4]), DigitsValue(s[4..6]), DigitsValue(s[6..]);
    if ValidDate(y, m, d) && InRange(EpochDay(y, m, d) * NsPerDay)
    then Some(EpochDay(y, m, d) * NsPerDay)
    else None
  }

  /** Everything after the cleaned text `x_clean` exists. */
  function ParseCleaned(x: string, o: Oracles): (r: Cell)
    ensures r.NaT? || r.Stamp?
  {
    if x == [] || Lower(x) == "nan" then NaT
    else if IsDigits(x) && |x| == 8 then
      (match ParseYmd(x) case Some(t) => Stamp(t) case None => NaT)
    else
      (match o.parseFlexible(x) case Some(t) => Stamp(t) case None => NaT)
  }

  /**
   * `x_clean` AS WRITTEN: `str(int(x))` for a float with `x == int(x)`,
   * otherwise the cleaned `str(x)`.  None when computing it raises: for an
   * infinite float, `int(x)` raises OverflowError, and that test sits
   * outside the `try`.
   */
  function CleanedAsWritten(c: Cell, o: Oracles): Option<string> {
    match c
    case Flt(Integral(w)) => Some(IntText(w))
    case Flt(Infinity(_)) => None
    case _ => Some(CleanText(PyStr(c, o)))
  }

  /** `try_parse_date` as written: None stands for the OverflowError it raises. */
  function TryParseDateAsWritten(c: Cell, o: Oracles): Option<Cell> {
    if IsNa(c) then Some(NaT)
    else match CleanedAsWritten(c, o)
      case None => None
      case Some(x) => Some(ParseCleaned(x, o))
  }

  /** `x_clean` with the integral-float test guarded by finiteness. */
  function Cleaned(c: Cell, o: Oracles): string {
    match c
    case Flt(Integral(w)) => IntText(w)
    case _ => CleanText(PyStr(c, o))
  }

  /** `try_parse_date` as its `try`/`except` and NaN guard intend it: never raises. */
  function TryParseDate(c: Cell, o: Oracles): (r: Cell)
    ensures r.NaT? || r.Stamp?
    ensures IsNa(c) ==> r == NaT
  {
    if IsNa(c) then NaT else ParseCleaned(Cleaned(c, o), o)
  }

  lemma StrPath(s: string, o: Oracles)
    ensures TryParseDate(Str(s), o) == ParseCleaned(CleanText(s), o)
  {
  }

  lemma EightDigitsPath(s: string, o: Oracles)
    requires IsDigits(s) && |s| == 8
    ensures ParseCleaned(s, o) == match ParseYmd(s) case Some(t) => Stamp(t) case None => NaT
  {
  }

  /** The written parser raises exactly on an infinite float, and agrees with the total one everywhere else. */
  lemma AsWrittenRaisesOnlyOnInfinity(c: Cell, o: Oracles)
    ensures TryParseDateAsWritten(c, o).None? <==> c.Flt? && c.f.Infinity?
    ensures TryParseDateAsWritten(c, o).Some? ==> TryParseDateAsWritten(c, o).value == TryParseDate(c, o)
  {
  }

  /** The counterexample: `float('inf')` makes the written parser raise instead of returning NaT. */
  lemma InfinityRaises(o: Oracles)
    ensures TryParseDateAsWritten(Flt(Infinity(false)), o) == None
    ensures TryParseDate(Flt(Infinity(false)), o).NaT? || TryParseDate(Flt(Infinity(false)), o).Stamp?
  {
  }

  /** Text that is empty, or reads "nan" in any case, once whitespace, U+200B and U+00A0 are removed, is NaT. */
  lemma BlankIsNaT(s: string, o: Oracles)
    requires CleanText(s) == [] || Lower(CleanText(s)) == "nan"
    ensures TryParseDate(Str(s), o) == NaT
  {
  }

  /** An integral float goes down the same path as the integer and as its digits: 20250506.0 is read as "20250506". */
  lemma IntegralFloatAsDigits(w: nat, o: Oracles)
    ensures TryParseDate(Flt(Integral(w)), o) == TryParseDate(Str(NatText(w)), o)
    ensures TryParseDate(Int(w), o) == TryParseDate(Str(NatText(w)), o)
  {
    var t := NatText(w);
    NatTextDigits(w);
    DigitsCleanPaths(w, t, o);
  }

  lemma DigitsCleanPaths(w: nat, t: string, o: Oracles)
    requires t == NatText(w) && IsDigits(t)
    ensures TryParseDate(Flt(Integral(w)), o) == ParseCleaned(t, o)
    ensures TryParseDate(Int(w), o) == ParseCleaned(t, o)
    ensures TryParseDate(Str(t), o) == ParseCleaned(t, o)
  {
    DigitsClean(t);
    FloatPath(w, o);
    IntPath(w, o);
    StrPath(t, o);
  }

  lemma FloatPath(w: int, o: Oracles)
    ensures TryParseDate(Flt(Integral(w)), o) == ParseCleaned(IntText(w), o)
  {
  }

  lemma IntPath(i: int, o: Oracles)
    ensures TryParseDate(Int(i), o) == ParseCleaned(CleanText(IntText(i)), o)
  {
  }

  /** Eight digits whose month or day is out of range are NaT rather than an error. */
  lemma InvalidCalendarIsNaT(s: string, o: Oracles)
    requires IsDigits(s) && |s| == 8
    requires !ValidDate(DigitsValue(s[..4]), DigitsValue(s[4..6]), DigitsValue(s[6..]))
    ensures TryParseDate(Str(s), o) == NaT
  {
    DigitsClean(s);
    StrPath(s, o);
    EightDigitsPath(s, o);
  }

  lemma DigitsClean(s: string)
    requires IsDigits(s)
    ensures CleanText(s) == s
  {
    assert !IsSpace(s[0]) && !IsSpace(s[|s| - 1]);
    StripStripped(s);
    RemoveAbsent(s, '\U{200B}');
    RemoveAbsent(s, '\U{A0}');
    RemoveAbsent(s, ' ');
  }

  /** Two-digit zero-padded rendering, as in the `%m` and `%d` fields. */
  function Pad2(n: nat): string
    requires n < 100
  {
    [DigitChar(n / 10), DigitChar(n % 10)]
  }

  /** The eight-digit `YYYYMMDD` text of a date with a four-digit year. */
  function YmdText(y: nat, m: nat, d: nat): string
    requires 1000 <= y <= 9999 && m < 100 && d < 100
  {
    NatText(y) + Pad2(m) + Pad2(d)
  }

  /** Reading back a rendered `YYYYMMDD` gives the date's midnight, when pandas can represent it. */
  lemma StrictRoundTrip(y: nat, m: nat, d: nat, o: Oracles)
    requires 1000 <= y <= 9999 && ValidDate(y, m, d)
    requires InRange(EpochDay(y, m, d) * NsPerDay)
    ensures TryParseDate(Str(YmdText(y, m, d)), o) == Stamp(EpochDay(y, m, d) * NsPerDay)
  {
    var s := YmdText(y, m, d);
    NatTextRoundTrip(y);
    NatTextLength(y, 4);
    assert |s| == 8;
    assert s[..4] == NatText(y);
    assert s[4..6] == Pad2(m) && s[6..] == Pad2(d);
    Pad2Value(m);
    Pad2Value(d);
    assert IsDigits(s);
    DigitsClean(s);
    StrPath(s, o);
    EightDigitsPath(s, o);
  }

  lemma Pad2Value(n: nat)
    requires n < 100
    ensures IsDigits(Pad2(n)) && DigitsValue(Pad2(n)) == n
  {
    var p := Pad2(n);
    assert p[..1] == [DigitChar(n / 10)];
    assert p[..1][..0] == [];
    assert DigitsValue(p[..1]) == n / 10;
  }

  /** The example of an eight-digit float date: 20250506.0 becomes the midnight of 2025-05-06. */
  lemma FloatDateExample(o: Oracles)
    ensures TryParseDate(Flt(Integral(20250506)), o) == Stamp(EpochDay(2025, 5, 6) * NsPerDay)
  {
    IntegralFloatAsDigits(20250506, o);
    ExampleDigits();
    ExampleInRange();
    StrictRoundTrip(2025, 5, 6, o);
  }

  lemma ExampleDigits()
    ensures NatText(20250506) == YmdText(2025, 5, 6)
  {
    var y := NatText(2025);
    assert y == NatText(202) + [DigitChar(5)];
    assert NatText(202) == NatText(20) + [DigitChar(2)];
    assert NatText(20) == NatText(2) + [DigitChar(0)];
    assert y == [DigitChar(2), DigitChar(0), DigitChar(2), DigitChar(5)];
    assert NatText(20250506) == NatText(2025050) + [DigitChar(6)];
    assert NatText(2025050) == NatText(202505) + [DigitChar(0)];
    assert NatText(202505) == NatText(20250) + [DigitChar(5)];
    assert NatText(20250) == y + [DigitChar(0)];
  }

  lemma ExampleInRange()
    ensures ValidDate(2025, 5, 6) && EpochDay(2025, 5, 6) == 20214
    ensures InRange(EpochDay(2025, 5, 6) * NsPerDay)
  {
  }

  /** Month 13 is not a date: "20251301" is NaT. */
  lemma MonthThirteenExample(o: Oracles)
    ensures TryParseDate(Str("20251301"), o) == NaT
  {
    var s := "20251301";
    assert IsDigits(s);
    assert s[4..6] == "13" && "13"[..1] == "1" && "1"[..0] == [];
    assert DigitsValue(s[4..6]) == 13;
    InvalidCalendarIsNaT(s, o);
  }
}
