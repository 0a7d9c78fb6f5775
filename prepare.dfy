/**
 * `normalize_address`, `normalize_dates` and `prepare_df`
 * (tool_for_comparing_csv_data.py): one derived `match_key_i` column per
 * configured key set, plus a `__source` label.
 */
module Prepare {
  import opened Wrappers
  import opened PyText
  import opened Cells
  import opened Frames
  import opened DateParsing

  /** A column is a date column when its lower-cased label contains "date". */
  predicate IsDateColumn(c: string) {
    Contains(Lower(c), "date")
  }

  /** A key set is compared as dates when every one of its labels is a date column (an empty set is, vacuously). */
  predicate IsDateKeySet(cols: seq<string>) {
    forall k :: 0 <= k < |cols| ==> IsDateColumn(cols[k])
  }

  /** Every label of every key set, in order (`for keys in key_sets for col in keys`). */
  function Flatten(keySets: seq<seq<string>>): seq<string> {
    if keySets == [] then [] else keySets[0] + Flatten(keySets[1..])
  }

  function DateColumnsOf(cols: seq<string>): seq<string> {
    if cols == [] then []
    else (if IsDateColumn(cols[0]) then [cols[0]] else []) + DateColumnsOf(cols[1..])
  }

  function Without(cols: seq<string>, excluded: seq<string>): seq<string> {
    if cols == [] then []
    else (if cols[0] in excluded then [] else [cols[0]]) + Without(cols[1..], excluded)
  }

  /** `all_date_cols`. */
  function DateColumns(keySets: seq<seq<string>>): seq<string> {
    DateColumnsOf(Flatten(keySets))
  }

  /** `all_str_cols`: the labels not in `all_date_cols`. */
  function StringColumns(keySets: seq<seq<string>>): seq<string> {
    Without(Flatten(keySets), DateColumns(keySets))
  }

  lemma {:induction false} DateColumnsOfMembers(cols: seq<string>, c: string)
    ensures c in DateColumnsOf(cols) <==> c in cols && IsDateColumn(c)
    decreases |cols|
  {
    if cols != [] { DateColumnsOfMembers(cols[1..], c); }
  }

  /** The date columns of `a + b` are those of `a`, then those of `b`. */
  lemma {:induction false} DateColumnsOfAppend(a: seq<string>, b: seq<string>)
    ensures DateColumnsOf(a + b) == DateColumnsOf(a) + DateColumnsOf(b)
    decreases |a|
  {
    if a == [] {
      assert a + b == b;
    } else {
      assert (a + b)[1..] == a[1..] + b;
      DateColumnsOfAppend(a[1..], b);
    }
  }

  /** Labels none of which holds "date" give no date column. */
  lemma {:induction false} DateColumnsOfNone(a: seq<string>)
    requires forall k :: 0 <= k < |a| ==> !IsDateColumn(a[k])
    ensures DateColumnsOf(a) == []
    decreases |a|
  {
    if a != [] {
      DateColumnsOfNone(a[1..]);
    }
  }

  lemma {:induction false} WithoutMembers(cols: seq<string>, excluded: seq<string>, c: string)
    ensures c in Without(cols, excluded) <==> c in cols && c !in excluded
    decreases |cols|
  {
    if cols != [] { WithoutMembers(cols[1..], excluded, c); }
  }

  /** The configured labels split into date columns and string columns, with none in both. */
  lemma ColumnClassification(keySets: seq<seq<string>>, c: string)
    ensures c in DateColumns(keySets) <==> c in Flatten(keySets) && IsDateColumn(c)
    ensures c in StringColumns(keySets) <==> c in Flatten(keySets) && !IsDateColumn(c)
  {
    DateColumnsOfMembers(Flatten(keySets), c);
    WithoutMembers(Flatten(keySets), DateColumns(keySets), c);
  }

  // ---------------------------------------------------------------------
  // String columns: `df[col].fillna('').astype(str).str.strip().str.lower()`

  /** The text one string-column cell becomes. */
  /** `fillna('').astype(str)` of one cell. */
  function CellText(c: Cell, o: Oracles): string {
    if IsNa(c) then "" else PyStr(c, o)
  }

  function FieldText(c: Cell, o: Oracles): (r: string)
    ensures Stripped(r) && IsLower(r)
  {
    var s := Strip(CellText(c, o));
    CaseKeepsSpace(s);
    CaseResult(s);
    Lower(s)
  }

  /** Normalising a cell that already holds normalised text changes nothing. */
  lemma FieldTextIdempotent(c: Cell, o: Oracles)
    ensures FieldText(Str(FieldText(c, o)), o) == FieldText(c, o)
  {
    var t := FieldText(c, o);
    assert CellText(Str(t), o) == t;
    StripStripped(t);
    LowerFixed(t);
  }

  function StringStep(t: Table, col: string, o: Oracles): (r: Table)
    requires WellFormed(t)
    ensures WellFormed(r) && r.columns == t.columns && |r.rows| == |t.rows|
  {
    if col in t.columns then
      WithColumn(t, col, seq(|t.rows|, k requires 0 <= k < |t.rows| => Str(FieldText(t.rows[k][col], o))))
    else t
  }

  /** The loop over `all_str_cols`, for its first `|cols|` labels. */
  function StringPhase(t: Table, cols: seq<string>, o: Oracles): (r: Table)
    requires WellFormed(t)
    ensures WellFormed(r) && r.columns == t.columns && |r.rows| == |t.rows|
  {
    if cols == [] then t
    else StringStep(StringPhase(t, cols[..|cols| - 1], o), cols[|cols| - 1], o)
  }

  // ---------------------------------------------------------------------
  // Date columns: `normalize_dates`

  function DateStep(t: Table, col: string, o: Oracles): (r: Table)
    requires WellFormed(t)
    ensures WellFormed(r) && r.columns == t.columns && |r.rows| == |t.rows|
  {
    if col in t.columns then
      WithColumn(t, col, seq(|t.rows|, k requires 0 <= k < |t.rows| => TryParseDate(t.rows[k][col], o)))
    else t
  }

  /** What `normalize_dates(df, cols)` leaves in `df`. */
  function DatePhase(t: Table, cols: seq<string>, o: Oracles): (r: Table)
    requires WellFormed(t)
    ensures WellFormed(r) && r.columns == t.columns && |r.rows| == |t.rows|
  {
    if cols == [] then t
    else DateStep(DatePhase(t, cols[..|cols| - 1], o), cols[|cols| - 1], o)
  }

  /** `normalize_dates`: parses every listed column that exists, in place, in list order. */
  method NormalizeDates(df: Frame, columns: seq<string>, o: Oracles)
    requires df.Valid()
    modifies df
    ensures df.Valid() && df.Contents() == DatePhase(old(df.Contents()), columns, o)
  {
    for k := 0 to |columns|
      invariant df.Valid() && df.Contents() == DatePhase(old(df.Contents()), columns[..k], o)
    {
      assert columns[..k + 1][..k] == columns[..k];
      var col := columns[k];
      if col in df.columns {
        var rows := df.rows;
        var parsed := seq(|rows|, i requires 0 <= i < |rows| => TryParseDate(rows[i][col], o));
        df.Assign(col, parsed);
      }
    }
    assert columns[..|columns|] == columns;
  }

  // ---------------------------------------------------------------------
  // Address keys: `normalize_address`

  /** `col in row and pd.notnull(row[col]) and row[col] != 'NaT'`. */
  predicate Fills(row: Row, c: string) {
    c in row && !IsNa(row[c]) && row[c] != Str("NaT")
  }

  /** Text that is stripped and has no capital letter. */
  predicate IsNormalText(v: string) {
    Stripped(v) && IsLower(v)
  }

  /** The slot one column contributes: its stripped, lower-cased text when it is present, not null and not "NaT". */
  function AddressPart(row: Row, c: string, o: Oracles): (part: seq<string>)
    ensures |part| <= 1
  {
    if c in row && !IsNa(row[c]) && row[c] != Str("NaT") then [FieldText(Str(PyStr(row[c], o)), o)] else []
  }

  /** The slots of every listed column, in list order. */
  function AddressParts(row: Row, cols: seq<string>, o: Oracles): (parts: seq<string>)
    ensures |parts| <= |cols|
  {
    if cols == [] then [] else AddressPart(row, cols[0], o) + AddressParts(row, cols[1..], o)
  }

  /** `normalize_address(row, cols)`. */
  function NormalizeAddress(row: Row, cols: seq<string>, o: Oracles): string {
    Join(" ", AddressParts(row, cols, o))
  }

  // ---------------------------------------------------------------------
  // Match keys and `prepare_df`

  /** `f'match_key_{i}'`. */
  function MatchKeyName(i: nat): string {
    "match_key_" + NatText(i)
  }

  /** `match_key_0` .. `match_key_{n-1}`. */
  function MatchKeyNames(n: nat): (r: seq<string>)
    ensures |r| == n && forall k :: 0 <= k < n ==> r[k] == MatchKeyName(k)
  {
    if n == 0 then [] else MatchKeyNames(n - 1) + [MatchKeyName(n - 1)]
  }

  /** The column a key set contributes, or the IndexError of `cols[0]` on an empty key set. */
  function KeyColumn(t: Table, cols: seq<string>, o: Oracles): (r: Result<seq<Cell>, PyError>)
    requires WellFormed(t)
    ensures r.Success? ==> |r.value| == |t.rows|
    ensures r.Failure? <==> cols == []
    ensures r.Failure? ==> r.error == IndexError
  {
    if IsDateKeySet(cols) then
      if |cols| == 0 then Failure(IndexError)
      else if cols[0] in t.columns then Success(Column(t, cols[0]))
      else Success(seq(|t.rows|, _ => NaT))
    else
      Success(AddressKeys(t, cols, o))
  }

  /** `df.apply(lambda row: normalize_address(row, cols), axis=1)`. */
  function AddressKeys(t: Table, cols: seq<string>, o: Oracles): (r: seq<Cell>)
    ensures |r| == |t.rows| && forall k :: 0 <= k < |r| ==> r[k] == Str(NormalizeAddress(t.rows[k], cols, o))
  {
    seq(|t.rows|, k requires 0 <= k < |t.rows| => Str(NormalizeAddress(t.rows[k], cols, o)))
  }

  /** The loop `for i, cols in enumerate(key_sets)`, after its first `n` iterations. */
  function KeyPhase(t: Table, keySets: seq<seq<string>>, n: nat, o: Oracles): (r: Result<Table, PyError>)
    requires WellFormed(t) && n <= |keySets|
    ensures r.Success? ==> WellFormed(r.value) && |r.value.rows| == |t.rows|
  {
    if n == 0 then Success(t)
    else match KeyPhase(t, keySets, n - 1, o)
      case Failure(e) => Failure(e)
      case Success(u) =>
        match KeyColumn(u, keySets[n - 1], o)
        case Failure(e) => Failure(e)
        case Success(v) => Success(WithColumn(u, MatchKeyName(n - 1), v))
  }

  /** The table after the string and date columns are normalised, before any key is built. */
  function Normalized(t: Table, keySets: seq<seq<string>>, o: Oracles): (r: Table)
    requires WellFormed(t)
    ensures WellFormed(r) && r.columns == t.columns && |r.rows| == |t.rows|
  {
    DatePhase(StringPhase(t, StringColumns(keySets), o), DateColumns(keySets), o)
  }

  /** What `prepare_df(df, key_sets, label)` returns. */
  function Prepared(t: Table, keySets: seq<seq<string>>, source: string, o: Oracles): (r: Result<Table, PyError>)
    requires WellFormed(t)
    ensures r.Success? ==> WellFormed(r.value) && |r.value.rows| == |t.rows|
  {
    match KeyPhase(Normalized(t, keySets, o), keySets, |keySets|, o)
    case Failure(e) => Failure(e)
    case Success(u) => Success(Broadcast(u, "__source", Str(source)))
  }

  /** Once a key set fails, every longer prefix of the loop fails with the same error. */
  lemma {:induction false} KeyPhaseFailureSticks(t: Table, keySets: seq<seq<string>>, n: nat, m: nat, o: Oracles)
    requires WellFormed(t) && n <= m <= |keySets|
    requires KeyPhase(t, keySets, n, o).Failure?
    ensures KeyPhase(t, keySets, m, o) == KeyPhase(t, keySets, n, o)
    decreases m - n
  {
    if m > n {
      KeyPhaseFailureSticks(t, keySets, n, m - 1, o);
    }
  }

  /** The string-column loop of `prepare_df`, in place on the copy. */
  method NormalizeStrings(df: Frame, columns: seq<string>, o: Oracles)
    requires df.Valid()
    modifies df
    ensures df.Valid() && df.Contents() == StringPhase(old(df.Contents()), columns, o)
  {
    for k := 0 to |columns|
      invariant df.Valid() && df.Contents() == StringPhase(old(df.Contents()), columns[..k], o)
    {
      assert columns[..k + 1][..k] == columns[..k];
      var col := columns[k];
      if col in df.columns {
        var rows := df.rows;
        var texts := seq(|rows|, i requires 0 <= i < |rows| => Str(FieldText(rows[i][col], o)));
        df.Assign(col, texts);
      }
    }
    assert columns[..|columns|] == columns;
  }

  /** The key loop of `prepare_df`: adds `match_key_i` for each key set, stopping at the first empty date key set. */
  lemma KeyPhaseStep(t: Table, keySets: seq<seq<string>>, i: nat, o: Oracles, u: Table, keys: seq<Cell>)
    requires WellFormed(t) && i < |keySets|
    requires KeyPhase(t, keySets, i, o) == Success(u) && KeyColumn(u, keySets[i], o) == Success(keys)
    ensures KeyPhase(t, keySets, i + 1, o) == Success(WithColumn(u, MatchKeyName(i), keys))
  {
  }

  method AddKeys(df: Frame, keySets: seq<seq<string>>, o: Oracles) returns (ok: bool)
    requires df.Valid()
    modifies df
    ensures df.Valid()
    ensures ok <==> KeyPhase(old(df.Contents()), keySets, |keySets|, o).Success?
    ensures ok ==> df.Contents() == KeyPhase(old(df.Contents()), keySets, |keySets|, o).value
    ensures !ok ==> KeyPhase(old(df.Contents()), keySets, |keySets|, o).error == IndexError
  {
    ghost var t := df.Contents();
    for i := 0 to |keySets|
      invariant df.Valid()
      invariant KeyPhase(t, keySets, i, o).Success? && df.Contents() == KeyPhase(t, keySets, i, o).value
    {
      var cols := keySets[i];
      ghost var u := df.Contents();
      var keys: seq<Cell>;
      if IsDateKeySet(cols) {
        if |cols| == 0 {
          KeyPhaseFailureSticks(t, keySets, i + 1, |keySets|, o);
          return false;
        }
        if cols[0] in df.columns {
          keys := Column(df.Contents(), cols[0]);
        } else {
          keys := seq(|df.rows|, _ => NaT);
        }
      } else {
        keys := AddressKeys(df.Contents(), cols, o);
      }
      assert KeyColumn(u, cols, o) == Success(keys);
      KeyPhaseStep(t, keySets, i, o, u, keys);
      df.Assign(MatchKeyName(i), keys);
    }
    ok := true;
  }

  /**
   * `prepare_df`: works on a copy, normalises the string columns, parses the
   * date columns, adds `match_key_i` for every key set and labels the rows.
   * The caller's frame is untouched.
   */
  method PrepareFrame(df: Frame, keySets: seq<seq<string>>, source: string, o: Oracles)
    returns (r: Result<Frame, PyError>)
    requires df.Valid()
    ensures df.Contents() == old(df.Contents())
    ensures r.Success? <==> Prepared(df.Contents(), keySets, source, o).Success?
    ensures r.Failure? ==> r.error == Prepared(df.Contents(), keySets, source, o).error
    ensures r.Success? ==>
      fresh(r.value) && r.value.Valid() && r.value.Contents() == Prepared(df.Contents(), keySets, source, o).value
  {
    var out := df.Copy();
    NormalizeStrings(out, StringColumns(keySets), o);
    NormalizeDates(out, DateColumns(keySets), o);
    var ok := AddKeys(out, keySets, o);
    if !ok {
      return Failure(IndexError);
    }
    out.Assign("__source", seq(|out.rows|, _ => Str(source)));
    r := Success(out);
  }

  // ---------------------------------------------------------------------
  // Properties of `normalize_address`

  /** The slots of the address key follow the configured columns: those of `a + b` are those of `a` then those of `b`. */
  lemma {:induction false} AddressPartsAppend(row: Row, a: seq<string>, b: seq<string>, o: Oracles)
    ensures AddressParts(row, a + b, o) == AddressParts(row, a, o) + AddressParts(row, b, o)
    decreases |a|
  {
    if a == [] {
      assert a + b == b;
    } else {
      assert (a + b)[0] == a[0];
      assert (a + b)[1..] == a[1..] + b;
      AddressPartsAppend(row, a[1..], b, o);
      var p := AddressPart(row, a[0], o);
      assert p + (AddressParts(row, a[1..], o) + AddressParts(row, b, o))
          == (p + AddressParts(row, a[1..], o)) + AddressParts(row, b, o);
    }
  }

  /** One column contributes one slot exactly when it is present, not null and not "NaT"; the slot is its stripped, lower-cased text. */
  lemma AddressPartValue(row: Row, c: string, o: Oracles)
    ensures AddressPart(row, c, o)
         == if Fills(row, c) then [Lower(Strip(PyStr(row[c], o)))] else []
  {
  }

  lemma AddressPartSize(row: Row, c: string, o: Oracles)
    ensures |AddressPart(row, c, o)| == if Fills(row, c) then 1 else 0
  {
  }

  lemma AddressPartsSingle(row: Row, c: string, o: Oracles)
    ensures AddressParts(row, [c], o) == AddressPart(row, c, o)
  {
    assert [c][1..] == [];
  }

  /** Every configured column fills a slot exactly when every one of them is present, not null and not "NaT". */
  lemma {:induction false} AddressSlots(row: Row, cols: seq<string>, o: Oracles)
    ensures |AddressParts(row, cols, o)| == |cols| <==> forall k :: 0 <= k < |cols| ==> Fills(row, cols[k])
    decreases |cols|
  {
    if cols != [] {
      AddressSlots(row, cols[1..], o);
      AddressPartSize(row, cols[0], o);
      assert forall k :: 1 <= k < |cols| ==> cols[k] == cols[1..][k - 1];
    }
  }

  /** Every slot is stripped and has no capital letter. */
  lemma {:induction false} AddressPartsNormal(row: Row, cols: seq<string>, o: Oracles)
    ensures forall k :: 0 <= k < |AddressParts(row, cols, o)| ==> IsNormalText(AddressParts(row, cols, o)[k])
    decreases |cols|
  {
    if cols != [] {
      AddressPartsNormal(row, cols[1..], o);
      var p := AddressPart(row, cols[0], o);
      var q := AddressParts(row, cols[1..], o);
      assert forall k :: |p| <= k < |p + q| ==> (p + q)[k] == q[k - |p|];
    }
  }

  /** The address key has no capital letter. */
  lemma AddressKeyLower(row: Row, cols: seq<string>, o: Oracles)
    ensures IsLower(NormalizeAddress(row, cols, o))
  {
    AddressPartsNormal(row, cols, o);
    JoinLower(" ", AddressParts(row, cols, o));
  }

  /** Two rows that agree on the configured columns give the same address key. */
  lemma {:induction false} AddressPartsAgree(row1: Row, row2: Row, cols: seq<string>, o: Oracles)
    requires forall k :: 0 <= k < |cols| ==> (cols[k] in row1 <==> cols[k] in row2)
    requires forall k :: 0 <= k < |cols| && cols[k] in row1 ==> row1[cols[k]] == row2[cols[k]]
    ensures AddressParts(row1, cols, o) == AddressParts(row2, cols, o)
    decreases |cols|
  {
    if cols != [] {
      assert forall k :: 1 <= k < |cols| ==> cols[k] == cols[1..][k - 1];
      AddressPartsAgree(row1, row2, cols[1..], o);
    }
  }

  /** A present text field that is already normalised contributes itself. */
  lemma NormalPart(row: Row, c: string, v: string, o: Oracles)
    requires c in row && row[c] == Str(v) && IsNormalText(v)
    ensures AddressPart(row, c, o) == [v]
  {
    AddressPartValue(row, c, o);
    StripStripped(v);
    LowerFixed(v);
  }

  /** Where a column sits among the configured ones, its slot sits among the slots. */
  lemma PartBetween(row: Row, pre: seq<string>, c: string, post: seq<string>, o: Oracles)
    ensures AddressParts(row, pre + [c] + post, o)
         == AddressParts(row, pre, o) + AddressPart(row, c, o) + AddressParts(row, post, o)
  {
    AddressPartsAppend(row, pre + [c], post, o);
    AddressPartsAppend(row, pre, [c], o);
    AddressPartsSingle(row, c, o);
  }

  /** An empty text field still occupies a slot, so the separators on both sides of it stay. */
  lemma EmptyFieldKeepsSlot(row: Row, pre: seq<string>, c: string, post: seq<string>, o: Oracles)
    requires c in row && row[c] == Str("")
    ensures AddressParts(row, pre + [c] + post, o) == AddressParts(row, pre, o) + [""] + AddressParts(row, post, o)
  {
    PartBetween(row, pre, c, post, o);
    NormalPart(row, c, "", o);
  }

  /** An absent column contributes nothing. */
  lemma AbsentColumnSkipped(row: Row, pre: seq<string>, c: string, post: seq<string>, o: Oracles)
    requires c !in row
    ensures AddressParts(row, pre + [c] + post, o) == AddressParts(row, pre, o) + AddressParts(row, post, o)
  {
    PartBetween(row, pre, c, post, o);
    AddressPartSize(row, c, o);
  }

  // ---------------------------------------------------------------------
  // Properties of the normalisation phases

  /** A cell parsed `k` times. */
  function ParseTimes(c: Cell, k: nat, o: Oracles): Cell {
    if k == 0 then c else TryParseDate(ParseTimes(c, k - 1, o), o)
  }

  /** After the string loop a listed column holds its normalised text, however often it is listed; other columns are untouched. */
  lemma {:induction false} StringPhaseValue(t: Table, cols: seq<string>, o: Oracles, c: string, r: nat)
    requires WellFormed(t) && c in t.columns && r < |t.rows|
    ensures StringPhase(t, cols, o).rows[r][c] == if c in cols then Str(FieldText(t.rows[r][c], o)) else t.rows[r][c]
    decreases |cols|
  {
    if cols != [] {
      var init := cols[..|cols| - 1];
      var last := cols[|cols| - 1];
      assert cols == init + [last];
      var u := StringPhase(t, init, o);
      assert StringPhase(t, cols, o) == StringStep(u, last, o);
      StringPhaseValue(t, init, o, c, r);
      StringStepValue(u, last, o, c, r);
      if c in init && c == last {
        FieldTextIdempotent(t.rows[r][c], o);
      }
    }
  }

  lemma StringStepValue(t: Table, col: string, o: Oracles, c: string, r: nat)
    requires WellFormed(t) && c in t.columns && r < |t.rows|
    ensures StringStep(t, col, o).rows[r][c] == if col == c then Str(FieldText(t.rows[r][c], o)) else t.rows[r][c]
  {
  }

  lemma DateStepValue(t: Table, col: string, o: Oracles, c: string, r: nat)
    requires WellFormed(t) && c in t.columns && r < |t.rows|
    ensures DateStep(t, col, o).rows[r][c] == if col == c then TryParseDate(t.rows[r][c], o) else t.rows[r][c]
  {
  }

  /** After the date loop a column has been parsed once per time it is listed. */
  lemma {:induction false} DatePhaseValue(t: Table, cols: seq<string>, o: Oracles, c: string, r: nat)
    requires WellFormed(t) && c in t.columns && r < |t.rows|
    ensures DatePhase(t, cols, o).rows[r][c] == ParseTimes(t.rows[r][c], multiset(cols)[c], o)
    decreases |cols|
  {
    if cols != [] {
      var init := cols[..|cols| - 1];
      var last := cols[|cols| - 1];
      assert cols == init + [last];
      var u := DatePhase(t, init, o);
      assert DatePhase(t, cols, o) == DateStep(u, last, o);
      var k := multiset(init)[c];
      DatePhaseValue(t, init, o, c, r);
      DateStepValue(u, last, o, c, r);
      if last == c {
        assert multiset(cols)[c] == k + 1;
        assert ParseTimes(t.rows[r][c], k + 1, o) == TryParseDate(ParseTimes(t.rows[r][c], k, o), o);
      } else {
        assert multiset(cols)[c] == k;
      }
    }
  }

  // ---------------------------------------------------------------------
  // Properties of the key loop

  /** The key loop fails exactly when an empty key set is reached, and then with an IndexError. */
  lemma {:induction false} KeyPhaseFailure(t: Table, keySets: seq<seq<string>>, n: nat, o: Oracles)
    requires WellFormed(t) && n <= |keySets|
    ensures KeyPhase(t, keySets, n, o).Failure? <==> [] in keySets[..n]
    ensures KeyPhase(t, keySets, n, o).Failure? ==> KeyPhase(t, keySets, n, o).error == IndexError
  {
    if n > 0 {
      KeyPhaseFailure(t, keySets, n - 1, o);
      assert keySets[..n] == keySets[..n - 1] + [keySets[n - 1]];
      if KeyPhase(t, keySets, n - 1, o).Success? {
        var u := KeyPhase(t, keySets, n - 1, o).value;
        assert KeyPhase(t, keySets, n, o).Failure? <==> KeyColumn(u, keySets[n - 1], o).Failure?;
      }
    }
  }

  /** The columns after `n` key sets: the original ones and `match_key_0` .. `match_key_{n-1}`. */
  lemma {:induction false} KeyPhaseColumns(t: Table, keySets: seq<seq<string>>, n: nat, o: Oracles, c: string)
    requires WellFormed(t) && n <= |keySets| && KeyPhase(t, keySets, n, o).Success?
    ensures c in KeyPhase(t, keySets, n, o).value.columns <==> c in t.columns || c in MatchKeyNames(n)
  {
    if n > 0 {
      KeyPhasePrefix(t, keySets, n - 1, n, o);
      KeyPhaseColumns(t, keySets, n - 1, o, c);
      KeyStepColumns(t, keySets, n, o, c);
    }
  }

  lemma KeyStepColumns(t: Table, keySets: seq<seq<string>>, n: nat, o: Oracles, c: string)
    requires WellFormed(t) && 0 < n <= |keySets| && KeyPhase(t, keySets, n, o).Success?
    requires KeyPhase(t, keySets, n - 1, o).Success?
    ensures c in KeyPhase(t, keySets, n, o).value.columns
        <==> c in KeyPhase(t, keySets, n - 1, o).value.columns || c == MatchKeyName(n - 1)
  {
  }

  /** A loop that gets through `n` key sets got through every shorter prefix. */
  lemma KeyPhasePrefix(t: Table, keySets: seq<seq<string>>, m: nat, n: nat, o: Oracles)
    requires WellFormed(t) && m <= n <= |keySets| && KeyPhase(t, keySets, n, o).Success?
    ensures KeyPhase(t, keySets, m, o).Success?
  {
    if KeyPhase(t, keySets, m, o).Failure? {
      KeyPhaseFailureSticks(t, keySets, m, n, o);
    }
  }

  /** One pass of the key loop leaves every other column alone. */
  lemma KeyStepKeeps(t: Table, keySets: seq<seq<string>>, n: nat, o: Oracles, c: string, r: nat)
    requires WellFormed(t) && 0 < n <= |keySets| && r < |t.rows|
    requires KeyPhase(t, keySets, n, o).Success?
    requires c in KeyPhase(t, keySets, n - 1, o).value.columns && c != MatchKeyName(n - 1)
    ensures c in KeyPhase(t, keySets, n, o).value.columns
    ensures KeyPhase(t, keySets, n, o).value.rows[r][c] == KeyPhase(t, keySets, n - 1, o).value.rows[r][c]
  {
  }

  /** A column is left alone by every later key set whose name differs from it. */
  lemma {:induction false} KeyPhaseKeeps(t: Table, keySets: seq<seq<string>>, m: nat, n: nat, o: Oracles, c: string, r: nat)
    requires WellFormed(t) && m <= n <= |keySets| && r < |t.rows|
    requires KeyPhase(t, keySets, m, o).Success? && KeyPhase(t, keySets, n, o).Success?
    requires c in KeyPhase(t, keySets, m, o).value.columns
    requires forall k :: m <= k < n ==> c != MatchKeyName(k)
    ensures c in KeyPhase(t, keySets, n, o).value.columns
    ensures KeyPhase(t, keySets, n, o).value.rows[r][c] == KeyPhase(t, keySets, m, o).value.rows[r][c]
    decreases n - m
  {
    if n > m {
      KeyPhasePrefix(t, keySets, n - 1, n, o);
      KeyPhaseKeeps(t, keySets, m, n - 1, o, c, r);
      KeyStepKeeps(t, keySets, n, o, c, r);
    }
  }

  /** `match_key_i` and `match_key_j` are different columns when `i != j`. */
  lemma MatchKeyNamesDistinct(i: nat, j: nat)
    requires i != j
    ensures MatchKeyName(i) != MatchKeyName(j)
  {
    if MatchKeyName(i) == MatchKeyName(j) {
      assert NatText(i) == MatchKeyName(i)[10..];
      NatTextInjective(i, j);
    }
  }

  lemma MatchKeyNamePrefix(i: nat)
    ensures StartsWith(MatchKeyName(i), "match_key_")
  {
    assert MatchKeyName(i)[..10] == "match_key_";
  }

  /** What key set `cols` yields for row `r` of the table it is computed on (a date key needs a first column). */
  function KeyValue(t: Table, cols: seq<string>, r: nat, o: Oracles): Cell
    requires WellFormed(t) && r < |t.rows| && (cols != [] || !IsDateKeySet(cols))
  {
    if IsDateKeySet(cols) then
      if cols[0] in t.columns then t.rows[r][cols[0]] else NaT
    else Str(NormalizeAddress(t.rows[r], cols, o))
  }

  /** Pass `n` of the key loop stores the key of its key set, computed on the table it receives. */
  lemma KeyStepValue(t: Table, keySets: seq<seq<string>>, n: nat, o: Oracles, r: nat)
    requires WellFormed(t) && 0 < n <= |keySets| && r < |t.rows|
    requires KeyPhase(t, keySets, n, o).Success?
    ensures KeyPhase(t, keySets, n - 1, o).Success?
    ensures keySets[n - 1] != [] || !IsDateKeySet(keySets[n - 1])
    ensures MatchKeyName(n - 1) in KeyPhase(t, keySets, n, o).value.columns
    ensures KeyPhase(t, keySets, n, o).value.rows[r][MatchKeyName(n - 1)]
         == KeyValue(KeyPhase(t, keySets, n - 1, o).value, keySets[n - 1], r, o)
  {
  }

  /** The earlier passes do not change what key set `i` computes, when it names no `match_key_` column. */
  lemma KeyValueStable(t: Table, keySets: seq<seq<string>>, i: nat, o: Oracles, r: nat)
    requires WellFormed(t) && i < |keySets| && r < |t.rows|
    requires KeyPhase(t, keySets, i, o).Success?
    requires keySets[i] != [] || !IsDateKeySet(keySets[i])
    requires forall k :: 0 <= k < |keySets[i]| ==> !StartsWith(keySets[i][k], "match_key_")
    ensures KeyValue(KeyPhase(t, keySets, i, o).value, keySets[i], r, o) == KeyValue(t, keySets[i], r, o)
  {
    var cols := keySets[i];
    var u := KeyPhase(t, keySets, i, o).value;
    forall k | 0 <= k < |cols|
      ensures cols[k] in u.columns <==> cols[k] in t.columns
      ensures cols[k] in t.columns ==> cols[k] in u.columns && u.rows[r][cols[k]] == t.rows[r][cols[k]]
    {
      KeyPhaseColumns(t, keySets, i, o, cols[k]);
      forall j | 0 <= j < i ensures cols[k] != MatchKeyName(j) {
        MatchKeyNamePrefix(j);
      }
      if cols[k] in t.columns {
        assert KeyPhase(t, keySets, 0, o) == Success(t);
        KeyPhaseKeeps(t, keySets, 0, i, o, cols[k], r);
      }
    }
    if !IsDateKeySet(cols) {
      assert u.rows[r].Keys == set c | c in u.columns;
      assert t.rows[r].Keys == set c | c in t.columns;
      AddressPartsAgree(u.rows[r], t.rows[r], cols, o);
    }
  }

  /**
   * Key `i` after the whole loop: the first column of a date key set (NaT when
   * absent), otherwise the address key of that row, provided the key set does
   * not itself name a `match_key_` column.
   */
  lemma KeyPhaseKey(t: Table, keySets: seq<seq<string>>, n: nat, o: Oracles, i: nat, r: nat)
    requires WellFormed(t) && i < n <= |keySets| && r < |t.rows|
    requires KeyPhase(t, keySets, n, o).Success?
    requires forall k :: 0 <= k < |keySets[i]| ==> !StartsWith(keySets[i][k], "match_key_")
    ensures keySets[i] != [] || !IsDateKeySet(keySets[i])
    ensures MatchKeyName(i) in KeyPhase(t, keySets, n, o).value.columns
    ensures KeyPhase(t, keySets, n, o).value.rows[r][MatchKeyName(i)] == KeyValue(t, keySets[i], r, o)
  {
    var name := MatchKeyName(i);
    assert KeyPhase(t, keySets, i + 1, o).Success? by {
      KeyPhasePrefix(t, keySets, i + 1, n, o);
    }
    var u := KeyPhase(t, keySets, i + 1, o).value;
    assert !IsDateKeySet(keySets[i]) || keySets[i] != [];
    assert name in u.columns && u.rows[r][name] == KeyValue(t, keySets[i], r, o) by {
      KeyStepValue(t, keySets, i + 1, o, r);
      KeyValueStable(t, keySets, i, o, r);
    }
    KeyKeptAfter(t, keySets, i, n, o, r);
  }

  /** Key `i`, once stored, is left alone by the later passes. */
  lemma KeyKeptAfter(t: Table, keySets: seq<seq<string>>, i: nat, n: nat, o: Oracles, r: nat)
    requires WellFormed(t) && i < n <= |keySets| && r < |t.rows|
    requires KeyPhase(t, keySets, i + 1, o).Success? && KeyPhase(t, keySets, n, o).Success?
    requires MatchKeyName(i) in KeyPhase(t, keySets, i + 1, o).value.columns
    ensures MatchKeyName(i) in KeyPhase(t, keySets, n, o).value.columns
    ensures KeyPhase(t, keySets, n, o).value.rows[r][MatchKeyName(i)]
         == KeyPhase(t, keySets, i + 1, o).value.rows[r][MatchKeyName(i)]
  {
    forall j | i + 1 <= j < n ensures MatchKeyName(i) != MatchKeyName(j) {
      MatchKeyNamesDistinct(i, j);
    }
    KeyPhaseKeeps(t, keySets, i + 1, n, o, MatchKeyName(i), r);
  }

  // ---------------------------------------------------------------------
  // Properties of `prepare_df`

  /** `prepare_df` fails exactly when some key set is empty (an empty key set counts as a date key, and `cols[0]` raises). */
  lemma PreparedFailure(t: Table, keySets: seq<seq<string>>, source: string, o: Oracles)
    requires WellFormed(t)
    ensures Prepared(t, keySets, source, o).Failure? <==> [] in keySets
    ensures Prepared(t, keySets, source, o).Failure? ==> Prepared(t, keySets, source, o).error == IndexError
  {
    KeyPhaseFailure(Normalized(t, keySets, o), keySets, |keySets|, o);
    assert keySets[..|keySets|] == keySets;
  }

  /** The prepared columns: the original ones, one `match_key_i` per key set and `__source`. */
  lemma PreparedColumns(t: Table, keySets: seq<seq<string>>, source: string, o: Oracles, c: string)
    requires WellFormed(t) && Prepared(t, keySets, source, o).Success?
    ensures c in Prepared(t, keySets, source, o).value.columns
        <==> c in t.columns || c == "__source" || c in MatchKeyNames(|keySets|)
  {
    var u := Normalized(t, keySets, o);
    var k := KeyPhase(u, keySets, |keySets|, o).value;
    assert c in k.columns <==> c in t.columns || c in MatchKeyNames(|keySets|) by {
      KeyPhaseColumns(u, keySets, |keySets|, o, c);
    }
    assert Prepared(t, keySets, source, o).value == Broadcast(k, "__source", Str(source));
  }

  /** Every prepared row is labelled with the file's name. */
  lemma PreparedSource(t: Table, keySets: seq<seq<string>>, source: string, o: Oracles, r: nat)
    requires WellFormed(t) && Prepared(t, keySets, source, o).Success? && r < |t.rows|
    ensures Prepared(t, keySets, source, o).value.rows[r]["__source"] == Str(source)
  {
  }

  /**
   * An original column that no key or label overwrites: a string column holds
   * its normalised text, and a date column has been parsed once for every time
   * it is configured; any other column is as it was.
   */
  lemma PreparedValue(t: Table, keySets: seq<seq<string>>, source: string, o: Oracles, c: string, r: nat)
    requires WellFormed(t) && Prepared(t, keySets, source, o).Success?
    requires c in t.columns && r < |t.rows|
    requires c != "__source" && forall k :: 0 <= k < |keySets| ==> c != MatchKeyName(k)
    ensures c in Prepared(t, keySets, source, o).value.columns
    ensures Prepared(t, keySets, source, o).value.rows[r][c]
         == ParseTimes(if c in StringColumns(keySets) then Str(FieldText(t.rows[r][c], o)) else t.rows[r][c],
                       multiset(DateColumns(keySets))[c], o)
  {
    var s := StringPhase(t, StringColumns(keySets), o);
    var n := Normalized(t, keySets, o);
    StringPhaseValue(t, StringColumns(keySets), o, c, r);
    DatePhaseValue(s, DateColumns(keySets), o, c, r);
    assert KeyPhase(n, keySets, 0, o) == Success(n);
    KeyPhaseKeeps(n, keySets, 0, |keySets|, o, c, r);
  }

  /**
   * Key `i` of a prepared row: for a date key set, its first column after
   * normalisation (NaT when absent); otherwise the address key of the
   * normalised row.  Holds for key sets that do not themselves name a
   * `match_key_` column.
   */
  lemma PreparedKey(t: Table, keySets: seq<seq<string>>, source: string, o: Oracles, i: nat, r: nat)
    requires WellFormed(t) && Prepared(t, keySets, source, o).Success?
    requires i < |keySets| && r < |t.rows|
    requires forall k :: 0 <= k < |keySets[i]| ==> !StartsWith(keySets[i][k], "match_key_")
    ensures keySets[i] != [] || !IsDateKeySet(keySets[i])
    ensures MatchKeyName(i) in Prepared(t, keySets, source, o).value.columns
    ensures Prepared(t, keySets, source, o).value.rows[r][MatchKeyName(i)]
         == KeyValue(Normalized(t, keySets, o), keySets[i], r, o)
  {
    var n := Normalized(t, keySets, o);
    KeyPhaseKey(n, keySets, |keySets|, o, i, r);
    MatchKeyNamePrefix(i);
    assert MatchKeyName(i) != "__source" by {
      assert MatchKeyName(i)[0] == 'm';
    }
  }

  // ---------------------------------------------------------------------
  // `prepare_df` as written: the date loop over `TryParseDateAsWritten`

  /** An infinite float, the one cell on which the written parser raises. */
  predicate IsInfinite(c: Cell) {
    c.Flt? && c.f.Infinity?
  }

  /** Some listed column of the table holds an infinite float. */
  predicate InfiniteIn(t: Table, cols: seq<string>) {
    exists c, k :: c in cols && c in t.columns && 0 <= k < |t.rows| && c in t.rows[k] && IsInfinite(t.rows[k][c])
  }

  /** `df[col].apply(try_parse_date)` as written: the parsed cells, or the OverflowError of the first infinite float. */
  function ParsedAsWritten(cells: seq<Cell>, o: Oracles): (r: Result<seq<Cell>, PyError>)
    ensures r.Success? ==> |r.value| == |cells|
  {
    if cells == [] then Success([])
    else match ParsedAsWritten(cells[..|cells| - 1], o)
      case Failure(e) => Failure(e)
      case Success(prev) =>
        match TryParseDateAsWritten(cells[|cells| - 1], o)
        case None => Failure(OverflowError)
        case Some(c) => Success(prev + [c])
  }

  /** The written apply raises exactly when some cell is an infinite float; otherwise it parses every cell as the total parser does. */
  lemma {:induction false} ParsedAsWrittenMeaning(cells: seq<Cell>, o: Oracles)
    ensures ParsedAsWritten(cells, o).Failure? <==> exists k :: 0 <= k < |cells| && IsInfinite(cells[k])
    ensures ParsedAsWritten(cells, o).Failure? ==> ParsedAsWritten(cells, o).error == OverflowError
    ensures ParsedAsWritten(cells, o).Success? ==>
      ParsedAsWritten(cells, o).value == seq(|cells|, k requires 0 <= k < |cells| => TryParseDate(cells[k], o))
    decreases |cells|
  {
    if cells != [] {
      var init := cells[..|cells| - 1];
      var last := cells[|cells| - 1];
      ParsedAsWrittenMeaning(init, o);
      assert TryParseDateAsWritten(last, o).None? <==> IsInfinite(last) by {
        AsWrittenRaisesOnlyOnInfinity(last, o);
      }
      if exists k :: 0 <= k < |init| && IsInfinite(init[k]) {
        var k :| 0 <= k < |init| && IsInfinite(init[k]);
        assert cells[k] == init[k];
      } else if !IsInfinite(last) {
        var v := ParsedAsWritten(init, o).value;
        var c := TryParseDateAsWritten(last, o).value;
        assert c == TryParseDate(last, o) by {
          AsWrittenRaisesOnlyOnInfinity(last, o);
        }
        assert ParsedAsWritten(cells, o) == Success(v + [c]);
        forall k | 0 <= k < |cells| ensures !IsInfinite(cells[k]) && (v + [c])[k] == TryParseDate(cells[k], o) {
          if k < |init| {
            assert cells[k] == init[k];
          }
        }
      }
    }
  }

  /** One pass of the written date loop. */
  function DateStepAsWritten(t: Table, col: string, o: Oracles): (r: Result<Table, PyError>)
    requires WellFormed(t)
    ensures r.Success? ==> WellFormed(r.value) && r.value.columns == t.columns && |r.value.rows| == |t.rows|
  {
    if col in t.columns then
      match ParsedAsWritten(Column(t, col), o)
      case Failure(e) => Failure(e)
      case Success(v) => Success(WithColumn(t, col, v))
    else Success(t)
  }

  /** `normalize_dates(df, cols)` as written: the first error aborts the loop. */
  function DatePhaseAsWritten(t: Table, cols: seq<string>, o: Oracles): (r: Result<Table, PyError>)
    requires WellFormed(t)
    ensures r.Success? ==> WellFormed(r.value) && r.value.columns == t.columns && |r.value.rows| == |t.rows|
  {
    if cols == [] then Success(t)
    else match DatePhaseAsWritten(t, cols[..|cols| - 1], o)
      case Failure(e) => Failure(e)
      case Success(u) => DateStepAsWritten(u, cols[|cols| - 1], o)
  }

  /** A cell parsed at least once is no longer an infinite float. */
  lemma ParsedNotInfinite(c: Cell, k: nat, o: Oracles)
    requires k > 0
    ensures !IsInfinite(ParseTimes(c, k, o))
  {
  }

  /** One written pass over a column the earlier passes left without an infinite float. */
  lemma DateStepAsWrittenMeaning(t: Table, col: string, o: Oracles)
    requires WellFormed(t)
    ensures DateStepAsWritten(t, col, o)
         == if InfiniteIn(t, [col]) then Failure(OverflowError) else Success(DateStep(t, col, o))
  {
    if col in t.columns {
      var cells := Column(t, col);
      ParsedAsWrittenMeaning(cells, o);
      if InfiniteIn(t, [col]) {
        var c, k :| c in [col] && c in t.columns && 0 <= k < |t.rows| && IsInfinite(t.rows[k][c]);
        assert IsInfinite(cells[k]);
      } else {
        assert forall k :: 0 <= k < |cells| ==> !IsInfinite(cells[k]) by {
          forall k | 0 <= k < |cells| ensures !IsInfinite(cells[k]) {
            assert !(col in [col] && col in t.columns && 0 <= k < |t.rows| && IsInfinite(t.rows[k][col]));
          }
        }
        var v := ParsedAsWritten(cells, o).value;
        assert v == seq(|t.rows|, k requires 0 <= k < |t.rows| => TryParseDate(t.rows[k][col], o));
      }
    }
  }

  /**
   * The written date loop raises OverflowError exactly when one of its columns
   * holds an infinite float in the table it starts from, and otherwise leaves
   * what the total loop leaves.
   */
  lemma {:induction false} DatePhaseAsWrittenMeaning(t: Table, cols: seq<string>, o: Oracles)
    requires WellFormed(t)
    ensures DatePhaseAsWritten(t, cols, o)
         == if InfiniteIn(t, cols) then Failure(OverflowError) else Success(DatePhase(t, cols, o))
    decreases |cols|
  {
    if cols != [] {
      var init := cols[..|cols| - 1];
      var last := cols[|cols| - 1];
      assert cols == init + [last];
      DatePhaseAsWrittenMeaning(t, init, o);
      if InfiniteIn(t, init) {
        var c, k :| c in init && c in t.columns && 0 <= k < |t.rows| && IsInfinite(t.rows[k][c]);
        assert c in cols;
      } else {
        var u := DatePhase(t, init, o);
        DateStepAsWrittenMeaning(u, last, o);
        assert InfiniteIn(u, [last]) <==> InfiniteIn(t, cols) by {
          LastColumnInfinite(t, init, last, o);
        }
      }
    }
  }

  /** The last column of the loop meets an infinite float exactly when the start table held one in it. */
  lemma LastColumnInfinite(t: Table, init: seq<string>, last: string, o: Oracles)
    requires WellFormed(t) && !InfiniteIn(t, init)
    ensures InfiniteIn(DatePhase(t, init, o), [last]) <==> InfiniteIn(t, init + [last])
  {
    var u := DatePhase(t, init, o);
    if InfiniteIn(u, [last]) {
      var c, k :| c in [last] && c in u.columns && 0 <= k < |u.rows| && IsInfinite(u.rows[k][c]);
      DatePhaseValue(t, init, o, last, k);
      if multiset(init)[last] > 0 {
        ParsedNotInfinite(t.rows[k][last], multiset(init)[last], o);
      }
      assert last in init + [last];
    }
    if InfiniteIn(t, init + [last]) {
      var c, k :| c in init + [last] && c in t.columns && 0 <= k < |t.rows| && IsInfinite(t.rows[k][c]);
      assert c !in init;
      assert c == last;
      DatePhaseValue(t, init, o, last, k);
      assert last in [last];
    }
  }

  /** What `prepare_df(df, key_sets, label)` does as written: it raises where the written date loop raises. */
  function PreparedAsWritten(t: Table, keySets: seq<seq<string>>, source: string, o: Oracles): Result<Table, PyError>
    requires WellFormed(t)
  {
    match DatePhaseAsWritten(StringPhase(t, StringColumns(keySets), o), DateColumns(keySets), o)
    case Failure(e) => Failure(e)
    case Success(u) =>
      match KeyPhase(u, keySets, |keySets|, o)
      case Failure(e) => Failure(e)
      case Success(k) => Success(Broadcast(k, "__source", Str(source)))
  }

  /** The string loop leaves the date columns as they were, so it neither puts in nor takes out an infinite float. */
  lemma StringPhaseKeepsInfinite(t: Table, keySets: seq<seq<string>>, o: Oracles)
    requires WellFormed(t)
    ensures InfiniteIn(StringPhase(t, StringColumns(keySets), o), DateColumns(keySets))
        <==> InfiniteIn(t, DateColumns(keySets))
  {
    var s := StringPhase(t, StringColumns(keySets), o);
    var dates := DateColumns(keySets);
    forall c, k | c in dates && c in t.columns && 0 <= k < |t.rows|
      ensures s.rows[k][c] == t.rows[k][c]
    {
      ColumnClassification(keySets, c);
      StringPhaseValue(t, StringColumns(keySets), o, c, k);
    }
  }

  /**
   * `prepare_df` as written returns what the corrected one returns, except
   * that an infinite float in a configured date column raises OverflowError.
   */
  lemma PreparedAsWrittenMeaning(t: Table, keySets: seq<seq<string>>, source: string, o: Oracles)
    requires WellFormed(t)
    ensures PreparedAsWritten(t, keySets, source, o)
         == if InfiniteIn(t, DateColumns(keySets)) then Failure(OverflowError) else Prepared(t, keySets, source, o)
  {
    var s := StringPhase(t, StringColumns(keySets), o);
    DatePhaseAsWrittenMeaning(s, DateColumns(keySets), o);
    StringPhaseKeepsInfinite(t, keySets, o);
  }

  /** As written, `prepare_df` fails exactly on an empty key set or an infinite float in a date column, the float taking precedence. */
  lemma PreparedAsWrittenFailure(t: Table, keySets: seq<seq<string>>, source: string, o: Oracles)
    requires WellFormed(t)
    ensures PreparedAsWritten(t, keySets, source, o).Failure? <==> InfiniteIn(t, DateColumns(keySets)) || [] in keySets
    ensures PreparedAsWritten(t, keySets, source, o).Failure? ==>
      PreparedAsWritten(t, keySets, source, o).error == if InfiniteIn(t, DateColumns(keySets)) then OverflowError else IndexError
  {
    PreparedAsWrittenMeaning(t, keySets, source, o);
    PreparedFailure(t, keySets, source, o);
  }
}
