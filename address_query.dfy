/**
 * The bulk address query of find_unmatched_transactions.py: the CSV must
 * hold the four address columns; rows with a missing value are dropped,
 * states are normalised, one `ILIKE` clause is built per row, and the
 * clauses and the sorted distinct states are set into a fixed SELECT.
 */
module AddressQuery {
  import opened Wrappers
  import opened PyText
  import opened Cells
  import opened Frames
  import opened States

  /** `required_cols`. */
  const RequiredColumns: seq<string> := ["Address", "City", "State", "Zip Code"]

  /** What `main` ends with: a missing column reported (and nothing built), or the final query. */
  datatype Outcome = MissingColumn(column: string) | Query(sql: string)

  // ---------------------------------------------------------------------
  // The required-column check

  /** Position of the first label of `req` that `cols` lacks (`|req|` when none is missing). */
  function FirstAbsent(cols: seq<string>, req: seq<string>): (k: nat)
    ensures k <= |req|
    ensures forall j :: 0 <= j < k ==> req[j] in cols
    ensures k < |req| ==> req[k] !in cols
  {
    if req == [] then 0
    else if req[0] !in cols then 0
    else 1 + FirstAbsent(cols, req[1..])
  }

  /** The first required column the file lacks, if any. */
  function MissingRequired(cols: seq<string>): Option<string> {
    var k := FirstAbsent(cols, RequiredColumns);
    if k < |RequiredColumns| then Some(RequiredColumns[k]) else None
  }

  /** `for col in required_cols: if col not in df.columns: ... return`. */
  method CheckColumns(cols: seq<string>) returns (missing: Option<string>)
    ensures missing == MissingRequired(cols)
  {
    for k := 0 to |RequiredColumns|
      invariant forall j :: 0 <= j < k ==> RequiredColumns[j] in cols
    {
      if RequiredColumns[k] !in cols {
        return Some(RequiredColumns[k]);
      }
    }
    return None;
  }

  /** Nothing is missing exactly when all four columns are there; otherwise the one reported is absent. */
  lemma MissingRequiredMeaning(cols: seq<string>)
    ensures MissingRequired(cols).None? <==> forall j :: 0 <= j < |RequiredColumns| ==> RequiredColumns[j] in cols
    ensures MissingRequired(cols).Some? ==>
      MissingRequired(cols).value in RequiredColumns && MissingRequired(cols).value !in cols
  {
    var k := FirstAbsent(cols, RequiredColumns);
    if k < |RequiredColumns| {
      assert RequiredColumns[k] !in cols;
    }
  }

  // ---------------------------------------------------------------------
  // `df[required_cols].dropna()`

  predicate HasFields(row: Row) {
    "Address" in row && "City" in row && "State" in row && "Zip Code" in row
  }

  /** All four address fields are present and none is missing (NaN, NaT or None). */
  predicate Complete(row: Row) {
    HasFields(row)
    && !IsNa(row["Address"]) && !IsNa(row["City"]) && !IsNa(row["State"]) && !IsNa(row["Zip Code"])
  }

  /** The positions among rows `0 .. n-1` that `dropna` keeps. */
  function CompletePositions(rows: seq<Row>, n: nat): (r: seq<nat>)
    requires n <= |rows|
    ensures forall k :: 0 <= k < |r| ==> r[k] < n && Complete(rows[r[k]])
  {
    if n == 0 then []
    else CompletePositions(rows, n - 1) + if Complete(rows[n - 1]) then [n - 1] else []
  }

  /** The kept rows, with only the four required columns. */
  function DropIncomplete(t: Table): (r: seq<Row>)
    ensures forall k :: 0 <= k < |r| ==> Complete(r[k])
  {
    var pos := CompletePositions(t.rows, |t.rows|);
    seq(|pos|, k requires 0 <= k < |pos| => Restrict(t.rows[pos[k]], RequiredColumns))
  }

  /** `dropna` keeps exactly the complete rows. */
  lemma {:induction false} CompletePositionsExact(rows: seq<Row>, n: nat)
    requires n <= |rows|
    ensures forall j: nat :: j in CompletePositions(rows, n) <==> j < n && Complete(rows[j])
    decreases n
  {
    if n > 0 {
      CompletePositionsExact(rows, n - 1);
    }
  }

  /** Without a complete row nothing is kept. */
  lemma {:induction false} NoCompletePositions(rows: seq<Row>, n: nat)
    requires n <= |rows| && forall k :: 0 <= k < n ==> !Complete(rows[k])
    ensures CompletePositions(rows, n) == []
    decreases n
  {
    if n > 0 {
      NoCompletePositions(rows, n - 1);
    }
  }

  /** The kept rows stay in file order. */
  lemma {:induction false} CompletePositionsOrdered(rows: seq<Row>, n: nat)
    requires n <= |rows|
    ensures Increasing(CompletePositions(rows, n))
    decreases n
  {
    if n > 0 {
      var prev := CompletePositions(rows, n - 1);
      CompletePositionsOrdered(rows, n - 1);
      var pos := CompletePositions(rows, n);
      if Complete(rows[n - 1]) {
        assert pos == prev + [n - 1];
      } else {
        assert pos == prev;
      }
      forall a, b | 0 <= a < b < |pos|
        ensures pos[a] < pos[b]
      {
        if b < |prev| {
          assert pos[a] == prev[a] && pos[b] == prev[b];
        } else {
          assert pos[a] == prev[a] && pos[b] == n - 1;
        }
      }
    }
  }

  // ---------------------------------------------------------------------
  // `df['State'] = df['State'].apply(normalize_state)`

  predicate StateIsText(row: Row)
    requires HasFields(row)
  {
    row["State"].Str?
  }

  /** The row with its state normalised. */
  function NormalizedRow(row: Row): (r: Row)
    requires HasFields(row) && StateIsText(row)
    ensures HasFields(r)
  {
    row["State" := Str(NormalizeState(row["State"].s))]
  }

  /** Every row's state is normalised; a state that is not text raises AttributeError on `.strip()`. */
  function NormalizedStates(rows: seq<Row>): (r: Result<seq<Row>, PyError>)
    requires forall k :: 0 <= k < |rows| ==> HasFields(rows[k])
    ensures r.Success? ==> |r.value| == |rows| && forall k :: 0 <= k < |rows| ==> HasFields(r.value[k])
  {
    if forall k :: 0 <= k < |rows| ==> StateIsText(rows[k]) then
      Success(seq(|rows|, k requires 0 <= k < |rows| => NormalizedRow(rows[k])))
    else Failure(AttributeError("State"))
  }

  /**
   * Normalisation succeeds exactly when every state is text; it then
   * replaces each state by its normal form, leaves the other fields alone,
   * and a second normalisation changes nothing.
   */
  lemma NormalizedStatesMeaning(rows: seq<Row>)
    requires forall k :: 0 <= k < |rows| ==> HasFields(rows[k])
    ensures NormalizedStates(rows).Success? <==> forall k :: 0 <= k < |rows| ==> rows[k]["State"].Str?
    ensures NormalizedStates(rows).Failure? ==> NormalizedStates(rows).error == AttributeError("State")
    ensures var r := NormalizedStates(rows);
      r.Success? ==> forall k :: 0 <= k < |rows| ==>
        r.value[k]["State"] == Str(NormalizeState(rows[k]["State"].s))
        && (forall c :: c in rows[k] && c != "State" ==> c in r.value[k] && r.value[k][c] == rows[k][c])
        && Stripped(r.value[k]["State"].s) && IsUpper(r.value[k]["State"].s)
    ensures var r := NormalizedStates(rows);
      r.Success? ==> NormalizedStates(r.value) == r
  {
    var r := NormalizedStates(rows);
    if r.Success? {
      forall k | 0 <= k < |rows|
        ensures Stripped(r.value[k]["State"].s) && IsUpper(r.value[k]["State"].s)
      {
        NormalizedShape(rows[k]["State"].s);
      }
      var again := NormalizedStates(r.value);
      assert again.Success?;
      forall k | 0 <= k < |rows|
        ensures again.value[k] == r.value[k]
      {
        NormalizeStateIdempotent(rows[k]["State"].s);
        assert again.value[k]["State"] == r.value[k]["State"];
      }
      assert again.value == r.value;
    }
  }

  // ---------------------------------------------------------------------
  // The clause loop

  /** The text between and around the three values of a clause. */
  const ClauseOpen: string := "(city ILIKE '%%"
  const ClauseZip: string := "%%' AND zip_code = '"
  const ClauseStreet: string := "' AND street_address ILIKE '%%"
  const ClauseClose: string := "%%')"

  /** The f-string of one clause (`%%` is literal text in an f-string). */
  function Clause(city: string, zip: string, street: string): string {
    ClauseOpen + city + ClauseZip + zip + ClauseStreet + street + ClauseClose
  }

  /** The three values stand verbatim at fixed offsets of the clause, which can be read back from it. */
  lemma ClauseFields(city: string, zip: string, street: string)
    ensures var c := Clause(city, zip, street);
      var a := |ClauseOpen|;
      var b := a + |city| + |ClauseZip|;
      var d := b + |zip| + |ClauseStreet|;
      |c| == d + |street| + |ClauseClose|
      && c[a..a + |city|] == city && c[b..b + |zip|] == zip && c[d..d + |street|] == street
      && StartsWith(c, ClauseOpen)
  {
    var c := Clause(city, zip, street);
    var a := |ClauseOpen|;
    var b := a + |city| + |ClauseZip|;
    var d := b + |zip| + |ClauseStreet|;
    assert c == ClauseOpen + city + ClauseZip + zip + ClauseStreet + street + ClauseClose;
    assert c[a..a + |city|] == city;
    assert c[b..b + |zip|] == zip;
    assert c[d..d + |street|] == street;
    assert c[..a] == ClauseOpen;
  }

  /**
   * One pass of the loop: city and street stripped and lower-cased, the zip
   * code's `str` stripped; `.strip()` raises on a city, state or address
   * that is not text, in that order of reading.
   */
  function RowClause(row: Row, o: Oracles): (r: Result<string, PyError>)
    requires HasFields(row)
    ensures r.Success? <==> TextFields(row)
  {
    if !row["City"].Str? then Failure(AttributeError("City"))
    else if !row["State"].Str? then Failure(AttributeError("State"))
    else if !row["Address"].Str? then Failure(AttributeError("Address"))
    else
      Success(Clause(Lower(Strip(row["City"].s)), Strip(PyStr(row["Zip Code"], o)), Lower(Strip(row["Address"].s))))
  }

  /** The fields of a clause are normalised: city and street stripped and lower case, zip stripped. */
  lemma RowClauseFields(row: Row, o: Oracles)
    requires HasFields(row) && RowClause(row, o).Success?
    ensures var city := Lower(Strip(row["City"].s));
      var zip := Strip(PyStr(row["Zip Code"], o));
      var street := Lower(Strip(row["Address"].s));
      RowClause(row, o).value == Clause(city, zip, street)
      && Stripped(city) && IsLower(city) && Stripped(zip) && Stripped(street) && IsLower(street)
  {
    CaseKeepsSpace(Strip(row["City"].s));
    CaseResult(Strip(row["City"].s));
    CaseKeepsSpace(Strip(row["Address"].s));
    CaseResult(Strip(row["Address"].s));
  }

  /** City, state and address are text, so `.strip()` applies to each. */
  predicate TextFields(row: Row)
    requires HasFields(row)
  {
    row["City"].Str? && row["State"].Str? && row["Address"].Str?
  }

  /** The outcome of each pass of the loop, row by row. */
  function RowClauses(rows: seq<Row>, o: Oracles): (r: seq<Result<string, PyError>>)
    requires forall k :: 0 <= k < |rows| ==> HasFields(rows[k])
    ensures |r| == |rows| && forall k :: 0 <= k < |rows| ==> r[k] == RowClause(rows[k], o)
  {
    seq(|rows|, k requires 0 <= k < |rows| => RowClause(rows[k], o))
  }

  /** The values of the passes, in order, up to the first exception. */
  function Collect(rs: seq<Result<string, PyError>>): Result<seq<string>, PyError> {
    if rs == [] then Success([])
    else match Collect(rs[..|rs| - 1])
      case Failure(e) => Failure(e)
      case Success(vs) =>
        match rs[|rs| - 1]
        case Failure(e) => Failure(e)
        case Success(v) => Success(vs + [v])
  }

  /** `conditions` after the loop over `rows`, or the first exception. */
  function Conditions(rows: seq<Row>, o: Oracles): Result<seq<string>, PyError>
    requires forall k :: 0 <= k < |rows| ==> HasFields(rows[k])
  {
    Collect(RowClauses(rows, o))
  }

  /** The loop: one clause per row, in row order, or the first exception. */
  method BuildConditions(rows: seq<Row>, o: Oracles) returns (r: Result<seq<string>, PyError>)
    requires forall k :: 0 <= k < |rows| ==> HasFields(rows[k])
    ensures r == Conditions(rows, o)
  {
    ghost var passes := RowClauses(rows, o);
    var conditions: seq<string> := [];
    for k := 0 to |rows|
      invariant Collect(passes[..k]) == Success(conditions)
    {
      assert passes[..k + 1][..k] == passes[..k];
      var row := rows[k];
      var clause := RowClause(row, o);
      if clause.Failure? {
        CollectSticks(passes, k + 1);
        return Failure(clause.error);
      }
      conditions := conditions + [clause.value];
    }
    assert passes[..|rows|] == passes;
    return Success(conditions);
  }

  /** A prefix that raises makes the whole loop raise the same exception. */
  lemma {:induction false} CollectSticks(rs: seq<Result<string, PyError>>, n: nat)
    requires n <= |rs| && Collect(rs[..n]).Failure?
    ensures Collect(rs) == Collect(rs[..n])
    decreases |rs| - n
  {
    if n < |rs| {
      assert rs[..n + 1][..n] == rs[..n];
      CollectSticks(rs, n + 1);
    } else {
      assert rs[..n] == rs;
    }
  }

  /** Collecting succeeds exactly when every pass does, and then keeps every value in order. */
  lemma {:induction false} CollectSuccess(rs: seq<Result<string, PyError>>)
    ensures Collect(rs).Success? <==> forall k :: 0 <= k < |rs| ==> rs[k].Success?
    ensures Collect(rs).Success? ==>
      |Collect(rs).value| == |rs| && forall k :: 0 <= k < |rs| ==> rs[k] == Success(Collect(rs).value[k])
    decreases |rs|
  {
    if rs != [] {
      var n := |rs| - 1;
      var front := rs[..n];
      assert forall k :: 0 <= k < n ==> front[k] == rs[k];
      CollectSuccess(front);
    }
  }

  /** A failure is the exception of the first pass that raises. */
  lemma {:induction false} CollectFailure(rs: seq<Result<string, PyError>>)
    requires Collect(rs).Failure?
    ensures exists k :: 0 <= k < |rs| && rs[k] == Failure(Collect(rs).error)
                     && forall j :: 0 <= j < k ==> rs[j].Success?
    decreases |rs|
  {
    var n := |rs| - 1;
    var front := rs[..n];
    assert forall k :: 0 <= k < n ==> front[k] == rs[k];
    if Collect(front).Failure? {
      CollectFailure(front);
      var k :| 0 <= k < |front| && front[k] == Failure(Collect(front).error)
                && forall j :: 0 <= j < k ==> front[j].Success?;
      assert rs[k] == Failure(Collect(rs).error);
    } else {
      CollectSuccess(front);
      assert rs[n] == Failure(Collect(rs).error);
    }
  }

  /**
   * The loop succeeds exactly when every row has text in city, state and
   * address; it then holds exactly one clause per row, in row order.
   */
  lemma ConditionsMeaning(rows: seq<Row>, o: Oracles)
    requires forall k :: 0 <= k < |rows| ==> HasFields(rows[k])
    ensures Conditions(rows, o).Success? <==> forall k :: 0 <= k < |rows| ==> TextFields(rows[k])
    ensures var r := Conditions(rows, o);
      r.Success? ==> |r.value| == |rows| && forall k :: 0 <= k < |rows| ==> RowClause(rows[k], o) == Success(r.value[k])
  {
    var passes := RowClauses(rows, o);
    CollectSuccess(passes);
    assert (forall k :: 0 <= k < |rows| ==> TextFields(rows[k])) <==> (forall k :: 0 <= k < |passes| ==> passes[k].Success?) by {
      assert forall k :: 0 <= k < |rows| ==> (TextFields(rows[k]) <==> passes[k].Success?);
    }
  }

  /**
   * An exception of the loop is the AttributeError of the first row whose
   * city, state or address is not text.
   */
  lemma ConditionsErrors(rows: seq<Row>, o: Oracles)
    requires forall k :: 0 <= k < |rows| ==> HasFields(rows[k])
    ensures var r := Conditions(rows, o);
      r.Failure? ==> r.error == AttributeError("City") || r.error == AttributeError("State") || r.error == AttributeError("Address")
    ensures var r := Conditions(rows, o);
      r.Failure? ==> exists k :: 0 <= k < |rows| && !TextFields(rows[k]) && RowClause(rows[k], o) == Failure(r.error)
                              && forall j :: 0 <= j < k ==> TextFields(rows[j])
  {
    var passes := RowClauses(rows, o);
    if Collect(passes).Failure? {
      CollectFailure(passes);
      var k :| 0 <= k < |passes| && passes[k] == Failure(Collect(passes).error)
                && forall j :: 0 <= j < k ==> passes[j].Success?;
      assert RowClause(rows[k], o) == Failure(Collect(passes).error);
    }
  }

  // ---------------------------------------------------------------------
  // The strings

  /** The separator of the WHERE clause. */
  const Or: string := " OR\n    "

  /** `state IN ('...')` over the sorted distinct states. */
  function StateFilter(states: seq<string>): string {
    "state IN ('" + Join("', '", SortedSet(states)) + "')"
  }

  /** The state of every row. */
  function StatesOf(rows: seq<Row>): (r: seq<string>)
    requires forall k :: 0 <= k < |rows| ==> "State" in rows[k] && rows[k]["State"].Str?
    ensures |r| == |rows| && forall k :: 0 <= k < |rows| ==> r[k] == rows[k]["State"].s
  {
    seq(|rows|, k requires 0 <= k < |rows| => rows[k]["State"].s)
  }

  /** The fixed text of `final_query` before, between and after its two parts. */
  const QueryHead: string :=
    "\n        SELECT id AS property_id,\n"
    + "               CONCAT(p.street_address,\n"
    + "                   CASE WHEN p.unit_number IS NOT NULL AND p.unit_number <> '' THEN ' ' || p.unit_number ELSE '' END,\n"
    + "                   ', ', p.city, ', ', p.state, ' ', p.zip_code) AS full_address\n"
    + "        FROM properties p\n"
    + "        WHERE "
  const QueryMiddle: string := "\n          AND (\n            "
  const QueryTail: string := "\n          );\n    "

  /** `final_query`. */
  function QueryText(stateFilter: string, whereClause: string): string {
    QueryHead + stateFilter + QueryMiddle + whereClause + QueryTail
  }

  /** What `main` builds from the CSV, up to the point where the query is executed. */
  function AddressQuery(t: Table, o: Oracles): Result<Outcome, PyError> {
    match MissingRequired(t.columns)
    case Some(c) => Success(MissingColumn(c))
    case None =>
      var rows := DropIncomplete(t);
      match NormalizedStates(rows)
      case Failure(e) => Failure(e)
      case Success(normalized) =>
        NormalizedStatesMeaning(rows);
        match Conditions(normalized, o)
        case Failure(e) => Failure(e)
        case Success(conds) => Success(Query(QueryText(StateFilter(StatesOf(normalized)), Join(Or, conds))))
  }

  /** The query-building steps of `main`, with its loops. */
  method BuildQuery(t: Table, o: Oracles) returns (r: Result<Outcome, PyError>)
    ensures r == AddressQuery(t, o)
  {
    var missing := CheckColumns(t.columns);
    if missing.Some? {
      return Success(MissingColumn(missing.value));
    }
    var rows := DropIncomplete(t);
    var normalized := NormalizedStates(rows);
    if normalized.Failure? {
      return Failure(normalized.error);
    }
    NormalizedStatesMeaning(rows);
    var conditions := BuildConditions(normalized.value, o);
    if conditions.Failure? {
      return Failure(conditions.error);
    }
    var stateList := Join("', '", SortedSet(StatesOf(normalized.value)));
    var stateFilter := "state IN ('" + stateList + "')";
    var whereClause := Join(Or, conditions.value);
    r := Success(Query(QueryHead + stateFilter + QueryMiddle + whereClause + QueryTail));
  }

  /**
   * The outcomes of `main`: a missing column is reported exactly when one of
   * the four is absent; the only exceptions are AttributeErrors on a field
   * that is not text; and when every kept row has text in city, state and
   * address, the query is built.
   */
  lemma AddressQueryOutcomes(t: Table, o: Oracles)
    ensures var r := AddressQuery(t, o);
      (r.Success? && r.value.MissingColumn?) <==> exists j :: 0 <= j < |RequiredColumns| && RequiredColumns[j] !in t.columns
    ensures var r := AddressQuery(t, o);
      r.Failure? ==> r.error == AttributeError("City") || r.error == AttributeError("State") || r.error == AttributeError("Address")
    ensures var rows := DropIncomplete(t);
      MissingRequired(t.columns).None?
      && (forall k :: 0 <= k < |rows| ==> rows[k]["City"].Str? && rows[k]["State"].Str? && rows[k]["Address"].Str?)
      ==> AddressQuery(t, o).Success? && AddressQuery(t, o).value.Query?
  {
    MissingRequiredMeaning(t.columns);
    var rows := DropIncomplete(t);
    if MissingRequired(t.columns).None? {
      NormalizedStatesMeaning(rows);
      var n := NormalizedStates(rows);
      if n.Success? {
        ConditionsMeaning(n.value, o);
        ConditionsErrors(n.value, o);
      }
    }
  }

  /**
   * `sorted(set(df['State']))` after normalisation: strictly ascending, and
   * holding exactly the normal forms of the rows' states.
   */
  lemma StateListMeaning(rows: seq<Row>)
    requires forall k :: 0 <= k < |rows| ==> HasFields(rows[k])
    requires NormalizedStates(rows).Success?
    ensures StrictlySorted(SortedSet(StatesOf(NormalizedStates(rows).value)))
    ensures forall s :: s in SortedSet(StatesOf(NormalizedStates(rows).value)) <==>
      exists k :: 0 <= k < |rows| && s == NormalizeState(rows[k]["State"].s)
  {
    var xs := StatesOf(NormalizedStates(rows).value);
    assert |xs| == |rows| && forall k :: 0 <= k < |rows| ==> xs[k] == NormalizeState(rows[k]["State"].s) by {
      NormalizedStatesMeaning(rows);
    }
    forall s
      ensures s in xs <==> exists k :: 0 <= k < |rows| && s == NormalizeState(rows[k]["State"].s)
    {
      if s in xs {
        var k :| 0 <= k < |xs| && xs[k] == s;
      }
    }
  }


  /** The filter over no state at all lists one empty state. */
  lemma EmptyStateFilter()
    ensures StateFilter([]) == "state IN ('')"
  {
    assert SortedSet([]) == [];
    assert Join("', '", []) == "";
  }

  /**
   * With the columns present but no complete row, the query still goes out,
   * with an empty state list and an empty parenthesised condition.
   */
  lemma NoCompleteRows(t: Table, o: Oracles)
    requires MissingRequired(t.columns).None?
    requires forall k :: 0 <= k < |t.rows| ==> !Complete(t.rows[k])
    ensures AddressQuery(t, o) == Success(Query(QueryText(StateFilter([]), "")))
  {
    var rows := DropIncomplete(t);
    assert rows == [] by {
      NoCompletePositions(t.rows, |t.rows|);
    }
    assert NormalizedStates(rows) == Success([]);
    assert Conditions([], o) == Success([]) by {
      assert RowClauses([], o) == [];
    }
    assert StatesOf([]) == [];
  }
}
