/**
 * `match_data` (tool_for_comparing_csv_data.py): every file1 row is scored
 * against every file2 row on the `match_key_i` columns; every pair whose
 * mean score reaches the threshold becomes a matched record, nothing is
 * consumed, and the rows of each file that no record covers are returned.
 */
module Matching {
  import opened Wrappers
  import opened PyText
  import opened Calendar
  import opened Cells
  import opened Frames
  import opened Prepare

  function Abs(x: int): nat {
    if x < 0 then -x else x
  }

  // ---------------------------------------------------------------------
  // Scoring

  /**
   * The score of one key.  Two parsed dates (a `Timestamp`; NaT is not one)
   * score 100 when `abs((v1 - v2).days)` is within the tolerance and 0
   * otherwise; a difference outside the `Timedelta` range raises.  Anything
   * else is the token-sort ratio of the two values' `str`.
   */
  function KeyScore(v1: Cell, v2: Cell, tolerance: int, o: Oracles): (r: Result<real, PyError>)
    ensures r.Success? ==> 0.0 <= r.value <= 100.0
    ensures r.Failure? <==> v1.Stamp? && v2.Stamp? && !InRange(v1.ns - v2.ns)
    ensures r.Failure? ==> r.error == OutOfBoundsDatetime
  {
    if v1.Stamp? && v2.Stamp? then
      if !InRange(v1.ns - v2.ns) then Failure(OutOfBoundsDatetime)
      else Success(if Abs(DayDiff(v1.ns, v2.ns)) <= tolerance then 100.0 else 0.0)
    else Success(o.ratio(PyStr(v1, o), PyStr(v2, o)))
  }

  /** `range(num_keys)` has this many elements. */
  function KeyCount(numKeys: int): nat {
    if numKeys < 0 then 0 else numKeys
  }

  /** The scores of keys `0 .. n-1` of a pair of rows, or the first error met (a missing key, a date overflow). */
  function PairScores(row1: Row, row2: Row, n: nat, tolerance: int, o: Oracles): (r: Result<seq<real>, PyError>)
    ensures r.Success? ==> |r.value| == n && forall k :: 0 <= k < n ==> 0.0 <= r.value[k] <= 100.0
  {
    if n == 0 then Success([])
    else match PairScores(row1, row2, n - 1, tolerance, o)
      case Failure(e) => Failure(e)
      case Success(scores) =>
        var name := MatchKeyName(n - 1);
        if name !in row1 then Failure(KeyError(name))
        else if name !in row2 then Failure(KeyError(name))
        else match KeyScore(row1[name], row2[name], tolerance, o)
          case Failure(e) => Failure(e)
          case Success(x) => Success(scores + [x])
  }

  /** Python's `sum`, left to right. */
  function Sum(xs: seq<real>): real {
    if xs == [] then 0.0 else Sum(xs[..|xs| - 1]) + xs[|xs| - 1]
  }

  lemma {:induction false} SumBounds(xs: seq<real>)
    requires forall k :: 0 <= k < |xs| ==> 0.0 <= xs[k] <= 100.0
    ensures 0.0 <= Sum(xs) <= 100.0 * |xs| as real
  {
    if xs != [] {
      SumBounds(xs[..|xs| - 1]);
    }
  }

  lemma MeanBounds(s: real, n: real)
    requires n > 0.0 && 0.0 <= s <= 100.0 * n
    ensures 0.0 <= s / n <= 100.0
  {
    var q := s / n;
    assert q * n == s;
  }

  /** `sum(scores) / len(scores)`: the mean score of a pair, which lies between 0 and 100. */
  function PairAverage(row1: Row, row2: Row, numKeys: int, tolerance: int, o: Oracles): (r: Result<real, PyError>)
    ensures r.Success? ==> 0.0 <= r.value <= 100.0
    ensures r.Failure? && PairScores(row1, row2, KeyCount(numKeys), tolerance, o).Success? ==>
      r.error == ZeroDivisionError && numKeys <= 0
  {
    match PairScores(row1, row2, KeyCount(numKeys), tolerance, o)
    case Failure(e) => Failure(e)
    case Success(scores) =>
      if |scores| == 0 then Failure(ZeroDivisionError)
      else
        SumBounds(scores);
        MeanBounds(Sum(scores), |scores| as real);
        Success(Sum(scores) / |scores| as real)
  }

  /** Python's `round(x, 2)` on the exact value: to the nearest hundredth, ties to even. */
  function Round2(x: real): (r: real)
    ensures -0.005 <= r - x <= 0.005
  {
    var y := x * 100.0;
    var f := y.Floor;
    var n := if y - f as real > 0.5 || (y - f as real == 0.5 && f % 2 != 0) then f + 1 else f;
    n as real / 100.0
  }

  // ---------------------------------------------------------------------
  // The nested loop

  /** A matched pair: row `i` of file1, row `j` of file2 and their mean score. */
  datatype Pair = Pair(i: nat, j: nat, avg: real)

  /** The state of the outer loop: the pairs so far and the file1 rows that found no match. */
  datatype Scan = Scan(pairs: seq<Pair>, unmatched: seq<nat>)

  /** The pair `(i, j)` is accepted: its mean score exists and reaches the threshold. */
  predicate Accepted(t1: Table, t2: Table, i: nat, j: nat, numKeys: int, threshold: real, tolerance: int, o: Oracles)
    requires i < |t1.rows| && j < |t2.rows|
  {
    var a := PairAverage(t1.rows[i], t2.rows[j], numKeys, tolerance, o);
    a.Success? && a.value >= threshold
  }

  /** The inner loop for file1 row `i` over file2 rows `0 .. m-1`: the pairs it accepts, or the first error. */
  function RowPairs(t1: Table, t2: Table, i: nat, m: nat, numKeys: int, threshold: real, tolerance: int, o: Oracles)
    : (r: Result<seq<Pair>, PyError>)
    requires i < |t1.rows| && m <= |t2.rows|
    ensures r.Success? ==> forall k :: 0 <= k < |r.value| ==> r.value[k].i == i && r.value[k].j < m
  {
    if m == 0 then Success([])
    else match RowPairs(t1, t2, i, m - 1, numKeys, threshold, tolerance, o)
      case Failure(e) => Failure(e)
      case Success(ps) =>
        var row2 := t2.rows[m - 1];
        match PairAverage(t1.rows[i], row2, numKeys, tolerance, o)
        case Failure(e) => Failure(e)
        case Success(avg) =>
          if avg < threshold then Success(ps)
          else if "match_key_0" !in row2 then Failure(KeyError("match_key_0"))
          else if "match_key_1" !in row2 then Failure(KeyError("match_key_1"))
          else Success(ps + [Pair(i, m - 1, avg)])
  }

  /** One pass of the outer loop: the keys of file1 row `i` are read (for the log), then the inner loop runs. */
  function RowScan(t1: Table, t2: Table, i: nat, numKeys: int, threshold: real, tolerance: int, o: Oracles)
    : (r: Result<seq<Pair>, PyError>)
    requires i < |t1.rows|
    ensures r.Success? ==> InTables(t1, t2, r.value)
  {
    var row1 := t1.rows[i];
    if "match_key_0" !in row1 then Failure(KeyError("match_key_0"))
    else if "match_key_1" !in row1 then Failure(KeyError("match_key_1"))
    else RowPairs(t1, t2, i, |t2.rows|, numKeys, threshold, tolerance, o)
  }

  /** The outer loop over file1 rows `0 .. n-1`. */
  function ScanRows(t1: Table, t2: Table, n: nat, numKeys: int, threshold: real, tolerance: int, o: Oracles)
    : (r: Result<Scan, PyError>)
    requires n <= |t1.rows|
    ensures r.Success? ==> forall k :: 0 <= k < |r.value.unmatched| ==> r.value.unmatched[k] < n
    ensures r.Success? ==> InTables(t1, t2, r.value.pairs)
  {
    if n == 0 then Success(Scan([], []))
    else match ScanRows(t1, t2, n - 1, numKeys, threshold, tolerance, o)
      case Failure(e) => Failure(e)
      case Success(s) =>
        match RowScan(t1, t2, n - 1, numKeys, threshold, tolerance, o)
        case Failure(e) => Failure(e)
        case Success(ps) => Success(Scan(s.pairs + ps, s.unmatched + if ps == [] then [n - 1] else []))
  }

  // ---------------------------------------------------------------------
  // The three outputs

  /** One matched record: the original columns of both rows (`file1_*`, `file2_*`) and `similarity`. */
  datatype MatchRecord = MatchRecord(file1: Row, file2: Row, similarity: real)

  datatype MatchOutput = MatchOutput(matched: seq<MatchRecord>, unmatched1: Table, unmatched2: Table)

  /** The columns that are neither a `match_key*` column nor `__source`, in order. */
  function OriginalColumns(cols: seq<string>): (r: seq<string>)
    ensures forall c :: c in r <==> c in cols && !StartsWith(c, "match_key") && c != "__source"
  {
    if cols == [] then []
    else
      var head := if !StartsWith(cols[0], "match_key") && cols[0] != "__source" then [cols[0]] else [];
      head + OriginalColumns(cols[1..])
  }

  /** Every pair names a row of file1 and a row of file2. */
  predicate InTables(t1: Table, t2: Table, pairs: seq<Pair>) {
    forall k :: 0 <= k < |pairs| ==> pairs[k].i < |t1.rows| && pairs[k].j < |t2.rows|
  }

  /** The record of a pair: the original columns of its two rows and its rounded mean. */
  function Record(t1: Table, t2: Table, p: Pair): MatchRecord
    requires p.i < |t1.rows| && p.j < |t2.rows|
  {
    MatchRecord(Restrict(t1.rows[p.i], OriginalColumns(t1.columns)), Restrict(t2.rows[p.j], OriginalColumns(t2.columns)), Round2(p.avg))
  }

  /** The matched records, one per pair, in pair order. */
  function Records(t1: Table, t2: Table, pairs: seq<Pair>): (r: seq<MatchRecord>)
    requires InTables(t1, t2, pairs)
    ensures |r| == |pairs|
  {
    if pairs == [] then []
    else Records(t1, t2, pairs[..|pairs| - 1]) + [Record(t1, t2, pairs[|pairs| - 1])]
  }

  /** The rows at the given positions with only the given columns. */
  function RowsAt(t: Table, idx: seq<nat>, cols: seq<string>): (r: seq<Row>)
    requires forall k :: 0 <= k < |idx| ==> idx[k] < |t.rows|
    ensures |r| == |idx|
  {
    if idx == [] then []
    else RowsAt(t, idx[..|idx| - 1], cols) + [Restrict(t.rows[idx[|idx| - 1]], cols)]
  }

  /** The whole rows at the given positions. */
  function RowsOf(t: Table, idx: seq<nat>): (r: seq<Row>)
    requires forall k :: 0 <= k < |idx| ==> idx[k] < |t.rows|
    ensures |r| == |idx|
  {
    if idx == [] then [] else RowsOf(t, idx[..|idx| - 1]) + [t.rows[idx[|idx| - 1]]]
  }

  /** Some of the first `m` records holds the same value as `row` in column `c0` (`df2[c0] == val`). */
  predicate DroppedBy(row: Row, c0: string, records: seq<MatchRecord>, m: nat)
    requires m <= |records|
  {
    m > 0 && (DroppedBy(row, c0, records, m - 1)
              || (c0 in row && c0 in records[m - 1].file2 && PyEq(row[c0], records[m - 1].file2[c0])))
  }

  /** The positions of file2 rows `0 .. n-1` that `df2.drop(index=matched_indexes_file2)` keeps. */
  function KeptIndices(t2: Table, c0: string, records: seq<MatchRecord>, n: nat): (r: seq<nat>)
    requires n <= |t2.rows|
    ensures forall k :: 0 <= k < |r| ==> r[k] < n
  {
    if n == 0 then []
    else
      var last := if DroppedBy(t2.rows[n - 1], c0, records, |records|) then [] else [n - 1];
      KeptIndices(t2, c0, records, n - 1) + last
  }

  /** The first original column of file2, whose value decides which file2 rows count as matched. */
  function FirstColumn(cols: seq<string>): string {
    if cols == [] then "" else cols[0]
  }

  /** The three results of `match_data`, or the exception it raises. */
  function MatchResult(t1: Table, t2: Table, numKeys: int, threshold: real, tolerance: int, o: Oracles)
    : Result<MatchOutput, PyError>
  {
    match ScanRows(t1, t2, |t1.rows|, numKeys, threshold, tolerance, o)
    case Failure(e) => Failure(e)
    case Success(s) =>
      var matched := Records(t1, t2, s.pairs);
      var orig1 := OriginalColumns(t1.columns);
      var orig2 := OriginalColumns(t2.columns);
      if matched != [] && orig2 == [] then Failure(IndexError)
      else
        var c0 := FirstColumn(orig2);
        var unmatched1 := Table(if s.unmatched == [] then [] else orig1, RowsAt(t1, s.unmatched, orig1));
        var kept := KeptIndices(t2, c0, matched, |t2.rows|);
        Success(MatchOutput(matched, unmatched1, Table(orig2, RowsAt(t2, kept, orig2))))
  }

  // ---------------------------------------------------------------------
  // The loops themselves

  lemma {:induction false} PairScoresSticks(row1: Row, row2: Row, m: nat, n: nat, tolerance: int, o: Oracles)
    requires m <= n && PairScores(row1, row2, m, tolerance, o).Failure?
    ensures PairScores(row1, row2, n, tolerance, o) == PairScores(row1, row2, m, tolerance, o)
    decreases n - m
  {
    if n > m {
      PairScoresSticks(row1, row2, m, n - 1, tolerance, o);
    }
  }

  lemma {:induction false} RowPairsSticks(t1: Table, t2: Table, i: nat, m: nat, n: nat,
                                          numKeys: int, threshold: real, tolerance: int, o: Oracles)
    requires i < |t1.rows| && m <= n <= |t2.rows|
    requires RowPairs(t1, t2, i, m, numKeys, threshold, tolerance, o).Failure?
    ensures RowPairs(t1, t2, i, n, numKeys, threshold, tolerance, o) == RowPairs(t1, t2, i, m, numKeys, threshold, tolerance, o)
    decreases n - m
  {
    if n > m {
      RowPairsSticks(t1, t2, i, m, n - 1, numKeys, threshold, tolerance, o);
    }
  }

  lemma {:induction false} ScanRowsSticks(t1: Table, t2: Table, m: nat, n: nat,
                                          numKeys: int, threshold: real, tolerance: int, o: Oracles)
    requires m <= n <= |t1.rows|
    requires ScanRows(t1, t2, m, numKeys, threshold, tolerance, o).Failure?
    ensures ScanRows(t1, t2, n, numKeys, threshold, tolerance, o) == ScanRows(t1, t2, m, numKeys, threshold, tolerance, o)
    decreases n - m
  {
    if n > m {
      ScanRowsSticks(t1, t2, m, n - 1, numKeys, threshold, tolerance, o);
    }
  }

  /** An exception in pass `i` of the outer loop is the exception of the whole loop. */
  lemma RowFailure(t1: Table, t2: Table, i: nat, numKeys: int, threshold: real, tolerance: int, o: Oracles)
    requires i < |t1.rows|
    requires ScanRows(t1, t2, i, numKeys, threshold, tolerance, o).Success?
    requires RowScan(t1, t2, i, numKeys, threshold, tolerance, o).Failure?
    ensures ScanRows(t1, t2, |t1.rows|, numKeys, threshold, tolerance, o)
         == Failure(RowScan(t1, t2, i, numKeys, threshold, tolerance, o).error)
  {
    ScanRowsSticks(t1, t2, i + 1, |t1.rows|, numKeys, threshold, tolerance, o);
  }

  /** One step of the inner loop that adds no pair. */
  lemma RowPairsSkip(t1: Table, t2: Table, i: nat, j: nat, numKeys: int, threshold: real, tolerance: int, o: Oracles,
                     ps: seq<Pair>)
    requires i < |t1.rows| && j < |t2.rows|
    requires RowPairs(t1, t2, i, j, numKeys, threshold, tolerance, o) == Success(ps)
    requires PairAverage(t1.rows[i], t2.rows[j], numKeys, tolerance, o).Success?
    requires PairAverage(t1.rows[i], t2.rows[j], numKeys, tolerance, o).value < threshold
    ensures RowPairs(t1, t2, i, j + 1, numKeys, threshold, tolerance, o) == Success(ps)
  {
  }

  /** One step of the inner loop that adds the pair `(i, j)`. */
  lemma RowPairsAdd(t1: Table, t2: Table, i: nat, j: nat, numKeys: int, threshold: real, tolerance: int, o: Oracles,
                    ps: seq<Pair>, avg: real)
    requires i < |t1.rows| && j < |t2.rows|
    requires RowPairs(t1, t2, i, j, numKeys, threshold, tolerance, o) == Success(ps)
    requires PairAverage(t1.rows[i], t2.rows[j], numKeys, tolerance, o) == Success(avg) && avg >= threshold
    requires "match_key_0" in t2.rows[j] && "match_key_1" in t2.rows[j]
    ensures RowPairs(t1, t2, i, j + 1, numKeys, threshold, tolerance, o) == Success(ps + [Pair(i, j, avg)])
  {
  }

  /** One step of the inner loop that raises `e`, which ends the whole inner loop with `e`. */
  lemma RowPairsRaise(t1: Table, t2: Table, i: nat, j: nat, numKeys: int, threshold: real, tolerance: int, o: Oracles,
                      ps: seq<Pair>, e: PyError)
    requires i < |t1.rows| && j < |t2.rows|
    requires RowPairs(t1, t2, i, j, numKeys, threshold, tolerance, o) == Success(ps)
    requires var a := PairAverage(t1.rows[i], t2.rows[j], numKeys, tolerance, o);
      (a.Failure? && a.error == e) ||
      (a.Success? && a.value >= threshold &&
       (if "match_key_0" !in t2.rows[j] then e == KeyError("match_key_0")
        else "match_key_1" !in t2.rows[j] && e == KeyError("match_key_1")))
    ensures RowPairs(t1, t2, i, |t2.rows|, numKeys, threshold, tolerance, o) == Failure(e)
  {
    assert RowPairs(t1, t2, i, j + 1, numKeys, threshold, tolerance, o) == Failure(e);
    RowPairsSticks(t1, t2, i, j + 1, |t2.rows|, numKeys, threshold, tolerance, o);
  }

  /** One step of the outer loop. */
  lemma ScanRowsStep(t1: Table, t2: Table, i: nat, numKeys: int, threshold: real, tolerance: int, o: Oracles,
                     s: Scan, ps: seq<Pair>)
    requires i < |t1.rows|
    requires ScanRows(t1, t2, i, numKeys, threshold, tolerance, o) == Success(s)
    requires RowScan(t1, t2, i, numKeys, threshold, tolerance, o) == Success(ps)
    ensures ScanRows(t1, t2, i + 1, numKeys, threshold, tolerance, o)
         == Success(Scan(s.pairs + ps, s.unmatched + if ps == [] then [i] else []))
  {
  }

  /** The records of two runs of pairs, one after the other. */
  lemma {:induction false} RecordsAppend(t1: Table, t2: Table, pairs: seq<Pair>, ps: seq<Pair>)
    requires InTables(t1, t2, pairs) && InTables(t1, t2, ps)
    ensures InTables(t1, t2, pairs + ps)
    ensures Records(t1, t2, pairs + ps) == Records(t1, t2, pairs) + Records(t1, t2, ps)
    decreases |ps|
  {
    if ps == [] {
      assert pairs + ps == pairs;
    } else {
      var front, last := ps[..|ps| - 1], ps[|ps| - 1];
      assert ps == front + [last];
      RecordsAppend(t1, t2, pairs, front);
      assert pairs + ps == (pairs + front) + [last];
      RecordsSnoc(t1, t2, pairs + front, last);
      calc {
        Records(t1, t2, pairs + ps);
        Records(t1, t2, pairs + front) + [Record(t1, t2, last)];
        (Records(t1, t2, pairs) + Records(t1, t2, front)) + [Record(t1, t2, last)];
        Records(t1, t2, pairs) + (Records(t1, t2, front) + [Record(t1, t2, last)]);
        Records(t1, t2, pairs) + Records(t1, t2, ps);
      }
    }
  }

  lemma RecordsSnoc(t1: Table, t2: Table, pairs: seq<Pair>, p: Pair)
    requires InTables(t1, t2, pairs) && p.i < |t1.rows| && p.j < |t2.rows|
    ensures InTables(t1, t2, pairs + [p]) && InTables(t1, t2, [p])
    ensures Records(t1, t2, pairs + [p]) == Records(t1, t2, pairs) + [Record(t1, t2, p)]
    ensures Records(t1, t2, [p]) == [Record(t1, t2, p)]
  {
    assert (pairs + [p])[..|pairs|] == pairs;
  }

  lemma RowsAtSnoc(t: Table, idx: seq<nat>, k: nat, cols: seq<string>)
    requires (forall q :: 0 <= q < |idx| ==> idx[q] < |t.rows|) && k < |t.rows|
    ensures RowsAt(t, idx + [k], cols) == RowsAt(t, idx, cols) + [Restrict(t.rows[k], cols)]
  {
    assert (idx + [k])[..|idx|] == idx;
  }

  /** The key loop `for i in range(num_keys)` and the mean of its scores. */
  method ScoreKeys(row1: Row, row2: Row, numKeys: int, tolerance: int, o: Oracles) returns (r: Result<seq<real>, PyError>)
    ensures r == PairScores(row1, row2, KeyCount(numKeys), tolerance, o)
  {
    var scores: seq<real> := [];
    var n := KeyCount(numKeys);
    for k := 0 to n
      invariant PairScores(row1, row2, k, tolerance, o) == Success(scores)
    {
      var name := MatchKeyName(k);
      if name !in row1 || name !in row2 {
        PairScoresSticks(row1, row2, k + 1, n, tolerance, o);
        return Failure(KeyError(name));
      }
      var score := KeyScore(row1[name], row2[name], tolerance, o);
      if score.Failure? {
        PairScoresSticks(row1, row2, k + 1, n, tolerance, o);
        return Failure(score.error);
      }
      scores := scores + [score.value];
    }
    return Success(scores);
  }

  /** `sum(scores) / len(scores)` for one pair of rows. */
  method AverageScore(row1: Row, row2: Row, numKeys: int, tolerance: int, o: Oracles) returns (r: Result<real, PyError>)
    ensures r == PairAverage(row1, row2, numKeys, tolerance, o)
  {
    var scores := ScoreKeys(row1, row2, numKeys, tolerance, o);
    if scores.Failure? {
      return Failure(scores.error);
    }
    if |scores.value| == 0 {
      return Failure(ZeroDivisionError);
    }
    r := Success(Sum(scores.value) / |scores.value| as real);
  }

  /**
   * One pass of the outer loop of `match_data`, for file1 row `i`: every
   * file2 row whose mean score reaches the threshold adds a record; `found`
   * says whether any did.
   */
  method MatchRow(t1: Table, t2: Table, i: nat, numKeys: int, threshold: real, tolerance: int, o: Oracles)
    returns (r: Result<seq<MatchRecord>, PyError>, found: bool, ghost rowPairs: seq<Pair>)
    requires i < |t1.rows|
    ensures r.Failure? ==> RowScan(t1, t2, i, numKeys, threshold, tolerance, o) == Failure(r.error)
    ensures r.Success? ==> RowScan(t1, t2, i, numKeys, threshold, tolerance, o) == Success(rowPairs)
    ensures r.Success? ==> r.value == Records(t1, t2, rowPairs)
    ensures r.Success? ==> (found <==> rowPairs != [])
  {
    var row1 := t1.rows[i];
    found := false;
    rowPairs := [];
    if "match_key_0" !in row1 || "match_key_1" !in row1 {
      return Failure(KeyError(if "match_key_0" !in row1 then "match_key_0" else "match_key_1")), found, rowPairs;
    }
    var orig1 := OriginalColumns(t1.columns);
    var orig2 := OriginalColumns(t2.columns);
    var acc := [];
    for j := 0 to |t2.rows|
      invariant RowPairs(t1, t2, i, j, numKeys, threshold, tolerance, o) == Success(rowPairs)
      invariant found <==> rowPairs != []
      invariant InTables(t1, t2, rowPairs)
      invariant acc == Records(t1, t2, rowPairs)
    {
      var row2 := t2.rows[j];
      var average := AverageScore(row1, row2, numKeys, tolerance, o);
      if average.Failure? {
        RowPairsRaise(t1, t2, i, j, numKeys, threshold, tolerance, o, rowPairs, average.error);
        return Failure(average.error), found, rowPairs;
      }
      var avg := average.value;
      if avg < threshold {
        RowPairsSkip(t1, t2, i, j, numKeys, threshold, tolerance, o, rowPairs);
      } else if "match_key_0" !in row2 || "match_key_1" !in row2 {
        var name := if "match_key_0" !in row2 then "match_key_0" else "match_key_1";
        RowPairsRaise(t1, t2, i, j, numKeys, threshold, tolerance, o, rowPairs, KeyError(name));
        return Failure(KeyError(name)), found, rowPairs;
      } else {
        RowPairsAdd(t1, t2, i, j, numKeys, threshold, tolerance, o, rowPairs, avg);
        RecordsSnoc(t1, t2, rowPairs, Pair(i, j, avg));
        found := true;
        acc := acc + [MatchRecord(Restrict(row1, orig1), Restrict(row2, orig2), Round2(avg))];
        rowPairs := rowPairs + [Pair(i, j, avg)];
      }
    }
    r := Success(acc);
  }

  /** `matched_indexes_file2` and `df2.drop(index=...)`: the file2 rows whose first original value no record shares. */
  method UnmatchedFile2(t2: Table, c0: string, matched: seq<MatchRecord>) returns (rows: seq<Row>)
    ensures rows == RowsAt(t2, KeptIndices(t2, c0, matched, |t2.rows|), OriginalColumns(t2.columns))
  {
    var dropped: set<nat> := {};
    for m := 0 to |matched|
      invariant forall j: nat :: j in dropped <==> j < |t2.rows| && DroppedBy(t2.rows[j], c0, matched, m)
    {
      if c0 in matched[m].file2 {
        var val := matched[m].file2[c0];
        var idxs := set j: nat | j < |t2.rows| && c0 in t2.rows[j] && PyEq(t2.rows[j][c0], val);
        dropped := dropped + idxs;
      }
    }
    var orig2 := OriginalColumns(t2.columns);
    rows := [];
    ghost var kept: seq<nat> := [];
    for j := 0 to |t2.rows|
      invariant kept == KeptIndices(t2, c0, matched, j)
      invariant rows == RowsAt(t2, kept, orig2)
    {
      if j !in dropped {
        RowsAtSnoc(t2, kept, j, orig2);
        rows := rows + [Restrict(t2.rows[j], orig2)];
        kept := kept + [j];
      }
    }
  }

  /** `pd.DataFrame(unmatched_rows_file1)` without the key and label columns. */
  method UnmatchedFile1(t1: Table, unmatchedRows: seq<Row>, ghost unmatched: seq<nat>) returns (rows: seq<Row>)
    requires forall k :: 0 <= k < |unmatched| ==> unmatched[k] < |t1.rows|
    requires unmatchedRows == RowsOf(t1, unmatched)
    ensures rows == RowsAt(t1, unmatched, OriginalColumns(t1.columns))
  {
    var orig1 := OriginalColumns(t1.columns);
    rows := [];
    for k := 0 to |unmatchedRows|
      invariant rows == RowsAt(t1, unmatched[..k], orig1)
    {
      RowsOfIndex(t1, unmatched, k);
      assert unmatched[..k + 1] == unmatched[..k] + [unmatched[k]];
      RowsAtSnoc(t1, unmatched[..k], unmatched[k], orig1);
      rows := rows + [Restrict(unmatchedRows[k], orig1)];
    }
    assert unmatched[..|unmatched|] == unmatched;
  }

  lemma {:induction false} RowsOfIndex(t: Table, idx: seq<nat>, k: nat)
    requires (forall q :: 0 <= q < |idx| ==> idx[q] < |t.rows|) && k < |idx|
    ensures RowsOf(t, idx)[k] == t.rows[idx[k]]
    decreases |idx|
  {
    if k < |idx| - 1 {
      RowsOfIndex(t, idx[..|idx| - 1], k);
    }
  }

  lemma RowsOfSnoc(t: Table, idx: seq<nat>, k: nat)
    requires (forall q :: 0 <= q < |idx| ==> idx[q] < |t.rows|) && k < |t.rows|
    ensures RowsOf(t, idx + [k]) == RowsOf(t, idx) + [t.rows[k]]
  {
    assert (idx + [k])[..|idx|] == idx;
  }

  /**
   * The nested loop of `match_data`: the matched records and the file1 rows
   * without a match, or the exception the loop raises.
   */
  method ScanFile1(t1: Table, t2: Table, numKeys: int, threshold: real, tolerance: int, o: Oracles)
    returns (r: Result<seq<MatchRecord>, PyError>, unmatchedRows: seq<Row>, ghost scan: Scan)
    ensures r.Failure? ==> ScanRows(t1, t2, |t1.rows|, numKeys, threshold, tolerance, o) == Failure(r.error)
    ensures r.Success? ==> ScanRows(t1, t2, |t1.rows|, numKeys, threshold, tolerance, o) == Success(scan)
    ensures r.Success? ==> r.value == Records(t1, t2, scan.pairs)
    ensures r.Success? ==> unmatchedRows == RowsOf(t1, scan.unmatched)
  {
    var matched: seq<MatchRecord> := [];
    unmatchedRows := [];
    ghost var pairs: seq<Pair> := [];
    ghost var unmatched: seq<nat> := [];
    for i := 0 to |t1.rows|
      invariant ScanRows(t1, t2, i, numKeys, threshold, tolerance, o) == Success(Scan(pairs, unmatched))
      invariant InTables(t1, t2, pairs)
      invariant matched == Records(t1, t2, pairs)
      invariant unmatchedRows == RowsOf(t1, unmatched)
    {
      var res, found, rowPairs := MatchRow(t1, t2, i, numKeys, threshold, tolerance, o);
      if res.Failure? {
        RowFailure(t1, t2, i, numKeys, threshold, tolerance, o);
        return Failure(res.error), unmatchedRows, Scan(pairs, unmatched);
      }
      ScanRowsStep(t1, t2, i, numKeys, threshold, tolerance, o, Scan(pairs, unmatched), rowPairs);
      RecordsAppend(t1, t2, pairs, rowPairs);
      matched := matched + res.value;
      if !found {
        RowsOfSnoc(t1, unmatched, i);
        unmatchedRows := unmatchedRows + [t1.rows[i]];
        unmatched := unmatched + [i];
      } else {
        assert unmatched + [] == unmatched;
      }
      pairs := pairs + rowPairs;
    }
    return Success(matched), unmatchedRows, Scan(pairs, unmatched);
  }

  /** `match_data(df1, df2, num_keys, threshold)` with the module-level `date_tolerance_days` as `tolerance`. */
  method MatchData(t1: Table, t2: Table, numKeys: int, threshold: real, tolerance: int, o: Oracles)
    returns (r: Result<MatchOutput, PyError>)
    ensures r == MatchResult(t1, t2, numKeys, threshold, tolerance, o)
  {
    var orig1 := OriginalColumns(t1.columns);
    var orig2 := OriginalColumns(t2.columns);
    var scanned, unmatchedRows, scan := ScanFile1(t1, t2, numKeys, threshold, tolerance, o);
    if scanned.Failure? {
      return Failure(scanned.error);
    }
    var matched := scanned.value;
    var rows1 := UnmatchedFile1(t1, unmatchedRows, scan.unmatched);
    var unmatched1 := Table(if unmatchedRows == [] then [] else orig1, rows1);
    if matched != [] && orig2 == [] {
      return Failure(IndexError);
    }
    var rows2 := UnmatchedFile2(t2, FirstColumn(orig2), matched);
    r := Success(MatchOutput(matched, unmatched1, Table(orig2, rows2)));
  }
}
