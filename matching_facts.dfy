/**
 * What `match_data` computes, stated against its loops: which pairs become
 * records, which rows stay unmatched, how the threshold acts, what their
 * similarity is, which file2 rows are dropped and which exceptions escape.
 */
module MatchingFacts {
  import opened Wrappers
  import opened PyText
  import opened Calendar
  import opened Cells
  import opened Frames
  import opened Prepare
  import opened Matching

  // ---------------------------------------------------------------------
  // Which pairs are matched

  /** The mean score of file1 row `i` against file2 row `j`. */
  function Average(t1: Table, t2: Table, i: nat, j: nat, numKeys: int, tolerance: int, o: Oracles): Result<real, PyError>
    requires i < |t1.rows| && j < |t2.rows|
  {
    PairAverage(t1.rows[i], t2.rows[j], numKeys, tolerance, o)
  }

  /**
   * The inner loop keeps exactly the file2 rows below `m` whose mean score
   * reaches the threshold, each with that mean; no row is consumed.
   */
  lemma {:induction false} RowPairsExact(t1: Table, t2: Table, i: nat, m: nat,
                                         numKeys: int, threshold: real, tolerance: int, o: Oracles, ps: seq<Pair>)
    requires i < |t1.rows| && m <= |t2.rows|
    requires RowPairs(t1, t2, i, m, numKeys, threshold, tolerance, o) == Success(ps)
    ensures forall p :: p in ps <==>
      p.i == i && p.j < m && Accepted(t1, t2, i, p.j, numKeys, threshold, tolerance, o)
      && p.avg == Average(t1, t2, i, p.j, numKeys, tolerance, o).value
    decreases m
  {
    if m > 0 {
      var prev := RowPairs(t1, t2, i, m - 1, numKeys, threshold, tolerance, o);
      assert prev.Success?;
      RowPairsExact(t1, t2, i, m - 1, numKeys, threshold, tolerance, o, prev.value);
      var q := prev.value;
      var a := Average(t1, t2, i, m - 1, numKeys, tolerance, o);
      assert a.Success?;
      var extra := if a.value < threshold then [] else [Pair(i, m - 1, a.value)];
      assert ps == q + extra;
      forall p
        ensures p in ps <==>
          p.i == i && p.j < m && Accepted(t1, t2, i, p.j, numKeys, threshold, tolerance, o)
          && p.avg == Average(t1, t2, i, p.j, numKeys, tolerance, o).value
      {
        if p.j == m - 1 {
          assert p !in q;
        } else {
          assert p !in extra;
        }
      }
    }
  }

  /** The inner loop lists its pairs in file2 row order. */
  lemma {:induction false} RowPairsOrdered(t1: Table, t2: Table, i: nat, m: nat,
                                           numKeys: int, threshold: real, tolerance: int, o: Oracles, ps: seq<Pair>)
    requires i < |t1.rows| && m <= |t2.rows|
    requires RowPairs(t1, t2, i, m, numKeys, threshold, tolerance, o) == Success(ps)
    ensures forall a, b :: 0 <= a < b < |ps| ==> ps[a].j < ps[b].j
    decreases m
  {
    if m > 0 {
      var prev := RowPairs(t1, t2, i, m - 1, numKeys, threshold, tolerance, o);
      assert prev.Success?;
      RowPairsOrdered(t1, t2, i, m - 1, numKeys, threshold, tolerance, o, prev.value);
    }
  }

  /** File1 row `i` matches no file2 row. */
  predicate NoMatch(t1: Table, t2: Table, i: nat, numKeys: int, threshold: real, tolerance: int, o: Oracles)
    requires i < |t1.rows|
  {
    forall j :: 0 <= j < |t2.rows| ==> !Accepted(t1, t2, i, j, numKeys, threshold, tolerance, o)
  }

  /** A pass of the outer loop adds no pair exactly when its row matches nothing. */
  lemma RowScanEmpty(t1: Table, t2: Table, i: nat, numKeys: int, threshold: real, tolerance: int, o: Oracles, ps: seq<Pair>)
    requires i < |t1.rows|
    requires RowScan(t1, t2, i, numKeys, threshold, tolerance, o) == Success(ps)
    ensures forall p :: p in ps <==>
      p.i == i && p.j < |t2.rows| && Accepted(t1, t2, i, p.j, numKeys, threshold, tolerance, o)
      && p.avg == Average(t1, t2, i, p.j, numKeys, tolerance, o).value
    ensures ps == [] <==> NoMatch(t1, t2, i, numKeys, threshold, tolerance, o)
  {
    RowPairsExact(t1, t2, i, |t2.rows|, numKeys, threshold, tolerance, o, ps);
    if ps == [] {
      forall j | 0 <= j < |t2.rows|
        ensures !Accepted(t1, t2, i, j, numKeys, threshold, tolerance, o)
      {
        var a := Average(t1, t2, i, j, numKeys, tolerance, o);
        assert Pair(i, j, if a.Success? then a.value else 0.0) !in ps;
      }
    } else {
      assert ps[0] in ps;
    }
  }

  /** The outer loop over file1 rows `0 .. n-1` collects exactly the accepted pairs of those rows. */
  lemma {:induction false} ScanRowsPairs(t1: Table, t2: Table, n: nat,
                                         numKeys: int, threshold: real, tolerance: int, o: Oracles, s: Scan)
    requires n <= |t1.rows|
    requires ScanRows(t1, t2, n, numKeys, threshold, tolerance, o) == Success(s)
    ensures forall p :: p in s.pairs <==>
      p.i < n && p.j < |t2.rows| && Accepted(t1, t2, p.i, p.j, numKeys, threshold, tolerance, o)
      && p.avg == Average(t1, t2, p.i, p.j, numKeys, tolerance, o).value
    decreases n
  {
    if n > 0 {
      var prev := ScanRows(t1, t2, n - 1, numKeys, threshold, tolerance, o);
      assert prev.Success?;
      var q := prev.value.pairs;
      ScanRowsPairs(t1, t2, n - 1, numKeys, threshold, tolerance, o, prev.value);
      ScanRowsPairsBelow(t1, t2, n - 1, numKeys, threshold, tolerance, o, prev.value);
      var ps := RowScan(t1, t2, n - 1, numKeys, threshold, tolerance, o).value;
      RowScanEmpty(t1, t2, n - 1, numKeys, threshold, tolerance, o, ps);
      assert s.pairs == q + ps;
      forall p
        ensures p in s.pairs <==>
          p.i < n && p.j < |t2.rows| && Accepted(t1, t2, p.i, p.j, numKeys, threshold, tolerance, o)
          && p.avg == Average(t1, t2, p.i, p.j, numKeys, tolerance, o).value
      {
        if p.i == n - 1 {
          assert p !in q;
        } else {
          assert p !in ps;
        }
      }
    }
  }

  /** The outer loop lists as unmatched exactly the file1 rows below `n` that match nothing. */
  lemma {:induction false} ScanRowsUnmatched(t1: Table, t2: Table, n: nat,
                                             numKeys: int, threshold: real, tolerance: int, o: Oracles, s: Scan)
    requires n <= |t1.rows|
    requires ScanRows(t1, t2, n, numKeys, threshold, tolerance, o) == Success(s)
    ensures forall i: nat :: i in s.unmatched <==> i < n && NoMatch(t1, t2, i, numKeys, threshold, tolerance, o)
    decreases n
  {
    if n > 0 {
      var prev := ScanRows(t1, t2, n - 1, numKeys, threshold, tolerance, o);
      assert prev.Success?;
      var u := prev.value.unmatched;
      ScanRowsUnmatched(t1, t2, n - 1, numKeys, threshold, tolerance, o, prev.value);
      var ps := RowScan(t1, t2, n - 1, numKeys, threshold, tolerance, o).value;
      var extra: seq<nat> := if ps == [] then [n - 1] else [];
      assert s.unmatched == u + extra;
      assert ps == [] <==> NoMatch(t1, t2, n - 1, numKeys, threshold, tolerance, o) by {
        RowScanEmpty(t1, t2, n - 1, numKeys, threshold, tolerance, o, ps);
      }
      forall i: nat
        ensures i in s.unmatched <==> i < n && NoMatch(t1, t2, i, numKeys, threshold, tolerance, o)
      {
        if i == n - 1 {
          assert i !in u;
        } else {
          assert i !in extra;
        }
      }
    }
  }

  lemma {:induction false} ScanRowsPairsBelow(t1: Table, t2: Table, n: nat,
                                              numKeys: int, threshold: real, tolerance: int, o: Oracles, s: Scan)
    requires n <= |t1.rows|
    requires ScanRows(t1, t2, n, numKeys, threshold, tolerance, o) == Success(s)
    ensures forall k :: 0 <= k < |s.pairs| ==> s.pairs[k].i < n
    decreases n
  {
    if n > 0 {
      var prev := ScanRows(t1, t2, n - 1, numKeys, threshold, tolerance, o);
      assert prev.Success?;
      ScanRowsPairsBelow(t1, t2, n - 1, numKeys, threshold, tolerance, o, prev.value);
      var ps := RowScan(t1, t2, n - 1, numKeys, threshold, tolerance, o).value;
      assert s.pairs == prev.value.pairs + ps;
    }
  }

  /** Pairs of earlier rows, ordered, followed by one row's pairs in file2 order, stay ordered. */
  lemma PairsOrderedAppend(q: seq<Pair>, ps: seq<Pair>, i: nat)
    requires forall a, b :: 0 <= a < b < |q| ==> q[a].i < q[b].i || (q[a].i == q[b].i && q[a].j < q[b].j)
    requires forall k :: 0 <= k < |q| ==> q[k].i < i
    requires forall k :: 0 <= k < |ps| ==> ps[k].i == i
    requires forall a, b :: 0 <= a < b < |ps| ==> ps[a].j < ps[b].j
    ensures forall a, b :: 0 <= a < b < |q + ps| ==>
      (q + ps)[a].i < (q + ps)[b].i || ((q + ps)[a].i == (q + ps)[b].i && (q + ps)[a].j < (q + ps)[b].j)
  {
    forall a, b | 0 <= a < b < |q + ps|
      ensures (q + ps)[a].i < (q + ps)[b].i || ((q + ps)[a].i == (q + ps)[b].i && (q + ps)[a].j < (q + ps)[b].j)
    {
      if b < |q| {
        assert (q + ps)[a] == q[a] && (q + ps)[b] == q[b];
      } else if a < |q| {
        assert (q + ps)[a] == q[a] && (q + ps)[b] == ps[b - |q|];
      } else {
        assert (q + ps)[a] == ps[a - |q|] && (q + ps)[b] == ps[b - |q|];
      }
    }
  }

  /** The pairs come in file1 row order and, within a row, in file2 row order. */
  lemma {:induction false} ScanRowsPairsOrdered(t1: Table, t2: Table, n: nat,
                                                numKeys: int, threshold: real, tolerance: int, o: Oracles, s: Scan)
    requires n <= |t1.rows|
    requires ScanRows(t1, t2, n, numKeys, threshold, tolerance, o) == Success(s)
    ensures forall a, b :: 0 <= a < b < |s.pairs| ==>
      s.pairs[a].i < s.pairs[b].i || (s.pairs[a].i == s.pairs[b].i && s.pairs[a].j < s.pairs[b].j)
    decreases n
  {
    if n > 0 {
      var prev := ScanRows(t1, t2, n - 1, numKeys, threshold, tolerance, o);
      assert prev.Success?;
      var q := prev.value.pairs;
      ScanRowsPairsOrdered(t1, t2, n - 1, numKeys, threshold, tolerance, o, prev.value);
      ScanRowsPairsBelow(t1, t2, n - 1, numKeys, threshold, tolerance, o, prev.value);
      var ps := RowScan(t1, t2, n - 1, numKeys, threshold, tolerance, o).value;
      RowPairsOrdered(t1, t2, n - 1, |t2.rows|, numKeys, threshold, tolerance, o, ps);
      assert s.pairs == q + ps;
      assert forall k :: 0 <= k < |ps| ==> ps[k].i == n - 1 by {
        assert RowScan(t1, t2, n - 1, numKeys, threshold, tolerance, o)
            == RowPairs(t1, t2, n - 1, |t2.rows|, numKeys, threshold, tolerance, o);
      }
      PairsOrderedAppend(q, ps, n - 1);
    }
  }

  /** The unmatched file1 rows are listed in increasing order. */
  lemma {:induction false} ScanRowsUnmatchedOrdered(t1: Table, t2: Table, n: nat,
                                                    numKeys: int, threshold: real, tolerance: int, o: Oracles, s: Scan)
    requires n <= |t1.rows|
    requires ScanRows(t1, t2, n, numKeys, threshold, tolerance, o) == Success(s)
    ensures Increasing(s.unmatched)
    decreases n
  {
    if n > 0 {
      var prev := ScanRows(t1, t2, n - 1, numKeys, threshold, tolerance, o);
      assert prev.Success?;
      ScanRowsUnmatchedOrdered(t1, t2, n - 1, numKeys, threshold, tolerance, o, prev.value);
      var ps := RowScan(t1, t2, n - 1, numKeys, threshold, tolerance, o).value;
      assert s.unmatched == prev.value.unmatched + if ps == [] then [n - 1] else [];
    }
  }

  // ---------------------------------------------------------------------
  // The threshold

  /** Raising the threshold cannot make the inner loop raise: only accepted rows have their keys read again. */
  lemma {:induction false} RowPairsThreshold(t1: Table, t2: Table, i: nat, m: nat,
                                             numKeys: int, lo: real, hi: real, tolerance: int, o: Oracles)
    requires i < |t1.rows| && m <= |t2.rows| && lo <= hi
    requires RowPairs(t1, t2, i, m, numKeys, lo, tolerance, o).Success?
    ensures RowPairs(t1, t2, i, m, numKeys, hi, tolerance, o).Success?
    decreases m
  {
    if m > 0 {
      assert RowPairs(t1, t2, i, m - 1, numKeys, lo, tolerance, o).Success?;
      RowPairsThreshold(t1, t2, i, m - 1, numKeys, lo, hi, tolerance, o);
    }
  }

  lemma {:induction false} ScanRowsThresholdSucceeds(t1: Table, t2: Table, n: nat,
                                                     numKeys: int, lo: real, hi: real, tolerance: int, o: Oracles)
    requires n <= |t1.rows| && lo <= hi
    requires ScanRows(t1, t2, n, numKeys, lo, tolerance, o).Success?
    ensures ScanRows(t1, t2, n, numKeys, hi, tolerance, o).Success?
    decreases n
  {
    if n > 0 {
      assert ScanRows(t1, t2, n - 1, numKeys, lo, tolerance, o).Success?;
      ScanRowsThresholdSucceeds(t1, t2, n - 1, numKeys, lo, hi, tolerance, o);
      assert RowScan(t1, t2, n - 1, numKeys, lo, tolerance, o).Success?;
      RowPairsThreshold(t1, t2, n - 1, |t2.rows|, numKeys, lo, hi, tolerance, o);
    }
  }

  lemma NoMatchThreshold(t1: Table, t2: Table, i: nat, numKeys: int, lo: real, hi: real, tolerance: int, o: Oracles)
    requires i < |t1.rows| && lo <= hi
    requires NoMatch(t1, t2, i, numKeys, lo, tolerance, o)
    ensures NoMatch(t1, t2, i, numKeys, hi, tolerance, o)
  {
    forall j | 0 <= j < |t2.rows|
      ensures !Accepted(t1, t2, i, j, numKeys, hi, tolerance, o)
    {
      assert !Accepted(t1, t2, i, j, numKeys, lo, tolerance, o);
    }
  }

  /**
   * A higher threshold matches a subset of the pairs and leaves a superset
   * of the file1 rows unmatched, and it succeeds whenever the lower one does.
   */
  lemma ScanRowsThreshold(t1: Table, t2: Table, numKeys: int, lo: real, hi: real, tolerance: int, o: Oracles)
    requires lo <= hi
    requires ScanRows(t1, t2, |t1.rows|, numKeys, lo, tolerance, o).Success?
    ensures ScanRows(t1, t2, |t1.rows|, numKeys, hi, tolerance, o).Success?
    ensures var sLo := ScanRows(t1, t2, |t1.rows|, numKeys, lo, tolerance, o).value;
      var sHi := ScanRows(t1, t2, |t1.rows|, numKeys, hi, tolerance, o).value;
      (forall p :: p in sHi.pairs ==> p in sLo.pairs) && (forall i :: i in sLo.unmatched ==> i in sHi.unmatched)
  {
    var n := |t1.rows|;
    ScanRowsThresholdSucceeds(t1, t2, n, numKeys, lo, hi, tolerance, o);
    var sLo := ScanRows(t1, t2, n, numKeys, lo, tolerance, o).value;
    var sHi := ScanRows(t1, t2, n, numKeys, hi, tolerance, o).value;
    assert forall p :: p in sHi.pairs ==> p in sLo.pairs by {
      ScanRowsPairs(t1, t2, n, numKeys, lo, tolerance, o, sLo);
      ScanRowsPairs(t1, t2, n, numKeys, hi, tolerance, o, sHi);
    }
    forall i | i in sLo.unmatched
      ensures i in sHi.unmatched
    {
      ScanRowsUnmatched(t1, t2, n, numKeys, lo, tolerance, o, sLo);
      ScanRowsUnmatched(t1, t2, n, numKeys, hi, tolerance, o, sHi);
      NoMatchThreshold(t1, t2, i, numKeys, lo, hi, tolerance, o);
    }
  }

  // ---------------------------------------------------------------------
  // The similarity of a record

  /** `round(x, 2)` keeps a percentage a percentage. */
  lemma Round2Percent(x: real)
    requires 0.0 <= x <= 100.0
    ensures 0.0 <= Round2(x) <= 100.0
  {
    var y := x * 100.0;
    assert 0.0 <= y <= 10000.0;
    var f := y.Floor;
    assert 0 <= f <= 10000;
    if f == 10000 {
      assert y - f as real == 0.0;
    }
  }

  /** A value at or above a whole number of hundredths still is after `round(x, 2)`. */
  lemma Round2AtLeast(x: real, cents: int)
    requires x >= cents as real / 100.0
    ensures Round2(x) >= cents as real / 100.0
  {
    var y := x * 100.0;
    assert y >= cents as real;
    assert y.Floor >= cents;
  }

  /** The records, one per pair, in pair order. */
  lemma {:induction false} RecordsIndex(t1: Table, t2: Table, pairs: seq<Pair>, k: nat)
    requires InTables(t1, t2, pairs) && k < |pairs|
    ensures Records(t1, t2, pairs)[k] == Record(t1, t2, pairs[k])
    decreases |pairs|
  {
    if k < |pairs| - 1 {
      RecordsIndex(t1, t2, pairs[..|pairs| - 1], k);
    }
  }

  /**
   * Every matched record (with a threshold of whole hundredths, such as 90)
   * has a similarity between the threshold and 100.
   */
  lemma MatchedSimilarity(t1: Table, t2: Table, numKeys: int, threshold: real, tolerance: int, o: Oracles, cents: int)
    requires threshold == cents as real / 100.0
    requires MatchResult(t1, t2, numKeys, threshold, tolerance, o).Success?
    ensures var m := MatchResult(t1, t2, numKeys, threshold, tolerance, o).value.matched;
      forall k :: 0 <= k < |m| ==> threshold <= m[k].similarity <= 100.0
  {
    var s := ScanRows(t1, t2, |t1.rows|, numKeys, threshold, tolerance, o).value;
    var m := MatchResult(t1, t2, numKeys, threshold, tolerance, o).value.matched;
    assert m == Records(t1, t2, s.pairs);
    ScanRowsPairs(t1, t2, |t1.rows|, numKeys, threshold, tolerance, o, s);
    forall k | 0 <= k < |m|
      ensures threshold <= m[k].similarity <= 100.0
    {
      var p := s.pairs[k];
      assert p in s.pairs;
      RecordsIndex(t1, t2, s.pairs, k);
      Round2Percent(p.avg);
      Round2AtLeast(p.avg, cents);
    }
  }

  // ---------------------------------------------------------------------
  // The file2 rows that are dropped

  /** A file2 row is dropped exactly when some record carries an equal value in the first original column. */
  lemma {:induction false} DroppedByShared(row: Row, c0: string, records: seq<MatchRecord>, m: nat)
    requires m <= |records|
    ensures DroppedBy(row, c0, records, m) <==>
      exists k :: 0 <= k < m && c0 in row && c0 in records[k].file2 && PyEq(row[c0], records[k].file2[c0])
    decreases m
  {
    if m > 0 {
      DroppedByShared(row, c0, records, m - 1);
      if c0 in row && c0 in records[m - 1].file2 && PyEq(row[c0], records[m - 1].file2[c0]) {
        assert 0 <= m - 1 < m && c0 in row && c0 in records[m - 1].file2 && PyEq(row[c0], records[m - 1].file2[c0]);
      }
    }
  }

  /** A file2 row whose first original value is missing (absent, NaN, NaT or None) is never dropped. */
  lemma {:induction false} MissingValueKept(row: Row, c0: string, records: seq<MatchRecord>, m: nat)
    requires m <= |records|
    requires c0 !in row || IsNa(row[c0])
    ensures !DroppedBy(row, c0, records, m)
    decreases m
  {
    if m > 0 {
      MissingValueKept(row, c0, records, m - 1);
      if c0 in row && c0 in records[m - 1].file2 {
        assert !PyEq(row[c0], records[m - 1].file2[c0]);
      }
    }
  }

  /** `df2.drop(index=...)` keeps exactly the rows that are not dropped. */
  lemma {:induction false} KeptExact(t2: Table, c0: string, records: seq<MatchRecord>, n: nat)
    requires n <= |t2.rows|
    ensures var kept := KeptIndices(t2, c0, records, n);
      forall j: nat :: j in kept <==> j < n && !DroppedBy(t2.rows[j], c0, records, |records|)
    decreases n
  {
    if n > 0 {
      KeptExact(t2, c0, records, n - 1);
    }
  }

  /** The kept rows stay in file2 order. */
  lemma {:induction false} KeptOrdered(t2: Table, c0: string, records: seq<MatchRecord>, n: nat)
    requires n <= |t2.rows|
    ensures Increasing(KeptIndices(t2, c0, records, n))
    decreases n
  {
    if n > 0 {
      var prev := KeptIndices(t2, c0, records, n - 1);
      KeptOrdered(t2, c0, records, n - 1);
      var kept := KeptIndices(t2, c0, records, n);
      assert kept == prev || kept == prev + [n - 1];
      forall a, b | 0 <= a < b < |kept|
        ensures kept[a] < kept[b]
      {
        if b < |prev| {
          assert kept[a] == prev[a] && kept[b] == prev[b];
        } else {
          assert kept[a] == prev[a] && kept[b] == n - 1;
        }
      }
    }
  }

  /** Without records nothing is dropped. */
  lemma {:induction false} KeptAll(t2: Table, c0: string, n: nat)
    requires n <= |t2.rows|
    ensures var kept := KeptIndices(t2, c0, [], n);
      |kept| == n && forall k :: 0 <= k < n ==> kept[k] == k
    decreases n
  {
    if n > 0 {
      KeptAll(t2, c0, n - 1);
    }
  }

  lemma {:induction false} RowsAtIndex(t: Table, idx: seq<nat>, cols: seq<string>, k: nat)
    requires (forall q :: 0 <= q < |idx| ==> idx[q] < |t.rows|) && k < |idx|
    ensures RowsAt(t, idx, cols)[k] == Restrict(t.rows[idx[k]], cols)
    decreases |idx|
  {
    if k < |idx| - 1 {
      RowsAtIndex(t, idx[..|idx| - 1], cols, k);
    }
  }

  // ---------------------------------------------------------------------
  // Whole runs and their exceptions

  /** An empty file1 matches nothing and returns every file2 row, without the key and label columns. */
  lemma EmptyFile1(t1: Table, t2: Table, numKeys: int, threshold: real, tolerance: int, o: Oracles)
    requires t1.rows == []
    ensures var r := MatchResult(t1, t2, numKeys, threshold, tolerance, o);
      r.Success? && r.value.matched == [] && r.value.unmatched1 == Table([], [])
      && r.value.unmatched2.columns == OriginalColumns(t2.columns)
      && |r.value.unmatched2.rows| == |t2.rows|
      && forall j :: 0 <= j < |t2.rows| ==> r.value.unmatched2.rows[j] == Restrict(t2.rows[j], OriginalColumns(t2.columns))
  {
    var orig2 := OriginalColumns(t2.columns);
    var kept := KeptIndices(t2, FirstColumn(orig2), [], |t2.rows|);
    KeptAll(t2, FirstColumn(orig2), |t2.rows|);
    forall j | 0 <= j < |t2.rows|
      ensures RowsAt(t2, kept, orig2)[j] == Restrict(t2.rows[j], orig2)
    {
      RowsAtIndex(t2, kept, orig2, j);
    }
  }

  /** A file1 row without `match_key_0` raises KeyError as soon as its pass begins. */
  lemma MissingFirstKey(t1: Table, t2: Table, numKeys: int, threshold: real, tolerance: int, o: Oracles)
    requires |t1.rows| > 0 && "match_key_0" !in t1.rows[0]
    ensures MatchResult(t1, t2, numKeys, threshold, tolerance, o) == Failure(KeyError("match_key_0"))
  {
    ScanRowsSticks(t1, t2, 1, |t1.rows|, numKeys, threshold, tolerance, o);
  }

  /** With no keys (`num_keys <= 0`) the first pair divides by zero. */
  lemma NoKeysDivideByZero(t1: Table, t2: Table, numKeys: int, threshold: real, tolerance: int, o: Oracles)
    requires numKeys <= 0 && |t1.rows| > 0 && |t2.rows| > 0
    requires "match_key_0" in t1.rows[0] && "match_key_1" in t1.rows[0]
    ensures MatchResult(t1, t2, numKeys, threshold, tolerance, o) == Failure(ZeroDivisionError)
  {
    assert RowPairs(t1, t2, 0, 1, numKeys, threshold, tolerance, o) == Failure(ZeroDivisionError);
    RowPairsSticks(t1, t2, 0, 1, |t2.rows|, numKeys, threshold, tolerance, o);
    ScanRowsSticks(t1, t2, 1, |t1.rows|, numKeys, threshold, tolerance, o);
  }

  /** Some row of the table lacks the column `name`. */
  predicate MissingIn(t: Table, name: string) {
    exists r :: 0 <= r < |t.rows| && name !in t.rows[r]
  }

  /** The key columns `match_data` reads: the first `num_keys` keys, and keys 0 and 1 for the log lines. */
  function ReadKeys(numKeys: int): seq<string> {
    MatchKeyNames(KeyCount(numKeys)) + ["match_key_0", "match_key_1"]
  }

  lemma {:induction false} PairScoresError(row1: Row, row2: Row, n: nat, tolerance: int, o: Oracles)
    requires PairScores(row1, row2, n, tolerance, o).Failure?
    ensures var e := PairScores(row1, row2, n, tolerance, o).error;
      e == OutOfBoundsDatetime || (e.KeyError? && e.key in MatchKeyNames(n) && (e.key !in row1 || e.key !in row2))
    decreases n
  {
    var prev := PairScores(row1, row2, n - 1, tolerance, o);
    if prev.Failure? {
      PairScoresError(row1, row2, n - 1, tolerance, o);
    }
    assert MatchKeyNames(n) == MatchKeyNames(n - 1) + [MatchKeyName(n - 1)];
  }

  lemma {:induction false} RowPairsError(t1: Table, t2: Table, i: nat, m: nat,
                                         numKeys: int, threshold: real, tolerance: int, o: Oracles)
    requires i < |t1.rows| && m <= |t2.rows|
    requires RowPairs(t1, t2, i, m, numKeys, threshold, tolerance, o).Failure?
    ensures var e := RowPairs(t1, t2, i, m, numKeys, threshold, tolerance, o).error;
      e == OutOfBoundsDatetime || (e == ZeroDivisionError && numKeys <= 0)
      || (e.KeyError? && e.key in ReadKeys(numKeys) && (e.key !in t1.rows[i] || MissingIn(t2, e.key)))
    decreases m
  {
    var prev := RowPairs(t1, t2, i, m - 1, numKeys, threshold, tolerance, o);
    if prev.Failure? {
      RowPairsError(t1, t2, i, m - 1, numKeys, threshold, tolerance, o);
    } else {
      var n := KeyCount(numKeys);
      var scores := PairScores(t1.rows[i], t2.rows[m - 1], n, tolerance, o);
      if scores.Failure? {
        PairScoresError(t1.rows[i], t2.rows[m - 1], n, tolerance, o);
      }
      var e := RowPairs(t1, t2, i, m, numKeys, threshold, tolerance, o).error;
      if e.KeyError? && e.key !in t2.rows[m - 1] {
        assert MissingIn(t2, e.key);
      }
    }
  }

  lemma {:induction false} ScanRowsError(t1: Table, t2: Table, n: nat,
                                         numKeys: int, threshold: real, tolerance: int, o: Oracles)
    requires n <= |t1.rows|
    requires ScanRows(t1, t2, n, numKeys, threshold, tolerance, o).Failure?
    ensures var e := ScanRows(t1, t2, n, numKeys, threshold, tolerance, o).error;
      e == OutOfBoundsDatetime || (e == ZeroDivisionError && numKeys <= 0)
      || (e.KeyError? && e.key in ReadKeys(numKeys) && (MissingIn(t1, e.key) || MissingIn(t2, e.key)))
    decreases n
  {
    var prev := ScanRows(t1, t2, n - 1, numKeys, threshold, tolerance, o);
    if prev.Failure? {
      ScanRowsError(t1, t2, n - 1, numKeys, threshold, tolerance, o);
    } else {
      var row1 := t1.rows[n - 1];
      if "match_key_0" in row1 && "match_key_1" in row1 {
        RowPairsError(t1, t2, n - 1, |t2.rows|, numKeys, threshold, tolerance, o);
      }
      var e := ScanRows(t1, t2, n, numKeys, threshold, tolerance, o).error;
      if e.KeyError? && e.key !in row1 {
        assert MissingIn(t1, e.key);
      }
    }
  }

  /**
   * The only exceptions `match_data` raises: a date difference out of range,
   * a division by zero when there are no keys, `IndexError` when file2 has
   * no original column, and a KeyError for a key column some row lacks.
   */
  lemma MatchErrors(t1: Table, t2: Table, numKeys: int, threshold: real, tolerance: int, o: Oracles)
    requires MatchResult(t1, t2, numKeys, threshold, tolerance, o).Failure?
    ensures var e := MatchResult(t1, t2, numKeys, threshold, tolerance, o).error;
      e == OutOfBoundsDatetime || e == IndexError || (e == ZeroDivisionError && numKeys <= 0)
      || (e.KeyError? && e.key in ReadKeys(numKeys) && (MissingIn(t1, e.key) || MissingIn(t2, e.key)))
  {
    if ScanRows(t1, t2, |t1.rows|, numKeys, threshold, tolerance, o).Failure? {
      ScanRowsError(t1, t2, |t1.rows|, numKeys, threshold, tolerance, o);
    }
  }

  /** Every row holds every key column read. */
  predicate Keyed(t: Table, names: seq<string>) {
    forall r, k :: 0 <= r < |t.rows| && 0 <= k < |names| ==> names[k] in t.rows[r]
  }

  /** With fully keyed tables and at least one key, only a date overflow or `IndexError` can escape. */
  lemma KeyedErrors(t1: Table, t2: Table, numKeys: int, threshold: real, tolerance: int, o: Oracles)
    requires numKeys >= 1 && Keyed(t1, ReadKeys(numKeys)) && Keyed(t2, ReadKeys(numKeys))
    requires MatchResult(t1, t2, numKeys, threshold, tolerance, o).Failure?
    ensures var e := MatchResult(t1, t2, numKeys, threshold, tolerance, o).error;
      e == OutOfBoundsDatetime || e == IndexError
  {
    MatchErrors(t1, t2, numKeys, threshold, tolerance, o);
  }

  // ---------------------------------------------------------------------
  // Date keys

  /** Two midnights score by whole calendar days, whichever comes first. */
  lemma KeyScoreMidnights(d1: int, d2: int, tolerance: int, o: Oracles)
    requires InRange(d1 * NsPerDay) && InRange(d2 * NsPerDay) && InRange((d1 - d2) * NsPerDay)
    ensures KeyScore(Stamp(d1 * NsPerDay), Stamp(d2 * NsPerDay), tolerance, o)
         == Success(if Abs(d1 - d2) <= tolerance then 100.0 else 0.0)
    ensures KeyScore(Stamp(d1 * NsPerDay), Stamp(d2 * NsPerDay), tolerance, o)
         == KeyScore(Stamp(d2 * NsPerDay), Stamp(d1 * NsPerDay), tolerance, o)
  {
    MidnightDayDiff(d1, d2);
    MidnightDayDiff(d2, d1);
    assert d1 * NsPerDay - d2 * NsPerDay == (d1 - d2) * NsPerDay;
    assert d2 * NsPerDay - d1 * NsPerDay == -((d1 - d2) * NsPerDay);
  }

  /**
   * `(v1 - v2).days` floors, so the order of two stamps less than a day
   * apart matters: the later one first is day 0, the earlier one first is
   * day -1, which a tolerance of 0 rejects.
   */
  lemma KeyScoreOrderMatters(a: Instant, b: Instant, tolerance: int, o: Oracles)
    requires 0 < b - a < NsPerDay && tolerance >= 0
    ensures KeyScore(Stamp(b), Stamp(a), tolerance, o) == Success(100.0)
    ensures KeyScore(Stamp(a), Stamp(b), tolerance, o) == Success(if tolerance >= 1 then 100.0 else 0.0)
  {
    assert DayDiff(b, a) == 0;
    assert DayDiff(a, b) == -1;
  }

  /**
   * `NaT` is not a `Timestamp`, so a missing date against a parsed one is
   * scored as text, by the ratio of "NaT" and the stamp's `str`; the null
   * test inside the two-timestamp branch never sees a missing date.
   */
  lemma NaTScoredAsText(ns: Instant, tolerance: int, o: Oracles)
    ensures KeyScore(NaT, Stamp(ns), tolerance, o) == Success(o.ratio("NaT", o.stampText(ns)))
    ensures KeyScore(Stamp(ns), NaT, tolerance, o) == Success(o.ratio(o.stampText(ns), "NaT"))
  {
  }
}
