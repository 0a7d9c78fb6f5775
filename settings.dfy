/**
 * The configuration at the top of tool_for_comparing_csv_data.py and the
 * part of `main` that prepares both files and matches them.
 */
module Settings {
  import opened Wrappers
  import opened PyText
  import opened Cells
  import opened Frames
  import opened Prepare
  import opened Matching
  import opened MatchingFacts

  /** `similarity_threshold`. */
  const SimilarityThreshold: real := 90.0

  /** `date_tolerance_days`, about three months either way. */
  const DateToleranceDays: int := 90

  /** `comparison_keys`: for each key, the file1 columns and the file2 columns it is built from. */
  const ComparisonKeys: seq<(seq<string>, seq<string>)> := [
    (["street_address", "unit_number", "city", "state", "zip_code"], ["Address", "City", "State", "Zip Code"]),
    (["sale_date"], ["Sale Date"])
  ]

  /** `file1_keys`. */
  function File1Keys(): (r: seq<seq<string>>)
    ensures |r| == |ComparisonKeys| && forall k :: 0 <= k < |r| ==> r[k] == ComparisonKeys[k].0
  {
    seq(|ComparisonKeys|, k requires 0 <= k < |ComparisonKeys| => ComparisonKeys[k].0)
  }

  /** `file2_keys`. */
  function File2Keys(): (r: seq<seq<string>>)
    ensures |r| == |ComparisonKeys| && forall k :: 0 <= k < |r| ==> r[k] == ComparisonKeys[k].1
  {
    seq(|ComparisonKeys|, k requires 0 <= k < |ComparisonKeys| => ComparisonKeys[k].1)
  }

  /** The first key is an address in both files: one of its labels does not hold "date". */
  lemma AddressKeyKind()
    ensures !IsDateKeySet(File1Keys()[0]) && !IsDateKeySet(File2Keys()[0])
  {
    var street, address := "street_address", "Address";
    assert File1Keys()[0][0] == street && File2Keys()[0][0] == address;
    NoDateIn(street);
    NoDateIn(address);
  }

  /** The second key is a date in both files. */
  lemma DateKeyKind()
    ensures IsDateKeySet(File1Keys()[1]) && IsDateKeySet(File2Keys()[1])
  {
    var sale1, sale2 := "sale_date", "Sale Date";
    assert File1Keys()[1] == [sale1] && File2Keys()[1] == [sale2];
    DateAt(sale1, 5);
    DateAt(sale2, 5);
  }

  /** A label in which no "d" is followed by an "a" (in any case) does not hold "date". */
  lemma NoDateIn(c: string)
    requires forall i :: 0 <= i < |c| - 1 ==> !(LowerChar(c[i]) == 'd' && LowerChar(c[i + 1]) == 'a')
    ensures !IsDateColumn(c)
  {
    var s := Lower(c);
    ContainsAt(s, "date");
    forall i | 0 <= i <= |s|
      ensures !StartsWith(s[i..], "date")
    {
      if i + 4 <= |s| {
        assert s[i..][..4][0] == s[i] && s[i..][..4][1] == s[i + 1];
      }
    }
  }

  /** A label with "date" (in any case) at position `k`. */
  lemma DateAt(c: string, k: nat)
    requires k + 4 <= |c|
    requires LowerChar(c[k]) == 'd' && LowerChar(c[k + 1]) == 'a' && LowerChar(c[k + 2]) == 't' && LowerChar(c[k + 3]) == 'e'
    ensures IsDateColumn(c)
  {
    var s := Lower(c);
    ContainsAt(s, "date");
    assert s[k..][..4] == "date";
    assert 0 <= k <= |s| && StartsWith(s[k..], "date");
  }

  /** `df1_prepared`, `df2_prepared` and `match_data(..., len(comparison_keys), similarity_threshold)`. */
  function CompareFiles(t1: Table, t2: Table, o: Oracles): Result<MatchOutput, PyError>
    requires WellFormed(t1) && WellFormed(t2)
  {
    match Prepared(t1, File1Keys(), "file1", o)
    case Failure(e) => Failure(e)
    case Success(p1) =>
      match Prepared(t2, File2Keys(), "file2", o)
      case Failure(e) => Failure(e)
      case Success(p2) => MatchResult(p1, p2, |ComparisonKeys|, SimilarityThreshold, DateToleranceDays, o)
  }

  /** The two key columns, which the log lines of `match_data` also name literally. */
  lemma TwoKeyNames()
    ensures MatchKeyName(0) == "match_key_0" && MatchKeyName(1) == "match_key_1"
    ensures MatchKeyNames(2) == [MatchKeyName(0), MatchKeyName(1)]
    ensures ReadKeys(2) == [MatchKeyName(0), MatchKeyName(1), MatchKeyName(0), MatchKeyName(1)]
  {
    assert MatchKeyNames(1) == [MatchKeyName(0)];
  }

  /** A prepared file holds both key columns in every row. */
  lemma PreparedKeyed(t: Table, keySets: seq<seq<string>>, source: string, o: Oracles)
    requires WellFormed(t) && |keySets| == 2 && Prepared(t, keySets, source, o).Success?
    ensures Keyed(Prepared(t, keySets, source, o).value, ReadKeys(2))
  {
    var p := Prepared(t, keySets, source, o).value;
    var k0, k1 := MatchKeyName(0), MatchKeyName(1);
    TwoKeyNames();
    assert k0 in p.columns && k1 in p.columns by {
      PreparedColumns(t, keySets, source, o, k0);
      PreparedColumns(t, keySets, source, o, k1);
    }
    forall r | 0 <= r < |p.rows|
      ensures k0 in p.rows[r] && k1 in p.rows[r]
    {
      assert p.rows[r].Keys == set c | c in p.columns;
    }
  }

  /**
   * With the configured keys neither file can fail to prepare, and matching
   * them raises nothing but a date overflow or, for a file2 without an
   * original column, `IndexError`; every matched record has a similarity
   * between 90 and 100.
   */
  lemma CompareFilesFacts(t1: Table, t2: Table, o: Oracles)
    requires WellFormed(t1) && WellFormed(t2)
    ensures var r := CompareFiles(t1, t2, o);
      r.Failure? ==> r.error == OutOfBoundsDatetime || r.error == IndexError
    ensures var r := CompareFiles(t1, t2, o);
      r.Success? ==> forall k :: 0 <= k < |r.value.matched| ==> SimilarityThreshold <= r.value.matched[k].similarity <= 100.0
  {
    NoEmptyKeySet();
    PreparedFailure(t1, File1Keys(), "file1", o);
    PreparedFailure(t2, File2Keys(), "file2", o);
    var p1 := Prepared(t1, File1Keys(), "file1", o).value;
    var p2 := Prepared(t2, File2Keys(), "file2", o).value;
    var r := MatchResult(p1, p2, 2, SimilarityThreshold, DateToleranceDays, o);
    if r.Failure? {
      PreparedKeyed(t1, File1Keys(), "file1", o);
      PreparedKeyed(t2, File2Keys(), "file2", o);
      KeyedErrors(p1, p2, 2, SimilarityThreshold, DateToleranceDays, o);
    } else {
      MatchedSimilarity(p1, p2, 2, SimilarityThreshold, DateToleranceDays, o, 9000);
    }
  }

  /** No address label of file1 holds "date". */
  lemma File1AddressLabels(k: nat)
    requires k < |ComparisonKeys[0].0|
    ensures !IsDateColumn(ComparisonKeys[0].0[k])
  {
    var c := ComparisonKeys[0].0[k];
    if k == 0 {
      NoDateIn(c);
    } else if k == 1 {
      NoDateIn(c);
    } else if k == 2 {
      NoDateIn(c);
    } else if k == 3 {
      NoDateIn(c);
    } else {
      NoDateIn(c);
    }
  }

  /** No address label of file2 holds "date". */
  lemma File2AddressLabels(k: nat)
    requires k < |ComparisonKeys[0].1|
    ensures !IsDateColumn(ComparisonKeys[0].1[k])
  {
    var c := ComparisonKeys[0].1[k];
    if k == 0 {
      NoDateIn(c);
    } else if k == 1 {
      NoDateIn(c);
    } else if k == 2 {
      NoDateIn(c);
    } else {
      NoDateIn(c);
    }
  }

  /** The date columns of the configured key sets: `sale_date` in file1. */
  lemma File1DateColumns()
    ensures DateColumns(File1Keys()) == ["sale_date"]
  {
    var address, date := ComparisonKeys[0].0, ComparisonKeys[1].0;
    assert Flatten(File1Keys()) == address + date by {
      assert File1Keys() == [address, date];
      assert Flatten([date]) == date + Flatten([]);
    }
    DateColumnsOfAppend(address, date);
    assert DateColumnsOf(address) == [] by {
      forall k | 0 <= k < |address| ensures !IsDateColumn(address[k]) {
        File1AddressLabels(k);
      }
      DateColumnsOfNone(address);
    }
    DateKeyKind();
    assert DateColumnsOf(date) == date;
  }

  /** And `Sale Date` in file2. */
  lemma File2DateColumns()
    ensures DateColumns(File2Keys()) == ["Sale Date"]
  {
    var address, date := ComparisonKeys[0].1, ComparisonKeys[1].1;
    assert Flatten(File2Keys()) == address + date by {
      assert File2Keys() == [address, date];
      assert Flatten([date]) == date + Flatten([]);
    }
    DateColumnsOfAppend(address, date);
    assert DateColumnsOf(address) == [] by {
      forall k | 0 <= k < |address| ensures !IsDateColumn(address[k]) {
        File2AddressLabels(k);
      }
      DateColumnsOfNone(address);
    }
    DateKeyKind();
    assert DateColumnsOf(date) == date;
  }

  /**
   * The flow of `main` as written, up to `match_data`: both `prepare_df` calls
   * as written, then the log arguments `df1_prepared[['sale_date']]` and
   * `df2_prepared[['Sale Date']]`, which are built even when debug logging is
   * off and raise `KeyError` on a file without that column.
   */
  function CompareFilesAsWritten(t1: Table, t2: Table, o: Oracles): Result<MatchOutput, PyError>
    requires WellFormed(t1) && WellFormed(t2)
  {
    match PreparedAsWritten(t1, File1Keys(), "file1", o)
    case Failure(e) => Failure(e)
    case Success(p1) =>
      match PreparedAsWritten(t2, File2Keys(), "file2", o)
      case Failure(e) => Failure(e)
      case Success(p2) =>
        if "sale_date" !in p1.columns then Failure(KeyError("sale_date"))
        else if "Sale Date" !in p2.columns then Failure(KeyError("Sale Date"))
        else MatchResult(p1, p2, |ComparisonKeys|, SimilarityThreshold, DateToleranceDays, o)
  }

  /** As written, preparing file1 raises OverflowError exactly on an infinite float in `sale_date`, otherwise it is the corrected one. */
  lemma File1AsWritten(t: Table, o: Oracles)
    requires WellFormed(t)
    ensures PreparedAsWritten(t, File1Keys(), "file1", o)
         == if InfiniteIn(t, ["sale_date"]) then Failure(OverflowError) else Prepared(t, File1Keys(), "file1", o)
  {
    File1DateColumns();
    PreparedAsWrittenMeaning(t, File1Keys(), "file1", o);
  }

  /** And file2 on an infinite float in `Sale Date`. */
  lemma File2AsWritten(t: Table, o: Oracles)
    requires WellFormed(t)
    ensures PreparedAsWritten(t, File2Keys(), "file2", o)
         == if InfiniteIn(t, ["Sale Date"]) then Failure(OverflowError) else Prepared(t, File2Keys(), "file2", o)
  {
    File2DateColumns();
    PreparedAsWrittenMeaning(t, File2Keys(), "file2", o);
  }

  /**
   * As written, comparing the files raises OverflowError exactly when
   * `sale_date` of file1 or `Sale Date` of file2 holds an infinite float;
   * otherwise KeyError when file1 lacks `sale_date`, then when file2 lacks
   * `Sale Date`; otherwise it does what the corrected flow does.
   */
  lemma CompareFilesAsWrittenFacts(t1: Table, t2: Table, o: Oracles)
    requires WellFormed(t1) && WellFormed(t2)
    ensures CompareFilesAsWritten(t1, t2, o)
         == if InfiniteIn(t1, ["sale_date"]) || InfiniteIn(t2, ["Sale Date"]) then Failure(OverflowError)
            else if "sale_date" !in t1.columns then Failure(KeyError("sale_date"))
            else if "Sale Date" !in t2.columns then Failure(KeyError("Sale Date"))
            else CompareFiles(t1, t2, o)
  {
    File1AsWritten(t1, o);
    File2AsWritten(t2, o);
    if !InfiniteIn(t1, ["sale_date"]) {
      NoEmptyKeySet();
      PreparedFailure(t1, File1Keys(), "file1", o);
      if !InfiniteIn(t2, ["Sale Date"]) {
        PreparedFailure(t2, File2Keys(), "file2", o);
        PreparedLabel(t1, File1Keys(), "file1", o, "sale_date");
        PreparedLabel(t2, File2Keys(), "file2", o, "Sale Date");
      }
    }
  }

  /** A label that is neither `__source` nor a key name is a prepared column exactly when it is an input column. */
  lemma PreparedLabel(t: Table, keySets: seq<seq<string>>, source: string, o: Oracles, c: string)
    requires WellFormed(t) && |keySets| == 2 && Prepared(t, keySets, source, o).Success?
    requires |c| > 0 && c[0] != '_' && c[0] != 'm'
    ensures c in Prepared(t, keySets, source, o).value.columns <==> c in t.columns
  {
    PreparedColumns(t, keySets, source, o, c);
    TwoKeyNames();
    MatchKeyNamePrefix(0);
    MatchKeyNamePrefix(1);
  }

  /** Neither file has an empty key set. */
  lemma NoEmptyKeySet()
    ensures [] !in File1Keys() && [] !in File2Keys()
  {
    assert File1Keys() == [ComparisonKeys[0].0, ComparisonKeys[1].0];
    assert File2Keys() == [ComparisonKeys[0].1, ComparisonKeys[1].1];
  }
}
