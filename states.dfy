/**
 * `STATE_ABBREVIATIONS` and `normalize_state` (find_unmatched_transactions.py):
 * a full US state name, in any case and with any surrounding whitespace,
 * becomes its two-letter postal code; anything else is only stripped and
 * upper-cased.
 */
module States {
  import opened PyText

  /**
   * `STATE_ABBREVIATIONS`: the fifty state names, upper case, and their postal
   * codes, written as five runs of ten entries in the order of the source.
   */
  const StateAbbreviations0: map<string, string> := map[
    "ALABAMA" := "AL", "ALASKA" := "AK", "ARIZONA" := "AZ", "ARKANSAS" := "AR", "CALIFORNIA" := "CA",
    "COLORADO" := "CO", "CONNECTICUT" := "CT", "DELAWARE" := "DE", "FLORIDA" := "FL", "GEORGIA" := "GA"
  ]

  const StateAbbreviations1: map<string, string> := StateAbbreviations0
    ["HAWAII" := "HI"]["IDAHO" := "ID"]["ILLINOIS" := "IL"]["INDIANA" := "IN"]["IOWA" := "IA"]
    ["KANSAS" := "KS"]["KENTUCKY" := "KY"]["LOUISIANA" := "LA"]["MAINE" := "ME"]["MARYLAND" := "MD"]

  const StateAbbreviations2: map<string, string> := StateAbbreviations1
    ["MASSACHUSETTS" := "MA"]["MICHIGAN" := "MI"]["MINNESOTA" := "MN"]["MISSISSIPPI" := "MS"]["MISSOURI" := "MO"]
    ["MONTANA" := "MT"]["NEBRASKA" := "NE"]["NEVADA" := "NV"]["NEW HAMPSHIRE" := "NH"]["NEW JERSEY" := "NJ"]

  const StateAbbreviations3: map<string, string> := StateAbbreviations2
    ["NEW MEXICO" := "NM"]["NEW YORK" := "NY"]["NORTH CAROLINA" := "NC"]["NORTH DAKOTA" := "ND"]["OHIO" := "OH"]
    ["OKLAHOMA" := "OK"]["OREGON" := "OR"]["PENNSYLVANIA" := "PA"]["RHODE ISLAND" := "RI"]["SOUTH CAROLINA" := "SC"]

  const StateAbbreviations: map<string, string> := StateAbbreviations3
    ["SOUTH DAKOTA" := "SD"]["TENNESSEE" := "TN"]["TEXAS" := "TX"]["UTAH" := "UT"]["VERMONT" := "VT"]
    ["VIRGINIA" := "VA"]["WASHINGTON" := "WA"]["WEST VIRGINIA" := "WV"]["WISCONSIN" := "WI"]["WYOMING" := "WY"]

  /** Two capital letters. */
  predicate IsCode(v: string) {
    |v| == 2 && 'A' <= v[0] <= 'Z' && 'A' <= v[1] <= 'Z'
  }

  /** Every value of the table is a code (the lemmas below follow the five runs). */
  predicate CodesOnly(m: map<string, string>) {
    forall k :: k in m ==> IsCode(m[k])
  }

  lemma CodesOnly0()
    ensures CodesOnly(StateAbbreviations0)
  {
  }

  lemma NoTwoLetterName0(v: string)
    requires |v| == 2
    ensures v !in StateAbbreviations0
  {
  }

  lemma CodesOnly1()
    ensures CodesOnly(StateAbbreviations1)
  {
    CodesOnly0();
  }

  lemma NoTwoLetterName1(v: string)
    requires |v| == 2
    ensures v !in StateAbbreviations1
  {
    NoTwoLetterName0(v);
  }

  lemma CodesOnly2()
    ensures CodesOnly(StateAbbreviations2)
  {
    CodesOnly1();
  }

  lemma NoTwoLetterName2(v: string)
    requires |v| == 2
    ensures v !in StateAbbreviations2
  {
    NoTwoLetterName1(v);
  }

  lemma CodesOnly3()
    ensures CodesOnly(StateAbbreviations3)
  {
    CodesOnly2();
  }

  lemma NoTwoLetterName3(v: string)
    requires |v| == 2
    ensures v !in StateAbbreviations3
  {
    NoTwoLetterName2(v);
  }

  lemma CodesOnly4()
    ensures CodesOnly(StateAbbreviations)
  {
    CodesOnly3();
  }

  lemma NoTwoLetterName4(v: string)
    requires |v| == 2
    ensures v !in StateAbbreviations
  {
    NoTwoLetterName3(v);
  }

  /** `normalize_state(s)`: the code of the stripped, upper-cased name, or that text itself. */
  function NormalizeState(s: string): string {
    var key := Upper(Strip(s));
    if key in StateAbbreviations then StateAbbreviations[key] else key
  }

  /** A two-letter code is stripped, upper case, and names no state. */
  lemma CodeFacts(v: string)
    requires IsCode(v)
    ensures Stripped(v) && IsUpper(v) && v !in StateAbbreviations
  {
    NoTwoLetterName4(v);
  }

  /** A state name, in any case, with whitespace around it, becomes its code. */
  lemma FullNameMaps(pre: string, name: string, post: string)
    requires AllSpace(pre) && AllSpace(post) && Stripped(name)
    requires Upper(name) in StateAbbreviations
    ensures NormalizeState(pre + name + post) == StateAbbreviations[Upper(name)]
    ensures IsCode(NormalizeState(pre + name + post))
  {
    StripAround(pre, name, post);
    CodesOnly4();
  }

  /** Text that names no state comes back stripped and upper-cased. */
  lemma UnmappedKept(s: string)
    requires Upper(Strip(s)) !in StateAbbreviations
    ensures NormalizeState(s) == Upper(Strip(s))
  {
  }

  /** The result is always stripped and upper case. */
  lemma NormalizedShape(s: string)
    ensures Stripped(NormalizeState(s)) && IsUpper(NormalizeState(s))
  {
    var key := Upper(Strip(s));
    if key in StateAbbreviations {
      CodesOnly4();
      CodeFacts(StateAbbreviations[key]);
    } else {
      CaseKeepsSpace(Strip(s));
      CaseResult(Strip(s));
    }
  }

  /** Normalising twice changes nothing: no code and no unmapped text is itself a name of the table. */
  lemma NormalizeStateIdempotent(s: string)
    ensures NormalizeState(NormalizeState(s)) == NormalizeState(s)
  {
    var key := Upper(Strip(s));
    if key in StateAbbreviations {
      var code := StateAbbreviations[key];
      CodesOnly4();
      CodeFacts(code);
      StripStripped(code);
      UpperFixed(code);
    } else {
      StripUpperIdempotent(s);
    }
  }
}
