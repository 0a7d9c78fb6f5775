/**
 * The few Python `str` operations the two scripts rely on: `strip()`,
 * `lower()`, `upper()`, `isdigit()`, `str(int)`, `sep.join(parts)`,
 * substring tests and the code-point order that `sorted` uses.
 * Case mapping is ASCII only.
 */
module PyText {

  /** Python's `str.isspace` for a single character. */
  predicate IsSpace(c: char) {
    c == ' ' || ('\t' <= c <= '\r') || ('\U{1C}' <= c <= '\U{1F}')
    || c == '\U{85}' || c == '\U{A0}' || c == '\U{1680}'
    || ('\U{2000}' <= c <= '\U{200A}') || c == '\U{2028}' || c == '\U{2029}'
    || c == '\U{202F}' || c == '\U{205F}' || c == '\U{3000}'
  }

  predicate AllSpace(s: string) {
    forall i :: 0 <= i < |s| ==> IsSpace(s[i])
  }

  /** No leading and no trailing whitespace. */
  predicate Stripped(s: string) {
    s == [] || (!IsSpace(s[0]) && !IsSpace(s[|s| - 1]))
  }

  function StripStart(s: string): (r: string)
    ensures |r| <= |s|
    ensures r == [] || !IsSpace(r[0])
  {
    if |s| > 0 && IsSpace(s[0]) then StripStart(s[1..]) else s
  }

  function StripEnd(s: string): (r: string)
    ensures |r| <= |s|
    ensures r != [] ==> r[0] == s[0]
    ensures r == [] || !IsSpace(r[|r| - 1])
  {
    if |s| > 0 && IsSpace(s[|s| - 1]) then StripEnd(s[..|s| - 1]) else s
  }

  /** Python's `s.strip()`. */
  function Strip(s: string): (r: string)
    ensures Stripped(r) && |r| <= |s|
  {
    StripEnd(StripStart(s))
  }

  /** Stripping removes exactly the whitespace around a stripped core. */
  lemma {:induction false} StripAround(pre: string, core: string, post: string)
    requires AllSpace(pre) && AllSpace(post) && Stripped(core)
    ensures Strip(pre + core + post) == core
  {
    if core == [] {
      assert pre + core + post == pre + post;
      AllSpaceStripsAway(pre + post);
    } else {
      assert pre + core + post == pre + (core + post);
      StripStartAround(pre, core + post);
      StripEndAround(core, post);
    }
  }

  lemma {:induction false} AllSpaceStripsAway(s: string)
    requires AllSpace(s)
    ensures StripStart(s) == []
    decreases |s|
  {
    if s != [] { AllSpaceStripsAway(s[1..]); }
  }

  lemma {:induction false} StripStartAround(pre: string, rest: string)
    requires AllSpace(pre) && (rest == [] || !IsSpace(rest[0]))
    ensures StripStart(pre + rest) == rest
  {
    if pre == [] {
      assert pre + rest == rest;
    } else {
      assert (pre + rest)[1..] == pre[1..] + rest;
      StripStartAround(pre[1..], rest);
    }
  }

  lemma {:induction false} StripEndAround(rest: string, post: string)
    requires AllSpace(post) && (rest == [] || !IsSpace(rest[|rest| - 1]))
    ensures StripEnd(rest + post) == rest
  {
    if post == [] {
      assert rest + post == rest;
    } else {
      var s := rest + post;
      assert s[..|s| - 1] == rest + post[..|post| - 1];
      StripEndAround(rest, post[..|post| - 1]);
    }
  }

  /** A string without surrounding whitespace is left alone by `strip()`. */
  lemma StripStripped(s: string)
    requires Stripped(s)
    ensures Strip(s) == s
  {
    assert StripStart(s) == s;
  }

  /** `strip()` is idempotent. */
  lemma StripIdempotent(s: string)
    ensures Strip(Strip(s)) == Strip(s)
  {
    StripStripped(Strip(s));
  }

  function LowerChar(c: char): char {
    if 'A' <= c <= 'Z' then (c as int + 32) as char else c
  }

  function UpperChar(c: char): char {
    if 'a' <= c <= 'z' then (c as int - 32) as char else c
  }

  /** `s.lower()`, restricted to the ASCII letters. */
  function Lower(s: string): (r: string)
    ensures |r| == |s| && forall i :: 0 <= i < |s| ==> r[i] == LowerChar(s[i])
  {
    seq(|s|, i requires 0 <= i < |s| => LowerChar(s[i]))
  }

  /** `s.upper()`, restricted to the ASCII letters. */
  function Upper(s: string): (r: string)
    ensures |r| == |s| && forall i :: 0 <= i < |s| ==> r[i] == UpperChar(s[i])
  {
    seq(|s|, i requires 0 <= i < |s| => UpperChar(s[i]))
  }

  /** No capital (ASCII) letter. */
  predicate IsLower(s: string) {
    forall i :: 0 <= i < |s| ==> !('A' <= s[i] <= 'Z')
  }

  /** No small (ASCII) letter. */
  predicate IsUpper(s: string) {
    forall i :: 0 <= i < |s| ==> !('a' <= s[i] <= 'z')
  }

  /** Text without a capital letter is its own lower case. */
  lemma LowerFixed(s: string)
    requires IsLower(s)
    ensures Lower(s) == s
  {
  }

  /** Text without a small letter is its own upper case. */
  lemma UpperFixed(s: string)
    requires IsUpper(s)
    ensures Upper(s) == s
  {
  }

  /** Case mapping never turns whitespace into text or text into whitespace. */
  lemma CaseKeepsSpace(s: string)
    ensures Stripped(s) ==> Stripped(Lower(s)) && Stripped(Upper(s))
  {
  }

  /** `lower()` leaves no capital letter and `upper()` no small one. */
  lemma CaseResult(s: string)
    ensures IsLower(Lower(s)) && IsUpper(Upper(s))
  {
  }

  /**
   * `s.strip().lower()` is a fixed point of itself: the field normalisation
   * used for address columns is idempotent.
   */
  lemma {:induction false} StripLowerIdempotent(s: string)
    ensures var t := Lower(Strip(s)); Lower(Strip(t)) == t
  {
    var r := Strip(s);
    var t := Lower(r);
    CaseKeepsSpace(r);
    StripStripped(t);
    CaseResult(r);
    LowerFixed(t);
  }

  /** `s.strip().upper()` is a fixed point of itself. */
  lemma {:induction false} StripUpperIdempotent(s: string)
    ensures var t := Upper(Strip(s)); Upper(Strip(t)) == t
  {
    var r := Strip(s);
    var t := Upper(r);
    CaseKeepsSpace(r);
    StripStripped(t);
    CaseResult(r);
    UpperFixed(t);
  }

  /** An ASCII decimal digit (`str.isdigit` also accepts other Unicode digits). */
  predicate IsDigit(c: char) { '0' <= c <= '9' }

  /** `s.isdigit()` for ASCII digits: non-empty and every character a digit. */
  predicate IsDigits(s: string) {
    |s| > 0 && forall i :: 0 <= i < |s| ==> IsDigit(s[i])
  }

  function DigitValue(c: char): nat
    requires IsDigit(c)
  {
    c as int - '0' as int
  }

  /** The number a string of decimal digits stands for. */
  function DigitsValue(s: string): nat
    requires forall i :: 0 <= i < |s| ==> IsDigit(s[i])
  {
    if s == [] then 0 else DigitsValue(s[..|s| - 1]) * 10 + DigitValue(s[|s| - 1])
  }

  function DigitChar(d: nat): char
    requires d < 10
  {
    ('0' as int + d) as char
  }

  /** `str(n)` for a non-negative integer. */
  function NatText(n: nat): (r: string)
    decreases n
  {
    if n < 10 then [DigitChar(n)] else NatText(n / 10) + [DigitChar(n % 10)]
  }

  /** `str(i)` for any integer. */
  function IntText(i: int): string {
    if i < 0 then "-" + NatText(-i) else NatText(i)
  }

  lemma {:induction false} NatTextDigits(n: nat)
    ensures IsDigits(NatText(n))
    decreases n
  {
    if n >= 10 { NatTextDigits(n / 10); }
  }

  /** Decimal rendering and reading are inverse: `int(str(n)) == n`. */
  lemma {:induction false} NatTextRoundTrip(n: nat)
    ensures IsDigits(NatText(n)) && DigitsValue(NatText(n)) == n
    decreases n
  {
    if n >= 10 {
      NatTextRoundTrip(n / 10);
      var s := NatText(n);
      assert s[..|s| - 1] == NatText(n / 10);
    }
  }

  /** Distinct numbers have distinct decimal renderings. */
  lemma NatTextInjective(m: nat, n: nat)
    requires NatText(m) == NatText(n)
    ensures m == n
  {
    NatTextRoundTrip(m);
    NatTextRoundTrip(n);
  }

  /** Eight decimal digits are exactly the numbers in [10^7, 10^8). */
  lemma {:induction false} NatTextLength(n: nat, k: nat)
    requires k >= 1
    ensures |NatText(n)| == k <==> (k == 1 || Pow10(k - 1) <= n) && n < Pow10(k)
    decreases n
  {
    if n >= 10 {
      if k >= 2 {
        NatTextLength(n / 10, k - 1);
        Pow10Positive(k - 2);
      } else {
        NatTextAtLeast2(n);
      }
    }
  }

  lemma NatTextAtLeast2(n: nat)
    requires n >= 10
    ensures |NatText(n)| >= 2
  {
  }

  function Pow10(k: nat): nat {
    if k == 0 then 1 else 10 * Pow10(k - 1)
  }

  lemma {:induction false} Pow10Positive(k: nat)
    ensures Pow10(k) >= 1
  {
    if k > 0 { Pow10Positive(k - 1); }
  }

  /** Python's `sep.join(parts)`. */
  function Join(sep: string, parts: seq<string>): (r: string)
    decreases |parts|
  {
    if |parts| == 0 then ""
    else if |parts| == 1 then parts[0]
    else parts[0] + sep + Join(sep, parts[1..])
  }

  /** Appending one part extends the joined string by the separator and that part. */
  lemma {:induction false} JoinSnoc(sep: string, parts: seq<string>, p: string)
    requires parts != []
    ensures Join(sep, parts + [p]) == Join(sep, parts) + sep + p
    decreases |parts|
  {
    if |parts| == 1 {
      assert parts + [p] == [parts[0], p];
    } else {
      assert (parts + [p])[1..] == parts[1..] + [p];
      JoinSnoc(sep, parts[1..], p);
    }
  }

  /** The joined string is as long as its parts plus one separator between each pair. */
  lemma {:induction false} JoinLength(sep: string, parts: seq<string>)
    ensures |Join(sep, parts)| + (if parts == [] then 0 else |sep|)
         == SumLengths(parts) + |parts| * |sep|
    decreases |parts|
  {
    if |parts| > 1 {
      JoinLength(sep, parts[1..]);
    }
  }

  function SumLengths(parts: seq<string>): nat {
    if parts == [] then 0 else |parts[0]| + SumLengths(parts[1..])
  }

  /** Joining text without capital letters by a separator without them gives text without them. */
  lemma {:induction false} JoinLower(sep: string, parts: seq<string>)
    requires IsLower(sep) && forall k :: 0 <= k < |parts| ==> IsLower(parts[k])
    ensures IsLower(Join(sep, parts))
    decreases |parts|
  {
    if |parts| > 1 {
      JoinLower(sep, parts[1..]);
      LowerConcat(parts[0], sep);
      LowerConcat(parts[0] + sep, Join(sep, parts[1..]));
    }
  }

  lemma LowerConcat(a: string, b: string)
    requires IsLower(a) && IsLower(b)
    ensures IsLower(a + b)
  {
    assert forall i :: |a| <= i < |a + b| ==> (a + b)[i] == b[i - |a|];
  }

  predicate StartsWith(s: string, prefix: string) {
    |prefix| <= |s| && s[..|prefix|] == prefix
  }

  /** Python's `needle in s` for strings. */
  predicate Contains(s: string, needle: string)
    decreases |s|
  {
    StartsWith(s, needle) || (|s| > 0 && Contains(s[1..], needle))
  }

  /** `needle in s` exactly when `needle` starts at some position of `s`. */
  lemma {:induction false} ContainsAt(s: string, needle: string)
    ensures Contains(s, needle) <==> exists i :: 0 <= i <= |s| && StartsWith(s[i..], needle)
    decreases |s|
  {
    assert s[0..] == s;
    if |s| > 0 {
      ContainsAt(s[1..], needle);
      if Contains(s[1..], needle) {
        var i :| 0 <= i <= |s[1..]| && StartsWith(s[1..][i..], needle);
        assert s[1..][i..] == s[i + 1..];
      }
      if i :| 0 <= i <= |s| && StartsWith(s[i..], needle) {
        if i > 0 {
          assert s[1..][i - 1..] == s[i..];
        }
      }
    }
  }

  /** Every character of `c` removed: `s.replace(c, '')`. */
  function RemoveChar(s: string, c: char): string {
    if s == [] then []
    else (if s[0] == c then [] else [s[0]]) + RemoveChar(s[1..], c)
  }

  /** Removing a character the string does not contain changes nothing. */
  lemma {:induction false} RemoveAbsent(s: string, c: char)
    requires forall i :: 0 <= i < |s| ==> s[i] != c
    ensures RemoveChar(s, c) == s
    decreases |s|
  {
    if s != [] {
      RemoveAbsent(s[1..], c);
      assert s == [s[0]] + s[1..];
    }
  }

  /** Python's `<` on strings: lexicographic on code points. */
  predicate LexLess(a: string, b: string)
    decreases |a|
  {
    if |a| == 0 then |b| > 0
    else if |b| == 0 then false
    else if a[0] != b[0] then a[0] < b[0]
    else LexLess(a[1..], b[1..])
  }

  lemma {:induction false} LexLessIrreflexive(a: string)
    ensures !LexLess(a, a)
    decreases |a|
  {
    if |a| > 0 { LexLessIrreflexive(a[1..]); }
  }

  lemma {:induction false} LexLessTransitive(a: string, b: string, c: string)
    requires LexLess(a, b) && LexLess(b, c)
    ensures LexLess(a, c)
    decreases |a|
  {
    if |a| > 0 && |b| > 0 && |c| > 0 && a[0] == b[0] && b[0] == c[0] {
      LexLessTransitive(a[1..], b[1..], c[1..]);
    }
  }

  lemma {:induction false} LexLessTotal(a: string, b: string)
    requires a != b
    ensures LexLess(a, b) || LexLess(b, a)
    decreases |a|
  {
    if |a| > 0 && |b| > 0 && a[0] == b[0] {
      assert a == [a[0]] + a[1..] && b == [b[0]] + b[1..];
      LexLessTotal(a[1..], b[1..]);
    }
  }

  predicate StrictlySorted(s: seq<string>) {
    forall i, j :: 0 <= i < j < |s| ==> LexLess(s[i], s[j])
  }

  function Insert(x: string, s: seq<string>): (r: seq<string>)
    requires StrictlySorted(s)
    ensures StrictlySorted(r)
    ensures forall y :: y in r <==> y in s || y == x
  {
    if s == [] then [x]
    else if x == s[0] then s
    else if LexLess(x, s[0]) then
      assert forall j :: 0 <= j < |s| ==> LexLess(x, s[j]) by {
        forall j | 0 <= j < |s| ensures LexLess(x, s[j]) {
          if j > 0 { LexLessTransitive(x, s[0], s[j]); }
        }
      }
      [x] + s
    else
      LexLessTotal(x, s[0]);
      var t := Insert(x, s[1..]);
      assert forall y :: y in t ==> LexLess(s[0], y) by {
        forall y | y in t ensures LexLess(s[0], y) {
          if y != x {
            var k :| 0 <= k < |s[1..]| && s[1..][k] == y;
            assert s[k + 1] == y;
          }
        }
      }
      assert s == [s[0]] + s[1..];
      [s[0]] + t
  }

  /** Python's `sorted(set(xs))`: distinct, ascending, the same elements. */
  function SortedSet(xs: seq<string>): (r: seq<string>)
    ensures StrictlySorted(r)
    ensures forall y :: y in r <==> y in xs
  {
    if xs == [] then []
    else
      var r := Insert(xs[|xs| - 1], SortedSet(xs[..|xs| - 1]));
      assert xs == xs[..|xs| - 1] + [xs[|xs| - 1]];
      r
  }

  /** A strictly sorted sequence has no repeated element. */
  lemma SortedDistinct(s: seq<string>, i: nat, j: nat)
    requires StrictlySorted(s) && i < j < |s|
    ensures s[i] != s[j]
  {
    LexLessIrreflexive(s[i]);
  }
}
