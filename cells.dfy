/**
 * The values a pandas DataFrame cell holds in the matcher, Python's `str()`
 * and `==` on them, and the foreign functions the matcher calls.
 */
module Cells {
  import opened Wrappers
  import opened PyText
  import opened Calendar

  /** A Python float. `Integral(w)` is a float whose value is the integer `w`,
      which `FloatText` prints as digits and ".0" (Python does so only below
      10^16 in magnitude; the type does not enforce that bound); any other
      finite float is carried with its `repr` text. */
  datatype Float = Integral(whole: int) | Fraction(repr: string) | Infinity(negative: bool) | NaN

  /** One cell: a `str`, an integer, a float, a pandas `Timestamp`, pandas `NaT` or `None`. */
  datatype Cell = Str(s: string) | Int(i: int) | Flt(f: Float) | Stamp(ns: Instant) | NaT | Null

  /** The Python exceptions the two scripts can raise on their inputs. */
  datatype PyError =
    | KeyError(key: string)          // a missing column label
    | IndexError                     // `cols[0]` of an empty list
    | ZeroDivisionError              // a mean over no scores
    | AttributeError(column: string) // `.strip()` on a value that is not a `str`
    | OverflowError                  // `int()` of an infinite float
    | OutOfBoundsDatetime            // `Timestamp - Timestamp` beyond the `Timedelta` range

  /** A similarity score in percent. */
  type Percent = r: real | 0.0 <= r <= 100.0

  /**
   * The foreign functions, as total function values:
   * `ratio` is `rapidfuzz.fuzz.token_sort_ratio`; `parseFlexible` is
   * `pd.to_datetime(s, errors='coerce')` (None for NaT, for a value it
   * cannot represent and for any exception it raises); `stampText` is
   * `str()` of a `Timestamp`.
   */
  datatype Oracles = Oracles(
    ratio: (string, string) -> Percent,
    parseFlexible: string -> Option<Instant>,
    stampText: Instant -> string)

  /** `pd.isna(c)` / `not pd.notnull(c)`. */
  predicate IsNa(c: Cell) {
    c.NaT? || c.Null? || c == Flt(NaN)
  }

  /** Python's `repr` of a float. */
  function FloatText(f: Float): string {
    match f
    case Integral(w) => IntText(w) + ".0"
    case Fraction(r) => r
    case Infinity(neg) => if neg then "-inf" else "inf"
    case NaN => "nan"
  }

  /** Python's `str(c)`. */
  function PyStr(c: Cell, o: Oracles): string {
    match c
    case Str(s) => s
    case Int(i) => IntText(i)
    case Flt(f) => FloatText(f)
    case Stamp(ns) => o.stampText(ns)
    case NaT => "NaT"
    case Null => "None"
  }

  /** The element-wise `==` of pandas: missing values equal nothing, an integer equals the float of the same value. */
  predicate PyEq(a: Cell, b: Cell) {
    match (a, b)
    case (Str(s), Str(t)) => s == t
    case (Int(i), Int(j)) => i == j
    case (Int(i), Flt(Integral(w))) => i == w
    case (Flt(Integral(w)), Int(i)) => i == w
    case (Flt(Integral(v)), Flt(Integral(w))) => v == w
    case (Flt(Fraction(r)), Flt(Fraction(q))) => r == q
    case (Flt(Infinity(n1)), Flt(Infinity(n2))) => n1 == n2
    case (Stamp(x), Stamp(y)) => x == y
    case _ => false
  }

  /** `==` is symmetric, and a value equals itself exactly when it is not missing. */
  lemma PyEqProperties(a: Cell, b: Cell)
    ensures PyEq(a, b) == PyEq(b, a)
    ensures PyEq(a, a) <==> !IsNa(a)
  {
  }
}
