/**
 * The pieces of JavaScript's semantics that the migration engine leans on:
 * how a Number is narrowed by `x|0`, how a non-negative integer is rendered
 * by string concatenation, how `<`, `>` and `Array.prototype.sort` order
 * strings, and the character classes `\s` and `.` of regular expressions.
 */
module Js {

  datatype Option<+T> = None | Some(value: T) {
    function GetOr(default: T): T {
      if Some? then value else default
    }
  }

  /** A value or a thrown `Error` with its message. */
  datatype Result<+T> = Ok(value: T) | Error(message: string)

  // ---------------------------------------------------------------------
  // Numbers
  // ---------------------------------------------------------------------

  /** A JavaScript Number, as produced by the unary `+` (ToNumber). */
  datatype Number = Finite(value: real) | NaN | Infinite(negative: bool)

  /** A Number is falsy when it is zero or NaN. */
  predicate Truthy(n: Number) {
    n != Finite(0.0) && !n.NaN?
  }

  /** A Number passed as an optional argument: `None` when it is falsy. */
  function Argument(n: Number): (r: Option<Number>)
    ensures r.Some? <==> Truthy(n)
    ensures r.Some? ==> r.value == n
  {
    if Truthy(n) then Some(n) else None
  }

  const TwoTo31: int := 0x8000_0000
  const TwoTo32: int := 0x1_0000_0000

  /** Rounding toward zero, the first step of ToInt32. */
  function Trunc(x: real): (t: int)
    ensures 0.0 <= x ==> t as real <= x < t as real + 1.0
    ensures x < 0.0 ==> t as real - 1.0 < x <= t as real
  {
    if 0.0 <= x then x.Floor else -((-x).Floor)
  }

  /**
   * ToInt32, the conversion behind `x|0`: NaN and the infinities give 0,
   * anything else is truncated and wrapped into the signed 32-bit range.
   */
  function ToInt32(n: Number): (r: int)
    ensures -TwoTo31 <= r < TwoTo31
    ensures n.Finite? ==> (r - Trunc(n.value)) % TwoTo32 == 0
    ensures !n.Finite? ==> r == 0
  {
    match n
    case Finite(x) =>
      var m := Trunc(x) % TwoTo32;
      if m < TwoTo31 then m else m - TwoTo32
    case _ => 0
  }

  /** A number already in the 32-bit range is only truncated. */
  lemma ToInt32InRange(x: real)
    requires -TwoTo31 <= Trunc(x) < TwoTo31
    ensures ToInt32(Finite(x)) == Trunc(x)
  {
    var t, r := Trunc(x), ToInt32(Finite(x));
    var k := (r - t) / TwoTo32;
    assert r - t == k * TwoTo32;
    assert -TwoTo32 < r - t < TwoTo32;
  }

  // ---------------------------------------------------------------------
  // Decimal digits
  // ---------------------------------------------------------------------

  predicate IsDigit(c: char) {
    '0' <= c <= '9'
  }

  predicate AllDigits(s: string) {
    forall i :: 0 <= i < |s| ==> IsDigit(s[i])
  }

  function DigitChar(d: nat): (c: char)
    requires d < 10
    ensures IsDigit(c)
  {
    ('0' as int + d) as char
  }

  function DigitValue(c: char): (d: nat)
    requires IsDigit(c)
    ensures d < 10 && DigitChar(d) == c
  {
    c as int - '0' as int
  }

  function Pow10(k: nat): (p: nat)
    ensures p >= 1
  {
    if k == 0 then 1 else 10 * Pow10(k - 1)
  }

  /** `'' + n` for a non-negative integer Number: its decimal digits, no leading zero. */
  function Decimal(n: nat): (s: string)
    ensures |s| >= 1 && AllDigits(s)
    ensures s[0] == '0' ==> n == 0
  {
    if n < 10 then [DigitChar(n)] else Decimal(n / 10) + [DigitChar(n % 10)]
  }

  /** The number a string of decimal digits denotes. */
  function DigitsValue(s: string): nat
    requires AllDigits(s)
  {
    if s == [] then 0 else 10 * DigitsValue(s[..|s| - 1]) + DigitValue(s[|s| - 1])
  }

  /** Reading back the rendering of n gives n. */
  lemma {:induction false} DecimalValue(n: nat)
    ensures DigitsValue(Decimal(n)) == n
  {
    if n >= 10 {
      var s := Decimal(n);
      assert s[..|s| - 1] == Decimal(n / 10);
      DecimalValue(n / 10);
    }
  }

  /** Below 10^k the rendering has at most k digits. */
  lemma {:induction false} DecimalShort(n: nat, k: nat)
    requires k >= 1 && n < Pow10(k)
    ensures |Decimal(n)| <= k
  {
    if n >= 10 {
      assert Pow10(k) == 10 * Pow10(k - 1);
      DecimalShort(n / 10, k - 1);
    }
  }

  /** From 10^k on the rendering has more than k digits. */
  lemma {:induction false} DecimalLong(n: nat, k: nat)
    requires Pow10(k) <= n
    ensures |Decimal(n)| > k
  {
    if k > 0 {
      assert Pow10(k) == 10 * Pow10(k - 1);
      DecimalLong(n / 10, k - 1);
    }
  }

  /** For k >= 2, the rendering of n has k digits exactly when 10^(k-1) <= n < 10^k. */
  lemma DecimalLength(n: nat, k: nat)
    requires k >= 2
    ensures |Decimal(n)| == k <==> Pow10(k - 1) <= n < Pow10(k)
  {
    if Pow10(k - 1) <= n < Pow10(k) {
      DecimalShort(n, k);
      DecimalLong(n, k - 1);
    } else if n < Pow10(k - 1) {
      DecimalShort(n, k - 1);
    } else {
      DecimalLong(n, k);
    }
  }

  // ---------------------------------------------------------------------
  // String order
  // ---------------------------------------------------------------------

  /**
   * `a < b` on strings, the order `Array.prototype.sort` uses by default:
   * the first differing character decides, and a proper prefix comes first.
   */
  predicate Less(a: string, b: string): (r: bool)
    ensures r ==> a != b
    ensures |a| < |b| && a == b[..|a|] ==> r
    decreases |a|
  {
    if |a| == 0 then |b| > 0
    else if |b| == 0 then false
    else if a[0] != b[0] then a[0] < b[0]
    else Less(a[1..], b[1..])
  }

  predicate LessEq(a: string, b: string) {
    a == b || Less(a, b)
  }

  lemma {:induction false} LessIrreflexive(a: string)
    ensures !Less(a, a)
  {
    if |a| > 0 {
      LessIrreflexive(a[1..]);
    }
  }

  lemma {:induction false} LessTransitive(a: string, b: string, c: string)
    requires Less(a, b) && Less(b, c)
    ensures Less(a, c)
  {
    if |a| > 0 && a[0] == b[0] && b[0] == c[0] {
      LessTransitive(a[1..], b[1..], c[1..]);
    }
  }

  /** Exactly one of a < b, a == b, b < a. */
  lemma {:induction false} LessTrichotomy(a: string, b: string)
    ensures Less(a, b) || a == b || Less(b, a)
    ensures !(Less(a, b) && Less(b, a))
  {
    if |a| > 0 && |b| > 0 && a[0] == b[0] {
      LessTrichotomy(a[1..], b[1..]);
      if a[1..] == b[1..] {
        assert a == [a[0]] + a[1..] && b == [b[0]] + b[1..];
      }
    }
  }

  lemma LessEqTransitive(a: string, b: string, c: string)
    requires LessEq(a, b) && LessEq(b, c)
    ensures LessEq(a, c)
  {
    if a != b && b != c {
      LessTransitive(a, b, c);
    }
  }

  lemma LessEqTotal(a: string, b: string)
    ensures LessEq(a, b) || LessEq(b, a)
    ensures LessEq(a, b) && LessEq(b, a) ==> a == b
  {
    LessTrichotomy(a, b);
  }

  /** Between two prefixes of equal length that differ, the prefixes decide. */
  lemma {:induction false} LessByPrefix(p: string, q: string, x: string, y: string)
    requires |p| == |q| && p != q
    ensures Less(p + x, q + y) <==> Less(p, q)
  {
    if p[0] == q[0] {
      assert (p + x)[1..] == p[1..] + x && (q + y)[1..] == q[1..] + y;
      assert p[1..] != q[1..] by {
        assert p == [p[0]] + p[1..] && q == [q[0]] + q[1..];
      }
      LessByPrefix(p[1..], q[1..], x, y);
    }
  }

  /** On digit strings of one length, string order is numeric order. */
  lemma {:induction false} DigitsOrder(a: string, b: string)
    requires |a| == |b| && AllDigits(a) && AllDigits(b)
    ensures Less(a, b) <==> DigitsValue(a) < DigitsValue(b)
    decreases |a|
  {
    if |a| > 0 {
      var n := |a| - 1;
      var a', b' := a[..n], b[..n];
      assert a == a' + [a[n]] && b == b' + [b[n]];
      var va, vb := DigitsValue(a'), DigitsValue(b');
      var da, db := DigitValue(a[n]), DigitValue(b[n]);
      assert DigitsValue(a) == 10 * va + da && DigitsValue(b) == 10 * vb + db;
      if a' == b' {
        LessAfterEqualPrefix(a', a[n], b[n]);
        assert Less(a, b) <==> a[n] < b[n];
      } else {
        LessByPrefix(a', b', [a[n]], [b[n]]);
        DigitsOrder(a', b');
        DigitsOrder(b', a');
        LessTrichotomy(a', b');
        assert va != vb;
      }
    } else {
      assert a == b;
      LessIrreflexive(a);
    }
  }

  lemma {:induction false} LessAfterEqualPrefix(p: string, x: char, y: char)
    ensures Less(p + [x], p + [y]) <==> x < y
  {
    if |p| > 0 {
      assert (p + [x])[1..] == p[1..] + [x] && (p + [y])[1..] == p[1..] + [y];
      LessAfterEqualPrefix(p[1..], x, y);
    }
  }

  // ---------------------------------------------------------------------
  // Regular-expression character classes
  // ---------------------------------------------------------------------

  /** The characters `.` does not match: the ECMAScript line terminators. */
  predicate IsLineTerminator(c: char) {
    c == '\n' || c == '\r' || c == '\U{2028}' || c == '\U{2029}'
  }

  /** The class `\s`: ECMAScript white space and line terminators. */
  predicate IsWhiteSpace(c: char) {
    || c == '\t' || c == '\U{000B}' || c == '\U{000C}' || c == ' ' || c == '\U{00A0}'
    || c == '\U{1680}' || ('\U{2000}' <= c <= '\U{200A}') || c == '\U{202F}'
    || c == '\U{205F}' || c == '\U{3000}' || c == '\U{FEFF}'
    || IsLineTerminator(c)
  }

  /** `s.indexOf(t) != -1` */
  ghost predicate Contains(s: string, t: string) {
    exists i, j :: 0 <= i <= j <= |s| && s[i..j] == t
  }
}
