/**
 * An abstract model of the Rust `f64` values the interpreter uses as JavaScript numbers.
 *
 * Finite values are exact reals: rounding to 53 bits and overflow to infinity are not modelled.
 * What is modelled is what the interpreter's code observes: NaN, the two infinities and the two
 * zeros. `Finite(0.0)` is +0 and `NegZero` is -0, so every number has exactly one representation.
 */
module F64 {
  import opened Wrappers

  datatype Number = NaN | PosInf | NegInf | NegZero | Finite(value: real)

  const Zero: Number := Finite(0.0)
  const One: Number := Finite(1.0)

  /** The conversion `i as f64` of an integer (exact here). */
  function FromInt(i: int): Number
  {
    Finite(i as real)
  }

  predicate IsFinite(n: Number)
  {
    n.NegZero? || n.Finite?
  }

  predicate IsInfinite(n: Number)
  {
    n.PosInf? || n.NegInf?
  }

  predicate IsZero(n: Number)
  {
    n.NegZero? || n == Finite(0.0)
  }

  /** `f64::is_sign_negative`: the sign bit, set for -0 and -inf too. */
  predicate SignNegative(n: Number)
  {
    n.NegInf? || n.NegZero? || (n.Finite? && n.value < 0.0)
  }

  /** `f64::is_normal`; subnormal magnitudes are not distinguished in this model. */
  predicate IsNormal(n: Number)
  {
    n.Finite? && n.value != 0.0
  }

  /** A finite number equal to its truncation (`n == n.trunc()` for finite n). */
  predicate IsIntegral(n: Number)
  {
    n.NegZero? || (n.Finite? && n.value == n.value.Floor as real)
  }

  /** The real value of a finite number; both zeros are 0. */
  function Val(n: Number): real
    requires IsFinite(n)
  {
    if n.NegZero? then 0.0 else n.value
  }

  function SignedZero(negative: bool): Number
  {
    if negative then NegZero else Zero
  }

  function SignedInf(negative: bool): Number
  {
    if negative then NegInf else PosInf
  }

  /** Rust's `==` on f64: NaN equals nothing, the two zeros are equal. */
  predicate Eq(a: Number, b: Number)
  {
    if IsFinite(a) && IsFinite(b) then Val(a) == Val(b)
    else !a.NaN? && a == b
  }

  /** Rust's `<` on f64: false whenever either side is NaN. */
  predicate Lt(a: Number, b: Number)
  {
    if a.NaN? || b.NaN? then false
    else if a.NegInf? then !b.NegInf?
    else if a.PosInf? then false
    else b.PosInf? || (IsFinite(b) && Val(a) < Val(b))
  }

  /** Unary minus flips the sign bit, including that of NaN's neighbours 0 and infinity. */
  function Neg(a: Number): (r: Number)
    ensures r.NaN? <==> a.NaN?
    ensures !a.NaN? ==> SignNegative(r) == !SignNegative(a)
    ensures IsFinite(a) ==> IsFinite(r) && Val(r) == -Val(a)
    ensures IsInfinite(r) <==> IsInfinite(a)
  {
    match a
    case NaN => NaN
    case PosInf => NegInf
    case NegInf => PosInf
    case NegZero => Zero
    case Finite(v) => if v == 0.0 then NegZero else Finite(-v)
  }

  /** IEEE addition: NaN only from a NaN operand or from opposite infinities. */
  function Add(a: Number, b: Number): (r: Number)
    ensures r.NaN? <==> a.NaN? || b.NaN? || (IsInfinite(a) && IsInfinite(b) && a != b)
    ensures IsFinite(a) && IsFinite(b) ==> IsFinite(r) && Val(r) == Val(a) + Val(b)
    ensures !r.NaN? && (IsInfinite(a) || IsInfinite(b)) ==> r == (if IsInfinite(a) then a else b)
  {
    if a.NaN? || b.NaN? then NaN
    else if a.PosInf? then (if b.NegInf? then NaN else PosInf)
    else if a.NegInf? then (if b.PosInf? then NaN else NegInf)
    else if IsInfinite(b) then b
    else if a.NegZero? && b.NegZero? then NegZero
    else Finite(Val(a) + Val(b))
  }

  /** IEEE subtraction is addition of the negated right operand, signed zeros included. */
  function Sub(a: Number, b: Number): (r: Number)
    ensures r.NaN? <==> a.NaN? || b.NaN? || (IsInfinite(a) && a == b)
    ensures IsFinite(a) && IsFinite(b) ==> IsFinite(r) && Val(r) == Val(a) - Val(b)
  {
    Add(a, Neg(b))
  }

  /** IEEE multiplication: NaN only from a NaN operand or from an infinity times a zero. */
  function Mul(a: Number, b: Number): (r: Number)
    ensures r.NaN? <==> a.NaN? || b.NaN? || (IsInfinite(a) && IsZero(b)) || (IsZero(a) && IsInfinite(b))
    ensures IsFinite(a) && IsFinite(b) ==> IsFinite(r) && Val(r) == Val(a) * Val(b)
    ensures !r.NaN? ==> SignNegative(r) == (SignNegative(a) != SignNegative(b))
  {
    var negative := SignNegative(a) != SignNegative(b);
    if a.NaN? || b.NaN? then NaN
    else if (IsInfinite(a) && IsZero(b)) || (IsZero(a) && IsInfinite(b)) then NaN
    else if IsInfinite(a) || IsInfinite(b) then SignedInf(negative)
    else if IsZero(a) || IsZero(b) then SignedZero(negative)
    else Finite(Val(a) * Val(b))
  }

  /**
   * IEEE division: NaN only from a NaN operand, two infinities or two zeros; a non-zero number
   * over a zero is an infinity.
   */
  function Div(a: Number, b: Number): (r: Number)
    ensures r.NaN? <==> a.NaN? || b.NaN? || (IsInfinite(a) && IsInfinite(b)) || (IsZero(a) && IsZero(b))
    ensures IsFinite(a) && IsFinite(b) && !IsZero(b) ==> IsFinite(r) && Val(r) == Val(a) / Val(b)
    ensures !a.NaN? && !IsZero(a) && IsZero(b) ==> IsInfinite(r)
    ensures !r.NaN? ==> SignNegative(r) == (SignNegative(a) != SignNegative(b))
  {
    var negative := SignNegative(a) != SignNegative(b);
    if a.NaN? || b.NaN? then NaN
    else if IsInfinite(a) && IsInfinite(b) then NaN
    else if IsZero(a) && IsZero(b) then NaN
    else if IsInfinite(a) then SignedInf(negative)
    else if IsInfinite(b) then SignedZero(negative)
    else if IsZero(b) then SignedInf(negative)
    else if IsZero(a) then SignedZero(negative)
    else Finite(Val(a) / Val(b))
  }

  /** Negating twice gives the number back, signed zeros and NaN included. */
  lemma NegInvolution(a: Number)
    ensures Neg(Neg(a)) == a
  {
  }

  /** NaN is the one number that is not equal to itself under Rust's `==`. */
  lemma EqReflexiveExceptNaN(a: Number)
    ensures Eq(a, a) <==> !a.NaN?
  {
  }

  /** Every arithmetic operator yields NaN when either operand is NaN. */
  lemma NaNPropagates(a: Number, b: Number)
    requires a.NaN? || b.NaN?
    ensures Add(a, b).NaN? && Sub(a, b).NaN? && Mul(a, b).NaN? && Div(a, b).NaN?
  {
  }

  /** On finite operands with non-zero results the operators are the exact real operators. */
  lemma FiniteArithmetic(x: real, y: real)
    requires x != 0.0 && y != 0.0
    ensures Add(Finite(x), Finite(y)) == Finite(x + y)
    ensures Sub(Finite(x), Finite(y)) == Finite(x - y)
    ensures Mul(Finite(x), Finite(y)) == Finite(x * y)
    ensures Div(Finite(x), Finite(y)) == Finite(x / y)
  {
  }

  // ---------------------------------------------------------------------------------------------
  // Decimal text of integers, as `{}` formats an integral f64 and as array index keys are spelled.

  function DigitChar(d: nat): (c: char)
    requires d < 10
    ensures '0' <= c <= '9'
  {
    ('0' as int + d) as char
  }

  predicate IsDigit(c: char)
  {
    '0' <= c <= '9'
  }

  function DigitValue(c: char): (d: nat)
    requires IsDigit(c)
    ensures d < 10
  {
    c as int - '0' as int
  }

  /** The decimal digits of n, most significant first, with no leading zero. */
  function NatToString(n: nat): (s: string)
    ensures |s| > 0
    decreases n
  {
    if n < 10 then [DigitChar(n)] else NatToString(n / 10) + [DigitChar(n % 10)]
  }

  /** The decimal text of i: its digits, preceded by '-' exactly when i is negative. */
  function IntToString(i: int): string
  {
    if i < 0 then "-" + NatToString(-i) else NatToString(i)
  }

  predicate AllDigits(s: string)
  {
    forall k :: 0 <= k < |s| ==> IsDigit(s[k])
  }

  /** The value of a string of decimal digits. */
  function DigitsValue(s: string): nat
    requires AllDigits(s)
  {
    if s == [] then 0 else DigitsValue(s[..|s| - 1]) * 10 + DigitValue(s[|s| - 1])
  }

  function ParseNat(s: string): Option<nat>
  {
    if |s| > 0 && AllDigits(s) then Some(DigitsValue(s)) else None
  }

  /** The inverse of IntToString: an optional '-' followed by at least one digit. */
  function ParseInt(s: string): Option<int>
  {
    if |s| > 0 && s[0] == '-' then
      match ParseNat(s[1..])
      case Some(k) => var v: int := k; Some(-v)
      case None => None
    else
      match ParseNat(s)
      case Some(k) => var v: int := k; Some(v)
      case None => None
  }

  lemma {:induction false} NatToStringDigits(n: nat)
    ensures AllDigits(NatToString(n))
    ensures DigitsValue(NatToString(n)) == n
    decreases n
  {
    var s := NatToString(n);
    if n >= 10 {
      NatToStringDigits(n / 10);
      assert s[..|s| - 1] == NatToString(n / 10);
      assert DigitValue(s[|s| - 1]) == n % 10;
    }
  }

  /** Reading back the text of a natural number gives that number. */
  lemma NatRoundTrip(n: nat)
    ensures ParseNat(NatToString(n)) == Some(n)
  {
    NatToStringDigits(n);
  }

  /** Reading back the text of an integer gives that integer. */
  lemma IntRoundTrip(i: int)
    ensures ParseInt(IntToString(i)) == Some(i)
  {
    var s := IntToString(i);
    if i < 0 {
      NatRoundTrip(-i);
      assert s[1..] == NatToString(-i);
    } else {
      NatRoundTrip(i);
      NatToStringDigits(i);
      assert IsDigit(s[0]);
    }
  }

  /** Distinct integers have distinct text, so index keys never collide. */
  lemma IntToStringInjective(i: int, j: int)
    requires IntToString(i) == IntToString(j)
    ensures i == j
  {
    IntRoundTrip(i);
    IntRoundTrip(j);
  }

  /**
   * The `{}` rendering of an f64: "NaN", "inf", "-inf", the decimal digits of an integral value,
   * and `fracText` (the shortest round-trip decimal, which needs the binary representation) for
   * any other finite value. -0 renders as "0", as Rust's formatter did before version 1.53.
   */
  function ToText(n: Number, fracText: real -> string): string
  {
    match n
    case NaN => "NaN"
    case PosInf => "inf"
    case NegInf => "-inf"
    case NegZero => "0"
    case Finite(v) => if v == v.Floor as real then IntToString(v.Floor) else fracText(v)
  }

  /** Rounds toward zero. */
  function TruncReal(r: real): int
  {
    if r >= 0.0 then r.Floor else -((-r).Floor)
  }

  const I32Min: int := -0x8000_0000
  const I32Max: int := 0x7fff_ffff

  /** `n as i32`: truncation toward zero, saturating at the bounds, NaN to 0. */
  function AsI32(n: Number): (r: int)
    ensures I32Min <= r <= I32Max
    ensures IsIntegral(n) && I32Min <= Val(n) as int <= I32Max ==> r == Val(n).Floor
    ensures IsFinite(n) && 0.0 <= Val(n) < I32Max as real + 1.0 ==> r as real <= Val(n) < r as real + 1.0
    ensures IsFinite(n) && I32Min as real - 1.0 < Val(n) <= 0.0 ==> r as real - 1.0 < Val(n) <= r as real
    ensures n.PosInf? || (IsFinite(n) && Val(n) >= I32Max as real + 1.0) ==> r == I32Max
    ensures n.NegInf? || (IsFinite(n) && Val(n) <= I32Min as real - 1.0) ==> r == I32Min
    ensures n.NaN? ==> r == 0
  {
    match n
    case NaN => 0
    case PosInf => I32Max
    case NegInf => I32Min
    case NegZero => 0
    case Finite(v) =>
      var t := TruncReal(v);
      if t < I32Min then I32Min else if t > I32Max then I32Max else t
  }
}
