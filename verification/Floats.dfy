// The host's floating-point arithmetic: numbers, infinities and not-a-number, with an arbitrary rounding of every result.
module Floats {
  import opened Wrappers

  datatype Float = Fin(value: real) | Inf(negative: bool) | NaN

  /** What a positive number raised to a fractional power is. */
  type Power = (real, real) -> real

  /** How the host rounds a real number, and what it takes fractional powers to be. */
  datatype Host = Host(round: real -> Float, power: Power)

  function Abs(x: real): real {
    if x < 0.0 then -x else x
  }

  function Max(a: real, b: real): real {
    if a >= b then a else b
  }

  predicate IsWhole(x: real) {
    x.Floor as real == x
  }

  predicate NotNegative(f: Float) {
    (f.Fin? && f.value >= 0.0) || f == Inf(false)
  }

  /** Zero is exact, nothing rounds to NaN, and no sign is lost. */
  ghost predicate Sane(h: Host) {
    h.round(0.0) == Fin(0.0) && forall x :: !h.round(x).NaN? && (x >= 0.0 ==> NotNegative(h.round(x)))
  }

  // ---- real arithmetic ----

  datatype BinOp = Add | Sub | Mul | Div | Pow

  function Product(a: real, b: real): real {
    a * b
  }

  function RealPow(base: real, n: nat): real {
    if n == 0 then 1.0 else Product(base, RealPow(base, n - 1))
  }

  /** Powers over the reals; nothing for zero to a negative or a negative base to a fractional power. */
  function PowMeaning(power: Power, base: real, exponent: real): Option<real> {
    if IsWhole(exponent) then
      if exponent >= 0.0 then Some(RealPow(base, exponent.Floor))
      else if RealPow(base, -exponent.Floor) == 0.0 then None
      else Some(1.0 / RealPow(base, -exponent.Floor))
    else if base > 0.0 then Some(power(base, exponent))
    else if base == 0.0 && exponent > 0.0 then Some(0.0)
    else None
  }

  function Apply(power: Power, op: BinOp, l: real, r: real): Option<real> {
    match op
    case Add => Some(l + r)
    case Sub => Some(l - r)
    case Mul => Some(Product(l, r))
    case Div => if r == 0.0 then None else Some(l / r)
    case Pow => PowMeaning(power, l, r)
  }

  // ---- the host's arithmetic ----

  function Negate(f: Float): Float {
    match f
    case Fin(v) => Fin(-v)
    case Inf(negative) => Inf(!negative)
    case NaN => NaN
  }

  predicate Negative(f: Float) {
    (f.Fin? && f.value < 0.0) || f == Inf(true)
  }

  function Plus(h: Host, a: Float, b: Float): Float {
    if a.NaN? || b.NaN? then NaN
    else if a.Fin? && b.Fin? then h.round(a.value + b.value)
    else if a.Inf? && b.Inf? && a != b then NaN
    else if a.Inf? then a else b
  }

  function Times(h: Host, a: Float, b: Float): Float {
    if a.NaN? || b.NaN? then NaN
    else if a.Fin? && b.Fin? then h.round(Product(a.value, b.value))
    else if a == Fin(0.0) || b == Fin(0.0) then NaN
    else Inf(Negative(a) != Negative(b))
  }

  /** Division by zero is an error, whatever is divided. */
  function Over(h: Host, a: Float, b: Float): Option<Float> {
    if b == Fin(0.0) then None
    else if a.NaN? || b.NaN? || (a.Inf? && b.Inf?) then Some(NaN)
    else if b.Inf? then Some(Fin(0.0))
    else if a.Inf? then Some(Inf(a.negative != Negative(b)))
    else Some(h.round(a.value / b.value))
  }

  /** Exponents beyond 12 are refused, and so is a result that overflows; anything to the power 0 is 1, and 1 to NaN too. */
  function Raise(h: Host, a: Float, b: Float): Option<Float> {
    if b.Inf? || (b.Fin? && Abs(b.value) > 12.0) then None
    else if b == Fin(0.0) || (b.NaN? && a == Fin(1.0)) then Some(Fin(1.0))
    else if a.NaN? || b.NaN? then Some(NaN)
    else if a.Inf? then
      if b.value < 0.0 then Some(Fin(0.0))
      else Some(Inf(a.negative && IsWhole(b.value) && b.value.Floor % 2 == 1))
    else
      var v := PowMeaning(h.power, a.value, b.value);
      if v.None? || !h.round(v.value).Fin? then None else Some(h.round(v.value))
  }

  function Compute(h: Host, op: BinOp, a: Float, b: Float): Option<Float> {
    match op
    case Add => Some(Plus(h, a, b))
    case Sub => Some(Plus(h, a, Negate(b)))
    case Mul => Some(Times(h, a, b))
    case Div => Over(h, a, b)
    case Pow => Raise(h, a, b)
  }

  lemma RaiseRounds(h: Host, a: real, b: real)
    requires Abs(b) <= 12.0 && b != 0.0
    ensures var v, f := PowMeaning(h.power, a, b), Raise(h, Fin(a), Fin(b));
            (v.None? ==> f.None?) && (v.Some? && h.round(v.value).Fin? ==> f == Some(h.round(v.value)))
  {
  }

  /** Where both operands and the result are numbers, the host rounds the real result. */
  lemma ComputeRounds(h: Host, op: BinOp, a: real, b: real)
    requires op.Pow? ==> Abs(b) <= 12.0 && b != 0.0
    ensures var v, f := Apply(h.power, op, a, b), Compute(h, op, Fin(a), Fin(b));
            && (v.None? ==> f.None?)
            && (v.Some? && !(op.Pow? && !h.round(v.value).Fin?) ==> f == Some(h.round(v.value)))
  {
    match op
    case Add =>
    case Sub => assert a + -b == a - b;
    case Mul =>
    case Div =>
    case Pow => RaiseRounds(h, a, b);
  }

  function Magnitude(f: Float): Float {
    if Negative(f) then Negate(f) else f
  }

  predicate AtMost(a: Float, b: Float) {
    if a.NaN? || b.NaN? then false
    else if a.Fin? && b.Fin? then a.value <= b.value
    else a == b || a == Inf(true) || b == Inf(false)
  }

  function Tolerance(h: Host, l: real, r: real): Float {
    Times(h, h.round(0.000000001), Fin(Max(1.0, Max(Abs(l), Abs(r)))))
  }

  /** Equality as the host decides it: the rounded difference is within the rounded tolerance. */
  predicate Close(h: Host, l: real, r: real) {
    AtMost(Magnitude(h.round(l - r)), Tolerance(h, l, r))
  }
}
