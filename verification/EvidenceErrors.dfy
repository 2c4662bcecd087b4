// How far the host's evaluator can be off, and why a refutation by a wide enough margin is genuine although it rounds.
module EvidenceErrors {
  import opened Wrappers
  import opened Floats
  import opened Evidence
  import opened EvidenceRounding

  predicate Near(x: real, y: real, e: real) {
    Abs(x - y) <= e
  }

  /** How far rounding may move a real number, for instance half a unit in its last place. */
  type Slip = real -> real

  ghost predicate RoundsWithin(h: Host, slip: Slip) {
    forall x :: slip(x) >= 0.0 && (h.round(x).Fin? ==> Near(h.round(x).value, x, slip(x)))
  }

  /** What errors el and er of the operands a and b do to the exact result; nothing where they may do anything. */
  function Spread(op: BinOp, a: real, b: real, el: real, er: real): Option<real> {
    match op
    case Add => Some(el + er)
    case Sub => Some(el + er)
    case Mul => Some(Product(Abs(a), er) + Product(Abs(b), el) + Product(el, er))
    case Div =>
      var margin := Product(Abs(b), Abs(b) - er);
      if Abs(b) <= er || margin <= 0.0 then None else Some((Product(Abs(a), er) + Product(Abs(b), el)) / margin)
    case Pow =>
      if er == 0.0 && IsWhole(b) && b >= 0.0 then Some(RealPow(Abs(a) + el, b.Floor) - RealPow(Abs(a), b.Floor)) else None
  }

  /** The accumulated error bound of the evaluator on an expression, from the values it computes. */
  function ErrorBound(h: Host, slip: Slip, e: Expr, w: map<string, Value>): Option<real>
    requires AllFinite(w)
  {
    match e
    case IntNum(n) => Some(slip(n as real))
    case FloatNum(v) => Some(slip(v))
    case Var(x) => if x in w then Some(slip(AsReal(w[x]))) else None
    case Unary(_, f) => ErrorBound(h, slip, f, w)
    case Bin(op, l, r) =>
      var a, b := Evaluate(h, l, w), Evaluate(h, r, w);
      var el, er := ErrorBound(h, slip, l, w), ErrorBound(h, slip, r, w);
      if a.None? || b.None? || el.None? || er.None? || !a.value.Fin? || !b.value.Fin? then None else
        var v := Apply(h.power, op, a.value.value, b.value.value);
        var spread := Spread(op, a.value.value, b.value.value, el.value, er.value);
        if v.None? || spread.None? then None else Some(spread.value + slip(v.value))
    case Unsafe => None
  }

  lemma ProductGrows(a: real, b: real, c: real)
    requires 0.0 <= a <= b && c >= 0.0
    ensures 0.0 <= Product(a, c) <= Product(b, c) && Product(a, c) == Product(c, a) && Product(b, c) == Product(c, b)
  {
  }

  lemma NegatedProduct(a: real, b: real)
    ensures Product(-a, b) == -Product(a, b) == Product(a, -b)
  {
  }

  lemma AbsOfProduct(a: real, b: real)
    ensures Abs(Product(a, b)) == Product(Abs(a), Abs(b))
  {
    NegatedProduct(a, b);
    NegatedProduct(a, -b);
    ProductGrows(0.0, Abs(a), Abs(b));
  }

  lemma Expand(a: real, b: real, u: real, v: real)
    ensures Product(a, b) - Product(a - u, b - v) == Product(a, v) + Product(b, u) - Product(u, v)
  {
  }

  /** A product of two errors is within the product of their bounds. */
  lemma WithinBounds(u: real, el: real, v: real, er: real)
    requires Abs(u) <= el && Abs(v) <= er
    ensures Abs(Product(u, v)) <= Product(el, er)
  {
    AbsOfProduct(u, v);
    ProductGrows(Abs(u), el, Abs(v));
    ProductGrows(Abs(v), er, el);
  }

  /** |ab - xy| is at most |a||b - y| + |b||a - x| + |a - x||b - y|. */
  lemma ProductsAreNear(a: real, b: real, x: real, y: real, el: real, er: real)
    requires Near(a, x, el) && Near(b, y, er)
    ensures Near(Product(a, b), Product(x, y), Product(Abs(a), er) + Product(Abs(b), el) + Product(el, er))
  {
    var u, v := a - x, b - y;
    assert x == a - u && y == b - v;
    Expand(a, b, u, v);
    WithinBounds(a, Abs(a), v, er);
    WithinBounds(b, Abs(b), u, el);
    WithinBounds(u, el, v, er);
  }

  lemma CrossMultiply(a: real, b: real, x: real, y: real)
    requires b != 0.0 && y != 0.0
    ensures Product(a / b - x / y, Product(b, y)) == Product(a, y) - Product(b, x)
  {
    var p, q := a / b, x / y;
    assert a == p * b && x == q * y;
    calc {
      Product(p - q, Product(b, y));
      p * (b * y) - q * (b * y);
      (p * b) * y - b * (q * y);
    }
  }

  lemma SignOfProduct(z: real, d: real)
    requires d > 0.0 && Product(z, d) <= 0.0
    ensures z <= 0.0
  {
  }

  lemma DivideThrough(q: real, d: real, n: real)
    requires d > 0.0 && Product(q, d) <= n
    ensures q <= n / d
  {
    assert n == Product(n / d, d);
    assert Product(q - n / d, d) == Product(q, d) - Product(n / d, d);
    SignOfProduct(q - n / d, d);
  }

  /** |a/b - x/y| is at most (|a||b - y| + |b||a - x|) / |b||y|, and |y| is at least |b| - |b - y|. */
  lemma QuotientsAreNear(a: real, b: real, x: real, y: real, el: real, er: real)
    requires Near(a, x, el) && Near(b, y, er) && Abs(b) > er && Product(Abs(b), Abs(b) - er) > 0.0
    ensures b != 0.0 && y != 0.0
    ensures Near(a / b, x / y, (Product(Abs(a), er) + Product(Abs(b), el)) / Product(Abs(b), Abs(b) - er))
  {
    var u, v, margin := a - x, b - y, Product(Abs(b), Abs(b) - er);
    assert Abs(y) >= Abs(b) - er > 0.0;
    assert b != 0.0 by {
      assert Product(0.0, Abs(b) - er) == 0.0;
    }
    var q, n := a / b - x / y, Product(Abs(a), er) + Product(Abs(b), el);
    CrossMultiply(a, b, x, y);
    Expand(a, b, 0.0, v);
    Expand(b, a, 0.0, u);
    assert Product(0.0, v) == 0.0 == Product(0.0, u) && Product(b, 0.0) == 0.0 == Product(a, 0.0);
    assert Product(a, b) == Product(b, a);
    assert Product(q, Product(b, y)) == Product(b, u) - Product(a, v);
    WithinBounds(a, Abs(a), v, er);
    WithinBounds(b, Abs(b), u, el);
    AbsOfProduct(q, Product(b, y));
    AbsOfProduct(b, y);
    ProductGrows(Abs(b) - er, Abs(y), Abs(b));
    ProductGrows(margin, Product(Abs(b), Abs(y)), Abs(q));
    DivideThrough(Abs(q), margin, n);
  }

  lemma {:induction false} AbsOfPower(a: real, n: nat)
    ensures Abs(RealPow(a, n)) == RealPow(Abs(a), n)
  {
    if n > 0 {
      AbsOfPower(a, n - 1);
      AbsOfProduct(a, RealPow(a, n - 1));
    }
  }

  lemma PowerStep(a: real, x: real, e: real, pa: real, px: real, big: real, small: real)
    requires Near(a, x, e) && Near(pa, px, big - small) && Abs(pa) == small
    ensures Near(Product(a, pa), Product(x, px), Product(Abs(a) + e, big) - Product(Abs(a), small))
  {
    ProductsAreNear(a, pa, x, px, e, big - small);
    GrowthOfPower(Abs(a), e, big, small);
  }

  lemma GrowthOfPower(a: real, e: real, big: real, small: real)
    ensures Product(a, big - small) + Product(small, e) + Product(e, big - small) == Product(a + e, big) - Product(a, small)
  {
  }

  /** |a^n - x^n| is at most (|a| + e)^n - |a|^n. */
  lemma {:induction false} PowersAreNear(a: real, x: real, e: real, n: nat)
    requires Near(a, x, e)
    ensures Near(RealPow(a, n), RealPow(x, n), RealPow(Abs(a) + e, n) - RealPow(Abs(a), n))
  {
    if n > 0 {
      PowersAreNear(a, x, e, n - 1);
      AbsOfPower(a, n - 1);
      PowerStep(a, x, e, RealPow(a, n - 1), RealPow(x, n - 1), RealPow(Abs(a) + e, n - 1), RealPow(Abs(a), n - 1));
    }
  }

  lemma SpreadBounds(power: Power, op: BinOp, a: real, b: real, x: real, y: real, el: real, er: real)
    requires Near(a, x, el) && Near(b, y, er) && Spread(op, a, b, el, er).Some? && Apply(power, op, a, b).Some?
    ensures Apply(power, op, x, y).Some?
    ensures Near(Apply(power, op, a, b).value, Apply(power, op, x, y).value, Spread(op, a, b, el, er).value)
  {
    match op
    case Add =>
    case Sub =>
    case Mul => ProductsAreNear(a, b, x, y, el, er);
    case Div => QuotientsAreNear(a, b, x, y, el, er);
    case Pow => PowersAreNear(a, x, el, b.Floor);
  }

  lemma StepIsNear(h: Host, slip: Slip, op: BinOp, a: real, b: real, x: real, y: real, el: real, er: real)
    requires RoundsWithin(h, slip) && Near(a, x, el) && Near(b, y, er)
    requires Spread(op, a, b, el, er).Some? && Apply(h.power, op, a, b).Some?
    requires Compute(h, op, Fin(a), Fin(b)).Some? && Compute(h, op, Fin(a), Fin(b)).value.Fin?
    ensures Apply(h.power, op, x, y).Some?
    ensures Near(Compute(h, op, Fin(a), Fin(b)).value.value, Apply(h.power, op, x, y).value,
                 Spread(op, a, b, el, er).value + slip(Apply(h.power, op, a, b).value))
  {
    SpreadBounds(h.power, op, a, b, x, y, el, er);
    if !(op.Pow? && b == 0.0) {
      ComputeRounds(h, op, a, b);
    }
  }

  /** Whatever the evaluator computes with an error bound is that close to what the expression means. */
  lemma {:induction false} EvaluatorIsNear(h: Host, slip: Slip, e: Expr, w: map<string, Value>)
    requires RoundsWithin(h, slip) && AllFinite(w) && ErrorBound(h, slip, e, w).Some?
    requires Evaluate(h, e, w).Some? && Evaluate(h, e, w).value.Fin?
    ensures Meaning(h.power, e, Env(w)).Some?
    ensures Near(Evaluate(h, e, w).value.value, Meaning(h.power, e, Env(w)).value, ErrorBound(h, slip, e, w).value)
  {
    match e
    case Unary(_, f) => EvaluatorIsNear(h, slip, f, w);
    case Bin(op, l, r) =>
      EvaluatorIsNear(h, slip, l, w);
      EvaluatorIsNear(h, slip, r, w);
      StepIsNear(h, slip, op, Evaluate(h, l, w).value.value, Evaluate(h, r, w).value.value,
                 Meaning(h.power, l, Env(w)).value, Meaning(h.power, r, Env(w)).value,
                 ErrorBound(h, slip, l, w).value, ErrorBound(h, slip, r, w).value);
    case _ =>
  }

  // ---- refutations by a margin ----

  /** The two sides, computed at a finite witness, are further apart than both error bounds together; no disequality. */
  predicate Separated(h: Host, slip: Slip, c: Claim, w: map<string, Value>)
    requires c.Arith?
  {
    && AllFinite(w) && !c.relation.Ne?
    && var l, r := SafeArithmetic(h, c.lhs, w), SafeArithmetic(h, c.rhs, w);
    && var el, er := ErrorBound(h, slip, c.lhs, w), ErrorBound(h, slip, c.rhs, w);
    && l.Some? && r.Some? && el.Some? && er.Some? && Abs(l.value - r.value) > el.value + er.value
  }

  /** A refutation whose sides differ by more than the accumulated error is genuine, whatever was rounded. */
  lemma SeparatedRefutationIsGenuine(h: Host, slip: Slip, c: Claim, w: map<string, Value>)
    requires RoundsWithin(h, slip) && HostRefutedBy(h, c, w) && Separated(h, slip, c, w) && Sane(h)
    ensures RefutedBy(h, c, w) && !TrueForAll(h.power, c)
  {
    EvaluatorIsNear(h, slip, c.lhs, w);
    EvaluatorIsNear(h, slip, c.rhs, w);
  }

  /** The claim `x / 3 > 1`, refuted at x = 1. */
  const THIRD: Expr := Bin(Div, Var("x"), IntNum(3))

  lemma ExactOperands(h: Host, slip: Slip, op: BinOp, l: Expr, r: Expr, w: map<string, Value>, a: real, b: real)
    requires AllFinite(w) && Apply(h.power, op, a, b).Some? && Spread(op, a, b, 0.0, 0.0) == Some(0.0)
    requires Evaluate(h, l, w) == Some(Fin(a)) && ErrorBound(h, slip, l, w) == Some(0.0)
    requires Evaluate(h, r, w) == Some(Fin(b)) && ErrorBound(h, slip, r, w) == Some(0.0)
    ensures Evaluate(h, Bin(op, l, r), w) == Compute(h, op, Fin(a), Fin(b))
    ensures ErrorBound(h, slip, Bin(op, l, r), w) == Some(slip(Apply(h.power, op, a, b).value))
  {
  }

  lemma ExactQuotientSpread()
    ensures Spread(Div, 1.0, 3.0, 0.0, 0.0) == Some(0.0)
  {
    assert Product(1.0, 0.0) == 0.0 == Product(3.0, 0.0) && Product(3.0, 3.0) == 9.0;
  }

  lemma ExactInteger(h: Host, slip: Slip, n: int, w: map<string, Value>)
    requires RoundsWithin(h, slip) && slip(n as real) == 0.0 && h.round(n as real).Fin? && AllFinite(w)
    ensures Evaluate(h, IntNum(n), w) == Some(Fin(n as real)) && ErrorBound(h, slip, IntNum(n), w) == Some(0.0)
    ensures w == map["x" := WInt(n)] ==>
              Evaluate(h, Var("x"), w) == Some(Fin(n as real)) && ErrorBound(h, slip, Var("x"), w) == Some(0.0)
  {
    assert Near(h.round(n as real).value, n as real, 0.0);
  }

  lemma ThirdIsNear(h: Host, slip: Slip, w: map<string, Value>)
    requires RoundsWithin(h, slip) && slip(1.0) == 0.0 == slip(3.0)
    requires w == map["x" := WInt(1)] && h.round(1.0).Fin? && h.round(3.0).Fin?
    ensures Evaluate(h, THIRD, w) == Some(h.round(1.0 / 3.0)) && ErrorBound(h, slip, THIRD, w) == Some(slip(1.0 / 3.0))
    ensures Evaluate(h, IntNum(1), w) == Some(Fin(1.0)) && ErrorBound(h, slip, IntNum(1), w) == Some(0.0)
  {
    ExactInteger(h, slip, 1, w);
    ExactInteger(h, slip, 3, w);
    ExactQuotientSpread();
    ExactOperands(h, slip, Div, Var("x"), IntNum(3), w, 1.0, 3.0);
    ComputeRounds(h, Div, 1.0, 3.0);
  }

  /** A refutation may round and still be genuine: a third is not exact in binary, but far from 1. */
  lemma RoundedThirdIsGenuine(h: Host, slip: Slip)
    requires Sane(h) && RoundsWithin(h, slip) && slip(1.0) == 0.0 == slip(3.0) && slip(1.0 / 3.0) < 0.25
    requires h.round(1.0).Fin? && h.round(3.0).Fin? && h.round(1.0 / 3.0).Fin?
    ensures var c, w := ClaimAboutX(Integer, THIRD, Gt, IntNum(1)), map["x" := WInt(1)];
            HostRefutedBy(h, c, w) && Separated(h, slip, c, w) && !TrueForAll(h.power, c)
  {
    var c, w := ClaimAboutX(Integer, THIRD, Gt, IntNum(1)), map["x" := WInt(1)];
    ThirdIsNear(h, slip, w);
    assert FromValue(h, WInt(1)).Some?;
    assert AllConvert(h, w);
    SeparatedRefutationIsGenuine(h, slip, c, w);
  }

  /** An audit at whose finite witness the evaluation is exact, or separates the two sides. */
  predicate Reliable(h: Host, slip: Slip, audit: Audit) {
    ExactAudit(h, audit) ||
    (audit.artifact.ArithArtifact? ==>
       var c := NormalizeClaim(audit.artifact.claim, audit.evidenceType, "");
       c.Some? && c.value.Arith? ==> Separated(h, slip, c.value, audit.artifact.binding))
  }

  lemma ReliableIsSound(h: Host, slip: Slip, audit: Audit, s: Suspicion)
    requires Sane(h) && RoundsWithin(h, slip) && ValidateEvidence(h, audit, s) && Reliable(h, slip, audit)
    ensures RefutedBy(h, s.claim, audit.artifact.binding)
    ensures !s.claim.relation.Ne? ==> !TrueForAll(h.power, s.claim)
  {
    ValidationIsComputed(h, audit, s);
    if ExactAudit(h, audit) {
      ValidationIsSound(h, audit, s);
    } else {
      SeparatedRefutationIsGenuine(h, slip, s.claim, audit.artifact.binding);
    }
  }

  /**
   * No Lean proof and no theorem reference can invalidate a premise: a verified review rests on a witness that fails
   * the host's test, and on a genuine one where the audit is reliable.
   */
  lemma OnlyArithmeticInvalidates(h: Host, slip: Slip, audit: Option<Audit>, defense: Option<Defense>, s: Option<Suspicion>)
    requires Decide(h, audit, defense, s).verified
    ensures IsArithmetic(s.value.evidenceType) && s.value.claim.Arith?
    ensures HostRefutedBy(h, s.value.claim, audit.value.artifact.binding)
    ensures Sane(h) && RoundsWithin(h, slip) && Reliable(h, slip, audit.value) ==> Refuted(h, s.value.claim)
  {
    ValidationIsComputed(h, audit.value, s.value);
    if Sane(h) && RoundsWithin(h, slip) && Reliable(h, slip, audit.value) {
      ReliableIsSound(h, slip, audit.value, s.value);
    }
  }
}
