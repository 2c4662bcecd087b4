// What a validated refutation is worth: where the host's arithmetic is exact, and what rounding, infinities and the
// tolerance do to it otherwise.
module EvidenceRounding {
  import opened Wrappers
  import opened Floats
  import opened Evidence

  /** Every power in the expression has an exponent the evaluator accepts. */
  predicate SmallPowers(power: Power, e: Expr, env: map<string, real>) {
    match e
    case Unary(_, f) => SmallPowers(power, f, env)
    case Bin(op, l, r) =>
      SmallPowers(power, l, env) && SmallPowers(power, r, env) &&
      (op.Pow? && Meaning(power, r, env).Some? ==> Abs(Meaning(power, r, env).value) <= 12.0)
    case _ => true
  }

  predicate Exactly(h: Host, v: Option<real>) {
    v.Some? ==> h.round(v.value) == Fin(v.value)
  }

  /** Rounding changes no constant, no variable and no intermediate result. */
  predicate ExactAt(h: Host, e: Expr, env: map<string, real>) {
    match e
    case Unary(_, f) => ExactAt(h, f, env)
    case Bin(_, l, r) => ExactAt(h, l, env) && ExactAt(h, r, env) && Exactly(h, Meaning(h.power, e, env))
    case _ => Exactly(h, Meaning(h.power, e, env))
  }

  function AsFloat(v: Option<real>): Option<Float> {
    if v.Some? then Some(Fin(v.value)) else None
  }

  lemma ComputesExactly(h: Host, op: BinOp, a: real, b: real)
    requires Exactly(h, Apply(h.power, op, a, b))
    ensures Compute(h, op, Fin(a), Fin(b)).Some? ==> Compute(h, op, Fin(a), Fin(b)) == AsFloat(Apply(h.power, op, a, b))
    ensures (op.Pow? ==> Abs(b) <= 12.0) ==> Compute(h, op, Fin(a), Fin(b)) == AsFloat(Apply(h.power, op, a, b))
  {
    if !(op.Pow? && (b == 0.0 || Abs(b) > 12.0)) {
      ComputeRounds(h, op, a, b);
    }
  }

  /** Where nothing is rounded the evaluator computes the exact meaning, and refuses nothing but large exponents. */
  lemma {:induction false} EvaluatorIsExact(h: Host, e: Expr, w: map<string, Value>)
    requires AllFinite(w) && ExactAt(h, e, Env(w))
    ensures Evaluate(h, e, w).Some? ==> Evaluate(h, e, w) == AsFloat(Meaning(h.power, e, Env(w)))
    ensures SmallPowers(h.power, e, Env(w)) ==> Evaluate(h, e, w) == AsFloat(Meaning(h.power, e, Env(w)))
  {
    match e
    case Unary(_, f) => EvaluatorIsExact(h, f, w);
    case Bin(op, l, r) =>
      EvaluatorIsExact(h, l, w);
      EvaluatorIsExact(h, r, w);
      var a, b := Meaning(h.power, l, Env(w)), Meaning(h.power, r, Env(w));
      if a.Some? && b.Some? {
        ComputesExactly(h, op, a.value, b.value);
      }
    case _ =>
  }

  lemma ToleranceIsNotNegative(h: Host, l: real, r: real)
    requires Sane(h)
    ensures NotNegative(Tolerance(h, l, r))
  {
    var t, m := h.round(0.000000001), Max(1.0, Max(Abs(l), Abs(r)));
    if t.Fin? {
      assert t.value * m >= 0.0;
    }
  }

  /** The host's tolerance only ever spares an equality; it never turns a true relation between values into a false one. */
  lemma HostRefutesOnlyFalse(h: Host, rel: Relation, l: real, r: real)
    requires Sane(h) && !HostHolds(h, rel, l, r)
    ensures if rel.Ne? then Close(h, l, r) else !Holds(rel, l, r)
  {
    ToleranceIsNotNegative(h, l, r);
  }

  /** Nothing is rounded when the host evaluates the audit's own claim at the audit's own witness, which is finite. */
  predicate ExactAudit(h: Host, audit: Audit) {
    audit.artifact.ArithArtifact? ==>
      var c, w := NormalizeClaim(audit.artifact.claim, audit.evidenceType, ""), audit.artifact.binding;
      AllFinite(w) && (c.Some? && c.value.Arith? ==> ExactAt(h, c.value.lhs, Env(w)) && ExactAt(h, c.value.rhs, Env(w)))
  }

  /** Where nothing is rounded, validated evidence is a genuine counterexample. */
  lemma ValidationIsSound(h: Host, audit: Audit, s: Suspicion)
    requires Sane(h) && ValidateEvidence(h, audit, s) && ExactAudit(h, audit)
    ensures s.claimHash == Sha256(s.claim) && RefutedBy(h, s.claim, audit.artifact.binding)
    ensures !s.claim.relation.Ne? ==> !TrueForAll(h.power, s.claim)
  {
    var c, w := s.claim, audit.artifact.binding;
    ValidationIsComputed(h, audit, s);
    EvaluatorIsExact(h, c.lhs, w);
    EvaluatorIsExact(h, c.rhs, w);
    HostRefutesOnlyFalse(h, c.relation, Meaning(h.power, c.lhs, Env(w)).value, Meaning(h.power, c.rhs, Env(w)).value);
  }

  /**
   * Where nothing is rounded, validated evidence breaks the claimed relation itself, unless the claim is a
   * disequality of close but different values.
   */
  lemma WitnessIsGenuineExactlyWhen(h: Host, audit: Audit, s: Suspicion)
    requires Sane(h) && ValidateEvidence(h, audit, s) && ExactAudit(h, audit)
    ensures var w := audit.artifact.binding;
            var l, r := Meaning(h.power, s.claim.lhs, Env(w)), Meaning(h.power, s.claim.rhs, Env(w));
            && l.Some? && r.Some?
            && (!Holds(s.claim.relation, l.value, r.value) <==> !s.claim.relation.Ne? || l == r)
  {
    ValidationIsSound(h, audit, s);
  }

  predicate BelowOne(f: Float) {
    f.Fin? && f.value < 1.0
  }

  /** Whole numbers are close only if they are equal, as long as the tolerance stays below 1. */
  lemma CloseWholeNumbersAreEqual(h: Host, l: real, r: real)
    requires IsWhole(l) && IsWhole(r) && h.round(l - r) == Fin(l - r) && BelowOne(Tolerance(h, l, r)) && Close(h, l, r)
    ensures l == r
  {
    var d := l.Floor - r.Floor;
    assert d as real == l - r;
    assert -1.0 < d as real < 1.0;
    assert -1 < d < 1;
  }

  /** Both sides are whole numbers at the witness, their difference is exact, and the tolerance is below 1. */
  ghost predicate WholeSides(h: Host, c: Claim, w: map<string, Value>)
    requires c.Arith? && AllFinite(w)
  {
    var l, r := Meaning(h.power, c.lhs, Env(w)), Meaning(h.power, c.rhs, Env(w));
    && l.Some? && r.Some? && IsWhole(l.value) && IsWhole(r.value)
    && h.round(l.value - r.value) == Fin(l.value - r.value) && BelowOne(Tolerance(h, l.value, r.value))
  }

  lemma RefutedWholeDisequality(h: Host, c: Claim, w: map<string, Value>)
    requires RefutedBy(h, c, w) && c.relation.Ne? && WholeSides(h, c, w)
    ensures !TrueForAll(h.power, c)
  {
    CloseWholeNumbersAreEqual(h, Meaning(h.power, c.lhs, Env(w)).value, Meaning(h.power, c.rhs, Env(w)).value);
  }

  /** Such evidence is genuine against a disequality as well when both sides are whole numbers and the tolerance is below 1. */
  lemma WholeDisequalityIsGenuine(h: Host, audit: Audit, s: Suspicion)
    requires Sane(h) && ValidateEvidence(h, audit, s) && ExactAudit(h, audit)
    requires s.claim.relation.Ne? && WholeSides(h, s.claim, audit.artifact.binding)
    ensures !TrueForAll(h.power, s.claim)
  {
    ValidationIsSound(h, audit, s);
    RefutedWholeDisequality(h, s.claim, audit.artifact.binding);
  }

  // ---- claims about one variable ----

  lemma XIsIdentifier()
    ensures IsIdentifier("x") && Elements(["x"]) == {"x"}
  {
  }

  /** A claim about one variable, the suspicion it raises, and an audit with a witness against it. */
  function ClaimAboutX(domain: Domain, lhs: Expr, rel: Relation, rhs: Expr): Claim {
    Arith({"x"}, domain, lhs, rel, rhs)
  }

  function SuspicionAboutX(id: string, c: Claim): Suspicion {
    Suspicion(id, "p", FiniteCounterexample, "", c, Sha256(c), "")
  }

  function RawAboutX(domain: Domain, lhs: Expr, rel: Relation, rhs: Expr): RawClaim {
    RawArith(1, true, ["x"], Some(domain), Some(lhs), Some(rel), Some(rhs))
  }

  function AuditAboutX(id: string, domain: Domain, lhs: Expr, rel: Relation, rhs: Expr, x: Value): Audit {
    Audit(id, Confirmed, FiniteCounterexample, "host", 1.0,
          ArithArtifact(Sha256(ClaimAboutX(domain, lhs, rel, rhs)), RawAboutX(domain, lhs, rel, rhs), map["x" := x]), "a", "r")
  }

  lemma NormalizedAboutX(domain: Domain, lhs: Expr, rel: Relation, rhs: Expr)
    requires Safe(lhs) && Safe(rhs) && Names(lhs) + Names(rhs) == {"x"}
    ensures NormalizeClaim(RawAboutX(domain, lhs, rel, rhs), FiniteCounterexample, "") ==
            Some(ClaimAboutX(domain, lhs, rel, rhs))
  {
    XIsIdentifier();
  }

  lemma AuditValidates(h: Host, id: string, domain: Domain, lhs: Expr, rel: Relation, rhs: Expr, x: Value)
    requires Safe(lhs) && Safe(rhs) && Names(lhs) + Names(rhs) == {"x"}
    ensures var c := ClaimAboutX(domain, lhs, rel, rhs);
            ValidateEvidence(h, AuditAboutX(id, domain, lhs, rel, rhs, x), SuspicionAboutX(id, c)) <==>
              HostRefutedBy(h, c, map["x" := x])
  {
    NormalizedAboutX(domain, lhs, rel, rhs);
    var c := ClaimAboutX(domain, lhs, rel, rhs);
    ValidationIsComputed(h, AuditAboutX(id, domain, lhs, rel, rhs, x), SuspicionAboutX(id, c));
  }

  // ---- what rounding does to it ----

  /** The claim `x < x + 1` over the integers. */
  const SUCCESSOR: Expr := Bin(Add, Var("x"), IntNum(1))

  const TEN_TO_20: int := 100000000000000000000

  lemma SuccessorIsTrue(power: Power)
    ensures TrueForAll(power, ClaimAboutX(Integer, Var("x"), Lt, SUCCESSOR))
  {
    forall w: map<string, Value> | InDomain(ClaimAboutX(Integer, Var("x"), Lt, SUCCESSOR), w)
      ensures var l, r := Meaning(power, Var("x"), Env(w)), Meaning(power, SUCCESSOR, Env(w));
              l.Some? && r.Some? ==> Holds(Lt, l.value, r.value)
    {
      assert Meaning(power, IntNum(1), Env(w)) == Some(1.0);
    }
  }

  /** Arithmetic that absorbs the 1 at 10^20, as binary64 does, lets a witness refute the true claim `x < x + 1`. */
  lemma AbsorbedSuccessorIsInvalidated(h: Host)
    requires h.round(1.0) == Fin(1.0) && h.round(TEN_TO_20 as real) == Fin(TEN_TO_20 as real)
    requires h.round(TEN_TO_20 as real + 1.0) == Fin(TEN_TO_20 as real)
    ensures var c := ClaimAboutX(Integer, Var("x"), Lt, SUCCESSOR);
            && TrueForAll(h.power, c)
            && ValidateEvidence(h, AuditAboutX("o", Integer, Var("x"), Lt, SUCCESSOR, WInt(TEN_TO_20)), SuspicionAboutX("o", c))
  {
    var w := map["x" := WInt(TEN_TO_20)];
    SuccessorIsTrue(h.power);
    AuditValidates(h, "o", Integer, Var("x"), Lt, SUCCESSOR, WInt(TEN_TO_20));
    assert Evaluate(h, Var("x"), w) == Some(Fin(TEN_TO_20 as real));
    assert Evaluate(h, IntNum(1), w) == Some(Fin(1.0));
    assert Evaluate(h, SUCCESSOR, w) == Some(Fin(TEN_TO_20 as real));
  }

  // ---- what infinities do to it ----

  /** The claim `1 / (x * x) > 0` over the reals. */
  const RECIPROCAL: Expr := Bin(Div, IntNum(1), Bin(Mul, Var("x"), Var("x")))

  lemma ReciprocalIsTrue(power: Power)
    ensures TrueForAll(power, ClaimAboutX(Real, RECIPROCAL, Gt, IntNum(0)))
  {
    forall w: map<string, Value> | InDomain(ClaimAboutX(Real, RECIPROCAL, Gt, IntNum(0)), w)
      ensures var l, r := Meaning(power, RECIPROCAL, Env(w)), Meaning(power, IntNum(0), Env(w));
              l.Some? && r.Some? ==> Holds(Gt, l.value, r.value)
    {
      var x := Env(w)["x"];
      assert Meaning(power, Var("x"), Env(w)) == Some(x);
      assert Meaning(power, Bin(Mul, Var("x"), Var("x")), Env(w)) == Apply(power, Mul, x, x);
      assert Meaning(power, IntNum(1), Env(w)) == Some(1.0);
      if x != 0.0 {
        assert x * x > 0.0;
        assert 1.0 / (x * x) > 0.0;
      }
    }
  }

  lemma ReciprocalOfInfinity(h: Host, w: map<string, Value>, negative: bool)
    requires h.round(0.0) == Fin(0.0) && h.round(1.0) == Fin(1.0) && w == map["x" := WFloat(Inf(negative))]
    ensures SafeArithmetic(h, RECIPROCAL, w) == Some(0.0) == SafeArithmetic(h, IntNum(0), w)
  {
    assert Evaluate(h, Var("x"), w) == Some(Inf(negative));
    assert Evaluate(h, Bin(Mul, Var("x"), Var("x")), w) == Some(Inf(false));
    assert Evaluate(h, IntNum(1), w) == Some(Fin(1.0)) && Evaluate(h, IntNum(0), w) == Some(Fin(0.0));
    assert Evaluate(h, RECIPROCAL, w) == Some(Fin(0.0));
  }

  /** An infinite witness refutes the true claim `1 / (x * x) > 0`, though no number is rounded. */
  lemma InfiniteWitnessIsAccepted(h: Host, negative: bool)
    requires h.round(0.0) == Fin(0.0) && h.round(1.0) == Fin(1.0)
    ensures var c := ClaimAboutX(Real, RECIPROCAL, Gt, IntNum(0));
            && TrueForAll(h.power, c)
            && ValidateEvidence(h, AuditAboutX("o", Real, RECIPROCAL, Gt, IntNum(0), WFloat(Inf(negative))), SuspicionAboutX("o", c))
  {
    ReciprocalIsTrue(h.power);
    AuditValidates(h, "o", Real, RECIPROCAL, Gt, IntNum(0), WFloat(Inf(negative)));
    ReciprocalOfInfinity(h, map["x" := WFloat(Inf(negative))], negative);
  }

  // ---- exactly when the host can be trusted on every claim ----

  /** The claim that 0 lies on a given side of v - u, for constants v and u. */
  function Gap(v: real, u: real): Expr {
    Bin(Sub, FloatNum(v), FloatNum(u))
  }

  /** The claim that 0 lies on a given side of 1 / v. */
  function Inverse(v: real): Expr {
    Bin(Div, FloatNum(1.0), FloatNum(v))
  }

  const NOTHING: Expr := Bin(Mul, Var("x"), IntNum(0))

  function Side(v: real): Relation {
    if v > 0.0 then Lt else Gt
  }

  lemma NothingIsZero(power: Power, w: map<string, Value>)
    requires w.Keys == {"x"} && AllFinite(w)
    ensures Meaning(power, NOTHING, Env(w)) == Some(0.0)
  {
    assert Meaning(power, IntNum(0), Env(w)) == Some(0.0);
  }

  lemma NothingIsComputed(h: Host, w: map<string, Value>)
    requires h.round(0.0) == Fin(0.0) && w == map["x" := WInt(0)]
    ensures AllConvert(h, w) && Evaluate(h, NOTHING, w) == Some(Fin(0.0))
  {
    assert FromValue(h, WInt(0)) == Some(Fin(0.0));
    assert Evaluate(h, IntNum(0), w) == Some(Fin(0.0)) && Evaluate(h, Var("x"), w) == Some(Fin(0.0));
  }

  lemma GapIsTrue(power: Power, v: real, u: real)
    requires v != u
    ensures TrueForAll(power, ClaimAboutX(Integer, NOTHING, Side(v - u), Gap(v, u)))
  {
    forall w: map<string, Value> | InDomain(ClaimAboutX(Integer, NOTHING, Side(v - u), Gap(v, u)), w)
      ensures var l, r := Meaning(power, NOTHING, Env(w)), Meaning(power, Gap(v, u), Env(w));
              l.Some? && r.Some? ==> Holds(Side(v - u), l.value, r.value)
    {
      NothingIsZero(power, w);
      assert Meaning(power, FloatNum(v), Env(w)) == Some(v) && Meaning(power, FloatNum(u), Env(w)) == Some(u);
    }
  }

  lemma InverseIsTrue(power: Power, v: real)
    requires v != 0.0
    ensures TrueForAll(power, ClaimAboutX(Integer, NOTHING, Side(v), Inverse(v)))
  {
    forall w: map<string, Value> | InDomain(ClaimAboutX(Integer, NOTHING, Side(v), Inverse(v)), w)
      ensures var l, r := Meaning(power, NOTHING, Env(w)), Meaning(power, Inverse(v), Env(w));
              l.Some? && r.Some? ==> Holds(Side(v), l.value, r.value)
    {
      NothingIsZero(power, w);
      assert Meaning(power, FloatNum(v), Env(w)) == Some(v) && Meaning(power, FloatNum(1.0), Env(w)) == Some(1.0);
      assert v > 0.0 ==> 1.0 / v > 0.0;
      assert v < 0.0 ==> 1.0 / v < 0.0;
    }
  }

  /** A rounded constant v is told apart from its rounding by a true claim; the host finds no difference. */
  lemma RoundedGapIsRefuted(h: Host, v: real, u: real)
    requires h.round(0.0) == Fin(0.0) && h.round(v) == Fin(u) == h.round(u)
    ensures HostRefutedBy(h, ClaimAboutX(Integer, NOTHING, Side(v - u), Gap(v, u)), map["x" := WInt(0)])
  {
    var w := map["x" := WInt(0)];
    NothingIsComputed(h, w);
    assert Evaluate(h, FloatNum(v), w) == Some(Fin(u)) && Evaluate(h, FloatNum(u), w) == Some(Fin(u));
    assert Evaluate(h, Gap(v, u), w) == Some(Fin(0.0));
  }

  /** A constant that overflows has an inverse other than zero; the host finds zero. */
  lemma OverflownInverseIsRefuted(h: Host, v: real)
    requires h.round(0.0) == Fin(0.0) && h.round(1.0) == Fin(1.0) && h.round(v).Inf?
    ensures HostRefutedBy(h, ClaimAboutX(Integer, NOTHING, Side(v), Inverse(v)), map["x" := WInt(0)])
  {
    var w := map["x" := WInt(0)];
    NothingIsComputed(h, w);
    assert Evaluate(h, FloatNum(1.0), w) == Some(Fin(1.0)) && Evaluate(h, FloatNum(v), w) == Some(h.round(v));
    assert Evaluate(h, Inverse(v), w) == Some(Fin(0.0));
  }

  lemma {:induction false} ExactEverywhere(h: Host, e: Expr, env: map<string, real>)
    requires forall v :: h.round(v) == Fin(v)
    ensures ExactAt(h, e, env)
  {
    match e
    case Unary(_, f) => ExactEverywhere(h, f, env);
    case Bin(_, l, r) =>
      ExactEverywhere(h, l, env);
      ExactEverywhere(h, r, env);
    case _ =>
  }

  /** Every validated refutation by a finite witness of a claim other than a disequality is genuine. */
  ghost predicate FiniteRefutationsAreGenuine(h: Host) {
    forall audit, s :: ValidateEvidence(h, audit, s) && AllFinite(audit.artifact.binding) && !s.claim.relation.Ne? ==>
                         !TrueForAll(h.power, s.claim)
  }

  /** A rounded constant gives the host a false refutation. */
  lemma RoundingMisleads(h: Host, v: real)
    requires Sane(h) && h.round(1.0) == Fin(1.0) && h.round(v) != Fin(v)
    requires forall x, y :: h.round(x) == Fin(y) ==> h.round(y) == Fin(y)
    ensures !FiniteRefutationsAreGenuine(h)
  {
    var rel, rhs := if h.round(v).Fin? then Side(v - h.round(v).value) else Side(v),
                    if h.round(v).Fin? then Gap(v, h.round(v).value) else Inverse(v);
    if h.round(v).Fin? {
      GapIsTrue(h.power, v, h.round(v).value);
      RoundedGapIsRefuted(h, v, h.round(v).value);
    } else {
      InverseIsTrue(h.power, v);
      OverflownInverseIsRefuted(h, v);
    }
    AuditValidates(h, "o", Integer, NOTHING, rel, rhs, WInt(0));
    assert ValidateEvidence(h, AuditAboutX("o", Integer, NOTHING, rel, rhs, WInt(0)),
                            SuspicionAboutX("o", ClaimAboutX(Integer, NOTHING, rel, rhs)));
  }

  /**
   * Over all claims and finite witnesses, the host invalidates only false claims exactly when its arithmetic does
   * not round at all. Over infinite witnesses it never does: `InfiniteWitnessIsAccepted` is about every host.
   */
  lemma GenuineExactlyWithoutRounding(h: Host)
    requires Sane(h) && h.round(1.0) == Fin(1.0)
    requires forall x, y :: h.round(x) == Fin(y) ==> h.round(y) == Fin(y)
    ensures FiniteRefutationsAreGenuine(h) <==> forall v :: h.round(v) == Fin(v)
  {
    if v :| h.round(v) != Fin(v) {
      RoundingMisleads(h, v);
    } else {
      forall audit, s | ValidateEvidence(h, audit, s) && AllFinite(audit.artifact.binding) && !s.claim.relation.Ne?
        ensures !TrueForAll(h.power, s.claim)
      {
        ExactEverywhere(h, s.claim.lhs, Env(audit.artifact.binding));
        ExactEverywhere(h, s.claim.rhs, Env(audit.artifact.binding));
        ValidationIsSound(h, audit, s);
      }
    }
  }

  // ---- what the tolerance does to it ----

  /** 2 to the power of -34, a number that binary arithmetic represents exactly. */
  const TINY: real := 1.0 / 17179869184.0

  const SHIFTED: Expr := Bin(Add, Var("x"), FloatNum(TINY))

  lemma NeverEqualIsTrue(power: Power)
    ensures TrueForAll(power, ClaimAboutX(Integer, Var("x"), Ne, SHIFTED))
  {
    forall w: map<string, Value> | InDomain(ClaimAboutX(Integer, Var("x"), Ne, SHIFTED), w)
      ensures var l, r := Meaning(power, Var("x"), Env(w)), Meaning(power, SHIFTED, Env(w));
              l.Some? && r.Some? ==> Holds(Ne, l.value, r.value)
    {
      assert Meaning(power, FloatNum(TINY), Env(w)) == Some(TINY);
    }
  }

  /** A true disequality can be invalidated without any rounding: `x != x + 2^-34` is refuted by the witness x = 0. */
  lemma TrueDisequalityIsInvalidated(h: Host)
    requires h.round(0.0) == Fin(0.0) && h.round(TINY) == Fin(TINY) && h.round(-TINY) == Fin(-TINY)
    requires AtMost(Fin(TINY), Tolerance(h, 0.0, TINY))
    ensures var c := ClaimAboutX(Integer, Var("x"), Ne, SHIFTED);
            && TrueForAll(h.power, c)
            && ValidateEvidence(h, AuditAboutX("o", Integer, Var("x"), Ne, SHIFTED, WInt(0)), SuspicionAboutX("o", c))
  {
    var w := map["x" := WInt(0)];
    NeverEqualIsTrue(h.power);
    AuditValidates(h, "o", Integer, Var("x"), Ne, SHIFTED, WInt(0));
    assert Evaluate(h, Var("x"), w) == Some(Fin(0.0));
    assert Evaluate(h, FloatNum(TINY), w) == Some(Fin(TINY));
    assert Evaluate(h, SHIFTED, w) == Some(Fin(TINY));
  }
}
