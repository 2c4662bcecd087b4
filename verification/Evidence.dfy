// The evidence chain that gates a permanent premise invalidation: claim schema, witness evaluation, review.
module Evidence {
  import opened Wrappers
  import opened Floats

  /** A parsed arithmetic expression; `Unsafe` stands for every node the schema forbids. */
  datatype Expr =
    | IntNum(n: int)
    | FloatNum(value: real)
    | Var(name: string)
    | Unary(negated: bool, e: Expr)
    | Bin(op: BinOp, left: Expr, right: Expr)
    | Unsafe

  datatype Relation = Eq | Ne | Lt | Le | Gt | Ge

  datatype Domain = Integer | Rational | Real

  datatype EvidenceType = FiniteCounterexample | SymbolicContradiction | LeanProof | PinnedTheorem | OtherEvidence

  /** A claim object as it arrives; absent options are values of the wrong kind. */
  datatype RawClaim =
    | RawArith(schemaVersion: int, forAll: bool, variables: seq<string>, domain: Option<Domain>,
               lhs: Option<Expr>, relation: Option<Relation>, rhs: Option<Expr>)
    | RawLean(schemaVersion: int, negatesTarget: bool, signatureHash: string)
    | RawOther(text: string)

  datatype Claim =
    | Arith(variables: set<string>, domain: Domain, lhs: Expr, relation: Relation, rhs: Expr)
    | Lean(signatureHash: string)
    | Pinned(raw: RawClaim)

  /** Digests are injective: a digest is told apart by what was hashed. */
  datatype Digest = NoDigest | Sha256(of: Claim)

  predicate IsArithmetic(t: EvidenceType) {
    t.FiniteCounterexample? || t.SymbolicContradiction?
  }

  function Names(e: Expr): set<string> {
    match e
    case Var(x) => {x}
    case Unary(_, f) => Names(f)
    case Bin(_, l, r) => Names(l) + Names(r)
    case _ => {}
  }

  predicate Safe(e: Expr) {
    match e
    case Unary(_, f) => Safe(f)
    case Bin(_, l, r) => Safe(l) && Safe(r)
    case Unsafe => false
    case _ => true
  }

  predicate IsLetter(c: char) {
    'a' <= c <= 'z' || 'A' <= c <= 'Z' || c == '_'
  }

  predicate IsIdentifier(s: string) {
    s != "" && IsLetter(s[0]) && forall i :: 0 <= i < |s| ==> IsLetter(s[i]) || '0' <= s[i] <= '9'
  }

  predicate Distinct(xs: seq<string>) {
    forall i, j :: 0 <= i < j < |xs| ==> xs[i] != xs[j]
  }

  function Elements(xs: seq<string>): set<string> {
    set x | x in xs
  }

  /** A side of the claim: present, free of forbidden nodes, over the declared variables. */
  predicate SideIsFine(side: Option<Expr>, variables: set<string>) {
    side.Some? && Safe(side.value) && Names(side.value) <= variables
  }

  /** The exact claim schema; nothing for a claim that the schema refuses. */
  function NormalizeClaim(raw: RawClaim, t: EvidenceType, targetHash: string): (c: Option<Claim>)
    ensures c.Some? ==> (c.value.Arith? <==> IsArithmetic(t))
    ensures c.Some? && c.value.Arith? ==>
      Names(c.value.lhs) + Names(c.value.rhs) == c.value.variables && Safe(c.value.lhs) && Safe(c.value.rhs)
  {
    if IsArithmetic(t) then
      if raw.RawArith?
         && raw.variables != [] && (forall i :: 0 <= i < |raw.variables| ==> IsIdentifier(raw.variables[i]))
         && Distinct(raw.variables)
         && raw.schemaVersion == 1 && raw.forAll && raw.domain.Some? && raw.relation.Some?
         && SideIsFine(raw.lhs, Elements(raw.variables)) && SideIsFine(raw.rhs, Elements(raw.variables))
         && Names(raw.lhs.value) + Names(raw.rhs.value) == Elements(raw.variables)
      then Some(Arith(Elements(raw.variables), raw.domain.value, raw.lhs.value, raw.relation.value, raw.rhs.value))
      else None
    else if t.LeanProof? then
      if raw.RawLean? && raw.schemaVersion == 1 && raw.negatesTarget && targetHash != "" && raw.signatureHash == targetHash
      then Some(Lean(targetHash)) else None
    else if t.PinnedTheorem? then
      if raw == RawOther("") then None else Some(Pinned(raw))
    else None
  }

  // ---- meaning ----

  /** What an expression means over the reals. */
  function Meaning(power: Power, e: Expr, env: map<string, real>): Option<real> {
    match e
    case IntNum(n) => Some(n as real)
    case FloatNum(v) => Some(v)
    case Var(x) => if x in env then Some(env[x]) else None
    case Unary(negated, f) =>
      var v := Meaning(power, f, env);
      if v.Some? && negated then Some(-v.value) else v
    case Bin(op, l, r) =>
      var a, b := Meaning(power, l, env), Meaning(power, r, env);
      if a.None? || b.None? then None else Apply(power, op, a.value, b.value)
    case Unsafe => None
  }

  /** A JSON number, where a float may be infinite or not a number. Booleans and other values are not numbers. */
  datatype Value = WInt(n: int) | WFloat(f: Float) | WOther

  predicate IsFinite(v: Value) {
    v.WInt? || (v.WFloat? && v.f.Fin?)
  }

  function AsReal(v: Value): real
    requires IsFinite(v)
  {
    match v
    case WInt(n) => n as real
    case WFloat(f) => f.value
  }

  predicate AllNumbers(w: map<string, Value>) {
    forall x :: x in w ==> !w[x].WOther?
  }

  predicate AllFinite(w: map<string, Value>) {
    forall x :: x in w ==> IsFinite(w[x])
  }

  function Env(w: map<string, Value>): map<string, real>
    requires AllFinite(w)
  {
    map x | x in w :: AsReal(w[x])
  }

  // ---- the host's evaluator ----

  /** Conversion of an integer fails when it overflows. */
  function FromInt(h: Host, n: int): Option<Float> {
    if h.round(n as real).Fin? then Some(h.round(n as real)) else None
  }

  function FromFloat(h: Host, f: Float): Float {
    if f.Fin? then h.round(f.value) else f
  }

  function FromValue(h: Host, v: Value): Option<Float> {
    match v
    case WInt(n) => FromInt(h, n)
    case WFloat(f) => Some(FromFloat(h, f))
    case WOther => None
  }

  function Evaluate(h: Host, e: Expr, w: map<string, Value>): Option<Float> {
    match e
    case IntNum(n) => FromInt(h, n)
    case FloatNum(v) => Some(h.round(v))
    case Var(x) => if x in w then FromValue(h, w[x]) else None
    case Unary(negated, f) =>
      var v := Evaluate(h, f, w);
      if v.Some? && negated then Some(Negate(v.value)) else v
    case Bin(op, l, r) =>
      var a, b := Evaluate(h, l, w), Evaluate(h, r, w);
      if a.None? || b.None? then None else Compute(h, op, a.value, b.value)
    case Unsafe => None
  }

  /** Every witness value converts, used or not. */
  predicate AllConvert(h: Host, w: map<string, Value>) {
    forall x :: x in w ==> FromValue(h, w[x]).Some?
  }

  const FINITE_BOUND: real := 10000000000000000000000000000000000000000000000000000000000000000000000000000000000000000000000000000.0

  /** Evaluation of one side; infinities, NaN and results outside the finite range are refused. */
  function SafeArithmetic(h: Host, e: Expr, w: map<string, Value>): Option<real> {
    if !AllConvert(h, w) then None else
      var v := Evaluate(h, e, w);
      if v.Some? && v.value.Fin? && -FINITE_BOUND < v.value.value < FINITE_BOUND then Some(v.value.value) else None
  }

  /** The relation as the host decides it, equality within a tolerance. */
  predicate HostHolds(h: Host, rel: Relation, l: real, r: real) {
    match rel
    case Eq => Close(h, l, r)
    case Ne => !Close(h, l, r)
    case Lt => l < r
    case Le => l <= r
    case Gt => l > r
    case Ge => l >= r
  }

  /** The relation itself. */
  predicate Holds(rel: Relation, l: real, r: real) {
    match rel
    case Eq => l == r
    case Ne => l != r
    case Lt => l < r
    case Le => l <= r
    case Gt => l > r
    case Ge => l >= r
  }

  /** The host's own test of a witness: it binds exactly the quantified variables, to integers where those are asked for. */
  predicate Admitted(c: Claim, w: map<string, Value>)
    requires c.Arith?
  {
    w.Keys == c.variables && AllNumbers(w) && (c.domain.Integer? ==> forall x :: x in w ==> w[x].WInt?)
  }

  /** A witness with values of the declared domain. */
  predicate InDomain(c: Claim, w: map<string, Value>)
    requires c.Arith?
  {
    Admitted(c, w) && AllFinite(w)
  }

  /** The universally quantified claim itself: no valuation in its domain defines both sides and breaks it. */
  ghost predicate TrueForAll(power: Power, c: Claim)
    requires c.Arith?
  {
    forall w: map<string, Value> :: InDomain(c, w) ==>
      var l, r := Meaning(power, c.lhs, Env(w)), Meaning(power, c.rhs, Env(w));
      l.Some? && r.Some? ==> Holds(c.relation, l.value, r.value)
  }

  /** A witness in the domain makes the relation false; for `!=`, equal within the host's tolerance. */
  ghost predicate RefutedBy(h: Host, c: Claim, w: map<string, Value>) {
    && c.Arith? && InDomain(c, w)
    && var l, r := Meaning(h.power, c.lhs, Env(w)), Meaning(h.power, c.rhs, Env(w));
    && l.Some? && r.Some?
    && if c.relation.Ne? then Close(h, l.value, r.value) else !Holds(c.relation, l.value, r.value)
  }

  ghost predicate Refuted(h: Host, c: Claim) {
    exists w :: RefutedBy(h, c, w)
  }

  /** At a witness it admits the host computes two sides that break the relation by its own test. */
  predicate HostRefutedBy(h: Host, c: Claim, w: map<string, Value>) {
    && c.Arith? && Admitted(c, w)
    && var l, r := SafeArithmetic(h, c.lhs, w), SafeArithmetic(h, c.rhs, w);
    && l.Some? && r.Some? && !HostHolds(h, c.relation, l.value, r.value)
  }

  ghost predicate HostRefuted(h: Host, c: Claim) {
    exists w :: HostRefutedBy(h, c, w)
  }

  // ---- the review ----

  datatype Suspicion = Suspicion(id: string, premise: string, evidenceType: EvidenceType, evidence: string, claim: Claim,
                                 claimHash: Digest, targetHash: string)

  datatype Artifact =
    | ArithArtifact(claimHash: Digest, claim: RawClaim, binding: map<string, Value>)
    | OtherArtifact

  datatype AuditStatus = Confirmed | NotConfirmedByAuditor | InconclusiveAudit

  datatype Audit = Audit(id: string, status: AuditStatus, evidenceType: EvidenceType, source: string, confidence: real,
                         artifact: Artifact, analysis: string, runId: string)

  datatype DefenseStatus = RescuedByProponent | NotRescued | InconclusiveDefense

  datatype Defense = Defense(id: string, status: DefenseStatus, correction: string, runId: string)

  /** Who decided, and how sure they were. */
  datatype Provenance = Provenance(confidence: real, evidenceType: EvidenceType, source: string,
                                   auditorRun: string, proponentRun: string)

  const NoProvenance := Provenance(0.0, OtherEvidence, "", "", "")

  datatype ReviewStatus = NoReview | Suspected | Invalidated | NotConfirmed | Rescued | Inconclusive

  datatype Review = Review(status: ReviewStatus, verified: bool, provenance: Provenance, reason: string)

  /** The auditor's artifact names the very claim the host bound, and its witness makes the host's check fail. */
  predicate ArtifactRefutes(h: Host, a: Artifact, t: EvidenceType, s: Suspicion) {
    && a.ArithArtifact?
    && var c := NormalizeClaim(a.claim, t, "");
    && c == Some(s.claim) && Sha256(c.value) == s.claimHash && a.claimHash == s.claimHash
    && c.value.Arith?
    && a.binding.Keys == c.value.variables
    && (c.value.domain.Integer? ==> forall x :: x in a.binding ==> a.binding[x].WInt?)
    && var l, r := SafeArithmetic(h, c.value.lhs, a.binding), SafeArithmetic(h, c.value.rhs, a.binding);
    && l.Some? && r.Some? && !HostHolds(h, c.value.relation, l.value, r.value)
  }

  /** Lean proofs and pinned theorems are recorded but never accepted. */
  predicate ValidateEvidence(h: Host, audit: Audit, s: Suspicion) {
    audit.evidenceType == s.evidenceType && IsArithmetic(audit.evidenceType) &&
    ArtifactRefutes(h, audit.artifact, audit.evidenceType, s)
  }

  function Decide(h: Host, audit: Option<Audit>, defense: Option<Defense>, s: Option<Suspicion>): Review {
    if audit.None? || defense.None? then Review(Inconclusive, false, NoProvenance, "missing role output")
    else
      var a, d := audit.value, defense.value;
      var common := Provenance(a.confidence, a.evidenceType, a.source, a.runId, d.runId);
      if a.status.NotConfirmedByAuditor? then Review(NotConfirmed, false, common, a.analysis)
      else if d.status.RescuedByProponent? then Review(Rescued, false, common, d.correction)
      else if !a.status.Confirmed? || !d.status.NotRescued? || a.confidence < 0.8 then
        Review(Inconclusive, false, common, "role agreement or confidence threshold not met")
      else if s.None? then Review(Inconclusive, false, common, "host-bound Critic claim schema is missing")
      else if a.id != s.value.id || d.id != s.value.id then
        Review(Inconclusive, false, common, "artifact is not bound to the exact suspected premise")
      else if ValidateEvidence(h, a, s.value) then Review(Invalidated, true, common, "host found counterexample")
      else Review(Inconclusive, false, common, "host did not verify the artifact")
  }

  /**
   * Evidence validates exactly when it concerns the very claim that was hashed, and the host admits its witness and
   * finds the claim's relation to fail there. Over the integers such a witness is in the domain; over the others it
   * is unless some value of it is infinite or not a number.
   */
  lemma ValidationIsComputed(h: Host, audit: Audit, s: Suspicion)
    ensures ValidateEvidence(h, audit, s) <==>
              && audit.evidenceType == s.evidenceType && IsArithmetic(audit.evidenceType) && audit.artifact.ArithArtifact?
              && NormalizeClaim(audit.artifact.claim, audit.evidenceType, "") == Some(s.claim)
              && s.claimHash == audit.artifact.claimHash == Sha256(s.claim)
              && HostRefutedBy(h, s.claim, audit.artifact.binding)
    ensures ValidateEvidence(h, audit, s) ==>
              var c, w := s.claim, audit.artifact.binding;
              (InDomain(c, w) <==> AllFinite(w)) && (c.domain.Integer? ==> InDomain(c, w))
  {
    if audit.artifact.ArithArtifact? {
      ConvertedAreNumbers(h, audit.artifact.binding);
    }
  }

  lemma ConvertedAreNumbers(h: Host, w: map<string, Value>)
    ensures AllConvert(h, w) ==> AllNumbers(w)
  {
    forall x | x in w && AllConvert(h, w) ensures !w[x].WOther? {
      assert FromValue(h, w[x]).Some?;
    }
  }

  // ---- the gate ----

  /** A review is verified, and its status is the invalidating one, exactly when both roles and the host agree. */
  lemma ReviewGate(h: Host, audit: Option<Audit>, defense: Option<Defense>, s: Option<Suspicion>)
    ensures var r := Decide(h, audit, defense, s);
            && (r.verified <==> r.status == Invalidated)
            && r.status in {Invalidated, NotConfirmed, Rescued, Inconclusive}
            && (r.verified <==>
                 && audit.Some? && defense.Some? && s.Some?
                 && audit.value.status == Confirmed && defense.value.status == NotRescued
                 && audit.value.confidence >= 0.8
                 && audit.value.id == defense.value.id == s.value.id
                 && ValidateEvidence(h, audit.value, s.value))
  {
  }
}
