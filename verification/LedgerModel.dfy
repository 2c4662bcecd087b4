// The proof-obligation ledger on values: statuses, frontier, invalidation, reversal, audit, persistence.
module LedgerModel {
  import opened Wrappers
  import opened Evidence
  import opened LedgerGraph

  // `Blank` is the empty text, which a saved prior status uses for "none".
  datatype Status = Blank | Unresolved | Proved | Disproved | Quarantined | RejectedDuplicate | OtherStatus(text: string)

  datatype Kind = NoKind | Premise | PremiseInvalidated | PremiseSuspected | Approach | ApproachFailed | OtherKind(text: string)

  datatype Mark = NoMark | Active | Reversed

  datatype Formal = Unformalized | Formalized | OtherFormal(text: string)

  datatype Ob = Ob(
    node: Node, status: Status, kind: Kind, prior: Status,
    quarantineRoot: Id, quarantinePrior: Status, quarantineRun: string, quarantineBy: Provenance, quarantineMark: Mark,
    tempRoot: Id, tempRun: string,
    review: ReviewStatus, reviewBy: Provenance, reviewReason: string,
    evidence: string, lastRun: string,
    formal: Formal, leanHash: string, certificate: string, certificateMark: Mark)

  datatype Lesson = Lesson(claimHash: Digest, premise: string, evidence: string, source: Id, run: string,
                           decidedBy: Provenance, mark: Mark)

  datatype L = L(obs: seq<Ob>, lessons: seq<Lesson>, version: nat, backjump: Id)

  function Nodes(obs: seq<Ob>): (g: Graph)
    ensures |g| == |obs|
    ensures forall i :: 0 <= i < |obs| ==> g[i] == obs[i].node
  {
    seq(|obs|, i requires 0 <= i < |obs| => obs[i].node)
  }

  /** Unique, non-empty ids, and existing parents. The loader checks all but that ids are not empty; cycles are possible. */
  predicate SoundGraph(g: Graph) {
    UniqueIds(g) && NamedIds(g) && forall i :: 0 <= i < |g| && g[i].parent != "" ==> Known(g, g[i].parent)
  }

  predicate UniqueLessons(lessons: seq<Lesson>) {
    forall i, j :: 0 <= i < j < |lessons| ==> lessons[i].claimHash != lessons[j].claimHash
  }

  predicate WellFormed(l: L) {
    SoundGraph(Nodes(l.obs)) && UniqueLessons(l.lessons)
  }

  predicate IsPremiseKind(k: Kind) {
    k.Premise? || k.PremiseInvalidated?
  }

  /** An obligation that shuts everything below it out of the frontier. */
  predicate IsInvalid(o: Ob) {
    o.status.Quarantined? || (o.status.Disproved? && IsPremiseKind(o.kind))
  }

  // ---- the frontier ----

  function InvalidIds(obs: seq<Ob>): set<Id> {
    set i | 0 <= i < |obs| && IsInvalid(obs[i]) :: obs[i].node.id
  }

  ghost predicate HasInvalidAncestor(obs: seq<Ob>, i: nat)
    requires i < |obs|
  {
    FirstUp(Nodes(obs), obs[i].node.parent, {}, InvalidIds(obs)).Some?
  }

  ghost predicate EligibleAt(obs: seq<Ob>, i: nat)
    requires i < |obs|
  {
    obs[i].status.Unresolved? && !HasInvalidAncestor(obs, i)
  }

  /** Eligible, and not the parent of an eligible obligation. */
  ghost predicate PendingAt(obs: seq<Ob>, i: nat)
    requires i < |obs|
  {
    EligibleAt(obs, i) &&
    forall j :: 0 <= j < |obs| && EligibleAt(obs, j) ==> obs[j].node.parent == "" || obs[j].node.parent != obs[i].node.id
  }

  /** The frontier, in ledger order. */
  ghost function PendingFrom(obs: seq<Ob>, i: nat): seq<Id>
    requires i <= |obs|
    decreases |obs| - i
  {
    if i == |obs| then [] else
      (if PendingAt(obs, i) then [obs[i].node.id] else []) + PendingFrom(obs, i + 1)
  }

  ghost function Pending(obs: seq<Ob>): seq<Id> {
    PendingFrom(obs, 0)
  }

  ghost function PendingIds(obs: seq<Ob>): set<Id> {
    set i | 0 <= i < |obs| && PendingAt(obs, i) :: obs[i].node.id
  }

  // ---- suspicion, invalidation, reversal ----

  function OrUnresolved(s: Status): Status {
    if s.Blank? then Unresolved else s
  }

  function ClearTempOne(o: Ob, root: Id): Ob {
    if o.tempRoot != root then o else o.(tempRoot := "", tempRun := "")
  }

  function ClearTemp(obs: seq<Ob>, root: Id): (r: seq<Ob>)
    ensures |r| == |obs|
  {
    seq(|obs|, i requires 0 <= i < |obs| => ClearTempOne(obs[i], root))
  }

  ghost function MarkOne(o: Ob, t: Id, below: set<Id>, run: string): Ob {
    if o.node.id == t then o.(review := Suspected)
    else if o.node.id in below then o.(tempRoot := t, tempRun := run)
    else o
  }

  ghost function MarkSuspected(obs: seq<Ob>, t: Id, run: string): (r: seq<Ob>)
    ensures |r| == |obs|
  {
    var below := Descendants(Nodes(obs), t);
    seq(|obs|, i requires 0 <= i < |obs| => MarkOne(obs[i], t, below, run))
  }

  /** A checkpointed suspicion: the target's kind and evidence, and temporary marks on everything below it. */
  ghost function SuspectOne(obs: seq<Ob>, i: nat, evidence: string, run: string): (r: seq<Ob>)
    requires i < |obs|
    ensures |r| == |obs|
  {
    MarkSuspected(obs[i := obs[i].(kind := PremiseSuspected, evidence := evidence, lastRun := run)], obs[i].node.id, run)
  }

  /** All suspicions of a turn, as pairs of an id and its evidence. */
  ghost function SuspectAll(obs: seq<Ob>, marks: seq<(Id, string)>, run: string): (r: seq<Ob>)
    ensures |r| == |obs|
  {
    if marks == [] then obs else
      var sofar := SuspectAll(obs, marks[..|marks| - 1], run);
      var (id, evidence) := marks[|marks| - 1];
      match IndexOf(Nodes(sofar), id)
      case None => sofar
      case Some(i) => SuspectOne(sofar, i, evidence, run)
  }

  ghost function Checkpoint(l: L, marks: seq<(Id, string)>, run: string): L {
    l.(obs := SuspectAll(l.obs, marks, run), version := if marks == [] then l.version else l.version + 1)
  }

  /** Already quarantined under this root, and not reversed since. */
  predicate HeldBy(o: Ob, root: Id) {
    o.status.Quarantined? && o.quarantineRoot == root && o.quarantineMark.Active?
  }

  ghost function UpgradeOne(o: Ob, t: Id, below: set<Id>, run: string, review: Review): Ob {
    if o.node.id == t then
      o.(prior := if IsPremiseKind(o.kind) then o.prior else o.status,
         status := Disproved, kind := PremiseInvalidated, review := Invalidated)
    else if o.node.id in below && !HeldBy(o, t) then
      o.(quarantinePrior := o.status, status := Quarantined, quarantineRoot := t, quarantineRun := run,
         quarantineBy := review.provenance, quarantineMark := Active)
    else o
  }

  ghost function UpgradeObs(obs: seq<Ob>, t: Id, run: string, review: Review): (r: seq<Ob>)
    ensures |r| == |obs|
  {
    var below := Descendants(Nodes(obs), t);
    seq(|obs|, i requires 0 <= i < |obs| => ClearTempOne(UpgradeOne(obs[i], t, below, run, review), t))
  }

  /** Record a lesson; one with the same claim hash is overwritten in place. */
  function Teach(lessons: seq<Lesson>, n: Lesson): (r: seq<Lesson>)
    ensures |r| == |lessons| || |r| == |lessons| + 1
  {
    if exists i :: 0 <= i < |lessons| && lessons[i].claimHash == n.claimHash
    then seq(|lessons|, i requires 0 <= i < |lessons| => if lessons[i].claimHash == n.claimHash then n else lessons[i])
    else lessons + [n]
  }

  ghost function Upgrade(l: L, t: Id, premise: string, evidence: string, run: string,
                         review: Option<Review>, hash: Digest): L {
    if review.None? || !review.value.verified || hash.NoDigest? then l
    else l.(obs := UpgradeObs(l.obs, t, run, review.value),
            lessons := Teach(l.lessons, Lesson(hash, premise, evidence, t, run, review.value.provenance, Active)))
  }

  ghost function ReverseOne(o: Ob, root: Id, below: set<Id>, review: Review): Ob {
    if o.node.id == root then
      if IsPremiseKind(o.kind)
      then o.(status := OrUnresolved(o.prior), kind := NoKind, prior := Blank, review := review.status)
      else o.(review := review.status)
    else if o.node.id in below && o.quarantineRoot == root then
      o.(status := if o.status.Quarantined? then OrUnresolved(o.quarantinePrior) else o.status,
         quarantineRoot := "", quarantineRun := "", quarantinePrior := Blank, quarantineBy := NoProvenance,
         quarantineMark := Reversed)
    else o
  }

  ghost function ReverseObs(obs: seq<Ob>, root: Id, review: Review): (r: seq<Ob>)
    ensures |r| == |obs|
  {
    var below := Descendants(Nodes(obs), root);
    seq(|obs|, i requires 0 <= i < |obs| => ClearTempOne(ReverseOne(obs[i], root, below, review), root))
  }

  function ReverseLessons(lessons: seq<Lesson>, root: Id): (r: seq<Lesson>)
    ensures |r| == |lessons|
  {
    seq(|lessons|, i requires 0 <= i < |lessons| =>
      if lessons[i].source == root && lessons[i].mark.Active? then lessons[i].(mark := Reversed) else lessons[i])
  }

  ghost function Reverse(l: L, root: Id, review: Review): L {
    if !Known(Nodes(l.obs), root) then l
    else l.(obs := ReverseObs(l.obs, root, review), lessons := ReverseLessons(l.lessons, root), backjump := "")
  }

  // ---- verdicts ----

  datatype Verdict = Verdict(status: Status, evidence: string, kind: Kind, premise: string)

  const NO_VERDICT := Verdict(Unresolved, "Critic supplied no structurally valid verdict.", NoKind, "")

  /** What one call applies: the ids it may touch, and the critic's and the host's decisions about them. */
  datatype Decisions = Decisions(ids: set<Id>, verdicts: map<Id, Verdict>, suspicions: map<Id, Suspicion>,
                                 reviews: map<Id, Review>, run: string)

  function VerdictFor(d: Decisions, id: Id): Verdict {
    if id in d.verdicts then d.verdicts[id] else NO_VERDICT
  }

  function ReviewFor(d: Decisions, id: Id): Option<Review> {
    if id in d.reviews then Some(d.reviews[id]) else None
  }

  function HashFor(d: Decisions, id: Id): Digest {
    if id in d.suspicions then d.suspicions[id].claimHash else NoDigest
  }

  function RecordReview(o: Ob, r: Review): Ob {
    o.(review := r.status, reviewBy := r.provenance, reviewReason := r.reason)
  }

  function At(l: L, i: nat, o: Ob): L
    requires i < |l.obs|
  {
    l.(obs := l.obs[i := o])
  }

  /** Note the review; a rescued premise is reversed, an inconclusive one loses its temporary marks. */
  ghost function AfterReview(l: L, i: nat, review: Option<Review>): (r: L)
    requires i < |l.obs|
    ensures |r.obs| == |l.obs|
  {
    match review
    case None => l
    case Some(rv) =>
      var id := l.obs[i].node.id;
      var noted := At(l, i, RecordReview(l.obs[i], rv));
      if rv.status in {NotConfirmed, Rescued} then Reverse(noted, id, rv)
      else if rv.status == Inconclusive then noted.(obs := ClearTemp(noted.obs, id))
      else noted
  }

  /** Set the verdict's status, or invalidate the premise for good. */
  ghost function AfterStatus(l: L, i: nat, v: Verdict, review: Option<Review>, hash: Digest, run: string): (r: L)
    requires i < |l.obs|
    ensures |r.obs| == |l.obs|
  {
    if v.kind.PremiseInvalidated? then Upgrade(l, l.obs[i].node.id, v.premise, v.evidence, run, review, hash)
    else At(l, i, l.obs[i].(status := v.status))
  }

  function Stamp(o: Ob, v: Verdict, run: string): Ob {
    o.(evidence := v.evidence, lastRun := run, kind := v.kind)
  }

  ghost function EligibleIds(obs: seq<Ob>): set<Id> {
    set i | 0 <= i < |obs| && EligibleAt(obs, i) :: obs[i].node.id
  }

  /** The nearest strict ancestor that is UNRESOLVED and has no invalid ancestor, or the empty id. */
  ghost function BackjumpTarget(obs: seq<Ob>, i: nat): Id
    requires i < |obs|
  {
    match FirstUp(Nodes(obs), obs[i].node.parent, {}, EligibleIds(obs))
    case None => ""
    case Some(a) => a
  }

  ghost function AfterKind(l: L, i: nat, kind: Kind, run: string): (r: L)
    requires i < |l.obs|
    ensures |r.obs| == |l.obs|
  {
    if kind.PremiseSuspected? then l.(obs := MarkSuspected(l.obs, l.obs[i].node.id, run))
    else if kind.PremiseInvalidated? then l.(backjump := BackjumpTarget(l.obs, i))
    else l
  }

  ghost function ApplyOne(l: L, i: nat, d: Decisions): (r: L)
    requires i < |l.obs|
    ensures |r.obs| == |l.obs|
  {
    var o := l.obs[i];
    if o.node.id !in d.ids || o.status.Quarantined? then l
    else
      var v, review := VerdictFor(d, o.node.id), ReviewFor(d, o.node.id);
      var reviewed := AfterReview(l, i, review);
      var decided := AfterStatus(reviewed, i, v, review, HashFor(d, o.node.id), d.run);
      var stamped := At(decided, i, Stamp(decided.obs[i], v, d.run));
      AfterKind(stamped, i, v.kind, d.run)
  }

  /** Apply the verdicts of obligations i to n-1, in ledger order. */
  ghost function ApplyRange(l: L, i: nat, n: nat, d: Decisions): (r: L)
    requires i <= n <= |l.obs|
    ensures |r.obs| == |l.obs|
    decreases n - i
  {
    if i == n then l else ApplyRange(ApplyOne(l, i, d), i + 1, n, d)
  }

  ghost function ApplyVerdicts(l: L, d: Decisions): L {
    var r := ApplyRange(l, 0, |l.obs|, d);
    r.(version := r.version + 1)
  }

  // ---- duplicate audit ----

  type Equivalence = (string, string) -> bool

  /** The ids of the obligations whose statement is equivalent to that of obligation i. */
  ghost function EquivalentIds(obs: seq<Ob>, equiv: Equivalence, i: nat): set<Id>
    requires i < |obs|
  {
    set j | 0 <= j < |obs| && equiv(obs[j].node.statement, obs[i].node.statement) :: obs[j].node.id
  }

  ghost predicate DuplicatesAncestor(obs: seq<Ob>, equiv: Equivalence, i: nat)
    requires i < |obs|
  {
    FirstUp(Nodes(obs), obs[i].node.parent, {}, EquivalentIds(obs, equiv, i)).Some?
  }

  function Rejected(o: Ob, of: Id): Ob {
    o.(status := RejectedDuplicate, evidence := "Semantic duplicate/cyclic descendant of " + of + ".")
  }

  /** The obligations as audited so far, and the ids rejected so far, in order. */
  datatype AuditLog = AuditLog(obs: seq<Ob>, rejected: seq<Id>)

  ghost function AuditOne(a: AuditLog, equiv: Equivalence, i: nat): (r: AuditLog)
    requires i < |a.obs|
    ensures |r.obs| == |a.obs|
  {
    var o := a.obs[i];
    if !o.status.Unresolved? || o.node.parent == "" then a
    else
      var found := FirstUp(Nodes(a.obs), o.node.parent, {}, EquivalentIds(a.obs, equiv, i));
      if found.Some? || o.node.parent in a.rejected
      then AuditLog(a.obs[i := Rejected(o, if found.Some? then found.value else o.node.parent)], a.rejected + [o.node.id])
      else a
  }

  ghost function AuditFrom(a: AuditLog, equiv: Equivalence, i: nat): (r: AuditLog)
    requires i <= |a.obs|
    ensures |r.obs| == |a.obs|
    decreases |a.obs| - i
  {
    if i == |a.obs| then a else AuditFrom(AuditOne(a, equiv, i), equiv, i + 1)
  }

  ghost function AuditDuplicates(l: L, equiv: Equivalence): L {
    var a := AuditFrom(AuditLog(l.obs, []), equiv, 0);
    l.(obs := a.obs, version := if a.rejected == [] then l.version else l.version + 1)
  }

  // ---- certified children ----

  /** A decomposition certificate: whether the host verified it, its hash, and the child it creates. */
  datatype Certificate = Certificate(verified: bool, hash: string, statement: string, leanHash: string,
                                     parentLeanHash: string, digest: string)

  /** Child ids extend the target's id by a digest of the certificate hash and the label. */
  function ChildId(target: Id, c: Certificate): Id {
    target + "-" + c.digest
  }

  function ChildOf(target: Id, c: Certificate, run: string): Ob {
    Ob(Node(ChildId(target, c), c.statement, target), Unresolved, NoKind, Blank,
       "", Blank, "", NoProvenance, NoMark, "", "", NoReview, NoProvenance, "",
       "Persisted from verified decomposition certificate.", run, Formalized, c.leanHash, c.hash, Active)
  }

  datatype PersistError = NoSuchTarget | ChildIdCollision

  function FormalizeParent(o: Ob, c: Certificate): Ob {
    if o.formal.Unformalized? then o.(formal := Formalized, leanHash := c.parentLeanHash) else o
  }

  function CertifyParent(o: Ob, c: Certificate): Ob {
    o.(certificate := c.hash, certificateMark := Active)
  }

  /** Find the child, or create it below obligation p. */
  ghost function PersistAt(l: L, p: nat, target: Id, c: Certificate, run: string): (r: (L, Option<PersistError>))
    requires p < |l.obs|
  {
    match IndexOf(Nodes(l.obs), ChildId(target, c))
    case Some(k) => (l, if l.obs[k].certificate != c.hash then Some(ChildIdCollision) else None)
    case None =>
      var certified := At(l, p, CertifyParent(l.obs[p], c));
      (certified.(obs := certified.obs + [ChildOf(target, c, run)], version := l.version + 1), None)
  }

  /** The new ledger, and the exception if any: a collision is noticed after the parent has been formalized. */
  ghost function Persist(l: L, target: Id, c: Certificate, run: string): (r: (L, Option<PersistError>)) {
    if !c.verified then (l, None) else
    match IndexOf(Nodes(l.obs), target)
    case None => (l, Some(NoSuchTarget))
    case Some(p) => PersistAt(At(l, p, FormalizeParent(l.obs[p], c)), p, target, c, run)
  }
}
