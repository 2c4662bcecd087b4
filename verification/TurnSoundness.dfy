// End to end: what every no-go lesson and every invalidated premise rests on, over all sessions of turns.
module TurnSoundness {
  import opened Wrappers
  import opened Sequences
  import opened Floats
  import opened Evidence
  import opened EvidenceErrors
  import opened LedgerGraph
  import opened LedgerModel
  import opened LedgerRuns
  import opened LedgerClosure
  import opened Critic
  import opened Turns
  import opened LedgerLessons

  /** What a claim's refutation may rest on. */
  type Warrant = Claim -> bool

  /** Every lesson carries the digest of a warranted claim. */
  ghost predicate Founded(lessons: seq<Lesson>, warrant: Warrant) {
    forall i :: 0 <= i < |lessons| ==> lessons[i].claimHash.Sha256? && warrant(lessons[i].claimHash.of)
  }

  /** In turn t the host verified a review of the claim it had bound for `id`. */
  ghost predicate ConfirmedIn(l: L, t: Turn, id: Id) {
    var suspicions := SuspicionsIn(AfterAudit(l, t).obs, t);
    id in suspicions && Reviews(t, suspicions)[id].verified
  }

  ghost function ClaimOf(l: L, t: Turn, id: Id): Claim
    requires ConfirmedIn(l, t, id)
  {
    SuspicionsIn(AfterAudit(l, t).obs, t)[id].claim
  }

  /** Every claim that the turn confirms as refuted is warranted. */
  ghost predicate WarrantedTurn(l: L, t: Turn, warrant: Warrant) {
    forall id :: ConfirmedIn(l, t, id) ==> warrant(ClaimOf(l, t, id))
  }

  /** Decisions that invalidate only what is warranted, and that know its digest. */
  ghost predicate FoundedFor(d: Decisions, id: Id, warrant: Warrant) {
    VerdictFor(d, id).kind.PremiseInvalidated? ==>
      id in d.suspicions && HashFor(d, id) == Sha256(d.suspicions[id].claim) && warrant(d.suspicions[id].claim)
  }

  /** A turn invalidates only what it confirmed. */
  lemma InvalidatedIsConfirmed(l: L, t: Turn, id: Id)
    requires WellFormed(l) && LegalTurn(l, t) && VerdictFor(TurnDecisions(l, t), id).kind.PremiseInvalidated?
    ensures ConfirmedIn(l, t, id)
  {
    CheckpointKeepsFrontier(l, t);
    var suspicions := SuspicionsIn(AfterAudit(l, t).obs, t);
    InvalidationNeedsReview(t.entries, t.chosen, suspicions, Reviews(t, suspicions), id);
  }

  /** And it records the digest of the very claim that was confirmed. */
  lemma TurnDecisionsAreFounded(l: L, t: Turn, id: Id, warrant: Warrant)
    requires WellFormed(l) && LegalTurn(l, t) && WarrantedTurn(l, t, warrant)
    ensures FoundedFor(TurnDecisions(l, t), id, warrant)
  {
    CheckpointKeepsFrontier(l, t);
    if VerdictFor(TurnDecisions(l, t), id).kind.PremiseInvalidated? {
      InvalidatedIsConfirmed(l, t, id);
      assert warrant(ClaimOf(l, t, id));
    }
  }

  // ---- lessons ----

  lemma StatusKeepsFounded(l: L, n: nat, v: Verdict, review: Option<Review>, hash: Digest, run: string, warrant: Warrant)
    requires n < |l.obs| && Founded(l.lessons, warrant)
    requires v.kind.PremiseInvalidated? ==> hash.Sha256? && warrant(hash.of)
    ensures Founded(AfterStatus(l, n, v, review, hash, run).lessons, warrant)
  {
  }

  lemma ReviewKeepsFounded(l: L, n: nat, review: Option<Review>, warrant: Warrant)
    requires n < |l.obs| && Founded(l.lessons, warrant)
    ensures Founded(AfterReview(l, n, review).lessons, warrant)
  {
  }

  lemma ApplyOneKeepsFounded(l: L, n: nat, d: Decisions, warrant: Warrant)
    requires n < |l.obs| && Founded(l.lessons, warrant) && FoundedFor(d, l.obs[n].node.id, warrant)
    ensures Founded(ApplyOne(l, n, d).lessons, warrant)
  {
    var o := l.obs[n];
    var v, review := VerdictFor(d, o.node.id), ReviewFor(d, o.node.id);
    var reviewed := AfterReview(l, n, review);
    ReviewKeepsFounded(l, n, review, warrant);
    StatusKeepsFounded(reviewed, n, v, review, HashFor(d, o.node.id), d.run, warrant);
    var decided := AfterStatus(reviewed, n, v, review, HashFor(d, o.node.id), d.run);
    KindShape(At(decided, n, Stamp(decided.obs[n], v, d.run)), n, v.kind, d.run);
  }

  lemma {:induction false} ApplyKeepsFounded(l: L, i: nat, d: Decisions, warrant: Warrant)
    requires i <= |l.obs| && Founded(l.lessons, warrant) && forall id :: FoundedFor(d, id, warrant)
    ensures Founded(ApplyRange(l, i, |l.obs|, d).lessons, warrant)
    decreases |l.obs| - i
  {
    if i < |l.obs| {
      ApplyOneKeepsFounded(l, i, d, warrant);
      ApplyKeepsFounded(ApplyOne(l, i, d), i + 1, d, warrant);
    }
  }

  lemma VerdictsKeepFounded(l: L, d: Decisions, warrant: Warrant)
    requires Founded(l.lessons, warrant) && forall id :: FoundedFor(d, id, warrant)
    ensures Founded(ApplyVerdicts(l, d).lessons, warrant)
  {
    ApplyKeepsFounded(l, 0, d, warrant);
  }

  lemma PersistKeepsLessons(l: L, target: Id, c: Certificate, run: string)
    ensures Persist(l, target, c, run).0.lessons == l.lessons
  {
    PersistShape(l, target, c, run);
  }

  lemma TurnKeepsFounded(l: L, t: Turn, warrant: Warrant)
    requires WellFormed(l) && LegalTurn(l, t) && WarrantedTurn(l, t, warrant) && Founded(l.lessons, warrant)
    ensures Founded(PlayTurn(l, t).lessons, warrant)
  {
    var d, checked, decided := TurnDecisions(l, t), AfterCheckpoint(l, t), AfterVerdicts(l, t);
    forall id ensures FoundedFor(d, id, warrant) {
      TurnDecisionsAreFounded(l, t, id, warrant);
    }
    assert checked.lessons == l.lessons;
    VerdictsKeepFounded(checked, d, warrant);
    if MayDecompose(decided.obs, t) {
      PersistKeepsLessons(decided, t.child.value.0, t.child.value.1, t.run);
    }
  }

  ghost predicate WarrantedSession(l: L, turns: seq<Turn>, warrant: Warrant) {
    turns == [] ||
    (WarrantedSession(l, turns[..|turns| - 1], warrant) &&
     WarrantedTurn(Session(l, turns[..|turns| - 1]), turns[|turns| - 1], warrant))
  }

  lemma {:induction false} SessionKeepsFounded(l: L, turns: seq<Turn>, warrant: Warrant)
    requires WellFormed(l) && LegalSession(l, turns) && WarrantedSession(l, turns, warrant) && Founded(l.lessons, warrant)
    ensures WellFormed(Session(l, turns)) && Founded(Session(l, turns).lessons, warrant)
    decreases |turns|
  {
    SessionIsLegalRun(l, turns);
    RunKeepsWellFormed(l, SessionEvents(l, turns));
    if turns != [] {
      var before := turns[..|turns| - 1];
      SessionKeepsFounded(l, before, warrant);
      TurnKeepsFounded(Session(l, before), turns[|turns| - 1], warrant);
    }
  }

  // ---- kinds ----

  lemma ReviewKeepsKinds(l: L, n: nat, review: Option<Review>, k: nat)
    requires n < |l.obs| && k < |l.obs|
    ensures var kind' := AfterReview(l, n, review).obs[k].kind; kind' == l.obs[k].kind || kind' == NoKind
  {
  }

  lemma StatusKeepsKinds(l: L, n: nat, v: Verdict, review: Option<Review>, hash: Digest, run: string, k: nat)
    requires n < |l.obs| && k < |l.obs|
    ensures AfterStatus(l, n, v, review, hash, run).obs[k].kind == l.obs[k].kind ||
            (l.obs[k].node.id == l.obs[n].node.id && v.kind.PremiseInvalidated?)
  {
  }

  lemma ApplyOneKind(l: L, n: nat, d: Decisions, k: nat)
    requires UniqueIds(Nodes(l.obs)) && n < |l.obs| && k < |l.obs|
    requires ApplyOne(l, n, d).obs[k].kind.PremiseInvalidated? && !l.obs[k].kind.PremiseInvalidated?
    ensures k == n && VerdictFor(d, l.obs[n].node.id).kind.PremiseInvalidated?
  {
    var o := l.obs[n];
    var v, review := VerdictFor(d, o.node.id), ReviewFor(d, o.node.id);
    var reviewed := AfterReview(l, n, review);
    ReviewShape(l, n, review);
    ReviewKeepsKinds(l, n, review, k);
    assert Nodes(reviewed.obs)[n] == o.node && Nodes(reviewed.obs)[k] == l.obs[k].node;
    assert k != n ==> Nodes(l.obs)[k].id != Nodes(l.obs)[n].id;
    StatusKeepsKinds(reviewed, n, v, review, HashFor(d, o.node.id), d.run, k);
    var decided := AfterStatus(reviewed, n, v, review, HashFor(d, o.node.id), d.run);
    KindEffect(At(decided, n, Stamp(decided.obs[n], v, d.run)), n, v.kind, d.run, k);
  }

  lemma {:induction false} ApplyKinds(l: L, i: nat, d: Decisions, k: nat)
    requires UniqueIds(Nodes(l.obs)) && i <= |l.obs| && k < |l.obs|
    requires ApplyRange(l, i, |l.obs|, d).obs[k].kind.PremiseInvalidated? && !l.obs[k].kind.PremiseInvalidated?
    ensures VerdictFor(d, l.obs[k].node.id).kind.PremiseInvalidated?
    decreases |l.obs| - i
  {
    if i < |l.obs| {
      var next := ApplyOne(l, i, d);
      ApplyOneShape(l, i, d);
      assert Nodes(next.obs)[k] == Nodes(l.obs)[k];
      if next.obs[k].kind.PremiseInvalidated? {
        ApplyOneKind(l, i, d, k);
      } else {
        ApplyKinds(next, i + 1, d, k);
      }
    }
  }

  lemma {:induction false} SuspectKinds(obs: seq<Ob>, marks: seq<(Id, string)>, run: string, k: nat)
    requires k < |obs|
    ensures var kind' := SuspectAll(obs, marks, run)[k].kind; kind' == obs[k].kind || kind' == PremiseSuspected
    decreases |marks|
  {
    if marks != [] {
      SuspectKinds(obs, marks[..|marks| - 1], run, k);
    }
  }

  lemma PersistKinds(l: L, target: Id, c: Certificate, run: string, k: nat)
    requires k < |Persist(l, target, c, run).0.obs|
    ensures var o := Persist(l, target, c, run).0.obs[k];
            if k < |l.obs| then o.kind == l.obs[k].kind && o.node == l.obs[k].node else o.kind == NoKind
  {
  }

  /** Obligation k becomes premise-invalidated in a turn only if that turn confirmed its claim as refuted. */
  lemma TurnKinds(l: L, t: Turn, k: nat)
    requires WellFormed(l) && LegalTurn(l, t) && k < |PlayTurn(l, t).obs|
    ensures k < |l.obs| ==> PlayTurn(l, t).obs[k].node == l.obs[k].node
    ensures PlayTurn(l, t).obs[k].kind.PremiseInvalidated? ==>
              k < |l.obs| && (l.obs[k].kind.PremiseInvalidated? || ConfirmedIn(l, t, l.obs[k].node.id))
  {
    var audited, checked, decided, d := AfterAudit(l, t), AfterCheckpoint(l, t), AfterVerdicts(l, t), TurnDecisions(l, t);
    if t.chosen != {} && MayDecompose(decided.obs, t) {
      PersistKinds(decided, t.child.value.0, t.child.value.1, t.run, k);
    }
    if k < |l.obs| {
      AuditKeepsShut(AuditLog(l.obs, []), t.equiv, 0, k);
      if t.chosen != {} {
        StagesKeepKind(l, t, k);
      }
    }
  }

  lemma StagesKeepKind(l: L, t: Turn, k: nat)
    requires WellFormed(l) && LegalTurn(l, t) && k < |l.obs|
    ensures AfterVerdicts(l, t).obs[k].node == l.obs[k].node
    ensures AfterVerdicts(l, t).obs[k].kind.PremiseInvalidated? ==>
              l.obs[k].kind.PremiseInvalidated? || ConfirmedIn(l, t, l.obs[k].node.id)
  {
    var audited, checked, d := AfterAudit(l, t), AfterCheckpoint(l, t), TurnDecisions(l, t);
    StepKeepsWellFormed(l, Audited(t.equiv));
    AuditKeepsShut(AuditLog(l.obs, []), t.equiv, 0, k);
    SuspectShape(audited.obs, TurnMarks(l, t), t.run);
    SuspectKinds(audited.obs, TurnMarks(l, t), t.run, k);
    assert Nodes(checked.obs)[k] == Nodes(audited.obs)[k];
    ApplyShape(checked, 0, |checked.obs|, d);
    assert Nodes(AfterVerdicts(l, t).obs)[k] == Nodes(checked.obs)[k];
    if VerdictFor(d, l.obs[k].node.id).kind.PremiseInvalidated? {
      InvalidatedIsConfirmed(l, t, l.obs[k].node.id);
    }
    if AfterVerdicts(l, t).obs[k].kind.PremiseInvalidated? && !checked.obs[k].kind.PremiseInvalidated? {
      ApplyKinds(checked, 0, d, k);
    }
  }

  ghost predicate ConfirmedAt(l: L, turns: seq<Turn>, m: nat, id: Id)
    requires m < |turns|
  {
    ConfirmedIn(Session(l, turns[..m]), turns[m], id)
  }

  /** Some turn of the session confirmed the claim about `id` as refuted. */
  ghost predicate ConfirmedBefore(l: L, turns: seq<Turn>, id: Id) {
    exists m: nat :: m < |turns| && ConfirmedAt(l, turns, m, id)
  }

  lemma ConfirmedAtLonger(l: L, turns: seq<Turn>, k: nat, m: nat, id: Id)
    requires m < k <= |turns|
    ensures ConfirmedAt(l, turns[..k], m, id) <==> ConfirmedAt(l, turns, m, id)
  {
    TakeTake(turns, k, m);
  }

  lemma ConfirmedStays(l: L, turns: seq<Turn>, id: Id)
    requires turns != []
    requires ConfirmedBefore(l, turns[..|turns| - 1], id) || ConfirmedAt(l, turns, |turns| - 1, id)
    ensures ConfirmedBefore(l, turns, id)
  {
    var k := |turns| - 1;
    if ConfirmedBefore(l, turns[..k], id) {
      var m: nat :| m < k && ConfirmedAt(l, turns[..k], m, id);
      ConfirmedAtLonger(l, turns, k, m, id);
    }
  }

  lemma {:induction false} SessionKinds(l: L, turns: seq<Turn>, k: nat)
    requires WellFormed(l) && LegalSession(l, turns) && k < |Session(l, turns).obs|
    requires forall j :: 0 <= j < |l.obs| ==> !l.obs[j].kind.PremiseInvalidated?
    requires Session(l, turns).obs[k].kind.PremiseInvalidated?
    ensures ConfirmedBefore(l, turns, Session(l, turns).obs[k].node.id)
    decreases |turns|
  {
    if turns != [] {
      var before, t := turns[..|turns| - 1], turns[|turns| - 1];
      var sofar := Session(l, before);
      SessionIsLegalRun(l, before);
      RunKeepsWellFormed(l, SessionEvents(l, before));
      TurnKinds(sofar, t, k);
      if sofar.obs[k].kind.PremiseInvalidated? {
        SessionKinds(l, before, k);
      }
      ConfirmedStays(l, turns, sofar.obs[k].node.id);
    }
  }

  // ---- soundness ----

  /** Every audit of the turn is reliable. */
  ghost predicate ReliableTurn(t: Turn, slip: Slip) {
    Sane(t.host) && RoundsWithin(t.host, slip) && forall id :: id in t.audits ==> Reliable(t.host, slip, t.audits[id])
  }

  lemma ConfirmedIsRefuted(l: L, t: Turn, slip: Slip, id: Id)
    requires ConfirmedIn(l, t, id)
    ensures HostRefuted(t.host, ClaimOf(l, t, id))
    ensures ReliableTurn(t, slip) ==> Refuted(t.host, ClaimOf(l, t, id))
  {
    var s := SuspicionsIn(AfterAudit(l, t).obs, t)[id];
    OnlyArithmeticInvalidates(t.host, slip, Find(t.audits, id), Find(t.defenses, id), Some(s));
  }

  /** What a session's refutations rest on: the host's computation, and where the audits are reliable the claim's falsity. */
  ghost predicate RestsOn(h: Host, reliable: bool, c: Claim) {
    HostRefuted(h, c) && (reliable ==> Refuted(h, c))
  }

  ghost function WarrantFor(h: Host, reliable: bool): Warrant {
    (c: Claim) => RestsOn(h, reliable, c)
  }

  /** One host plays all turns; where `reliable` is set, all audits are. */
  ghost predicate SameArithmetic(turns: seq<Turn>, h: Host, slip: Slip, reliable: bool) {
    forall m :: 0 <= m < |turns| ==> turns[m].host == h && (reliable ==> ReliableTurn(turns[m], slip))
  }

  lemma {:induction false} SessionIsWarranted(l: L, turns: seq<Turn>, h: Host, slip: Slip, reliable: bool)
    requires SameArithmetic(turns, h, slip, reliable)
    ensures WarrantedSession(l, turns, WarrantFor(h, reliable))
    decreases |turns|
  {
    if turns != [] {
      var before, t := turns[..|turns| - 1], turns[|turns| - 1];
      SessionIsWarranted(l, before, h, slip, reliable);
      forall id | ConfirmedIn(Session(l, before), t, id) ensures WarrantFor(h, reliable)(ClaimOf(Session(l, before), t, id)) {
        ConfirmedIsRefuted(Session(l, before), t, slip, id);
      }
    }
  }

  /**
   * Soundness of the whole loop. Over every session of turns from a ledger with no lessons and no invalidated
   * premise, every no-go lesson carries the hash of a universal claim that the host's own arithmetic refutes at some
   * witness it admits; and where every audit has a finite witness and either rounds nothing or separates the two sides
   * by more than its rounding errors, a claim that is false (for `!=`, whose sides are equal within the tolerance). An
   * obligation is premise-invalidated only if in one of the turns the host confirmed such a refutation of the claim it
   * had bound for that very obligation.
   */
  lemma SessionsAreSound(l: L, turns: seq<Turn>, h: Host, slip: Slip, reliable: bool)
    requires WellFormed(l) && LegalSession(l, turns) && SameArithmetic(turns, h, slip, reliable)
    requires l.lessons == [] && forall j :: 0 <= j < |l.obs| ==> !l.obs[j].kind.PremiseInvalidated?
    ensures var r := Session(l, turns);
            && (forall i :: 0 <= i < |r.lessons| ==>
                 && r.lessons[i].claimHash.Sha256?
                 && var c := r.lessons[i].claimHash.of;
                 && HostRefuted(h, c)
                 && (reliable ==> Refuted(h, c) && (!c.relation.Ne? ==> !TrueForAll(h.power, c))))
            && (forall k :: 0 <= k < |r.obs| && r.obs[k].kind.PremiseInvalidated? ==>
                 ConfirmedBefore(l, turns, r.obs[k].node.id))
  {
    var r := Session(l, turns);
    SessionIsWarranted(l, turns, h, slip, reliable);
    SessionKeepsFounded(l, turns, WarrantFor(h, reliable));
    forall i | 0 <= i < |r.lessons|
      ensures var c := r.lessons[i].claimHash.of;
              HostRefuted(h, c) && (reliable ==> Refuted(h, c) && (!c.relation.Ne? ==> !TrueForAll(h.power, c)))
    {
      var c := r.lessons[i].claimHash.of;
      assert WarrantFor(h, reliable)(c);
      if reliable {
        RefutedClaimsAreFalse(h, c);
      }
    }
    forall k | 0 <= k < |r.obs| && r.obs[k].kind.PremiseInvalidated? ensures ConfirmedBefore(l, turns, r.obs[k].node.id) {
      SessionKinds(l, turns, k);
    }
  }

  lemma RefutedClaimsAreFalse(h: Host, c: Claim)
    requires Refuted(h, c)
    ensures c.Arith? && (!c.relation.Ne? ==> !TrueForAll(h.power, c))
  {
    var w :| RefutedBy(h, c, w);
  }

  /** No session undoes an invalidation: every lesson it taught is ACTIVE, and the lesson's source is shut. */
  lemma SessionsNeverReverse(l: L, turns: seq<Turn>)
    requires WellFormed(l) && LegalSession(l, turns) && l.lessons == []
    ensures LessonsStand(Session(l, turns))
  {
    SessionIsLegalRun(l, turns);
    RunKeepsLessons(l, SessionEvents(l, turns));
  }

  /** Sessions are runs of pending verdicts: they keep the ledger well formed and its invalidated premises shut. */
  lemma SessionsInherit(l: L, turns: seq<Turn>, i: nat)
    requires WellFormed(l) && LegalSession(l, turns)
    ensures WellFormed(Session(l, turns))
    ensures Acyclic(Nodes(l.obs)) ==> Acyclic(Nodes(Session(l, turns).obs))
    ensures i < |l.obs| && Dead(l.obs[i]) ==>
            var obs := Session(l, turns).obs;
            && i < |obs| && IsInvalid(obs[i])
            && forall k :: 0 <= k < |obs| && (k == i || Below(Nodes(obs), obs[k].node.id, obs[i].node.id)) ==> !PendingAt(obs, k)
  {
    SessionIsLegalRun(l, turns);
    RunKeepsWellFormed(l, SessionEvents(l, turns));
    if i < |l.obs| && Dead(l.obs[i]) {
      InvalidationIsFinal(l, SessionEvents(l, turns), i);
    }
  }
}
