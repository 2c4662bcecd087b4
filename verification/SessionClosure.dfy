// What a session shuts: nothing but what it refuted, and what lies below that.
module SessionClosure {
  import opened Evidence
  import opened LedgerGraph
  import opened LedgerModel
  import opened LedgerRuns
  import opened LedgerClosure
  import opened LedgerOutcomes
  import opened Critic
  import opened Turns
  import opened TurnSoundness

  // ---- one verdict ----

  /** The verdict sets no status that shuts an obligation, unless its kind says so. */
  predicate Mild(v: Verdict) {
    !v.status.Quarantined? && (v.status.Disproved? && IsPremiseKind(v.kind) ==> v.kind.PremiseInvalidated?)
  }

  ghost predicate AllMild(d: Decisions) {
    forall id :: Mild(VerdictFor(d, id))
  }

  lemma {:induction false} VerdictsAreMild(
      entries: seq<Entry>, allowed: set<Id>, suspicions: map<Id, Suspicion>, reviews: map<Id, Review>)
    ensures forall id :: id in Verdicts(entries, allowed, suspicions, reviews) ==>
                           Mild(Verdicts(entries, allowed, suspicions, reviews)[id])
    decreases |entries|
  {
    if entries != [] {
      VerdictsAreMild(entries[..|entries| - 1], allowed, suspicions, reviews);
    }
  }

  /** Obligation k is j itself, or lies below it. */
  ghost predicate AtOrBelow(obs: seq<Ob>, k: nat, j: nat) {
    k < |obs| && j < |obs| && (k == j || Below(Nodes(obs), obs[k].node.id, obs[j].node.id))
  }

  /** One verdict shuts only its target and what lies below, and only by invalidating it. */
  lemma ApplyOneShuts(l: L, n: nat, d: Decisions, k: nat)
    requires UniqueIds(Nodes(l.obs)) && AllMild(d) && n < |l.obs| && k < |l.obs|
    requires !IsInvalid(l.obs[k]) && IsInvalid(ApplyOne(l, n, d).obs[k])
    ensures VerdictFor(d, l.obs[n].node.id).kind.PremiseInvalidated? && AtOrBelow(l.obs, k, n)
  {
    assert Acts(d, l.obs[n]);
    if k == n {
      TargetOutcome(l, n, d);
      assert Mild(VerdictFor(d, l.obs[n].node.id));
    } else {
      ApplyOneEffect(l, n, d, k);
    }
  }

  /** Some obligation at or above k has an invalidating verdict. */
  ghost predicate Struck(obs: seq<Ob>, d: Decisions, k: nat) {
    exists j: nat :: AtOrBelow(obs, k, j) && VerdictFor(d, obs[j].node.id).kind.PremiseInvalidated?
  }

  lemma StruckCongruence(a: seq<Ob>, b: seq<Ob>, d: Decisions, k: nat)
    requires Nodes(a) == Nodes(b) && Struck(b, d, k)
    ensures Struck(a, d, k)
  {
    var j: nat :| AtOrBelow(b, k, j) && VerdictFor(d, b[j].node.id).kind.PremiseInvalidated?;
    assert |Nodes(a)| == |a| && |Nodes(b)| == |b|;
    assert Nodes(a)[j] == Nodes(b)[j] && Nodes(a)[k] == Nodes(b)[k];
    assert AtOrBelow(a, k, j);
  }

  lemma {:induction false} ApplyShuts(l: L, i: nat, d: Decisions, k: nat, end: L)
    requires UniqueIds(Nodes(l.obs)) && AllMild(d) && i <= |l.obs| && k < |l.obs| && end == ApplyRange(l, i, |l.obs|, d)
    requires !IsInvalid(l.obs[k]) && IsInvalid(end.obs[k])
    ensures Struck(l.obs, d, k)
    decreases |l.obs| - i
  {
    if i < |l.obs| {
      var next := ApplyOne(l, i, d);
      ApplyOneShape(l, i, d);
      if IsInvalid(next.obs[k]) {
        ApplyOneShuts(l, i, d, k);
      } else {
        ApplyShuts(next, i + 1, d, k, end);
        StruckCongruence(l.obs, next.obs, d, k);
      }
    }
  }

  // ---- one turn ----

  /** Obligation k lies at or below one whose refutation turn t confirms. */
  ghost predicate UnderConfirmed(l: L, t: Turn, k: nat) {
    exists j: nat :: AtOrBelow(l.obs, k, j) && ConfirmedIn(l, t, l.obs[j].node.id)
  }

  lemma StagesShut(l: L, t: Turn, k: nat)
    requires WellFormed(l) && LegalTurn(l, t) && k < |l.obs|
    ensures Nodes(AfterVerdicts(l, t).obs) == Nodes(l.obs) && WellFormed(AfterVerdicts(l, t))
    ensures IsInvalid(AfterVerdicts(l, t).obs[k]) ==> IsInvalid(l.obs[k]) || UnderConfirmed(l, t, k)
  {
    var audited, checked, d := AfterAudit(l, t), AfterCheckpoint(l, t), TurnDecisions(l, t);
    AuditShape(AuditLog(l.obs, []), t.equiv, 0);
    AuditKeepsInvalid(AuditLog(l.obs, []), t.equiv, 0, k);
    StepKeepsWellFormed(l, Audited(t.equiv));
    CheckpointKeepsData(l, t);
    StepKeepsWellFormed(audited, Checkpointed(TurnMarks(l, t), t.run));
    CheckpointKeepsFrontier(l, t);
    StepKeepsWellFormed(checked, Decided(d));
    ApplyShape(checked, 0, |checked.obs|, d);
    TurnIsMild(l, t);
    if IsInvalid(AfterVerdicts(l, t).obs[k]) && !IsInvalid(checked.obs[k]) {
      ApplyShuts(checked, 0, d, k, ApplyRange(checked, 0, |checked.obs|, d));
      StruckCongruence(l.obs, checked.obs, d, k);
      StruckIsConfirmed(l, t, k);
    }
  }

  lemma TurnIsMild(l: L, t: Turn)
    ensures AllMild(TurnDecisions(l, t))
  {
    var d := TurnDecisions(l, t);
    VerdictsAreMild(t.entries, t.chosen, d.suspicions, d.reviews);
  }

  lemma StruckIsConfirmed(l: L, t: Turn, k: nat)
    requires WellFormed(l) && LegalTurn(l, t) && Struck(l.obs, TurnDecisions(l, t), k)
    ensures UnderConfirmed(l, t, k)
  {
    var j: nat :| AtOrBelow(l.obs, k, j) && VerdictFor(TurnDecisions(l, t), l.obs[j].node.id).kind.PremiseInvalidated?;
    InvalidatedIsConfirmed(l, t, l.obs[j].node.id);
  }

  lemma {:induction false} AuditKeepsInvalid(a: AuditLog, equiv: Equivalence, i: nat, k: nat)
    requires i <= |a.obs| && k < |a.obs|
    ensures IsInvalid(AuditFrom(a, equiv, i).obs[k]) ==> IsInvalid(a.obs[k])
    decreases |a.obs| - i
  {
    if i < |a.obs| {
      AuditKeepsInvalid(AuditOne(a, equiv, i), equiv, i + 1, k);
    }
  }

  /** A turn keeps obligations where they are, and those below each other below each other. */
  lemma TurnKeepsBelow(l: L, t: Turn, k: nat, j: nat)
    requires WellFormed(l) && LegalTurn(l, t) && AtOrBelow(l.obs, k, j)
    ensures var obs := PlayTurn(l, t).obs;
            AtOrBelow(obs, k, j) && obs[k].node == l.obs[k].node && obs[j].node == l.obs[j].node
  {
    var decided := AfterVerdicts(l, t);
    StagesShut(l, t, k);
    AuditShape(AuditLog(l.obs, []), t.equiv, 0);
    var stage := if t.chosen == {} then AfterAudit(l, t) else decided;
    assert Nodes(stage.obs) == Nodes(l.obs);
    assert |Nodes(stage.obs)| == |stage.obs| && Nodes(stage.obs)[k] == Nodes(l.obs)[k] && Nodes(stage.obs)[j] == Nodes(l.obs)[j];
    if t.chosen != {} && MayDecompose(decided.obs, t) {
      var (target, c) := t.child.value;
      PersistEffect(decided, target, c, t.run, k);
      PersistEffect(decided, target, c, t.run, j);
      PersistKeepsBelow(decided, target, c, t.run, l.obs[k].node.id, l.obs[j].node.id);
    }
  }

  /** A turn shuts only obligations at or below those it refutes; the child it adds is open. */
  lemma TurnShuts(l: L, t: Turn, k: nat)
    requires WellFormed(l) && LegalTurn(l, t) && k < |PlayTurn(l, t).obs| && IsInvalid(PlayTurn(l, t).obs[k])
    ensures k < |l.obs| && (IsInvalid(l.obs[k]) || UnderConfirmed(l, t, k))
  {
    var decided := AfterVerdicts(l, t);
    if t.chosen != {} && MayDecompose(decided.obs, t) {
      var (target, c) := t.child.value;
      if k < |decided.obs| {
        PersistEffect(decided, target, c, t.run, k);
      } else {
        ChildIsOpen(decided, target, c, t.run, k);
      }
    }
    if k < |l.obs| {
      StagesShut(l, t, k);
      AuditKeepsInvalid(AuditLog(l.obs, []), t.equiv, 0, k);
    }
  }

  lemma ChildIsOpen(l: L, target: Id, c: Certificate, run: string, k: nat)
    requires |l.obs| <= k < |Persist(l, target, c, run).0.obs|
    ensures !IsInvalid(Persist(l, target, c, run).0.obs[k])
  {
  }

  // ---- sessions ----

  /** Obligation k lies at or below one whose refutation some turn of the session confirmed. */
  ghost predicate UnderRefuted(l: L, turns: seq<Turn>, obs: seq<Ob>, k: nat) {
    exists j: nat :: AtOrBelow(obs, k, j) && ConfirmedBefore(l, turns, obs[j].node.id)
  }

  lemma UnderRefutedStays(l: L, turns: seq<Turn>, k: nat)
    requires turns != [] && WellFormed(Session(l, turns[..|turns| - 1]))
    requires LegalTurn(Session(l, turns[..|turns| - 1]), turns[|turns| - 1])
    requires var before := turns[..|turns| - 1];
             UnderRefuted(l, before, Session(l, before).obs, k) || UnderConfirmed(Session(l, before), turns[|turns| - 1], k)
    ensures UnderRefuted(l, turns, Session(l, turns).obs, k)
  {
    var before, t := turns[..|turns| - 1], turns[|turns| - 1];
    var sofar := Session(l, before);
    var j: nat :| AtOrBelow(sofar.obs, k, j) &&
                  (ConfirmedBefore(l, before, sofar.obs[j].node.id) || ConfirmedIn(sofar, t, sofar.obs[j].node.id));
    TurnKeepsBelow(sofar, t, k, j);
    ConfirmedStays(l, turns, sofar.obs[j].node.id);
    assert AtOrBelow(Session(l, turns).obs, k, j);
  }

  /**
   * Over every session from a ledger in which nothing is shut, whatever ends up DISPROVED as a premise or QUARANTINED
   * is, or lies below, an obligation whose claim the host refuted in one of the turns.
   */
  lemma {:induction false} SessionsShutOnlyBelowRefutations(l: L, turns: seq<Turn>, k: nat)
    requires WellFormed(l) && LegalSession(l, turns) && forall j :: 0 <= j < |l.obs| ==> !IsInvalid(l.obs[j])
    requires k < |Session(l, turns).obs| && IsInvalid(Session(l, turns).obs[k])
    ensures UnderRefuted(l, turns, Session(l, turns).obs, k)
    decreases |turns|
  {
    var before, t := turns[..|turns| - 1], turns[|turns| - 1];
    var sofar := Session(l, before);
    SessionIsLegalRun(l, before);
    RunKeepsWellFormed(l, SessionEvents(l, before));
    TurnShuts(sofar, t, k);
    if IsInvalid(sofar.obs[k]) {
      SessionsShutOnlyBelowRefutations(l, before, k);
    }
    UnderRefutedStays(l, turns, k);
  }
}
