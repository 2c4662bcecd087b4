// Which of a turn's confirmed refutations the turn applies.
module TurnOutcomes {
  import opened Wrappers
  import opened Evidence
  import opened LedgerGraph
  import opened LedgerModel
  import opened LedgerRuns
  import opened LedgerClosure
  import opened LedgerCalls
  import opened LedgerOutcomes
  import opened Critic
  import opened Turns
  import opened TurnSoundness

  /** The last complete entry about the obligation refutes its premise; earlier ones, and what suspected it, do not matter. */
  predicate LastRefutes(t: Turn, id: Id) {
    var last := LastComplete(t.entries, id);
    last.Some? && Critic.Refutes(last.value)
  }

  /** The turn confirmed a refutation of this obligation's premise, and the critic stands by it. */
  ghost predicate Upheld(l: L, t: Turn, id: Id) {
    ConfirmedIn(l, t, id) && LastRefutes(t, id)
  }

  lemma ConfirmedReview(l: L, t: Turn, id: Id)
    requires ConfirmedIn(l, t, id)
    ensures Reviews(t, SuspicionsIn(AfterAudit(l, t).obs, t))[id].status == Invalidated
  {
    var s := SuspicionsIn(AfterAudit(l, t).obs, t)[id];
    ReviewGate(t.host, Find(t.audits, id), Find(t.defenses, id), Some(s));
  }

  /** What the critic's entries decide about a suspected obligation with a verified review. */
  lemma VerdictKind(entries: seq<Entry>, chosen: set<Id>, suspicions: map<Id, Suspicion>, reviews: map<Id, Review>, id: Id)
    requires id in chosen && id in suspicions && id in reviews && reviews[id].verified && reviews[id].status == Invalidated
    ensures var v, last := Find(Verdicts(entries, chosen, suspicions, reviews), id), LastComplete(entries, id);
            (v.Some? && v.value.kind.PremiseInvalidated?) <==> (last.Some? && Critic.Refutes(last.value))
  {
    var last := LastComplete(entries, id);
    VerdictIsLast(entries, chosen, suspicions, reviews, id);
    LastIsComplete(entries, id);
    if last.Some? {
      RefutesExactlyWhen(last.value, suspicions[id], reviews[id]);
    }
  }

  lemma KillsSuspected(entries: seq<Entry>, chosen: set<Id>, suspicions: map<Id, Suspicion>, reviews: map<Id, Review>,
                       d: Decisions, o: Ob)
    requires d.ids == chosen && d.verdicts == Verdicts(entries, chosen, suspicions, reviews)
    requires d.suspicions == suspicions && d.reviews == reviews
    requires var id := o.node.id;
             && id in chosen && id in suspicions && suspicions[id].claimHash.Sha256?
             && id in reviews && reviews[id].verified && reviews[id].status == Invalidated
    ensures var last := LastComplete(entries, o.node.id);
            Kills(d, o) <==> (last.Some? && Critic.Refutes(last.value))
  {
    VerdictKind(entries, chosen, suspicions, reviews, o.node.id);
  }

  /** The decisions invalidate exactly what the turn upholds. */
  lemma KillsExactlyWhen(l: L, t: Turn, o: Ob)
    requires WellFormed(l) && LegalTurn(l, t)
    ensures Kills(TurnDecisions(l, t), o) <==> Upheld(l, t, o.node.id)
  {
    var d, id := TurnDecisions(l, t), o.node.id;
    if ConfirmedIn(l, t, id) {
      ConfirmedKills(l, t, o, d);
    } else if VerdictFor(d, id).kind.PremiseInvalidated? {
      InvalidatedIsConfirmed(l, t, id);
    }
  }

  lemma ConfirmedKills(l: L, t: Turn, o: Ob, d: Decisions)
    requires WellFormed(l) && LegalTurn(l, t) && d == TurnDecisions(l, t) && ConfirmedIn(l, t, o.node.id)
    ensures Kills(d, o) <==> LastRefutes(t, o.node.id)
  {
    var suspicions := SuspicionsIn(AfterAudit(l, t).obs, t);
    CheckpointKeepsFrontier(l, t);
    ConfirmedReview(l, t, o.node.id);
    KillsSuspected(t.entries, t.chosen, suspicions, Reviews(t, suspicions), d, o);
  }

  lemma {:induction false} LastIsComplete(entries: seq<Entry>, id: Id)
    ensures LastComplete(entries, id).Some? ==> Complete(LastComplete(entries, id).value)
    decreases |entries|
  {
    if entries != [] {
      LastIsComplete(entries[..|entries| - 1], id);
    }
  }

  // ---- kinds over the call ----

  lemma {:induction false} SuspectedKind(obs: seq<Ob>, marks: seq<(Id, string)>, run: string, k: nat)
    requires UniqueIds(Nodes(obs)) && k < |obs| && exists m :: 0 <= m < |marks| && marks[m].0 == obs[k].node.id
    ensures SuspectAll(obs, marks, run)[k].kind == PremiseSuspected
    decreases |marks|
  {
    var n := |marks| - 1;
    var sofar := SuspectAll(obs, marks[..n], run);
    SuspectShape(obs, marks[..n], run);
    SameNodesAt(obs, sofar, k);
    if marks[n].0 == obs[k].node.id {
      IndexIsUnique(Nodes(sofar), k);
    } else {
      var m :| 0 <= m < |marks| && marks[m].0 == obs[k].node.id;
      assert marks[..n][m] == marks[m];
      SuspectedKind(obs, marks[..n], run, k);
    }
  }

  /** Every suspected obligation is checkpointed as such. */
  lemma CheckpointedKind(l: L, t: Turn, k: nat)
    requires WellFormed(l) && k < |l.obs| && l.obs[k].node.id in SuspicionsIn(AfterAudit(l, t).obs, t)
    ensures k < |AfterCheckpoint(l, t).obs| && AfterCheckpoint(l, t).obs[k].node == l.obs[k].node
    ensures AfterCheckpoint(l, t).obs[k].kind == PremiseSuspected
  {
    var obs, id := AfterAudit(l, t).obs, l.obs[k].node.id;
    AuditShape(AuditLog(l.obs, []), t.equiv, 0);
    SameNodesAt(l.obs, obs, k);
    var suspicions := SuspicionsIn(obs, t);
    var m :| 0 <= m < |SuspectedIn(obs, t)| && SuspectedIn(obs, t)[m] == id;
    assert TurnMarks(l, t)[m].0 == id;
    SuspectedKind(obs, TurnMarks(l, t), t.run, k);
    SuspectShape(obs, TurnMarks(l, t), t.run);
    SameNodesAt(obs, AfterCheckpoint(l, t).obs, k);
  }

  /** Verdicts about other obligations leave an obligation's kind alone. */
  lemma {:induction false} OtherVerdictsKeepKind(l: L, i: nat, n: nat, d: Decisions, k: nat)
    requires UniqueIds(Nodes(l.obs)) && i <= n <= |l.obs| && k < |l.obs| && !(i <= k < n)
    ensures ApplyRange(l, i, n, d).obs[k].kind == l.obs[k].kind
    decreases n - i
  {
    if i < n {
      ApplyOneShape(l, i, d);
      KeepsKind(l, i, d, k);
      OtherVerdictsKeepKind(ApplyOne(l, i, d), i + 1, n, d, k);
    }
  }

  lemma KeepsKind(l: L, i: nat, d: Decisions, k: nat)
    requires UniqueIds(Nodes(l.obs)) && i < |l.obs| && k < |l.obs| && k != i
    ensures ApplyOne(l, i, d).obs[k].kind == l.obs[k].kind
  {
    if Acts(d, l.obs[i]) {
      ApplyOneEffect(l, i, d, k);
    }
  }

  /** After the call, a suspected obligation is premise-invalidated exactly when its own verdict acted and invalidated. */
  lemma KindAfterCall(l: L, d: Decisions, n: nat)
    requires UniqueIds(Nodes(l.obs)) && n < |l.obs| && d.ids <= PendingIds(l.obs) && l.obs[n].node.id in d.ids
    requires !l.obs[n].kind.PremiseInvalidated?
    ensures ApplyVerdicts(l, d).obs[n].kind.PremiseInvalidated? <==>
              VerdictFor(d, l.obs[n].node.id).kind.PremiseInvalidated? && !Preempted(l.obs, d, n, n)
  {
    var mid := ApplyRange(l, 0, n, d);
    var next := ApplyOne(mid, n, d);
    ApplyShape(l, 0, n, d);
    ApplyOneShape(mid, n, d);
    ActsExactlyWhen(l, d, n);
    OtherVerdictsKeepKind(l, 0, n, d, n);
    if Acts(d, mid.obs[n]) {
      TargetOutcome(mid, n, d);
    }
    ApplySplits(l, 0, n, |l.obs|, d);
    OtherVerdictsKeepKind(next, n + 1, |l.obs|, d, n);
  }

  /** An upheld refutation of a strict ancestor that is listed before obligation n. */
  ghost predicate UpheldAbove(l: L, t: Turn, n: nat, m: nat)
    requires n < |l.obs|
  {
    m < n && Upheld(l, t, l.obs[m].node.id) && l.obs[n].node.id in Descendants(Nodes(l.obs), l.obs[m].node.id)
  }

  lemma PreemptedExactlyWhen(l: L, t: Turn, n: nat)
    requires WellFormed(l) && LegalTurn(l, t) && n < |l.obs|
    ensures Nodes(AfterCheckpoint(l, t).obs) == Nodes(l.obs)
    ensures |AfterCheckpoint(l, t).obs| == |l.obs|
    ensures Preempted(AfterCheckpoint(l, t).obs, TurnDecisions(l, t), n, n) <==> exists m: nat :: UpheldAbove(l, t, n, m)
  {
    var d, checked := TurnDecisions(l, t), AfterCheckpoint(l, t).obs;
    AuditShape(AuditLog(l.obs, []), t.equiv, 0);
    SuspectShape(AfterAudit(l, t).obs, TurnMarks(l, t), t.run);
    PreemptedCongruence(l.obs, checked, d, n, n);
    if Preempted(l.obs, d, n, n) {
      var m: nat :| KilledAbove(l.obs, d, n, m, n);
      KillsExactlyWhen(l, t, l.obs[m]);
      assert UpheldAbove(l, t, n, m);
    }
    if m: nat :| UpheldAbove(l, t, n, m) {
      KillsExactlyWhen(l, t, l.obs[m]);
      assert KilledAbove(l.obs, d, n, m, n);
    }
  }

  /**
   * A refutation that the host confirmed is applied exactly when the last complete entry about the obligation calls
   * its premise disproved, with evidence and without a missing lemma, and no upheld refutation of an ancestor listed
   * before it has quarantined it first. Which entry raised the suspicion does not matter.
   */
  lemma ConfirmedIsAppliedExactlyWhen(l: L, t: Turn, n: nat)
    requires WellFormed(l) && LegalTurn(l, t) && n < |l.obs| && ConfirmedIn(l, t, l.obs[n].node.id)
    ensures n < |AfterVerdicts(l, t).obs|
    ensures AfterVerdicts(l, t).obs[n].kind.PremiseInvalidated? <==>
              LastRefutes(t, l.obs[n].node.id) && !exists m: nat :: UpheldAbove(l, t, n, m)
  {
    var checked, d := AfterCheckpoint(l, t), TurnDecisions(l, t);
    StepKeepsWellFormed(l, Audited(t.equiv));
    CheckpointKeepsFrontier(l, t);
    CheckpointedKind(l, t, n);
    PreemptedExactlyWhen(l, t, n);
    KindAfterCall(checked, d, n);
    KillsExactlyWhen(l, t, checked.obs[n]);
    if VerdictFor(d, l.obs[n].node.id).kind.PremiseInvalidated? {
      ConfirmedInvalidates(l, t, l.obs[n].node.id);
    }
  }

  /** A confirmed refutation with an invalidating verdict is one the call acts on. */
  lemma ConfirmedInvalidates(l: L, t: Turn, id: Id)
    requires WellFormed(l) && LegalTurn(l, t) && ConfirmedIn(l, t, id)
    requires VerdictFor(TurnDecisions(l, t), id).kind.PremiseInvalidated?
    ensures forall o: Ob :: o.node.id == id ==> Kills(TurnDecisions(l, t), o)
  {
    CheckpointKeepsFrontier(l, t);
  }
}
