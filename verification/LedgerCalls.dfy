// Inside one call that applies several verdicts: which of them act, and what the call leaves in force.
module LedgerCalls {
  import opened LedgerGraph
  import opened LedgerModel
  import opened LedgerRuns
  import opened LedgerClosure

  /** The call's verdict about this obligation invalidates its premise, if it gets to act. */
  predicate Kills(d: Decisions, o: Ob) {
    o.node.id in d.ids && Invalidates(d, o)
  }

  /** Obligation j, listed before i, is one of those, and obligation k lies below it. */
  ghost predicate KilledAbove(obs: seq<Ob>, d: Decisions, k: nat, j: nat, i: nat)
    requires k < |obs|
  {
    j < i && j < |obs| && Kills(d, obs[j]) && obs[k].node.id in Descendants(Nodes(obs), obs[j].node.id)
  }

  ghost predicate Preempted(obs: seq<Ob>, d: Decisions, k: nat, i: nat)
    requires k < |obs|
  {
    exists j: nat :: KilledAbove(obs, d, k, j, i)
  }

  /** Before the verdict of obligation i: obligation k is quarantined exactly when an earlier verdict shut it. */
  ghost predicate Standing(obs: seq<Ob>, d: Decisions, k: nat, i: nat)
    requires k < |obs|
  {
    && (Preempted(obs, d, k, i) ==> obs[k].status.Quarantined?)
    && (obs[k].status.Quarantined? ==> exists j: nat :: KilledAbove(obs, d, k, j, i) && ShutBy(obs, k, j))
  }

  lemma SameNodesAt(a: seq<Ob>, b: seq<Ob>, k: nat)
    requires Nodes(a) == Nodes(b) && k < |a|
    ensures k < |b| && a[k].node == b[k].node
  {
    assert |Nodes(a)| == |Nodes(b)|;
    assert Nodes(a)[k] == Nodes(b)[k];
  }

  /** Whom the verdicts preempt depends on the tree alone. */
  lemma PreemptedCongruence(a: seq<Ob>, b: seq<Ob>, d: Decisions, k: nat, i: nat)
    requires Nodes(a) == Nodes(b) && k < |a| == |b| && i <= |a|
    ensures Preempted(a, d, k, i) <==> Preempted(b, d, k, i)
  {
    SameNodesAt(a, b, k);
    forall j: nat | j < i ensures KilledAbove(a, d, k, j, i) <==> KilledAbove(b, d, k, j, i) {
      SameNodesAt(a, b, j);
    }
  }

  lemma DescendantsCompose(obs: seq<Ob>, x: nat, y: nat, z: nat)
    requires UniqueIds(Nodes(obs)) && x < |obs| && y < |obs| && z < |obs| && x != z
    requires obs[x].node.id in Descendants(Nodes(obs), obs[y].node.id)
    requires obs[y].node.id in Descendants(Nodes(obs), obs[z].node.id)
    ensures obs[x].node.id in Descendants(Nodes(obs), obs[z].node.id)
  {
    assert Nodes(obs)[x].id != Nodes(obs)[z].id;
    BelowTransitive(Nodes(obs), obs[x].node.id, obs[y].node.id, obs[z].node.id);
  }

  /** An idle verdict preempts nothing that was not preempted before. */
  lemma IdleStep(l: L, i: nat, d: Decisions, k: nat)
    requires UniqueIds(Nodes(l.obs)) && i < k < |l.obs| && !Acts(d, l.obs[i])
    requires Standing(l.obs, d, k, i) && (l.obs[i].node.id in d.ids ==> Standing(l.obs, d, i, i))
    ensures Standing(l.obs, d, k, i + 1)
  {
    if KilledAbove(l.obs, d, k, i, i + 1) {
      var j: nat :| KilledAbove(l.obs, d, i, j, i) && ShutBy(l.obs, i, j);
      DescendantsCompose(l.obs, k, i, j);
      assert KilledAbove(l.obs, d, k, j, i);
    }
    if Preempted(l.obs, d, k, i + 1) {
      var j: nat :| KilledAbove(l.obs, d, k, j, i + 1);
      assert j != i ==> KilledAbove(l.obs, d, k, j, i);
    }
    if l.obs[k].status.Quarantined? {
      var j: nat :| KilledAbove(l.obs, d, k, j, i) && ShutBy(l.obs, k, j);
      assert KilledAbove(l.obs, d, k, j, i + 1);
    }
  }

  /** An acting verdict shuts exactly what lies below its target, if it invalidates. */
  lemma ActingStep(l: L, i: nat, d: Decisions, k: nat)
    requires UniqueIds(Nodes(l.obs)) && i < k < |l.obs| && Acts(d, l.obs[i]) && Standing(l.obs, d, k, i)
    ensures Standing(ApplyOne(l, i, d).obs, d, k, i + 1)
  {
    var after := ApplyOne(l, i, d).obs;
    ApplyOneShape(l, i, d);
    ApplyOneEffect(l, i, d, k);
    SameNodesAt(l.obs, after, i);
    SameNodesAt(l.obs, after, k);
    PreemptedCongruence(l.obs, after, d, k, i);
    if Invalidates(d, l.obs[i]) && l.obs[k].node.id in Descendants(Nodes(l.obs), l.obs[i].node.id) {
      ApplyOneKills(l, i, d);
      assert KilledAbove(after, d, k, i, i + 1) && ShutBy(after, k, i);
    } else {
      if l.obs[k].status.Quarantined? {
        var j: nat :| KilledAbove(l.obs, d, k, j, i) && ShutBy(l.obs, k, j);
        HeldStays(l, i, d, k, j);
      }
      if Preempted(after, d, k, i + 1) {
        var j: nat :| KilledAbove(after, d, k, j, i + 1);
        assert j != i;
        assert KilledAbove(after, d, k, j, i);
      }
    }
  }

  lemma HeldStays(l: L, i: nat, d: Decisions, k: nat, j: nat)
    requires UniqueIds(Nodes(l.obs)) && i < k < |l.obs| && Acts(d, l.obs[i])
    requires KilledAbove(l.obs, d, k, j, i) && ShutBy(l.obs, k, j)
    requires !(Invalidates(d, l.obs[i]) && l.obs[k].node.id in Descendants(Nodes(l.obs), l.obs[i].node.id))
    ensures var after := ApplyOne(l, i, d).obs;
            after[k].status.Quarantined? && KilledAbove(after, d, k, j, i + 1) && ShutBy(after, k, j)
  {
    var g, after := Nodes(l.obs), ApplyOne(l, i, d).obs;
    assert g[j].id == l.obs[j].node.id && g[i].id == l.obs[i].node.id && g[k].id == l.obs[k].node.id;
    ApplyOneShape(l, i, d);
    ApplyOneEffect(l, i, d, k);
    ApplyOneKeepsShut(l, i, d, k, j);
    SameNodesAt(l.obs, after, j);
    SameNodesAt(l.obs, after, i);
    SameNodesAt(l.obs, after, k);
  }

  /** Every obligation of the call that is still to come stands as the verdicts before it have left it. */
  ghost predicate AllStanding(l: L, d: Decisions, i: nat) {
    forall k :: i <= k < |l.obs| && l.obs[k].node.id in d.ids ==> Standing(l.obs, d, k, i)
  }

  lemma StandingStep(l: L, i: nat, d: Decisions)
    requires UniqueIds(Nodes(l.obs)) && i < |l.obs| && AllStanding(l, d, i)
    ensures AllStanding(ApplyOne(l, i, d), d, i + 1)
  {
    ApplyOneShape(l, i, d);
    var next := ApplyOne(l, i, d);
    forall k | i + 1 <= k < |next.obs| && next.obs[k].node.id in d.ids ensures Standing(next.obs, d, k, i + 1) {
      SameNodesAt(next.obs, l.obs, k);
      if Acts(d, l.obs[i]) {
        ActingStep(l, i, d, k);
      } else {
        IdleStep(l, i, d, k);
      }
    }
  }

  lemma {:induction false} StandingReaches(l: L, i: nat, n: nat, d: Decisions)
    requires UniqueIds(Nodes(l.obs)) && i <= n <= |l.obs| && AllStanding(l, d, i)
    ensures AllStanding(ApplyRange(l, i, n, d), d, n)
    decreases n - i
  {
    if i < n {
      StandingStep(l, i, d);
      ApplyOneShape(l, i, d);
      StandingReaches(ApplyOne(l, i, d), i + 1, n, d);
    }
  }

  lemma PendingStands(l: L, d: Decisions)
    requires UniqueIds(Nodes(l.obs)) && d.ids <= PendingIds(l.obs)
    ensures AllStanding(l, d, 0)
  {
    forall k | 0 <= k < |l.obs| && l.obs[k].node.id in d.ids ensures Standing(l.obs, d, k, 0) {
      var j :| 0 <= j < |l.obs| && PendingAt(l.obs, j) && l.obs[j].node.id == l.obs[k].node.id;
      assert Nodes(l.obs)[j].id == Nodes(l.obs)[k].id;
    }
  }

  /**
   * In a call about pending obligations, the verdict about obligation n acts exactly when no obligation above it,
   * listed before it, is invalidated by the same call.
   */
  lemma ActsExactlyWhen(l: L, d: Decisions, n: nat)
    requires UniqueIds(Nodes(l.obs)) && d.ids <= PendingIds(l.obs) && n < |l.obs| && l.obs[n].node.id in d.ids
    ensures var mid := ApplyRange(l, 0, n, d);
            && mid.obs[n].node == l.obs[n].node && Standing(mid.obs, d, n, n)
            && (Acts(d, mid.obs[n]) <==> !Preempted(l.obs, d, n, n))
  {
    var mid := ApplyRange(l, 0, n, d);
    PendingStands(l, d);
    StandingReaches(l, 0, n, d);
    ApplyShape(l, 0, n, d);
    SameNodesAt(l.obs, mid.obs, n);
    PreemptedCongruence(l.obs, mid.obs, d, n, n);
    if mid.obs[n].status.Quarantined? {
      var j: nat :| KilledAbove(mid.obs, d, n, j, n) && ShutBy(mid.obs, n, j);
      assert Preempted(mid.obs, d, n, n);
    }
  }

  /** A verified invalidation of a pending obligation is in force when the call returns, whoever shut it. */
  lemma InvalidationTakesHold(l: L, d: Decisions, n: nat)
    requires WellFormed(l) && d.ids <= PendingIds(l.obs) && n < |l.obs| && Kills(d, l.obs[n])
    ensures Shut(ApplyVerdicts(l, d).obs, n)
  {
    var mid := ApplyRange(l, 0, n, d);
    ApplyShape(l, 0, n, d);
    ActsExactlyWhen(l, d, n);
    if Acts(d, mid.obs[n]) {
      KilledIsShut(mid, n, d);
    } else {
      var j: nat :| KilledAbove(mid.obs, d, n, j, n) && ShutBy(mid.obs, n, j);
      assert ShutBy(mid.obs, n, j) && j < n + 1;
    }
    ApplySplits(l, 0, n, |l.obs|, d);
    ApplyOneShape(mid, n, d);
    ApplyKeepsShut(ApplyOne(mid, n, d), n + 1, d, n, ApplyRange(l, 0, |l.obs|, d));
  }
}
