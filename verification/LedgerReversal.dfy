// What reversing a premise invalidation gives back.
module LedgerReversal {
  import opened Wrappers
  import opened Evidence
  import opened LedgerGraph
  import opened LedgerModel
  import opened LedgerFrontier

  /** An obligation's status survives invalidation and reversal of `t`. */
  ghost predicate Restored(before: seq<Ob>, after: seq<Ob>, k: nat)
    requires k < |before| == |after|
  {
    after[k].status == before[k].status && (IsInvalid(after[k]) <==> IsInvalid(before[k]))
  }

  /** What the target's own status is reversed to. */
  function TargetPrior(o: Ob): Status {
    OrUnresolved(if IsPremiseKind(o.kind) then o.prior else o.status)
  }

  /**
   * A touched obligation whose status cannot be given back: the target, when its saved prior status is another
   * one; below it, an obligation whose status is empty text, or that is still held by an earlier invalidation
   * of `t` which saved something other than QUARANTINED.
   */
  ghost predicate Unrestorable(obs: seq<Ob>, t: Id, k: nat)
    requires k < |obs|
  {
    if obs[k].node.id == t then TargetPrior(obs[k]) != obs[k].status
    else obs[k].node.id in Descendants(Nodes(obs), t) &&
         (obs[k].status.Blank? || (HeldBy(obs[k], t) && !OrUnresolved(obs[k].quarantinePrior).Quarantined?))
  }

  /** The target was already invalid as a premise: reversing makes it valid. */
  predicate AlreadyDead(obs: seq<Ob>, t: Id, k: nat)
    requires k < |obs|
  {
    obs[k].node.id == t && obs[k].status.Disproved? && IsPremiseKind(obs[k].kind)
  }

  lemma SameNodes(obs: seq<Ob>, t: Id, run: string, review: Review)
    ensures Nodes(UpgradeObs(obs, t, run, review)) == Nodes(obs)
    ensures Nodes(ReverseObs(obs, t, review)) == Nodes(obs)
    ensures Nodes(MarkSuspected(obs, t, run)) == Nodes(obs)
    ensures Nodes(ClearTemp(obs, t)) == Nodes(obs)
  {
  }

  /** One obligation, upgraded and reversed. */
  ghost function ThereAndBack(o: Ob, t: Id, below: set<Id>, run: string, review: Review, back: Review): Ob {
    ClearTempOne(ReverseOne(ClearTempOne(UpgradeOne(o, t, below, run, review), t), t, below, back), t)
  }

  lemma RoundTripIs(obs: seq<Ob>, t: Id, run: string, review: Review, back: Review, k: nat)
    requires k < |obs|
    ensures ReverseObs(UpgradeObs(obs, t, run, review), t, back)[k] ==
            ThereAndBack(obs[k], t, Descendants(Nodes(obs), t), run, review, back)
  {
    SameNodes(obs, t, run, review);
  }

  lemma TargetThereAndBack(o: Ob, t: Id, below: set<Id>, run: string, review: Review, back: Review)
    requires o.node.id == t
    ensures ThereAndBack(o, t, below, run, review, back).status == TargetPrior(o)
    ensures !IsPremiseKind(ThereAndBack(o, t, below, run, review, back).kind)
  {
  }

  lemma BelowThereAndBack(o: Ob, t: Id, below: set<Id>, run: string, review: Review, back: Review)
    requires o.node.id != t && o.node.id in below
    ensures var o' := ThereAndBack(o, t, below, run, review, back);
            o'.kind == o.kind && o'.status == OrUnresolved(if HeldBy(o, t) then o.quarantinePrior else o.status)
  {
  }

  lemma OtherThereAndBack(o: Ob, t: Id, below: set<Id>, run: string, review: Review, back: Review)
    requires o.node.id != t && o.node.id !in below
    ensures var o' := ThereAndBack(o, t, below, run, review, back);
            o'.kind == o.kind && o'.status == o.status
  {
  }

  /** Upgrade then reverse, one obligation at a time: the status comes back exactly when it is restorable. */
  lemma RoundTripAt(obs: seq<Ob>, t: Id, run: string, review: Review, back: Review, k: nat)
    requires k < |obs|
    ensures var after := ReverseObs(UpgradeObs(obs, t, run, review), t, back);
            && (after[k].status == obs[k].status <==> !Unrestorable(obs, t, k))
            && (!Unrestorable(obs, t, k) && !AlreadyDead(obs, t, k) ==> Restored(obs, after, k))
  {
    var below := Descendants(Nodes(obs), t);
    RoundTripIs(obs, t, run, review, back, k);
    if obs[k].node.id == t {
      TargetThereAndBack(obs[k], t, below, run, review, back);
    } else if obs[k].node.id in below {
      BelowThereAndBack(obs[k], t, below, run, review, back);
    } else {
      OtherThereAndBack(obs[k], t, below, run, review, back);
    }
  }

  /**
   * Reversal undoes invalidation: upgrade then reverse gives every obligation its status back exactly when none
   * is unrestorable; and then, unless the target was a dead premise before, the frontier is the same list.
   */
  lemma ReversalUndoesInvalidation(l: L, t: Id, premise: string, evidence: string, run: string,
                                   review: Review, hash: Digest, back: Review)
    requires Known(Nodes(l.obs), t) && review.verified && hash.Sha256?
    ensures var after := Reverse(Upgrade(l, t, premise, evidence, run, Some(review), hash), t, back);
            && |after.obs| == |l.obs|
            && ((forall k :: 0 <= k < |l.obs| ==> after.obs[k].status == l.obs[k].status)
                <==> forall k :: 0 <= k < |l.obs| ==> !Unrestorable(l.obs, t, k))
            && ((forall k :: 0 <= k < |l.obs| ==> !Unrestorable(l.obs, t, k) && !AlreadyDead(l.obs, t, k)) ==>
                 Pending(after.obs) == Pending(l.obs))
  {
    var up := UpgradeObs(l.obs, t, run, review);
    var after := ReverseObs(up, t, back);
    SameNodes(l.obs, t, run, review);
    SameNodes(up, t, run, back);
    forall k | 0 <= k < |l.obs|
      ensures after[k].status == l.obs[k].status <==> !Unrestorable(l.obs, t, k)
      ensures !Unrestorable(l.obs, t, k) && !AlreadyDead(l.obs, t, k) ==> Restored(l.obs, after, k)
    {
      RoundTripAt(l.obs, t, run, review, back, k);
    }
    if forall k :: 0 <= k < |l.obs| ==> !Unrestorable(l.obs, t, k) && !AlreadyDead(l.obs, t, k) {
      PendingFromCongruence(l.obs, after, 0);
    }
  }

  lemma UpgradeOneTwice(o: Ob, t: Id, below: set<Id>, run: string, review: Review, run': string, review': Review)
    ensures var once := ClearTempOne(UpgradeOne(o, t, below, run, review), t);
            once.node == o.node && ClearTempOne(UpgradeOne(once, t, below, run', review'), t) == once
  {
  }

  /** Invalidating again, with whatever review, changes no obligation: the saved statuses are safe. */
  lemma RepeatedInvalidationKeepsSavedStatuses(obs: seq<Ob>, t: Id, run: string, review: Review, run': string, review': Review)
    ensures UpgradeObs(UpgradeObs(obs, t, run, review), t, run', review') == UpgradeObs(obs, t, run, review)
  {
    var up := UpgradeObs(obs, t, run, review);
    SameNodes(obs, t, run, review);
    forall k | 0 <= k < |obs| ensures UpgradeObs(up, t, run', review')[k] == up[k] {
      UpgradeOneTwice(obs[k], t, Descendants(Nodes(obs), t), run, review, run', review');
    }
  }

  /**
   * Nested invalidations do not unwind. When an ancestor is invalidated while a deeper root still holds an
   * obligation, reversing the ancestor and then the deeper root leaves that obligation QUARANTINED for good;
   * reversing the deeper root alone would have released it.
   */
  lemma NestedReversalLosesThePriorStatus(obs: seq<Ob>, top: Id, deep: Id, run: string, review: Review, back: Review, k: nat)
    requires k < |obs| && top != deep && deep != "" && HeldBy(obs[k], deep)
    requires obs[k].node.id != deep && obs[k].node.id in Descendants(Nodes(obs), deep)
    requires obs[k].node.id != top && obs[k].node.id in Descendants(Nodes(obs), top)
    ensures var nested := ReverseObs(ReverseObs(UpgradeObs(obs, top, run, review), top, back), deep, back);
            nested[k].status == Quarantined && nested[k].quarantineRoot != deep
    ensures ReverseObs(obs, deep, back)[k].status == OrUnresolved(obs[k].quarantinePrior)
  {
    var up := UpgradeObs(obs, top, run, review);
    SameNodes(obs, top, run, review);
    SameNodes(up, top, run, back);
  }

  /**
   * Exactly when nested reversals give the status back that the deeper root had saved: when the ancestor did not
   * reach the obligation, or what was saved was QUARANTINED anyway.
   */
  lemma NestedReversalRestoresExactlyWhen(obs: seq<Ob>, top: Id, deep: Id, run: string, review: Review, back: Review, k: nat)
    requires k < |obs| && top != deep && deep != "" && HeldBy(obs[k], deep)
    requires obs[k].node.id != deep && obs[k].node.id in Descendants(Nodes(obs), deep) && obs[k].node.id != top
    ensures var nested := ReverseObs(ReverseObs(UpgradeObs(obs, top, run, review), top, back), deep, back);
            nested[k].status == OrUnresolved(obs[k].quarantinePrior) <==>
              obs[k].node.id !in Descendants(Nodes(obs), top) || obs[k].quarantinePrior == Quarantined
  {
    SameNodes(obs, top, run, review);
    SameNodes(UpgradeObs(obs, top, run, review), top, run, back);
  }

  /** The ancestor's round trip leaves the deeper root's hold, with what it saved, exactly outside its own reach. */
  lemma RoundTripKeepsOtherRoots(obs: seq<Ob>, top: Id, deep: Id, run: string, review: Review, back: Review, k: nat)
    requires k < |obs| && top != deep && HeldBy(obs[k], deep) && obs[k].node.id != top
    ensures var o := ReverseObs(UpgradeObs(obs, top, run, review), top, back)[k];
            && (HeldBy(o, deep) <==> obs[k].node.id !in Descendants(Nodes(obs), top))
            && (HeldBy(o, deep) ==> o.quarantinePrior == obs[k].quarantinePrior)
            && (!HeldBy(o, deep) ==> o.status == Quarantined && o.quarantineRoot == "" && o.quarantinePrior == Blank)
  {
    SameNodes(obs, top, run, review);
  }
}
