// Where the search resumes after a verified premise invalidation.
module LedgerBackjump {
  import opened LedgerGraph
  import opened LedgerModel
  import opened LedgerFrontier
  import opened LedgerRuns
  import opened LedgerClosure

  function UnresolvedIds(obs: seq<Ob>): set<Id> {
    set i | 0 <= i < |obs| && obs[i].status.Unresolved? :: obs[i].node.id
  }

  lemma {:induction false} OthersIdle(l: L, i: nat, n: nat, d: Decisions)
    requires i <= n <= |l.obs| && forall k :: i <= k < n ==> !Acts(d, l.obs[k])
    ensures ApplyRange(l, i, n, d) == l
    decreases n - i
  {
    if i < n {
      OthersIdle(l, i + 1, n, d);
    }
  }

  /** A call about one obligation applies that one verdict. */
  lemma SingleVerdict(l: L, d: Decisions, n: nat)
    requires UniqueIds(Nodes(l.obs)) && n < |l.obs| && d.ids == {l.obs[n].node.id}
    ensures ApplyVerdicts(l, d).obs == ApplyOne(l, n, d).obs && ApplyVerdicts(l, d).backjump == ApplyOne(l, n, d).backjump
  {
    var g := Nodes(l.obs);
    forall k | 0 <= k < |l.obs| && k != n ensures l.obs[k].node.id !in d.ids {
      assert g[k].id != g[n].id;
    }
    var mid := ApplyOne(l, n, d);
    ApplyOneShape(l, n, d);
    forall k | n < k < |l.obs| ensures mid.obs[k].node.id !in d.ids {
      assert Nodes(mid.obs)[k] == g[k];
    }
    ApplySplits(l, 0, n, |l.obs|, d);
    OthersIdle(l, 0, n, d);
    OthersIdle(mid, n + 1, |l.obs|, d);
  }

  lemma NotAboveItself(g: Graph, x: Id, a: Id)
    requires Acyclic(g) && Known(g, x) && Known(g, a) && Below(g, x, a)
    ensures a !in Descendants(g, x) && a != x
  {
    if Below(g, a, x) {
      BelowTransitive(g, a, x, a);
    }
  }

  /** Invalidating a pending obligation leaves its ancestors as they were. */
  lemma AncestorsUnchanged(l: L, n: nat, d: Decisions, k: nat)
    requires WellFormed(l) && Acyclic(Nodes(l.obs)) && n < |l.obs| && k < |l.obs| && EligibleAt(l.obs, n) && Acts(d, l.obs[n])
    requires Below(Nodes(l.obs), l.obs[n].node.id, l.obs[k].node.id)
    ensures ApplyOne(l, n, d).obs[k].status == l.obs[k].status
    ensures !IsInvalid(ApplyOne(l, n, d).obs[k])
  {
    var g := Nodes(l.obs);
    assert g[n].id in IdSet(g) && g[k].id in IdSet(g);
    NotAboveItself(g, g[n].id, g[k].id);
    EligibleExactlyWhen(l.obs, n);
    ApplyOneEffect(l, n, d, k);
  }

  /** An ancestor of the invalidated obligation is eligible afterwards exactly when it is UNRESOLVED. */
  lemma AncestorEligibility(l: L, n: nat, d: Decisions, k: nat)
    requires WellFormed(l) && Acyclic(Nodes(l.obs)) && n < |l.obs| && k < |l.obs| && EligibleAt(l.obs, n) && Acts(d, l.obs[n])
    requires Below(Nodes(l.obs), l.obs[n].node.id, l.obs[k].node.id)
    ensures EligibleAt(ApplyOne(l, n, d).obs, k) <==> l.obs[k].status.Unresolved?
  {
    var g, after := Nodes(l.obs), ApplyOne(l, n, d).obs;
    ApplyOneShape(l, n, d);
    AncestorsUnchanged(l, n, d, k);
    EligibleExactlyWhen(after, k);
    assert g[k] == l.obs[k].node && g[k] == after[k].node;
    forall j | 0 <= j < |after| && IsInvalid(after[j]) ensures !Below(g, after[k].node.id, after[j].node.id) {
      assert g[j] == l.obs[j].node && g[j] == after[j].node;
      if Below(g, g[k].id, g[j].id) {
        BelowTransitive(g, g[n].id, g[k].id, g[j].id);
        AncestorsUnchanged(l, n, d, j);
      }
    }
  }

  /** Marking an obligation invalidated changes the frontier data of no ancestor: the two hit sets agree on the chain. */
  lemma ChainHitsAgree(l: L, n: nat, d: Decisions, m: nat)
    requires WellFormed(l) && Acyclic(Nodes(l.obs)) && n < |l.obs| && EligibleAt(l.obs, n) && Acts(d, l.obs[n]) && m >= 1
    ensures Up(Nodes(l.obs), l.obs[n].node.id, m) in EligibleIds(ApplyOne(l, n, d).obs)
            <==> Up(Nodes(l.obs), l.obs[n].node.id, m) in UnresolvedIds(l.obs)
  {
    var g, a := Nodes(l.obs), Up(Nodes(l.obs), l.obs[n].node.id, m);
    var after := ApplyOne(l, n, d).obs;
    ApplyOneShape(l, n, d);
    if k :| 0 <= k < |l.obs| && l.obs[k].node.id == a {
      assert Below(g, l.obs[n].node.id, a);
      AncestorEligibility(l, n, d, k);
      forall j | 0 <= j < |l.obs| && (l.obs[j].node.id == a || after[j].node.id == a) ensures j == k {
        assert g[j].id == l.obs[j].node.id && g[j] == after[j].node && g[k].id == a;
      }
      assert g[k] == after[k].node;
    } else {
      forall j | 0 <= j < |after| ensures after[j].node.id != a {
        assert g[j] == after[j].node && g[j] == l.obs[j].node;
      }
    }
  }

  /** The walk after the invalidation returns the nearest UNRESOLVED strict ancestor, or nothing when there is none. */
  lemma TargetIsNearest(l: L, n: nat, d: Decisions, after: seq<Ob>)
    requires WellFormed(l) && Acyclic(Nodes(l.obs)) && n < |l.obs| && EligibleAt(l.obs, n)
    requires Acts(d, l.obs[n]) && after == ApplyOne(l, n, d).obs
    ensures var target := BackjumpTarget(after, n);
            if target == "" then NoneAbove(Nodes(l.obs), l.obs[n].node.id, UnresolvedIds(l.obs))
            else NearestAbove(Nodes(l.obs), l.obs[n].node.id, UnresolvedIds(l.obs), target) && target in EligibleIds(after)
  {
    var g, x := Nodes(l.obs), l.obs[n].node.id;
    ApplyOneShape(l, n, d);
    assert g[n] == l.obs[n].node && g[n] == after[n].node;
    IndexIsUnique(g, n);
    NodesKeepIds(after);
    EmptyIsUnknown(g);
    forall m: nat | m >= 1 ensures Up(g, x, m) in EligibleIds(after) <==> Up(g, x, m) in UnresolvedIds(l.obs) {
      ChainHitsAgree(l, n, d, m);
    }
    WalkFindsNearestAbove(g, x, EligibleIds(after), UnresolvedIds(l.obs));
  }

  lemma TargetIsSet(l: L, n: nat, d: Decisions)
    requires n < |l.obs| && Acts(d, l.obs[n]) && VerdictFor(d, l.obs[n].node.id).kind.PremiseInvalidated?
    ensures ApplyOne(l, n, d).backjump == BackjumpTarget(ApplyOne(l, n, d).obs, n)
  {
  }

  /** An eligible target leaves something pending at or below it. */
  ghost predicate Alive(obs: seq<Ob>, target: Id) {
    exists i, j :: 0 <= i < |obs| && 0 <= j < |obs| &&
      obs[i].node.id == target && EligibleAt(obs, i) && PendingUnder(obs, i, j)
  }

  lemma EligibleIsAlive(obs: seq<Ob>, target: Id)
    requires SoundGraph(Nodes(obs)) && Acyclic(Nodes(obs)) && target in EligibleIds(obs)
    ensures Alive(obs, target)
  {
    var i :| 0 <= i < |obs| && EligibleAt(obs, i) && obs[i].node.id == target;
    FrontierProgress(obs, i);
  }

  /**
   * After a verified premise invalidation of a single pending obligation the backjump target is its nearest
   * UNRESOLVED strict ancestor, empty exactly when there is none; the target is eligible, so some pending
   * obligation lies at or below it.
   */
  lemma BackjumpIsNearestAndAlive(l: L, d: Decisions, n: nat)
    requires WellFormed(l) && Acyclic(Nodes(l.obs)) && n < |l.obs| && PendingAt(l.obs, n)
    requires d.ids == {l.obs[n].node.id} && Invalidates(d, l.obs[n])
    ensures var r, g, x := ApplyVerdicts(l, d), Nodes(l.obs), l.obs[n].node.id;
            && (r.backjump == "" <==> NoneAbove(g, x, UnresolvedIds(l.obs)))
            && (r.backjump != "" ==> NearestAbove(g, x, UnresolvedIds(l.obs), r.backjump) && Alive(r.obs, r.backjump))
  {
    var after := ApplyOne(l, n, d).obs;
    SingleVerdict(l, d, n);
    TargetIsSet(l, n, d);
    TargetIsNearest(l, n, d, after);
    ApplyOneShape(l, n, d);
    if BackjumpTarget(after, n) != "" {
      EligibleIsAlive(after, BackjumpTarget(after, n));
    }
  }
}
