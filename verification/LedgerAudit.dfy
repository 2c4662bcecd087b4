// The duplicate audit and the persistence of certified children.
module LedgerAudit {
  import opened Wrappers
  import opened LedgerGraph
  import opened LedgerModel
  import opened LedgerRuns

  /** Some strict ancestor of obligation i has an equivalent statement. */
  ghost predicate RepeatsAncestor(obs: seq<Ob>, equiv: Equivalence, i: nat)
    requires i < |obs|
  {
    exists j :: 0 <= j < |obs| && Below(Nodes(obs), obs[i].node.id, obs[j].node.id) &&
      equiv(obs[j].node.statement, obs[i].node.statement)
  }

  /** The audit rejected obligation i. */
  predicate RejectedIn(before: seq<Ob>, after: seq<Ob>, i: nat)
    requires i < |before| == |after|
  {
    before[i].status.Unresolved? && after[i].status.RejectedDuplicate?
  }

  lemma DuplicateExactlyWhen(obs: seq<Ob>, equiv: Equivalence, i: nat)
    requires UniqueIds(Nodes(obs)) && NamedIds(Nodes(obs)) && i < |obs|
    ensures DuplicatesAncestor(obs, equiv, i) <==> RepeatsAncestor(obs, equiv, i)
  {
    var g, hits := Nodes(obs), EquivalentIds(obs, equiv, i);
    IndexIsUnique(g, i);
    assert g[i] == obs[i].node;
    forall j | 0 <= j < |obs| ensures obs[j].node.id in IdSet(g) {
      assert g[j].id == obs[j].node.id;
    }
    WalkMeetsAncestor(g, obs[i].node.id, hits);
    if a :| a in hits && Below(g, obs[i].node.id, a) {
      var j :| 0 <= j < |obs| && equiv(obs[j].node.statement, obs[i].node.statement) && obs[j].node.id == a;
      assert RepeatsAncestor(obs, equiv, i);
    }
  }

  /** A root has no ancestors to repeat. */
  lemma RootsRepeatNothing(obs: seq<Ob>, equiv: Equivalence, i: nat)
    requires UniqueIds(Nodes(obs)) && NamedIds(Nodes(obs)) && i < |obs| && obs[i].node.parent == ""
    ensures !DuplicatesAncestor(obs, equiv, i)
  {
  }

  /** The audit of `obs` before index n: what has been decided, what is still as it was, and who is on the list. */
  ghost predicate Auditing(obs: seq<Ob>, equiv: Equivalence, n: nat, a: AuditLog) {
    && n <= |obs| == |a.obs| && Nodes(a.obs) == Nodes(obs)
    && (forall i :: 0 <= i < |obs| ==> a.obs[i] == obs[i] || (i < n && RejectedIn(obs, a.obs, i)))
    && (forall i :: 0 <= i < n ==> (obs[i].node.id in a.rejected <==> RejectedIn(obs, a.obs, i)))
    && (forall x :: x in a.rejected ==> exists i :: 0 <= i < n && obs[i].node.id == x)
  }

  /**
   * Obligation i is decided as the audit decides: it repeats an ancestor, or its parent is on the list. In a list
   * that does not put parents first, a parent can be rejected after its child has been passed over.
   */
  ghost predicate Judged(obs: seq<Ob>, equiv: Equivalence, i: nat, a: AuditLog)
    requires i < |obs| == |a.obs|
  {
    obs[i].status.Unresolved? ==>
      && (DuplicatesAncestor(obs, equiv, i) ==> RejectedIn(obs, a.obs, i))
      && (RejectedIn(obs, a.obs, i) ==> DuplicatesAncestor(obs, equiv, i) || obs[i].node.parent in a.rejected)
      && (ParentsPrecede(Nodes(obs)) && obs[i].node.parent in a.rejected ==> RejectedIn(obs, a.obs, i))
  }

  ghost predicate AllJudged(obs: seq<Ob>, equiv: Equivalence, n: nat, a: AuditLog) {
    n <= |obs| == |a.obs| && forall k :: 0 <= k < n ==> Judged(obs, equiv, k, a)
  }

  lemma SameEquivalents(obs: seq<Ob>, other: seq<Ob>, equiv: Equivalence, i: nat)
    requires |obs| == |other| && Nodes(obs) == Nodes(other) && i < |obs|
    ensures EquivalentIds(obs, equiv, i) == EquivalentIds(other, equiv, i)
    ensures obs[i].node == other[i].node
  {
    forall j | 0 <= j < |obs| ensures obs[j].node == other[j].node {
      assert Nodes(obs)[j] == Nodes(other)[j];
    }
  }

  lemma AuditStep(obs: seq<Ob>, equiv: Equivalence, i: nat, a: AuditLog)
    requires UniqueIds(Nodes(obs)) && NamedIds(Nodes(obs)) && i < |obs| && Auditing(obs, equiv, i, a)
    ensures Auditing(obs, equiv, i + 1, AuditOne(a, equiv, i))
    ensures obs[i].status.Unresolved? ==>
      (RejectedIn(obs, AuditOne(a, equiv, i).obs, i) <==>
       DuplicatesAncestor(obs, equiv, i) || (obs[i].node.parent != "" && obs[i].node.parent in a.rejected))
  {
    var g, r := Nodes(obs), AuditOne(a, equiv, i);
    SameEquivalents(obs, a.obs, equiv, i);
    AuditOneShape(a, equiv, i);
    forall k | 0 <= k < i ensures obs[k].node.id != obs[i].node.id {
      assert g[k].id != g[i].id;
    }
    if obs[i].node.parent == "" {
      RootsRepeatNothing(obs, equiv, i);
    }
    assert obs[i].node.id !in a.rejected;
  }

  /** Later steps neither lift nor add decisions about earlier obligations. */
  lemma AuditOneKeeps(a: AuditLog, equiv: Equivalence, i: nat, k: nat)
    requires i < |a.obs| && k < |a.obs| && k != i
    ensures AuditOne(a, equiv, i).obs[k] == a.obs[k]
  {
  }

  /** Every obligation is judged against the list as it stands when its turn comes. */
  lemma {:induction false} AuditReaches(obs: seq<Ob>, equiv: Equivalence, i: nat, a: AuditLog)
    requires UniqueIds(Nodes(obs)) && NamedIds(Nodes(obs)) && i <= |obs| && Auditing(obs, equiv, i, a)
    requires AllJudged(obs, equiv, i, a)
    ensures var end := AuditFrom(a, equiv, i); Auditing(obs, equiv, |obs|, end) && AllJudged(obs, equiv, |obs|, end)
    decreases |obs| - i
  {
    if i < |obs| {
      AuditStep(obs, equiv, i, a);
      StepKeepsAllJudged(obs, equiv, i, a);
      AuditReaches(obs, equiv, i + 1, AuditOne(a, equiv, i));
    }
  }

  lemma StepKeepsAllJudged(obs: seq<Ob>, equiv: Equivalence, i: nat, a: AuditLog)
    requires UniqueIds(Nodes(obs)) && NamedIds(Nodes(obs)) && i < |obs| && Auditing(obs, equiv, i, a)
    requires AllJudged(obs, equiv, i, a)
    ensures AllJudged(obs, equiv, i + 1, AuditOne(a, equiv, i))
  {
    forall k | 0 <= k < i + 1 ensures Judged(obs, equiv, k, AuditOne(a, equiv, i)) {
      StepKeepsJudged(obs, equiv, i, a, k);
    }
  }

  /** Later rejections leave earlier decisions right; with parents first, the parent's is settled by then. */
  lemma StepKeepsJudged(obs: seq<Ob>, equiv: Equivalence, i: nat, a: AuditLog, k: nat)
    requires UniqueIds(Nodes(obs)) && NamedIds(Nodes(obs)) && k <= i < |obs| && Auditing(obs, equiv, i, a)
    requires k < i ==> Judged(obs, equiv, k, a)
    ensures Judged(obs, equiv, k, AuditOne(a, equiv, i))
  {
    var g, r := Nodes(obs), AuditOne(a, equiv, i);
    AuditStep(obs, equiv, i, a);
    assert g[k] == obs[k].node && g[i] == obs[i].node;
    if ParentsPrecede(g) && obs[k].node.parent != "" {
      var j :| 0 <= j < k && g[j].id == g[k].parent;
      assert obs[k].node.parent != obs[i].node.id;
    }
    if k < i {
      AuditOneKeeps(a, equiv, i, k);
    }
    if obs[k].node.parent == "" {
      EmptyNotRejected(obs, equiv, i, a);
      EmptyNotRejected(obs, equiv, i + 1, r);
    }
  }

  lemma EmptyNotRejected(obs: seq<Ob>, equiv: Equivalence, n: nat, a: AuditLog)
    requires NamedIds(Nodes(obs)) && Auditing(obs, equiv, n, a)
    ensures "" !in a.rejected
  {
    forall i | 0 <= i < |obs| ensures obs[i].node.id != "" {
      assert Nodes(obs)[i].id != "";
    }
  }

  /** The parent of obligation i was rejected in this pass. */
  ghost predicate ParentRejected(before: seq<Ob>, after: seq<Ob>, i: nat)
    requires i < |before| == |after|
  {
    exists p :: 0 <= p < |before| && before[p].node.id == before[i].node.parent && RejectedIn(before, after, p)
  }

  /**
   * The audit touches nothing but UNRESOLVED obligations, which it rejects when they repeat an ancestor, and
   * otherwise only when their parent is rejected in the same pass; when parents precede children, always then.
   * Afterwards no UNRESOLVED obligation repeats an ancestor. Cycles of parent links change none of this.
   */
  lemma AuditIsExact(l: L, equiv: Equivalence, i: nat)
    requires WellFormed(l) && i < |l.obs|
    ensures var after := AuditDuplicates(l, equiv).obs;
            && |after| == |l.obs|
            && (after[i] == l.obs[i] || RejectedIn(l.obs, after, i))
            && (l.obs[i].status.Unresolved? && RepeatsAncestor(l.obs, equiv, i) ==> RejectedIn(l.obs, after, i))
            && (RejectedIn(l.obs, after, i) ==> RepeatsAncestor(l.obs, equiv, i) || ParentRejected(l.obs, after, i))
            && (ParentsPrecede(Nodes(l.obs)) && l.obs[i].status.Unresolved? && ParentRejected(l.obs, after, i) ==>
                 RejectedIn(l.obs, after, i))
            && (after[i].status.Unresolved? ==> !RepeatsAncestor(after, equiv, i))
  {
    var start := AuditLog(l.obs, []);
    var end := AuditFrom(start, equiv, 0);
    AuditReaches(l.obs, equiv, 0, start);
    assert Judged(l.obs, equiv, i, end);
    DuplicateExactlyWhen(l.obs, equiv, i);
    forall j | 0 <= j < |l.obs| ensures l.obs[j].node == end.obs[j].node {
      assert Nodes(l.obs)[j] == Nodes(end.obs)[j];
    }
    if RepeatsAncestor(end.obs, equiv, i) {
      assert RepeatsAncestor(l.obs, equiv, i);
    }
  }

  lemma {:induction false} NothingLeft(obs: seq<Ob>, equiv: Equivalence, i: nat)
    requires UniqueIds(Nodes(obs)) && NamedIds(Nodes(obs)) && i <= |obs|
    requires forall k :: 0 <= k < |obs| && obs[k].status.Unresolved? ==> !DuplicatesAncestor(obs, equiv, k)
    ensures AuditFrom(AuditLog(obs, []), equiv, i) == AuditLog(obs, [])
    decreases |obs| - i
  {
    if i < |obs| {
      NothingLeft(obs, equiv, i + 1);
    }
  }

  /** A second audit rejects nothing and leaves the version alone. */
  lemma SecondAuditIsIdle(l: L, equiv: Equivalence)
    requires WellFormed(l)
    ensures AuditDuplicates(AuditDuplicates(l, equiv), equiv) == AuditDuplicates(l, equiv)
  {
    var after := AuditDuplicates(l, equiv).obs;
    AuditShape(AuditLog(l.obs, []), equiv, 0);
    forall k | 0 <= k < |after| && after[k].status.Unresolved? ensures !DuplicatesAncestor(after, equiv, k) {
      AuditIsExact(l, equiv, k);
      DuplicateExactlyWhen(after, equiv, k);
    }
    NothingLeft(after, equiv, 0);
  }

  // ---- certified children ----

  lemma ChildIsNotTarget(target: Id, c: Certificate)
    ensures ChildId(target, c) != target && ChildId(target, c) != ""
  {
    assert |ChildId(target, c)| > |target|;
  }

  /** With a formalized parent p and a child k that carries the certificate, persisting is idle. */
  lemma PersistIsIdle(l: L, target: Id, c: Certificate, run: string, p: nat, k: nat)
    requires c.verified && p < |l.obs| && k < |l.obs|
    requires IndexOf(Nodes(l.obs), target) == Some(p) && IndexOf(Nodes(l.obs), ChildId(target, c)) == Some(k)
    requires FormalizeParent(l.obs[p], c) == l.obs[p] && l.obs[k].certificate == c.hash
    ensures Persist(l, target, c, run) == (l, None)
  {
    assert l.obs[p := l.obs[p]] == l.obs;
  }

  /** Right after a certificate has been persisted, persisting it again changes nothing at all. */
  lemma PersistingTwiceIsIdle(l: L, target: Id, c: Certificate, run: string, run': string)
    requires UniqueIds(Nodes(l.obs)) && Persist(l, target, c, run).1.None?
    ensures var r := Persist(l, target, c, run).0; Persist(r, target, c, run') == (r, None)
  {
    if c.verified {
      var r := Persist(l, target, c, run).0;
      var g, h := Nodes(l.obs), Nodes(r.obs);
      var p := IndexOf(g, target).value;
      ChildIsNotTarget(target, c);
      PersistShape(l, target, c, run);
      if |r.obs| > |l.obs| {
        assert h == g + [h[|l.obs|]];
        LookupsAfterAppend(g, h[|l.obs|], p);
        PersistIsIdle(r, target, c, run', p, |l.obs|);
      } else {
        assert h == g;
        PersistIsIdle(r, target, c, run', p, IndexOf(g, ChildId(target, c)).value);
      }
    }
  }

  lemma LookupsAfterAppend(g: Graph, node: Node, p: nat)
    requires UniqueIds(g) && !Known(g, node.id) && p < |g|
    ensures IndexOf(g + [node], node.id) == Some(|g|) && IndexOf(g + [node], g[p].id) == Some(p)
  {
    var h := g + [node];
    forall i | 0 <= i < |g| ensures h[i].id != node.id {
      assert g[i].id in IdSet(g);
    }
    IndexIsUnique(h, |g|);
    assert h[p] == g[p];
    IndexIsUnique(h, p);
  }

  /**
   * Later on, persisting a certificate whose child exists adds no obligation. It succeeds exactly when the child
   * still carries that certificate's hash, and otherwise raises.
   */
  lemma RepersistExactlyWhen(l: L, target: Id, c: Certificate, run: string, k: nat)
    requires UniqueIds(Nodes(l.obs)) && c.verified && Known(Nodes(l.obs), target)
    requires k < |l.obs| && l.obs[k].node.id == ChildId(target, c)
    ensures var (r, e) := Persist(l, target, c, run);
            && |r.obs| == |l.obs| && r.version == l.version
            && (e == None <==> l.obs[k].certificate == c.hash)
            && (e.Some? ==> e.value == ChildIdCollision)
  {
    var p := IndexOf(Nodes(l.obs), target).value;
    var formalized := At(l, p, FormalizeParent(l.obs[p], c));
    assert Nodes(formalized.obs) == Nodes(l.obs);
    assert Nodes(l.obs)[k].id == ChildId(target, c);
    IndexIsUnique(Nodes(l.obs), k);
    ChildIsNotTarget(target, c);
  }

  /** Creating a child stamps the certificate on the child and on its parent p. */
  lemma PersistCreates(l: L, target: Id, c: Certificate, run: string, p: nat)
    requires SoundGraph(Nodes(l.obs)) && c.verified && p < |l.obs| && l.obs[p].node.id == target
    requires !Known(Nodes(l.obs), ChildId(target, c))
    ensures var r := Persist(l, target, c, run).0;
            && |r.obs| == |l.obs| + 1 && r.obs[|l.obs|].node.id == ChildId(target, c)
            && r.obs[p].certificate == c.hash && SoundGraph(Nodes(r.obs))
  {
    var g, r := Nodes(l.obs), Persist(l, target, c, run).0;
    assert g[p].id == target;
    IndexIsUnique(g, p);
    var formalized := At(l, p, FormalizeParent(l.obs[p], c));
    assert Nodes(formalized.obs) == g;
    ChildIsNotTarget(target, c);
    PersistShape(l, target, c, run);
    assert Nodes(r.obs) == g + [Nodes(r.obs)[|l.obs|]];
    AppendKeepsSound(g, Nodes(r.obs)[|l.obs|]);
  }

  /** Decomposing the child itself overwrites that hash: the child's own certificate can then no longer be persisted. */
  lemma DecomposedChildCollides(l: L, target: Id, c: Certificate, c': Certificate, run: string)
    requires SoundGraph(Nodes(l.obs)) && c.verified && c'.verified && c.hash != c'.hash
    requires Known(Nodes(l.obs), target) && !Known(Nodes(l.obs), ChildId(target, c))
    requires !Known(Nodes(Persist(l, target, c, run).0.obs), ChildId(ChildId(target, c), c'))
    ensures var one := Persist(l, target, c, run).0;
            var two := Persist(one, ChildId(target, c), c', run).0;
            Persist(two, target, c, run).1 == Some(ChildIdCollision)
  {
    var one := Persist(l, target, c, run).0;
    var child := ChildId(target, c);
    var two := Persist(one, child, c', run).0;
    var p, n := IndexOf(Nodes(l.obs), target).value, |l.obs|;
    PersistCreates(l, target, c, run, p);
    PersistCreates(one, child, c', run, n);
    PersistShape(l, target, c, run);
    PersistShape(one, child, c', run);
    assert Nodes(two.obs)[n] == Nodes(one.obs)[n] && Nodes(two.obs)[p] == Nodes(l.obs)[p];
    RepersistExactlyWhen(two, target, c, run, n);
  }
}
