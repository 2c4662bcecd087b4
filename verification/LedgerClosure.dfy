// An invalidated premise stays shut, with everything below it, over every later run.
module LedgerClosure {
  import opened Wrappers
  import opened Evidence
  import opened LedgerGraph
  import opened LedgerModel
  import opened LedgerFrontier
  import opened LedgerRuns

  predicate Dead(o: Ob) {
    o.status.Disproved? && IsPremiseKind(o.kind)
  }

  /** Obligation i is premise-invalidated itself, or quarantined under a strict ancestor j that is. */
  ghost predicate ShutBy(obs: seq<Ob>, i: nat, j: nat) {
    && i < |obs| && j < |obs| && Dead(obs[j])
    && (i == j ||
        (obs[i].status.Quarantined? && obs[i].quarantineRoot == obs[j].node.id &&
         Below(Nodes(obs), obs[i].node.id, obs[j].node.id)))
  }

  ghost predicate Shut(obs: seq<Ob>, i: nat) {
    exists j: nat :: ShutBy(obs, i, j)
  }

  /** Whether applying the verdict of obligation n really invalidates its premise. */
  predicate Invalidates(d: Decisions, o: Ob) {
    && VerdictFor(d, o.node.id).kind.PremiseInvalidated?
    && ReviewFor(d, o.node.id).Some? && ReviewFor(d, o.node.id).value.verified
    && HashFor(d, o.node.id).Sha256?
  }

  predicate Acts(d: Decisions, o: Ob) {
    o.node.id in d.ids && !o.status.Quarantined?
  }

  /** Obligation k keeps its status and its quarantine, unless it was quarantined under t. */
  predicate KeepsUnless(o: Ob, o': Ob, t: Id) {
    && o'.node == o.node && o'.kind == o.kind
    && (o.quarantineRoot != t ==> o'.status == o.status && o'.quarantineRoot == o.quarantineRoot)
    && (!o.status.Quarantined? ==> o'.status == o.status)
  }

  lemma ReviewEffect(l: L, n: nat, review: Option<Review>, k: nat)
    requires n < |l.obs| && k < |l.obs| && k != n
    ensures KeepsUnless(l.obs[k], AfterReview(l, n, review).obs[k], l.obs[n].node.id) || l.obs[k].node.id == l.obs[n].node.id
  {
  }

  lemma StatusEffect(l: L, n: nat, v: Verdict, review: Option<Review>, hash: Digest, run: string, k: nat)
    requires n < |l.obs| && k < |l.obs| && k != n && l.obs[k].node.id != l.obs[n].node.id
    ensures var t, o, o' := l.obs[n].node.id, l.obs[k], AfterStatus(l, n, v, review, hash, run).obs[k];
            if v.kind.PremiseInvalidated? && review.Some? && review.value.verified && hash.Sha256?
               && o.node.id in Descendants(Nodes(l.obs), t)
            then o'.node == o.node && o'.kind == o.kind && o'.status.Quarantined? && o'.quarantineRoot == t
            else o'.node == o.node && o'.kind == o.kind && o'.status == o.status && o'.quarantineRoot == o.quarantineRoot
  {
  }

  lemma KindEffect(l: L, n: nat, kind: Kind, run: string, k: nat)
    requires n < |l.obs| && k < |l.obs|
    ensures var o, o' := l.obs[k], AfterKind(l, n, kind, run).obs[k];
            o'.node == o.node && o'.kind == o.kind && o'.status == o.status && o'.quarantineRoot == o.quarantineRoot
  {
  }

  /** What one applied verdict does to another obligation k. */
  lemma ApplyOneEffect(l: L, n: nat, d: Decisions, k: nat)
    requires UniqueIds(Nodes(l.obs)) && n < |l.obs| && k < |l.obs| && k != n && Acts(d, l.obs[n])
    ensures var t, o, o' := l.obs[n].node.id, l.obs[k], ApplyOne(l, n, d).obs[k];
            if Invalidates(d, l.obs[n]) && o.node.id in Descendants(Nodes(l.obs), t)
            then o'.node == o.node && o'.kind == o.kind && o'.status.Quarantined? && o'.quarantineRoot == t
            else KeepsUnless(o, o', t)
  {
    var o := l.obs[n];
    assert Nodes(l.obs)[k].id != Nodes(l.obs)[n].id;
    var v, review := VerdictFor(d, o.node.id), ReviewFor(d, o.node.id);
    var reviewed := AfterReview(l, n, review);
    ReviewShape(l, n, review);
    assert Nodes(reviewed.obs)[n] == o.node && Nodes(reviewed.obs)[k] == l.obs[k].node;
    ReviewEffect(l, n, review, k);
    StatusEffect(reviewed, n, v, review, HashFor(d, o.node.id), d.run, k);
    var decided := AfterStatus(reviewed, n, v, review, HashFor(d, o.node.id), d.run);
    var stamped := At(decided, n, Stamp(decided.obs[n], v, d.run));
    KindEffect(stamped, n, v.kind, d.run, k);
  }

  /** An applied invalidation leaves its target dead. */
  lemma ApplyOneKills(l: L, n: nat, d: Decisions)
    requires n < |l.obs| && Acts(d, l.obs[n]) && Invalidates(d, l.obs[n])
    ensures Dead(ApplyOne(l, n, d).obs[n]) && ApplyOne(l, n, d).obs[n].kind.PremiseInvalidated?
  {
    var o := l.obs[n];
    var v, review := VerdictFor(d, o.node.id), ReviewFor(d, o.node.id);
    var reviewed := AfterReview(l, n, review);
    ReviewShape(l, n, review);
    assert Nodes(reviewed.obs)[n] == o.node;
    var decided := AfterStatus(reviewed, n, v, review, HashFor(d, o.node.id), d.run);
    assert decided.obs[n].status.Disproved?;
    var stamped := At(decided, n, Stamp(decided.obs[n], v, d.run));
    KindEffect(stamped, n, v.kind, d.run, n);
  }

  lemma DescendantsAreClosed(g: Graph, x: Id, y: Id, t: Id)
    requires y in Descendants(g, t) && Below(g, x, y) && Known(g, x) && x != t
    ensures x in Descendants(g, t)
  {
    BelowTransitive(g, x, y, t);
  }

  /** One applied verdict about another obligation leaves i shut, possibly under a higher root. */
  lemma ApplyOneKeepsShut(l: L, n: nat, d: Decisions, i: nat, j: nat)
    requires UniqueIds(Nodes(l.obs)) && n < |l.obs| && ShutBy(l.obs, i, j)
    requires Acts(d, l.obs[n]) ==> n != i && n != j
    ensures ShutBy(ApplyOne(l, n, d).obs, i, j) || (Acts(d, l.obs[n]) && ShutBy(ApplyOne(l, n, d).obs, i, n))
  {
    if Acts(d, l.obs[n]) {
      var g, t := Nodes(l.obs), l.obs[n].node.id;
      ApplyOneShape(l, n, d);
      ApplyOneEffect(l, n, d, i);
      ApplyOneEffect(l, n, d, j);
      assert g[n].id == t && g[i].id == l.obs[i].node.id && g[j].id == l.obs[j].node.id;
      if i != j && g[j].id in Descendants(g, t) {
        DescendantsAreClosed(g, g[i].id, g[j].id, t);
      }
      if Invalidates(d, l.obs[n]) && g[i].id in Descendants(g, t) {
        ApplyOneKills(l, n, d);
      }
    }
  }

  /** While verdicts are applied: i is shut by a root the remaining verdicts do not touch. */
  ghost predicate ShutSoFar(l: L, n: nat, d: Decisions, i: nat) {
    && (i < |l.obs| && (l.obs[i].node.id !in d.ids || i < n))
    && exists j: nat :: ShutBy(l.obs, i, j) && (l.obs[j].node.id !in d.ids || j < n)
  }

  lemma ApplyStepKeepsShut(l: L, n: nat, d: Decisions, i: nat)
    requires UniqueIds(Nodes(l.obs)) && n < |l.obs| && ShutSoFar(l, n, d, i)
    ensures ShutSoFar(ApplyOne(l, n, d), n + 1, d, i)
  {
    var j: nat :| ShutBy(l.obs, i, j) && (l.obs[j].node.id !in d.ids || j < n);
    ApplyOneKeepsShut(l, n, d, i, j);
    ApplyOneShape(l, n, d);
    var l' := ApplyOne(l, n, d);
    assert Nodes(l'.obs)[i] == Nodes(l.obs)[i] && Nodes(l'.obs)[j] == Nodes(l.obs)[j];
    if !ShutBy(l'.obs, i, j) {
      assert ShutBy(l'.obs, i, n) && n < n + 1;
    }
  }

  lemma NextKeepsShut(l: L, n: nat, d: Decisions, i: nat, next: L)
    requires UniqueIds(Nodes(l.obs)) && n < |l.obs| && ShutSoFar(l, n, d, i) && next == ApplyOne(l, n, d)
    ensures UniqueIds(Nodes(next.obs)) && |next.obs| == |l.obs| && ShutSoFar(next, n + 1, d, i)
  {
    ApplyStepKeepsShut(l, n, d, i);
    ApplyOneShape(l, n, d);
  }

  lemma {:induction false} ApplyKeepsShut(l: L, n: nat, d: Decisions, i: nat, end: L)
    requires UniqueIds(Nodes(l.obs)) && n <= |l.obs| && ShutSoFar(l, n, d, i) && end == ApplyRange(l, n, |l.obs|, d)
    ensures ShutSoFar(end, |l.obs|, d, i)
    decreases |l.obs| - n
  {
    if n < |l.obs| {
      var next := ApplyOne(l, n, d);
      NextKeepsShut(l, n, d, i, next);
      ApplyKeepsShut(next, n + 1, d, i, end);
    }
  }

  lemma ShutIsNotPending(obs: seq<Ob>, i: nat, j: nat)
    requires UniqueIds(Nodes(obs)) && ShutBy(obs, i, j)
    ensures obs[i].node.id !in PendingIds(obs) && obs[j].node.id !in PendingIds(obs)
  {
    forall k | 0 <= k < |obs| && PendingAt(obs, k)
      ensures obs[k].node.id != obs[i].node.id && obs[k].node.id != obs[j].node.id
    {
      assert Nodes(obs)[k].id == obs[k].node.id && Nodes(obs)[i].id == obs[i].node.id && Nodes(obs)[j].id == obs[j].node.id;
    }
  }

  lemma VerdictsKeepShut(l: L, d: Decisions, i: nat)
    requires UniqueIds(Nodes(l.obs)) && d.ids <= PendingIds(l.obs) && Shut(l.obs, i)
    ensures Shut(ApplyVerdicts(l, d).obs, i)
  {
    var j: nat :| ShutBy(l.obs, i, j);
    ShutIsNotPending(l.obs, i, j);
    ApplyKeepsShut(l, 0, d, i, ApplyRange(l, 0, |l.obs|, d));
  }

  lemma {:induction false} AuditKeepsShut(a: AuditLog, equiv: Equivalence, i: nat, k: nat)
    requires i <= |a.obs| && k < |a.obs|
    ensures var o, o' := a.obs[k], AuditFrom(a, equiv, i).obs[k];
            o'.node == o.node && o'.kind == o.kind && o'.quarantineRoot == o.quarantineRoot &&
            (!o.status.Unresolved? ==> o'.status == o.status)
    decreases |a.obs| - i
  {
    if i < |a.obs| {
      AuditKeepsShut(AuditOne(a, equiv, i), equiv, i + 1, k);
    }
  }

  lemma {:induction false} SuspectKeepsShut(obs: seq<Ob>, marks: seq<(Id, string)>, run: string, k: nat)
    requires UniqueIds(Nodes(obs)) && k < |obs|
    requires forall m :: 0 <= m < |marks| ==> marks[m].0 != obs[k].node.id
    ensures var o' := SuspectAll(obs, marks, run)[k];
            o'.node == obs[k].node && o'.kind == obs[k].kind && o'.status == obs[k].status &&
            o'.quarantineRoot == obs[k].quarantineRoot
    decreases |marks|
  {
    if marks != [] {
      var before := marks[..|marks| - 1];
      SuspectKeepsShut(obs, before, run, k);
      SuspectShape(obs, before, run);
    }
  }

  lemma BelowAppend(g: Graph, node: Node, x: Id, a: Id)
    requires SoundGraph(g) && !Known(g, node.id) && node.id != "" && x != node.id && a != ""
    ensures Below(g + [node], x, a) <==> Below(g, x, a)
  {
    ParentsAreKnown(g, node.id);
    if Below(g, x, a) {
      var n: nat :| n >= 1 && Up(g, x, n) == a;
      UpAppend(g, node, x, n);
    }
    if Below(g + [node], x, a) {
      var n: nat :| n >= 1 && Up(g + [node], x, n) == a;
      UpAppend(g, node, x, n);
    }
  }

  lemma ParentsAreKnown(g: Graph, other: Id)
    requires SoundGraph(g) && !Known(g, other) && other != ""
    ensures forall i :: 0 <= i < |g| ==> g[i].parent != other
  {
  }

  /** The status, the kind and the quarantine of obligation k are the same in both. */
  ghost predicate SameStanding(a: seq<Ob>, b: seq<Ob>, k: nat) {
    && k < |a| && k < |b| && b[k].node == a[k].node && b[k].kind == a[k].kind
    && b[k].status == a[k].status && b[k].quarantineRoot == a[k].quarantineRoot
  }

  lemma PersistAtEffect(l: L, p: nat, target: Id, c: Certificate, run: string, k: nat)
    requires p < |l.obs| && k < |l.obs|
    ensures SameStanding(l.obs, PersistAt(l, p, target, c, run).0.obs, k)
  {
  }

  lemma PersistEffect(l: L, target: Id, c: Certificate, run: string, k: nat)
    requires k < |l.obs|
    ensures SameStanding(l.obs, Persist(l, target, c, run).0.obs, k)
  {
    var parent := IndexOf(Nodes(l.obs), target);
    if c.verified && parent.Some? {
      var p := parent.value;
      PersistAtEffect(At(l, p, FormalizeParent(l.obs[p], c)), p, target, c, run, k);
    }
  }

  lemma GrowthKeepsBelow(g: Graph, h: Graph, x: Id, a: Id)
    requires SoundGraph(g) && Grows(g, h) && Known(g, x) && a != ""
    ensures Below(h, x, a) <==> Below(g, x, a)
  {
    if h != g {
      BelowAppend(g, h[|g|], x, a);
    }
  }

  lemma PersistKeepsBelow(l: L, target: Id, c: Certificate, run: string, x: Id, a: Id)
    requires SoundGraph(Nodes(l.obs)) && Known(Nodes(l.obs), x) && a != ""
    ensures Below(Nodes(Persist(l, target, c, run).0.obs), x, a) <==> Below(Nodes(l.obs), x, a)
  {
    PersistGrows(l, target, c, run);
    GrowthKeepsBelow(Nodes(l.obs), Nodes(Persist(l, target, c, run).0.obs), x, a);
  }

  lemma PersistKeepsShut(l: L, target: Id, c: Certificate, run: string, i: nat)
    requires SoundGraph(Nodes(l.obs)) && Shut(l.obs, i)
    ensures Shut(Persist(l, target, c, run).0.obs, i)
  {
    var j: nat :| ShutBy(l.obs, i, j);
    var g := Nodes(l.obs);
    assert g[i] == l.obs[i].node && g[j] == l.obs[j].node && Known(g, g[i].id);
    PersistEffect(l, target, c, run, i);
    PersistEffect(l, target, c, run, j);
    PersistKeepsBelow(l, target, c, run, g[i].id, g[j].id);
    assert ShutBy(Persist(l, target, c, run).0.obs, i, j);
  }

  lemma StepKeepsShut(l: L, e: Event, i: nat)
    requires WellFormed(l) && Legal(l, e) && Shut(l.obs, i)
    ensures Shut(Step(l, e).obs, i)
  {
    var j: nat :| ShutBy(l.obs, i, j);
    match e
    case Audited(equiv) =>
      AuditShape(AuditLog(l.obs, []), equiv, 0);
      AuditKeepsShut(AuditLog(l.obs, []), equiv, 0, i);
      AuditKeepsShut(AuditLog(l.obs, []), equiv, 0, j);
      assert ShutBy(Step(l, e).obs, i, j);
    case Checkpointed(marks, run) =>
      ShutIsNotPending(l.obs, i, j);
      SuspectShape(l.obs, marks, run);
      SuspectKeepsShut(l.obs, marks, run, i);
      SuspectKeepsShut(l.obs, marks, run, j);
      assert ShutBy(Step(l, e).obs, i, j);
    case Decided(d) => VerdictsKeepShut(l, d, i);
    case ChildPersisted(target, c, run) => PersistKeepsShut(l, target, c, run, i);
  }

  lemma {:induction false} RunKeepsShut(l: L, events: seq<Event>, i: nat)
    requires WellFormed(l) && LegalRun(l, events) && Shut(l.obs, i)
    ensures Shut(Run(l, events).obs, i)
    decreases |events|
  {
    if events != [] {
      var before := events[..|events| - 1];
      RunKeepsShut(l, before, i);
      RunKeepsWellFormed(l, before);
      StepKeepsShut(Run(l, before), events[|events| - 1], i);
    }
  }

  /**
   * Once an obligation is premise-invalidated, every later run whose verdicts concern pending obligations
   * leaves it DISPROVED as a premise, or QUARANTINED under a strict ancestor that is; and nothing below it,
   * present then or added since, is ever pending.
   */
  lemma InvalidationIsFinal(l: L, events: seq<Event>, i: nat)
    requires WellFormed(l) && LegalRun(l, events) && i < |l.obs| && Dead(l.obs[i])
    ensures var obs := Run(l, events).obs;
            && i < |obs|
            && (Dead(obs[i]) || (obs[i].status.Quarantined? && exists j: nat :: j != i && ShutBy(obs, i, j)))
            && forall k :: 0 <= k < |obs| && (k == i || Below(Nodes(obs), obs[k].node.id, obs[i].node.id)) ==>
                 !PendingAt(obs, k)
  {
    assert ShutBy(l.obs, i, i);
    RunKeepsShut(l, events, i);
    RunKeepsWellFormed(l, events);
    var obs := Run(l, events).obs;
    var j: nat :| ShutBy(obs, i, j);
    assert IsInvalid(obs[i]);
    forall k | 0 <= k < |obs| && (k == i || Below(Nodes(obs), obs[k].node.id, obs[i].node.id)) ensures !PendingAt(obs, k) {
      NothingPendingBelowInvalid(obs, k, i);
    }
  }

  lemma KilledIsShut(l: L, n: nat, d: Decisions)
    requires n < |l.obs| && Acts(d, l.obs[n]) && Invalidates(d, l.obs[n])
    ensures ShutSoFar(ApplyOne(l, n, d), n + 1, d, n)
  {
    ApplyOneKills(l, n, d);
    assert ShutBy(ApplyOne(l, n, d).obs, n, n);
  }
}
