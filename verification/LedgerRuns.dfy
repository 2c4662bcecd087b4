// Runs of ledger operations: the graph stays well formed, and an invalidated premise stays shut.
module LedgerRuns {
  import opened Wrappers
  import opened Evidence
  import opened LedgerGraph
  import opened LedgerModel

  datatype Event =
    | Audited(equiv: Equivalence)
    | Checkpointed(marks: seq<(Id, string)>, run: string)
    | Decided(d: Decisions)
    | ChildPersisted(target: Id, c: Certificate, run: string)

  ghost function Step(l: L, e: Event): L {
    match e
    case Audited(equiv) => AuditDuplicates(l, equiv)
    case Checkpointed(marks, run) => Checkpoint(l, marks, run)
    case Decided(d) => ApplyVerdicts(l, d)
    case ChildPersisted(target, c, run) => Persist(l, target, c, run).0
  }

  /** Suspicions and verdicts are about pending obligations. */
  ghost predicate Legal(l: L, e: Event) {
    match e
    case Checkpointed(marks, _) => forall k :: 0 <= k < |marks| ==> marks[k].0 in PendingIds(l.obs)
    case Decided(d) => d.ids <= PendingIds(l.obs)
    case _ => true
  }

  ghost function Run(l: L, events: seq<Event>): L {
    if events == [] then l else Step(Run(l, events[..|events| - 1]), events[|events| - 1])
  }

  ghost predicate LegalRun(l: L, events: seq<Event>) {
    events == [] ||
    (LegalRun(l, events[..|events| - 1]) && Legal(Run(l, events[..|events| - 1]), events[|events| - 1]))
  }

  // ---- shape ----

  lemma ReviewShape(l: L, n: nat, review: Option<Review>)
    requires n < |l.obs|
    ensures Nodes(AfterReview(l, n, review).obs) == Nodes(l.obs)
    ensures UniqueLessons(l.lessons) ==> UniqueLessons(AfterReview(l, n, review).lessons)
  {
  }

  lemma TeachUnique(lessons: seq<Lesson>, n: Lesson)
    requires UniqueLessons(lessons)
    ensures UniqueLessons(Teach(lessons, n))
  {
  }

  lemma StatusShape(l: L, n: nat, v: Verdict, review: Option<Review>, hash: Digest, run: string)
    requires n < |l.obs|
    ensures Nodes(AfterStatus(l, n, v, review, hash, run).obs) == Nodes(l.obs)
    ensures UniqueLessons(l.lessons) ==> UniqueLessons(AfterStatus(l, n, v, review, hash, run).lessons)
  {
    if UniqueLessons(l.lessons) && review.Some? {
      TeachUnique(l.lessons, Lesson(hash, v.premise, v.evidence, l.obs[n].node.id, run, review.value.provenance, Active));
    }
  }

  lemma KindShape(l: L, n: nat, kind: Kind, run: string)
    requires n < |l.obs|
    ensures Nodes(AfterKind(l, n, kind, run).obs) == Nodes(l.obs)
    ensures AfterKind(l, n, kind, run).lessons == l.lessons
  {
  }

  lemma ApplyOneShape(l: L, n: nat, d: Decisions)
    requires n < |l.obs|
    ensures Nodes(ApplyOne(l, n, d).obs) == Nodes(l.obs)
    ensures UniqueLessons(l.lessons) ==> UniqueLessons(ApplyOne(l, n, d).lessons)
  {
    var o := l.obs[n];
    var v, review := VerdictFor(d, o.node.id), ReviewFor(d, o.node.id);
    var reviewed := AfterReview(l, n, review);
    var decided := AfterStatus(reviewed, n, v, review, HashFor(d, o.node.id), d.run);
    ReviewShape(l, n, review);
    StatusShape(reviewed, n, v, review, HashFor(d, o.node.id), d.run);
    var stamped := At(decided, n, Stamp(decided.obs[n], v, d.run));
    assert Nodes(stamped.obs) == Nodes(decided.obs);
    KindShape(stamped, n, v.kind, d.run);
  }

  lemma {:induction false} ApplyShape(l: L, i: nat, n: nat, d: Decisions)
    requires i <= n <= |l.obs|
    ensures Nodes(ApplyRange(l, i, n, d).obs) == Nodes(l.obs)
    ensures UniqueLessons(l.lessons) ==> UniqueLessons(ApplyRange(l, i, n, d).lessons)
    decreases n - i
  {
    if i < n {
      ApplyOneShape(l, i, d);
      ApplyShape(ApplyOne(l, i, d), i + 1, n, d);
    }
  }

  lemma {:induction false} ApplySplits(l: L, i: nat, k: nat, n: nat, d: Decisions)
    requires i <= k <= n <= |l.obs|
    ensures ApplyRange(l, i, n, d) == ApplyRange(ApplyRange(l, i, k, d), k, n, d)
    decreases k - i
  {
    if i < k {
      ApplySplits(ApplyOne(l, i, d), i + 1, k, n, d);
    }
  }

  lemma AuditOneShape(a: AuditLog, equiv: Equivalence, i: nat)
    requires i < |a.obs|
    ensures Nodes(AuditOne(a, equiv, i).obs) == Nodes(a.obs)
  {
  }

  lemma {:induction false} AuditShape(a: AuditLog, equiv: Equivalence, i: nat)
    requires i <= |a.obs|
    ensures Nodes(AuditFrom(a, equiv, i).obs) == Nodes(a.obs)
    decreases |a.obs| - i
  {
    if i < |a.obs| {
      AuditOneShape(a, equiv, i);
      AuditShape(AuditOne(a, equiv, i), equiv, i + 1);
    }
  }

  lemma {:induction false} SuspectShape(obs: seq<Ob>, marks: seq<(Id, string)>, run: string)
    ensures Nodes(SuspectAll(obs, marks, run)) == Nodes(obs)
    decreases |marks|
  {
    if marks != [] {
      SuspectShape(obs, marks[..|marks| - 1], run);
    }
  }

  lemma AppendKeepsSound(g: Graph, node: Node)
    requires SoundGraph(g) && node.id != "" && !Known(g, node.id) && Known(g, node.parent)
    ensures SoundGraph(g + [node])
  {
    var h := g + [node];
    IdSetAppend(g, node);
    forall i | 0 <= i < |g| ensures h[i].id != node.id {
      assert g[i].id in IdSet(g);
    }
  }

  lemma AppendKeepsOrder(g: Graph, node: Node)
    requires ParentsPrecede(g) && Known(g, node.parent)
    ensures ParentsPrecede(g + [node])
  {
    var h := g + [node];
    forall i | 0 <= i < |h| && h[i].parent != "" ensures exists j :: 0 <= j < i && h[j].id == h[i].parent {
      var j :| 0 <= j < |g| && (i < |g| ==> j < i) && g[j].id == h[i].parent;
      assert h[j].id == h[i].parent;
    }
  }

  /** A fresh leaf closes no cycle. */
  lemma AppendKeepsAcyclic(g: Graph, node: Node)
    requires SoundGraph(g) && node.id != "" && !Known(g, node.id) && Known(g, node.parent) && Acyclic(g)
    ensures Acyclic(g + [node])
  {
    var h := g + [node];
    IdSetAppend(g, node);
    forall x, n: nat | Known(h, x) && n >= 1 ensures Up(h, x, n) != x {
      if x == node.id {
        AppendKeepsSound(g, node);
        IndexIsUnique(h, |g|);
        UpShift(h, x, n - 1);
        UpAppend(g, node, node.parent, n - 1);
      } else {
        UpAppend(g, node, x, n);
      }
    }
  }

  lemma PersistShape(l: L, target: Id, c: Certificate, run: string)
    ensures var r := Persist(l, target, c, run).0;
            && r.lessons == l.lessons
            && |l.obs| <= |r.obs| <= |l.obs| + 1
            && Nodes(r.obs) == Nodes(l.obs) + Nodes(r.obs)[|l.obs|..]
            && (|r.obs| > |l.obs| ==>
                 && Nodes(r.obs)[|l.obs|] == Node(ChildId(target, c), c.statement, target)
                 && Known(Nodes(l.obs), target) && !Known(Nodes(l.obs), ChildId(target, c)))
  {
  }

  /** A step appends at most one fresh leaf below an existing obligation, and moves nothing. */
  ghost predicate Grows(g: Graph, h: Graph) {
    h == g || (|h| == |g| + 1 && h == g + [h[|g|]] && h[|g|].id != "" && !Known(g, h[|g|].id) && Known(g, h[|g|].parent))
  }

  lemma PersistGrows(l: L, target: Id, c: Certificate, run: string)
    ensures Grows(Nodes(l.obs), Nodes(Persist(l, target, c, run).0.obs))
  {
    var g, h := Nodes(l.obs), Nodes(Persist(l, target, c, run).0.obs);
    PersistShape(l, target, c, run);
    if |h| == |g| {
      assert h[|g|..] == [];
    } else {
      assert h[|g|..] == [h[|g|]] && |ChildId(target, c)| > 0;
    }
  }

  lemma StepGrows(l: L, e: Event)
    ensures Grows(Nodes(l.obs), Nodes(Step(l, e).obs))
    ensures UniqueLessons(l.lessons) ==> UniqueLessons(Step(l, e).lessons)
  {
    match e
    case Audited(equiv) => AuditShape(AuditLog(l.obs, []), equiv, 0);
    case Checkpointed(marks, run) => SuspectShape(l.obs, marks, run);
    case Decided(d) => ApplyShape(l, 0, |l.obs|, d);
    case ChildPersisted(target, c, run) =>
      PersistGrows(l, target, c, run);
      PersistShape(l, target, c, run);
  }

  /**
   * Every step keeps ids unique, parents existing and lesson hashes unique; it creates no cycle of parent links,
   * and keeps parents listed before their children if they were.
   */
  lemma StepKeepsWellFormed(l: L, e: Event)
    requires WellFormed(l)
    ensures WellFormed(Step(l, e))
    ensures Acyclic(Nodes(l.obs)) ==> Acyclic(Nodes(Step(l, e).obs))
    ensures ParentsPrecede(Nodes(l.obs)) ==> ParentsPrecede(Nodes(Step(l, e).obs))
  {
    var g, h := Nodes(l.obs), Nodes(Step(l, e).obs);
    StepGrows(l, e);
    if h != g {
      AppendKeepsSound(g, h[|g|]);
      if Acyclic(g) {
        AppendKeepsAcyclic(g, h[|g|]);
      }
      if ParentsPrecede(g) {
        AppendKeepsOrder(g, h[|g|]);
      }
    }
  }

  /** So does every run. */
  lemma {:induction false} RunKeepsWellFormed(l: L, events: seq<Event>)
    requires WellFormed(l)
    ensures WellFormed(Run(l, events))
    ensures Acyclic(Nodes(l.obs)) ==> Acyclic(Nodes(Run(l, events).obs))
    ensures ParentsPrecede(Nodes(l.obs)) ==> ParentsPrecede(Nodes(Run(l, events).obs))
    decreases |events|
  {
    if events != [] {
      RunKeepsWellFormed(l, events[..|events| - 1]);
      StepKeepsWellFormed(Run(l, events[..|events| - 1]), events[|events| - 1]);
    }
  }
}
