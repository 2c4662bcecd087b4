// The ledger as the program keeps it: objects updated in place, proved against the ledger on values.
module ProofLedger {
  import opened Wrappers
  import opened Evidence
  import opened LedgerGraph
  import opened LedgerModel
  import opened LedgerFrontier
  import opened Critic

  function Awaiting(o: Ob, below: set<Id>, root: Id, run: string): Ob {
    if o.node.id in below then o.(tempRoot := root, tempRun := run) else o
  }

  function HeldFor(o: Ob, root: Id, run: string, decider: Provenance): Ob {
    if HeldBy(o, root) then o
    else o.(quarantinePrior := o.status, status := Quarantined, quarantineRoot := root, quarantineRun := run,
            quarantineBy := decider, quarantineMark := Active)
  }

  function ReleasedFrom(o: Ob, root: Id): Ob {
    if o.quarantineRoot != root then o
    else o.(status := if o.status.Quarantined? then OrUnresolved(o.quarantinePrior) else o.status,
            quarantineRoot := "", quarantineRun := "", quarantinePrior := Blank, quarantineBy := NoProvenance,
            quarantineMark := Reversed)
  }

  function Refuting(o: Ob): Ob {
    o.(prior := if IsPremiseKind(o.kind) then o.prior else o.status,
       status := Disproved, kind := PremiseInvalidated, review := Invalidated)
  }

  function Rescuing(o: Ob, outcome: ReviewStatus): Ob {
    if IsPremiseKind(o.kind)
    then o.(status := OrUnresolved(o.prior), kind := NoKind, prior := Blank, review := outcome)
    else o.(review := outcome)
  }

  class Obligation {
    const id: Id
    const statement: string
    const parentId: Id
    var status: Status
    var kind: Kind
    var prior: Status
    var quarantineRoot: Id
    var quarantinePrior: Status
    var quarantineRun: string
    var quarantineBy: Provenance
    var quarantineMark: Mark
    var tempRoot: Id
    var tempRun: string
    var review: ReviewStatus
    var reviewBy: Provenance
    var reviewReason: string
    var evidence: string
    var lastRun: string
    var formal: Formal
    var leanHash: string
    var certificate: string
    var certificateMark: Mark

    ghost function View(): Ob
      reads this
    {
      Ob(Node(id, statement, parentId), status, kind, prior,
         quarantineRoot, quarantinePrior, quarantineRun, quarantineBy, quarantineMark, tempRoot, tempRun,
         review, reviewBy, reviewReason, evidence, lastRun, formal, leanHash, certificate, certificateMark)
    }

    constructor (o: Ob)
      ensures View() == o
    {
      id, statement, parentId := o.node.id, o.node.statement, o.node.parent;
      status, kind, prior := o.status, o.kind, o.prior;
      quarantineRoot, quarantinePrior, quarantineRun := o.quarantineRoot, o.quarantinePrior, o.quarantineRun;
      quarantineBy, quarantineMark, tempRoot, tempRun := o.quarantineBy, o.quarantineMark, o.tempRoot, o.tempRun;
      review, reviewBy, reviewReason := o.review, o.reviewBy, o.reviewReason;
      evidence, lastRun, formal, leanHash := o.evidence, o.lastRun, o.formal, o.leanHash;
      certificate, certificateMark := o.certificate, o.certificateMark;
    }

    method ClearTemporary(root: Id)
      modifies this
      ensures View() == ClearTempOne(old(View()), root)
    {
      if tempRoot == root {
        tempRoot, tempRun := "", "";
      }
    }

    method SetHold(root: Id, run: string, decider: Provenance, mark: Mark)
      modifies this
      ensures View() == old(View()).(quarantineRoot := root, quarantineRun := run, quarantineBy := decider, quarantineMark := mark)
    {
      quarantineRoot, quarantineRun, quarantineBy, quarantineMark := root, run, decider, mark;
    }

    method Quarantine(root: Id, run: string, decider: Provenance)
      modifies this
      ensures View() == HeldFor(old(View()), root, run, decider)
    {
      if !(status.Quarantined? && quarantineRoot == root && quarantineMark.Active?) {
        quarantinePrior, status := status, Quarantined;
        SetHold(root, run, decider, Active);
      }
    }

    method Release(root: Id)
      modifies this
      ensures View() == ReleasedFrom(old(View()), root)
    {
      if quarantineRoot == root {
        if status.Quarantined? {
          status := if quarantinePrior.Blank? then Unresolved else quarantinePrior;
        }
        quarantinePrior := Blank;
        SetHold("", "", NoProvenance, Reversed);
      }
    }

    method AwaitReview(root: Id, run: string)
      modifies this
      ensures View() == old(View()).(tempRoot := root, tempRun := run)
    {
      tempRoot, tempRun := root, run;
    }

    method Invalidate()
      modifies this
      ensures View() == Refuting(old(View()))
    {
      if !IsPremiseKind(kind) {
        prior := status;
      }
      status, kind, review := Disproved, PremiseInvalidated, Invalidated;
    }

    method Restore()
      modifies this
      ensures View() == old(View()).(status := OrUnresolved(old(prior)), kind := NoKind, prior := Blank)
    {
      status := if prior.Blank? then Unresolved else prior;
      kind, prior := NoKind, Blank;
    }

    method Rescue(outcome: ReviewStatus)
      modifies this
      ensures View() == Rescuing(old(View()), outcome)
    {
      if IsPremiseKind(kind) {
        Restore();
      }
      review := outcome;
    }

    method Record(r: Review)
      modifies this
      ensures View() == RecordReview(old(View()), r)
    {
      review, reviewBy, reviewReason := r.status, r.provenance, r.reason;
    }

    method Note(v: Verdict, run: string)
      modifies this
      ensures View() == Stamp(old(View()), v, run)
    {
      evidence, lastRun, kind := v.evidence, run, v.kind;
    }

    method Reject(duplicateOf: Id)
      modifies this
      ensures View() == Rejected(old(View()), duplicateOf)
    {
      status, evidence := RejectedDuplicate, "Semantic duplicate/cyclic descendant of " + duplicateOf + ".";
    }

    method Formalize(c: Certificate)
      modifies this
      ensures View() == FormalizeParent(old(View()), c)
    {
      if formal.Unformalized? {
        formal, leanHash := Formalized, c.parentLeanHash;
      }
    }

    method Certify(c: Certificate)
      modifies this
      ensures View() == CertifyParent(old(View()), c)
    {
      certificate, certificateMark := c.hash, Active;
    }
  }

  class NoGoLesson {
    const claimHash: Digest
    var premise: string
    var evidence: string
    var source: Id
    var run: string
    var decidedBy: Provenance
    var mark: Mark

    ghost function View(): Lesson
      reads this
    {
      Lesson(claimHash, premise, evidence, source, run, decidedBy, mark)
    }

    constructor (n: Lesson)
      ensures View() == n
    {
      claimHash, premise, evidence, source := n.claimHash, n.premise, n.evidence, n.source;
      run, decidedBy, mark := n.run, n.decidedBy, n.mark;
    }
  }

  /** Ids, statements and parents never change. */
  function Tree(os: seq<Obligation>): (g: Graph)
    ensures |g| == |os| && forall i :: 0 <= i < |os| ==> g[i] == Node(os[i].id, os[i].statement, os[i].parentId)
  {
    seq(|os|, i requires 0 <= i < |os| => Node(os[i].id, os[i].statement, os[i].parentId))
  }

  ghost function Views(os: seq<Obligation>): (r: seq<Ob>)
    reads os
    ensures |r| == |os| && forall i :: 0 <= i < |os| ==> r[i] == os[i].View()
    ensures Nodes(r) == Tree(os)
  {
    seq(|os|, i requires 0 <= i < |os| reads os => os[i].View())
  }

  ghost function LessonViews(ls: seq<NoGoLesson>): (r: seq<Lesson>)
    reads ls
    ensures |r| == |ls| && forall i :: 0 <= i < |ls| ==> r[i] == ls[i].View()
  {
    seq(|ls|, i requires 0 <= i < |ls| reads ls => ls[i].View())
  }

  /** Objects whose id is in `rest` are still as before; the others have reached their goal. */
  ghost predicate AllBut(os: seq<Obligation>, before: seq<Ob>, goal: seq<Ob>, rest: set<Id>)
    reads os
  {
    |before| == |os| == |goal| &&
    forall k :: 0 <= k < |os| ==> os[k].View() == if os[k].id in rest then before[k] else goal[k]
  }

  /** The first n objects have reached their goal; the others are still as before. */
  ghost predicate UpTo(os: seq<Obligation>, before: seq<Ob>, goal: seq<Ob>, n: nat)
    reads os
  {
    |before| == |os| == |goal| &&
    forall k :: 0 <= k < |os| ==> os[k].View() == if k < n then goal[k] else before[k]
  }

  class ProofObligationLedger {
    var obligations: seq<Obligation>
    var lessons: seq<NoGoLesson>
    var version: nat
    var backjumpTargetId: Id

    /** What the loader checks: unique ids, unique claim hashes. Both rest on fields that never change. */
    ghost predicate Valid()
      reads this
    {
      && UniqueIds(Tree(obligations))
      && forall i, j :: 0 <= i < j < |lessons| ==> lessons[i].claimHash != lessons[j].claimHash
    }

    ghost function State(): L
      reads this, obligations, lessons
    {
      L(Views(obligations), LessonViews(lessons), version, backjumpTargetId)
    }

    constructor (l: L)
      requires UniqueIds(Nodes(l.obs)) && UniqueLessons(l.lessons)
      ensures Valid() && State() == l
    {
      var os: seq<Obligation>, ls: seq<NoGoLesson> := [], [];
      for i := 0 to |l.obs|
        invariant |os| == i && forall k :: 0 <= k < i ==> os[k].View() == l.obs[k]
      {
        var o := new Obligation(l.obs[i]);
        os := os + [o];
      }
      for i := 0 to |l.lessons|
        invariant |os| == |l.obs| && forall k :: 0 <= k < |os| ==> os[k].View() == l.obs[k]
        invariant |ls| == i && forall k :: 0 <= k < i ==> ls[k].View() == l.lessons[k]
      {
        var n := new NoGoLesson(l.lessons[i]);
        ls := ls + [n];
      }
      obligations, lessons, version, backjumpTargetId := os, ls, l.version, l.backjump;
      new;
      assert Nodes(l.obs) == Tree(obligations);
      assert Views(obligations) == l.obs && LessonViews(lessons) == l.lessons;
      assert forall i, j :: 0 <= i < j < |lessons| ==> l.lessons[i].claimHash != l.lessons[j].claimHash;
    }

    /** The loader checks version, ledger id, and for obligations, unique ids and claim hashes, known parents but oneself. */
    static method Load(schemaVersion: int, ledgerId: string, l: L) returns (r: Option<ProofObligationLedger>)
      ensures r.Some? <==> schemaVersion == 1 && ledgerId != "" && LoaderAccepts(l.obs) && UniqueLessons(l.lessons)
      ensures r.Some? ==> r.value.Valid() && fresh(r.value) && r.value.State() == l
      ensures r.Some? && NamedIds(Nodes(l.obs)) ==> WellFormed(l)
    {
      ghost var g := Nodes(l.obs);
      var ids, unique := CollectIds(l.obs);
      var taught := UniqueHashes(l.lessons);
      if schemaVersion != 1 || ledgerId == "" || l.obs == [] || !unique || !taught {
        return None;
      }
      for i := 0 to |l.obs|
        invariant forall k :: 0 <= k < i && g[k].parent != "" ==> g[k].parent in ids && g[k].parent != g[k].id
      {
        var o := l.obs[i].node;
        if o.parent != "" && (o.parent !in ids || o.parent == o.id) {
          assert g[i] == o;
          return None;
        }
      }
      var ledger := new ProofObligationLedger(l);
      return Some(ledger);
    }

    static method CollectIds(obs: seq<Ob>) returns (ids: set<Id>, unique: bool)
      ensures ids == IdSet(Nodes(obs)) && (unique <==> UniqueIds(Nodes(obs)))
    {
      ids, unique := {}, true;
      ghost var g := Nodes(obs);
      for i := 0 to |obs|
        invariant ids == set k | 0 <= k < i :: g[k].id
        invariant unique <==> forall j, k :: 0 <= j < k < i ==> g[j].id != g[k].id
      {
        assert g[i].id == obs[i].node.id;
        unique := unique && obs[i].node.id !in ids;
        ids := ids + {obs[i].node.id};
      }
    }

    static method UniqueHashes(lessons: seq<Lesson>) returns (unique: bool)
      ensures unique <==> UniqueLessons(lessons)
    {
      unique := true;
      var hashes := {};
      for i := 0 to |lessons|
        invariant hashes == set k | 0 <= k < i :: lessons[k].claimHash
        invariant unique <==> forall j, k :: 0 <= j < k < i ==> lessons[j].claimHash != lessons[k].claimHash
      {
        unique := unique && lessons[i].claimHash !in hashes;
        hashes := hashes + {lessons[i].claimHash};
      }
    }

    method BumpVersion()
      modifies this`version
      ensures State() == old(State()).(version := old(version) + 1)
    {
      version := version + 1;
    }

    method SetTarget(target: Id)
      modifies this`backjumpTargetId
      ensures State() == old(State()).(backjump := target)
    {
      backjumpTargetId := target;
    }

    // ---- lookups and walks ----

    method Lookup(id: Id) returns (r: Option<nat>)
      requires Valid()
      ensures r == IndexOf(Tree(obligations), id)
    {
      for i := 0 to |obligations|
        invariant forall k :: 0 <= k < i ==> obligations[k].id != id
      {
        if obligations[i].id == id {
          IndexIsUnique(Tree(obligations), i);
          return Some(i);
        }
      }
      return None;
    }

    method DescendantIds(root: Id) returns (r: set<Id>)
      requires Valid()
      ensures r == Descendants(Tree(obligations), root)
    {
      r := LedgerGraph.DescendantIds(Tree(obligations), root);
    }

    lemma InvalidExactlyAt(i: nat)
      requires Valid() && i < |obligations|
      ensures obligations[i].id in InvalidIds(Views(obligations)) <==> IsInvalid(Views(obligations)[i])
    {
      var g, obs := Tree(obligations), Views(obligations);
      forall j | 0 <= j < |obs| && obs[j].node.id == obligations[i].id ensures j == i {
        assert g[j].id == g[i].id;
      }
    }

    method HasInvalidAncestor(i: nat) returns (found: bool)
      requires Valid() && i < |obligations|
      ensures found <==> LedgerModel.HasInvalidAncestor(Views(obligations), i)
    {
      var cursor, visited := obligations[i].parentId, {};
      ghost var g, hits := Tree(obligations), InvalidIds(Views(obligations));
      while cursor != "" && cursor !in visited
        invariant FirstUp(g, cursor, visited, hits) == FirstUp(g, obligations[i].parentId, {}, hits)
        decreases IdSet(g) - visited
      {
        WalkStep(g, cursor, visited, hits);
        var ancestor := Lookup(cursor);
        if ancestor == None {
          return false;
        }
        var a := obligations[ancestor.value];
        InvalidExactlyAt(ancestor.value);
        if a.status == Quarantined || (a.status == Disproved && a.kind in {Premise, PremiseInvalidated}) {
          return true;
        }
        visited := visited + {cursor};
        cursor := a.parentId;
      }
      return false;
    }

    // ---- suspicion, invalidation, reversal ----

    method AwaitReviewOf(id: Id, root: Id, run: string, ghost before: seq<Ob>, ghost goal: seq<Ob>, ghost rest: set<Id>)
      requires Valid() && id in rest && id in IdSet(Tree(obligations)) && AllBut(obligations, before, goal, rest)
      requires forall k :: 0 <= k < |goal| && before[k].node.id == id ==> goal[k] == before[k].(tempRoot := root, tempRun := run)
      modifies obligations
      ensures AllBut(obligations, before, goal, rest - {id})
    {
      var k := Lookup(id);
      ghost var g := Tree(obligations);
      assert forall j :: 0 <= j < |obligations| && j != k.value ==> g[j].id != g[k.value].id;
      obligations[k.value].AwaitReview(root, run);
    }

    /** Temporary marks on everything below, in whatever order. */
    method AwaitReviewBelow(root: Id, run: string, ghost before: seq<Ob>, ghost goal: seq<Ob>)
      requires Valid() && before == Views(obligations)
      requires |goal| == |before|
      requires forall k :: 0 <= k < |goal| ==> goal[k] == Awaiting(before[k], Descendants(Tree(obligations), root), root, run)
      modifies obligations
      ensures Views(obligations) == goal
    {
      var below := DescendantIds(root);
      var rest := below;
      while rest != {}
        invariant rest <= below && AllBut(obligations, before, goal, rest)
      {
        var id :| id in rest;
        AwaitReviewOf(id, root, run, before, goal, rest);
        rest := rest - {id};
      }
    }

    method MarkPremiseSuspected(target: Obligation, run: string)
      requires Valid() && target in obligations
      modifies obligations
      ensures Views(obligations) == MarkSuspected(old(Views(obligations)), target.id, run)
    {
      ghost var goal := MarkSuspected(Views(obligations), target.id, run);
      target.review := Suspected;
      AwaitReviewBelow(target.id, run, Views(obligations), goal);
    }

    method ClearTemporaryQuarantine(root: Id)
      requires Valid()
      modifies obligations
      ensures Views(obligations) == ClearTemp(old(Views(obligations)), root)
    {
      ghost var before, goal := Views(obligations), ClearTemp(Views(obligations), root);
      for i := 0 to |obligations|
        invariant UpTo(obligations, before, goal, i)
      {
        ClearTemporaryAt(i, root, before, goal);
      }
    }

    method ClearTemporaryAt(i: nat, root: Id, ghost before: seq<Ob>, ghost goal: seq<Ob>)
      requires Valid() && i < |obligations| && UpTo(obligations, before, goal, i) && goal[i] == ClearTempOne(before[i], root)
      modifies obligations[i]
      ensures UpTo(obligations, before, goal, i + 1)
    {
      ghost var g := Tree(obligations);
      assert forall j :: 0 <= j < |obligations| && j != i ==> g[j].id != g[i].id;
      obligations[i].ClearTemporary(root);
    }

    method QuarantineOf(id: Id, root: Id, run: string, decider: Provenance,
                        ghost before: seq<Ob>, ghost goal: seq<Ob>, ghost rest: set<Id>)
      requires Valid() && id in rest && id in IdSet(Tree(obligations)) && AllBut(obligations, before, goal, rest)
      requires forall k :: 0 <= k < |goal| && before[k].node.id == id ==> goal[k] == HeldFor(before[k], root, run, decider)
      modifies obligations
      ensures AllBut(obligations, before, goal, rest - {id})
    {
      var k := Lookup(id);
      ghost var g := Tree(obligations);
      assert forall j :: 0 <= j < |obligations| && j != k.value ==> g[j].id != g[k.value].id;
      obligations[k.value].Quarantine(root, run, decider);
    }

    method QuarantineBelow(root: Id, run: string, decider: Provenance, ghost before: seq<Ob>, ghost goal: seq<Ob>)
      requires Valid() && before == Views(obligations) && |goal| == |before|
      requires forall k :: 0 <= k < |goal| ==>
        goal[k] == if before[k].node.id in Descendants(Tree(obligations), root)
                   then HeldFor(before[k], root, run, decider) else before[k]
      modifies obligations
      ensures Views(obligations) == goal
    {
      var below := DescendantIds(root);
      var rest := below;
      while rest != {}
        invariant rest <= below && AllBut(obligations, before, goal, rest)
      {
        var id :| id in rest;
        QuarantineOf(id, root, run, decider, before, goal, rest);
        rest := rest - {id};
      }
    }

    method ReleaseOf(id: Id, root: Id, ghost before: seq<Ob>, ghost goal: seq<Ob>, ghost rest: set<Id>)
      requires Valid() && id in rest && id in IdSet(Tree(obligations)) && AllBut(obligations, before, goal, rest)
      requires forall k :: 0 <= k < |goal| && before[k].node.id == id ==> goal[k] == ReleasedFrom(before[k], root)
      modifies obligations
      ensures AllBut(obligations, before, goal, rest - {id})
    {
      var k := Lookup(id);
      ghost var g := Tree(obligations);
      assert forall j :: 0 <= j < |obligations| && j != k.value ==> g[j].id != g[k.value].id;
      obligations[k.value].Release(root);
    }

    method ReleaseBelow(root: Id, ghost before: seq<Ob>, ghost goal: seq<Ob>)
      requires Valid() && before == Views(obligations) && |goal| == |before|
      requires forall k :: 0 <= k < |goal| ==>
        goal[k] == if before[k].node.id in Descendants(Tree(obligations), root)
                   then ReleasedFrom(before[k], root) else before[k]
      modifies obligations
      ensures Views(obligations) == goal
    {
      var below := DescendantIds(root);
      var rest := below;
      while rest != {}
        invariant rest <= below && AllBut(obligations, before, goal, rest)
      {
        var id :| id in rest;
        ReleaseOf(id, root, before, goal, rest);
        rest := rest - {id};
      }
    }

    /** The first lesson with this claim hash is overwritten; without one, a new lesson is appended. */
    method RecordLesson(n: Lesson)
      requires Valid()
      modifies this`lessons, lessons
      ensures Valid() && LessonViews(lessons) == Teach(old(LessonViews(lessons)), n)
      ensures old(lessons) <= lessons && forall k :: |old(lessons)| <= k < |lessons| ==> fresh(lessons[k])
    {
      for i := 0 to |lessons|
        invariant forall k :: 0 <= k < i ==> lessons[k].claimHash != n.claimHash
      {
        if lessons[i].claimHash == n.claimHash {
          var existing := lessons[i];
          assert LessonViews(lessons)[i].claimHash == n.claimHash;
          existing.premise, existing.evidence, existing.source := n.premise, n.evidence, n.source;
          existing.run, existing.decidedBy, existing.mark := n.run, n.decidedBy, n.mark;
          return;
        }
      }
      var lesson := new NoGoLesson(n);
      lessons := lessons + [lesson];
    }

    method ReverseLessonsOf(root: Id)
      requires Valid()
      modifies lessons
      ensures LessonViews(lessons) == ReverseLessons(old(LessonViews(lessons)), root)
    {
      ghost var before := LessonViews(lessons);
      for i := 0 to |lessons|
        invariant forall k :: 0 <= k < |lessons| ==>
          lessons[k].View() == if k < i then ReverseLessons(before, root)[k] else before[k]
      {
        if lessons[i].source == root && lessons[i].mark == Active {
          lessons[i].mark := Reversed;
        }
      }
    }

    method InvalidateAt(target: Obligation)
      requires Valid() && target in obligations
      modifies target
      ensures forall k :: 0 <= k < |obligations| ==>
        obligations[k].View() == if obligations[k].id == target.id
                                 then Refuting(old(Views(obligations))[k]) else old(Views(obligations))[k]
    {
      target.Invalidate();
    }

    method InvalidateObligations(target: Obligation, run: string, review: Review)
      requires Valid() && target in obligations
      modifies obligations
      ensures Views(obligations) == UpgradeObs(old(Views(obligations)), target.id, run, review)
    {
      ghost var was, below := Views(obligations), Descendants(Tree(obligations), target.id);
      ghost var mid := seq(|was|, k requires 0 <= k < |was| => UpgradeOne(was[k], target.id, below, run, review));
      InvalidateAt(target);
      QuarantineBelow(target.id, run, review.provenance, Views(obligations), mid);
      ClearTemporaryQuarantine(target.id);
      assert ClearTemp(mid, target.id) == UpgradeObs(was, target.id, run, review);
    }

    method UpgradeVerified(target: Obligation, n: Lesson, review: Review)
      requires Valid() && target in obligations
      modifies this`lessons, obligations, lessons
      ensures Valid()
      ensures Views(obligations) == UpgradeObs(old(Views(obligations)), target.id, n.run, review)
      ensures LessonViews(lessons) == Teach(old(LessonViews(lessons)), n)
      ensures old(lessons) <= lessons && forall k :: |old(lessons)| <= k < |lessons| ==> fresh(lessons[k])
    {
      ghost var before := LessonViews(lessons);
      InvalidateObligations(target, n.run, review);
      assert LessonViews(lessons) == before;
      RecordLesson(n);
    }

    method UpgradePremiseInvalidation(target: Obligation, premise: string, evidence: string, run: string,
                                      review: Option<Review>, boundClaimHash: Digest)
      requires Valid() && target in obligations
      modifies this`lessons, obligations, lessons
      ensures Valid()
      ensures State() == Upgrade(old(State()), target.id, premise, evidence, run, review, boundClaimHash)
      ensures old(lessons) <= lessons && forall k :: |old(lessons)| <= k < |lessons| ==> fresh(lessons[k])
    {
      if review.Some? && review.value.verified && boundClaimHash != NoDigest {
        var lesson := Lesson(boundClaimHash, premise, evidence, target.id, run, review.value.provenance, Active);
        UpgradeVerified(target, lesson, review.value);
      }
    }

    method RescueAt(root: Obligation, outcome: ReviewStatus)
      requires Valid() && root in obligations
      modifies root
      ensures forall k :: 0 <= k < |obligations| ==>
        obligations[k].View() == if obligations[k].id == root.id
                                 then Rescuing(old(Views(obligations))[k], outcome) else old(Views(obligations))[k]
    {
      root.Rescue(outcome);
    }

    method ReverseObligations(root: Obligation, review: Review)
      requires Valid() && root in obligations
      modifies obligations
      ensures Views(obligations) == ReverseObs(old(Views(obligations)), root.id, review)
    {
      ghost var was, below := Views(obligations), Descendants(Tree(obligations), root.id);
      ghost var mid := seq(|was|, k requires 0 <= k < |was| => ReverseOne(was[k], root.id, below, review));
      RescueAt(root, review.status);
      ReleaseBelow(root.id, Views(obligations), mid);
      ClearTemporaryQuarantine(root.id);
      assert ClearTemp(mid, root.id) == ReverseObs(was, root.id, review);
    }

    method ReverseTree(root: Obligation, review: Review)
      requires Valid() && root in obligations
      modifies obligations
      ensures State() == old(State()).(obs := ReverseObs(old(State()).obs, root.id, review))
    {
      ghost var taught := LessonViews(lessons);
      ReverseObligations(root, review);
      assert LessonViews(lessons) == taught;
    }

    method ForgetLessonsOf(root: Id)
      requires Valid()
      modifies lessons
      ensures State() == old(State()).(lessons := ReverseLessons(old(State()).lessons, root))
    {
      ghost var obs := Views(obligations);
      ReverseLessonsOf(root);
      assert Views(obligations) == obs;
    }

    method ReversePremiseInvalidation(rootId: Id, review: Review)
      requires Valid()
      modifies this`backjumpTargetId, obligations, lessons
      ensures State() == Reverse(old(State()), rootId, review)
    {
      var root := Lookup(rootId);
      if root.Some? {
        ReverseTree(obligations[root.value], review);
        ForgetLessonsOf(rootId);
        SetTarget("");
      }
    }

    // ---- the frontier ----

    method IsEligible(i: nat) returns (b: bool)
      requires Valid() && i < |obligations|
      ensures b <==> EligibleAt(Views(obligations), i)
      ensures b <==> obligations[i].id in EligibleIds(Views(obligations))
    {
      EligibleExactlyAt(i);
      b := obligations[i].status == Unresolved;
      if b {
        var shut := HasInvalidAncestor(i);
        b := !shut;
      }
    }

    method Eligible() returns (eligible: set<Id>)
      requires Valid()
      ensures eligible == EligibleIds(Views(obligations))
    {
      ghost var obs := Views(obligations);
      eligible := {};
      for i := 0 to |obligations|
        invariant eligible == set k | 0 <= k < i && EligibleAt(obs, k) :: obs[k].node.id
      {
        var b := IsEligible(i);
        if b {
          eligible := eligible + {obligations[i].id};
        }
      }
    }

    ghost predicate IsParentIn(eligible: set<Id>, p: Id, n: nat)
      requires n <= |obligations|
      reads this
    {
      p != "" && exists j :: 0 <= j < n && obligations[j].id in eligible && obligations[j].parentId == p
    }

    method ParentsOf(eligible: set<Id>) returns (parents: set<Id>)
      ensures forall p :: p in parents <==> IsParentIn(eligible, p, |obligations|)
    {
      parents := {};
      for i := 0 to |obligations|
        invariant forall p :: p in parents <==> IsParentIn(eligible, p, i)
      {
        if obligations[i].id in eligible && obligations[i].parentId != "" {
          parents := parents + {obligations[i].parentId};
        }
      }
    }

    lemma PendingExactlyWhen(i: nat)
      requires Valid() && i < |obligations|
      ensures PendingAt(Views(obligations), i) <==>
              var e := EligibleIds(Views(obligations));
              obligations[i].id in e && !IsParentIn(e, obligations[i].id, |obligations|)
    {
      var g, obs := Tree(obligations), Views(obligations);
      forall j, k | 0 <= j < |obs| && 0 <= k < |obs| && obs[j].node.id == obs[k].node.id ensures j == k {
        assert g[j].id == g[k].id;
      }
    }

    method SelectLeaves(eligible: set<Id>, parents: set<Id>) returns (r: seq<Id>)
      requires forall i :: 0 <= i < |obligations| ==>
        (PendingAt(Views(obligations), i) <==> obligations[i].id in eligible && obligations[i].id !in parents)
      ensures r == Pending(Views(obligations))
    {
      ghost var obs := Views(obligations);
      r := [];
      for i := 0 to |obligations|
        invariant r + PendingFrom(obs, i) == PendingFrom(obs, 0)
      {
        PendingStep(obs, i, r);
        if obligations[i].id in eligible && obligations[i].id !in parents {
          r := r + [obligations[i].id];
        }
      }
    }

    method PendingObligations() returns (r: seq<Id>)
      requires Valid()
      ensures r == Pending(Views(obligations))
    {
      var eligible := Eligible();
      var parents := ParentsOf(eligible);
      forall i | 0 <= i < |obligations|
        ensures PendingAt(Views(obligations), i) <==> obligations[i].id in eligible && obligations[i].id !in parents
      {
        PendingExactlyWhen(i);
      }
      r := SelectLeaves(eligible, parents);
    }

    /** One link of the backjump walk: whether the cursor is the target, or else where the walk goes on. */
    method Climb(cursor: Id, ghost visited: set<Id>, ghost g: Graph, ghost hits: set<Id>) returns (hit: bool, next: Option<Id>)
      requires Valid() && cursor != "" && cursor !in visited
      requires g == Tree(obligations) && hits == EligibleIds(Views(obligations))
      ensures FirstUp(g, cursor, visited, hits) ==
              if hit then Some(cursor)
              else if next == None then None else FirstUp(g, next.value, visited + {cursor}, hits)
      ensures next.Some? ==> cursor in IdSet(g)
    {
      WalkStep(g, cursor, visited, hits);
      var ancestor := Lookup(cursor);
      if ancestor == None {
        return false, None;
      }
      hit := IsEligible(ancestor.value);
      next := Some(obligations[ancestor.value].parentId);
    }

    /** The nearest strict ancestor that is UNRESOLVED with nothing invalid above it, or the empty id. */
    method BackjumpFrom(i: nat) returns (target: Id)
      requires Valid() && i < |obligations|
      ensures target == BackjumpTarget(Views(obligations), i)
    {
      var cursor, visited := obligations[i].parentId, {};
      ghost var g, hits := Tree(obligations), EligibleIds(Views(obligations));
      ghost var found := FirstUp(g, cursor, visited, hits);
      while cursor != "" && cursor !in visited
        invariant FirstUp(g, cursor, visited, hits) == found
        decreases IdSet(g) - visited
      {
        var hit, next := Climb(cursor, visited, g, hits);
        if hit {
          return cursor;
        }
        if next == None {
          return "";
        }
        visited := visited + {cursor};
        cursor := next.value;
      }
      return "";
    }

    lemma EligibleExactlyAt(i: nat)
      requires Valid() && i < |obligations|
      ensures obligations[i].id in EligibleIds(Views(obligations)) <==> EligibleAt(Views(obligations), i)
    {
      var g, obs := Tree(obligations), Views(obligations);
      forall j | 0 <= j < |obs| && obs[j].node.id == obligations[i].id ensures j == i {
        assert g[j].id == g[i].id;
      }
    }

    // ---- duplicate audit ----

    lemma EquivalentExactlyAt(equiv: Equivalence, i: nat, k: nat)
      requires Valid() && i < |obligations| && k < |obligations|
      ensures obligations[k].id in EquivalentIds(Views(obligations), equiv, i)
              <==> equiv(obligations[k].statement, obligations[i].statement)
    {
      var g, obs := Tree(obligations), Views(obligations);
      forall j | 0 <= j < |obs| && obs[j].node.id == obligations[k].id ensures j == k {
        assert g[j].id == g[k].id;
      }
      assert obs[k].node.statement == obligations[k].statement;
    }

    method DuplicateOf(equiv: Equivalence, i: nat) returns (r: Option<Id>)
      requires Valid() && i < |obligations|
      ensures r == FirstUp(Tree(obligations), obligations[i].parentId, {}, EquivalentIds(Views(obligations), equiv, i))
    {
      var cursor, visited := obligations[i].parentId, {};
      ghost var g, hits := Tree(obligations), EquivalentIds(Views(obligations), equiv, i);
      while cursor != "" && cursor !in visited
        invariant FirstUp(g, cursor, visited, hits) == FirstUp(g, obligations[i].parentId, {}, hits)
        decreases IdSet(g) - visited
      {
        WalkStep(g, cursor, visited, hits);
        var ancestor := Lookup(cursor);
        if ancestor == None {
          return None;
        }
        var a := obligations[ancestor.value];
        EquivalentExactlyAt(equiv, i, ancestor.value);
        if equiv(a.statement, obligations[i].statement) {
          return Some(a.id);
        }
        visited := visited + {cursor};
        cursor := a.parentId;
      }
      return None;
    }

    method RejectAt(i: nat, duplicateOf: Id)
      requires Valid() && i < |obligations|
      modifies obligations[i]
      ensures Views(obligations) == old(Views(obligations))[i := Rejected(old(Views(obligations))[i], duplicateOf)]
    {
      ghost var g := Tree(obligations);
      assert forall j :: 0 <= j < |obligations| && j != i ==> g[j].id != g[i].id;
      obligations[i].Reject(duplicateOf);
    }

    method AuditAt(equiv: Equivalence, i: nat, rejected: seq<Id>) returns (r: seq<Id>)
      requires Valid() && i < |obligations|
      modifies obligations[i]
      ensures AuditLog(Views(obligations), r) == AuditOne(AuditLog(old(Views(obligations)), rejected), equiv, i)
    {
      var item := obligations[i];
      r := rejected;
      if item.status == Unresolved && item.parentId != "" {
        var found := DuplicateOf(equiv, i);
        if found.Some? || item.parentId in rejected {
          RejectAt(i, if found.Some? then found.value else item.parentId);
          r := rejected + [item.id];
        }
      }
    }

    method AuditAll(equiv: Equivalence) returns (rejected: seq<Id>)
      requires Valid()
      modifies obligations
      ensures AuditLog(Views(obligations), rejected) == AuditFrom(AuditLog(old(Views(obligations)), []), equiv, 0)
    {
      ghost var end := AuditFrom(AuditLog(Views(obligations), []), equiv, 0);
      rejected := [];
      for i := 0 to |obligations|
        invariant AuditFrom(AuditLog(Views(obligations), rejected), equiv, i) == end
      {
        rejected := AuditAt(equiv, i, rejected);
      }
    }

    method AuditSemanticDuplicates(equiv: Equivalence) returns (rejected: seq<Id>)
      requires Valid()
      modifies this`version, obligations
      ensures State() == AuditDuplicates(old(State()), equiv)
      ensures rejected == AuditFrom(AuditLog(old(Views(obligations)), []), equiv, 0).rejected
    {
      ghost var taught := LessonViews(lessons);
      rejected := AuditAll(equiv);
      assert LessonViews(lessons) == taught;
      if rejected != [] {
        BumpVersion();
      }
    }

    // ---- verdicts ----

    method NoteReview(i: nat, review: Review)
      requires Valid() && i < |obligations|
      modifies obligations[i]
      ensures State() == At(old(State()), i, RecordReview(old(State()).obs[i], review))
    {
      ghost var g, taught := Tree(obligations), LessonViews(lessons);
      assert forall j :: 0 <= j < |obligations| && j != i ==> g[j].id != g[i].id;
      obligations[i].Record(review);
      assert LessonViews(lessons) == taught;
    }

    method ClearBelow(root: Id)
      requires Valid()
      modifies obligations
      ensures State() == old(State()).(obs := ClearTemp(old(State()).obs, root))
    {
      ghost var taught := LessonViews(lessons);
      ClearTemporaryQuarantine(root);
      assert LessonViews(lessons) == taught;
    }

    method ApplyReview(i: nat, review: Option<Review>)
      requires Valid() && i < |obligations|
      modifies this`backjumpTargetId, obligations, lessons
      ensures State() == AfterReview(old(State()), i, review)
    {
      if review.Some? {
        NoteReview(i, review.value);
        if review.value.status in {NotConfirmed, Rescued} {
          ReversePremiseInvalidation(obligations[i].id, review.value);
        } else if review.value.status == Inconclusive {
          ClearBelow(obligations[i].id);
        }
      }
    }

    method SetStatus(i: nat, status: Status)
      requires Valid() && i < |obligations|
      modifies obligations[i]
      ensures State() == At(old(State()), i, old(State()).obs[i].(status := status))
    {
      ghost var g, taught := Tree(obligations), LessonViews(lessons);
      assert forall j :: 0 <= j < |obligations| && j != i ==> g[j].id != g[i].id;
      obligations[i].status := status;
      assert LessonViews(lessons) == taught;
    }

    method ApplyStatus(i: nat, v: Verdict, review: Option<Review>, hash: Digest, run: string)
      requires Valid() && i < |obligations|
      modifies this`lessons, obligations, lessons
      ensures Valid()
      ensures State() == AfterStatus(old(State()), i, v, review, hash, run)
      ensures old(lessons) <= lessons && forall k :: |old(lessons)| <= k < |lessons| ==> fresh(lessons[k])
    {
      if v.kind.PremiseInvalidated? {
        UpgradePremiseInvalidation(obligations[i], v.premise, v.evidence, run, review, hash);
      } else {
        SetStatus(i, v.status);
      }
    }

    method StampAt(i: nat, v: Verdict, run: string)
      requires Valid() && i < |obligations|
      modifies obligations[i]
      ensures State() == At(old(State()), i, Stamp(old(State()).obs[i], v, run))
    {
      ghost var g, taught := Tree(obligations), LessonViews(lessons);
      assert forall j :: 0 <= j < |obligations| && j != i ==> g[j].id != g[i].id;
      obligations[i].Note(v, run);
      assert LessonViews(lessons) == taught;
    }

    method MarkAt(i: nat, run: string)
      requires Valid() && i < |obligations|
      modifies obligations
      ensures State() == old(State()).(obs := MarkSuspected(old(Views(obligations)), obligations[i].id, run))
    {
      ghost var taught := LessonViews(lessons);
      MarkPremiseSuspected(obligations[i], run);
      assert LessonViews(lessons) == taught;
    }

    method SetBackjump(i: nat)
      requires Valid() && i < |obligations|
      modifies this`backjumpTargetId
      ensures State() == old(State()).(backjump := BackjumpTarget(old(State()).obs, i))
    {
      var target := BackjumpFrom(i);
      SetTarget(target);
    }

    method ApplyKind(i: nat, kind: Kind, run: string)
      requires Valid() && i < |obligations|
      modifies this`backjumpTargetId, obligations
      ensures State() == AfterKind(old(State()), i, kind, run)
    {
      if kind.PremiseSuspected? {
        MarkAt(i, run);
      } else if kind.PremiseInvalidated? {
        SetBackjump(i);
      }
    }

    method FinishVerdict(i: nat, v: Verdict, run: string)
      requires Valid() && i < |obligations|
      modifies this`backjumpTargetId, obligations
      ensures State() == AfterKind(At(old(State()), i, Stamp(old(State()).obs[i], v, run)), i, v.kind, run)
    {
      StampAt(i, v, run);
      ApplyKind(i, v.kind, run);
    }

    method DecideVerdict(i: nat, v: Verdict, review: Option<Review>, hash: Digest, run: string)
      requires Valid() && i < |obligations|
      modifies this`lessons, this`backjumpTargetId, obligations, lessons
      ensures Valid()
      ensures State() == AfterStatus(AfterReview(old(State()), i, review), i, v, review, hash, run)
      ensures old(lessons) <= lessons && forall k :: |old(lessons)| <= k < |lessons| ==> fresh(lessons[k])
    {
      ApplyReview(i, review);
      ApplyStatus(i, v, review, hash, run);
    }

    method ApplyVerdict(i: nat, d: Decisions)
      requires Valid() && i < |obligations|
      modifies this`lessons, this`backjumpTargetId, obligations, lessons
      ensures Valid()
      ensures State() == ApplyOne(old(State()), i, d)
      ensures old(lessons) <= lessons && forall k :: |old(lessons)| <= k < |lessons| ==> fresh(lessons[k])
    {
      var id := obligations[i].id;
      if id in d.ids && obligations[i].status != Quarantined {
        var v, review := VerdictFor(d, id), ReviewFor(d, id);
        DecideVerdict(i, v, review, HashFor(d, id), d.run);
        FinishVerdict(i, v, d.run);
      }
    }

    lemma ApplyUnfolds(l: L, i: nat, d: Decisions)
      requires i < |l.obs|
      ensures ApplyRange(l, i, |l.obs|, d) == ApplyRange(ApplyOne(l, i, d), i + 1, |l.obs|, d)
    {
    }

    /** The verdicts from i on lead to `end`. */
    ghost predicate LeadsTo(i: nat, d: Decisions, end: L)
      reads this, obligations, lessons
    {
      i <= |obligations| && ApplyRange(State(), i, |obligations|, d) == end
    }

    method ApplyNext(i: nat, d: Decisions, ghost end: L)
      requires Valid() && i < |obligations| && LeadsTo(i, d, end)
      modifies this`lessons, this`backjumpTargetId, obligations, lessons
      ensures Valid() && LeadsTo(i + 1, d, end)
      ensures old(lessons) <= lessons && forall k :: |old(lessons)| <= k < |lessons| ==> fresh(lessons[k])
    {
      ApplyUnfolds(State(), i, d);
      ApplyVerdict(i, d);
    }

    method ApplyAll(d: Decisions)
      requires Valid()
      modifies this`lessons, this`backjumpTargetId, obligations, lessons
      ensures Valid()
      ensures State() == ApplyRange(old(State()), 0, |obligations|, d)
      ensures old(lessons) <= lessons && forall k :: |old(lessons)| <= k < |lessons| ==> fresh(lessons[k])
    {
      ghost var end := ApplyRange(State(), 0, |obligations|, d);
      for i := 0 to |obligations|
        invariant Valid() && LeadsTo(i, d, end)
        invariant old(lessons) <= lessons && forall k :: |old(lessons)| <= k < |lessons| ==> fresh(lessons[k])
      {
        ApplyNext(i, d, end);
      }
    }

    method ApplyDecisions(d: Decisions)
      requires Valid()
      modifies this`version, this`lessons, this`backjumpTargetId, obligations, lessons
      ensures Valid()
      ensures State() == ApplyVerdicts(old(State()), d)
      ensures old(lessons) <= lessons && forall k :: |old(lessons)| <= k < |lessons| ==> fresh(lessons[k])
    {
      ApplyAll(d);
      BumpVersion();
    }

    /** The hashes of the first i obligations have been collected, and no others. */
    ghost predicate Collected(h: Hashes, ids: set<Id>, i: nat)
      requires i <= |obligations|
      reads this, obligations
    {
      var all := LeanHashes(Views(obligations), ids);
      && (forall x :: x in h ==> x in all && h[x] == all[x])
      && (forall k :: 0 <= k < i && obligations[k].id in ids ==> obligations[k].id in h)
    }

    lemma CollectStep(h: Hashes, ids: set<Id>, i: nat)
      requires Valid() && i < |obligations| && Collected(h, ids, i)
      ensures var o := obligations[i];
              Collected(if o.id in ids then h[o.id := o.leanHash] else h, ids, i + 1)
    {
      IndexIsUnique(Tree(obligations), i);
    }

    lemma AllHashesCollected(h: Hashes, ids: set<Id>)
      requires Valid() && Collected(h, ids, |obligations|)
      ensures h == LeanHashes(Views(obligations), ids)
    {
      var all, g := LeanHashes(Views(obligations), ids), Tree(obligations);
      forall x | x in all ensures x in h {
        var k :| 0 <= k < |g| && g[k].id == x;
        assert obligations[k].id == x;
      }
    }

    method CollectLeanHashes(ids: set<Id>) returns (h: Hashes)
      requires Valid()
      ensures h == LeanHashes(Views(obligations), ids)
    {
      h := map[];
      for i := 0 to |obligations|
        invariant Collected(h, ids, i)
      {
        CollectStep(h, ids, i);
        if obligations[i].id in ids {
          h := h[obligations[i].id := obligations[i].leanHash];
        }
      }
      AllHashesCollected(h, ids);
    }

    method ReadDecisions(entries: seq<Entry>, ids: set<Id>, reviews: map<Id, Review>, meaningful: string -> bool, run: string)
      returns (d: Decisions)
      requires Valid()
      ensures d == DecisionsFrom(Views(obligations), entries, ids, reviews, meaningful, run)
    {
      var h := CollectLeanHashes(ids);
      var suspicions, _ := ExtractSuspicions(entries, ids, h, meaningful);
      var verdicts := ReadVerdicts(entries, ids, suspicions, reviews);
      d := Decisions(ids, verdicts, suspicions, reviews, run);
    }

    /** The critic's entries, read against the obligations the turn may touch, and applied in ledger order. */
    method ApplyCriticVerdicts(entries: seq<Entry>, ids: set<Id>, reviews: map<Id, Review>, meaningful: string -> bool, run: string)
      requires Valid()
      modifies this`version, this`lessons, this`backjumpTargetId, obligations, lessons
      ensures Valid()
      ensures State() == ApplyVerdicts(old(State()), DecisionsFrom(old(Views(obligations)), entries, ids, reviews, meaningful, run))
      ensures old(lessons) <= lessons && forall k :: |old(lessons)| <= k < |lessons| ==> fresh(lessons[k])
    {
      var d := ReadDecisions(entries, ids, reviews, meaningful, run);
      ApplyDecisions(d);
    }

    // ---- checkpointed suspicions ----

    method SuspectNote(i: nat, evidence: string, run: string)
      requires Valid() && i < |obligations|
      modifies obligations[i]
      ensures Views(obligations) == old(Views(obligations))[i :=
                old(Views(obligations))[i].(kind := PremiseSuspected, evidence := evidence, lastRun := run)]
    {
      ghost var g := Tree(obligations);
      assert forall j :: 0 <= j < |obligations| && j != i ==> g[j].id != g[i].id;
      obligations[i].Note(Verdict(Unresolved, evidence, PremiseSuspected, ""), run);
    }

    method Suspect(i: nat, evidence: string, run: string)
      requires Valid() && i < |obligations|
      modifies obligations
      ensures Views(obligations) == SuspectOne(old(Views(obligations)), i, evidence, run)
    {
      SuspectNote(i, evidence, run);
      MarkPremiseSuspected(obligations[i], run);
    }

    method SuspectAllOf(marks: seq<(Id, string)>, run: string)
      requires Valid()
      modifies obligations
      ensures Views(obligations) == SuspectAll(old(Views(obligations)), marks, run)
    {
      ghost var was := Views(obligations);
      for m := 0 to |marks|
        invariant Views(obligations) == SuspectAll(was, marks[..m], run)
      {
        assert marks[..m + 1][..m] == marks[..m];
        var k := Lookup(marks[m].0);
        if k.Some? {
          Suspect(k.value, marks[m].1, run);
        }
      }
      assert marks[..|marks|] == marks;
    }

    method CheckpointSuspicions(marks: seq<(Id, string)>, run: string)
      requires Valid()
      modifies this`version, obligations
      ensures State() == Checkpoint(old(State()), marks, run)
    {
      if marks != [] {
        ghost var taught := LessonViews(lessons);
        SuspectAllOf(marks, run);
        assert LessonViews(lessons) == taught;
        BumpVersion();
      }
    }

    // ---- certified children ----

    method FormalizeAt(i: nat, c: Certificate)
      requires Valid() && i < |obligations|
      modifies obligations[i]
      ensures State() == At(old(State()), i, FormalizeParent(old(State()).obs[i], c))
    {
      ghost var g, taught := Tree(obligations), LessonViews(lessons);
      assert forall j :: 0 <= j < |obligations| && j != i ==> g[j].id != g[i].id;
      obligations[i].Formalize(c);
      assert LessonViews(lessons) == taught;
    }

    method CertifyAt(i: nat, c: Certificate)
      requires Valid() && i < |obligations|
      modifies obligations[i]
      ensures State() == At(old(State()), i, CertifyParent(old(State()).obs[i], c))
    {
      ghost var g, taught := Tree(obligations), LessonViews(lessons);
      assert forall j :: 0 <= j < |obligations| && j != i ==> g[j].id != g[i].id;
      obligations[i].Certify(c);
      assert LessonViews(lessons) == taught;
    }

    method AppendChild(o: Ob)
      requires Valid() && !Known(Tree(obligations), o.node.id)
      modifies this`obligations
      ensures Valid() && State() == old(State()).(obs := old(State()).obs + [o])
      ensures |obligations| == |old(obligations)| + 1 && obligations[..|old(obligations)|] == old(obligations)
      ensures fresh(obligations[|old(obligations)|])
    {
      ghost var g, taught := Tree(obligations), LessonViews(lessons);
      var item := new Obligation(o);
      obligations := obligations + [item];
      assert forall k :: 0 <= k < |g| ==> g[k].id in IdSet(g);
      assert LessonViews(lessons) == taught;
    }

    method CreateChild(i: nat, targetId: Id, c: Certificate, run: string)
      requires Valid() && i < |obligations| && !Known(Tree(obligations), ChildId(targetId, c))
      modifies this`version, this`obligations, obligations
      ensures Valid()
      ensures State() == old(State()).(
                obs := old(State()).obs[i := CertifyParent(old(State()).obs[i], c)] + [ChildOf(targetId, c, run)],
                version := old(version) + 1)
    {
      CertifyAt(i, c);
      AppendChild(ChildOf(targetId, c, run));
      BumpVersion();
    }

    method FindOrCreate(i: nat, targetId: Id, c: Certificate, run: string) returns (e: Option<PersistError>)
      requires Valid() && i < |obligations|
      modifies this`version, this`obligations, obligations
      ensures Valid()
      ensures (State(), e) == PersistAt(old(State()), i, targetId, c, run)
    {
      var existing := Lookup(ChildId(targetId, c));
      if existing.Some? {
        return if obligations[existing.value].certificate != c.hash then Some(ChildIdCollision) else None;
      }
      CreateChild(i, targetId, c, run);
      return None;
    }

    method PersistVerifiedDecomposition(targetId: Id, c: Certificate, run: string) returns (e: Option<PersistError>)
      requires Valid()
      modifies this`version, this`obligations, obligations
      ensures Valid()
      ensures (State(), e) == Persist(old(State()), targetId, c, run)
    {
      if !c.verified {
        return None;
      }
      var parent := Lookup(targetId);
      if parent == None {
        return Some(NoSuchTarget);
      }
      FormalizeAt(parent.value, c);
      e := FindOrCreate(parent.value, targetId, c, run);
    }
  }
}
