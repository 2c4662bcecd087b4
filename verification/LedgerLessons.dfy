// No legal run undoes an invalidation: every lesson stays ACTIVE, and its source stays shut.
module LedgerLessons {
  import opened LedgerGraph
  import opened LedgerModel
  import opened LedgerRuns
  import opened LedgerClosure
  import opened LedgerCalls
  import opened LedgerOutcomes

  ghost predicate StandsAt(l: L, lesson: Lesson, i: nat) {
    i < |l.obs| && l.obs[i].node.id == lesson.source && Shut(l.obs, i)
  }

  /** The lesson is ACTIVE, and the obligation it comes from is shut. */
  ghost predicate Stands(l: L, lesson: Lesson) {
    lesson.mark.Active? && exists i: nat :: StandsAt(l, lesson, i)
  }

  ghost predicate LessonsStand(l: L) {
    forall k :: 0 <= k < |l.lessons| ==> Stands(l, l.lessons[k])
  }

  /** While verdicts are applied: the source is shut by a root that the remaining verdicts do not touch. */
  ghost predicate StandsSoFarAt(l: L, n: nat, d: Decisions, lesson: Lesson, i: nat) {
    i < |l.obs| && l.obs[i].node.id == lesson.source && ShutSoFar(l, n, d, i)
  }

  ghost predicate StandsSoFar(l: L, n: nat, d: Decisions, lesson: Lesson) {
    lesson.mark.Active? && exists i: nat :: StandsSoFarAt(l, n, d, lesson, i)
  }

  ghost predicate LessonsStandSoFar(l: L, n: nat, d: Decisions) {
    forall k :: 0 <= k < |l.lessons| ==> StandsSoFar(l, n, d, l.lessons[k])
  }

  lemma OldLessonStands(l: L, n: nat, d: Decisions, lesson: Lesson)
    requires UniqueIds(Nodes(l.obs)) && n < |l.obs| && StandsSoFar(l, n, d, lesson)
    ensures StandsSoFar(ApplyOne(l, n, d), n + 1, d, lesson)
    ensures l.obs[n].node.id in d.ids ==> lesson.source != l.obs[n].node.id
  {
    var i: nat :| StandsSoFarAt(l, n, d, lesson, i);
    ApplyStepKeepsShut(l, n, d, i);
    ApplyOneShape(l, n, d);
    SameNodesAt(l.obs, ApplyOne(l, n, d).obs, i);
    assert StandsSoFarAt(ApplyOne(l, n, d), n + 1, d, lesson, i);
    assert i != n ==> Nodes(l.obs)[i].id != Nodes(l.obs)[n].id;
  }

  /** A review reverses no lesson that stands: its source is not among the verdicts still to come. */
  lemma ReviewKeepsLessons(l: L, n: nat, d: Decisions)
    requires UniqueIds(Nodes(l.obs)) && n < |l.obs| && l.obs[n].node.id in d.ids && LessonsStandSoFar(l, n, d)
    ensures AfterReview(l, n, ReviewFor(d, l.obs[n].node.id)).lessons == l.lessons
  {
    forall k | 0 <= k < |l.lessons| ensures l.lessons[k].source != l.obs[n].node.id {
      OldLessonStands(l, n, d, l.lessons[k]);
    }
    assert ReverseLessons(l.lessons, l.obs[n].node.id) == l.lessons;
  }

  lemma NewLessonStands(l: L, n: nat, d: Decisions, lesson: Lesson)
    requires n < |l.obs| && Acts(d, l.obs[n]) && Invalidates(d, l.obs[n])
    requires lesson.mark.Active? && lesson.source == l.obs[n].node.id
    ensures StandsSoFar(ApplyOne(l, n, d), n + 1, d, lesson)
  {
    KilledIsShut(l, n, d);
    ApplyOneShape(l, n, d);
    SameNodesAt(l.obs, ApplyOne(l, n, d).obs, n);
    assert StandsSoFarAt(ApplyOne(l, n, d), n + 1, d, lesson, n);
  }

  lemma StepKeepsLessons(l: L, n: nat, d: Decisions, next: L)
    requires UniqueIds(Nodes(l.obs)) && n < |l.obs| && LessonsStandSoFar(l, n, d) && next == ApplyOne(l, n, d)
    ensures LessonsStandSoFar(next, n + 1, d)
  {
    forall k | 0 <= k < |l.lessons| ensures StandsSoFar(next, n + 1, d, l.lessons[k]) {
      OldLessonStands(l, n, d, l.lessons[k]);
    }
    if Acts(d, l.obs[n]) {
      var t := l.obs[n].node.id;
      ReviewKeepsLessons(l, n, d);
      LessonsOutcome(l, n, d);
      if Invalidates(d, l.obs[n]) {
        NewLessonStands(l, n, d, Lesson(HashFor(d, t), VerdictFor(d, t).premise, VerdictFor(d, t).evidence, t, d.run,
                                        ReviewFor(d, t).value.provenance, Active));
      }
    }
  }

  lemma IdsStayUnique(l: L, n: nat, d: Decisions, next: L)
    requires UniqueIds(Nodes(l.obs)) && n < |l.obs| && next == ApplyOne(l, n, d)
    ensures UniqueIds(Nodes(next.obs)) && |next.obs| == |l.obs|
  {
    ApplyOneShape(l, n, d);
  }

  lemma {:induction false} RangeKeepsLessons(l: L, n: nat, m: nat, d: Decisions, end: L)
    requires UniqueIds(Nodes(l.obs)) && n <= m <= |l.obs| && LessonsStandSoFar(l, n, d) && end == ApplyRange(l, n, m, d)
    ensures LessonsStandSoFar(end, m, d)
    decreases m - n
  {
    if n < m {
      var next := ApplyOne(l, n, d);
      IdsStayUnique(l, n, d, next);
      StepKeepsLessons(l, n, d, next);
      RangeKeepsLessons(next, n + 1, m, d, end);
    }
  }

  lemma StandsAtStart(l: L, d: Decisions, lesson: Lesson)
    requires UniqueIds(Nodes(l.obs)) && d.ids <= PendingIds(l.obs) && Stands(l, lesson)
    ensures StandsSoFar(l, 0, d, lesson)
  {
    var i: nat :| StandsAt(l, lesson, i);
    var j: nat :| ShutBy(l.obs, i, j);
    ShutIsNotPending(l.obs, i, j);
    assert StandsSoFarAt(l, 0, d, lesson, i);
  }

  lemma StandsAtEnd(l: L, r: L, d: Decisions, lesson: Lesson)
    requires StandsSoFar(l, |l.obs|, d, lesson) && r.obs == l.obs
    ensures Stands(r, lesson)
  {
    var i: nat :| StandsSoFarAt(l, |l.obs|, d, lesson, i);
    assert StandsAt(r, lesson, i);
  }

  lemma VerdictsKeepLessons(l: L, d: Decisions)
    requires UniqueIds(Nodes(l.obs)) && d.ids <= PendingIds(l.obs) && LessonsStand(l)
    ensures LessonsStand(ApplyVerdicts(l, d))
  {
    var end, r := ApplyRange(l, 0, |l.obs|, d), ApplyVerdicts(l, d);
    forall k | 0 <= k < |l.lessons| ensures StandsSoFar(l, 0, d, l.lessons[k]) {
      StandsAtStart(l, d, l.lessons[k]);
    }
    RangeKeepsLessons(l, 0, |l.obs|, d, end);
    forall k | 0 <= k < |r.lessons| ensures Stands(r, r.lessons[k]) {
      StandsAtEnd(end, r, d, end.lessons[k]);
    }
  }

  /** The other steps keep every lesson, and every shut obligation shut where it stands. */
  lemma OtherStepsKeepLessons(l: L, e: Event)
    requires WellFormed(l) && Legal(l, e) && LessonsStand(l) && !e.Decided?
    ensures LessonsStand(Step(l, e))
  {
    var r := Step(l, e);
    if e.ChildPersisted? {
      PersistShape(l, e.target, e.c, e.run);
    }
    assert r.lessons == l.lessons;
    forall k | 0 <= k < |r.lessons| ensures Stands(r, r.lessons[k]) {
      var i: nat :| StandsAt(l, l.lessons[k], i);
      StepKeepsShut(l, e, i);
      StepGrows(l, e);
      assert Nodes(r.obs)[i] == Nodes(l.obs)[i];
      assert StandsAt(r, r.lessons[k], i);
    }
  }

  /**
   * From a ledger whose lessons stand, one without lessons for instance, every legal run leaves a ledger whose lessons
   * stand: all of them ACTIVE, all their sources shut. No run on pending obligations undoes an invalidation.
   */
  lemma {:induction false} RunKeepsLessons(l: L, events: seq<Event>)
    requires WellFormed(l) && LegalRun(l, events) && LessonsStand(l)
    ensures LessonsStand(Run(l, events))
    decreases |events|
  {
    if events != [] {
      var before, e := events[..|events| - 1], events[|events| - 1];
      RunKeepsLessons(l, before);
      RunKeepsWellFormed(l, before);
      if e.Decided? {
        VerdictsKeepLessons(Run(l, before), e.d);
      } else {
        OtherStepsKeepLessons(Run(l, before), e);
      }
    }
  }
}
