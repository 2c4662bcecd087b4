// What becomes of a suspected premise: the outcomes of a review, and when temporary marks end.
module LedgerOutcomes {
  import opened Wrappers
  import opened Evidence
  import opened LedgerGraph
  import opened LedgerModel
  import opened LedgerRuns
  import opened LedgerClosure
  import opened Critic

  /** Some obligation awaits the review of `t`. */
  ghost predicate Awaited(obs: seq<Ob>, t: Id) {
    exists k :: 0 <= k < |obs| && obs[k].tempRoot == t
  }

  predicate Resolves(review: Option<Review>) {
    review.Some? && review.value.status in {NotConfirmed, Rescued, Inconclusive}
  }

  lemma ReviewTemps(l: L, n: nat, review: Option<Review>, k: nat)
    requires UniqueIds(Nodes(l.obs)) && n < |l.obs| && k < |l.obs|
    ensures var t, o, o' := l.obs[n].node.id, l.obs[k], AfterReview(l, n, review).obs[k];
            o'.tempRoot == if Resolves(review) && o.tempRoot == t then "" else o.tempRoot
  {
    if Resolves(review) {
      var noted := At(l, n, RecordReview(l.obs[n], review.value));
      assert Nodes(noted.obs) == Nodes(l.obs) && Nodes(l.obs)[n].id == l.obs[n].node.id;
    }
  }

  lemma StatusTemps(l: L, n: nat, v: Verdict, review: Option<Review>, hash: Digest, run: string, k: nat)
    requires n < |l.obs| && k < |l.obs|
    ensures var t, o, o' := l.obs[n].node.id, l.obs[k], AfterStatus(l, n, v, review, hash, run).obs[k];
            var upgraded := v.kind.PremiseInvalidated? && review.Some? && review.value.verified && hash.Sha256?;
            o'.tempRoot == if upgraded && o.tempRoot == t then "" else o.tempRoot
  {
  }

  lemma KindTemps(l: L, n: nat, kind: Kind, run: string, k: nat)
    requires n < |l.obs| && k < |l.obs|
    ensures var t, o, o' := l.obs[n].node.id, l.obs[k], AfterKind(l, n, kind, run).obs[k];
            o'.tempRoot == if kind.PremiseSuspected? && o.node.id in Descendants(Nodes(l.obs), t) then t else o.tempRoot
  {
  }

  /** Whether applying the verdict of `t` takes its temporary marks away, and whether it sets them. */
  ghost predicate Lifts(d: Decisions, o: Ob) {
    Resolves(ReviewFor(d, o.node.id)) || Invalidates(d, o)
  }

  ghost predicate Sets(d: Decisions, g: Graph, t: Id, x: Id) {
    VerdictFor(d, t).kind.PremiseSuspected? && x in Descendants(g, t)
  }

  /** The temporary mark of obligation k after the verdict of obligation n. */
  lemma ApplyOneTemps(l: L, n: nat, d: Decisions, k: nat)
    requires UniqueIds(Nodes(l.obs)) && n < |l.obs| && k < |l.obs| && Acts(d, l.obs[n])
    ensures var t, o, o' := l.obs[n].node.id, l.obs[k], ApplyOne(l, n, d).obs[k];
            o'.tempRoot == if Sets(d, Nodes(l.obs), t, o.node.id) then t
                           else if Lifts(d, l.obs[n]) && o.tempRoot == t then "" else o.tempRoot
  {
    var o := l.obs[n];
    var v, review := VerdictFor(d, o.node.id), ReviewFor(d, o.node.id);
    var reviewed := AfterReview(l, n, review);
    ReviewShape(l, n, review);
    assert Nodes(reviewed.obs)[n] == o.node && Nodes(reviewed.obs)[k] == l.obs[k].node;
    ReviewTemps(l, n, review, k);
    StatusTemps(reviewed, n, v, review, HashFor(d, o.node.id), d.run, k);
    StatusShape(reviewed, n, v, review, HashFor(d, o.node.id), d.run);
    var decided := AfterStatus(reviewed, n, v, review, HashFor(d, o.node.id), d.run);
    assert Nodes(decided.obs)[n] == o.node && Nodes(decided.obs)[k] == l.obs[k].node;
    var stamped := At(decided, n, Stamp(decided.obs[n], v, d.run));
    assert Nodes(stamped.obs) == Nodes(l.obs);
    KindTemps(stamped, n, v.kind, d.run, k);
  }

  lemma MarksRemain(l: L, n: nat, d: Decisions)
    requires WellFormed(l) && n < |l.obs| && Acts(d, l.obs[n])
    requires Awaited(l.obs, l.obs[n].node.id) && !Lifts(d, l.obs[n])
    ensures Awaited(ApplyOne(l, n, d).obs, l.obs[n].node.id)
  {
    var k :| 0 <= k < |l.obs| && l.obs[k].tempRoot == l.obs[n].node.id;
    ApplyOneTemps(l, n, d, k);
  }

  lemma MarksAppear(l: L, n: nat, d: Decisions, x: Id)
    requires WellFormed(l) && n < |l.obs| && Acts(d, l.obs[n]) && Sets(d, Nodes(l.obs), l.obs[n].node.id, x)
    ensures Awaited(ApplyOne(l, n, d).obs, l.obs[n].node.id)
  {
    var k := IndexOf(Nodes(l.obs), x).value;
    assert l.obs[k].node.id == x;
    ApplyOneTemps(l, n, d, k);
  }

  lemma MarksHaveCause(l: L, n: nat, d: Decisions) returns (x: Id)
    requires WellFormed(l) && n < |l.obs| && Acts(d, l.obs[n])
    requires Awaited(ApplyOne(l, n, d).obs, l.obs[n].node.id)
    ensures Sets(d, Nodes(l.obs), l.obs[n].node.id, x) || (Awaited(l.obs, l.obs[n].node.id) && !Lifts(d, l.obs[n]))
  {
    var k :| 0 <= k < |l.obs| && ApplyOne(l, n, d).obs[k].tempRoot == l.obs[n].node.id;
    x := l.obs[k].node.id;
    ApplyOneTemps(l, n, d, k);
    assert Nodes(l.obs)[n].id != "";
  }

  /**
   * Temporary marks end with the review: once the verdict about an obligation is applied, something still awaits
   * its review exactly when the verdict leaves the premise suspected and something lies below it, or the marks were
   * there and the review neither resolved the suspicion nor invalidated the premise.
   */
  lemma TemporaryMarksEnd(l: L, n: nat, d: Decisions)
    requires WellFormed(l) && n < |l.obs| && Acts(d, l.obs[n])
    ensures var t := l.obs[n].node.id;
            Awaited(ApplyOne(l, n, d).obs, t) <==>
              (VerdictFor(d, t).kind.PremiseSuspected? && Descendants(Nodes(l.obs), t) != {}) ||
              (Awaited(l.obs, t) && !Resolves(ReviewFor(d, t)) && !Invalidates(d, l.obs[n]))
  {
    var t := l.obs[n].node.id;
    if Awaited(ApplyOne(l, n, d).obs, t) {
      var x := MarksHaveCause(l, n, d);
    }
    if VerdictFor(d, t).kind.PremiseSuspected? && Descendants(Nodes(l.obs), t) != {} {
      var x :| x in Descendants(Nodes(l.obs), t);
      MarksAppear(l, n, d, x);
    }
    if Awaited(l.obs, t) && !Lifts(d, l.obs[n]) {
      MarksRemain(l, n, d);
    }
  }

  // ---- the three outcomes ----

  /** The decision about obligation n comes from that entry, a suspicion and an optional review. */
  ghost predicate DecidedBy(d: Decisions, id: Id, e: Entry, s: Suspicion) {
    && Refutes(e) && id in d.ids && id in d.suspicions && d.suspicions[id] == s && s.claimHash.Sha256?
    && id in d.verdicts && Some(d.verdicts[id]) == VerdictOf(e, Some(s), ReviewFor(d, id))
    && (ReviewFor(d, id).Some? ==>
         var rv := ReviewFor(d, id).value;
         && rv.status in {Invalidated, NotConfirmed, Rescued, Inconclusive} && (rv.verified <==> rv.status == Invalidated))
  }

  lemma TargetOutcome(l: L, n: nat, d: Decisions)
    requires n < |l.obs| && Acts(d, l.obs[n])
    ensures var v, o' := VerdictFor(d, l.obs[n].node.id), ApplyOne(l, n, d).obs[n];
            o'.kind == v.kind && (!v.kind.PremiseInvalidated? ==> o'.status == v.status)
  {
    var o := l.obs[n];
    var v, review := VerdictFor(d, o.node.id), ReviewFor(d, o.node.id);
    var reviewed := AfterReview(l, n, review);
    var decided := AfterStatus(reviewed, n, v, review, HashFor(d, o.node.id), d.run);
    KindEffect(At(decided, n, Stamp(decided.obs[n], v, d.run)), n, v.kind, d.run, n);
  }

  lemma LessonsOutcome(l: L, n: nat, d: Decisions)
    requires n < |l.obs| && Acts(d, l.obs[n])
    ensures var t, r := l.obs[n].node.id, ApplyOne(l, n, d);
            var reviewed := AfterReview(l, n, ReviewFor(d, t));
            r.lessons == if !Invalidates(d, l.obs[n]) then reviewed.lessons
                         else Teach(reviewed.lessons, Lesson(HashFor(d, t), VerdictFor(d, t).premise, VerdictFor(d, t).evidence, t,
                                                             d.run, ReviewFor(d, t).value.provenance, Active))
  {
    var o := l.obs[n];
    var v, review := VerdictFor(d, o.node.id), ReviewFor(d, o.node.id);
    var reviewed := AfterReview(l, n, review);
    ReviewShape(l, n, review);
    assert Nodes(reviewed.obs)[n] == o.node;
    var decided := AfterStatus(reviewed, n, v, review, HashFor(d, o.node.id), d.run);
    KindShape(At(decided, n, Stamp(decided.obs[n], v, d.run)), n, v.kind, d.run);
  }

  lemma TeachTeaches(lessons: seq<Lesson>, n: Lesson)
    ensures n in Teach(lessons, n)
  {
    if i :| 0 <= i < |lessons| && lessons[i].claimHash == n.claimHash {
      assert Teach(lessons, n)[i] == n;
    }
  }

  /**
   * The outcome matrix of a refuting entry. Without a review the obligation stays open and suspected, and no other
   * status changes. A review that does not verify closes the approach alone: nothing is taught and nothing new is
   * quarantined. A verified review invalidates the premise, quarantines everything below it, and teaches the
   * suspicion's claim as an ACTIVE lesson.
   */
  lemma ReviewOutcomes(l: L, n: nat, d: Decisions, e: Entry, s: Suspicion, k: nat)
    requires WellFormed(l) && n < |l.obs| && k < |l.obs| && k != n
    requires Acts(d, l.obs[n]) && DecidedBy(d, l.obs[n].node.id, e, s)
    ensures var t, r := l.obs[n].node.id, ApplyOne(l, n, d);
            var o, review := l.obs[k], ReviewFor(d, t);
            if review.Some? && review.value.verified then
              && Dead(r.obs[n]) && r.obs[n].kind.PremiseInvalidated?
              && (if o.node.id in Descendants(Nodes(l.obs), t)
                  then r.obs[k].status.Quarantined? && r.obs[k].quarantineRoot == t else r.obs[k].status == o.status)
              && exists lesson ::
                   lesson in r.lessons && lesson.claimHash == s.claimHash && lesson.source == t && lesson.mark.Active?
            else
              && r.obs[n].status == (if review.None? then Unresolved else Disproved)
              && r.obs[n].kind == (if review.None? then PremiseSuspected else ApproachFailed)
              && KeepsUnless(o, r.obs[k], t)
              && |r.lessons| == |l.lessons| && (review.None? ==> r.lessons == l.lessons)
  {
    var t, review := l.obs[n].node.id, ReviewFor(d, l.obs[n].node.id);
    TargetOutcome(l, n, d);
    LessonsOutcome(l, n, d);
    ApplyOneEffect(l, n, d, k);
    if review.Some? && review.value.verified {
      ApplyOneKills(l, n, d);
      var taught := Lesson(s.claimHash, s.premise, EvidenceText(e), t, d.run, review.value.provenance, Active);
      TeachTeaches(AfterReview(l, n, review).lessons, taught);
      assert taught in ApplyOne(l, n, d).lessons;
    }
  }
}
