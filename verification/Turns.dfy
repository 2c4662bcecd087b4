// Whole turns: audit, extract, checkpoint, review, apply, persist; and what every no-go lesson rests on.
module Turns {
  import opened Wrappers
  import opened Floats
  import opened Evidence
  import opened LedgerGraph
  import opened LedgerModel
  import opened LedgerFrontier
  import opened LedgerRuns
  import opened Critic

  /**
   * One turn: the host's arithmetic, the pending obligations it works on, the critic's entries, what the two
   * isolated roles answered about each suspicion, whether the generator left issues uncovered, and the certified
   * child, if any.
   */
  datatype Turn = Turn(
    equiv: Equivalence, meaningful: string -> bool, host: Host, chosen: set<Id>, entries: seq<Entry>,
    audits: map<Id, Audit>, defenses: map<Id, Defense>, uncovered: bool, run: string, child: Option<(Id, Certificate)>)

  ghost function SuspicionsIn(obs: seq<Ob>, t: Turn): (r: map<Id, Suspicion>)
    ensures r.Keys <= t.chosen
  {
    Suspicions(t.entries, t.chosen, LeanHashes(obs, t.chosen), t.meaningful)
  }

  /** The suspected obligations of the turn, in the order in which they first came under suspicion. */
  ghost function SuspectedIn(obs: seq<Ob>, t: Turn): (r: seq<Id>)
    ensures forall id :: id in r <==> id in SuspicionsIn(obs, t)
  {
    SuspectedOrder(t.entries, t.chosen, LeanHashes(obs, t.chosen), t.meaningful)
  }

  /** The checkpoint marks, in that order. */
  function Marks(order: seq<Id>, suspicions: map<Id, Suspicion>): (r: seq<(Id, string)>)
    requires forall id :: id in order ==> id in suspicions
    ensures |r| == |order| && forall k :: 0 <= k < |r| ==> r[k] == (order[k], suspicions[order[k]].evidence)
  {
    seq(|order|, k requires 0 <= k < |order| => (order[k], suspicions[order[k]].evidence))
  }

  /** Incomplete coverage forbids a permanent invalidation. */
  function Gated(r: Review, uncovered: bool): Review {
    if uncovered && r.status == Invalidated
    then Review(Inconclusive, false, r.provenance, "Generator issue coverage was incomplete.")
    else r
  }

  function Reviews(t: Turn, suspicions: map<Id, Suspicion>): map<Id, Review> {
    map id | id in suspicions ::
      Gated(Decide(t.host, Find(t.audits, id), Find(t.defenses, id), Some(suspicions[id])), t.uncovered)
  }

  // ---- the stages of a turn ----

  ghost function AfterAudit(l: L, t: Turn): L {
    AuditDuplicates(l, t.equiv)
  }

  ghost function TurnMarks(l: L, t: Turn): seq<(Id, string)> {
    Marks(SuspectedIn(AfterAudit(l, t).obs, t), SuspicionsIn(AfterAudit(l, t).obs, t))
  }

  ghost function AfterCheckpoint(l: L, t: Turn): L {
    Checkpoint(AfterAudit(l, t), TurnMarks(l, t), t.run)
  }

  /** The reviews were bound to the suspicions before the checkpoint; the verdicts read the text again after it. */
  ghost function TurnDecisions(l: L, t: Turn): Decisions {
    DecisionsFrom(AfterCheckpoint(l, t).obs, t.entries, t.chosen, Reviews(t, SuspicionsIn(AfterAudit(l, t).obs, t)),
                  t.meaningful, t.run)
  }

  ghost function AfterVerdicts(l: L, t: Turn): L {
    ApplyVerdicts(AfterCheckpoint(l, t), TurnDecisions(l, t))
  }

  /** A child is created for a chosen obligation left UNRESOLVED, unless issues or suspicions are open. */
  ghost predicate MayDecompose(obs: seq<Ob>, t: Turn) {
    && t.child.Some? && !t.uncovered && t.child.value.0 in t.chosen
    && (exists i :: 0 <= i < |obs| && obs[i].node.id == t.child.value.0 && obs[i].status.Unresolved?)
    && forall i :: 0 <= i < |obs| && obs[i].node.id in t.chosen ==> !obs[i].kind.PremiseSuspected?
  }

  ghost function PlayTurn(l: L, t: Turn): L {
    if t.chosen == {} then AfterAudit(l, t)
    else if MayDecompose(AfterVerdicts(l, t).obs, t) then
      Persist(AfterVerdicts(l, t), t.child.value.0, t.child.value.1, t.run).0
    else AfterVerdicts(l, t)
  }

  /** A turn works on obligations that are pending once the duplicates are out. */
  ghost predicate LegalTurn(l: L, t: Turn) {
    t.chosen <= PendingIds(AfterAudit(l, t).obs)
  }

  ghost function Session(l: L, turns: seq<Turn>): L {
    if turns == [] then l else PlayTurn(Session(l, turns[..|turns| - 1]), turns[|turns| - 1])
  }

  ghost predicate LegalSession(l: L, turns: seq<Turn>) {
    turns == [] ||
    (LegalSession(l, turns[..|turns| - 1]) && LegalTurn(Session(l, turns[..|turns| - 1]), turns[|turns| - 1]))
  }

  // ---- a turn is a legal run ----

  ghost function TurnEvents(l: L, t: Turn): seq<Event> {
    if t.chosen == {} then [Audited(t.equiv)] else
      [Audited(t.equiv), Checkpointed(TurnMarks(l, t), t.run), Decided(TurnDecisions(l, t))] +
      if MayDecompose(AfterVerdicts(l, t).obs, t) then [ChildPersisted(t.child.value.0, t.child.value.1, t.run)] else []
  }

  /** Only UNRESOLVED obligations are marked. */
  ghost predicate MarksOpen(obs: seq<Ob>, marks: seq<(Id, string)>) {
    forall m, i :: 0 <= m < |marks| && 0 <= i < |obs| && obs[i].node.id == marks[m].0 ==> obs[i].status.Unresolved?
  }

  lemma {:induction false} SuspectKeepsFrontierData(obs: seq<Ob>, marks: seq<(Id, string)>, run: string, k: nat)
    requires UniqueIds(Nodes(obs)) && k < |obs|
    requires MarksOpen(obs, marks)
    ensures var o, o' := obs[k], SuspectAll(obs, marks, run)[k];
            o'.status == o.status && o'.leanHash == o.leanHash && (IsInvalid(o') <==> IsInvalid(o))
    decreases |marks|
  {
    if marks != [] {
      var before := marks[..|marks| - 1];
      SuspectKeepsFrontierData(obs, before, run, k);
      SuspectShape(obs, before, run);
      var sofar := SuspectAll(obs, before, run);
      assert Nodes(sofar)[k] == obs[k].node;
    }
  }

  lemma PendingIsUnresolved(obs: seq<Ob>, x: Id)
    requires UniqueIds(Nodes(obs)) && x in PendingIds(obs)
    ensures forall i :: 0 <= i < |obs| && obs[i].node.id == x ==> obs[i].status.Unresolved?
  {
    var j :| 0 <= j < |obs| && PendingAt(obs, j) && obs[j].node.id == x;
    forall i | 0 <= i < |obs| && obs[i].node.id == x ensures i == j {
      assert Nodes(obs)[i].id == Nodes(obs)[j].id;
    }
  }

  lemma SamePendingIds(a: seq<Ob>, b: seq<Ob>)
    requires SameFrontierData(a, b)
    ensures PendingIds(a) == PendingIds(b)
  {
    PendingFromCongruence(a, b, 0);
    forall x ensures x in PendingIds(a) <==> x in PendingIds(b) {
      PendingListsAll(a, 0, x);
      PendingListsAll(b, 0, x);
    }
  }

  lemma MarkedArePending(l: L, t: Turn, m: nat, i: nat)
    requires WellFormed(l) && LegalTurn(l, t) && m < |TurnMarks(l, t)|
    requires i < |AfterAudit(l, t).obs| && AfterAudit(l, t).obs[i].node.id == TurnMarks(l, t)[m].0
    ensures AfterAudit(l, t).obs[i].status.Unresolved?
  {
    StepKeepsWellFormed(l, Audited(t.equiv));
    PendingIsUnresolved(AfterAudit(l, t).obs, TurnMarks(l, t)[m].0);
  }

  ghost predicate SameCheckpointData(a: seq<Ob>, b: seq<Ob>) {
    && SameFrontierData(a, b)
    && forall k :: 0 <= k < |a| ==> a[k].leanHash == b[k].leanHash
  }

  lemma SuspectKeepsData(obs: seq<Ob>, marks: seq<(Id, string)>, run: string, after: seq<Ob>)
    requires UniqueIds(Nodes(obs)) && MarksOpen(obs, marks) && after == SuspectAll(obs, marks, run)
    ensures SameCheckpointData(obs, after)
  {
    SuspectShape(obs, marks, run);
    forall k | 0 <= k < |obs|
      ensures after[k].status == obs[k].status && after[k].leanHash == obs[k].leanHash
      ensures IsInvalid(after[k]) <==> IsInvalid(obs[k])
    {
      SuspectKeepsFrontierData(obs, marks, run, k);
    }
  }

  lemma CheckpointKeepsData(l: L, t: Turn)
    requires WellFormed(l) && LegalTurn(l, t)
    ensures SameCheckpointData(AfterAudit(l, t).obs, AfterCheckpoint(l, t).obs)
  {
    var obs, marks := AfterAudit(l, t).obs, TurnMarks(l, t);
    StepKeepsWellFormed(l, Audited(t.equiv));
    forall m, i | 0 <= m < |marks| && 0 <= i < |obs| && obs[i].node.id == marks[m].0 ensures obs[i].status.Unresolved? {
      MarkedArePending(l, t, m, i);
    }
    SuspectKeepsData(obs, marks, t.run, AfterCheckpoint(l, t).obs);
  }

  lemma SameHashes(a: seq<Ob>, b: seq<Ob>, ids: set<Id>)
    requires SameCheckpointData(a, b)
    ensures LeanHashes(a, ids) == LeanHashes(b, ids)
  {
  }

  /** The checkpoint moves nothing in or out of the frontier, and the second extraction finds the same suspicions. */
  lemma CheckpointKeepsFrontier(l: L, t: Turn)
    requires WellFormed(l) && LegalTurn(l, t)
    ensures PendingIds(AfterCheckpoint(l, t).obs) == PendingIds(AfterAudit(l, t).obs)
    ensures SuspicionsIn(AfterCheckpoint(l, t).obs, t) == SuspicionsIn(AfterAudit(l, t).obs, t)
  {
    CheckpointKeepsData(l, t);
    SamePendingIds(AfterAudit(l, t).obs, AfterCheckpoint(l, t).obs);
    SameHashes(AfterAudit(l, t).obs, AfterCheckpoint(l, t).obs, t.chosen);
  }

  lemma {:induction false} RunConcat(l: L, a: seq<Event>, b: seq<Event>)
    ensures Run(l, a + b) == Run(Run(l, a), b)
    ensures LegalRun(l, a) && LegalRun(Run(l, a), b) ==> LegalRun(l, a + b)
    decreases |b|
  {
    if b == [] {
      assert a + b == a;
    } else {
      var before := b[..|b| - 1];
      assert (a + b)[..|a + b| - 1] == a + before;
      RunConcat(l, a, before);
    }
  }

  lemma OneEvent(l: L, e: Event)
    ensures Run(l, [e]) == Step(l, e) && (Legal(l, e) ==> LegalRun(l, [e]))
  {
    assert [e][..0] == [];
    assert Run(l, []) == l;
  }

  lemma OneMore(l: L, a: seq<Event>, e: Event, mid: L)
    requires Run(l, a) == mid && LegalRun(l, a) && Legal(mid, e)
    ensures Run(l, a + [e]) == Step(mid, e) && LegalRun(l, a + [e])
  {
    OneEvent(mid, e);
    RunConcat(l, a, [e]);
  }

  lemma ThreeEvents(l: L, e0: Event, e1: Event, e2: Event, one: L, two: L)
    requires Legal(l, e0) && one == Step(l, e0) && Legal(one, e1) && two == Step(one, e1) && Legal(two, e2)
    ensures LegalRun(l, [e0, e1, e2]) && Run(l, [e0, e1, e2]) == Step(two, e2)
  {
    OneEvent(l, e0);
    OneMore(l, [e0], e1, one);
    assert [e0] + [e1] == [e0, e1];
    OneMore(l, [e0, e1], e2, two);
    assert [e0, e1] + [e2] == [e0, e1, e2];
  }

  lemma CheckpointIsLegal(l: L, t: Turn, marks: seq<(Id, string)>)
    requires LegalTurn(l, t) && marks == TurnMarks(l, t)
    ensures Legal(AfterAudit(l, t), Checkpointed(marks, t.run))
    ensures AfterCheckpoint(l, t) == Step(AfterAudit(l, t), Checkpointed(marks, t.run))
  {
    var obs := AfterAudit(l, t).obs;
    forall m | 0 <= m < |marks| ensures marks[m].0 in PendingIds(obs) {
      assert SuspectedIn(obs, t)[m] in SuspectedIn(obs, t);
    }
  }

  lemma DecisionIsLegal(l: L, t: Turn, d: Decisions)
    requires WellFormed(l) && LegalTurn(l, t) && d == TurnDecisions(l, t)
    ensures Legal(AfterCheckpoint(l, t), Decided(d)) && AfterVerdicts(l, t) == Step(AfterCheckpoint(l, t), Decided(d))
  {
    CheckpointKeepsFrontier(l, t);
  }

  lemma VerdictsAreLegal(l: L, t: Turn)
    requires WellFormed(l) && LegalTurn(l, t)
    ensures var a := [Audited(t.equiv), Checkpointed(TurnMarks(l, t), t.run), Decided(TurnDecisions(l, t))];
            LegalRun(l, a) && Run(l, a) == AfterVerdicts(l, t)
  {
    var marks, d := TurnMarks(l, t), TurnDecisions(l, t);
    CheckpointIsLegal(l, t, marks);
    DecisionIsLegal(l, t, d);
    ThreeEvents(l, Audited(t.equiv), Checkpointed(marks, t.run), Decided(d), AfterAudit(l, t), AfterCheckpoint(l, t));
  }

  /** Every legal turn is a legal run of ledger events. */
  lemma TurnIsLegalRun(l: L, t: Turn)
    requires WellFormed(l) && LegalTurn(l, t)
    ensures PlayTurn(l, t) == Run(l, TurnEvents(l, t)) && LegalRun(l, TurnEvents(l, t))
  {
    if t.chosen == {} {
      OneEvent(l, Audited(t.equiv));
    } else {
      VerdictsAreLegal(l, t);
      var a := [Audited(t.equiv), Checkpointed(TurnMarks(l, t), t.run), Decided(TurnDecisions(l, t))];
      if MayDecompose(AfterVerdicts(l, t).obs, t) {
        OneMore(l, a, ChildPersisted(t.child.value.0, t.child.value.1, t.run), AfterVerdicts(l, t));
      } else {
        assert a + [] == a;
      }
    }
  }

  ghost function SessionEvents(l: L, turns: seq<Turn>): seq<Event> {
    if turns == [] then [] else
      var before := turns[..|turns| - 1];
      SessionEvents(l, before) + TurnEvents(Session(l, before), turns[|turns| - 1])
  }

  lemma {:induction false} SessionIsLegalRun(l: L, turns: seq<Turn>)
    requires WellFormed(l) && LegalSession(l, turns)
    ensures Session(l, turns) == Run(l, SessionEvents(l, turns)) && LegalRun(l, SessionEvents(l, turns))
    decreases |turns|
  {
    if turns != [] {
      var before, t := turns[..|turns| - 1], turns[|turns| - 1];
      SessionIsLegalRun(l, before);
      RunKeepsWellFormed(l, SessionEvents(l, before));
      TurnIsLegalRun(Session(l, before), t);
      RunConcat(l, SessionEvents(l, before), TurnEvents(Session(l, before), t));
    }
  }
}
