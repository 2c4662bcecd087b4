// Turns in which a refutation that the host confirmed is not applied.
module TurnExamples {
  import opened Wrappers
  import opened Floats
  import opened Evidence
  import opened EvidenceRounding
  import opened LedgerGraph
  import opened LedgerModel
  import opened LedgerFrontier
  import opened Critic
  import opened Turns
  import opened TurnSoundness
  import opened TurnOutcomes

  /** A claim about x, and a witness against it. */
  datatype Case = Case(domain: Domain, lhs: Expr, rel: Relation, rhs: Expr, x: Value)

  /** `x < x` at x = 0, which is false; and `1 / (x * x) > 0` at infinity, which is true. */
  const FALSE_CASE: Case := Case(Integer, Var("x"), Lt, Var("x"), WInt(0))
  const INFINITE_CASE: Case := Case(Real, RECIPROCAL, Gt, IntNum(0), WFloat(Inf(false)))

  function CaseClaim(k: Case): Claim {
    ClaimAboutX(k.domain, k.lhs, k.rel, k.rhs)
  }

  /** The claim fits the schema, and the host's arithmetic refutes it at the witness. */
  predicate Refutable(h: Host, k: Case) {
    Safe(k.lhs) && Safe(k.rhs) && Names(k.lhs) + Names(k.rhs) == {"x"} && HostRefutedBy(h, CaseClaim(k), map["x" := k.x])
  }

  lemma CasesAreRefutable(h: Host)
    requires h.round(0.0) == Fin(0.0)
    ensures Refutable(h, FALSE_CASE)
    ensures h.round(1.0) == Fin(1.0) ==> Refutable(h, INFINITE_CASE) && TrueForAll(h.power, CaseClaim(INFINITE_CASE))
  {
    var w := map["x" := WInt(0)];
    assert Evaluate(h, Var("x"), w) == Some(Fin(0.0)) && FromValue(h, WInt(0)) == Some(Fin(0.0));
    if h.round(1.0) == Fin(1.0) {
      ReciprocalIsTrue(h.power);
      ReciprocalOfInfinity(h, map["x" := WFloat(Inf(false))], false);
    }
  }

  predicate NoTwins(a: string, b: string) {
    false
  }

  predicate AnyPremise(s: string) {
    true
  }

  function LongText(): (r: string)
    ensures |r| == MIN_EVIDENCE
  {
    seq(MIN_EVIDENCE, i => 'e')
  }

  /** An entry that calls the claim of the case refuted. */
  function Refutation(id: Id, k: Case, missing: string): Entry {
    Entry(id, Some(ClaimsDisproved), Some(LongText()), Some(missing), Some(OfSuspectedPremise), "p", FiniteCounterexample,
          Some(RawAboutX(k.domain, k.lhs, k.rel, k.rhs)))
  }

  function SecondThought(id: Id): Entry {
    Entry(id, Some(ClaimsUnresolved), Some(""), Some("some lemma"), None, "", OtherEvidence, None)
  }

  /** A refutation by word alone: it names no claim, so it raises no suspicion. */
  function BareRefutation(id: Id): Entry {
    Refutation(id, FALSE_CASE, "").(claim := None)
  }

  function AuditOf(id: Id, k: Case): Audit {
    AuditAboutX(id, k.domain, k.lhs, k.rel, k.rhs, k.x)
  }

  function DefenseOf(id: Id): Defense {
    Defense(id, NotRescued, "", "p")
  }

  function ExampleTurn(h: Host, k: Case, ids: set<Id>, entries: seq<Entry>): Turn {
    Turn(NoTwins, AnyPremise, h, ids, entries, map id | id in ids :: AuditOf(id, k), map id | id in ids :: DefenseOf(id),
         false, "run", None)
  }

  function SuspicionFor(id: Id, k: Case, hash: string): Suspicion {
    Suspicion(id, "p", FiniteCounterexample, LongText(), CaseClaim(k), Sha256(CaseClaim(k)), hash)
  }

  lemma RefutationIsSuspicion(h: Host, id: Id, k: Case, missing: string, hash: string)
    requires Refutable(h, k)
    ensures SuspicionOf(Refutation(id, k, missing), hash, AnyPremise) == Some(SuspicionFor(id, k, hash))
  {
    XIsIdentifier();
  }

  lemma CaseIsConfirmed(h: Host, id: Id, k: Case, hash: string)
    requires Refutable(h, k)
    ensures Decide(h, Some(AuditOf(id, k)), Some(DefenseOf(id)), Some(SuspicionFor(id, k, hash))).verified
  {
    NormalizedAboutX(k.domain, k.lhs, k.rel, k.rhs);
    ValidationIsComputed(h, AuditOf(id, k), SuspicionFor(id, k, hash));
  }

  /** Without equivalent statements the audit rejects nothing. */
  lemma {:induction false} NothingAudited(obs: seq<Ob>, i: nat)
    requires i <= |obs|
    ensures AuditFrom(AuditLog(obs, []), NoTwins, i) == AuditLog(obs, [])
    decreases |obs| - i
  {
    if i < |obs| {
      assert EquivalentIds(obs, NoTwins, i) == {};
      NothingAudited(obs, i + 1);
    }
  }

  lemma SuspectedIsConfirmed(l: L, h: Host, k: Case, ids: set<Id>, entries: seq<Entry>, id: Id, hash: string)
    requires Refutable(h, k) && id in ids
    requires var t := ExampleTurn(h, k, ids, entries);
             var suspicions := SuspicionsIn(l.obs, t); id in suspicions && suspicions[id] == SuspicionFor(id, k, hash)
    ensures ConfirmedIn(l, ExampleTurn(h, k, ids, entries), id)
  {
    NothingAudited(l.obs, 0);
    CaseIsConfirmed(h, id, k, hash);
  }

  // ---- one obligation, two entries ----

  const LONE: L := L([Plain("o", "")], [], 0, "")

  lemma LoneIsPending()
    ensures WellFormed(LONE) && PendingIds(LONE.obs) == {"o"}
  {
    assert Nodes(LONE.obs)[0].id == "o";
    EligibleExactlyWhen(LONE.obs, 0);
    assert PendingAt(LONE.obs, 0) && LONE.obs[0].node.id in PendingIds(LONE.obs);
  }

  lemma TwoSuspicions(a: Entry, b: Entry, ids: set<Id>, hashes: Hashes)
    ensures var s, sa := SuspicionOf(b, HashOf(hashes, b.id), AnyPremise), SuspicionOf(a, HashOf(hashes, a.id), AnyPremise);
            var first: map<Id, Suspicion> := if a.id in ids && sa.Some? then map[a.id := sa.value] else map[];
            Suspicions([a, b], ids, hashes, AnyPremise) == if b.id in ids && s.Some? then first[b.id := s.value] else first
  {
    assert [a, b][..1] == [a] && [a][..0] == [];
    assert Suspicions([a], ids, hashes, AnyPremise) == Suspicions([a, b][..1], ids, hashes, AnyPremise);
  }

  lemma LastOfTwo(a: Entry, b: Entry, id: Id)
    ensures LastComplete([a, b], id) ==
            if b.id == id && Complete(b) then Some(b) else if a.id == id && Complete(a) then Some(a) else None
  {
    assert [a, b][..1] == [a] && [a][..0] == [];
    assert LastComplete([a], id) == LastComplete([a, b][..1], id);
  }

  /** One obligation and two entries about it, of which exactly the first raises a suspicion. */
  lemma LoneTurn(h: Host, k: Case, missing: string, second: Entry, t: Turn)
    requires Refutable(h, k) && second.id == "o" && second.claim == None
    requires t == ExampleTurn(h, k, {"o"}, [Refutation("o", k, missing), second])
    ensures WellFormed(LONE) && LegalTurn(LONE, t) && ConfirmedIn(LONE, t, "o") && ClaimOf(LONE, t, "o") == CaseClaim(k)
    ensures |AfterVerdicts(LONE, t).obs| == 1
    ensures AfterVerdicts(LONE, t).obs[0].kind.PremiseInvalidated? <==> LastRefutes(t, "o")
  {
    var hashes := LeanHashes(LONE.obs, t.chosen);
    LoneIsPending();
    NothingAudited(LONE.obs, 0);
    RefutationIsSuspicion(h, "o", k, missing, HashOf(hashes, "o"));
    TwoSuspicions(Refutation("o", k, missing), second, t.chosen, hashes);
    SuspectedIsConfirmed(LONE, h, k, {"o"}, t.entries, "o", HashOf(hashes, "o"));
    ConfirmedIsAppliedExactlyWhen(LONE, t, 0);
    forall m: nat ensures !UpheldAbove(LONE, t, 0, m) {
    }
  }

  lemma SecondDecides(k: Case, missing: string, second: Entry, t: Turn)
    requires second.id == "o" && Complete(second) && t.entries == [Refutation("o", k, missing), second]
    ensures LastRefutes(t, "o") <==> Critic.Refutes(second)
  {
    LastOfTwo(Refutation("o", k, missing), second, "o");
  }

  lemma WhichRefute(id: Id, k: Case)
    ensures Critic.Refutes(Refutation(id, k, "")) && !Critic.Refutes(SecondThought(id)) && Complete(SecondThought(id))
    ensures !Critic.Refutes(Refutation(id, k, "some lemma"))
    ensures Critic.Refutes(BareRefutation(id)) && Complete(BareRefutation(id))
  {
    assert "some lemma"[0] == 's' && "none"[0] == 'n' && "(none)"[0] == '(';
  }

  /** A complete UNRESOLVED entry after the refuting one keeps a confirmed refutation from being applied. */
  lemma SecondThoughtPrevails(h: Host, k: Case)
    requires Refutable(h, k)
    ensures var first, second := Refutation("o", k, ""), SecondThought("o");
            var t := ExampleTurn(h, k, {"o"}, [first, second]);
            && WellFormed(LONE) && LegalTurn(LONE, t) && ConfirmedIn(LONE, t, "o") && Critic.Refutes(first)
            && |AfterVerdicts(LONE, t).obs| == 1 && !AfterVerdicts(LONE, t).obs[0].kind.PremiseInvalidated?
  {
    var second := SecondThought("o");
    var t := ExampleTurn(h, k, {"o"}, [Refutation("o", k, ""), second]);
    WhichRefute("o", k);
    LoneTurn(h, k, "", second, t);
    SecondDecides(k, "", second, t);
  }

  /** An entry without a claim, after one that still misses a lemma, has the latter's refutation applied. */
  lemma BareRefutationPrevails(h: Host, k: Case)
    requires Refutable(h, k)
    ensures var first, second := Refutation("o", k, "some lemma"), BareRefutation("o");
            var t := ExampleTurn(h, k, {"o"}, [first, second]);
            && WellFormed(LONE) && LegalTurn(LONE, t) && ConfirmedIn(LONE, t, "o") && !Critic.Refutes(first)
            && |AfterVerdicts(LONE, t).obs| == 1 && AfterVerdicts(LONE, t).obs[0].kind.PremiseInvalidated?
  {
    var second := BareRefutation("o");
    var t := ExampleTurn(h, k, {"o"}, [Refutation("o", k, "some lemma"), second]);
    WhichRefute("o", k);
    LoneTurn(h, k, "some lemma", second, t);
    SecondDecides(k, "some lemma", second, t);
  }

  /** Whatever the host's arithmetic refutes at some witness, one turn can invalidate a premise with. */
  lemma RefutableIsApplied(h: Host, k: Case, t: Turn)
    requires Refutable(h, k) && t == ExampleTurn(h, k, {"o"}, [Refutation("o", k, ""), BareRefutation("o")])
    ensures WellFormed(LONE) && LegalTurn(LONE, t) && ConfirmedIn(LONE, t, "o") && ClaimOf(LONE, t, "o") == CaseClaim(k)
    ensures |AfterVerdicts(LONE, t).obs| == 1 && AfterVerdicts(LONE, t).obs[0].kind.PremiseInvalidated?
  {
    WhichRefute("o", k);
    LoneTurn(h, k, "", BareRefutation("o"), t);
    SecondDecides(k, "", BareRefutation("o"), t);
  }

  /** So an infinite witness against a true claim invalidates a premise. */
  lemma TrueClaimIsApplied(h: Host, t: Turn)
    requires h.round(0.0) == Fin(0.0) && h.round(1.0) == Fin(1.0)
    requires t == ExampleTurn(h, INFINITE_CASE, {"o"}, [Refutation("o", INFINITE_CASE, ""), BareRefutation("o")])
    ensures LegalTurn(LONE, t) && ConfirmedIn(LONE, t, "o") && TrueForAll(h.power, ClaimOf(LONE, t, "o"))
    ensures |AfterVerdicts(LONE, t).obs| == 1 && AfterVerdicts(LONE, t).obs[0].kind.PremiseInvalidated?
  {
    CasesAreRefutable(h);
    RefutableIsApplied(h, INFINITE_CASE, t);
  }

  // ---- an ancestor and its descendant, refuted in one turn ----

  /** An open obligation, a proved one below it, and an open one below that. */
  const CHAIN: L := L([Plain("a", ""), Plain("b", "a").(status := Proved), Plain("c", "b")], [], 0, "")

  lemma ChainShape()
    ensures WellFormed(CHAIN) && "c" in Descendants(Nodes(CHAIN.obs), "a")
    ensures UniqueIds(Nodes(CHAIN.obs)) && NamedIds(Nodes(CHAIN.obs)) && "c" != "a"
  {
    var g := Nodes(CHAIN.obs);
    assert "a"[0] != "b"[0] && "a"[0] != "c"[0] && "b"[0] != "c"[0];
    assert g == [Node("a", "s", ""), Node("b", "s", "a"), Node("c", "s", "b")];
    assert g[0].id == "a" && g[1].id == "b" && g[2].id == "c";
    IndexIsUnique(g, 1);
    IndexIsUnique(g, 2);
    assert Up(g, "c", 0) == "c";
    assert Up(g, "c", 1) == "b";
    assert Up(g, "c", 2) == "a";
  }

  lemma ChainIsPending()
    ensures {"a", "c"} <= PendingIds(CHAIN.obs)
  {
    ChainShape();
    EligibleExactlyWhen(CHAIN.obs, 0);
    EligibleExactlyWhen(CHAIN.obs, 2);
    assert !EligibleAt(CHAIN.obs, 1);
    assert PendingAt(CHAIN.obs, 0) && PendingAt(CHAIN.obs, 2);
    assert CHAIN.obs[0].node.id in PendingIds(CHAIN.obs) && CHAIN.obs[2].node.id in PendingIds(CHAIN.obs);
  }

  lemma BothSuspected(h: Host, k: Case, first: Entry, second: Entry, hashes: Hashes)
    requires Refutable(h, k) && first == Refutation("a", k, "") && second == Refutation("c", k, "")
    ensures var r := Suspicions([first, second], {"a", "c"}, hashes, AnyPremise);
            && "a" in r && r["a"] == SuspicionFor("a", k, HashOf(hashes, "a"))
            && "c" in r && r["c"] == SuspicionFor("c", k, HashOf(hashes, "c"))
  {
    assert "a"[0] != "c"[0];
    RefutationIsSuspicion(h, "a", k, "", HashOf(hashes, "a"));
    RefutationIsSuspicion(h, "c", k, "", HashOf(hashes, "c"));
    TwoSuspicions(first, second, {"a", "c"}, hashes);
  }

  lemma BothStand(k: Case, first: Entry, second: Entry, t: Turn)
    requires first == Refutation("a", k, "") && second == Refutation("c", k, "") && t.entries == [first, second]
    ensures LastRefutes(t, "a") && LastRefutes(t, "c")
  {
    assert "a"[0] != "c"[0];
    LastOfTwo(first, second, "a");
    LastOfTwo(first, second, "c");
  }

  lemma BothConfirmed(h: Host, k: Case, l: L, entries: seq<Entry>, hashes: Hashes)
    requires Refutable(h, k) && hashes == LeanHashes(l.obs, {"a", "c"})
    requires entries == [Refutation("a", k, ""), Refutation("c", k, "")]
    ensures var t := ExampleTurn(h, k, {"a", "c"}, entries);
            ConfirmedIn(l, t, "a") && ConfirmedIn(l, t, "c")
  {
    BothSuspected(h, k, entries[0], entries[1], hashes);
    SuspectedIsConfirmed(l, h, k, {"a", "c"}, entries, "a", HashOf(hashes, "a"));
    SuspectedIsConfirmed(l, h, k, {"a", "c"}, entries, "c", HashOf(hashes, "c"));
  }

  lemma BothUpheld(h: Host, k: Case, entries: seq<Entry>, t: Turn)
    requires Refutable(h, k) && entries == [Refutation("a", k, ""), Refutation("c", k, "")]
    requires t == ExampleTurn(h, k, {"a", "c"}, entries)
    ensures LegalTurn(CHAIN, t) && Upheld(CHAIN, t, "a") && Upheld(CHAIN, t, "c")
  {
    ChainIsPending();
    NothingAudited(CHAIN.obs, 0);
    BothConfirmed(h, k, CHAIN, entries, LeanHashes(CHAIN.obs, {"a", "c"}));
    BothStand(k, entries[0], entries[1], t);
  }

  lemma TopIsApplied(l: L, t: Turn)
    requires l.obs != [] && WellFormed(l) && LegalTurn(l, t) && Upheld(l, t, l.obs[0].node.id)
    ensures AfterVerdicts(l, t).obs != [] && AfterVerdicts(l, t).obs[0].kind.PremiseInvalidated?
  {
    ConfirmedIsAppliedExactlyWhen(l, t, 0);
    forall m: nat ensures !UpheldAbove(l, t, 0, m) {
    }
  }

  lemma BelowIsPreempted(l: L, t: Turn, n: nat)
    requires 0 < n < |l.obs| && WellFormed(l) && LegalTurn(l, t)
    requires Upheld(l, t, l.obs[0].node.id) && Upheld(l, t, l.obs[n].node.id)
    requires l.obs[n].node.id in Descendants(Nodes(l.obs), l.obs[0].node.id)
    ensures n < |AfterVerdicts(l, t).obs| && !AfterVerdicts(l, t).obs[n].kind.PremiseInvalidated?
  {
    assert UpheldAbove(l, t, n, 0);
    ConfirmedIsAppliedExactlyWhen(l, t, n);
  }

  /** Both refutations are confirmed and upheld; the ancestor's is applied, and preempts the descendant's. */
  lemma AncestorPreempts(h: Host, k: Case)
    requires Refutable(h, k)
    ensures var t := ExampleTurn(h, k, {"a", "c"}, [Refutation("a", k, ""), Refutation("c", k, "")]);
            var after := AfterVerdicts(CHAIN, t).obs;
            && WellFormed(CHAIN) && LegalTurn(CHAIN, t) && Upheld(CHAIN, t, "a") && Upheld(CHAIN, t, "c")
            && |after| > 2 && after[0].kind.PremiseInvalidated? && !after[2].kind.PremiseInvalidated?
  {
    var entries := [Refutation("a", k, ""), Refutation("c", k, "")];
    var t := ExampleTurn(h, k, {"a", "c"}, entries);
    ChainShape();
    BothUpheld(h, k, entries, t);
    TopIsApplied(CHAIN, t);
    BelowIsPreempted(CHAIN, t, 2);
  }
}
