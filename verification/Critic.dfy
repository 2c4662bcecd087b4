// From a critic's parsed entries to suspicions and verdicts.
module Critic {
  import opened Wrappers
  import opened Evidence
  import opened LedgerGraph
  import opened LedgerModel

  datatype Claimed = ClaimsProved | ClaimsDisproved | ClaimsUnresolved

  datatype Invalidation = OfApproach | OfSuspectedPremise | OfPremise

  /** One critic entry, its id already resolved; absent options are fields the text does not supply. */
  datatype Entry = Entry(
    id: Id, status: Option<Claimed>, evidence: Option<string>, missing: Option<string>,
    invalidation: Option<Invalidation>, premise: string, evidenceType: EvidenceType, claim: Option<RawClaim>)

  const MIN_EVIDENCE := 40

  predicate SuspectsPremise(e: Entry) {
    e.invalidation.Some? && !e.invalidation.value.OfApproach?
  }

  function EvidenceText(e: Entry): string {
    if e.evidence.Some? then e.evidence.value else ""
  }

  /** A suspicion needs a meaningful premise, a claim that fits its schema, and substantial evidence. */
  function SuspicionOf(e: Entry, targetHash: string, meaningful: string -> bool): (r: Option<Suspicion>)
    ensures r.Some? ==> r.value.id == e.id && r.value.claimHash == Sha256(r.value.claim)
  {
    if !SuspectsPremise(e) || e.claim.None? then None else
      var c := NormalizeClaim(e.claim.value, e.evidenceType, targetHash);
      if c.None? || !meaningful(e.premise) || |EvidenceText(e)| < MIN_EVIDENCE then None
      else Some(Suspicion(e.id, e.premise, e.evidenceType, EvidenceText(e), c.value, Sha256(c.value), targetHash))
  }

  type Hashes = map<Id, string>

  function HashOf(h: Hashes, id: Id): string {
    if id in h then h[id] else ""
  }

  /** The Lean signature hashes of the known obligations among `ids`. */
  ghost function LeanHashes(obs: seq<Ob>, ids: set<Id>): Hashes {
    map x | x in ids && Known(Nodes(obs), x) :: obs[IndexOf(Nodes(obs), x).value].leanHash
  }

  /** Suspicions by id; a later entry about the same obligation replaces an earlier one. */
  function Suspicions(entries: seq<Entry>, allowed: set<Id>, h: Hashes, meaningful: string -> bool): (r: map<Id, Suspicion>)
    ensures r.Keys <= allowed
    ensures forall id :: id in r ==> r[id].id == id && r[id].claimHash == Sha256(r[id].claim)
  {
    if entries == [] then map[] else
      var e := entries[|entries| - 1];
      var sofar := Suspicions(entries[..|entries| - 1], allowed, h, meaningful);
      var s := SuspicionOf(e, HashOf(h, e.id), meaningful);
      if e.id in allowed && s.Some? then sofar[e.id := s.value] else sofar
  }

  /** The suspected obligations, in the order in which they first came under suspicion. */
  function SuspectedOrder(entries: seq<Entry>, allowed: set<Id>, h: Hashes, meaningful: string -> bool): (r: seq<Id>)
    ensures forall id :: id in r <==> id in Suspicions(entries, allowed, h, meaningful)
  {
    if entries == [] then [] else
      var e := entries[|entries| - 1];
      var sofar := SuspectedOrder(entries[..|entries| - 1], allowed, h, meaningful);
      var s := SuspicionOf(e, HashOf(h, e.id), meaningful);
      if e.id in allowed && s.Some? && e.id !in sofar then sofar + [e.id] else sofar
  }

  /** A closing verdict needs substantial evidence and no missing lemma. */
  predicate ClosureRejected(e: Entry)
    requires e.status.Some? && e.missing.Some?
  {
    !e.status.value.ClaimsUnresolved? && (|EvidenceText(e)| < MIN_EVIDENCE || e.missing.value !in {"", "none", "(none)"})
  }

  function StatusOf(c: Claimed): Status {
    match c
    case ClaimsProved => Proved
    case ClaimsDisproved => Disproved
    case ClaimsUnresolved => Unresolved
  }

  function KindOf(i: Option<Invalidation>): Kind {
    match i
    case Some(OfPremise) => Premise
    case Some(OfSuspectedPremise) => PremiseSuspected
    case _ => Approach
  }

  /** What a disproof of a premise amounts to, given the suspicion and its review. */
  function PremiseVerdict(e: Entry, s: Option<Suspicion>, review: Option<Review>): Verdict {
    match s
    case None => Verdict(Unresolved, "Premise suspicion rejected.", NoKind, "")
    case Some(sp) =>
      if review.Some? && review.value.status == Invalidated && review.value.verified then
        Verdict(Disproved, EvidenceText(e), PremiseInvalidated, sp.premise)
      else if review.Some? && review.value.status in {NotConfirmed, Rescued, Inconclusive} then
        Verdict(Disproved, EvidenceText(e), ApproachFailed, sp.premise)
      else
        Verdict(Unresolved, EvidenceText(e), PremiseSuspected, sp.premise)
  }

  function VerdictOf(e: Entry, s: Option<Suspicion>, review: Option<Review>): Option<Verdict> {
    if e.status.None? || e.evidence.None? || e.missing.None? then None
    else if ClosureRejected(e) then Some(Verdict(Unresolved, "Closure rejected.", NoKind, ""))
    else if e.status.value.ClaimsDisproved? then
      if SuspectsPremise(e) then Some(PremiseVerdict(e, s, review))
      else Some(Verdict(Disproved, EvidenceText(e), ApproachFailed, e.premise))
    else Some(Verdict(StatusOf(e.status.value), EvidenceText(e), KindOf(e.invalidation), e.premise))
  }

  function Find<T>(m: map<Id, T>, id: Id): Option<T> {
    if id in m then Some(m[id]) else None
  }

  function Verdicts(entries: seq<Entry>, allowed: set<Id>, suspicions: map<Id, Suspicion>, reviews: map<Id, Review>)
    : map<Id, Verdict>
  {
    if entries == [] then map[] else
      var e := entries[|entries| - 1];
      var sofar := Verdicts(entries[..|entries| - 1], allowed, suspicions, reviews);
      var v := VerdictOf(e, Find(suspicions, e.id), Find(reviews, e.id));
      if e.id in allowed && v.Some? then sofar[e.id := v.value] else sofar
  }

  /** An entry that supplies a status, evidence, and a missing-lemma field. */
  predicate Complete(e: Entry) {
    e.status.Some? && e.evidence.Some? && e.missing.Some?
  }

  /** The last complete entry about an obligation. */
  function LastComplete(entries: seq<Entry>, id: Id): Option<Entry> {
    if entries == [] then None else
      var e := entries[|entries| - 1];
      if e.id == id && Complete(e) then Some(e) else LastComplete(entries[..|entries| - 1], id)
  }

  /** The verdict about an obligation is read off its last complete entry. */
  lemma {:induction false} VerdictIsLast(
      entries: seq<Entry>, allowed: set<Id>, suspicions: map<Id, Suspicion>, reviews: map<Id, Review>, id: Id)
    requires id in allowed
    ensures Find(Verdicts(entries, allowed, suspicions, reviews), id) ==
            match LastComplete(entries, id)
            case None => None
            case Some(e) => VerdictOf(e, Find(suspicions, id), Find(reviews, id))
    decreases |entries|
  {
    if entries != [] {
      VerdictIsLast(entries[..|entries| - 1], allowed, suspicions, reviews, id);
    }
  }

  /** An entry that disproves a premise with evidence and names no missing lemma. */
  predicate Refutes(e: Entry) {
    && e.status == Some(ClaimsDisproved) && SuspectsPremise(e)
    && e.evidence.Some? && |EvidenceText(e)| >= MIN_EVIDENCE
    && e.missing.Some? && e.missing.value in {"", "none", "(none)"}
  }

  /** With a suspicion and a verified review at hand, exactly such an entry invalidates. */
  lemma RefutesExactlyWhen(e: Entry, s: Suspicion, review: Review)
    requires Complete(e) && review.verified && review.status == Invalidated
    ensures VerdictOf(e, Some(s), Some(review)).Some?
    ensures VerdictOf(e, Some(s), Some(review)).value.kind.PremiseInvalidated? <==> Refutes(e)
  {
  }

  /** What one reading of the critic's entries decides about the obligations it may touch. */
  ghost function DecisionsFrom(obs: seq<Ob>, entries: seq<Entry>, ids: set<Id>, reviews: map<Id, Review>,
                               meaningful: string -> bool, run: string): Decisions {
    var suspicions := Suspicions(entries, ids, LeanHashes(obs, ids), meaningful);
    Decisions(ids, Verdicts(entries, ids, suspicions, reviews), suspicions, reviews, run)
  }

  /** No entry can invalidate a premise without a suspicion of that obligation and a verified review. */
  lemma {:induction false} InvalidationNeedsReview(
      entries: seq<Entry>, allowed: set<Id>, suspicions: map<Id, Suspicion>, reviews: map<Id, Review>, id: Id)
    requires id in Verdicts(entries, allowed, suspicions, reviews)
    requires Verdicts(entries, allowed, suspicions, reviews)[id].kind.PremiseInvalidated?
    ensures id in allowed && id in suspicions && id in reviews
    ensures reviews[id].verified && reviews[id].status == Invalidated
    decreases |entries|
  {
    var e := entries[|entries| - 1];
    var before := entries[..|entries| - 1];
    var v := VerdictOf(e, Find(suspicions, e.id), Find(reviews, e.id));
    if !(e.id in allowed && v.Some? && e.id == id) {
      InvalidationNeedsReview(before, allowed, suspicions, reviews, id);
    }
  }

  lemma ExtractStep(entries: seq<Entry>, i: nat, allowed: set<Id>, h: Hashes, meaningful: string -> bool,
                    sofar: map<Id, Suspicion>, order: seq<Id>, s: Option<Suspicion>)
    requires i < |entries| && s == SuspicionOf(entries[i], HashOf(h, entries[i].id), meaningful)
    requires sofar == Suspicions(entries[..i], allowed, h, meaningful)
    requires order == SuspectedOrder(entries[..i], allowed, h, meaningful)
    ensures var id, taken := entries[i].id, entries[i].id in allowed && s.Some?;
            && Suspicions(entries[..i + 1], allowed, h, meaningful) == (if taken then sofar[id := s.value] else sofar)
            && SuspectedOrder(entries[..i + 1], allowed, h, meaningful) ==
                 (if taken && id !in sofar then order + [id] else order)
  {
    assert entries[..i + 1][..i] == entries[..i];
  }

  /** The extraction loop; the order is that in which ids enter the map. */
  method ExtractSuspicions(entries: seq<Entry>, allowed: set<Id>, h: Hashes, meaningful: string -> bool)
    returns (suspicions: map<Id, Suspicion>, order: seq<Id>)
    ensures suspicions == Suspicions(entries, allowed, h, meaningful)
    ensures order == SuspectedOrder(entries, allowed, h, meaningful)
  {
    suspicions, order := map[], [];
    for i := 0 to |entries|
      invariant suspicions == Suspicions(entries[..i], allowed, h, meaningful)
      invariant order == SuspectedOrder(entries[..i], allowed, h, meaningful)
    {
      var id := entries[i].id;
      var s := SuspicionOf(entries[i], HashOf(h, id), meaningful);
      ExtractStep(entries, i, allowed, h, meaningful, suspicions, order, s);
      if id in allowed && s.Some? {
        order := if id in suspicions then order else order + [id];
        suspicions := suspicions[id := s.value];
      }
    }
    assert entries[..|entries|] == entries;
  }

  /** The verdict loop. */
  method ReadVerdicts(entries: seq<Entry>, allowed: set<Id>, suspicions: map<Id, Suspicion>, reviews: map<Id, Review>)
    returns (verdicts: map<Id, Verdict>)
    ensures verdicts == Verdicts(entries, allowed, suspicions, reviews)
  {
    verdicts := map[];
    for i := 0 to |entries|
      invariant verdicts == Verdicts(entries[..i], allowed, suspicions, reviews)
    {
      assert entries[..i + 1][..i] == entries[..i];
      var e := entries[i];
      if e.id in allowed {
        var v := VerdictOf(e, Find(suspicions, e.id), Find(reviews, e.id));
        if v.Some? {
          verdicts := verdicts[e.id := v.value];
        }
      }
    }
    assert entries[..|entries|] == entries;
  }
}
