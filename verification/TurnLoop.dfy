// One turn of the loop, over the mutable ledger.
module TurnLoop {
  import opened Wrappers
  import opened Evidence
  import opened LedgerGraph
  import opened LedgerModel
  import opened Critic
  import Turns
  import opened ProofLedger

  method ExtractFrom(ledger: ProofObligationLedger, t: Turns.Turn) returns (suspicions: map<Id, Suspicion>, order: seq<Id>)
    requires ledger.Valid()
    ensures suspicions == Turns.SuspicionsIn(Views(ledger.obligations), t)
    ensures order == Turns.SuspectedIn(Views(ledger.obligations), t)
  {
    var h := ledger.CollectLeanHashes(t.chosen);
    suspicions, order := ExtractSuspicions(t.entries, t.chosen, h, t.meaningful);
  }

  method LeavesRoomForChild(ledger: ProofObligationLedger, t: Turns.Turn) returns (b: bool)
    ensures b <==> Turns.MayDecompose(Views(ledger.obligations), t)
  {
    if t.child == None || t.uncovered || t.child.value.0 !in t.chosen {
      return false;
    }
    var open, suspected := false, false;
    ghost var obs := Views(ledger.obligations);
    for i := 0 to |ledger.obligations|
      invariant open <==> exists k :: 0 <= k < i && obs[k].node.id == t.child.value.0 && obs[k].status.Unresolved?
      invariant suspected <==> exists k :: 0 <= k < i && obs[k].node.id in t.chosen && obs[k].kind.PremiseSuspected?
    {
      var o := ledger.obligations[i];
      open := open || (o.id == t.child.value.0 && o.status == Unresolved);
      suspected := suspected || (o.id in t.chosen && o.kind == PremiseSuspected);
    }
    return open && !suspected;
  }

  /** Extract, checkpoint, and review: what the turn knows when it reads the verdicts. */
  method Suspect(ledger: ProofObligationLedger, t: Turns.Turn, ghost l: L) returns (reviews: map<Id, Review>)
    requires ledger.Valid() && ledger.State() == Turns.AfterAudit(l, t)
    modifies ledger`version, ledger.obligations
    ensures ledger.State() == Turns.AfterCheckpoint(l, t)
    ensures reviews == Turns.Reviews(t, Turns.SuspicionsIn(Turns.AfterAudit(l, t).obs, t))
  {
    var suspicions, order := ExtractFrom(ledger, t);
    assert Views(ledger.obligations) == Turns.AfterAudit(l, t).obs;
    var marks := Turns.Marks(order, suspicions);
    assert marks == Turns.TurnMarks(l, t);
    ledger.CheckpointSuspicions(marks, t.run);
    reviews := Turns.Reviews(t, suspicions);
  }

  method Finish(ledger: ProofObligationLedger, t: Turns.Turn, ghost l: L)
    requires ledger.Valid() && t.chosen != {} && ledger.State() == Turns.AfterVerdicts(l, t)
    modifies ledger`version, ledger`obligations, ledger.obligations
    ensures ledger.Valid() && ledger.State() == Turns.PlayTurn(l, t)
  {
    var room := LeavesRoomForChild(ledger, t);
    if room {
      var _ := ledger.PersistVerifiedDecomposition(t.child.value.0, t.child.value.1, t.run);
    }
  }

  method ApplyTo(ledger: ProofObligationLedger, t: Turns.Turn, reviews: map<Id, Review>, ghost l: L)
    requires ledger.Valid() && ledger.State() == Turns.AfterCheckpoint(l, t)
    requires reviews == Turns.Reviews(t, Turns.SuspicionsIn(Turns.AfterAudit(l, t).obs, t))
    modifies ledger`version, ledger`lessons, ledger`backjumpTargetId, ledger.obligations, ledger.lessons
    ensures ledger.Valid() && ledger.State() == Turns.AfterVerdicts(l, t)
  {
    ledger.ApplyCriticVerdicts(t.entries, t.chosen, reviews, t.meaningful, t.run);
  }

  method Decide(ledger: ProofObligationLedger, t: Turns.Turn, ghost l: L)
    requires ledger.Valid() && ledger.State() == Turns.AfterAudit(l, t)
    modifies ledger`version, ledger`lessons, ledger`backjumpTargetId, ledger.obligations, ledger.lessons
    ensures ledger.Valid() && ledger.State() == Turns.AfterVerdicts(l, t)
  {
    var reviews := Suspect(ledger, t, l);
    ApplyTo(ledger, t, reviews, l);
  }

  method Work(ledger: ProofObligationLedger, t: Turns.Turn, ghost l: L)
    requires ledger.Valid() && t.chosen != {} && ledger.State() == Turns.AfterAudit(l, t)
    modifies ledger, ledger.obligations, ledger.lessons
    ensures ledger.Valid() && ledger.State() == Turns.PlayTurn(l, t)
  {
    Decide(ledger, t, l);
    Finish(ledger, t, l);
  }

  /** Audit, extract, checkpoint, review, apply, persist. */
  method Play(ledger: ProofObligationLedger, t: Turns.Turn)
    requires ledger.Valid()
    modifies ledger, ledger.obligations, ledger.lessons
    ensures ledger.Valid() && ledger.State() == Turns.PlayTurn(old(ledger.State()), t)
  {
    ghost var l := ledger.State();
    var _ := ledger.AuditSemanticDuplicates(t.equiv);
    if t.chosen != {} {
      Work(ledger, t, l);
    }
  }
}
