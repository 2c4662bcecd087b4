// Which obligations the frontier offers, and when it can run dry.
module LedgerFrontier {
  import opened Sequences
  import opened Evidence
  import opened LedgerGraph
  import opened LedgerModel

  lemma NodesKeepIds(obs: seq<Ob>)
    ensures InvalidIds(obs) <= IdSet(Nodes(obs))
    ensures EligibleIds(obs) <= IdSet(Nodes(obs))
    ensures PendingIds(obs) <= EligibleIds(obs)
  {
    var g := Nodes(obs);
    forall i | 0 <= i < |obs| ensures obs[i].node.id in IdSet(g) {
      assert g[i].id == obs[i].node.id;
    }
  }

  /** An obligation is eligible exactly when it is UNRESOLVED and nothing above it is invalid. */
  lemma EligibleExactlyWhen(obs: seq<Ob>, i: nat)
    requires UniqueIds(Nodes(obs)) && NamedIds(Nodes(obs)) && i < |obs|
    ensures EligibleAt(obs, i) <==>
            obs[i].status.Unresolved? &&
            forall j :: 0 <= j < |obs| && IsInvalid(obs[j]) ==> !Below(Nodes(obs), obs[i].node.id, obs[j].node.id)
  {
    var g := Nodes(obs);
    NodesKeepIds(obs);
    IndexIsUnique(g, i);
    assert ParentOf(g, obs[i].node.id) == obs[i].node.parent;
    WalkMeetsAncestor(g, obs[i].node.id, InvalidIds(obs));
    if a :| a in InvalidIds(obs) && Below(g, obs[i].node.id, a) {
      var j :| 0 <= j < |obs| && IsInvalid(obs[j]) && obs[j].node.id == a;
    }
  }

  /** Obligation j is pending, at or below obligation i. */
  ghost predicate PendingUnder(obs: seq<Ob>, i: nat, j: nat)
    requires i < |obs| && j < |obs|
  {
    PendingAt(obs, j) && (j == i || Below(Nodes(obs), obs[j].node.id, obs[i].node.id))
  }

  /** Obligation i is its own strict ancestor, and every ancestor of it is eligible. */
  ghost predicate Stuck(obs: seq<Ob>, i: nat)
    requires i < |obs|
  {
    Below(Nodes(obs), obs[i].node.id, obs[i].node.id) &&
    forall n: nat :: Up(Nodes(obs), obs[i].node.id, n) in EligibleIds(obs)
  }

  /** Everything eligible below obligation i is above it as well. */
  ghost predicate OnlyItsCycle(obs: seq<Ob>, i: nat)
    requires i < |obs|
  {
    forall k :: 0 <= k < |obs| && EligibleAt(obs, k) && Below(Nodes(obs), obs[k].node.id, obs[i].node.id) ==>
      Below(Nodes(obs), obs[i].node.id, obs[k].node.id)
  }

  lemma EligibleIdsAt(obs: seq<Ob>, i: nat)
    requires UniqueIds(Nodes(obs)) && i < |obs|
    ensures obs[i].node.id in EligibleIds(obs) <==> EligibleAt(obs, i)
  {
    if j :| 0 <= j < |obs| && EligibleAt(obs, j) && obs[j].node.id == obs[i].node.id {
      assert Nodes(obs)[j].id == Nodes(obs)[i].id;
    }
  }

  /** The chain from obligation k up to obligation i, all of it eligible. */
  ghost predicate Descent(obs: seq<Ob>, i: nat, k: nat, n: nat) {
    && i < |obs| && k < |obs| && Up(Nodes(obs), obs[k].node.id, n) == obs[i].node.id
    && forall m: nat :: m <= n ==> Up(Nodes(obs), obs[k].node.id, m) in EligibleIds(obs)
  }

  /** A descent that comes back to an id of its own has gone round a cycle that holds i. */
  lemma ClosedDescentIsStuck(obs: seq<Ob>, i: nat, k: nat, n: nat, p: nat)
    requires Descent(obs, i, k, n) && 1 <= p <= n && Up(Nodes(obs), obs[k].node.id, p) == obs[k].node.id
    ensures Stuck(obs, i)
  {
    var g, x, y := Nodes(obs), obs[k].node.id, obs[i].node.id;
    assert Up(g, x, 0) == x;
    UpReturns(g, x, 0, p, n);
    UpAdd(g, x, n, p);
    assert Up(g, y, p) == y;
    forall m: nat ensures Up(g, y, m) in EligibleIds(obs) {
      UpAdd(g, x, n, m);
      UpRepeats(g, x, 0, p, n + m);
    }
  }

  /** From an eligible child the descent goes one link further. */
  lemma DescentExtends(obs: seq<Ob>, i: nat, k: nat, n: nat, c: nat)
    requires UniqueIds(Nodes(obs)) && Descent(obs, i, k, n)
    requires c < |obs| && EligibleAt(obs, c) && obs[c].node.parent == obs[k].node.id
    ensures Descent(obs, i, c, n + 1)
    ensures forall m: nat :: m <= n ==> Up(Nodes(obs), obs[c].node.id, m + 1) == Up(Nodes(obs), obs[k].node.id, m)
  {
    var g, x := Nodes(obs), obs[c].node.id;
    assert g[c].id == x;
    IndexIsUnique(g, c);
    forall m: nat | m <= n ensures Up(g, x, m + 1) == Up(g, obs[k].node.id, m) {
      UpShift(g, x, m);
    }
    EligibleIdsAt(obs, c);
    forall m: nat | m <= n + 1 ensures Up(g, x, m) in EligibleIds(obs) {
      if m > 0 {
        assert Up(g, x, (m - 1) + 1) == Up(g, obs[k].node.id, m - 1);
      }
    }
    assert Up(g, x, n + 1) == Up(g, obs[k].node.id, n);
  }

  /** The ids in `path` stand strictly above obligation k, at most n links up. */
  ghost predicate Walked(g: Graph, x: Id, n: nat, path: set<Id>) {
    forall y :: y in path ==> WithinReach(g, x, n, y)
  }

  ghost predicate WithinReach(g: Graph, x: Id, n: nat, y: Id) {
    exists p: nat :: 1 <= p <= n && Up(g, x, p) == y
  }

  lemma WalkedExtends(g: Graph, x: Id, n: nat, path: set<Id>, c: Id)
    requires Walked(g, x, n, path) && forall m: nat :: m <= n ==> Up(g, c, m + 1) == Up(g, x, m)
    ensures Walked(g, c, n + 1, path + {x})
  {
    forall y | y in path + {x} ensures WithinReach(g, c, n + 1, y) {
      if y in path {
        var p: nat :| 1 <= p <= n && Up(g, x, p) == y;
        assert Up(g, c, p + 1) == y;
      } else {
        assert Up(g, x, 0) == x;
        assert Up(g, c, 0 + 1) == y;
      }
    }
  }

  /** Going down from child to eligible child ends at a pending obligation, or goes round a cycle through i. */
  lemma {:induction false} Descend(obs: seq<Ob>, i: nat, k: nat, n: nat, path: set<Id>) returns (j: nat)
    requires UniqueIds(Nodes(obs)) && Descent(obs, i, k, n) && path <= IdSet(Nodes(obs))
    requires Walked(Nodes(obs), obs[k].node.id, n, path)
    ensures j < |obs| && (PendingUnder(obs, i, j) || Stuck(obs, i))
    decreases IdSet(Nodes(obs)) - path
  {
    var g, id := Nodes(obs), obs[k].node.id;
    assert g[k].id == id && Up(g, id, 0) == id;
    EligibleIdsAt(obs, k);
    if PendingAt(obs, k) {
      j := k;
      if n > 0 {
        assert Below(g, id, obs[i].node.id);
      } else {
        assert g[i].id == g[k].id;
      }
    } else if id in path {
      assert WithinReach(g, id, n, id);
      var p: nat :| 1 <= p <= n && Up(g, id, p) == id;
      ClosedDescentIsStuck(obs, i, k, n, p);
      j := k;
    } else {
      var c :| 0 <= c < |obs| && EligibleAt(obs, c) && obs[c].node.parent == id;
      DescentExtends(obs, i, k, n, c);
      WalkedExtends(g, id, n, path, obs[c].node.id);
      j := Descend(obs, i, c, n + 1, path + {id});
    }
  }

  lemma PendingOrStuck(obs: seq<Ob>, i: nat) returns (j: nat)
    requires UniqueIds(Nodes(obs)) && i < |obs| && EligibleAt(obs, i)
    ensures j < |obs| && (PendingUnder(obs, i, j) || Stuck(obs, i))
  {
    EligibleIdsAt(obs, i);
    assert Up(Nodes(obs), obs[i].node.id, 0) == obs[i].node.id;
    j := Descend(obs, i, i, 0, {});
  }

  /** Two obligations on one cycle are above each other. */
  lemma AboveOnCycle(g: Graph, x: Id, y: Id)
    requires Below(g, x, x) && Below(g, x, y)
    ensures Below(g, y, x)
  {
    var p: nat :| p >= 1 && Up(g, x, p) == x;
    var n: nat :| n >= 1 && Up(g, x, n) == y;
    Rounds(g, x, p, n);
    UpAdd(g, x, n, n * p - n + p);
    assert n + (n * p - n + p) == (n + 1) * p;
    Rounds(g, x, p, n + 1);
  }

  lemma {:induction false} Rounds(g: Graph, x: Id, p: nat, k: nat)
    requires Up(g, x, p) == x
    ensures Up(g, x, k * p) == x
  {
    if k > 0 {
      Rounds(g, x, p, k - 1);
      UpAdd(g, x, (k - 1) * p, p);
      assert (k - 1) * p + p == k * p;
    } else {
      assert k * p == 0;
    }
  }

  /** On a cycle of eligible obligations nobody is pending: each has the one before it as an eligible child. */
  lemma StuckIsNotPending(obs: seq<Ob>, i: nat, j: nat)
    requires SoundGraph(Nodes(obs)) && i < |obs| && j < |obs| && Stuck(obs, i)
    requires j == i || Below(Nodes(obs), obs[i].node.id, obs[j].node.id)
    ensures !PendingAt(obs, j)
  {
    var g, x := Nodes(obs), obs[i].node.id;
    assert g[j].id == obs[j].node.id && g[i].id == x;
    var n: nat :| n >= 1 && Up(g, x, n) == obs[j].node.id;
    var child := Up(g, x, n - 1);
    assert child in EligibleIds(obs);
    var c :| 0 <= c < |obs| && EligibleAt(obs, c) && obs[c].node.id == child;
    assert g[c].id == child;
    IndexIsUnique(g, c);
    assert obs[c].node.parent == obs[j].node.id != "";
  }

  /**
   * Frontier progress, exactly: something is pending at or below an eligible obligation unless that obligation
   * lies on a cycle of eligible obligations and nothing eligible hangs off the cycle. In an acyclic ledger the
   * frontier is therefore empty only when nothing is eligible.
   */
  lemma FrontierProgress(obs: seq<Ob>, i: nat)
    requires SoundGraph(Nodes(obs)) && i < |obs| && EligibleAt(obs, i)
    ensures (exists j :: 0 <= j < |obs| && PendingUnder(obs, i, j)) <==> !(Stuck(obs, i) && OnlyItsCycle(obs, i))
    ensures Acyclic(Nodes(obs)) ==> exists j :: 0 <= j < |obs| && PendingUnder(obs, i, j)
  {
    var g, x := Nodes(obs), obs[i].node.id;
    assert g[i].id == x;
    if Stuck(obs, i) && OnlyItsCycle(obs, i) {
      forall j | 0 <= j < |obs| && (j == i || Below(g, obs[j].node.id, x)) ensures !PendingAt(obs, j) {
        if EligibleAt(obs, j) {
          StuckIsNotPending(obs, i, j);
        }
      }
    } else {
      OffTheCycle(obs, i);
    }
  }

  lemma OffTheCycle(obs: seq<Ob>, i: nat)
    requires SoundGraph(Nodes(obs)) && i < |obs| && EligibleAt(obs, i) && !(Stuck(obs, i) && OnlyItsCycle(obs, i))
    ensures exists j :: 0 <= j < |obs| && PendingUnder(obs, i, j)
  {
    var g, x := Nodes(obs), obs[i].node.id;
    var j := PendingOrStuck(obs, i);
    if !PendingUnder(obs, i, j) {
      var k :| 0 <= k < |obs| && EligibleAt(obs, k) && Below(g, obs[k].node.id, x) && !Below(g, x, obs[k].node.id);
      var m := PendingOrStuck(obs, k);
      if PendingUnder(obs, k, m) {
        if m != k {
          BelowTransitive(g, obs[m].node.id, obs[k].node.id, x);
        }
        assert PendingUnder(obs, i, m);
      } else {
        AboveOnCycle(g, obs[k].node.id, x);
      }
    }
  }

  /** The frontier is empty exactly when every eligible obligation lies on such a cycle. */
  lemma FrontierIsEmptyExactlyWhen(obs: seq<Ob>)
    requires SoundGraph(Nodes(obs))
    ensures PendingIds(obs) == {} <==>
            forall i :: 0 <= i < |obs| && EligibleAt(obs, i) ==> Stuck(obs, i) && OnlyItsCycle(obs, i)
  {
    if PendingIds(obs) == {} {
      forall i | 0 <= i < |obs| && EligibleAt(obs, i) ensures Stuck(obs, i) && OnlyItsCycle(obs, i) {
        FrontierProgress(obs, i);
        forall j | 0 <= j < |obs| ensures !PendingAt(obs, j) {
          assert obs[j].node.id !in PendingIds(obs);
        }
      }
    } else {
      var x :| x in PendingIds(obs);
      var i :| 0 <= i < |obs| && PendingAt(obs, i) && obs[i].node.id == x;
      FrontierProgress(obs, i);
      assert PendingUnder(obs, i, i);
    }
  }

  /** What the loader checks about obligations: unique ids, known parents, no self-parents. */
  predicate LoaderAccepts(obs: seq<Ob>) {
    && obs != [] && UniqueIds(Nodes(obs))
    && forall i :: 0 <= i < |obs| ==>
      obs[i].node.parent == "" || (obs[i].node.parent in IdSet(Nodes(obs)) && obs[i].node.parent != obs[i].node.id)
  }

  function Plain(id: Id, parent: Id): Ob {
    Ob(Node(id, "s", parent), Unresolved, NoKind, Blank, "", Blank, "", NoProvenance, NoMark, "", "",
       NoReview, NoProvenance, "", "", "", Unformalized, "", "", NoMark)
  }

  /** Acyclicity is needed: two obligations below each other pass the loader and leave the frontier empty. */
  lemma LoadedCycleHasNoFrontier()
    ensures var obs := [Plain("a", "b"), Plain("b", "a")];
            LoaderAccepts(obs) && EligibleAt(obs, 0) && EligibleAt(obs, 1) && Pending(obs) == []
  {
    var obs := [Plain("a", "b"), Plain("b", "a")];
    assert "a"[0] != "b"[0];
    assert Nodes(obs)[0].id == "a" && Nodes(obs)[1].id == "b";
    EligibleExactlyWhen(obs, 0);
    EligibleExactlyWhen(obs, 1);
    assert PendingFrom(obs, 2) == [];
    assert PendingFrom(obs, 1) == [];
  }

  /** The frontier depends on ids, parents, statuses and invalidity alone. */
  lemma {:induction false} PendingFromCongruence(a: seq<Ob>, b: seq<Ob>, i: nat)
    requires i <= |a| && SameFrontierData(a, b)
    ensures PendingFrom(a, i) == PendingFrom(b, i)
    decreases |a| - i
  {
    assert InvalidIds(a) == InvalidIds(b) by {
      forall k | 0 <= k < |a| ensures a[k].node.id == b[k].node.id {
        assert Nodes(a)[k] == Nodes(b)[k];
      }
    }
    if i < |a| {
      forall k | 0 <= k < |a| ensures a[k].node == b[k].node && (EligibleAt(a, k) <==> EligibleAt(b, k)) {
        assert Nodes(a)[k] == Nodes(b)[k];
      }
      PendingFromCongruence(a, b, i + 1);
    }
  }

  ghost predicate SameFrontierData(a: seq<Ob>, b: seq<Ob>) {
    && |a| == |b| && Nodes(a) == Nodes(b)
    && forall i :: 0 <= i < |a| ==> a[i].status == b[i].status && (IsInvalid(a[i]) <==> IsInvalid(b[i]))
  }

  lemma PendingHead(obs: seq<Ob>, i: nat, head: seq<Id>)
    requires i < |obs| && head == if PendingAt(obs, i) then [obs[i].node.id] else []
    ensures PendingFrom(obs, i) == head + PendingFrom(obs, i + 1)
  {
  }

  /** The pending list holds exactly the pending obligations. */
  lemma {:induction false} PendingListsAll(obs: seq<Ob>, i: nat, x: Id)
    requires i <= |obs|
    ensures x in PendingFrom(obs, i) <==> exists j :: i <= j < |obs| && PendingAt(obs, j) && obs[j].node.id == x
    decreases |obs| - i
  {
    if i < |obs| {
      PendingListsAll(obs, i + 1, x);
      var head := if PendingAt(obs, i) then [obs[i].node.id] else [];
      PendingHead(obs, i, head);
      assert x in head + PendingFrom(obs, i + 1) <==> x in head || x in PendingFrom(obs, i + 1);
    }
  }

  /** Listing the frontier from the front. */
  lemma PendingStep(obs: seq<Ob>, i: nat, r: seq<Id>)
    requires i < |obs|
    ensures (if PendingAt(obs, i) then r + [obs[i].node.id] else r) + PendingFrom(obs, i + 1) == r + PendingFrom(obs, i)
  {
    var head, rest := if PendingAt(obs, i) then [obs[i].node.id] else [], PendingFrom(obs, i + 1);
    PendingHead(obs, i, head);
    Assoc(r, head, rest);
    NilRight(r);
  }

  /** A pending obligation has nothing invalid above it, and is not invalid itself. */
  lemma NothingPendingBelowInvalid(obs: seq<Ob>, i: nat, j: nat)
    requires UniqueIds(Nodes(obs)) && NamedIds(Nodes(obs)) && i < |obs| && j < |obs|
    requires IsInvalid(obs[j]) && (i == j || Below(Nodes(obs), obs[i].node.id, obs[j].node.id))
    ensures !PendingAt(obs, i)
  {
    EligibleExactlyWhen(obs, i);
  }
}
