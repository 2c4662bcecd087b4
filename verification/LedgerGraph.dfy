// The parent graph of a proof ledger: ancestor walks, descendants, and what acyclicity gives.
module LedgerGraph {
  import opened Wrappers

  type Id = string

  /** The immutable part of an obligation. The parent of a root is the empty id. */
  datatype Node = Node(id: Id, statement: string, parent: Id)

  type Graph = seq<Node>

  predicate UniqueIds(g: Graph) {
    forall i, j :: 0 <= i < j < |g| ==> g[i].id != g[j].id
  }

  predicate NamedIds(g: Graph) {
    forall i :: 0 <= i < |g| ==> g[i].id != ""
  }

  function IdSet(g: Graph): set<Id> {
    set i | 0 <= i < |g| :: g[i].id
  }

  /** Dictionary lookup. */
  ghost function IndexOf(g: Graph, id: Id): (r: Option<nat>)
    ensures r.Some? ==> r.value < |g| && g[r.value].id == id
    ensures r.None? <==> id !in IdSet(g)
  {
    if id !in IdSet(g) then None
    else
      var i :| 0 <= i < |g| && g[i].id == id;
      Some(i)
  }

  predicate Known(g: Graph, id: Id) {
    id in IdSet(g)
  }

  lemma IndexIsUnique(g: Graph, i: nat)
    requires UniqueIds(g) && i < |g|
    ensures IndexOf(g, g[i].id) == Some(i)
  {
    var j := IndexOf(g, g[i].id);
    assert g[i].id in IdSet(g);
  }

  /** The parent link of a node; an id that is not in the graph leads nowhere but to itself. */
  ghost function ParentOf(g: Graph, id: Id): Id {
    match IndexOf(g, id)
    case None => id
    case Some(i) => g[i].parent
  }

  /** The n-th ancestor; once the chain has left the graph, the id it left by. */
  ghost function Up(g: Graph, id: Id, n: nat): Id {
    if n == 0 then id else ParentOf(g, Up(g, id, n - 1))
  }

  /** `a` is a strict ancestor of `x`. */
  ghost predicate Below(g: Graph, x: Id, a: Id) {
    exists n: nat :: n >= 1 && Up(g, x, n) == a
  }

  ghost predicate Acyclic(g: Graph) {
    forall x, n: nat :: Known(g, x) && n >= 1 ==> Up(g, x, n) != x
  }

  /** Every non-empty parent id is the id of an earlier node. */
  predicate ParentsPrecede(g: Graph) {
    forall i :: 0 <= i < |g| && g[i].parent != "" ==> exists j :: 0 <= j < i && g[j].id == g[i].parent
  }

  ghost function Descendants(g: Graph, root: Id): set<Id> {
    set x | x in IdSet(g) && x != root && Below(g, x, root)
  }

  lemma {:induction false} UpShift(g: Graph, x: Id, n: nat)
    ensures Up(g, x, n + 1) == Up(g, ParentOf(g, x), n)
  {
    if n > 0 {
      UpShift(g, x, n - 1);
    }
  }

  lemma {:induction false} UpAdd(g: Graph, x: Id, n: nat, k: nat)
    ensures Up(g, x, n + k) == Up(g, Up(g, x, n), k)
  {
    if k > 0 {
      UpAdd(g, x, n, k - 1);
    }
  }

  lemma BelowTransitive(g: Graph, x: Id, y: Id, z: Id)
    requires Below(g, x, y) && Below(g, y, z)
    ensures Below(g, x, z)
  {
    var n: nat :| n >= 1 && Up(g, x, n) == y;
    var k: nat :| k >= 1 && Up(g, y, k) == z;
    UpAdd(g, x, n, k);
    assert Up(g, x, n + k) == z;
  }

  lemma ParentIsAbove(g: Graph, i: nat)
    requires UniqueIds(g) && i < |g|
    ensures Below(g, g[i].id, g[i].parent)
  {
    IndexIsUnique(g, i);
    assert Up(g, g[i].id, 0) == g[i].id;
    assert Up(g, g[i].id, 1) == g[i].parent;
  }

  lemma {:induction false} UpOfNothing(g: Graph, x: Id, n: nat)
    requires !Known(g, x)
    ensures Up(g, x, n) == x
  {
    if n > 0 {
      UpOfNothing(g, x, n - 1);
    }
  }

  lemma EmptyIsUnknown(g: Graph)
    requires NamedIds(g)
    ensures !Known(g, "")
  {
  }

  lemma UpReturns(g: Graph, x: Id, j: nat, k: nat, d: nat)
    requires Up(g, x, j) == Up(g, x, k)
    ensures Up(g, x, j + d) == Up(g, x, k + d)
  {
    UpAdd(g, x, k, d);
    UpAdd(g, x, j, d);
  }

  /** `y` is one of the first k ids of the chain. */
  ghost predicate Among(g: Graph, x: Id, k: nat, y: Id) {
    exists i: nat :: i < k && Up(g, x, i) == y
  }

  /** On a chain that has come back to itself nothing new appears. */
  lemma {:induction false} UpRepeats(g: Graph, x: Id, j: nat, k: nat, n: nat)
    requires j < k && Up(g, x, j) == Up(g, x, k)
    ensures Among(g, x, k, Up(g, x, n))
    decreases n
  {
    if n < k {
      assert Up(g, x, n) == Up(g, x, n);
    } else {
      UpReturns(g, x, j, k, n - k);
      UpRepeats(g, x, j, k, j + (n - k));
      assert k + (n - k) == n;
    }
  }

  /** The guarded ancestor walk: the first id in `hits` from `cursor` upwards, never visiting an id twice. */
  ghost function FirstUp(g: Graph, cursor: Id, visited: set<Id>, hits: set<Id>): (r: Option<Id>)
    ensures r.Some? ==> r.value in hits && Known(g, r.value)
    decreases IdSet(g) - visited
  {
    if cursor == "" || cursor in visited then None else
      match IndexOf(g, cursor)
      case None => None
      case Some(i) => if cursor in hits then Some(cursor) else FirstUp(g, g[i].parent, visited + {cursor}, hits)
  }

  /** One link of the walk. */
  lemma WalkStep(g: Graph, cursor: Id, visited: set<Id>, hits: set<Id>)
    requires cursor != "" && cursor !in visited
    ensures FirstUp(g, cursor, visited, hits) ==
            match IndexOf(g, cursor)
            case None => None
            case Some(i) => if cursor in hits then Some(cursor) else FirstUp(g, g[i].parent, visited + {cursor}, hits)
  {
  }

  ghost predicate NoneUp(g: Graph, start: Id, hits: set<Id>) {
    forall n: nat :: Up(g, start, n) !in hits
  }

  /** `a` is the first id in `hits` on the chain from `start`. */
  ghost predicate Nearest(g: Graph, start: Id, hits: set<Id>, a: Id) {
    a in hits && exists n: nat :: Up(g, start, n) == a && forall i: nat :: i < n ==> Up(g, start, i) !in hits
  }

  /** The walk visits the chain in order until it meets `hits`, the top, or itself. */
  lemma {:induction false} WalkInvariant(g: Graph, start: Id, k: nat, visited: set<Id>, hits: set<Id>)
    requires NamedIds(g) && hits <= IdSet(g)
    requires forall i: nat :: i < k ==> Up(g, start, i) in visited && Up(g, start, i) !in hits
    requires forall v :: v in visited ==> Among(g, start, k, v)
    ensures match FirstUp(g, Up(g, start, k), visited, hits)
            case None => NoneUp(g, start, hits)
            case Some(a) => Nearest(g, start, hits, a)
    decreases IdSet(g) - visited
  {
    var cursor := Up(g, start, k);
    if cursor in visited {
      var j: nat :| j < k && Up(g, start, j) == cursor;
      forall n: nat ensures Up(g, start, n) !in hits {
        UpRepeats(g, start, j, k, n);
      }
    } else if !Known(g, cursor) {
      forall n: nat ensures Up(g, start, n) !in hits {
        if n >= k {
          UpAdd(g, start, k, n - k);
          UpOfNothing(g, cursor, n - k);
        }
      }
    } else {
      EmptyIsUnknown(g);
      if cursor !in hits {
        assert Up(g, start, k + 1) == ParentOf(g, cursor);
        forall v | v in visited + {cursor} ensures Among(g, start, k + 1, v) {
          if v != cursor {
            var i: nat :| i < k && Up(g, start, i) == v;
          }
        }
        WalkInvariant(g, start, k + 1, visited + {cursor}, hits);
      }
    }
  }

  /** The walk finds the nearest hit on the chain, and nothing exactly when there is none, cycles included. */
  lemma WalkFindsNearest(g: Graph, start: Id, hits: set<Id>)
    requires NamedIds(g) && hits <= IdSet(g)
    ensures match FirstUp(g, start, {}, hits)
            case None => NoneUp(g, start, hits)
            case Some(a) => Nearest(g, start, hits, a)
  {
    assert Up(g, start, 0) == start;
    WalkInvariant(g, start, 0, {}, hits);
  }

  /** From a node's parent, the walk meets a hit exactly when some strict ancestor is one. */
  lemma WalkMeetsAncestor(g: Graph, x: Id, hits: set<Id>)
    requires NamedIds(g) && hits <= IdSet(g)
    ensures FirstUp(g, ParentOf(g, x), {}, hits).Some? <==> exists a :: a in hits && Below(g, x, a)
  {
    WalkFindsNearest(g, ParentOf(g, x), hits);
    var r := FirstUp(g, ParentOf(g, x), {}, hits);
    if r.Some? {
      var n: nat :| Up(g, ParentOf(g, x), n) == r.value;
      UpShift(g, x, n);
      assert Up(g, x, n + 1) == r.value;
      assert Below(g, x, r.value);
    }
    if a :| a in hits && Below(g, x, a) {
      var n: nat :| n >= 1 && Up(g, x, n) == a;
      UpShift(g, x, n - 1);
      assert Up(g, ParentOf(g, x), n - 1) in hits;
    }
  }

  ghost predicate NoneAbove(g: Graph, x: Id, marks: set<Id>) {
    forall m: nat :: m >= 1 ==> Up(g, x, m) !in marks
  }

  /** `a` is the nearest strict ancestor of `x` in `marks`. */
  ghost predicate NearestAbove(g: Graph, x: Id, marks: set<Id>, a: Id) {
    a in marks && exists m: nat :: m >= 1 && Up(g, x, m) == a && forall i: nat :: 1 <= i < m ==> Up(g, x, i) !in marks
  }

  lemma NearestShifts(g: Graph, x: Id, hits: set<Id>, marks: set<Id>, a: Id)
    requires Nearest(g, ParentOf(g, x), hits, a)
    requires forall m: nat :: m >= 1 ==> (Up(g, x, m) in hits <==> Up(g, x, m) in marks)
    ensures NearestAbove(g, x, marks, a)
  {
    var p := ParentOf(g, x);
    var k: nat :| Up(g, p, k) == a && forall i: nat :: i < k ==> Up(g, p, i) !in hits;
    UpShift(g, x, k);
    var m := k + 1;
    assert Up(g, x, m) == a;
    forall i: nat | 1 <= i < m ensures Up(g, x, i) !in marks {
      UpShift(g, x, i - 1);
    }
  }

  /** From a node's parent, the walk returns the nearest strict ancestor in any set that agrees with the hits above it. */
  lemma WalkFindsNearestAbove(g: Graph, x: Id, hits: set<Id>, marks: set<Id>)
    requires NamedIds(g) && hits <= IdSet(g)
    requires forall m: nat :: m >= 1 ==> (Up(g, x, m) in hits <==> Up(g, x, m) in marks)
    ensures match FirstUp(g, ParentOf(g, x), {}, hits)
            case None => NoneAbove(g, x, marks)
            case Some(a) => NearestAbove(g, x, marks, a)
  {
    var p := ParentOf(g, x);
    WalkFindsNearest(g, p, hits);
    match FirstUp(g, p, {}, hits)
    case None =>
      forall m: nat | m >= 1 ensures Up(g, x, m) !in marks {
        UpShift(g, x, m - 1);
        assert Up(g, p, m - 1) !in hits;
      }
    case Some(a) => NearestShifts(g, x, hits, marks, a);
  }

  /** When parents precede children, walking up strictly lowers the index. */
  lemma {:induction false} UpLowersIndex(g: Graph, i: nat, n: nat)
    requires UniqueIds(g) && NamedIds(g) && ParentsPrecede(g) && i < |g| && n >= 1
    ensures Up(g, g[i].id, n) == "" || exists j: nat :: j < i && g[j].id == Up(g, g[i].id, n)
  {
    if n == 1 {
      IndexIsUnique(g, i);
      assert Up(g, g[i].id, 0) == g[i].id;
    } else {
      UpLowersIndex(g, i, n - 1);
      var y := Up(g, g[i].id, n - 1);
      EmptyIsUnknown(g);
      if y != "" {
        var j: nat :| j < i && g[j].id == y;
        IndexIsUnique(g, j);
      }
    }
  }

  lemma OrderedIsAcyclic(g: Graph)
    requires UniqueIds(g) && NamedIds(g) && ParentsPrecede(g)
    ensures Acyclic(g)
  {
    forall x, n: nat | Known(g, x) && n >= 1 ensures Up(g, x, n) != x {
      var i := IndexOf(g, x).value;
      UpLowersIndex(g, i, n);
    }
  }

  /** `closed` contains the root and every node whose parent it contains. */
  predicate ClosedUnder(g: Graph, root: Id, closed: set<Id>) {
    root in closed && forall i :: 0 <= i < |g| && g[i].parent in closed ==> g[i].id in closed
  }

  lemma {:induction false} ClosedHoldsBelow(g: Graph, root: Id, closed: set<Id>, x: Id, n: nat)
    requires UniqueIds(g) && ClosedUnder(g, root, closed)
    requires Up(g, x, n) == root
    ensures x in closed
    decreases n
  {
    if n > 0 {
      UpShift(g, x, n - 1);
      var p := ParentOf(g, x);
      if Known(g, x) {
        ClosedHoldsBelow(g, root, closed, p, n - 1);
        var i := IndexOf(g, x).value;
        assert g[i].parent in closed;
      } else {
        UpOfNothing(g, x, n);
      }
    }
  }

  /** The fixpoint loop: exactly the other nodes that reach the root by parent links, in any order, cycles included. */
  method DescendantIds(g: Graph, root: Id) returns (r: set<Id>)
    requires UniqueIds(g)
    ensures r == Descendants(g, root)
  {
    var descendants := {root};
    var changed := true;
    while changed
      invariant root in descendants
      invariant forall x :: x in descendants && x != root ==> x in Descendants(g, root)
      invariant !changed ==> ClosedUnder(g, root, descendants)
      decreases IdSet(g) + {root} - descendants, changed
    {
      changed := false;
      ghost var before := descendants;
      for i := 0 to |g|
        invariant root in descendants && before <= descendants
        invariant forall x :: x in descendants && x != root ==> x in Descendants(g, root)
        invariant !changed ==> descendants == before
        invariant !changed ==> forall j :: 0 <= j < i && g[j].parent in descendants ==> g[j].id in descendants
        invariant changed ==> IdSet(g) + {root} - descendants < IdSet(g) + {root} - before
      {
        if g[i].id !in descendants && g[i].parent in descendants {
          ParentIsAbove(g, i);
          if g[i].parent != root {
            BelowTransitive(g, g[i].id, g[i].parent, root);
          }
          assert g[i].id in IdSet(g) + {root} - before;
          descendants := descendants + {g[i].id};
          changed := true;
        }
      }
    }
    forall x | x in Descendants(g, root) ensures x in descendants {
      var n: nat :| n >= 1 && Up(g, x, n) == root;
      ClosedHoldsBelow(g, root, descendants, x, n);
    }
    r := descendants - {root};
  }

  /** Appending a fresh node below an existing one leaves every old chain as it was. */
  lemma {:induction false} UpAppend(g: Graph, node: Node, x: Id, n: nat)
    requires UniqueIds(g) && NamedIds(g) && !Known(g, node.id) && node.id != ""
    requires forall i :: 0 <= i < |g| ==> g[i].parent != node.id
    requires x != node.id
    ensures Up(g + [node], x, n) == Up(g, x, n) && Up(g, x, n) != node.id
  {
    if n > 0 {
      UpAppend(g, node, x, n - 1);
      LookupAppend(g, node, Up(g, x, n - 1));
      ParentIsNot(g, Up(g, x, n - 1), node.id);
    }
  }

  lemma ParentIsNot(g: Graph, x: Id, other: Id)
    requires x != other && forall i :: 0 <= i < |g| ==> g[i].parent != other
    ensures ParentOf(g, x) != other
  {
  }

  lemma LookupAppend(g: Graph, node: Node, x: Id)
    requires UniqueIds(g) && !Known(g, node.id) && x != node.id
    ensures ParentOf(g + [node], x) == ParentOf(g, x)
  {
    IdSetAppend(g, node);
    if Known(g, x) {
      var i, j := IndexOf(g, x).value, IndexOf(g + [node], x).value;
      assert (g + [node])[i].id == x;
    }
  }

  lemma IdSetAppend(g: Graph, node: Node)
    ensures IdSet(g + [node]) == IdSet(g) + {node.id}
  {
    var h := g + [node];
    forall x | x in IdSet(g) + {node.id} ensures x in IdSet(h) {
      if x == node.id {
        assert h[|g|].id == x;
      } else {
        var i :| 0 <= i < |g| && g[i].id == x;
        assert h[i].id == x;
      }
    }
  }
}
