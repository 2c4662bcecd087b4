// The autoregressive model behind the verifier and the baseline, seen through its key/value cache.
//
// Tensors are replaced by provenance: the slot a token leaves in the cache records the token, the
// position it was embedded at, and everything the attention of every layer could see at that moment.
// Two slots are equal exactly when the forward passes that computed them had the same inputs.
module Transformer {
  import opened Wrappers
  import GreedyRule

  type Token = GreedyRule.Token

  /** What one layer shows to a query: its visible keys and its visible values. */
  datatype View = View(keys: seq<Slot>, values: seq<Slot>)

  datatype Slot = Slot(tok: Token, pos: nat, seen: seq<View>)

  /** `cached` tells which layers keep keys and values; `pick` is argmax over the logits of a row. */
  datatype Model = Model(cached: seq<bool>, pick: Slot -> Token)

  predicate HasCachedLayer(m: Model) {
    exists l :: 0 <= l < |m.cached| && m.cached[l]
  }

  /** What all layers show when every caching layer holds `kv`. */
  function Seen(m: Model, kv: seq<Slot>): seq<View> {
    seq(|m.cached|, l requires 0 <= l < |m.cached| => if m.cached[l] then View(kv, kv) else View([], []))
  }

  /** The slots a causal forward pass over `toks` adds behind `kv`, the first one at position `pos`. */
  function Rows(m: Model, kv: seq<Slot>, toks: seq<Token>, pos: nat): (r: seq<Slot>)
    ensures |r| == |toks|
  {
    if toks == [] then [] else
      var n := |toks| - 1;
      var done := Rows(m, kv, toks[..n], pos);
      done + [Slot(toks[n], pos + n, Seen(m, kv + done))]
  }

  function Toks(kv: seq<Slot>): (r: seq<Token>)
    ensures |r| == |kv|
    ensures forall i :: 0 <= i < |kv| ==> r[i] == kv[i].tok
  {
    seq(|kv|, i requires 0 <= i < |kv| => kv[i].tok)
  }

  function Poss(kv: seq<Slot>): (r: seq<nat>)
    ensures |r| == |kv|
    ensures forall i :: 0 <= i < |kv| ==> r[i] == kv[i].pos
  {
    seq(|kv|, i requires 0 <= i < |kv| => kv[i].pos)
  }

  /** The positions 0, 1, ..., n-1. */
  function Positions(n: nat): (r: seq<nat>)
    ensures |r| == n
    ensures forall i :: 0 <= i < n ==> r[i] == i
  {
    seq(n, i requires 0 <= i < n => i)
  }

  lemma ToksConcat(a: seq<Slot>, b: seq<Slot>)
    ensures Toks(a + b) == Toks(a) + Toks(b)
    ensures Poss(a + b) == Poss(a) + Poss(b)
  {
  }

  /** A forward pass is causal: what it computes for a prefix does not depend on what follows. */
  lemma {:induction false} RowsConcat(m: Model, kv: seq<Slot>, a: seq<Token>, b: seq<Token>, pos: nat)
    ensures Rows(m, kv, a + b, pos) == Rows(m, kv, a, pos) + Rows(m, kv + Rows(m, kv, a, pos), b, pos + |a|)
    decreases |b|
  {
    if b == [] {
      assert a + b == a;
    } else {
      var n := |b| - 1;
      RowsConcat(m, kv, a, b[..n], pos);
      assert (a + b)[..|a + b| - 1] == a + b[..n];
      var ra := Rows(m, kv, a, pos);
      var rb := Rows(m, kv + ra, b[..n], pos + |a|);
      assert kv + (ra + rb) == (kv + ra) + rb;
    }
  }

  /** A pass over `a` followed by one over `b` leaves what a single pass over `a + b` leaves. */
  lemma CacheConcat(m: Model, kv: seq<Slot>, a: seq<Token>, b: seq<Token>, pos: nat)
    ensures var mid := kv + Rows(m, kv, a, pos);
            && kv + Rows(m, kv, a + b, pos) == mid + Rows(m, mid, b, pos + |a|)
            && (b != [] ==> Rows(m, kv, a + b, pos)[|a + b| - 1] == Rows(m, mid, b, pos + |a|)[|b| - 1])
  {
    RowsConcat(m, kv, a, b, pos);
  }

  lemma RowsPrefix(m: Model, kv: seq<Slot>, d: seq<Token>, pos: nat, a: nat)
    requires a <= |d|
    ensures Rows(m, kv, d, pos)[..a] == Rows(m, kv, d[..a], pos)
  {
    assert d == d[..a] + d[a..];
    RowsConcat(m, kv, d[..a], d[a..], pos);
  }

  /** Row i records token i, its own position, and all that precedes it. */
  lemma {:induction false} RowAt(m: Model, kv: seq<Slot>, toks: seq<Token>, pos: nat, i: nat)
    requires i < |toks|
    ensures Rows(m, kv, toks, pos)[i] ==
            Slot(toks[i], pos + i, Seen(m, kv + Rows(m, kv, toks[..i], pos)))
  {
    RowsPrefix(m, kv, toks, pos, i + 1);
    assert toks[..i + 1][..i] == toks[..i];
    assert Rows(m, kv, toks, pos)[i] == Rows(m, kv, toks, pos)[..i + 1][i];
  }

  lemma RowsToks(m: Model, kv: seq<Slot>, toks: seq<Token>, pos: nat)
    ensures Toks(Rows(m, kv, toks, pos)) == toks
  {
    forall i | 0 <= i < |toks| ensures Rows(m, kv, toks, pos)[i].tok == toks[i] {
      RowAt(m, kv, toks, pos, i);
    }
  }

  /** One layer of the cache. Both tensors are absent until a caching layer is first written. */
  class Layer {
    var keys: Option<seq<Slot>>
    var values: Option<seq<Slot>>

    constructor ()
      ensures keys == None && values == None
    {
      keys, values := None, None;
    }

    ghost predicate Holds(kv: seq<Slot>)
      reads this
    {
      (keys == Some(kv) && values == Some(kv)) || (kv == [] && keys == None && values == None)
    }
  }

  /** Every caching layer holds `kv`; the others hold nothing. */
  ghost predicate Uniform(m: Model, layers: seq<Layer>, kv: seq<Slot>)
    reads layers
  {
    && |layers| == |m.cached|
    && (forall l, k :: 0 <= l < k < |layers| ==> layers[l] != layers[k])
    && (forall l :: 0 <= l < |layers| ==>
          if m.cached[l] then layers[l].Holds(kv) else layers[l].keys == None && layers[l].values == None)
  }

  function Tensor(t: Option<seq<Slot>>): seq<Slot> {
    if t.Some? then t.value else []
  }

  function FirstSlots(t: seq<Slot>, n: nat): seq<Slot> {
    if n <= |t| then t[..n] else t
  }

  /** An empty dynamic cache: one empty layer for each layer of the model. */
  method NewCache(m: Model) returns (layers: seq<Layer>)
    ensures Uniform(m, layers, [])
    ensures fresh(layers)
  {
    layers := [];
    while |layers| < |m.cached|
      invariant |layers| <= |m.cached|
      invariant forall l, k :: 0 <= l < k < |layers| ==> layers[l] != layers[k]
      invariant forall l :: 0 <= l < |layers| ==> layers[l].keys == None && layers[l].values == None
      invariant fresh(layers)
    {
      var layer := new Layer();
      layers := layers + [layer];
    }
  }

  /** What every layer shows to a query at cache index `upTo`. */
  method Attend(m: Model, layers: seq<Layer>, upTo: nat, ghost kv: seq<Slot>) returns (seen: seq<View>)
    requires Uniform(m, layers, kv) && upTo == |kv|
    ensures seen == Seen(m, kv)
  {
    seen := [];
    for l := 0 to |layers|
      invariant seen == Seen(m, kv)[..l]
    {
      var view := View(FirstSlots(Tensor(layers[l].keys), upTo), FirstSlots(Tensor(layers[l].values), upTo));
      assert kv[..|kv|] == kv;
      assert view == Seen(m, kv)[l];
      seen := seen + [view];
    }
  }

  /** Appends one slot to the keys and to the values of every caching layer. */
  method Store(m: Model, layers: seq<Layer>, row: Slot, ghost kv: seq<Slot>)
    requires Uniform(m, layers, kv)
    modifies layers
    ensures Uniform(m, layers, kv + [row])
  {
    for l := 0 to |layers|
      invariant forall k :: 0 <= k < |layers| ==>
        if !m.cached[k] then layers[k].keys == None && layers[k].values == None
        else layers[k].Holds(if k < l then kv + [row] else kv)
    {
      if m.cached[l] {
        layers[l].keys := Some(Tensor(layers[l].keys) + [row]);
        layers[l].values := Some(Tensor(layers[l].values) + [row]);
      }
    }
  }

  /** One call of the model: `position` feeds the position embedding, `cacheStart` the causal mask. */
  method Forward(m: Model, layers: seq<Layer>, tokens: seq<Token>, position: nat, cacheStart: nat,
                 ghost kv: seq<Slot>)
    returns (logits: seq<Slot>)
    requires Uniform(m, layers, kv) && cacheStart == |kv|
    modifies layers
    ensures logits == Rows(m, kv, tokens, position)
    ensures Uniform(m, layers, kv + logits)
  {
    logits := [];
    assert kv + logits == kv;
    for i := 0 to |tokens|
      invariant logits == Rows(m, kv, tokens[..i], position)
      invariant Uniform(m, layers, kv + logits)
    {
      var seen := Attend(m, layers, cacheStart + i, kv + logits);
      var row := Slot(tokens[i], position + i, seen);
      Store(m, layers, row, kv + logits);
      assert tokens[..i + 1][..i] == tokens[..i];
      assert kv + logits + [row] == kv + (logits + [row]);
      logits := logits + [row];
    }
    assert tokens[..|tokens|] == tokens;
  }
}
