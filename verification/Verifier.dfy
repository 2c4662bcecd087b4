// The stateful sink+window verifier: its layers are sliced and extended in place.
module Verifier {
  import opened Wrappers
  import opened Transformer
  import opened SinkWindow

  datatype Error =
    | BadConfig
    | EmptyPrompt
    | EmptyBlock
    | NotPrefilled
    | BadAccepted
    | CannotDrop
    | NoCache
    | LayoutViolated
    | Inv1Violated

  /** Replace both tensors of a layer by their sink and their window. */
  method SliceLayer(layer: Layer, config: Config, keepWindow: nat, ghost kv: seq<Slot>)
    requires layer.Holds(kv) && layer.keys.Some? && layer.values.Some?
    requires |kv| > Budget(config) && keepWindow == config.window
    modifies layer
    ensures layer.Holds(Kept(config, kv))
  {
    var sink, keys, values := config.sink, layer.keys.value, layer.values.value;
    layer.keys := Some(keys[..sink] + keys[|keys| - keepWindow..]);
    layer.values := Some(values[..sink] + values[|values| - keepWindow..]);
  }

  /** Trim every layer; a tensor whose length is not the logical size is a layout violation. */
  method TrimLayers(m: Model, layers: seq<Layer>, config: Config, keepWindow: nat, logicalSize: int, ghost kv: seq<Slot>)
    returns (e: Option<Error>)
    requires Uniform(m, layers, kv) && logicalSize == |kv| > Budget(config) && keepWindow == config.window
    modifies layers
    ensures e == None && Uniform(m, layers, Kept(config, kv))
  {
    for l := 0 to |layers|
      invariant forall k :: 0 <= k < |layers| ==>
        if !m.cached[k] then layers[k].keys == None && layers[k].values == None
        else layers[k].Holds(if k < l then Kept(config, kv) else kv)
    {
      var layer := layers[l];
      if layer.keys.Some? && layer.values.Some? {
        if |layer.keys.value| != logicalSize {
          assert false;
          return Some(LayoutViolated);
        }
        SliceLayer(layer, config, keepWindow, kv);
      }
    }
    return None;
  }

  /** Keep the first `keep` slots of every layer. */
  method TruncateLayers(m: Model, layers: seq<Layer>, keep: nat, ghost kv: seq<Slot>)
    requires Uniform(m, layers, kv) && keep <= |kv|
    modifies layers
    ensures Uniform(m, layers, kv[..keep])
  {
    for l := 0 to |layers|
      invariant forall k :: 0 <= k < |layers| ==>
        if !m.cached[k] then layers[k].keys == None && layers[k].values == None
        else layers[k].Holds(if k < l then kv[..keep] else kv)
    {
      var layer := layers[l];
      if layer.keys.Some? && layer.values.Some? {
        layer.keys := Some(FirstSlots(layer.keys.value, keep));
        layer.values := Some(FirstSlots(layer.values.value, keep));
      }
    }
  }

  class SinkWindowVerifier {
    const model: Model
    const config: Config
    var cache: Option<seq<Layer>>
    var cacheLogicalSize: int
    var nextGlobalPosition: int
    var nextTokenLogits: Option<Slot>
    var cachedTokenSequence: seq<Token>
    var forwardCalls: nat
    var tokensConsumed: nat

    // The slot list that every caching layer holds.
    ghost var kv: seq<Slot>
    ghost var Repr: set<object>

    ghost predicate Valid()
      reads this, Repr
      ensures Valid() ==> this in Repr
    {
      && this in Repr
      && config.window > 0
      && nextGlobalPosition >= 0
      && cacheLogicalSize == |kv|
      && cachedTokenSequence == Toks(kv)
      && match cache
         case None => kv == []
         case Some(layers) =>
           && (forall l :: l in layers ==> l in Repr && l as object != this)
           && Uniform(model, layers, kv)
    }

    ghost function Abs(): State
      reads this, Repr
      requires Valid()
    {
      State(kv, nextGlobalPosition, nextTokenLogits)
    }

    /** Ready for `ForwardBlock`, and able to satisfy INV-1 once the cache is not empty. */
    ghost predicate Usable()
      reads this, Repr
    {
      Valid() && cache.Some? && HasCachedLayer(model)
    }

    constructor (model: Model, config: Config)
      requires config.window > 0
      ensures Valid() && fresh(Repr)
      ensures this.model == model && this.config == config
      ensures Abs() == Initial && cache == None && forwardCalls == tokensConsumed == 0
    {
      this.model, this.config := model, config;
      cache, cacheLogicalSize, nextGlobalPosition, nextTokenLogits := None, 0, 0, None;
      cachedTokenSequence, forwardCalls, tokensConsumed := [], 0, 0;
      kv, Repr := [], {this};
    }

    /** The checked construction: negative sinks and empty windows are refused. */
    static method Create(model: Model, sink: int, window: int) returns (r: Outcome<SinkWindowVerifier, Error>)
      ensures r.Returned? <==> sink >= 0 && window > 0
      ensures r.Raised? ==> r.error == BadConfig
      ensures r.Returned? ==>
        && r.value.Valid() && fresh(r.value.Repr)
        && r.value.model == model && r.value.config == Config(sink, window) && r.value.Abs() == Initial
    {
      if sink < 0 || window <= 0 {
        return Raised(BadConfig);
      }
      var v := new SinkWindowVerifier(model, Config(sink, window));
      return Returned(v);
    }

    method Reset()
      requires Valid()
      modifies Repr
      ensures Valid() && fresh(Repr - old(Repr))
      ensures Abs() == Initial && cache.Some?
      ensures forwardCalls == old(forwardCalls) && tokensConsumed == old(tokensConsumed)
    {
      var layers := NewCache(model);
      cache := Some(layers);
      cacheLogicalSize, nextGlobalPosition, nextTokenLogits, cachedTokenSequence := 0, 0, None, [];
      kv := [];
      Repr := Repr + (set l | l in layers);
    }

    /** The length of the first non-empty layer, or 0. */
    method CacheSeqLength() returns (n: nat)
      requires Valid()
      ensures cache.Some? && HasCachedLayer(model) ==> n == |kv|
      ensures !HasCachedLayer(model) ==> n == 0
      ensures cache == None ==> n == 0
    {
      if cache == None {
        return 0;
      }
      var layers := cache.value;
      for l := 0 to |layers|
        invariant forall k :: 0 <= k < l ==> layers[k].keys == None
      {
        if layers[l].keys.Some? {
          assert model.cached[l];
          return |layers[l].keys.value|;
        }
      }
      if HasCachedLayer(model) {
        var l :| 0 <= l < |model.cached| && model.cached[l];
        assert layers[l].Holds(kv);
      }
      return 0;
    }

    /** INV-1: the token list is as long as the tensors. */
    method AssertCacheInvariant1() returns (e: Option<Error>)
      requires Valid()
      ensures e == if cache == None || HasCachedLayer(model) || kv == [] then None else Some(Inv1Violated)
    {
      var expected := CacheSeqLength();
      e := if |cachedTokenSequence| != expected then Some(Inv1Violated) else None;
    }

    /** Keep the sink and the window of every layer. The layout check never fires on a valid cache. */
    method TrimCacheInPlace() returns (e: Option<Error>)
      requires Valid()
      modifies Repr
      ensures Valid() && Repr == old(Repr) && cache == old(cache)
      ensures e == if cache == None then Some(NoCache) else None
      ensures kv == Kept(config, old(kv))
      ensures nextGlobalPosition == old(nextGlobalPosition) && nextTokenLogits == old(nextTokenLogits)
      ensures forwardCalls == old(forwardCalls) && tokensConsumed == old(tokensConsumed)
    {
      if cache == None {
        return Some(NoCache);
      }
      var budget := config.sink + config.window;
      if cacheLogicalSize <= budget {
        return None;
      }
      var sink := config.sink;
      var keepWindow := budget - sink;
      e := TrimLayers(model, cache.value, config, keepWindow, cacheLogicalSize, kv);
      if e.Some? {
        return e;
      }
      MirrorTrim(sink, keepWindow, budget);
      return None;
    }

    /** The layers hold `held`, though the bookkeeping still says otherwise. */
    ghost predicate LayersHold(held: seq<Slot>)
      reads this, Repr
    {
      && this in Repr && config.window > 0 && nextGlobalPosition >= 0 && cache.Some?
      && (forall l :: l in cache.value ==> l in Repr && l as object != this)
      && Uniform(model, cache.value, held)
    }

    /** The bookkeeping of a trim: the token list is sliced like the tensors. */
    method MirrorTrim(sink: int, keepWindow: int, budget: int)
      requires LayersHold(Kept(config, kv)) && cachedTokenSequence == Toks(kv) && |kv| > budget
      requires sink == config.sink && keepWindow == config.window && budget == Budget(config)
      modifies this`cachedTokenSequence, this`cacheLogicalSize, this`kv
      ensures Valid() && kv == Kept(config, old(kv))
    {
      KeptToks(config, kv);
      var toks := cachedTokenSequence;
      cachedTokenSequence := toks[..sink] + toks[|toks| - keepWindow..];
      cacheLogicalSize := budget;
      kv := Kept(config, kv);
    }

    /** Slice the last `drop` slots out of every layer; the bookkeeping is left to the caller. */
    method TruncateTailInPlace(drop: int) returns (e: Option<Error>)
      requires Valid()
      modifies if cache.Some? then cache.value else []
      ensures e == if drop <= 0 then None else if cache == None then Some(NoCache)
                   else if drop > |kv| then Some(CannotDrop) else None
      ensures e.Some? || drop <= 0 ==> Valid()
      ensures e == None && drop > 0 ==> Uniform(model, cache.value, kv[..|kv| - drop])
    {
      if drop <= 0 {
        return None;
      }
      if cache == None {
        return Some(NoCache);
      }
      if drop > cacheLogicalSize {
        return Some(CannotDrop);
      }
      var keep := cacheLogicalSize - drop;
      TruncateLayers(model, cache.value, keep, kv);
      return None;
    }

    /** One model call through this cache, with the bookkeeping that follows it. */
    method RunModel(tokens: seq<Token>, position: nat, cacheStart: int) returns (logits: seq<Slot>)
      requires Valid() && cache.Some? && cacheStart == |kv|
      modifies Repr
      ensures Valid() && Repr == old(Repr) && cache == old(cache)
      ensures logits == Rows(model, old(kv), tokens, position)
      ensures kv == old(kv) + logits
      ensures nextGlobalPosition == old(nextGlobalPosition) && nextTokenLogits == old(nextTokenLogits)
      ensures forwardCalls == old(forwardCalls) + 1 && tokensConsumed == old(tokensConsumed) + |tokens|
    {
      logits := Forward(model, cache.value, tokens, position, cacheStart, kv);
      cacheLogicalSize := cacheStart + |tokens|;
      assert Toks(kv + logits) == Toks(kv) + tokens by { RowsToks(model, kv, tokens, position); }
      cachedTokenSequence := cachedTokenSequence + tokens;
      kv := kv + logits;
      forwardCalls := forwardCalls + 1;
      tokensConsumed := tokensConsumed + |tokens|;
    }

    /** Run the prompt, then trim. The empty prompt is refused before anything changes. */
    method Prefill(prompt: seq<Token>) returns (e: Option<Error>)
      requires Valid()
      modifies Repr
      ensures Valid() && fresh(Repr - old(Repr))
      ensures e == if prompt == [] then Some(EmptyPrompt)
                   else if HasCachedLayer(model) then None else Some(Inv1Violated)
      ensures prompt == [] ==> Abs() == old(Abs()) && cache == old(cache)
      ensures prompt == [] ==> forwardCalls == old(forwardCalls) && tokensConsumed == old(tokensConsumed)
      ensures e == None ==> Usable() && Abs() == Prefilled(model, config, prompt)
      ensures prompt != [] ==>
        forwardCalls == old(forwardCalls) + 1 && tokensConsumed == old(tokensConsumed) + |prompt|
    {
      if prompt == [] {
        return Some(EmptyPrompt);
      }
      Reset();
      var logits := RunModel(prompt, 0, 0);
      nextGlobalPosition := |prompt|;
      nextTokenLogits := Some(logits[|prompt| - 1]);
      e := TrimCacheInPlace();
      if e.Some? {
        return e;
      }
      e := AssertCacheInvariant1();
    }

    /** Extend the cache provisionally by a block and return one row of logits for each of its tokens. */
    method ForwardBlock(tokens: seq<Token>) returns (r: Outcome<seq<Slot>, Error>)
      requires Valid()
      modifies Repr
      ensures Valid() && Repr == old(Repr) && cache == old(cache)
      ensures match r
              case Returned(logits) =>
                && Usable() && tokens != []
                && logits == Rows(model, old(kv), tokens, old(nextGlobalPosition))
                && Abs() == Extended(model, old(Abs()), tokens)
              case Raised(e) =>
                if cache == None then e == NotPrefilled && Abs() == old(Abs())
                else if tokens == [] then e == EmptyBlock && Abs() == old(Abs())
                else e == Inv1Violated && !HasCachedLayer(model)
      ensures cache.Some? && tokens != [] ==>
        forwardCalls == old(forwardCalls) + 1 && tokensConsumed == old(tokensConsumed) + |tokens|
    {
      if cache == None {
        return Raised(NotPrefilled);
      }
      if tokens == [] {
        return Raised(EmptyBlock);
      }
      var logits := RunModel(tokens, nextGlobalPosition, cacheLogicalSize);
      var e := AssertCacheInvariant1();
      if e.Some? {
        return Raised(e.value);
      }
      return Returned(logits);
    }

    /** The bookkeeping of a dropped tail. */
    method MirrorDrop(drop: int)
      requires 0 < drop <= |kv| && LayersHold(kv[..|kv| - drop])
      requires cachedTokenSequence == Toks(kv) && cacheLogicalSize == |kv|
      modifies this`cachedTokenSequence, this`cacheLogicalSize, this`kv
      ensures Valid() && kv == old(kv)[..|old(kv)| - drop]
    {
      assert Toks(kv[..|kv| - drop]) == Toks(kv)[..|kv| - drop];
      cachedTokenSequence := cachedTokenSequence[..|cachedTokenSequence| - drop];
      cacheLogicalSize := cacheLogicalSize - drop;
      kv := kv[..|kv| - drop];
    }

    /** Drop the rejected tail, if there is one. */
    method DropTail(drop: int) returns (e: Option<Error>)
      requires Valid() && drop >= 0
      modifies Repr
      ensures Valid() && Repr == old(Repr) && cache == old(cache)
      ensures nextGlobalPosition == old(nextGlobalPosition) && nextTokenLogits == old(nextTokenLogits)
      ensures forwardCalls == old(forwardCalls) && tokensConsumed == old(tokensConsumed)
      ensures e == if drop == 0 then None else if cache == None then Some(NoCache)
                   else if drop > old(|kv|) then Some(CannotDrop) else None
      ensures kv == if e.Some? then old(kv) else old(kv)[..|old(kv)| - drop]
    {
      if drop > 0 {
        e := TruncateTailInPlace(drop);
        if e.Some? {
          return e;
        }
        MirrorDrop(drop);
        return None;
      }
      assert kv[..|kv| - drop] == kv;
      return None;
    }

    /** Advance the position by what was accepted, trim, check INV-1. */
    method Settle(accepted: int) returns (e: Option<Error>)
      requires Valid() && accepted >= 0
      modifies Repr
      ensures Valid() && Repr == old(Repr) && cache == old(cache)
      ensures forwardCalls == old(forwardCalls) && tokensConsumed == old(tokensConsumed)
      ensures e == if cache == None then Some(NoCache)
                   else if HasCachedLayer(model) || kv == [] then None else Some(Inv1Violated)
      ensures Abs() == State(Kept(config, old(kv)), old(nextGlobalPosition) + accepted, old(nextTokenLogits))
    {
      nextGlobalPosition := nextGlobalPosition + accepted;
      e := TrimCacheInPlace();
      if e.Some? {
        return e;
      }
      e := AssertCacheInvariant1();
    }

    /** Drop the rejected tail, advance the position by what was accepted, trim. */
    method CommitOrTruncate(forwarded: int, accepted: int) returns (e: Option<Error>)
      requires Valid()
      modifies Repr
      ensures Valid() && Repr == old(Repr) && cache == old(cache)
      ensures forwardCalls == old(forwardCalls) && tokensConsumed == old(tokensConsumed)
      ensures e == if !(0 <= accepted <= forwarded) then Some(BadAccepted)
                   else if cache == None then Some(NoCache)
                   else if forwarded - accepted > old(|kv|) then Some(CannotDrop)
                   else if HasCachedLayer(model) || kv == [] then None
                   else Some(Inv1Violated)
      ensures e in {Some(BadAccepted), Some(CannotDrop)} ==> Abs() == old(Abs())
      ensures e == None ==> Abs() == Committed(config, old(Abs()), forwarded, accepted)
    {
      if accepted < 0 || accepted > forwarded {
        return Some(BadAccepted);
      }
      var drop := forwarded - accepted;
      e := DropTail(drop);
      if e.Some? {
        return e;
      }
      e := Settle(accepted);
    }

    /** Forward and commit one token; its logits predict the next one. */
    method AppendToken(token: Token) returns (r: Outcome<Slot, Error>)
      requires Valid()
      modifies Repr
      ensures Valid() && Repr == old(Repr) && cache == old(cache)
      ensures r.Returned? <==> cache.Some? && HasCachedLayer(model)
      ensures r.Returned? ==>
        && Usable()
        && Abs() == Appended(model, config, old(Abs()), token) && Abs().pred == Some(r.value)
      ensures r.Raised? ==> r.error == if cache == None then NotPrefilled else Inv1Violated
      ensures cache.Some? ==>
        forwardCalls == old(forwardCalls) + 1 && tokensConsumed == old(tokensConsumed) + 1
    {
      var forwarded := ForwardBlock([token]);
      if forwarded.Raised? {
        return Raised(forwarded.error);
      }
      var logits := forwarded.value;
      var e := CommitOrTruncate(1, 1);
      if e.Some? {
        return Raised(e.value);
      }
      nextTokenLogits := Some(logits[|logits| - 1]);
      return Returned(logits[|logits| - 1]);
    }
  }
}
