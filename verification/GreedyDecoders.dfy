// Plain greedy decoding, with the whole history visible and behind the bounded verifier.
module GreedyDecoders {
  import opened Wrappers
  import opened Transformer
  import opened SinkWindow
  import opened Verifier
  import opened GreedyRule

  /** The slots of a history when nothing is ever evicted. */
  function FullKv(m: Model, h: seq<Token>): (r: seq<Slot>)
    ensures |r| == |h|
  {
    Rows(m, [], h, 0)
  }

  /** The token a full-cache greedy decoder emits after `h`; 0 stands for the undefined empty case. */
  function FullChoice(m: Model, h: seq<Token>): Token {
    if h == [] then 0 else m.pick(FullKv(m, h)[|h| - 1])
  }

  function FullRule(m: Model): Rule {
    (h: seq<Token>) => FullChoice(m, h)
  }

  /** What a bounded verifier in state `s` emits behind `done` when it is fed its own choices one by one. */
  function GreedyBounded(m: Model, c: Config, s: State, done: seq<Token>, n: nat): seq<Token>
    requires s.pred.Some?
    decreases n
  {
    if n == 0 then done else
      var t := m.pick(s.pred.value);
      GreedyBounded(m, c, Appended(m, c, s, t), done + [t], n - 1)
  }

  lemma FullKvExtend(m: Model, h: seq<Token>, x: seq<Token>)
    ensures FullKv(m, h + x) == FullKv(m, h) + Rows(m, FullKv(m, h), x, |h|)
  {
    RowsConcat(m, [], h, x, 0);
    assert [] + FullKv(m, h) == FullKv(m, h);
  }

  lemma FullKvAppend(m: Model, h: seq<Token>, t: Token)
    ensures FullKv(m, h + [t]) == FullKv(m, h) + Rows(m, FullKv(m, h), [t], |h|)
    ensures Rows(m, FullKv(m, h), [t], |h|) == [Slot(t, |h|, Seen(m, FullKv(m, h)))]
  {
    FullKvExtend(m, h, [t]);
    RowAt(m, FullKv(m, h), [t], |h|, 0);
    assert FullKv(m, h) + [] == FullKv(m, h);
  }

  /** The baseline loop has emitted `done`; its cache holds every slot and `row` predicts the next token. */
  ghost predicate Decoding(m: Model, layers: seq<Layer>, prompt: seq<Token>, done: seq<Token>, row: Slot, n: nat, eos: set<Token>)
    reads layers
  {
    && Uniform(m, layers, FullKv(m, prompt + done))
    && m.pick(row) == FullRule(m)(prompt + done)
    && Running(FullRule(m), prompt, done, n, eos, n)
  }

  lemma DecodingEnds(m: Model, layers: seq<Layer>, prompt: seq<Token>, done: seq<Token>, row: Slot, n: nat, eos: set<Token>)
    requires Decoding(m, layers, prompt, done, row, n, eos)
    ensures |done| <= n && (done != [] ==> done[|done| - 1] !in eos)
    ensures |done| == n ==> done == Greedy(FullRule(m), prompt, n, eos)
    ensures |done| < n && m.pick(row) in eos ==> done + [m.pick(row)] == Greedy(FullRule(m), prompt, n, eos)
  {
    if |done| == n {
      GreedyIsUnique(FullRule(m), prompt, done, n, eos, n);
    } else {
      RunningStep(FullRule(m), prompt, done, m.pick(row), n, eos, n);
    }
  }

  /** Run the prompt through an empty cache. */
  method ForwardPrompt(m: Model, prompt: seq<Token>, ghost n: nat, ghost eos: set<Token>)
    returns (layers: seq<Layer>, logits: seq<Slot>)
    ensures fresh(layers) && |logits| == |prompt|
    ensures prompt != [] ==> Decoding(m, layers, prompt, [], logits[|prompt| - 1], n, eos)
  {
    layers := NewCache(m);
    logits := Forward(m, layers, prompt, 0, 0, []);
    assert [] + logits == logits && prompt + [] == prompt;
  }

  /** Forward the token just emitted. */
  method ForwardNext(m: Model, layers: seq<Layer>, tok: Token, cacheLen: nat,
                     ghost prompt: seq<Token>, ghost done: seq<Token>, ghost row: Slot, ghost n: nat, ghost eos: set<Token>)
    returns (logits: seq<Slot>)
    requires Decoding(m, layers, prompt, done, row, n, eos) && prompt != [] && |done| < n
    requires tok == m.pick(row) && tok !in eos && cacheLen == |prompt| + |done|
    modifies layers
    ensures |logits| == 1 && Decoding(m, layers, prompt, done + [tok], logits[0], n, eos)
  {
    RunningStep(FullRule(m), prompt, done, tok, n, eos, n);
    FullKvAppend(m, prompt + done, tok);
    logits := Forward(m, layers, [tok], cacheLen, cacheLen, FullKv(m, prompt + done));
  }

  datatype BaselineResult = BaselineResult(output: seq<Token>, forwardCalls: nat, tokensConsumed: nat, cacheLen: nat)

  datatype DecodeError = BadMaxNewTokens | NoLogits | VerifierError(e: Error)

  /** Vanilla greedy decoding over an unbounded cache. Without a prompt there is no row of logits to read. */
  method BaselineGenerate(m: Model, prompt: seq<Token>, maxNewTokens: int, eos: set<Token>)
    returns (r: Outcome<BaselineResult, DecodeError>)
    ensures r.Returned? <==> maxNewTokens > 0 && prompt != []
    ensures r.Raised? ==> r.error == if maxNewTokens <= 0 then BadMaxNewTokens else NoLogits
    ensures r.Returned? ==>
      var out := r.value.output;
      && out != [] && out == Greedy(FullRule(m), prompt, maxNewTokens, eos)
      && r.value.forwardCalls == 1 + |out| - (if out[|out| - 1] in eos then 1 else 0)
      && r.value.tokensConsumed == r.value.cacheLen == |prompt| + r.value.forwardCalls - 1
  {
    if maxNewTokens <= 0 {
      return Raised(BadMaxNewTokens);
    }
    var layers, logits := ForwardPrompt(m, prompt, maxNewTokens, eos);
    if logits == [] {
      return Raised(NoLogits);
    }
    var nextLogits := logits[|prompt| - 1];
    var forwardCalls, tokensConsumed := 1, |prompt|;
    var generated: seq<Token> := [];
    var cacheLen := |prompt|;
    for i := 0 to maxNewTokens
      invariant |generated| == i && forwardCalls == 1 + i && tokensConsumed == cacheLen == |prompt| + i
      invariant fresh(layers) && Decoding(m, layers, prompt, generated, nextLogits, maxNewTokens, eos)
    {
      DecodingEnds(m, layers, prompt, generated, nextLogits, maxNewTokens, eos);
      var tok := m.pick(nextLogits);
      ghost var done := generated;
      generated := generated + [tok];
      if tok in eos {
        return Returned(BaselineResult(generated, forwardCalls, tokensConsumed, cacheLen));
      }
      logits := ForwardNext(m, layers, tok, cacheLen, prompt, done, nextLogits, maxNewTokens, eos);
      cacheLen := cacheLen + 1;
      forwardCalls := forwardCalls + 1;
      tokensConsumed := tokensConsumed + 1;
      nextLogits := logits[0];
    }
    DecodingEnds(m, layers, prompt, generated, nextLogits, maxNewTokens, eos);
    return Returned(BaselineResult(generated, forwardCalls, tokensConsumed, cacheLen));
  }

  /** The bounded loop has emitted `out`, whose last token is not in the cache yet; `left` more may follow. */
  ghost predicate Emitting(v: SinkWindowVerifier, out: seq<Token>, left: nat, all: seq<Token>)
    reads v, v.Repr
  {
    && v.Usable() && out != []
    && all == GreedyBounded(v.model, v.config, Appended(v.model, v.config, v.Abs(), out[|out| - 1]), out, left)
  }

  lemma EmittingEnds(v: SinkWindowVerifier, out: seq<Token>, all: seq<Token>)
    requires Emitting(v, out, 0, all)
    ensures out == all
  {
  }

  /** Emit the token that the pending logits predict. */
  method PickFirst(v: SinkWindowVerifier, ghost n: nat) returns (out: seq<Token>, ghost left: nat, ghost all: seq<Token>)
    requires v.Usable() && v.Abs().pred.Some? && n > 0
    ensures Emitting(v, out, left, all) && |out| == 1 && left == n - 1
    ensures all == GreedyBounded(v.model, v.config, v.Abs(), [], n)
  {
    out := [v.model.pick(v.nextTokenLogits.value)];
    left, all := n - 1, GreedyBounded(v.model, v.config, v.Abs(), [], n);
    assert [] + out == out;
  }

  /** Feed the newest token and emit the one picked after it. */
  method FeedAndPick(v: SinkWindowVerifier, out: seq<Token>, ghost left: nat, ghost all: seq<Token>)
    returns (longer: seq<Token>, ghost rest: nat)
    requires Emitting(v, out, left, all) && left > 0
    modifies v.Repr
    ensures v.Repr == old(v.Repr) && Emitting(v, longer, rest, all)
    ensures |longer| == |out| + 1 && rest == left - 1
  {
    var appended := v.AppendToken(out[|out| - 1]);
    longer, rest := out + [v.model.pick(v.nextTokenLogits.value)], left - 1;
  }

  /** Sequential greedy decoding over the bounded verifier; it always emits at least one token. */
  method GreedyBaseline(verifier: SinkWindowVerifier, prompt: seq<Token>, maxNewTokens: int)
    returns (r: Outcome<seq<Token>, Error>)
    requires verifier.Valid()
    modifies verifier.Repr
    ensures verifier.Valid()
    ensures r.Returned? <==> prompt != [] && HasCachedLayer(verifier.model)
    ensures r.Raised? ==> r.error == if prompt == [] then EmptyPrompt else Inv1Violated
    ensures r.Returned? ==>
      r.value == GreedyBounded(verifier.model, verifier.config,
                               Prefilled(verifier.model, verifier.config, prompt), [],
                               if maxNewTokens <= 1 then 1 else maxNewTokens)
  {
    verifier.Reset();
    var e := verifier.Prefill(prompt);
    if e.Some? {
      return Raised(e.value);
    }
    ghost var n := if maxNewTokens <= 1 then 1 else maxNewTokens;
    var out, left, all := PickFirst(verifier, n);
    while |out| < maxNewTokens
      invariant |out| + left == n
      invariant Emitting(verifier, out, left, all)
      invariant fresh(verifier.Repr - old(verifier.Repr))
    {
      out, left := FeedAndPick(verifier, out, left, all);
    }
    EmittingEnds(verifier, out, all);
    return Returned(out);
  }
}
