// The speculative decoder, driving a stateful verifier.
module Decoder {
  import opened Wrappers
  import opened Transformer
  import opened Verifier
  import opened Speculation
  import Sequences

  datatype DecoderError = BadMaxNewTokens | MalformedBlock | ProposerFailed | FromVerifier(e: Error)

  datatype RunResult = RunResult(
    output: seq<Token>, acceptedPerBlock: seq<nat>, proposedPerBlock: seq<nat>,
    verifierForwardCalls: nat, verifierTokensConsumed: nat, finalKvTokenCount: int)

  /** The lists the loop grows. */
  datatype Lists = Lists(committed: seq<Token>, generated: seq<Token>,
                         accepted: seq<nat>, proposed: seq<nat>, emitted: seq<Token>)

  /** The loop's lists, the verifier's state and the verifier's counters are those of the value model. */
  ghost predicate Mirrors(v: SinkWindowVerifier, l: Lists, s: Dec, promptLen: nat)
    reads v, v.Repr
  {
    && v.Usable() && v.Abs() == s.v && s.v.pred.Some?
    && l == Lists(s.committed, s.generated, s.accepted, s.proposed, s.emitted)
    && v.forwardCalls == 1 + |s.proposed| + s.appends
    && v.tokensConsumed == promptLen + Sequences.Sum(s.proposed) + s.appends
  }

  class SpeculativeDecoder {
    const verifier: SinkWindowVerifier
    const draft: Drafter
    const blockSize: nat
    const steps: nat

    ghost predicate Valid()
      reads this, verifier, verifier.Repr
    {
      verifier.Valid() && blockSize > 0 && steps > 0
    }

    constructor (verifier: SinkWindowVerifier, draft: Drafter, blockSize: nat, steps: nat)
      requires verifier.Valid() && blockSize > 0 && steps > 0
      ensures Valid() && this.verifier == verifier && this.draft == draft
      ensures this.blockSize == blockSize && this.steps == steps
    {
      this.verifier, this.draft, this.blockSize, this.steps := verifier, draft, blockSize, steps;
    }

    ghost function ParamsFor(maxNew: nat, eos: set<Token>, onToken: Option<Callback>): Params {
      Params(verifier.model, verifier.config, blockSize, steps, draft, maxNew, eos, onToken)
    }

    /** The accept walk: compare each drafted token with the argmax of the row before it. */
    method Walk(pred: Slot, blockLogits: seq<Slot>, d: seq<Token>) returns (accepted: nat, prevLogits: Slot)
      requires |blockLogits| == |d|
      ensures accepted == Accepted(verifier.model, pred, blockLogits, d, 0)
      ensures prevLogits == Before(pred, blockLogits, accepted)
    {
      accepted, prevLogits := 0, pred;
      while accepted < |d| && verifier.model.pick(prevLogits) == d[accepted]
        invariant accepted <= |d| && prevLogits == Before(pred, blockLogits, accepted)
        invariant forall i :: 0 <= i < accepted ==> d[i] == verifier.model.pick(Before(pred, blockLogits, i))
        invariant Accepted(verifier.model, pred, blockLogits, d, 0) ==
                  Accepted(verifier.model, pred, blockLogits, d, accepted)
      {
        prevLogits := blockLogits[accepted];
        accepted := accepted + 1;
      }
    }

    /** Deliver tokens to the callback; true when it asks to stop. */
    method Deliver(onToken: Option<Callback>, log: seq<Token>, toks: seq<Token>) returns (longer: seq<Token>, stop: bool)
      ensures (longer, stop) == Emit(onToken, log, toks)
    {
      longer, stop := log, false;
      if onToken == None {
        return;
      }
      for i := 0 to |toks|
        invariant Emit(onToken, log, toks) == Emit(onToken, longer, toks[i..])
      {
        assert toks[i..][0] == toks[i] && toks[i..][1..] == toks[i + 1..];
        longer := longer + [toks[i]];
        if onToken.value(longer) {
          return longer, true;
        }
      }
    }

    /** Forward a drafted block, walk it, and commit its accepted prefix. */
    method VerifyBlock(d: seq<Token>, l: Lists, ghost p: Params, ghost s: Dec, ghost promptLen: nat)
      returns (l': Lists, accepted: nat, correctionOrBonus: Token)
      requires Valid() && p.m == verifier.model && p.c == verifier.config
      requires Mirrors(verifier, l, s, promptLen) && d != []
      modifies verifier.Repr
      ensures verifier.Repr == old(verifier.Repr)
      ensures accepted == AcceptedOf(p, s, d) && correctionOrBonus == CorrectionOf(p, s, d)
      ensures Mirrors(verifier, l', Verified(p, s, d), promptLen)
    {
      var forwarded := verifier.ForwardBlock(d);
      var blockLogits := forwarded.value;
      var prevLogits := verifier.nextTokenLogits.value;
      accepted, prevLogits := Walk(prevLogits, blockLogits, d);
      correctionOrBonus := verifier.model.pick(prevLogits);
      var e := verifier.CommitOrTruncate(|d|, accepted);
      l' := l.(committed := l.committed + d[..accepted], generated := l.generated + d[..accepted],
               accepted := l.accepted + [accepted], proposed := l.proposed + [|d|]);
      Sequences.SumSnoc(s.proposed, |d|);
    }

    /** Commit the correction or bonus token and deliver it. */
    method AppendNext(t: Token, l: Lists, eos: set<Token>, onToken: Option<Callback>,
                      ghost p: Params, ghost s: Dec, ghost promptLen: nat)
      returns (l': Lists, stop: bool)
      requires Valid() && p.m == verifier.model && p.c == verifier.config && p.eos == eos && p.onToken == onToken
      requires Mirrors(verifier, l, s, promptLen)
      modifies verifier.Repr
      ensures verifier.Repr == old(verifier.Repr)
      ensures Mirrors(verifier, l', AppendStep(p, s, t).dec, promptLen)
      ensures stop <==> AppendStep(p, s, t).Stopped?
    {
      var appended := verifier.AppendToken(t);
      var log;
      log, stop := Deliver(onToken, l.emitted, [t]);
      l' := l.(committed := l.committed + [t], generated := l.generated + [t], emitted := log);
      stop := stop || t in eos;
    }

    /** The index of the first end-of-sequence token of the accepted prefix. */
    method FindEos(d: seq<Token>, accepted: nat, eos: set<Token>) returns (r: Option<nat>)
      requires accepted <= |d|
      ensures r == FirstEos(d, accepted, eos, 0)
    {
      for i := 0 to accepted
        invariant forall j :: 0 <= j < i ==> d[j] !in eos
        invariant FirstEos(d, accepted, eos, 0) == FirstEos(d, accepted, eos, i)
      {
        if d[i] in eos {
          return Some(i);
        }
      }
      return None;
    }

    /** One turn of the loop after the drafter has answered; true when the loop must end. */
    method OneBlock(d: seq<Token>, l: Lists, maxNew: nat, eos: set<Token>, onToken: Option<Callback>,
                    ghost p: Params, ghost s: Dec, ghost promptLen: nat)
      returns (l': Lists, stop: bool)
      requires Valid() && p == ParamsFor(maxNew, eos, onToken)
      requires Mirrors(verifier, l, s, promptLen) && d != []
      modifies verifier.Repr
      ensures verifier.Repr == old(verifier.Repr)
      ensures Mirrors(verifier, l', BlockStep(p, s, d).dec, promptLen)
      ensures stop <==> BlockStep(p, s, d).Stopped?
    {
      var accepted, correctionOrBonus;
      ghost var t := Verified(p, s, d);
      l', accepted, correctionOrBonus := VerifyBlock(d, l, p, s, promptLen);
      var found := FindEos(d, accepted, eos);
      if found.Some? {
        var i := found.value;
        var excess := accepted - (i + 1);
        var log, _ := Deliver(onToken, l'.emitted, d[..i + 1]);
        l' := l'.(generated := l'.generated[..|l'.generated| - excess],
                  committed := l'.committed[..|l'.committed| - excess], emitted := log);
        return l', true;
      }
      var log, stopped := Deliver(onToken, l'.emitted, d[..accepted]);
      l' := l'.(emitted := log);
      t := t.(emitted := log, halted := stopped);
      if stopped || |l'.generated| >= maxNew {
        return l', true;
      }
      l', stop := AppendNext(correctionOrBonus, l', eos, onToken, p, t, promptLen);
    }

    /** Where the loop stands: `end` is what the run will amount to. */
    ghost predicate Underway(p: Params, l: Lists, s: Dec, promptLen: nat, stop: bool, end: Option<Dec>)
      reads this, verifier, verifier.Repr
    {
      && Valid() && p.m == verifier.model && p.c == verifier.config && p.blockSize == blockSize
      && Mirrors(verifier, l, s, promptLen)
      && if stop then end == Some(s) else |s.generated| <= p.maxNew && end == Loop(p, s)
    }

    /** One turn of the loop: ask the drafter, refuse a malformed block, verify it. */
    method Turn(l: Lists, maxNew: nat, eos: set<Token>, onToken: Option<Callback>,
                ghost p: Params, ghost s: Dec, ghost promptLen: nat, ghost end: Option<Dec>)
      returns (error: Option<DecoderError>, l': Lists, stop: bool, ghost s': Dec)
      requires p == ParamsFor(maxNew, eos, onToken)
      requires Underway(p, l, s, promptLen, false, end) && |l.generated| < maxNew
      modifies verifier.Repr
      ensures verifier.Repr == old(verifier.Repr) && Valid()
      ensures error.Some? ==> end == None && error.value in {ProposerFailed, MalformedBlock}
      ensures error.None? ==> Underway(p, l', s', promptLen, stop, end)
      ensures error.None? && !stop ==> |l.generated| < |l'.generated|
    {
      l', stop, s' := l, true, s;
      var remaining := maxNew - |l.generated|;
      var length := if blockSize <= remaining then blockSize else remaining;
      var proposal := draft(|l.proposed|, l.committed, length, steps);
      if proposal == None {
        return Some(ProposerFailed), l, true, s;
      }
      var d := proposal.value;
      if |d| != length {
        return Some(MalformedBlock), l, true, s;
      }
      BlockStepBounded(p, s, d);
      l', stop := OneBlock(d, l, maxNew, eos, onToken, p, s, promptLen);
      return None, l', stop, BlockStep(p, s, d).dec;
    }

    /** The speculative loop. Nothing raises but a bad cap, an empty prompt, a cache-less model, or the drafter. */
    method Generate(prompt: seq<Token>, maxNewTokens: int, eos: set<Token>, onToken: Option<Callback>)
      returns (r: Outcome<RunResult, DecoderError>)
      requires Valid()
      modifies verifier, verifier.Repr
      ensures Valid()
      ensures maxNewTokens <= 0 ==> r == Raised(BadMaxNewTokens)
      ensures maxNewTokens > 0 && (prompt == [] || !HasCachedLayer(verifier.model)) ==>
        r == Raised(FromVerifier(if prompt == [] then EmptyPrompt else Inv1Violated))
      ensures maxNewTokens > 0 && prompt != [] && HasCachedLayer(verifier.model) ==>
        var p := ParamsFor(maxNewTokens, eos, onToken);
        match Loop(p, Started(p, prompt))
        case None => r in {Raised(MalformedBlock), Raised(ProposerFailed)}
        case Some(end) =>
          && r.Returned?
          && r.value.output == end.generated
          && r.value.acceptedPerBlock == end.accepted && r.value.proposedPerBlock == end.proposed
          && r.value.verifierForwardCalls == 1 + |end.proposed| + end.appends
          && r.value.verifierTokensConsumed == |prompt| + Sequences.Sum(end.proposed) + end.appends
          && verifier.Abs() == end.v && r.value.finalKvTokenCount == |end.v.kv|
    {
      if maxNewTokens <= 0 {
        return Raised(BadMaxNewTokens);
      }
      verifier.forwardCalls, verifier.tokensConsumed := 0, 0;
      var e := verifier.Prefill(prompt);
      if e.Some? {
        return Raised(FromVerifier(e.value));
      }
      ghost var p := ParamsFor(maxNewTokens, eos, onToken);
      ghost var s := Started(p, prompt);
      ghost var end := Loop(p, s);
      var l := Lists(prompt, [], [], [], []);
      var stop := false;
      while |l.generated| < maxNewTokens && !stop
        invariant Underway(p, l, s, |prompt|, stop, end)
        invariant fresh(verifier.Repr - old(verifier.Repr))
        decreases !stop, maxNewTokens - |l.generated|
      {
        var error;
        error, l, stop, s := Turn(l, maxNewTokens, eos, onToken, p, s, |prompt|, end);
        if error.Some? {
          return Raised(error.value);
        }
      }
      assert end == Some(s);
      return Returned(RunResult(l.generated, l.accepted, l.proposed,
                                verifier.forwardCalls, verifier.tokensConsumed, verifier.cacheLogicalSize));
    }
  }
}
