// One-token blocks against sequential decoding over the same bounded verifier, eviction included;
// and how sharp the horizon of the agreement theorem is.
module SpeculationSequential {
  import opened Wrappers
  import opened Transformer
  import opened SinkWindow
  import opened GreedyRule
  import opened GreedyDecoders
  import opened Speculation
  import opened SpeculationAgreement
  import Sequences

  /** Sequential decoding over the bounded verifier that stops at an end-of-sequence token. */
  function BoundedUpTo(m: Model, c: Config, s: State, done: seq<Token>, n: nat, eos: set<Token>): seq<Token>
    requires s.pred.Some?
    decreases n
  {
    if n == 0 then done else
      var t := m.pick(s.pred.value);
      if t in eos then done + [t] else BoundedUpTo(m, c, Appended(m, c, s, t), done + [t], n - 1, eos)
  }

  lemma {:induction false} UpToEosKeeps(out: seq<Token>, eos: set<Token>, k: nat)
    requires k <= |out| && forall i :: 0 <= i < k ==> out[i] !in eos
    ensures k == |out| ==> UpToEos(out, eos) == out
    ensures k < |out| && out[k] in eos ==> UpToEos(out, eos) == out[..k + 1]
  {
    if k > 0 {
      UpToEosKeeps(out[1..], eos, k - 1);
      assert out == [out[0]] + out[1..];
      if k < |out| {
        assert out[..k + 1] == [out[0]] + out[1..][..k];
      }
    }
  }

  lemma {:induction false} BoundedExtends(m: Model, c: Config, s: State, done: seq<Token>, n: nat)
    requires s.pred.Some?
    ensures done <= GreedyBounded(m, c, s, done, n)
    ensures |GreedyBounded(m, c, s, done, n)| == |done| + n
    decreases n
  {
    if n > 0 {
      var t := m.pick(s.pred.value);
      BoundedExtends(m, c, Appended(m, c, s, t), done + [t], n - 1);
    }
  }

  lemma CutAtFirst(done: seq<Token>, t: Token, all: seq<Token>, eos: set<Token>)
    requires t in eos && done + [t] <= all && forall i :: 0 <= i < |done| ==> done[i] !in eos
    ensures UpToEos(all, eos) == done + [t]
  {
    assert all[..|done| + 1] == done + [t];
    assert all[|done|] == t;
    assert forall i :: 0 <= i < |done| ==> all[i] == done[i];
    UpToEosKeeps(all, eos, |done|);
  }

  lemma {:induction false} BoundedUpToIsCut(m: Model, c: Config, s: State, done: seq<Token>, n: nat, eos: set<Token>)
    requires s.pred.Some? && forall i :: 0 <= i < |done| ==> done[i] !in eos
    ensures BoundedUpTo(m, c, s, done, n, eos) == UpToEos(GreedyBounded(m, c, s, done, n), eos)
    decreases n
  {
    if n == 0 {
      UpToEosKeeps(done, eos, |done|);
    } else {
      var t := m.pick(s.pred.value);
      var next := Appended(m, c, s, t);
      if t in eos {
        BoundedExtends(m, c, next, done + [t], n - 1);
        CutAtFirst(done, t, GreedyBounded(m, c, next, done + [t], n - 1), eos);
      } else {
        BoundedUpToIsCut(m, c, next, done + [t], n - 1, eos);
      }
    }
  }

  /** Forwarding one token and keeping it is what an append does to the cache; dropping it changes nothing. */
  lemma OneTokenBlock(m: Model, c: Config, v: State, t: Token)
    requires |v.kv| <= Budget(c) && v.pred.Some?
    ensures Advanced(m, c, v, [t], 1) == Appended(m, c, v, t).(pred := v.pred)
  {
  }

  lemma AppendedSize(m: Model, c: Config, v: State, t: Token)
    ensures |Appended(m, c, v, t).kv| <= Budget(c)
  {
    AppendedKv(m, c, v, t);
  }

  lemma DroppedBlock(m: Model, c: Config, v: State, d: seq<Token>)
    requires |v.kv| <= Budget(c)
    ensures Advanced(m, c, v, d, 0) == v
  {
    AdvancedKv(m, c, v, d, 0);
    assert v.kv + [] == v.kv;
  }

  /** A block rejected at its first token emits the model's own choice as a correction. */
  lemma RejectedStep(p: Params, s: Dec, d: seq<Token>)
    requires s.v.pred.Some? && !s.halted && |s.v.kv| <= Budget(p.c) && |s.generated| < p.maxNew
    requires d != [] && d[0] != p.m.pick(s.v.pred.value)
    ensures var r, t := BlockStep(p, s, d), p.m.pick(s.v.pred.value);
            && r.dec.generated == s.generated + [t] && r.dec.v == Appended(p.m, p.c, s.v, t)
            && (!r.dec.halted ==> (r.Next? <==> t !in p.eos))
  {
    DroppedBlock(p.m, p.c, s.v, d);
    assert AcceptedOf(p, s, d) == 0;
    BlockStepFields(p, s, d);
    Sequences.NilRight(s.generated);
    assert d[..0] == [];
  }

  /** An accepted one-token block emits the model's choice, then its next choice as a bonus. */
  lemma AcceptedStep(p: Params, s: Dec, t: Token)
    requires s.v.pred.Some? && !s.halted && |s.v.kv| <= Budget(p.c) && |s.generated| < p.maxNew
    requires t == p.m.pick(s.v.pred.value)
    ensures var r := BlockStep(p, s, [t]);
            var w := Appended(p.m, p.c, s.v, t);
            var u := p.m.pick(w.pred.value);
            if t in p.eos || |s.generated| + 1 == p.maxNew then
              r.Stopped? && r.dec.generated == s.generated + [t]
            else if r.dec.appends == s.appends then
              r.dec.halted
            else
              && r.dec.generated == s.generated + [t] + [u] && r.dec.v == Appended(p.m, p.c, w, u)
              && (!r.dec.halted ==> (r.Next? <==> u !in p.eos))
  {
    OneTokenBlock(p.m, p.c, s.v, t);
    assert AcceptedOf(p, s, [t]) == 1;
    BlockStepFields(p, s, [t]);
    Sequences.NilRight(s.generated);
    assert [t][..0] == [] && [t][..1] == [t];
    if t !in p.eos && |s.generated| + 1 != p.maxNew {
      AppendedKv(p.m, p.c, s.v, t);
      var w := Appended(p.m, p.c, s.v, t);
      assert Appended(p.m, p.c, w.(pred := s.v.pred), p.m.pick(w.pred.value)) == Appended(p.m, p.c, w, p.m.pick(w.pred.value));
    }
  }

  /** The choices that one-token blocks emit are consumed one by one by sequential decoding. */
  lemma OneTokenEmits(p: Params, s: Dec, x: Token)
    requires s.v.pred.Some? && !s.halted && |s.v.kv| <= Budget(p.c) && |s.generated| < p.maxNew
    requires !BlockStep(p, s, [x]).dec.halted && |BlockStep(p, s, [x]).dec.generated| <= p.maxNew
    ensures var r := BlockStep(p, s, [x]);
            var all := BoundedUpTo(p.m, p.c, s.v, s.generated, p.maxNew - |s.generated|, p.eos);
            if r.Next?
            then |r.dec.v.kv| <= Budget(p.c) && !r.dec.halted &&
                 all == BoundedUpTo(p.m, p.c, r.dec.v, r.dec.generated, p.maxNew - |r.dec.generated|, p.eos)
            else all == r.dec.generated
  {
    var t := p.m.pick(s.v.pred.value);
    var w := Appended(p.m, p.c, s.v, t);
    AppendedSize(p.m, p.c, s.v, t);
    if x != t {
      RejectedStep(p, s, [x]);
    } else {
      AcceptedStep(p, s, t);
      AppendedSize(p.m, p.c, w, p.m.pick(w.pred.value));
    }
  }

  /** `all` is what sequential decoding emits from here on. */
  ghost predicate Sequentially(p: Params, s: Dec, all: seq<Token>) {
    && s.v.pred.Some? && !s.halted && |s.v.kv| <= Budget(p.c) && |s.generated| <= p.maxNew
    && all == BoundedUpTo(p.m, p.c, s.v, s.generated, p.maxNew - |s.generated|, p.eos)
  }

  /** A block step adds a token, keeps a prediction, and goes on only if the callback did not stop it. */
  lemma StepGrows(p: Params, s: Dec, d: seq<Token>)
    requires s.v.pred.Some? && !s.halted && |s.generated| < p.maxNew && d != []
    ensures var r := BlockStep(p, s, d);
            r.dec.v.pred.Some? && |s.generated| < |r.dec.generated| && (r.Next? ==> !r.dec.halted)
  {
    BlockStepFields(p, s, d);
  }

  lemma OneTokenStep(p: Params, s: Dec, d: seq<Token>, all: seq<Token>)
    requires |d| == 1 && |s.generated| < p.maxNew && Sequentially(p, s, all)
    requires !BlockStep(p, s, d).dec.halted && |BlockStep(p, s, d).dec.generated| <= p.maxNew
    requires BlockStep(p, s, d).dec.v.pred.Some?
    ensures var r := BlockStep(p, s, d); if r.Next? then Sequentially(p, r.dec, all) else all == r.dec.generated
  {
    assert d == [d[0]];
    OneTokenEmits(p, s, d[0]);
  }

  /** One turn of the loop with one-token blocks emits what sequential decoding emits next. */
  lemma OneTokenTurn(p: Params, s: Dec, all: seq<Token>, end: Dec) returns (r: Step)
    requires p.blockSize == 1 && |s.generated| < p.maxNew && Sequentially(p, s, all)
    requires Loop(p, s) == Some(end) && !end.halted
    ensures r.dec.v.pred.Some? && |s.generated| < |r.dec.generated| <= p.maxNew
    ensures if r.Next? then Sequentially(p, r.dec, all) && Loop(p, r.dec) == Some(end)
            else r.dec == end && all == end.generated
  {
    LoopUnfolds(p, s);
    var d := p.draft(|s.proposed|, s.committed, BlockLength(p, s), p.steps).value;
    r := BlockStep(p, s, d);
    StepGrows(p, s, d);
    OneTokenStep(p, s, d, all);
  }

  lemma {:induction false} OneTokenLoop(p: Params, s: Dec, all: seq<Token>, end: Dec)
    requires p.blockSize == 1 && Sequentially(p, s, all)
    requires Loop(p, s) == Some(end) && !end.halted
    ensures end.generated == all
    decreases p.maxNew - |s.generated|
  {
    if |s.generated| < p.maxNew {
      var r := OneTokenTurn(p, s, all, end);
      if r.Next? {
        OneTokenLoop(p, r.dec, all, end);
      }
    }
  }

  /**
   * With one-token blocks the drafter is irrelevant: for every sink, window and drafter the output is the
   * sequential output over the same bounded verifier, cut behind its first end-of-sequence token, also
   * after eviction has begun.
   */
  lemma OneTokenBlocksAreSequential(p: Params, prompt: seq<Token>)
    requires prompt != [] && p.blockSize == 1
    requires Loop(p, Started(p, prompt)).Some? && !Loop(p, Started(p, prompt)).value.halted
    ensures var sequential := GreedyBounded(p.m, p.c, Prefilled(p.m, p.c, prompt), [], p.maxNew);
            && Loop(p, Started(p, prompt)).value.generated == UpToEos(sequential, p.eos)
            && (p.eos == {} ==> Loop(p, Started(p, prompt)).value.generated == sequential)
  {
    OneTokenLoop(p, Started(p, prompt), BoundedUpTo(p.m, p.c, Prefilled(p.m, p.c, prompt), [], p.maxNew, p.eos),
                 Loop(p, Started(p, prompt)).value);
    BoundedUpToIsCut(p.m, p.c, Prefilled(p.m, p.c, prompt), [], p.maxNew, p.eos);
    if p.eos == {} {
      var sequential := GreedyBounded(p.m, p.c, Prefilled(p.m, p.c, prompt), [], p.maxNew);
      UpToEosKeeps(sequential, p.eos, |sequential|);
    }
  }

  /** A choice that tells whether a row saw every earlier position. */
  function SawEverything(row: Slot): Token {
    if |row.seen| == 1 && |row.seen[0].keys| == row.pos then 0 else 1
  }

  const Attentive := Model([true], (row: Slot) => SawEverything(row))

  lemma FullRowsSeeEverything(h: seq<Token>)
    requires h != []
    ensures FullRule(Attentive)(h) == 0
  {
    RowAt(Attentive, [], h, 0, |h| - 1);
  }

  lemma BaselineIsZero(prompt: seq<Token>, n: nat, j: nat)
    requires prompt != [] && j < n
    ensures |Greedy(FullRule(Attentive), prompt, n, {})| == n && Greedy(FullRule(Attentive), prompt, n, {})[j] == 0
  {
    GreedyIsFinished(FullRule(Attentive), prompt, n, {});
    FullRowsSeeEverything(prompt + Greedy(FullRule(Attentive), prompt, n, {})[..j]);
  }

  /** How many slots a bounded verifier at that position holds. */
  ghost predicate AtSize(c: Config, s: State) {
    s.pred.Some? && |s.kv| == if s.pos <= Budget(c) then s.pos else Budget(c)
  }

  /** The appended row has seen everything before it exactly while the budget lasts. */
  lemma AppendedChoice(c: Config, s: State, t: Token)
    requires AtSize(c, s)
    ensures var w := Appended(Attentive, c, s, t);
            AtSize(c, w) && w.pos == s.pos + 1 && SawEverything(w.pred.value) == if s.pos <= Budget(c) then 0 else 1
  {
    AppendedKv(Attentive, c, s, t);
  }

  /** Token j >= 1 is predicted by a row at position pos + j - 1, which saw at most the budget. */
  lemma {:induction false} BoundedChoice(c: Config, s: State, done: seq<Token>, n: nat, j: nat)
    requires AtSize(c, s) && j < n
    ensures |GreedyBounded(Attentive, c, s, done, n)| == |done| + n
    ensures GreedyBounded(Attentive, c, s, done, n)[|done| + j] ==
            if j == 0 then SawEverything(s.pred.value) else if s.pos + j - 1 <= Budget(c) then 0 else 1
    decreases n
  {
    var t := Attentive.pick(s.pred.value);
    var w, more := Appended(Attentive, c, s, t), done + [t];
    AppendedChoice(c, s, t);
    BoundedExtends(Attentive, c, w, more, n - 1);
    if j > 0 {
      BoundedChoice(c, w, more, n - 1, j - 1);
    } else {
      assert more[|done|] == t;
    }
  }

  lemma PrefilledAt(c: Config, prompt: seq<Token>)
    requires prompt != []
    ensures AtSize(c, Prefilled(Attentive, c, prompt)) && Prefilled(Attentive, c, prompt).pos == |prompt|
  {
  }

  lemma SequentialMisses(c: Config, prompt: seq<Token>, n: nat)
    requires prompt != [] && n > Horizon(c, prompt)
    ensures var sequential := GreedyBounded(Attentive, c, Prefilled(Attentive, c, prompt), [], n);
            |sequential| == n && sequential[Horizon(c, prompt)] == 1
  {
    PrefilledAt(c, prompt);
    BoundedChoice(c, Prefilled(Attentive, c, prompt), [], n, Horizon(c, prompt));
  }

  /** With one-token blocks the baseline is missed right behind the horizon whatever the drafter. */
  lemma OneTokenHorizonIsSharp(p: Params, prompt: seq<Token>)
    requires prompt != [] && p.blockSize == 1 && p.eos == {} && p.m == Attentive
    requires Loop(p, Started(p, prompt)).Some? && !Loop(p, Started(p, prompt)).value.halted
    requires p.maxNew > Horizon(p.c, prompt)
    ensures var k, r := Horizon(p.c, prompt), Loop(p, Started(p, prompt)).value;
            && |r.generated| == |Greedy(FullRule(p.m), prompt, p.maxNew, {})| == p.maxNew
            && r.generated[k] != Greedy(FullRule(p.m), prompt, p.maxNew, {})[k]
  {
    OneTokenBlocksAreSequential(p, prompt);
    SequentialMisses(p.c, prompt, p.maxNew);
    BaselineIsZero(prompt, p.maxNew, Horizon(p.c, prompt));
  }

  /** A drafter that always answers with a full block, whose first token the model never chooses. */
  ghost predicate Contrary(p: Params) {
    forall call: nat, h, n: nat, steps: nat :: n > 0 ==> DraftsContrary(p, p.draft(call, h, n, steps), n)
  }

  ghost predicate DraftsContrary(p: Params, d: Option<seq<Token>>, n: nat)
    requires n > 0
  {
    d.Some? && |d.value| == n && forall row :: p.m.pick(row) != d.value[0]
  }

  /** Against such a drafter the loop decodes sequentially, for every block size. */
  lemma {:induction false} ContraryLoop(p: Params, s: Dec, all: seq<Token>)
    requires Contrary(p) && p.blockSize > 0 && p.onToken == None && Sequentially(p, s, all)
    ensures Loop(p, s).Some? && Loop(p, s).value.generated == all
    decreases p.maxNew - |s.generated|
  {
    if |s.generated| < p.maxNew {
      var n := BlockLength(p, s);
      var drafted := p.draft(|s.proposed|, s.committed, n, p.steps);
      assert DraftsContrary(p, drafted, n);
      ContraryTurn(p, s, drafted.value, all);
      BlockStepBounded(p, s, drafted.value);
      if BlockStep(p, s, drafted.value).Next? {
        ContraryLoop(p, BlockStep(p, s, drafted.value).dec, all);
      }
    }
  }

  lemma NeverHalted(p: Params, s: Dec, d: seq<Token>)
    requires s.v.pred.Some? && !s.halted && p.onToken == None
    ensures !BlockStep(p, s, d).dec.halted
  {
  }

  lemma ContraryTurn(p: Params, s: Dec, d: seq<Token>, all: seq<Token>)
    requires p.onToken == None && Sequentially(p, s, all) && |s.generated| < p.maxNew
    requires d != [] && d[0] != p.m.pick(s.v.pred.value)
    ensures var r := BlockStep(p, s, d);
            if r.Next? then Sequentially(p, r.dec, all) else r.dec.generated == all
  {
    NeverHalted(p, s, d);
    RejectedStep(p, s, d);
    AppendedSize(p.m, p.c, s.v, p.m.pick(s.v.pred.value));
  }

  /**
   * A drafter that the model never agrees with costs nothing but time: for every block size the output is the
   * sequential output over the same bounded verifier.
   */
  lemma RejectedBlocksAreSequential(p: Params, prompt: seq<Token>)
    requires prompt != [] && Contrary(p) && p.blockSize > 0 && p.onToken == None
    ensures var run := Loop(p, Started(p, prompt));
            run.Some? && run.value.generated ==
              UpToEos(GreedyBounded(p.m, p.c, Prefilled(p.m, p.c, prompt), [], p.maxNew), p.eos)
  {
    var start := Prefilled(p.m, p.c, prompt);
    BoundedUpToIsCut(p.m, p.c, start, [], p.maxNew, p.eos);
    ContraryLoop(p, Started(p, prompt), BoundedUpTo(p.m, p.c, start, [], p.maxNew, p.eos));
  }

  /** A drafter that proposes nothing but a token the attentive model never chooses. */
  function Stubborn(): Drafter {
    (call: nat, h: seq<Token>, n: nat, steps: nat) => Some(seq(n, i => 2))
  }

  /**
   * The horizon cannot be extended: for every sink, window, prompt and block size there are a model and a drafter
   * with which the output goes wrong right behind it.
   */
  lemma HorizonIsSharp(c: Config, prompt: seq<Token>, blockSize: nat, steps: nat, maxNew: nat)
    requires prompt != [] && blockSize > 0 && maxNew > Horizon(c, prompt)
    ensures var p := Params(Attentive, c, blockSize, steps, Stubborn(), maxNew, {}, None);
            var baseline, k := Greedy(FullRule(Attentive), prompt, maxNew, {}), Horizon(c, prompt);
            var run := Loop(p, Started(p, prompt));
            && run.Some? && |run.value.generated| == |baseline| == maxNew
            && run.value.generated[k] != baseline[k]
  {
    var p := Params(Attentive, c, blockSize, steps, Stubborn(), maxNew, {}, None);
    var start := Prefilled(Attentive, c, prompt);
    var sequential := GreedyBounded(Attentive, c, start, [], maxNew);
    SequentialMisses(c, prompt, maxNew);
    BaselineIsZero(prompt, maxNew, Horizon(c, prompt));
    UpToEosKeeps(sequential, {}, |sequential|);
    RejectedBlocksAreSequential(p, prompt);
  }
}
