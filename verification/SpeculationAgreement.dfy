// Speculative decoding against full-cache greedy decoding.
module SpeculationAgreement {
  import opened Wrappers
  import opened Transformer
  import opened SinkWindow
  import opened GreedyRule
  import opened GreedyDecoders
  import opened Speculation
  import Sequences

  /** How many tokens the bounded cache is guaranteed to get right. */
  function Horizon(c: Config, prompt: seq<Token>): nat {
    if |prompt| > Budget(c) then 1 else Budget(c) - |prompt| + 2
  }

  /** While nothing has been evicted the verifier holds the full cache; its prediction is good one token longer. */
  ghost predicate Faithful(m: Model, c: Config, v: State, h: seq<Token>, prompt: seq<Token>) {
    && v.pos == |h| && v.pred.Some? && h != []
    && (|h| <= Budget(c) ==> v.kv == FullKv(m, h))
    && (|h| <= Budget(c) + 1 || |h| == |prompt| ==> v.pred.value == FullKv(m, h)[|h| - 1])
  }

  ghost predicate Good(p: Params, prompt: seq<Token>, s: Dec) {
    && s.committed == prompt + s.generated
    && |s.generated| <= p.maxNew
    && Faithful(p.m, p.c, s.v, s.committed, prompt)
    && Running(FullRule(p.m), prompt, s.generated, p.maxNew, p.eos, Horizon(p.c, prompt))
  }

  lemma StartIsGood(p: Params, prompt: seq<Token>)
    requires prompt != []
    ensures Good(p, prompt, Started(p, prompt))
  {
    var s := Started(p, prompt);
    assert prompt + [] == prompt;
    assert [] + FullKv(p.m, prompt) == FullKv(p.m, prompt);
  }

  /** The verifier's row before block token i is the full-cache row, as far as the horizon reaches. */
  lemma BeforeIsFull(m: Model, c: Config, v: State, h: seq<Token>, prompt: seq<Token>, d: seq<Token>, i: nat)
    requires Faithful(m, c, v, h, prompt) && i <= |d|
    requires |h| <= Budget(c) || (i == 0 && (|h| == Budget(c) + 1 || |h| == |prompt|))
    ensures Before(v.pred.value, Rows(m, v.kv, d, v.pos), i) == FullKv(m, h + d[..i])[|h| + i - 1]
  {
    if i == 0 {
      assert h + d[..0] == h;
    } else {
      RowsPrefix(m, v.kv, d, v.pos, i);
      FullKvExtend(m, h, d[..i]);
      assert Rows(m, v.kv, d, v.pos)[i - 1] == Rows(m, v.kv, d, v.pos)[..i][i - 1];
    }
  }

  /** Within the horizon, the model's choice before block token i is the full-cache choice. */
  lemma ChoiceIsFull(p: Params, prompt: seq<Token>, s: Dec, d: seq<Token>, i: nat)
    requires Good(p, prompt, s) && i <= |d| && |s.generated| + i < Horizon(p.c, prompt)
    ensures p.m.pick(Before(s.v.pred.value, BlockRows(p, s, d), i)) == FullRule(p.m)(s.committed + d[..i])
  {
    BeforeIsFull(p.m, p.c, s.v, s.committed, prompt, d, i);
  }

  lemma AcceptedChoice(p: Params, prompt: seq<Token>, s: Dec, d: seq<Token>, i: nat, j: nat)
    requires Good(p, prompt, s) && j < i <= AcceptedOf(p, s, d) && |s.generated| + j < Horizon(p.c, prompt)
    ensures d[..i][j] == FullRule(p.m)(prompt + s.generated + d[..i][..j])
  {
    Sequences.TakeTake(d, i, j);
    ChoiceIsFull(p, prompt, s, d, j);
  }

  /** Accepted tokens without an end-of-sequence token keep the loop running on greedy choices. */
  lemma AcceptedKeepsRunning(p: Params, prompt: seq<Token>, s: Dec, d: seq<Token>, i: nat)
    requires Good(p, prompt, s) && i <= AcceptedOf(p, s, d) && |s.generated| + i <= p.maxNew
    requires forall j :: 0 <= j < i ==> d[j] !in p.eos
    ensures Running(FullRule(p.m), prompt, s.generated + d[..i], p.maxNew, p.eos, Horizon(p.c, prompt))
  {
    var ok, next := d[..i], FullRule(p.m);
    forall j | 0 <= j < |ok| && |s.generated| + j < Horizon(p.c, prompt)
      ensures ok[j] == next(prompt + s.generated + ok[..j])
    {
      AcceptedChoice(p, prompt, s, d, i, j);
    }
    RunningMany(next, prompt, s.generated, ok, p.maxNew, p.eos, Horizon(p.c, prompt));
  }

  /** The loop's next token t stands at block index i; it is greedy within the horizon. */
  lemma NextTokenStep(p: Params, prompt: seq<Token>, s: Dec, d: seq<Token>, i: nat, t: Token, out: seq<Token>)
    requires Good(p, prompt, s) && i <= AcceptedOf(p, s, d) && |s.generated| + i < p.maxNew
    requires forall j :: 0 <= j < i ==> d[j] !in p.eos
    requires t == p.m.pick(Before(s.v.pred.value, BlockRows(p, s, d), i))
    requires out == s.generated + d[..i] + [t]
    ensures prompt + out == s.committed + d[..i] + [t]
    ensures t !in p.eos ==> Running(FullRule(p.m), prompt, out, p.maxNew, p.eos, Horizon(p.c, prompt))
    ensures Follows(FullRule(p.m), prompt, out, Horizon(p.c, prompt))
    ensures t in p.eos || |out| == p.maxNew ==>
      AgreeOnFirst(out, Greedy(FullRule(p.m), prompt, p.maxNew, p.eos), Horizon(p.c, prompt))
  {
    var before, next := s.generated + d[..i], FullRule(p.m);
    AcceptedKeepsRunning(p, prompt, s, d, i);
    Sequences.Assoc(prompt, s.generated, d[..i]);
    if |before| < Horizon(p.c, prompt) {
      ChoiceIsFull(p, prompt, s, d, i);
    }
    RunningStep(next, prompt, before, t, p.maxNew, p.eos, Horizon(p.c, prompt));
  }

  /** As long as the longer history fits, committing accepted tokens keeps every slot of it. */
  lemma AdvancedIsFull(m: Model, c: Config, v: State, h: seq<Token>, d: seq<Token>, a: nat)
    requires v.kv == FullKv(m, h) && v.pos == |h| && a <= |d| && |h| + a <= Budget(c)
    ensures Advanced(m, c, v, d, a).kv == FullKv(m, h + d[..a])
  {
    AdvancedKv(m, c, v, d, a);
    FullKvExtend(m, h, d[..a]);
  }

  lemma AppendedIsFull(m: Model, c: Config, v: State, h: seq<Token>, t: Token)
    requires v.kv == FullKv(m, h) && v.pos == |h|
    ensures Appended(m, c, v, t).pred == Some(FullKv(m, h + [t])[|h|])
    ensures |h| + 1 <= Budget(c) ==> Appended(m, c, v, t).kv == FullKv(m, h + [t])
  {
    AppendedKv(m, c, v, t);
    FullKvAppend(m, h, t);
  }

  /** Committing accepted tokens and one appended token keeps the verifier faithful. */
  lemma AppendIsFaithful(m: Model, c: Config, v: State, h: seq<Token>, prompt: seq<Token>, d: seq<Token>, a: nat, t: Token)
    requires Faithful(m, c, v, h, prompt) && a <= |d| && |h| >= |prompt|
    ensures Faithful(m, c, Appended(m, c, Advanced(m, c, v, d, a), t), h + d[..a] + [t], prompt)
  {
    if |h| + a <= Budget(c) {
      AdvancedIsFull(m, c, v, h, d, a);
      AppendedIsFull(m, c, Advanced(m, c, v, d, a), h + d[..a], t);
    }
  }

  ghost predicate Outcome(p: Params, prompt: seq<Token>, r: Dec) {
    && (!r.halted ==> AgreeOnFirst(r.generated, Greedy(FullRule(p.m), prompt, p.maxNew, p.eos), Horizon(p.c, prompt)))
    && Follows(FullRule(p.m), prompt, r.generated, Horizon(p.c, prompt))
  }

  /** An output that the callback ended early still consists of greedy choices. */
  lemma HaltedOutcome(p: Params, prompt: seq<Token>, s: Dec, d: seq<Token>, r: Dec)
    requires Good(p, prompt, s) && |s.generated| + AcceptedOf(p, s, d) <= p.maxNew
    requires FirstEos(d, AcceptedOf(p, s, d), p.eos, 0).None?
    requires r.generated == s.generated + d[..AcceptedOf(p, s, d)] && (|r.generated| == p.maxNew || r.halted)
    ensures Outcome(p, prompt, r)
  {
    AcceptedKeepsRunning(p, prompt, s, d, AcceptedOf(p, s, d));
    if |r.generated| == p.maxNew {
      RunningToCap(FullRule(p.m), prompt, r.generated, p.maxNew, p.eos, Horizon(p.c, prompt));
    }
  }

  /** A block step either ends with an output that agrees, or leads to a good state. */
  lemma BlockStepGood(p: Params, prompt: seq<Token>, s: Dec, d: seq<Token>)
    requires Good(p, prompt, s) && !s.halted && |s.generated| < p.maxNew && |d| == BlockLength(p, s)
    ensures match BlockStep(p, s, d)
            case Stopped(r) => Outcome(p, prompt, r)
            case Next(t) => Good(p, prompt, t) && !t.halted
  {
    var a, r := AcceptedOf(p, s, d), BlockStep(p, s, d);
    var stop := FirstEos(d, a, p.eos, 0);
    BlockStepFields(p, s, d);
    if stop.Some? {
      var i := stop.value;
      NextTokenStep(p, prompt, s, d, i, d[i], r.dec.generated);
    } else if |s.generated| + a >= p.maxNew || r.dec.appends == s.appends {
      HaltedOutcome(p, prompt, s, d, r.dec);
    } else {
      var t := CorrectionOf(p, s, d);
      NextTokenStep(p, prompt, s, d, a, t, r.dec.generated);
      AppendIsFaithful(p.m, p.c, s.v, s.committed, prompt, d, a, t);
    }
  }

  lemma {:induction false} LoopGood(p: Params, prompt: seq<Token>, s: Dec)
    requires Good(p, prompt, s) && !s.halted
    ensures Loop(p, s).Some? ==> Outcome(p, prompt, Loop(p, s).value)
    decreases p.maxNew - |s.generated|
  {
    if |s.generated| == p.maxNew {
      RunningToCap(FullRule(p.m), prompt, s.generated, p.maxNew, p.eos, Horizon(p.c, prompt));
    } else {
      match p.draft(|s.proposed|, s.committed, BlockLength(p, s), p.steps)
      case None =>
      case Some(d) =>
        if |d| == BlockLength(p, s) {
          BlockStepGood(p, prompt, s, d);
          if BlockStep(p, s, d).Next? {
            LoopGood(p, prompt, BlockStep(p, s, d).dec);
          }
        }
    }
  }

  /**
   * Whatever the model, the drafter, the block size, the end-of-sequence set, the sink and the window:
   * a speculative run that the callback did not stop agrees with full-cache greedy decoding on its first
   * budget - |prompt| + 2 tokens (on its first token when the prompt alone exceeds the budget), or
   * everywhere when either output is shorter.
   */
  lemma SpeculationAgreesWithFullCache(p: Params, prompt: seq<Token>)
    requires prompt != [] && Loop(p, Started(p, prompt)).Some?
    ensures var r := Loop(p, Started(p, prompt)).value;
            && Follows(FullRule(p.m), prompt, r.generated, Horizon(p.c, prompt))
            && (!r.halted ==>
                 AgreeOnFirst(r.generated, Greedy(FullRule(p.m), prompt, p.maxNew, p.eos), Horizon(p.c, prompt)))
  {
    StartIsGood(p, prompt);
    LoopGood(p, prompt, Started(p, prompt));
  }

  /** When sink and window cover the prompt and either output but its last token, the outputs are equal. */
  lemma EquivalenceTheorem(p: Params, prompt: seq<Token>, r: Dec)
    requires prompt != [] && Loop(p, Started(p, prompt)) == Some(r) && !r.halted
    ensures var baseline := Greedy(FullRule(p.m), prompt, p.maxNew, p.eos);
            Budget(p.c) >= |prompt| + |baseline| - 1 || Budget(p.c) >= |prompt| + |r.generated| - 1 ==>
              r.generated == baseline
  {
    SpeculationAgreesWithFullCache(p, prompt);
    GreedyIsFinished(FullRule(p.m), prompt, p.maxNew, p.eos);
  }
}
