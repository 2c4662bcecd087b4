// The speculative loop on values: draft a block, accept its longest matching prefix, correct, repeat.
module Speculation {
  import opened Wrappers
  import opened Transformer
  import opened SinkWindow
  import Sequences

  // A drafter sees its call number, the committed tokens, the block length and the step count. The call
  // number lets it be stateful; it may also fail.
  type Drafter = (nat, seq<Token>, nat, nat) -> Option<seq<Token>>

  // A streaming callback sees everything delivered so far, the newest token last; true asks to stop.
  type Callback = seq<Token> -> bool

  datatype Params = Params(
    m: Model, c: Config, blockSize: nat, steps: nat, draft: Drafter,
    maxNew: nat, eos: set<Token>, onToken: Option<Callback>)

  /** `cut` counts accepted tokens discarded behind an end-of-sequence token; `halted` records a stop by callback. */
  datatype Dec = Dec(
    v: State, committed: seq<Token>, generated: seq<Token>,
    accepted: seq<nat>, proposed: seq<nat>, emitted: seq<Token>,
    appends: nat, cut: nat, halted: bool)

  function Started(p: Params, prompt: seq<Token>): Dec
    requires prompt != []
  {
    Dec(Prefilled(p.m, p.c, prompt), prompt, [], [], [], [], 0, 0, false)
  }

  /** The row that predicts block token i: the pending prediction, or the row of the token before. */
  function Before(pred: Slot, rows: seq<Slot>, i: nat): Slot
    requires i <= |rows|
  {
    if i == 0 then pred else rows[i - 1]
  }

  /** The length of the longest prefix of `d` in which every token is the model's own choice. */
  function Accepted(m: Model, pred: Slot, rows: seq<Slot>, d: seq<Token>, from: nat): (a: nat)
    requires from <= |d| == |rows|
    requires forall i :: 0 <= i < from ==> d[i] == m.pick(Before(pred, rows, i))
    ensures a <= |d|
    ensures forall i :: 0 <= i < a ==> d[i] == m.pick(Before(pred, rows, i))
    ensures a < |d| ==> d[a] != m.pick(Before(pred, rows, a))
    decreases |d| - from
  {
    if from < |d| && d[from] == m.pick(Before(pred, rows, from)) then Accepted(m, pred, rows, d, from + 1) else from
  }

  /** The index of the first end-of-sequence token among the first `a` tokens of `d`. */
  function FirstEos(d: seq<Token>, a: nat, eos: set<Token>, from: nat): (r: Option<nat>)
    requires from <= a <= |d| && forall i :: 0 <= i < from ==> d[i] !in eos
    ensures r.Some? ==> r.value < a && d[r.value] in eos && forall i :: 0 <= i < r.value ==> d[i] !in eos
    ensures r.None? ==> forall i :: 0 <= i < a ==> d[i] !in eos
    decreases a - from
  {
    if from == a then None else if d[from] in eos then Some(from) else FirstEos(d, a, eos, from + 1)
  }

  /** Deliver tokens one by one until the callback asks to stop. */
  function Emit(cb: Option<Callback>, log: seq<Token>, toks: seq<Token>): (r: (seq<Token>, bool))
    ensures cb.None? ==> r == (log, false)
    ensures cb.Some? ==> log <= r.0 <= log + toks
    ensures cb.Some? ==> if r.1 then cb.value(r.0) else r.0 == log + toks
    decreases |toks|
  {
    if cb.None? || toks == [] then (log, false) else
      var more := log + [toks[0]];
      assert log + toks == more + toks[1..];
      if cb.value(more) then (more, true) else Emit(cb, more, toks[1..])
  }

  function BlockLength(p: Params, s: Dec): nat
    requires |s.generated| <= p.maxNew
  {
    var remaining := p.maxNew - |s.generated|;
    if p.blockSize <= remaining then p.blockSize else remaining
  }

  function BlockRows(p: Params, s: Dec, d: seq<Token>): (r: seq<Slot>)
    ensures |r| == |d|
  {
    Rows(p.m, s.v.kv, d, s.v.pos)
  }

  function AcceptedOf(p: Params, s: Dec, d: seq<Token>): (a: nat)
    requires s.v.pred.Some?
    ensures a <= |d|
  {
    Accepted(p.m, s.v.pred.value, BlockRows(p, s, d), d, 0)
  }

  /** The verifier's own next token after the accepted prefix: the correction, or the bonus. */
  function CorrectionOf(p: Params, s: Dec, d: seq<Token>): Token
    requires s.v.pred.Some?
  {
    p.m.pick(Before(s.v.pred.value, BlockRows(p, s, d), AcceptedOf(p, s, d)))
  }

  datatype Step = Next(dec: Dec) | Stopped(dec: Dec)

  /** Commit the accepted prefix of a block. */
  function Verified(p: Params, s: Dec, d: seq<Token>): Dec
    requires s.v.pred.Some?
  {
    var a := AcceptedOf(p, s, d);
    s.(v := Advanced(p.m, p.c, s.v, d, a),
       committed := s.committed + d[..a], generated := s.generated + d[..a],
       accepted := s.accepted + [a], proposed := s.proposed + [|d|])
  }

  /** Commit the correction or bonus token. */
  function AppendStep(p: Params, s: Dec, t: Token): Step {
    var (log, stop) := Emit(p.onToken, s.emitted, [t]);
    var next := s.(v := Appended(p.m, p.c, s.v, t), committed := s.committed + [t], generated := s.generated + [t],
                   appends := s.appends + 1, emitted := log, halted := stop);
    if stop || t in p.eos then Stopped(next) else Next(next)
  }

  function BlockStep(p: Params, s: Dec, d: seq<Token>): (r: Step)
    requires s.v.pred.Some?
    ensures r.Next? ==> |r.dec.generated| > |s.generated|
    ensures r.Next? ==> r.dec.v.pred.Some?
  {
    var t := Verified(p, s, d);
    var a := AcceptedOf(p, s, d);
    match FirstEos(d, a, p.eos, 0)
    case Some(i) =>
      // Everything behind the end-of-sequence token is discarded here, but stays in the verifier.
      var excess := a - (i + 1);
      Stopped(t.(generated := t.generated[..|t.generated| - excess],
                 committed := t.committed[..|t.committed| - excess],
                 cut := excess, emitted := Emit(p.onToken, t.emitted, d[..i + 1]).0))
    case None =>
      var (log, stop) := Emit(p.onToken, t.emitted, d[..a]);
      var u := t.(emitted := log, halted := stop);
      if stop || |t.generated| >= p.maxNew then Stopped(u) else AppendStep(p, u, CorrectionOf(p, s, d))
  }

  /** The whole loop; no result when the drafter fails or returns a block of the wrong length. */
  function Loop(p: Params, s: Dec): Option<Dec>
    requires s.v.pred.Some? && |s.generated| <= p.maxNew
    decreases p.maxNew - |s.generated|
  {
    if |s.generated| == p.maxNew then Some(s) else
      match p.draft(|s.proposed|, s.committed, BlockLength(p, s), p.steps)
      case None => None
      case Some(d) =>
        if |d| != BlockLength(p, s) then None else
          match BlockStep(p, s, d)
          case Stopped(t) => Some(t)
          case Next(t) =>
            BlockStepBounded(p, s, d);
            Loop(p, t)
  }

  /** One turn of the loop, when the loop does give a result. */
  lemma LoopUnfolds(p: Params, s: Dec)
    requires s.v.pred.Some? && |s.generated| < p.maxNew && Loop(p, s).Some?
    ensures var d := p.draft(|s.proposed|, s.committed, BlockLength(p, s), p.steps);
            && d.Some? && |d.value| == BlockLength(p, s)
            && var r := BlockStep(p, s, d.value);
            && |r.dec.generated| <= p.maxNew
            && Loop(p, s) == if r.Next? then Loop(p, r.dec) else Some(r.dec)
  {
    BlockStepBounded(p, s, p.draft(|s.proposed|, s.committed, BlockLength(p, s), p.steps).value);
  }

  lemma BlockStepBounded(p: Params, s: Dec, d: seq<Token>)
    requires s.v.pred.Some? && |s.generated| < p.maxNew && |d| == BlockLength(p, s)
    ensures |BlockStep(p, s, d).dec.generated| <= p.maxNew
  {
  }

  /** Which tokens a block step adds, and why it stops. */
  lemma BlockStepFields(p: Params, s: Dec, d: seq<Token>)
    requires s.v.pred.Some? && !s.halted
    ensures var r, a := BlockStep(p, s, d), AcceptedOf(p, s, d);
            match FirstEos(d, a, p.eos, 0)
            case Some(i) =>
              && r.Stopped? && !r.dec.halted
              && r.dec.generated == s.generated + d[..i] + [d[i]]
              && r.dec.appends == s.appends && r.dec.cut == a - (i + 1)
            case None =>
              if |s.generated| + a >= p.maxNew || r.dec.appends == s.appends
              then r.Stopped? && r.dec.generated == s.generated + d[..a] && r.dec.appends == s.appends
                   && (|s.generated| + a < p.maxNew ==> r.dec.halted) && r.dec.cut == s.cut
              else
                var t := CorrectionOf(p, s, d);
                && r.dec.generated == s.generated + d[..a] + [t]
                && r.dec.committed == s.committed + d[..a] + [t]
                && r.dec.v == Appended(p.m, p.c, Advanced(p.m, p.c, s.v, d, a), t)
                && r.dec.appends == s.appends + 1 && r.dec.cut == s.cut
                && (r.Next? ==> t !in p.eos && !r.dec.halted)
                && (r.Stopped? && !r.dec.halted ==> t in p.eos)
  {
    var a := AcceptedOf(p, s, d);
    var r := FirstEos(d, a, p.eos, 0);
    if r.Some? {
      Sequences.CutBehind(s.generated, d, a, r.value);
    }
  }
}
