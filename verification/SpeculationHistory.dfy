// What a completed speculative run leaves in the verifier.
module SpeculationHistory {
  import opened Wrappers
  import opened Transformer
  import opened SinkWindow
  import opened CacheHistory
  import opened Speculation
  import Sequences

  /** The verifier holds exactly the prompt and the output so far. */
  ghost predicate Held(p: Params, prompt: seq<Token>, s: Dec) {
    !s.halted && s.cut == 0 && s.v.pred.Some? && |s.generated| <= p.maxNew && Refines(p.c, s.v, prompt + s.generated)
  }

  /** The verifier after a block has its accepted prefix, and the appended token if there is one. */
  lemma BlockStepVerifier(p: Params, s: Dec, d: seq<Token>)
    requires s.v.pred.Some?
    ensures var r, a := BlockStep(p, s, d).dec, AcceptedOf(p, s, d);
            var v := Advanced(p.m, p.c, s.v, d, a);
            r.v == if r.appends == s.appends then v else Appended(p.m, p.c, v, CorrectionOf(p, s, d))
  {
  }

  lemma AcceptedRefines(p: Params, h: seq<Token>, v: State, d: seq<Token>, a: nat)
    requires a <= |d| && Refines(p.c, v, h)
    ensures Refines(p.c, Advanced(p.m, p.c, v, d, a), h + d[..a])
  {
    AdvancedKv(p.m, p.c, v, d, a);
    ExtendRefines(p.m, p.c, v, h, d[..a], Advanced(p.m, p.c, v, d, a));
  }

  lemma AppendedRefines(p: Params, h: seq<Token>, v: State, t: Token)
    requires Refines(p.c, v, h)
    ensures Refines(p.c, Appended(p.m, p.c, v, t), h + [t])
  {
    AppendedKv(p.m, p.c, v, t);
    ExtendRefines(p.m, p.c, v, h, [t], Appended(p.m, p.c, v, t));
  }

  /** The verifier is ahead of a shorter output. */
  lemma AheadIsNotHeld(c: Config, v: State, h: seq<Token>, shorter: seq<Token>)
    requires Refines(c, v, h) && |shorter| < |h|
    ensures !Refines(c, v, shorter)
  {
  }

  /** Stopped at an end-of-sequence token: held exactly when it was the last accepted token. */
  lemma CutHeld(c: Config, prompt: seq<Token>, before: seq<Token>, d: seq<Token>, a: nat, i: nat, v: State, out: seq<Token>)
    requires i < a <= |d| && Refines(c, v, prompt + before + d[..a]) && out == before + d[..i] + [d[i]]
    ensures Refines(c, v, prompt + out) <==> a == i + 1
  {
    Sequences.TakeSnoc(d, i);
    Sequences.Assoc(before, d[..i], [d[i]]);
    Sequences.Assoc(prompt, before, d[..i + 1]);
    if i + 1 < a {
      AheadIsNotHeld(c, v, prompt + before + d[..a], prompt + out);
    }
  }

  lemma GrownHeld(c: Config, prompt: seq<Token>, before: seq<Token>, x: seq<Token>, v: State, out: seq<Token>)
    requires Refines(c, v, prompt + before + x) && out == before + x
    ensures Refines(c, v, prompt + out)
  {
    Sequences.Assoc(prompt, before, x);
  }

  lemma AppendedHeld(p: Params, prompt: seq<Token>, before: seq<Token>, x: seq<Token>, v: State, t: Token, out: seq<Token>)
    requires Refines(p.c, v, prompt + before + x) && out == before + x + [t]
    ensures Refines(p.c, Appended(p.m, p.c, v, t), prompt + out)
  {
    AppendedRefines(p, prompt + before + x, v, t);
    Sequences.Assoc(prompt, before, x);
    Sequences.Assoc(prompt, before + x, [t]);
  }

  lemma BlockStepHeld(p: Params, prompt: seq<Token>, s: Dec, d: seq<Token>)
    requires Held(p, prompt, s) && |s.generated| < p.maxNew && |d| == BlockLength(p, s)
    ensures var r := BlockStep(p, s, d);
            && (Refines(p.c, r.dec.v, prompt + r.dec.generated) <==> r.dec.cut == 0)
            && (r.Next? ==> Held(p, prompt, r.dec))
  {
    var r, a := BlockStep(p, s, d), AcceptedOf(p, s, d);
    var v := Advanced(p.m, p.c, s.v, d, a);
    BlockStepVerifier(p, s, d);
    BlockStepFields(p, s, d);
    BlockStepBounded(p, s, d);
    AcceptedRefines(p, prompt + s.generated, s.v, d, a);
    match FirstEos(d, a, p.eos, 0)
    case Some(i) => CutHeld(p.c, prompt, s.generated, d, a, i, v, r.dec.generated);
    case None =>
      if r.dec.appends == s.appends {
        GrownHeld(p.c, prompt, s.generated, d[..a], v, r.dec.generated);
      } else {
        AppendedHeld(p, prompt, s.generated, d[..a], v, CorrectionOf(p, s, d), r.dec.generated);
      }
  }

  lemma {:induction false} LoopHeld(p: Params, prompt: seq<Token>, s: Dec, end: Dec)
    requires Held(p, prompt, s) && Loop(p, s) == Some(end)
    ensures Refines(p.c, end.v, prompt + end.generated) <==> end.cut == 0
    decreases p.maxNew - |s.generated|
  {
    if |s.generated| < p.maxNew {
      LoopUnfolds(p, s);
      var d := p.draft(|s.proposed|, s.committed, BlockLength(p, s), p.steps).value;
      BlockStepHeld(p, prompt, s, d);
      if BlockStep(p, s, d).Next? {
        LoopHeld(p, prompt, BlockStep(p, s, d).dec, end);
      }
    }
  }

  /**
   * After every completed run the verifier's cache, tokens and position are those of prompt and output exactly when
   * nothing was cut behind an end-of-sequence token; otherwise the verifier is ahead of the output.
   */
  lemma RunIsHeldExactlyWhen(p: Params, prompt: seq<Token>, end: Dec)
    requires prompt != [] && Loop(p, Started(p, prompt)) == Some(end)
    ensures Refines(p.c, end.v, prompt + end.generated) <==> end.cut == 0
  {
    PrefilledRefines(p.m, p.c, prompt);
    assert prompt + [] == prompt;
    LoopHeld(p, prompt, Started(p, prompt), end);
  }
}
