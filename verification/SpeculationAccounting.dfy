// Counters, callbacks and termination of the speculative loop.
module SpeculationAccounting {
  import opened Wrappers
  import opened Transformer
  import opened Speculation
  import Sequences

  /** Tokens in, tokens out: what holds at the head of the loop and still holds when it ends. */
  ghost predicate Balanced(p: Params, s: Dec) {
    && |s.generated| + s.cut == Sequences.Sum(s.accepted) + s.appends
    && |s.generated| <= p.maxNew
    && |s.accepted| == |s.proposed| <= |s.generated|
    && forall i :: 0 <= i < |s.proposed| ==> s.accepted[i] <= s.proposed[i] <= p.blockSize && s.proposed[i] > 0
  }

  ghost predicate InStep(p: Params, s: Dec) {
    && !s.halted && s.cut == 0 && s.v.pred.Some?
    && Balanced(p, s)
    && s.emitted == if p.onToken.None? then [] else s.generated
  }

  /** What the callback saw: everything in order, or a prefix at whose last token it asked to stop. */
  ghost predicate Delivered(p: Params, r: Dec) {
    match p.onToken
    case None => r.emitted == [] && !r.halted
    case Some(cb) =>
      && r.emitted <= r.generated
      && (r.emitted == r.generated || cb(r.emitted))
      && (r.halted ==> cb(r.emitted))
  }

  lemma BlockStepLists(p: Params, s: Dec, d: seq<Token>)
    requires s.v.pred.Some?
    ensures var r := BlockStep(p, s, d);
            r.dec.accepted == s.accepted + [AcceptedOf(p, s, d)] && r.dec.proposed == s.proposed + [|d|]
  {
  }

  lemma BlockStepTotals(p: Params, s: Dec, d: seq<Token>)
    requires s.v.pred.Some? && !s.halted && s.cut == 0 && |s.generated| < p.maxNew && |d| == BlockLength(p, s) > 0
    ensures var r, a := BlockStep(p, s, d).dec, AcceptedOf(p, s, d);
            && |r.generated| + r.cut == |s.generated| + a + (r.appends - s.appends)
            && |s.generated| < |r.generated| <= p.maxNew
  {
    BlockStepFields(p, s, d);
  }

  /** When the loop goes on, nothing was cut and nobody asked to stop. */
  lemma BlockStepGoesOn(p: Params, s: Dec, d: seq<Token>)
    requires s.v.pred.Some? && !s.halted && s.cut == 0 && BlockStep(p, s, d).Next?
    ensures var r := BlockStep(p, s, d).dec; r.cut == 0 && !r.halted && r.v.pred.Some?
  {
    BlockStepFields(p, s, d);
  }

  /** The lists keep their balance when a block of n tokens, `a` of them accepted, is added. */
  lemma BalanceKeeps(p: Params, s: Dec, r: Dec, a: nat, n: nat)
    requires Balanced(p, s) && s.cut == 0 && a <= n <= p.blockSize && n > 0
    requires r.accepted == s.accepted + [a] && r.proposed == s.proposed + [n]
    requires |r.generated| + r.cut == |s.generated| + a + (r.appends - s.appends)
    requires |s.generated| < |r.generated| <= p.maxNew
    ensures Balanced(p, r)
  {
    Sequences.SumSnoc(s.accepted, a);
  }

  /** A block adds what it accepted, less what it cut, and at most one appended token. */
  lemma BlockStepCounts(p: Params, s: Dec, d: seq<Token>)
    requires InStep(p, s) && |s.generated| < p.maxNew && |d| == BlockLength(p, s) > 0
    ensures Balanced(p, BlockStep(p, s, d).dec)
    ensures BlockStep(p, s, d).Next? ==>
      var r := BlockStep(p, s, d).dec; r.cut == 0 && !r.halted && r.v.pred.Some?
  {
    BlockStepLists(p, s, d);
    BlockStepTotals(p, s, d);
    BalanceKeeps(p, s, BlockStep(p, s, d).dec, AcceptedOf(p, s, d), |d|);
    if BlockStep(p, s, d).Next? {
      BlockStepGoesOn(p, s, d);
    }
  }

  lemma BlockStepDelivers(p: Params, s: Dec, d: seq<Token>)
    requires InStep(p, s) && |s.generated| < p.maxNew && |d| == BlockLength(p, s) > 0
    ensures var r := BlockStep(p, s, d);
            && Delivered(p, r.dec)
            && (r.Next? ==> r.dec.emitted == if p.onToken.None? then [] else r.dec.generated)
  {
    var a := AcceptedOf(p, s, d);
    BlockStepFields(p, s, d);
    var stop := FirstEos(d, a, p.eos, 0);
    if stop.Some? {
      Sequences.TakeSnoc(d, stop.value);
      Sequences.Assoc(s.generated, d[..stop.value], [d[stop.value]]);
    }
  }

  lemma {:induction false} LoopCounts(p: Params, s: Dec, end: Dec)
    requires InStep(p, s) && p.blockSize > 0 && Loop(p, s) == Some(end)
    ensures Balanced(p, end) && Delivered(p, end)
    decreases p.maxNew - |s.generated|
  {
    if |s.generated| < p.maxNew {
      LoopUnfolds(p, s);
      var d := p.draft(|s.proposed|, s.committed, BlockLength(p, s), p.steps).value;
      BlockStepCounts(p, s, d);
      BlockStepDelivers(p, s, d);
      if BlockStep(p, s, d).Next? {
        LoopCounts(p, BlockStep(p, s, d).dec, end);
      }
    }
  }

  /**
   * Every run accounts for its tokens: the output is what was accepted plus what was appended, less what was
   * cut behind an end-of-sequence token; it respects the cap; every block contributes to it; and the
   * callback sees the output in order, or a prefix of it that ends where it asked to stop.
   */
  lemma RunAccounts(p: Params, prompt: seq<Token>)
    requires prompt != [] && p.blockSize > 0 && Loop(p, Started(p, prompt)).Some?
    ensures var r := Loop(p, Started(p, prompt)).value;
            && |r.generated| == Sequences.Sum(r.accepted) + r.appends - r.cut
            && |r.generated| <= p.maxNew
            && |r.accepted| == |r.proposed| <= |r.generated|
            && (forall i :: 0 <= i < |r.proposed| ==> r.accepted[i] <= r.proposed[i] <= p.blockSize)
            && match p.onToken
               case None => r.emitted == []
               case Some(cb) => r.emitted <= r.generated && (r.emitted == r.generated || cb(r.emitted))
  {
    LoopCounts(p, Started(p, prompt), Loop(p, Started(p, prompt)).value);
  }
}
