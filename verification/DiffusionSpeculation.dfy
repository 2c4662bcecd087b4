// The two halves together: speculative decoding with the masked-diffusion drafter.
module DiffusionSpeculation {
  import opened Wrappers
  import opened SinkWindow
  import opened GreedyRule
  import opened GreedyDecoders
  import opened Speculation
  import SpeculationAccounting
  import SpeculationAgreement
  import Diffusion

  /** The drafter that proposes blocks by masked diffusion; whatever it raises ends the run. */
  function DiffusionDrafter(dn: Diffusion.Denoiser): Drafter {
    (call: nat, committed: seq<Token>, length: nat, steps: nat) =>
      match Diffusion.Propose(dn, committed, length, steps)
      case Returned(d) => Some(d)
      case Raised(_) => None
  }

  lemma DrafterDelivers(p: Params, dn: Diffusion.Denoiser, s: Dec)
    requires p.draft == DiffusionDrafter(dn) && Diffusion.SelectsTop(dn) && Diffusion.NeverPredictsMask(dn)
    requires p.blockSize > 0 && p.steps > 0 && |s.generated| < p.maxNew
    ensures var d := p.draft(|s.proposed|, s.committed, BlockLength(p, s), p.steps);
            d.Some? && |d.value| == BlockLength(p, s) && dn.mask !in d.value
  {
    Diffusion.MaskFreeModelsAlwaysPropose(dn, s.committed, BlockLength(p, s), p.steps, 0);
    Diffusion.ProposalIsMaskFreeOrRaised(dn, s.committed, BlockLength(p, s), p.steps);
  }

  lemma {:induction false} LoopCompletes(p: Params, dn: Diffusion.Denoiser, s: Dec)
    requires p.draft == DiffusionDrafter(dn) && Diffusion.SelectsTop(dn) && Diffusion.NeverPredictsMask(dn)
    requires p.blockSize > 0 && p.steps > 0 && s.v.pred.Some? && |s.generated| <= p.maxNew
    ensures Loop(p, s).Some?
    decreases p.maxNew - |s.generated|
  {
    if |s.generated| < p.maxNew {
      DrafterDelivers(p, dn, s);
      var d := p.draft(|s.proposed|, s.committed, BlockLength(p, s), p.steps).value;
      BlockStepBounded(p, s, d);
      if BlockStep(p, s, d).Next? {
        LoopCompletes(p, dn, BlockStep(p, s, d).dec);
      }
    }
  }

  /**
   * A diffusion model that never predicts its mask token, drafting for any verifier model, never fails a
   * run; and without a callback the output is the full-cache greedy output whenever sink and window cover it.
   */
  lemma DiffusionDraftsAreHarmless(p: Params, dn: Diffusion.Denoiser, prompt: seq<Token>)
    requires p.draft == DiffusionDrafter(dn) && Diffusion.SelectsTop(dn) && Diffusion.NeverPredictsMask(dn)
    requires p.blockSize > 0 && p.steps > 0 && prompt != [] && p.onToken == None
    ensures Loop(p, Started(p, prompt)).Some?
    ensures var out := Greedy(FullRule(p.m), prompt, p.maxNew, p.eos);
            Budget(p.c) >= |prompt| + |out| - 1 ==> Loop(p, Started(p, prompt)).value.generated == out
  {
    LoopCompletes(p, dn, Started(p, prompt));
    SpeculationAccounting.LoopCounts(p, Started(p, prompt), Loop(p, Started(p, prompt)).value);
    SpeculationAgreement.EquivalenceTheorem(p, prompt, Loop(p, Started(p, prompt)).value);
  }
}
