// The masked-diffusion drafter: a block starts fully masked and is unmasked along a schedule.
module Diffusion {
  import opened Wrappers
  import opened GreedyRule
  import Sequences

  /**
   * The diffusion model, position by position: the token it picks and how sure it is. `top(conf, k)` is the
   * tensor library's top-k selection, ties broken as it likes; None stands for minus infinity.
   */
  datatype Denoiser = Denoiser(
    mask: Token,
    predict: (seq<Token>, nat) -> Token,
    sure: (seq<Token>, nat) -> real,
    top: (seq<Option<real>>, nat) -> set<nat>)

  predicate AtLeast(a: Option<real>, b: Option<real>) {
    b.None? || (a.Some? && a.value >= b.value)
  }

  /** k distinct indices, none of them below an index that was left out. */
  ghost predicate IsTopK(conf: seq<Option<real>>, k: nat, sel: set<nat>) {
    && |sel| == k
    && (forall i :: i in sel ==> i < |conf|)
    && forall i, j :: i in sel && 0 <= j < |conf| && j !in sel ==> AtLeast(conf[i], conf[j])
  }

  ghost predicate SelectsTop(dn: Denoiser) {
    forall conf, k: nat :: k <= |conf| ==> IsTopK(conf, k, dn.top(conf, k))
  }

  ghost predicate NeverPredictsMask(dn: Denoiser) {
    forall x, i :: dn.predict(x, i) != dn.mask
  }

  /** The still masked positions of the block that begins at `start`. */
  function Masked(dn: Denoiser, x: seq<Token>, start: nat): set<nat> {
    set i: nat | start <= i < |x| && x[i] == dn.mask
  }

  function Confidence(dn: Denoiser, x: seq<Token>, start: nat): (conf: seq<Option<real>>)
    ensures |conf| == |x|
  {
    seq(|x|, i requires 0 <= i < |x| => if i in Masked(dn, x, start) then Some(dn.sure(x, i)) else None)
  }

  /** The masked positions that a step with quota k commits. */
  function Transfer(dn: Denoiser, x: seq<Token>, start: nat, k: nat): set<nat> {
    dn.top(Confidence(dn, x, start), k) * Masked(dn, x, start)
  }

  function Unmask(dn: Denoiser, x: seq<Token>, start: nat, k: nat): (y: seq<Token>)
    ensures |y| == |x|
    ensures forall i: nat :: i < |x| ==> y[i] == if i in Transfer(dn, x, start, k) then dn.predict(x, i) else x[i]
  {
    var moved := Transfer(dn, x, start, k);
    seq(|x|, (i: nat) requires i < |x| => if i in moved then dn.predict(x, i) else x[i])
  }

  /** The positions a step spends on predicting the mask token again. */
  function Wasted(dn: Denoiser, x: seq<Token>, start: nat, k: nat): set<nat> {
    set i | i in Transfer(dn, x, start, k) && dn.predict(x, i) == dn.mask
  }

  /** How many positions each step unmasks; the remainder goes to the first steps. */
  function Schedule(n: nat, steps: nat): (r: seq<nat>)
    requires 0 < steps <= n
    ensures |r| == steps
    ensures forall i :: 0 <= i < steps ==> r[i] >= 1
  {
    var base, remainder := n / steps, n % steps;
    seq(steps, i requires 0 <= i < steps => base + (if i < remainder then 1 else 0))
  }

  lemma {:induction false} SumFrom(n: nat, steps: nat, j: nat)
    requires 0 < steps <= n && j <= steps
    ensures Sequences.Sum(Schedule(n, steps)[j..]) ==
            (steps - j) * (n / steps) + (if j < n % steps then n % steps - j else 0)
    decreases steps - j
  {
    var q := Schedule(n, steps);
    if j < steps {
      SumFrom(n, steps, j + 1);
      assert q[j..][1..] == q[j + 1..];
      assert (steps - j) * (n / steps) == (steps - (j + 1)) * (n / steps) + n / steps;
    }
  }

  /** The schedule unmasks every position of the block, exactly once. */
  lemma ScheduleIsComplete(n: nat, steps: nat)
    requires 0 < steps <= n
    ensures Sequences.Sum(Schedule(n, steps)) == n
  {
    SumFrom(n, steps, 0);
    assert Schedule(n, steps)[0..] == Schedule(n, steps);
    assert steps * (n / steps) + n % steps == n;
  }

  /** The denoising loop over the remaining quotas. */
  function Denoise(dn: Denoiser, x: seq<Token>, start: nat, quotas: seq<nat>): (y: seq<Token>)
    ensures |y| == |x|
    decreases |quotas|
  {
    if quotas == [] || Masked(dn, x, start) == {} then x
    else Denoise(dn, Unmask(dn, x, start, quotas[0]), start, quotas[1..])
  }

  /** How many quota units a run spends on the mask token. */
  function TotalWaste(dn: Denoiser, x: seq<Token>, start: nat, quotas: seq<nat>): nat
    decreases |quotas|
  {
    if quotas == [] || Masked(dn, x, start) == {} then 0
    else |Wasted(dn, x, start, quotas[0])| + TotalWaste(dn, Unmask(dn, x, start, quotas[0]), start, quotas[1..])
  }

  /** As long as enough positions are masked, the selection stays among them. */
  lemma TransferIsFull(dn: Denoiser, x: seq<Token>, start: nat, k: nat)
    requires SelectsTop(dn) && k <= |Masked(dn, x, start)|
    ensures |Transfer(dn, x, start, k)| == k
  {
    var conf, masked := Confidence(dn, x, start), Masked(dn, x, start);
    MaskedBound(dn, x, start);
    var sel := dn.top(conf, k);
    assert IsTopK(conf, k, sel);
    if i :| i in sel && i !in masked {
      forall j | j in masked ensures j in sel {
        assert conf[j].Some? && conf[i].None?;
      }
      SubsetSize(masked, sel - {i});
      assert false;
    }
    assert sel * masked == sel;
  }

  lemma {:induction false} SubsetSize<T>(a: set<T>, b: set<T>)
    requires a <= b
    ensures |a| <= |b|
    decreases a
  {
    if x :| x in a {
      SubsetSize(a - {x}, b - {x});
    }
  }

  function Interval(lo: nat, hi: nat): (r: set<nat>)
    requires lo <= hi
    ensures |r| == hi - lo
    ensures forall i: nat :: i in r <==> lo <= i < hi
    decreases hi - lo
  {
    if lo == hi then {} else {lo} + Interval(lo + 1, hi)
  }

  lemma MaskedBound(dn: Denoiser, x: seq<Token>, start: nat)
    ensures |Masked(dn, x, start)| <= |x|
  {
    SubsetSize(Masked(dn, x, start), Interval(0, |x|));
  }

  lemma MaskedAfter(dn: Denoiser, x: seq<Token>, start: nat, k: nat)
    ensures Masked(dn, Unmask(dn, x, start, k), start) ==
            (Masked(dn, x, start) - Transfer(dn, x, start, k)) + Wasted(dn, x, start, k)
  {
    var y := Unmask(dn, x, start, k);
    forall i: nat | i < |x|
      ensures i in Masked(dn, y, start) <==>
              i in (Masked(dn, x, start) - Transfer(dn, x, start, k)) + Wasted(dn, x, start, k)
    {
    }
  }

  /** A step commits exactly its quota: what it does not waste leaves the mask for good. */
  lemma UnmaskCount(dn: Denoiser, x: seq<Token>, start: nat, k: nat)
    requires SelectsTop(dn) && k <= |Masked(dn, x, start)|
    ensures |Masked(dn, Unmask(dn, x, start, k), start)| ==
            |Masked(dn, x, start)| - k + |Wasted(dn, x, start, k)|
  {
    TransferIsFull(dn, x, start, k);
    MaskedAfter(dn, x, start, k);
    DifferenceSize(Masked(dn, x, start), Transfer(dn, x, start, k), Wasted(dn, x, start, k));
  }

  lemma DifferenceSize<T>(all: set<T>, part: set<T>, back: set<T>)
    requires back <= part <= all
    ensures |(all - part) + back| == |all| - |part| + |back|
  {
    assert all == (all - part) + part;
  }

  /** A step writes only masked block positions; the prefix and settled positions stay as they are. */
  lemma UnmaskKeeps(dn: Denoiser, x: seq<Token>, start: nat, k: nat, i: nat)
    requires i < |x| && (i < start || x[i] != dn.mask)
    ensures Unmask(dn, x, start, k)[i] == x[i]
  {
  }

  lemma {:induction false} DenoiseKeeps(dn: Denoiser, x: seq<Token>, start: nat, quotas: seq<nat>, i: nat)
    requires i < |x| && (i < start || x[i] != dn.mask)
    ensures Denoise(dn, x, start, quotas)[i] == x[i]
    decreases |quotas|
  {
    if quotas != [] && Masked(dn, x, start) != {} {
      UnmaskKeeps(dn, x, start, quotas[0], i);
      DenoiseKeeps(dn, Unmask(dn, x, start, quotas[0]), start, quotas[1..], i);
    }
  }

  /** What is still masked at the end is what the run wasted, beyond what no quota covered. */
  lemma {:induction false} DenoiseCount(dn: Denoiser, x: seq<Token>, start: nat, quotas: seq<nat>)
    requires SelectsTop(dn) && Sequences.Sum(quotas) <= |Masked(dn, x, start)|
    ensures |Masked(dn, Denoise(dn, x, start, quotas), start)| ==
            |Masked(dn, x, start)| - Sequences.Sum(quotas) + TotalWaste(dn, x, start, quotas)
    decreases |quotas|
  {
    if quotas != [] && Masked(dn, x, start) != {} {
      UnmaskCount(dn, x, start, quotas[0]);
      DenoiseCount(dn, Unmask(dn, x, start, quotas[0]), start, quotas[1..]);
    }
  }

  /** The prompt followed by a fully masked block. */
  function Opened(dn: Denoiser, committed: seq<Token>, blockSize: nat): seq<Token> {
    committed + seq(blockSize, i => dn.mask)
  }

  lemma OpenedIsMasked(dn: Denoiser, committed: seq<Token>, blockSize: nat)
    ensures |Masked(dn, Opened(dn, committed, blockSize), |committed|)| == blockSize
  {
    var x := Opened(dn, committed, blockSize);
    assert Masked(dn, x, |committed|) == Interval(|committed|, |x|);
  }

  datatype ProposerError = BadBlockSize | BadNumSteps | LeftoverMasks

  function ClampedSteps(blockSize: int, numSteps: int): int {
    if numSteps > blockSize then blockSize else numSteps
  }

  function Drafted(dn: Denoiser, committed: seq<Token>, blockSize: nat, numSteps: nat): (y: seq<Token>)
    requires blockSize > 0 && numSteps > 0
    ensures |y| == |committed| + blockSize
  {
    Denoise(dn, Opened(dn, committed, blockSize), |committed|, Schedule(blockSize, ClampedSteps(blockSize, numSteps)))
  }

  function Propose(dn: Denoiser, committed: seq<Token>, blockSize: int, numSteps: int): Outcome<seq<Token>, ProposerError>
  {
    if blockSize <= 0 then Raised(BadBlockSize)
    else if numSteps <= 0 then Raised(BadNumSteps)
    else
      var y := Drafted(dn, committed, blockSize, numSteps);
      if Masked(dn, y, |committed|) == {} then Returned(y[|committed|..]) else Raised(LeftoverMasks)
  }

  /**
   * For any model: a proposal is a full block without masks behind an untouched prefix, and the drafter
   * raises exactly when some committed prediction was the mask token itself.
   */
  lemma ProposalIsMaskFreeOrRaised(dn: Denoiser, committed: seq<Token>, blockSize: nat, numSteps: nat)
    requires SelectsTop(dn) && blockSize > 0 && numSteps > 0
    ensures var r := Propose(dn, committed, blockSize, numSteps);
            var y := Drafted(dn, committed, blockSize, numSteps);
            var quotas := Schedule(blockSize, ClampedSteps(blockSize, numSteps));
            && y[..|committed|] == committed
            && (r.Returned? <==> TotalWaste(dn, Opened(dn, committed, blockSize), |committed|, quotas) == 0)
            && (r.Returned? ==> |r.value| == blockSize && dn.mask !in r.value)
            && (r.Raised? ==> r.error == LeftoverMasks)
  {
    var x, start := Opened(dn, committed, blockSize), |committed|;
    var quotas := Schedule(blockSize, ClampedSteps(blockSize, numSteps));
    var y := Denoise(dn, x, start, quotas);
    OpenedIsMasked(dn, committed, blockSize);
    ScheduleIsComplete(blockSize, ClampedSteps(blockSize, numSteps));
    DenoiseCount(dn, x, start, quotas);
    forall i | 0 <= i < start ensures y[i] == committed[i] {
      DenoiseKeeps(dn, x, start, quotas, i);
    }
    if Masked(dn, y, start) == {} {
      forall i | start <= i < |y| ensures y[i] != dn.mask {
        assert i !in Masked(dn, y, start);
      }
    }
  }

  /** With a model that never predicts the mask, step j leaves exactly the quotas still to come masked. */
  lemma {:induction false} MasksFollowSchedule(dn: Denoiser, x: seq<Token>, start: nat, quotas: seq<nat>, j: nat)
    requires SelectsTop(dn) && NeverPredictsMask(dn) && j <= |quotas|
    requires |Masked(dn, x, start)| == Sequences.Sum(quotas)
    requires forall i :: 0 <= i < |quotas| ==> quotas[i] >= 1
    ensures |Masked(dn, Denoise(dn, x, start, quotas[..j]), start)| == Sequences.Sum(quotas[j..])
    decreases j
  {
    if j > 0 {
      assert quotas[..j][0] == quotas[0] && quotas[..j][1..] == quotas[1..][..j - 1];
      assert quotas[j..] == quotas[1..][j - 1..];
      UnmaskCount(dn, x, start, quotas[0]);
      assert Wasted(dn, x, start, quotas[0]) == {};
      MasksFollowSchedule(dn, Unmask(dn, x, start, quotas[0]), start, quotas[1..], j - 1);
    }
  }

  /** Such a model always yields a proposal, unmasking n/steps positions (one more in the first n % steps steps) at a time. */
  lemma MaskFreeModelsAlwaysPropose(dn: Denoiser, committed: seq<Token>, blockSize: nat, numSteps: nat, j: nat)
    requires SelectsTop(dn) && NeverPredictsMask(dn) && blockSize > 0 && numSteps > 0
    requires j <= ClampedSteps(blockSize, numSteps)
    ensures var steps := ClampedSteps(blockSize, numSteps);
            var after := Denoise(dn, Opened(dn, committed, blockSize), |committed|, Schedule(blockSize, steps)[..j]);
            && Propose(dn, committed, blockSize, numSteps).Returned?
            && |Masked(dn, after, |committed|)| ==
               (steps - j) * (blockSize / steps) + (if j < blockSize % steps then blockSize % steps - j else 0)
  {
    var steps := ClampedSteps(blockSize, numSteps);
    var quotas := Schedule(blockSize, steps);
    var x := Opened(dn, committed, blockSize);
    OpenedIsMasked(dn, committed, blockSize);
    ScheduleIsComplete(blockSize, steps);
    MasksFollowSchedule(dn, x, |committed|, quotas, j);
    SumFrom(blockSize, steps, j);
    MasksFollowSchedule(dn, x, |committed|, quotas, steps);
    assert quotas[..steps] == quotas && quotas[steps..] == [];
  }

  class DLMProposer {
    const model: Denoiser
    var totalBlocks: nat
    var totalDiffusionSteps: nat

    constructor (model: Denoiser)
      ensures this.model == model && totalBlocks == totalDiffusionSteps == 0
    {
      this.model, totalBlocks, totalDiffusionSteps := model, 0, 0;
    }

    /** One denoising iteration: commit the surest of the masked positions. */
    method Iterate(x: seq<Token>, start: nat, k: nat) returns (y: seq<Token>)
      ensures y == Unmask(model, x, start, k)
    {
      var masked := Masked(model, x, start);
      var moved := model.top(Confidence(model, x, start), k) * masked;
      y := [];
      for i: nat := 0 to |x|
        invariant y == Unmask(model, x, start, k)[..i]
      {
        y := y + [if i in moved then model.predict(x, i) else x[i]];
      }
    }

    /** Propose a block: counters move only when a block is returned. */
    method ProposeBlock(committed: seq<Token>, blockSize: int, numSteps: int)
      returns (r: Outcome<seq<Token>, ProposerError>)
      modifies this
      ensures r == Propose(model, committed, blockSize, numSteps)
      ensures r.Returned? ==>
        totalBlocks == old(totalBlocks) + 1 &&
        totalDiffusionSteps == old(totalDiffusionSteps) + ClampedSteps(blockSize, numSteps)
      ensures r.Raised? ==> totalBlocks == old(totalBlocks) && totalDiffusionSteps == old(totalDiffusionSteps)
    {
      if blockSize <= 0 {
        return Raised(BadBlockSize);
      }
      if numSteps <= 0 {
        return Raised(BadNumSteps);
      }
      var steps := ClampedSteps(blockSize, numSteps);
      var x := Opened(model, committed, blockSize);
      var numTransfer := Schedule(blockSize, steps);
      var step := 0;
      assert numTransfer[0..] == numTransfer;
      while step < steps && Masked(model, x, |committed|) != {}
        invariant 0 <= step <= steps && |x| == |committed| + blockSize
        invariant totalBlocks == old(totalBlocks) && totalDiffusionSteps == old(totalDiffusionSteps)
        invariant Drafted(model, committed, blockSize, numSteps) ==
                  Denoise(model, x, |committed|, numTransfer[step..])
      {
        assert numTransfer[step..][1..] == numTransfer[step + 1..];
        x := Iterate(x, |committed|, numTransfer[step]);
        step := step + 1;
      }
      if Masked(model, x, |committed|) != {} {
        return Raised(LeftoverMasks);
      }
      totalBlocks := totalBlocks + 1;
      totalDiffusionSteps := totalDiffusionSteps + steps;
      return Returned(x[|committed|..]);
    }
  }
}
