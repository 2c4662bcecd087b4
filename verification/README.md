# Bounded-cache speculative decoding and a reversible proof ledger, verified

This project models two parts of the repository and proves what they are for.

**Decoding.** A verifier keeps only the first `sink` and the last `window` key/value slots of its cache. It
extends the cache provisionally by a drafted block, drops the rejected tail, and only then trims. A speculative
decoder accepts the longest prefix of each draft that the verifier would have chosen itself. The model follows the
classes and loops of the program (`Verifier`, `Decoder`, `GreedyDecoders`, `Diffusion`, `ChunkedInference`) and
proves them against state machines on values (`SinkWindow`, `Speculation`), about which the theorems are stated.
Tensors become provenance: a slot records its token, its position, and everything every layer could see when it was
computed, so two caches are equal only if the same forward passes filled them. The model's choice is an arbitrary
function of the newest slot; the drafter and the callback are arbitrary functions of what the program gives them.

**The proof ledger.** Obligations form a tree of parent links. A critic may suspect the premise of an obligation; an
auditor and a proponent review the suspicion in isolation, and the host evaluates the auditor's witness itself. A
verified invalidation quarantines everything below the obligation, records a no-go lesson and moves the search to the
nearest open ancestor. The program also has the code that reverses an invalidation; what that code restores is proved
here, and so is that no session ever reaches it (`SessionsNeverReverse`). The theorems hold for every ledger the loader
accepts, cycles included, except where acyclicity or non-empty ids are named. `ProofLedger` and `TurnLoop` hold the
objects and methods of the program; `LedgerModel` is the same ledger on values; `Floats` and `Evidence` are the host's
arithmetic and its gate, `Critic` and `Turns` what a turn does; the other `Ledger…`, `Evidence…`, `Turn…` and `Session…`
modules prove the properties. `Transcript` is the timestamping tee beside the loop.

Every class method is proved against a function on values, so each theorem about the functions holds for the methods.

## What the proofs found

- The agreement of speculative output with full-cache greedy output reaches `budget - |prompt| + 2` tokens, one more
  than the argument by cache contents suggests, because the token appended at a full budget is predicted before the
  trim. `HorizonIsSharp` shows that no longer reach holds for all models, whatever the block size. Equality of whole
  outputs needs a budget of only `|prompt| + |output| - 1`, one less than the demo's test asks for.
- After a run the verifier holds exactly prompt and output, unless accepted tokens were cut behind an end-of-sequence
  token; then it is ahead of the output (`RunIsHeldExactlyWhen`).
- Chunking a prompt is invisible exactly as long as nothing is evicted before the last chunk. README.md:168 promises
  identical token streams for all chunkings; for blocks of this verifier that stops being guaranteed once eviction has
  begun, because the final prediction has then seen less.
- The log of the timestamping tee gives the terminal's lines back unless two writes tear a carriage return from its
  line feed, or a line that follows a form feed or the like begins with a bracketed tag
  (`StrippingRecoversExactlyWhen`).
- The loader rejects self-parents but not longer cycles. Two open obligations below each other load, and the frontier
  is empty for good (`LoadedCycleHasNoFrontier`). Nothing at or below an eligible obligation is pending exactly when the
  obligation lies on a cycle of eligible ones and nothing eligible hangs off that cycle (`FrontierProgress`); the
  frontier is empty exactly when all eligible obligations are of this kind (`FrontierIsEmptyExactlyWhen`). No step of
  the program creates a cycle.
- Invalidating an ancestor overwrites the saved status of items quarantined under a deeper root. Reversing both gives
  the saved status back exactly if the item lies outside the ancestor's subtree or the saved status was QUARANTINED
  (`NestedReversalRestoresExactlyWhen`). No session performs either reversal: a reversal is called only for
  obligations of the turn, these are pending, and a dead obligation never is.
- Persisting a certificate again is idle right away, but raises once its child has been decomposed itself, because that
  overwrites the child's certificate hash (`RepersistExactlyWhen`, `DecomposedChildCollides`).
- A suspicion and a verdict may come from different entries about the same obligation. A refutation that the host
  verified is applied exactly if the last complete entry about the obligation (status, evidence and missing-lemma
  fields all present) says DISPROVED for its premise, with evidence and no missing lemma, and no refutation upheld for
  an ancestor earlier in the ledger has quarantined it first (`ConfirmedIsAppliedExactlyWhen`; `SecondThoughtPrevails`,
  `BareRefutationPrevails` and `AncestorPreempts` are turns in which this matters). Otherwise the temporary marks below
  it may stay (`TemporaryMarksEnd`).
- The host computes in floating point, and its claims are about real numbers. It refutes the true claim `x < x + 1`
  over the integers at x = 10^20, where the addition absorbs the 1 (`AbsorbedSuccessorIsInvalidated`). It also takes
  `Infinity` for a witness, and refutes the true claim `1/(x*x) > 0` with it though no number is rounded
  (`InfiniteWitnessIsAccepted`); a turn then invalidates a premise by a true claim (`TrueClaimIsApplied`).
- A refutation is genuine if its witness is finite and either nothing is rounded (`ValidationIsSound`) or the two sides
  come out further apart than the accumulated rounding errors (`SeparatedRefutationIsGenuine`). Over all claims and
  finite witnesses the first is needed: only arithmetic that never rounds refutes nothing true
  (`GenuineExactlyWithoutRounding`). Over the integers every witness the host admits is finite.
- The host checks `!=` only up to a relative tolerance, so even without rounding the true claim `x != x + 2^-34` can be
  invalidated (`TrueDisequalityIsInvalidated`). Every other relation between the computed values is refuted only when
  it is false of them (`HostRefutesOnlyFalse`).
- How a response limit is split into chunks shows in nothing but stalls (`ChunkingOnlyStalls`). The client looks for a
  stall before it looks at the session's reason, so an answer that ends in the chunk that exhausts its patience is
  thrown away as stalled, though it is whole (`StallHidesTheEnd`).

## Model

| member | source | states |
|---|---|---|
| `Transformer.RowsConcat` | kv_cache_proposer/verifier.py:184-202 | a causal pass over `a + b` leaves what a pass over `a` and then one over `b` leave |
| `Transformer.RowAt` | kv_cache_proposer/verifier.py:184-202 | row i carries token i, global position `pos + i`, and has seen exactly the cache and the earlier rows of the block |
| `Transformer.Forward` | kv_cache_proposer/verifier.py:184-202 | the in-place pass over all layers returns those rows and appends them to the keys and the values of every caching layer |
| `SinkWindow.KeptAbsorbs` | kv_cache_proposer/verifier.py:256-290 | evicting early loses nothing that a later eviction would have kept |
| `SinkWindow.KeptToks` | kv_cache_proposer/verifier.py:284-289 | the parallel token list, sliced like the tensors, stays the token list of the kept slots |
| `SinkWindow.AdvancedKv` | kv_cache_proposer/verifier.py:231-236 | committing `a` of a block leaves the trimmed cache of a pass over its first `a` tokens alone |
| `SinkWindow.AppendedKv` | kv_cache_proposer/verifier.py:241-250 | an append adds one row that saw the whole cache, and that row predicts the next token |
| `Verifier.SinkWindowVerifier.Create` | kv_cache_proposer/verifier.py:58-61 | construction fails exactly for a negative sink or an empty window |
| `Verifier.SinkWindowVerifier.Reset` | kv_cache_proposer/verifier.py:123-129 | empty layers, empty token list, position 0, no prediction; INV-1 holds |
| `Verifier.SinkWindowVerifier.Prefill` | kv_cache_proposer/verifier.py:132-167 | the empty prompt is refused before anything changes; otherwise the trimmed prompt cache, its position and its last prediction |
| `Verifier.SinkWindowVerifier.ForwardBlock` | kv_cache_proposer/verifier.py:170-212 | refuses a missing cache and an empty block unchanged; otherwise extends the cache beyond the budget, without trimming, and counts the call |
| `Verifier.SinkWindowVerifier.CommitOrTruncate` | kv_cache_proposer/verifier.py:214-238 | each error case exactly; otherwise drop the tail, advance by what was accepted, trim; INV-1 never fires with a caching layer |
| `Verifier.SinkWindowVerifier.AppendToken` | kv_cache_proposer/verifier.py:241-250 | a one-token block, committed, whose logits become the pending prediction |
| `Verifier.SinkWindowVerifier.TrimCacheInPlace` | kv_cache_proposer/verifier.py:256-290 | every layer and the token list keep sink and window; the layout error never fires |
| `Verifier.SinkWindowVerifier.TruncateTailInPlace` | kv_cache_proposer/verifier.py:292-308 | drops the last slots of every layer, and raises exactly when there are too few or there is no cache |
| `Verifier.SinkWindowVerifier.CacheSeqLength` | kv_cache_proposer/verifier.py:310-323 | the first written layer speaks for all |
| `Verifier.SinkWindowVerifier.AssertCacheInvariant1` | kv_cache_proposer/verifier.py:361-382 | INV-1 holds on every valid verifier, unless the model caches nothing at all |
| `CacheHistory.CacheRefinesHistory` | kv_cache_proposer/verifier.py:132-250 | after any legal run the cache is the whole history while it fits, else its sink and its window, with true global positions |
| `CacheHistory.RollbackIsExact` | kv_cache_proposer/verifier.py:170-238 | committing `a` of a block equals forwarding only those `a`, and for `a = 0` not forwarding at all, even beyond the budget |
| `CacheHistory.FedRefines` | kv_cache_proposer/verifier.py:170-238 | any sequence of fully committed blocks leaves the tokens and positions of the whole history |
| `CacheHistory.ChunkingExactlyWithinBudget` | README.md:168 | chunks leave the cache and the final prediction of one block if and only if history and earlier chunks fit the budget; the tokens agree always |
| `GreedyRule.GreedyIsFinished` | kv_cache_proposer/baseline.py:82-105 | the greedy output stops at the cap or at its one end-of-sequence token, and each token is the rule's choice |
| `GreedyRule.GreedyIsUnique` | kv_cache_proposer/baseline.py:82-105 | any output that follows the rule for k tokens and stops for the right reason agrees with greedy on its first k |
| `GreedyDecoders.BaselineGenerate` | kv_cache_proposer/baseline.py:54-116 | the unbounded loop computes greedy decoding with the full cache, and counts its calls and tokens |
| `GreedyDecoders.GreedyBaseline` | scripts/demo_distributed_spec_decode.py:110-123 | sequential decoding over the bounded verifier |
| `Speculation.Accepted` | kv_cache_proposer/speculative.py:183-192 | the longest prefix in which every token is the verifier's own choice: all match before it, none right behind it |
| `Speculation.FirstEos` | kv_cache_proposer/speculative.py:205-216 | the first end-of-sequence token of the accepted prefix |
| `Speculation.Emit` | kv_cache_proposer/speculative.py:130-136 | tokens are delivered in order, up to and including the one at which the callback asks to stop |
| `Speculation.BlockStepFields` | kv_cache_proposer/speculative.py:168-244 | which tokens one block adds, and for which of the four reasons the loop ends |
| `Decoder.SpeculativeDecoder.Walk` | kv_cache_proposer/speculative.py:185-192 | the accept walk and the row left pending |
| `Decoder.SpeculativeDecoder.OneBlock` | kv_cache_proposer/speculative.py:183-244 | verify, commit, cut at end of sequence, stream, append, with the verifier's state throughout |
| `Decoder.SpeculativeDecoder.Generate` | kv_cache_proposer/speculative.py:118-269 | the loop computes the run on values; forwards = 1 + blocks + appends; tokens = prompt + proposed + appends; each error exactly |
| `SpeculationAgreement.SpeculationAgreesWithFullCache` | kv_cache_proposer/speculative.py:159-244 | for every model, drafter, block size, stop set, sink and window, output agrees with full-cache greedy on its first `budget - prompt + 2` tokens |
| `SpeculationAgreement.EquivalenceTheorem` | kv_cache_proposer/run_demo.py:289-306 | when sink and window cover the prompt and either output but its last token, the outputs are equal |
| `SpeculationSequential.BoundedUpToIsCut` | scripts/demo_distributed_spec_decode.py:110-123 | stopping at an end-of-sequence token is cutting the sequential output behind its first one |
| `SpeculationSequential.OneTokenBlocksAreSequential` | kv_cache_proposer/speculative.py:168-244 | with one-token blocks the output is the sequential output over the same bounded verifier, for every drafter, after eviction too |
| `SpeculationSequential.HorizonIsSharp` | kv_cache_proposer/speculative.py:194-244 | for every sink, window, prompt and block size there are a model and a drafter with which the output differs from full-cache greedy right behind the horizon |
| `SpeculationSequential.RejectedBlocksAreSequential` | kv_cache_proposer/speculative.py:183-244 | for every block size, a drafter whose first token the model never chooses leaves the sequential output over the same bounded verifier |
| `SpeculationSequential.OneTokenHorizonIsSharp` | kv_cache_proposer/speculative.py:168-244 | with one-token blocks that model misses the baseline right behind the horizon whatever the drafter |
| `SpeculationHistory.RunIsHeldExactlyWhen` | kv_cache_proposer/speculative.py:199-244 | after every completed run the verifier holds exactly prompt and output if and only if nothing was cut behind an end-of-sequence token |
| `SpeculationAccounting.RunAccounts` | kv_cache_proposer/speculative.py:130-244 | output = accepted + appended - cut; the cap holds; every block contributes; the callback sees the output or a prefix where it stopped |
| `Diffusion.ScheduleIsComplete` | kv_cache_proposer/proposer.py:165-169 | the quotas, remainder first, sum to the block size |
| `Diffusion.TransferIsFull` | kv_cache_proposer/proposer.py:190-206 | while enough positions are masked, the top-k selection stays among them and commits exactly k |
| `Diffusion.DenoiseKeeps` | kv_cache_proposer/proposer.py:171-206 | the prefix is untouched, and a position once written never changes |
| `Diffusion.DenoiseCount` | kv_cache_proposer/proposer.py:171-206 | what is still masked at the end is what the run spent on predicting the mask |
| `Diffusion.ProposalIsMaskFreeOrRaised` | kv_cache_proposer/proposer.py:132-231 | for any model a returned block is full and mask-free, and the drafter raises exactly when a committed prediction was the mask |
| `Diffusion.MaskFreeModelsAlwaysPropose` | kv_cache_proposer/proposer.py:162-206 | with a model that never predicts the mask, step j leaves exactly the later quotas masked, and a block is returned |
| `Diffusion.DLMProposer.ProposeBlock` | kv_cache_proposer/proposer.py:132-231 | the loop computes the proposal; the counters move only when a block is returned |
| `DiffusionSpeculation.DiffusionDraftsAreHarmless` | kv_cache_proposer/speculative.py:168-181 | with such a drafter no run fails, and the output is the full-cache greedy output whenever the budget covers it |
| `ChunkedInference.RequestsCompose` | scripts/agent_gan_inference_demo.py:127-145 | two requests amount to one, watched for completion, unless the first stopped for a reason of its own |
| `ChunkedInference.ChunkingIsInvisible` | scripts/agent_gan_inference_demo.py:127-164 | without a progress callback, or with one that is always content, any split of a limit into chunks gives the tokens and the verdict of one request |
| `ChunkedInference.ChunkingOnlyStalls` | scripts/agent_gan_inference_demo.py:127-164 | with any callbacks it does so too, unless the client calls a stall, and then the tokens are a prefix |
| `ChunkedInference.StallHidesTheEnd` | scripts/agent_gan_inference_demo.py:146-163 | a chunk in which the session ends without progress is reported as stalled if and only if it exhausts the client's patience, whatever the session's reason |
| `ChunkedInference.Session.Next` | sdks/python/kakeya/session.py:241-270 | the stream of one request: a token at a time, the reason known once it is exhausted |
| `ChunkedInference.OneChunk` | scripts/agent_gan_inference_demo.py:128-163 | one round of the loop: tokens until exhausted or complete, then stall, reason and progress in that order |
| `ChunkedInference.Infer` | scripts/agent_gan_inference_demo.py:96-171 | the two refused settings, the prompt that is too long, and otherwise the verdict and the tokens of the chunk loop, with its semantic callbacks and with or without a limit |
| `ChunkedInference.LimitIsOneRequest` | scripts/agent_gan_inference_demo.py:118-171 | under a finite limit the whole loop gives what one request for the limit gives, whatever the chunk size, or a prefix of it marked as stalled; never a stall without a progress callback |
| `ChunkedInference.PassedOutputIsWhole` | scripts/agent_gan_inference_demo.py:63-80 | output passed downstream is what one request gives, ended by the session or complete by the client's check; further chunks would not add to it |
| `Transcript.PartEffect` | scripts/agent_gan_repl.py:170-174 | reading one part extends the current line by its body and closes it at its break, a CR LF pair counting once |
| `Transcript.PartStep` | scripts/agent_gan_repl.py:170-174 | writing one part keeps log lines and terminal lines paired, timestamped exactly at line starts, unless a line feed is torn from its carriage return |
| `Transcript.StripTakesPrefix` | scripts/agent_gan_repl.py:7296-7310 | stripping removes a timestamp and nothing else |
| `Transcript.StrippingRecoversExactlyWhen` | scripts/agent_gan_repl.py:7296-7310 | for any sequence of writes, the stripped log is the terminal's lines if and only if no write tears a CR LF and no line behind another kind of break looks like a timestamp |
| `Transcript.TornBreakShows` | scripts/agent_gan_repl.py:163-176 | two writes for which it is not |
| `Transcript.TimestampedTee.Write` | scripts/agent_gan_repl.py:163-176 | the terminal gets the text unchanged, the log the text with a timestamp at every line start |
| `LedgerGraph.WalkFindsNearest` | scripts/agent_gan_repl.py:650-671 | the guarded ancestor walk finds the nearest hit, and nothing exactly when there is none, on cycles too |
| `LedgerGraph.OrderedIsAcyclic` | scripts/agent_gan_repl.py:602-638 | a ledger that lists parents before their children has no cycle |
| `LedgerGraph.DescendantIds` | scripts/agent_gan_repl.py:6188-6203 | the fixpoint loop ends with exactly the other obligations that reach the root, in any list order, for any root, cycles and empty ids included |
| `LedgerFrontier.EligibleExactlyWhen` | scripts/agent_gan_repl.py:650-677 | eligible means UNRESOLVED with no invalid strict ancestor |
| `LedgerFrontier.PendingListsAll` | scripts/agent_gan_repl.py:673-688 | the frontier lists exactly the eligible obligations that are no eligible obligation's parent |
| `LedgerFrontier.FrontierProgress` | scripts/agent_gan_repl.py:641-688 | something is pending at or below an eligible obligation if and only if it is not on a cycle of eligible ones with nothing eligible off the cycle below it; acyclic ledgers never run dry early |
| `LedgerFrontier.FrontierIsEmptyExactlyWhen` | scripts/agent_gan_repl.py:673-688 | the frontier is empty if and only if every eligible obligation lies on such a cycle |
| `LedgerFrontier.LoadedCycleHasNoFrontier` | scripts/agent_gan_repl.py:624-637 | a two-obligation cycle passes the loader and leaves the frontier empty |
| `LedgerReversal.ReversalUndoesInvalidation` | scripts/agent_gan_repl.py:6236-6322 | for any known target, upgrade then reverse restores every status if and only if no touched obligation is blank or already held under the same root; and then the same frontier list, unless the target was already a dead premise |
| `LedgerReversal.RepeatedInvalidationKeepsSavedStatuses` | scripts/agent_gan_repl.py:6282-6322 | a second invalidation of the same target changes no obligation |
| `LedgerReversal.NestedReversalLosesThePriorStatus` | scripts/agent_gan_repl.py:6295-6322 | an item held under a deeper root stays QUARANTINED after both roots are reversed |
| `LedgerReversal.NestedReversalRestoresExactlyWhen` | scripts/agent_gan_repl.py:6236-6322 | reversing both roots gives the saved status back if and only if the item lies outside the ancestor's subtree or the saved status was QUARANTINED |
| `LedgerReversal.RoundTripKeepsOtherRoots` | scripts/agent_gan_repl.py:6236-6322 | a deeper root keeps its hold, with the status it saved, exactly on what lies outside the ancestor's subtree; elsewhere the item is QUARANTINED with no root and nothing saved |
| `LedgerRuns.StepKeepsWellFormed` | scripts/agent_gan_repl.py:6037-6582 | audit, suspicion, verdicts and persistence keep ids unique, parents existing and lesson hashes unique; none creates a cycle, and none puts a child before its parent |
| `LedgerRuns.RunKeepsWellFormed` | scripts/agent_gan_repl.py:602-638 | so does every run, from every ledger the loader accepts |
| `LedgerClosure.ApplyOneEffect` | scripts/agent_gan_repl.py:6493-6542 | what one applied verdict does to every other obligation |
| `LedgerCalls.ActsExactlyWhen` | scripts/agent_gan_repl.py:6493-6534 | in a call about pending obligations a verdict acts if and only if the call invalidates no ancestor listed before its obligation |
| `LedgerCalls.InvalidationTakesHold` | scripts/agent_gan_repl.py:6521-6532 | a verified invalidation of a pending obligation is in force when the call returns, whoever quarantined it first |
| `LedgerClosure.InvalidationIsFinal` | scripts/agent_gan_repl.py:6493-6534 | over every later run on pending obligations it stays shut, quarantined only through a dead ancestor, and nothing below it, old or new, is ever pending; cycles elsewhere do not matter |
| `LedgerLessons.RunKeepsLessons` | scripts/agent_gan_repl.py:6493-6534 | over every run on pending obligations from a ledger without lessons, every lesson stays ACTIVE and its source shut |
| `LedgerBackjump.BackjumpIsNearestAndAlive` | scripts/agent_gan_repl.py:6541-6580 | in an acyclic ledger the target is the nearest UNRESOLVED strict ancestor, empty if and only if there is none, and something at or below it is pending |
| `LedgerOutcomes.ReviewOutcomes` | scripts/agent_gan_repl.py:6444-6532 | the outcome matrix of a refuting entry: open and suspected without a review; only the approach closed by an unverified one; invalidated, quarantined below and taught by a verified one |
| `LedgerOutcomes.TemporaryMarksEnd` | scripts/agent_gan_repl.py:6206-6233 | temporary marks of a root survive its verdict if and only if it stays suspected, or its review neither resolved nor invalidated |
| `TurnOutcomes.ConfirmedIsAppliedExactlyWhen` | scripts/agent_gan_repl.py:6379-6534 | over a whole turn, a confirmed refutation is applied if and only if the last complete entry about the obligation refutes its premise and no upheld refutation of an ancestor listed earlier has quarantined it |
| `TurnExamples.SecondThoughtPrevails` | scripts/agent_gan_repl.py:6433-6480 | a legal turn whose confirmed refutation is not applied, because a later entry is UNRESOLVED |
| `TurnExamples.BareRefutationPrevails` | scripts/agent_gan_repl.py:6433-6480 | one whose refutation is applied on the word of a later entry that names no claim |
| `TurnExamples.AncestorPreempts` | scripts/agent_gan_repl.py:6493-6534 | one with two upheld refutations, of which the ancestor's preempts the descendant's |
| `TurnExamples.RefutableIsApplied` | scripts/agent_gan_repl.py:9028-9415 | whatever the host's arithmetic refutes at some witness, one turn can invalidate a premise with |
| `TurnExamples.TrueClaimIsApplied` | scripts/agent_gan_repl.py:9028-9415 | a legal turn that invalidates a premise by an infinite witness against a true claim |
| `LedgerAudit.AuditIsExact` | scripts/agent_gan_repl.py:6831-6873 | whatever repeats an ancestor is rejected, anything else only with its parent, and always with it when parents come first; afterwards no UNRESOLVED obligation repeats an ancestor, in any list order |
| `LedgerAudit.SecondAuditIsIdle` | scripts/agent_gan_repl.py:6831-6873 | a second audit changes nothing, the version included, in any list order |
| `LedgerAudit.PersistingTwiceIsIdle` | scripts/agent_gan_repl.py:6037-6107 | persisting a certificate twice in a row adds nothing and leaves the version alone |
| `LedgerAudit.RepersistExactlyWhen` | scripts/agent_gan_repl.py:6085-6097 | later on it succeeds exactly while the child carries that certificate's hash |
| `LedgerAudit.DecomposedChildCollides` | scripts/agent_gan_repl.py:6085-6106 | decomposing the child makes its own certificate collide |
| `Evidence.NormalizeClaim` | scripts/agent_gan_repl.py:887-984 | accepted arithmetic claims are safe and use exactly their declared variables |
| `EvidenceRounding.EvaluatorIsExact` | scripts/agent_gan_repl.py:1298-1347 | at a finite witness, where rounding changes no constant, variable or intermediate result, the host's evaluator computes the exact meaning, and refuses nothing but undefined values and large exponents |
| `EvidenceRounding.HostRefutesOnlyFalse` | scripts/agent_gan_repl.py:1391-1406 | a relation the host finds false of two values is false of them; for `!=`, equal within the rounded tolerance |
| `Evidence.ValidationIsComputed` | scripts/agent_gan_repl.py:1350-1406 | evidence validates if and only if it concerns the very claim that was hashed and the host's own test fails at a witness it admits; such a witness is in the declared domain if and only if its values are finite, always so over the integers |
| `EvidenceRounding.ValidationIsSound` | scripts/agent_gan_repl.py:1350-1406 | where the witness is finite and the evaluation rounds nothing, it is a counterexample to that claim |
| `EvidenceErrors.EvaluatorIsNear` | scripts/agent_gan_repl.py:1298-1347 | whatever is rounded, the computed value is within its accumulated error bound of the exact meaning, through sums, products, quotients and whole powers |
| `EvidenceErrors.SeparatedRefutationIsGenuine` | scripts/agent_gan_repl.py:1386-1406 | a refutation whose sides come out further apart than both error bounds is a counterexample to the claim |
| `EvidenceErrors.RoundedThirdIsGenuine` | scripts/agent_gan_repl.py:1386-1406 | so `x / 3 > 1` is genuinely refuted at 1, although a third is rounded |
| `EvidenceRounding.InfiniteWitnessIsAccepted` | scripts/agent_gan_repl.py:1299-1305 | the true claim `1/(x*x) > 0` is refuted at either infinity by every host |
| `EvidenceRounding.WitnessIsGenuineExactlyWhen` | scripts/agent_gan_repl.py:1391-1406 | where the witness is finite and the evaluation rounds nothing, the witness breaks the claimed relation if and only if it is not `!=`, or both sides are equal |
| `EvidenceRounding.WholeDisequalityIsGenuine` | scripts/agent_gan_repl.py:1391-1406 | for `!=` the witness is genuine when both sides are whole numbers, their difference is exact and the tolerance is below 1 |
| `EvidenceRounding.TrueDisequalityIsInvalidated` | scripts/agent_gan_repl.py:1391-1406 | a true disequality that the host refutes without rounding anything |
| `EvidenceRounding.AbsorbedSuccessorIsInvalidated` | scripts/agent_gan_repl.py:1298-1347 | the true claim `x < x + 1` is refuted at 10^20 by any arithmetic that absorbs the 1 there |
| `EvidenceRounding.GenuineExactlyWithoutRounding` | scripts/agent_gan_repl.py:1298-1406 | every validated refutation by a finite witness of a claim other than `!=` is genuine if and only if the arithmetic rounds nothing at all |
| `Evidence.ReviewGate` | scripts/agent_gan_repl.py:1447-1517 | a review is verified if and only if both roles answered, agree, are confident, are bound to the suspicion, and the evidence validates |
| `EvidenceErrors.OnlyArithmeticInvalidates` | scripts/agent_gan_repl.py:1408-1444 | no Lean proof and no theorem reference can be verified; what is verified failed the host's own arithmetic test, and is false where the audit is exact or separated |
| `Critic.ExtractSuspicions` | scripts/agent_gan_repl.py:987-1041 | the extraction loop: allowed ids only, last suitable entry wins, ids in the order in which they first came under suspicion |
| `Critic.ReadVerdicts` | scripts/agent_gan_repl.py:6384-6488 | the verdict loop, with rejected closures and review-dependent kinds |
| `Critic.InvalidationNeedsReview` | scripts/agent_gan_repl.py:6444-6480 | no entry invalidates a premise without a suspicion and a verified review of that obligation |
| `Critic.VerdictIsLast` | scripts/agent_gan_repl.py:6379-6488 | the verdict about an obligation is that of the last complete entry about it, whichever entry raised the suspicion |
| `Turns.CheckpointKeepsFrontier` | scripts/agent_gan_repl.py:9033-9068 | the checkpoint moves nothing in or out of the frontier, and the second extraction finds the same suspicions |
| `Turns.TurnIsLegalRun` | scripts/agent_gan_repl.py:9028-9415 | a turn is a legal run: its verdicts concern obligations pending at that moment |
| `TurnSoundness.TurnDecisionsAreFounded` | scripts/agent_gan_repl.py:9278-9358 | a turn invalidates only what it refuted, with that claim's digest |
| `TurnSoundness.SessionsAreSound` | scripts/agent_gan_repl.py:9028-9415 | over every session, each lesson carries the hash of a claim that the host's arithmetic refuted at a witness it admits, and a false one where every audit has a finite witness and rounds nothing or separates its sides; premises are invalidated only after such a refutation of the claim bound to that obligation |
| `TurnSoundness.SessionsNeverReverse` | scripts/agent_gan_repl.py:6516-6520 | over every session from a ledger without lessons, every lesson is ACTIVE and its source shut: no invalidation is ever undone |
| `SessionClosure.SessionsShutOnlyBelowRefutations` | scripts/agent_gan_repl.py:6282-6322 | over every session from a ledger in which nothing is shut, whatever ends up DISPROVED as a premise or QUARANTINED is, or lies below, an obligation whose refutation some turn confirmed |
| `TurnSoundness.SessionsInherit` | scripts/agent_gan_repl.py:9028-9415 | every session keeps the ledger well formed and acyclic, and its dead premises shut |
| `ProofLedger.ProofObligationLedger.Load` | scripts/agent_gan_repl.py:602-638 | a ledger loads if and only if it has schema version 1, a ledger id, obligations, unique ids and claim hashes, and known parents other than oneself |
| `ProofLedger.ProofObligationLedger.DescendantIds` | scripts/agent_gan_repl.py:6188-6203 | the same set for the objects |
| `ProofLedger.ProofObligationLedger.HasInvalidAncestor` | scripts/agent_gan_repl.py:650-671 | the walk over the objects |
| `ProofLedger.ProofObligationLedger.PendingObligations` | scripts/agent_gan_repl.py:641-688 | the frontier, in ledger order |
| `ProofLedger.ProofObligationLedger.MarkPremiseSuspected` | scripts/agent_gan_repl.py:6206-6221 | the target and everything below it are marked, in whatever order the set is visited |
| `ProofLedger.ProofObligationLedger.ClearTemporaryQuarantine` | scripts/agent_gan_repl.py:6224-6233 | temporary marks of this root are gone, all others stay |
| `ProofLedger.ProofObligationLedger.ReversePremiseInvalidation` | scripts/agent_gan_repl.py:6236-6279 | the whole new ledger after a reversal, for any visiting order |
| `ProofLedger.ProofObligationLedger.UpgradePremiseInvalidation` | scripts/agent_gan_repl.py:6282-6355 | the whole new ledger after an invalidation; nothing without a verified review and a claim hash |
| `ProofLedger.ProofObligationLedger.RecordLesson` | scripts/agent_gan_repl.py:6324-6355 | a lesson with this hash is overwritten in place, otherwise one is appended; hashes stay unique |
| `ProofLedger.ProofObligationLedger.BackjumpFrom` | scripts/agent_gan_repl.py:6543-6580 | the backjump walk |
| `ProofLedger.ProofObligationLedger.ApplyVerdict` | scripts/agent_gan_repl.py:6493-6580 | the whole new ledger after one verdict |
| `ProofLedger.ProofObligationLedger.ApplyCriticVerdicts` | scripts/agent_gan_repl.py:6358-6582 | the whole new ledger after a reading of the critic, applied in ledger order |
| `ProofLedger.ProofObligationLedger.AuditSemanticDuplicates` | scripts/agent_gan_repl.py:6831-6873 | the audited ledger and the rejected ids, in order |
| `ProofLedger.ProofObligationLedger.CheckpointSuspicions` | scripts/agent_gan_repl.py:9041-9068 | the checkpointed ledger |
| `ProofLedger.ProofObligationLedger.PersistVerifiedDecomposition` | scripts/agent_gan_repl.py:6037-6107 | the new ledger and the exception, the half-done change before a collision included |
| `TurnLoop.Play` | scripts/agent_gan_repl.py:9028-9415 | a turn over the objects is a turn on values |

## Left out

- Tensor numerics, attention kernels, tokenizers and model loading: the model is an arbitrary function of what each layer shows.
- Memory and activation metrics, byte counts and timings: measurement, not behaviour.
- The horizon of the agreement theorem is stated for runs that the callback did not stop; a stopped output still follows the greedy rule as far as it goes.
- A drafter that fails or returns a block of the wrong length ends the run; the exact exception text is not modelled.
- `log_only`, a closed log, locking and flushing of `TimestampedTee`, and what the log reader does with the recovered lines.
- The token observer of `_infer` and its statistics; without a response limit `Infer` is stated for sessions that end, or that a callback ends, after some number of chunks.
- Regular expressions over critic text, id repair and JSON parsing: entries arrive parsed, with their ids resolved.
- `_semantic_equivalence`: an arbitrary relation on statements; its scores are not modelled.
- Expression text that does not parse: `ast.parse` raises an error that `_normalize_claim_schema` lets escape, which ends the turn before anything is applied.
- Floating point: rounding is an arbitrary function from the reals to numbers and infinities, applied to every constant, variable, operation and tolerance; which function binary64 is, is not modelled. Powers are taken as correctly rounded, and what a positive number to a fractional power is, is an arbitrary function.
- Integers too large for a float, and powers that overflow, raise an error that `validate_evidence_artifact` lets escape, which ends the turn before anything is applied; the model answers Inconclusive.
- Spellings of one float literal: a literal is the decimal number it denotes, and two decimals that round to the same binary number count as different claims, although they hash alike.
- SHA-256: digests are injective by construction; ids of children are the target's id and a digest of certificate hash and label.
- Obligations with an empty id, which the loader accepts: the methods and the graph and reversal theorems cover them; the theorems about runs, turns and sessions assume ids are non-empty.
- Lean proofs and pinned theorems beyond never being accepted.
- The map of applied verdicts that `apply_critic_verdicts` returns, and the wording of quarantine reasons.
- Saving and loading files, checkpoint migration, `run_certified_decomposition`, distributed serving and prefill: their code is not part of this model.
- The candidate-driven choice of the turn's obligation: a turn may work on any set of pending obligations, of which the program's single one is a case.
