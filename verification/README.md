# Verified model of the bpfeat streaming engine and its data tools

This project models the behaviour of the bpfeat streaming engine, its publication cache, the tools that
prepare its input and labels, and the statistics that judge its output, and proves properties of that
behaviour for every input, configuration, interleaving or run.

## What is modelled

**The engine** (`Bits`, `Spsc`, `SpscClients`, `SpscQueue`, `Controllers`, `Features`, `Scoring`, `Pipeline*`,
`Checker*`). Three workers joined by two single-producer/single-consumer rings and a feedback record that
flows backwards. `Spsc` takes the ring apart into single atomic loads, stores and slot copies;
`SpscQueue` is the same ring as an object, one call at a time. `Pipeline` gives each worker one step per
access to shared state; any sequence of worker steps, clock ticks and aborts is a run. `Checker` is the
independent replay checker, with its loops as methods. The central theorem,
`PipelineTheorems.CleanRunIsAccepted`, says that every run that ends without an error is accepted by that
checker. `PipelineTermination.FairRunsJoin` adds that under fair scheduling every run joins its workers, aborted
and failing ones included (`PipelineExit` covers the way out after cancellation), and
`PipelineTermination.CompletesExactlyWhenGood` that without aborts it ends without an error exactly when its source
is well-formed. A by-product of the causality proof: a batch's first event always used a strictly older record
than the batch's own. `CheckerSoundness` reads the checker the other way: what any accepted attempt guarantees.

**The publication coordinator** (`Publication*`). The coordinator and its cache as classes, with the whole
object state moved by a step function; a log of accepted events as the meaning of that state; guarantees per
policy; and the Python reference simulator, written separately with its own update order, in lockstep with
it. The event count and the 64-bit sum in the elapsed policy are limits in one implementation and not in the
other; the two agree over a run exactly when no event that is taken meets one (`PublicationReference.Lockstep`).

**Preparing the input** (`Text`, `Records`, `Canonicalizer`, `RawLines`, `Replay`, `RoundTrip`, `LineEnds`,
`EndToEnd`). Chunking,
spilling, k-way merge, duplicate removal and numbering, down to the printed text; the replay reader; the
round trip between them; and one statement from raw lines to written predictions.

**Labels and splits** (`Labels`, `Splits`). Bisecting label generators against an existential
specification, and the embargo gaps as a statement about two runs. A generic identity type stands for the
string identifiers of one generator and the sequence numbers of the other.

**Statistics** (`Ranking`, `Auroc`, `SignFlip*`, `Holm`, `Kernel`). Two implementations of tied-rank
AUROC and average precision, the sign-flip test with listed and with sampled signs, Holm adjustment, and the exact
kernel of a variable-gain average.

`Options`, `Reals` and `Sets` hold a partial-result type, sums and extremes of reals, and facts on finite sets.
`None` (or a named failure case) stands for an exception; constructors of the numeric classes state their argument
checks as preconditions.

Where the documentation and the code differ, the model follows the code. The streaming label generator is described
for time-ordered streams but does not check for order, and without it the search can miss a purchase
(`Labels.UnorderedInputMissesPurchases`). Order within each user's purchases is enough (`Labels.RecordIsCorrect`),
and for distinct purchase times it is also necessary (`Labels.AnyAnchorExactly`; `Labels.BuriedMislabels` where
times repeat). The two average precisions carry one name but differ on ties
(`Ranking.AveragePrecisionsDifferOnTies`); `Ranking.AveragePrecisionsAgreeExactly` gives the exact condition on the
items for them to agree.

## Model

| member | source | states |
|---|---|---|
| PipelineTheorems.CleanRunIsAccepted | tools/verify_engine_diagnostics.py:141-251 | Every run, under any interleaving, that joins without an error yields a trace the independent checker accepts, and satisfies the engine's own terminal check |
| PipelineTheorems.ExactlyOnce | source/include/bpfeat/pipeline.hpp:61-63 | In such a run the written rows are the source events, each once, in order |
| PipelineTheorems.WrittenPrefix | source/include/bpfeat/pipeline.hpp:111-129 | In every reachable state, failing runs included, the written rows are a prefix of the source |
| PipelineTheorems.FeedbackCausality | source/include/bpfeat/pipeline.hpp:164-173 | An event of batch j used a record no newer than j's own (its first event a strictly older one), and exactly a value and time some batch recorded at its start |
| PipelineTheorems.GenerationsNeverDecrease | tools/verify_engine_diagnostics.py:216-220 | Along the event stream the generation used never decreases, in every reachable state |
| PipelineTheorems.ControlMovesOnlyAtStarts | source/include/bpfeat/pipeline.hpp:162-173 | Polling and blocked retries leave gain, average, batch law, record and feature state unchanged; each moves only at a nonempty batch start or an extraction |
| PipelineTheorems.StepFailsExactlyWhen | source/include/bpfeat/pipeline.hpp:192-209 | Before any failure, a worker step raises an error exactly on a source regression, an inadmissible event, or exhausted record generations; every other check passes |
| PipelineTheorems.JoinedConserved | source/include/bpfeat/pipeline.hpp:222-224 | The terminal conservation exception is unreachable after a run without errors |
| PipelineTheorems.RunPipeline | source/include/bpfeat/pipeline.hpp:65-226 | Under a given schedule: rejects exactly the invalid configurations, never ends in a conservation failure, and a completed attempt is accepted by the checker and holds scores with the odds their features call for |
| PipelineTheorems.WrittenScores | source/include/bpfeat/pipeline.hpp:113-116 | In every reachable state every written score lies strictly between 0 and 1 and its odds are exp of the bias plus each weight times its own column |
| PipelineProvenance.SnapshotsTraced | source/include/bpfeat/pipeline.hpp:199-204 | Every snapshot of every run: its creation time was read first, then the record it used was the current one, then it was extracted, each at its own step of the source worker |
| PipelineProvenance.RetriesCounted | source/include/bpfeat/pipeline.hpp:149-149 | The two retry counters of every run are the numbers of blocked pushes tried again, in 64 bits |
| Scoring.ScoreHasOdds | source/include/bpfeat/model.hpp:20-29 | For any exp with exp(z) exp(-z) = 1 the score p lies strictly between 0 and 1 and p = exp(z) (1 - p), z being the bias plus each weight times its own column |
| Scoring.ScoreRises | source/include/bpfeat/model.hpp:20-29 | For increasing exp the score rises with any single column of positive weight |
| PipelineSafety.RunInvariant | source/include/bpfeat/pipeline.hpp:103-217 | The whole three-worker invariant holds in every state of every run |
| PipelineSafety.StepInvariant | source/include/bpfeat/pipeline.hpp:103-217 | Every atomic step of every worker, clock tick and abort keeps the invariant |
| PipelineSafety.BatcherStepMoves | source/include/bpfeat/pipeline.hpp:157-184 | What one batcher step can change elsewhere, and the only points at which its controllers and the record move |
| PipelineSource.SourceKeepsEndpoint | source/include/bpfeat/pipeline.hpp:210-216 | The source closes its ring only after its last push has succeeded |
| PipelineSource.SourceKeepsCursor | source/include/bpfeat/pipeline.hpp:192-198 | Events read, extracted and pushed stay aligned with the source cursor at every program point |
| PipelineSource.SourceKeepsData | source/include/bpfeat/pipeline.hpp:199-209 | Every snapshot is the one its prefix of events and loaded records determines |
| PipelineBatcher.BatcherKeepsEndpoint | source/include/bpfeat/pipeline.hpp:157-184 | The batching worker sits between its two rings in one of the allowed configurations, and closes only when drained and flushed |
| PipelineBatcher.BatcherKeepsCounters | source/include/bpfeat/pipeline.hpp:174-176 | No event is lost or duplicated between the feature ring, the hand, the open batch and the delivered batches |
| PipelineBatcher.BatcherKeepsFeedback | source/include/bpfeat/pipeline.hpp:165-168 | Stored records are the averages of their raw occupancies, with consecutive generations and non-decreasing times |
| PipelineBatcher.BatcherKeepsBatches | source/include/bpfeat/pipeline.hpp:168-174 | Every batch carries its own record, raw occupancy and target, and events that used no newer record |
| PipelineBatcher.BatcherKeepsFull | source/include/bpfeat/pipeline.hpp:176-179 | Only the batch flushed at end of input may be short of its target |
| PipelineBatcher.BatcherKeepsControl | source/include/bpfeat/pipeline.hpp:169-170 | The batch controller holds the state the stored records lead to |
| PipelineBatcher.BatcherKeepsTrace | source/include/bpfeat/pipeline.hpp:140-146 | One controller row per batch, in order, equal to the batch |
| PipelineScorer.ScorerKeepsCounters | source/include/bpfeat/pipeline.hpp:104-129 | Rows written, the position in the current batch and the batches popped stay consistent |
| PipelineScorer.ScorerKeepsData | source/include/bpfeat/pipeline.hpp:113-128 | Each row holds the snapshot, batch and score it must, with non-decreasing scoring times |
| PipelineProgress.SourceWorks | source/include/bpfeat/pipeline.hpp:210-214 | Every source step lowers the remaining work, except a blocked retry, which changes no other state |
| PipelineProgress.BatcherWorks | source/include/bpfeat/pipeline.hpp:157-161 | Every batcher step lowers the remaining work, except polling an empty ring and retrying a full one |
| PipelineProgress.ScorerWorks | source/include/bpfeat/pipeline.hpp:105-109 | Every scorer step lowers the remaining work, except polling an empty ring |
| PipelineProgress.SourceAdvances | source/include/bpfeat/pipeline.hpp:192-215 | A source step lowers the global rank or leaves it while another worker is the one that can advance |
| PipelineProgress.BatcherAdvances | source/include/bpfeat/pipeline.hpp:157-184 | The same for a batcher step |
| PipelineProgress.ScorerAdvances | source/include/bpfeat/pipeline.hpp:105-130 | The same for a scorer step |
| PipelineTermination.StepAdvances | source/include/bpfeat/pipeline.hpp:103-217 | No deadlock: in every live reachable state there is a worker whose next steps lower a well-founded rank, and no step of another raises it |
| PipelineTermination.FairRunsJoin | source/include/bpfeat/pipeline.hpp:219-219 | Within 576 n + 221 fair rounds every run on n events has joined all three workers, whether it failed, was aborted or completed |
| PipelineTermination.CancelledRunJoins | source/include/bpfeat/pipeline.hpp:79-87 | From any reachable cancelled state all three workers join within 22 fair rounds, however long the source |
| PipelineExit.StepExits | source/include/bpfeat/pipeline.hpp:79-87 | After cancellation every step of a worker brings that worker closer to its exit, and no step of another, clock tick or abort sets it back |
| PipelineTermination.GoodSourceNeverFails | source/include/bpfeat/pipeline.hpp:192-209 | A source with increasing identifiers, non-decreasing times, known behaviors and few enough keys never causes an error, under any interleaving |
| PipelineTermination.GoodSourceCompletes | source/include/bpfeat/pipeline.hpp:61-63 | Total correctness: such a source under fair scheduling without aborts is fully scored, conserved and accepted |
| PipelineTermination.CleanRunMeansGoodSource | source/include/bpfeat/pipeline.hpp:192-209 | Conversely, a run that joins without an error proves its source well-formed |
| PipelineTermination.CompletesExactlyWhenGood | source/include/bpfeat/pipeline.hpp:61-63 | Under fair scheduling without aborts every run on fewer than 2^64 events joins, and it ends with an error if and only if the source has an identifier that does not increase, a time that decreases, an unknown behavior or too many keys |
| Checker.Verify | tools/verify_engine_diagnostics.py:141-251 | From parsed rows on: accepts exactly the attempts that satisfy every counter, trace and event requirement |
| Checker.VerifyTrace | tools/verify_engine_diagnostics.py:149-197 | The controller-row loop accepts exactly the traces all of whose rows and final counters check |
| Checker.VerifyRow | tools/verify_engine_diagnostics.py:154-195 | One row is accepted exactly when it meets every requirement on it; the replay state then advances as specified |
| Checker.VerifyGroup | tools/verify_engine_diagnostics.py:187-191 | The inner loop accepts exactly the groups whose predictions all carry the batch's identity and clocks |
| Checker.VerifyEvents | tools/verify_engine_diagnostics.py:198-251 | The per-event loop accepts exactly the predictions that match an independent recomputation |
| CheckerCompleteness.TraceAccepted | tools/verify_engine_diagnostics.py:149-197 | A clean run's controller rows pass the trace replay |
| CheckerCompleteness.EventsAccepted | tools/verify_engine_diagnostics.py:198-251 | A clean run's prediction rows pass the per-event replay |
| CheckerCompleteness.TargetAgrees | tools/verify_engine_diagnostics.py:169-174 | The checker's target law and the engine's controller agree on every pressure |
| CheckerCompleteness.ControlMoves | tools/verify_engine_diagnostics.py:175-179 | Actions and reversals as the checker counts them are those the engine counts |
| CheckerCompleteness.PressureAgrees | tools/verify_engine_diagnostics.py:162-163 | The checker's form of the average equals the engine's |
| CheckerCompleteness.AlphaAgrees | tools/verify_engine_diagnostics.py:227-232 | The checker's nested minima and maxima equal the engine's clamped slew |
| CheckerCompleteness.AcceptedIsDetermined | tools/verify_engine_diagnostics.py:201-251 | Accepted attempts that report the same feedback records agree on every gain, feature and score: the checker leaves the numbers no freedom |
| CheckerCompleteness.AcceptedBatchesDetermined | tools/verify_engine_diagnostics.py:154-197 | Accepted attempts on the same events and configuration that report the same raw occupancies agree on every average, target, batch size and tail, on every prediction's batch, and on the action, reversal and tail counters |
| CheckerCompleteness.AcceptedClocks | tools/verify_engine_diagnostics.py:204-220 | In an accepted attempt latency is scoring less creation, every clock lies in the run, and for any two rows identifiers, times, creation, scoring and generations are ordered |
| CheckerCompleteness.ScoreAgrees | tools/verify_engine_diagnostics.py:248-251 | The checker's sum over paired columns and logistic function give the engine's score |
| CheckerCompleteness.ValidExactly | tools/verify_engine_diagnostics.py:114-127 | The engine starts on exactly the configurations the checker admits |
| CheckerSoundness.BatchesSound | tools/verify_engine_diagnostics.py:154-186 | In any accepted attempt every batch has its own generation, a target within bounds, its target's size unless it is the last, a whole number of occupied slots, and an average within [0, 1] |
| CheckerSoundness.PredictionsJoined | tools/verify_engine_diagnostics.py:183-196 | In any accepted attempt every prediction lies in exactly one batch and carries that batch's generation, size and pressure; first and last identify it |
| CheckerSoundness.FeedbackSound | tools/verify_engine_diagnostics.py:219-233 | In any accepted attempt a gain lies within its bounds, and a used record is one the trace holds, of no later batch |
| CheckerSoundness.KeysWithinBudget | tools/verify_engine_diagnostics.py:234-235 | In any accepted attempt the keys seen never exceed the budget |
| CheckerSoundness.CountersSound | tools/verify_engine_diagnostics.py:141-148 | In any accepted attempt every stage counted every event, and there was at most one tail |
| Spsc.ProducerRefines | source/include/bpfeat/spsc_queue.hpp:19-27 | Each load or store of a push or size call refines a bounded FIFO: only the final store appends, below capacity, on an open queue; refusals are justified at the deciding load; the size is exact at its second load |
| Spsc.ConsumerRefines | source/include/bpfeat/spsc_queue.hpp:28-42 | Each load or store of a pop or drain refines the FIFO: only the final store removes, the head, which the caller gets; empty answers are exact at the deciding load |
| Spsc.NoSlotRace | source/include/bpfeat/spsc_queue.hpp:24-31 | Producer and consumer never touch one slot at the same time |
| Spsc.FullTest | source/include/bpfeat/spsc_queue.hpp:22-23 | The masked comparison means exactly that slots - 1 items are queued |
| Spsc.EmptyTest | source/include/bpfeat/spsc_queue.hpp:40-42 | Equal indices mean exactly an empty queue |
| Spsc.SizeTest | source/include/bpfeat/spsc_queue.hpp:43-47 | The masked wrapped difference of the indices is the number of queued items |
| SpscClients.FirstInFirstOut | source/include/bpfeat/spsc_queue.hpp:19-33 | Over every interleaving of two arbitrary clients: at most slots - 1 items, and the n-th pop returns the n-th push |
| SpscClients.DrainedIsFinal | source/include/bpfeat/spsc_queue.hpp:35-39 | When only the producer closes, between its calls, a drain that reported true is final: popped equals pushed from then on |
| SpscClients.ClosedIsFinal | source/include/bpfeat/spsc_queue.hpp:35-39 | Nothing is admitted to a queue closed by its producer |
| SpscClients.CloseIsBarrierExactly | source/include/bpfeat/spsc_queue.hpp:10-11 | Closing is an admission barrier if and only if no push has passed its closed-check without returning |
| SpscQueue.SPSCQueue.Make | source/include/bpfeat/spsc_queue.hpp:50-54 | A queue is built exactly for representable powers of two of at least 2 |
| SpscQueue.SPSCQueue.TryPush | source/include/bpfeat/spsc_queue.hpp:19-27 | Appends exactly when open and below slots - 1 items, else changes nothing |
| SpscQueue.SPSCQueue.TryPop | source/include/bpfeat/spsc_queue.hpp:28-34 | Removes and returns the head, or reports an empty queue |
| SpscQueue.SPSCQueue.ClosedAndEmpty | source/include/bpfeat/spsc_queue.hpp:36-42 | True exactly when closed and empty |
| SpscQueue.SPSCQueue.Occupancy | source/include/bpfeat/spsc_queue.hpp:43-48 | The exact fraction of usable slots in use |
| Bits.PowerOfTwoTest | source/include/bpfeat/spsc_queue.hpp:50-54 | n & (n - 1) is zero exactly for powers of two |
| Bits.MaskIsModulo | source/include/bpfeat/spsc_queue.hpp:22-22 | Masking with slots - 1 is reduction modulo slots |
| Bits.MaskedDifference | source/include/bpfeat/spsc_queue.hpp:43-47 | Unsigned wrap-around of the index difference is undone by the mask |
| Bits.WordWidth | source/include/bpfeat/spsc_queue.hpp:43-47 | The word size of every counter and index is two to the sixty-fourth |
| Controllers.PressureSignal.Store | source/include/bpfeat/controllers.hpp:24-32 | Stores with the next generation, or rejects a value, time or generation overflow and changes nothing |
| Controllers.OccupancyEMA.Update | source/include/bpfeat/controllers.hpp:48-52 | The average step; it stays within [0, 1] |
| Controllers.AlphaController.Update | source/include/bpfeat/controllers.hpp:66-71 | The clamped slew; the gain stays within bounds and moves at most delta |
| Controllers.MultiplicativeBatchController.Update | source/include/bpfeat/controllers.hpp:93-109 | The batch law with its action and reversal counters |
| Controllers.BatchStepBounded | source/include/bpfeat/controllers.hpp:93-109 | The size stays in bounds and shrinks (grows) if and only if it may: integer truncation never traps it |
| Features.KeyedFeatures.Update | source/include/bpfeat/features.hpp:35-66 | Accepts exactly the admissible events; on rejection nothing changes |
| Features.KeyedFeatures.Observe | source/include/bpfeat/features.hpp:49-60 | One observation advances a user's averages and counts as specified |
| Kernel.ExactWeights | source/reference/filter_math.py:52-68 | The backward loop computes the kernel weights and the survival, or rejects an invalid gain |
| Kernel.WeightsTotalOne | source/reference/filter_math.py:52-58 | Weights and survival add up to one |
| Kernel.EmaIsKernel | source/reference/filter_math.py:54-58 | The recursion equals the weighted inputs plus what survives of the start, for every gain history |
| Kernel.FeaturesAreKernels | source/include/bpfeat/features.hpp:50-55 | For every interleaving of keys, a key's two averages are the kernel sums over that key's own inputs |
| Kernel.EngagementBounded | source/include/bpfeat/features.hpp:53-54 | Engagement stays within [0, 5] |
| Publication.VersionedCache.Get | source/include/bpfeat/cache.hpp:80-87 | The stored version, or a cold one |
| Publication.VersionedCache.Publish | source/include/bpfeat/cache.hpp:89-106 | Installs the next version, or refuses a new key beyond the budget and changes nothing |
| Publication.PublicationCoordinator.ProcessEvent | source/include/bpfeat/cache.hpp:141-187 | One event moves the whole coordinator as the step function says, on every path |
| Publication.PublicationCoordinator.ServeQuery | source/include/bpfeat/cache.hpp:189-239 | One query returns the specified answer and changes only the query counters |
| PublicationHistory.HistoryRefined | source/include/bpfeat/cache.hpp:141-239 | Over every run of events and queries, caches, tracking, counters and features are what the log of accepted events determines; processed = published + coalesced |
| PublicationHistory.CacheNeverThrows | source/include/bpfeat/cache.hpp:96-100 | The cache's own key-budget exception is unreachable, so rejected events cannot break conservation |
| PublicationGuarantees.QueryAnswersFromHistory | source/include/bpfeat/cache.hpp:189-239 | An answer's cached vector is the fresh one at the key's last publication, its staleness the key's events since, its version the key's publication count |
| PublicationGuarantees.WarmAndCurrentIsFresh | source/include/bpfeat/cache.hpp:202-206 | A warm answer with staleness zero serves exactly the fresh vector |
| PublicationGuarantees.ErrorCountsColumns | source/include/bpfeat/cache.hpp:205-208 | The squared error is never negative, symmetric, and zero only for equal vectors |
| PublicationGuarantees.ErrorOfColumn | source/include/bpfeat/cache.hpp:205-208 | When one column differs the squared error is the square of that difference, whichever column it is |
| PublicationGuarantees.AnswerErrorMeans | source/include/bpfeat/cache.hpp:204-238 | An answer's error is zero if and only if it serves the fresh vector |
| PublicationGuarantees.ColdAnswer | source/include/bpfeat/cache.hpp:189-239 | A key never published is answered cold, with version zero, seven zeros and the query time as age |
| PublicationGuarantees.VersionsSumToTotal | source/include/bpfeat/cache.hpp:102-104 | Over every run the version ids sum to the total publications |
| PublicationGuarantees.PublishedExactlyWhenDecided | source/include/bpfeat/cache.hpp:147-173 | An accepted event is published exactly when the policy, reading the key's history, says so |
| PublicationGuarantees.CadencePublishesFloor | source/include/bpfeat/cache.hpp:155-157 | A fixed cadence c publishes floor(n / c) of a key's n updates and leaves n mod c pending |
| PublicationGuarantees.LargerCadencePublishesLess | source/include/bpfeat/cache.hpp:155-157 | Over the same operations a larger cadence never publishes more in total |
| PublicationGuarantees.PolicyOnlyPublishes | source/include/bpfeat/cache.hpp:143-145 | The policy never influences which events are accepted or the feature state |
| PublicationGuarantees.AdaptiveInRange | source/include/bpfeat/cache.hpp:165-169 | The adaptive cadence lies between 1 and its maximum, 64-bit wrap-around included |
| PublicationGuarantees.AdaptiveExactly | source/include/bpfeat/cache.hpp:165-168 | The cadence k is 1 at no pressure, the maximum c at full pressure, and in between k - 1 <= p (c - 1) < k |
| PublicationGuarantees.AdaptiveIsMonotone | source/include/bpfeat/cache.hpp:165-168 | More pressure never lowers the cadence |
| PublicationGuarantees.SteadyIsFixed | source/include/bpfeat/cache.hpp:165-170 | At constant pressure every run under the adaptive policy is the run under the fixed cadence of that pressure |
| PublicationGuarantees.SteadyPublishesFloor | source/include/bpfeat/cache.hpp:165-170 | So it publishes the whole multiples of that cadence among a key's updates: every event without pressure, one in c at full pressure |
| PublicationGuarantees.AdaptiveStalenessBounded | source/include/bpfeat/cache.hpp:165-170 | Adaptive staleness stays below the maximum cadence |
| PublicationGuarantees.ExactFreshIsCurrent | source/include/bpfeat/cache.hpp:152-154 | Publishing every event leaves nothing stale |
| PublicationGuarantees.ElapsedStalenessBounded | source/include/bpfeat/cache.hpp:158-164 | Every key with events has a version, less than the threshold behind its latest event as 64-bit arithmetic sees it |
| PublicationReference.PublicationSimulator.ProcessEvent | tools/publication_reference.py:250-319 | One event moves the simulator as its step function says, on every path |
| PublicationReference.PublicationSimulator.ServeQuery | tools/publication_reference.py:321-364 | One query returns the specified answer |
| PublicationReference.DecisionsAgree | tools/publication_reference.py:114-163 | Incrementing before or after deciding makes no difference: the decisions agree if and only if the elapsed sum does not wrap |
| PublicationReference.CadencesAgree | tools/publication_reference.py:156-159 | The two adaptive cadences are equal for every pressure |
| PublicationReference.IngestLockstep | tools/publication_reference.py:250-319 | From agreeing states, outcomes agree if and only if no 64-bit limit is hit by an event the simulator takes; agreement is then kept |
| PublicationReference.Lockstep | tools/publication_reference.py:250-364 | Over every run the two return the same on every event if and only if no event the simulator takes meets a 64-bit limit; they then reach the same cache, accounting and per-key records |
| PublicationReference.QueriesAgree | tools/publication_reference.py:321-364 | Every query of every such run is answered alike |
| PublicationReference.FittingInputsMeetNoLimit | source/include/bpfeat/cache.hpp:162-162 | A check on the inputs alone that rules the limits out |
| PublicationReference.WrapAroundDiverges | source/include/bpfeat/cache.hpp:162-162 | A concrete threshold for which the wrapped sum makes the two disagree |
| PublicationReference.WrapAroundRunDiverges | source/include/bpfeat/cache.hpp:162-162 | From the empty state, a run of two events on which they return different outcomes |
| Canonicalizer.Canonicalize | tools/canonicalize_user_behavior.py:74-221 | Fails exactly on a malformed line among those read; else prints the canonical list of the in-window records with an exact ledger and chunk count, whatever the chunk size |
| RawLines.LineParses | tools/canonicalize_user_behavior.py:42-71 | For any cells, toInt and line end: a line is rejected if and only if its cells are not five nonempty ones with integers, nonnegative identifiers and a known behavior, and each column lands in its own field |
| RawLines.RawLineParses | tools/canonicalize_user_behavior.py:42-71 | A line of decimal user, item, category, behavior and time, however it ends, parses to exactly those columns |
| RawLines.RawFile | tools/canonicalize_user_behavior.py:74-221 | For any such lines the file holds the records of the rows whose second lies in the window, and the ledger counts those before, after, kept and emitted |
| RawLines.OneRowFile | tools/canonicalize_user_behavior.py:188-209 | A single in-window row prints as 0, nanoseconds, user, item, category and its engine code |
| RawLines.DefaultWindow | tools/canonicalize_user_behavior.py:21-22 | The default window is the nine days from 1511539200 |
| Canonicalizer.Partition | tools/canonicalize_user_behavior.py:119-176 | Phase 1 spills sorted runs that hold exactly the in-window records, and counts every line once |
| Canonicalizer.ReadRun | tools/canonicalize_user_behavior.py:179-183 | Reading a spilled file back yields the run that was written |
| Canonicalizer.Emit | tools/canonicalize_user_behavior.py:188-209 | Skipping equal neighbours of the merged stream prints the canonical list numbered from zero and counts the rest as duplicates |
| Canonicalizer.SpillReadsBack | tools/canonicalize_user_behavior.py:160-161 | A spilled line parses back to its record |
| Canonicalizer.OutputIsInvariant | tools/canonicalize_user_behavior.py:77-80 | Any order of the same lines and any chunk sizes give the same file and, but for the chunk count, the same ledger |
| Canonicalizer.CandidatesAre | tools/canonicalize_user_behavior.py:119-153 | The candidates are exactly the records of the in-window lines |
| Records.Merge | tools/canonicalize_user_behavior.py:185-186 | The k-way merge of sorted runs is sorted and holds exactly their records |
| Records.LeastHead | tools/canonicalize_user_behavior.py:186-186 | Picks the least head, the earliest run on ties |
| Records.SortedSorts | tools/canonicalize_user_behavior.py:156-156 | Sorting by all six columns sorts by the five key columns |
| Records.BeforeIsLexicographic | tools/canonicalize_user_behavior.py:151-156 | The order is lexicographic in time, user, item, category and behavior rank, most significant first |
| Records.CanonicalMeans | tools/canonicalize_user_behavior.py:188-204 | The canonical list is strictly increasing and has exactly the given records |
| Records.IncreasingUnique | tools/canonicalize_user_behavior.py:191-204 | A strictly increasing list is determined by its members |
| Records.CanonicalInvariant | tools/canonicalize_user_behavior.py:191-204 | The canonical list ignores order and multiplicity |
| Replay.CsvCells | source/include/bpfeat/replay.hpp:11-21 | The search loop yields exactly the comma-separated cells |
| Replay.ReplayReader.Open | source/include/bpfeat/replay.hpp:32-38 | Accepts exactly a stream whose first line is the header |
| Replay.ReplayReader.ReadNext | source/include/bpfeat/replay.hpp:39-59 | One call moves the reader as specified: end, failure, or an event |
| Replay.AcceptedIsOrdered | source/include/bpfeat/replay.hpp:54-55 | Every stream read to its end has increasing identifiers, non-decreasing times and known behaviors |
| Replay.LeadingZero | source/include/bpfeat/replay.hpp:22-29 | Leading zeros are read, and nothing but digits is |
| LineEnds.LineEndsDoNotMatter | source/include/bpfeat/replay.hpp:32-45 | For any lines, carriage returns and a missing last newline change nothing of what is read |
| LineEnds.RewrittenFileReadsBack | source/include/bpfeat/replay.hpp:32-59 | A canonical file rewritten with other line ends, or cut before its last newline, reads back to the same events |
| RoundTrip.RowReadsBack | source/include/bpfeat/replay.hpp:46-53 | A printed row parses to its event if and only if its numbers fit 64 bits |
| RoundTrip.FileReadsBack | source/include/bpfeat/replay.hpp:30-59 | A printed canonical file reads back to its records exactly when every number fits 64 bits, and fails otherwise |
| RoundTrip.CanonicalFileReadsBack | tools/canonicalize_user_behavior.py:191-209 | In the default window only identifiers can be too large: with 64-bit identifiers the canonicalizer's file reads back and trips no check |
| Text.SplitJoin | source/include/bpfeat/replay.hpp:11-21 | Splitting undoes joining delimiter-free cells |
| Text.HeaderText | source/include/bpfeat/replay.hpp:36-36 | The header both sides use is the six named columns in order |
| EndToEnd.AcceptedStreamCompletes | source/include/bpfeat/pipeline.hpp:65-226 | Any stream the reader accepts, within the key budget, is a source the engine finishes |
| EndToEnd.CanonicalFileCompletes | source/include/bpfeat/pipeline.hpp:61-63 | Raw lines, canonicalized, replayed and run under fair scheduling, give one accepted prediction row per canonical record, in order |
| Labels.FuturePurchaseLabels | source/preprocessing/labels.py:10-58 | Rejects exactly the invalid cohorts; else each label is the existence of a same-key buy in (t, t + H], its evidence the earliest such buy, and censored rows have none |
| Labels.Admit | source/preprocessing/labels.py:30-42 | The checking pass accepts exactly distinct, in-range, time-ordered events |
| Labels.Index | source/preprocessing/labels.py:43-45 | The per-user purchase lists hold exactly the purchases, in order |
| Labels.StreamLabels | tools/generate_causal_labels.py:147-250 | Fails exactly on a line among those read, blank ones aside, whose identifier, time or user is missing or no integer; else every row is sound, and correct for each user whose purchases are in time order. The ledger counts the rows by outcome, and its leakage flag stays true |
| Labels.LinesMean | tools/generate_causal_labels.py:157-184 | Each line that is not blank is one event, in order, with its own identifier, time and user; only a behavior of 3 is a purchase |
| Labels.RecordIsCorrect | source/preprocessing/labels.py:47-57 | The bisected record meets the existential specification whenever that user's purchases, in input order, never go back in time |
| Labels.AnyAnchorExactly | tools/generate_causal_labels.py:234-250 | For a user whose purchase times are distinct, every further event of that user is labelled correctly at every time and horizon if and only if the purchases are in time order |
| Labels.BuriedMislabels | tools/generate_causal_labels.py:234-250 | With or without repeated times: when a purchase is listed after a later one, and none at its own time comes before that one, some further event of the user is labelled wrongly |
| Labels.RecordIsSound | tools/generate_causal_labels.py:234-250 | On any input a positive names a real later purchase inside the window |
| Labels.CorrectIsUnique | source/preprocessing/labels.py:47-57 | A correct record is determined by the events, so both generators agree on ordered input |
| Labels.UnorderedInputMissesPurchases | tools/generate_causal_labels.py:179-180 | A concrete unordered input on which the streaming generator misses a purchase |
| Splits.GroupsAreHours | tools/generate_cohort_splits.py:76-98 | Inside the campaign two rows share a group if and only if they fall in the same hour |
| Splits.CampaignHour | tools/generate_cohort_splits.py:76-98 | Each split starts on a whole campaign hour, its group index never clamps, and the tail flag is exact |
| Splits.OutsideCampaign | tools/generate_cohort_splits.py:76-98 | Before the campaign every time falls in the first hour of its split, after it in the last |
| Splits.TrainEmbargoExact | tools/generate_cohort_splits.py:54-58 | No event from the validation period on can reach a training label if and only if the horizon is at most two hours (or censors every row) |
| Splits.ValidationEmbargoExact | tools/generate_cohort_splits.py:57-61 | The same for validation labels and the test period |
| Splits.TrainFileIgnoresLaterPeriods | tools/generate_cohort_splits.py:169-212 | Two ordered streams that agree before validation give the same training rows of the cohort file |
| Splits.GenerateCohort | tools/generate_cohort_splits.py:169-267 | Up to the row limit the file holds the shown rows in order; the manifest gives, split by split, their number, distinct users, labels and unlabelled rows; held-out users are disjoint from training and validation whatever the hash, and there are at most 46 test groups |
| Splits.CohortShows | tools/generate_cohort_splits.py:186-201 | By seconds: with the filter on, a row of a user not held out appears if and only if its second lies in neither embargo gap nor the tail; all other rows always do. Rows keep identifier, user and time, and the censored flag is exactly the missing label |
| Splits.SplitsPartition | tools/generate_cohort_splits.py:201-206 | The rows of the seven splits add up to the emitted file |
| Splits.TailIsAlreadyCensored | tools/generate_cohort_splits.py:193-199 | Blanking the tail never alters a row; whole-second rows are censored exactly in the tail |
| Ranking.BinaryMetrics | tools/independent_analysis.py:84-120 | Rejects exactly inadmissible labels, scores or thresholds; AUROC is the share of correctly ranked pairs plus half the tied ones, average precision the mean over positives of precision at their own threshold |
| Auroc.AurocMeans | tools/independent_analysis.py:94-104 | AUROC lies in [0, 1]; it is 1 exactly when every positive is scored above every negative, 0 exactly when below, and 1/2 when all scores tie |
| Auroc.ClassesMean | tools/independent_analysis.py:85-86 | There is an AUROC exactly when some item is positive and some is not |
| Ranking.StreamingMetrics | tools/streaming_adapter.py:22-92 | The same AUROC; its average precision equals the grouped one whenever every tied positive belongs to a top block of positives |
| Ranking.RankSum | tools/independent_analysis.py:94-104 | The average-rank loop equals pair counting plus pos (pos + 1) / 2 |
| Ranking.RankSumPerItem | tools/streaming_adapter.py:57-70 | So does the per-item loop |
| Ranking.GroupedPrecision | tools/independent_analysis.py:106-120 | The grouped loop equals the closed form |
| Ranking.StreamingPrecision | tools/streaming_adapter.py:72-83 | The per-item loop is the running precision of the descending list |
| Ranking.PairCountPermuted | tools/independent_analysis.py:94-104 | Pair counting does not depend on the order of the items, ties included |
| Ranking.AveragePrecisionsAgreeExactly | tools/streaming_adapter.py:72-83 | The two average precisions agree for every listing of the items if and only if wherever a positive shares its score with another item, every item scored at least as high is positive |
| Ranking.AveragePrecisionsAgree | tools/streaming_adapter.py:72-83 | In particular they agree when no two scores are equal |
| Ranking.SumsCompared | tools/streaming_adapter.py:72-83 | When no tie mixes positives and negatives, the item-by-item sum is never above the grouped one, and is below it as soon as a tied positive follows a negative |
| Ranking.AveragePrecisionsDifferOnTies | tools/streaming_adapter.py:72-83 | A concrete tie on which they differ |
| SignFlip.SignFlipTest | tools/independent_analysis.py:248-275 | Rejects exactly unpaired or too few units and invalid settings; up to sixteen units the p-value is the extreme share of all sign vectors, beyond that the plus-one share of the draws |
| SignFlip.EffectIsDifference | tools/independent_analysis.py:253-258 | The effect is the mean of the first arm less the mean of the second |
| SignFlipTolerance.ExtremeExactly | tools/independent_analysis.py:233-236 | A vector counts if and only if its mean is short of the observed one by at most eight units in the last place or one part in 10^12 |
| SignFlipTolerance.SeparatedPValue | tools/independent_analysis.py:261-267 | When no vector falls just short of the observed mean, the p-value is exactly the share of sign vectors at least as far |
| SignFlipTolerance.SeparatedSample | tools/independent_analysis.py:268-273 | Likewise the sampled p-value is exactly the plus-one share of the draws at least as far |
| SignFlipTolerance.EqualDifferences | tools/independent_analysis.py:261-267 | For n equal nonzero differences and a fine enough unit in the last place the p-value is 2 / 2^n |
| SignFlipSampling.SampledTestIsValid | tools/independent_analysis.py:269-275 | The sampled test is valid too: of all tuples of observed signs and draws, at most a share alpha gives a plus-one p-value of at most alpha, for every sample, level, tolerance and number of draws |
| SignFlipSampling.DrawsFixChoices | tools/independent_analysis.py:269-272 | No choice of the generator is used twice or skipped: two streams of choices give the same draws if and only if they agree on the first draws times n |
| SignFlipSampling.EveryTupleIsDrawn | tools/independent_analysis.py:269-272 | Every tuple of sign vectors is drawn by some choices |
| SignFlipSampling.FirstSeldomLow | tools/independent_analysis.py:269-273 | Exchangeability: at most a share alpha of all tuples has its first member among the share alpha farthest from zero |
| SignFlip.ExactTestIsValid | tools/independent_analysis.py:261-267 | For every sample, level and tolerance at most a share alpha of the sign flips has a p-value of at most alpha |
| SignFlip.PValueCounts | tools/independent_analysis.py:233-236 | The tolerance only enlarges the p-value |
| SignFlip.CountTwisted | tools/independent_analysis.py:262-265 | Multiplying every sign vector by a fixed one only reorders them |
| SignFlip.ArmsSwap | tools/independent_analysis.py:255-267 | Swapping the arms leaves the p-value unchanged |
| Holm.Holm | tools/independent_analysis.py:503-518 | Rejects exactly inputs outside [0, 1]; each adjusted value is the greatest Bonferroni p-value over the intersections that contain its hypothesis |
| Holm.StepMaxIsClosed | tools/independent_analysis.py:511-517 | The running maximum of step-down values is the closed-testing value |
| Holm.StepDownAgrees | tools/independent_analysis.py:504-504 | Below level one, an adjusted value is at most alpha if and only if the step-down procedure rejects |
| Holm.FamilywiseControl | tools/independent_analysis.py:504-504 | A true hypothesis is rejected only when some true one has a p-value of at most alpha over their number |
| Holm.AdjustmentIsEquivariant | tools/independent_analysis.py:514-517 | Renumbering the hypotheses renumbers the adjusted values |
| Holm.TiesAreEqual | tools/independent_analysis.py:514-517 | Equal p-values get equal adjusted values |
| Holm.AdjustmentIsMonotone | tools/independent_analysis.py:506-506 | Adjusting never lowers a p-value and keeps their order |

## Left out

- Memory order: interleavings are sequentially consistent; effects weaker than an interleaving of atomic
  loads and stores are not modelled.
- Floating point: doubles are exact reals, the checker's closeness is equality, and `log1p`, `exp`, `sqrt` and
  the unit in the last place are arbitrary functions (`exp` positive, the last never negative where it matters).
- Deadlines, stream and file errors, thread-launch failures: one abort action per worker, possible at any step.
- Clocks: one logical clock below 2^64 that never runs backwards.
- RunPipeline: takes the schedule as an argument, since scheduling belongs to the operating system.
- FairRunsJoin: fairness means that every round schedules each worker; nothing is claimed of unfair schedulers.
- GoodSourceCompletes: has the fairness of FairRunsJoin as a premise, no aborts, and sources of fewer than 2^64 events.
- Counters read, extracted, batched, scored and written are unbounded; retry counters wrap at 64 bits.
- File membership, hashes, JSON, model parsing and argument handling in the checker and the other tools.
- Verify: starts from parsed rows, so the text and JSON checks before line 141 are not part of it.
- ParseRow: Python's `int` is any function that reads decimal numerals back; which other spellings it accepts is open.
- The heap inside `heapq.merge` and the laziness of the merge: runs are read whole and the least head is searched for.
- StreamLabels: starts from split lines, each blank or with its four cells parsed; the header search, the output text
  and the rates and times of its ledger are not modelled.
- AnyAnchorExactly: distinct purchase times only. Where times repeat, BuriedMislabels says which unordered lists must
  go wrong; the others go right or wrong depending on where the halving looks.
- Labels in `generate_causal_labels_from_events`: the same algorithm as `future_purchase_labels`; its conversion of digit
  identifiers to integers is not modelled.
- GenerateCohort: starts from parsed label rows; group names are a split and an hour index, and the per-group label
  counts, which nothing reads, are not modelled. The hash that picks held-out users is an arbitrary predicate.
- SignFlipTest: the seeded generator is an arbitrary sequence of choices; the Student-t interval and the bootstrap are
  numerical or random.
- SampledTestIsValid: counts tuples of independent uniform signs and draws, which a pseudorandom generator only imitates.
- BinaryMetrics: accuracy, F1, Brier score and log loss are single expressions and are left out.
- Frozen-gain response, group delay and span in `filter_math.py`: closed formulas.
- The reference simulator's file handling, `current_features`, and `make_policy`.
- Quota-matched policy, workload generation, hardware profiling, training, reports and audits.
