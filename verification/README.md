# ServePilot: a verified model of its search, router and planner

This project models the parts of ServePilot that decide things and proves what they promise. It has four parts.

**Durable experiment search.** The run directory is a value: a hash-chained journal, result files and artifacts
(`Journal`, `RunDirectory`). Each file write is one atomic action, and a controller may die after any of them:
`Store` and `Optimizer` carry a number of writes the controller will live to make, so every contract speaks about every
crash point. What a run can do to the directory is a sequence of enabled actions; `RunDirectory.CrashSafety` is about
every such sequence cut anywhere. `Experiment` describes one experiment as the outside world plays it (how each awaited
operation ends, how cleanup ends) and the result that is owed; `Optimizer` has the methods of the controller, proved to
make only enabled writes, to keep its memory equal to a fold over the recorded results (`Search`, and what that says of
them in `Lessons`), and to record exactly the results a whole run owes and close with the reason it ended for.
`Integrity` has what reading the result files guarantees. `Verifier` has the fail-closed judgement, and `Objectives` what
it means in the measurements. Three facts follow that a reader of one function would miss. Losing the newest records of
the journal goes unnoticed. A controller that dies between writing an agent's transcript and journalling the turn blocks
planning for good, unless a later agent repeats the transcript. An evaluation cancelled from outside while profiling
records its result but leaves the best in memory as it was: the record that closes a cancelled run names an older best
exactly when an accepted result was cut short like that, and `Cancellation` has a run in which it was.

**Serving runtime.** `Routing` keeps one cell for every replica state ever created, so that leases on a removed replica go
on charging the right counters. `Proxy` gives each request's life between two awaits as steps, `Semaphore` the event
loop's counting semaphore with its hand-over of permits, and `Ledger` and `Serving` prove what every interleaving keeps.
`Retrying` has the exact conditions for a lease, a retry and a refusal, and `Rotation` how the policies take turns.
`Router` has the router's classes over shared mutable replica states, each method tied to the same specification.
`HealthChecks` has restarts with a rolling budget, `Supervision` when exactly they happen, and `Deployment` joins the
checker to the proxied requests over one router: a replica found dead is never leased. `Replicas` and `Ports` have start,
stop, restart and port reservation as methods; `Startup` has the start with its launches interleaved one await at a time.
Where the code does less than one might hope the exact condition is proved. A 5xx attempt whose response cannot be closed
is not charged. Replacing the semaphore while requests wait or hold leases breaks conservation; done while no waiter has
been handed a permit, it leaves every waiter waiting until it is cancelled. A restart whose readiness wait raises leaves a
process nobody tracks; one broken off between forgetting the router entry and making the new one leaves a dead replica
that no scan looks at again. A start that fails is all or nothing, but one that is cancelled can leave a replica running and
routed to that is on no list, when others already served while it gathered, or were under way while it paused.

**GPU placement.** `Partitions` and `Combinations` describe the anchored enumeration, `GpuGroups` the planner's
specification, `Placement` its soundness, completeness and optimality, and `Planner` the planner's class, proved to
compute it. `Wiring` says what scores mean in the recorded topology. `MachineByMachine` shows that planning over several
machines can return groups that are not the best connected, exactly when fewer are asked for than fit: all are planned
for, and the first ones are returned.

**Selection.** `Scoring` has the plateau walk and the Pareto front, `OperatingPoint` what they mean; `Memory` and `Budget`
the per-GPU budget; `Selection`, `Candidates` and `Planning` candidate generation, `Ranking` their order and `Offering`
exactly which topologies are offered; `Validation` and `Acceptance` the checks on a proposal; and `Producer` the theorem
that joins generation and checks.
The documentation of `resolve_context_length` and of the planner does not say so, but a shrunk context, a forced memory
fraction of 0.995 or more, or an extra argument the controller owns each make every generated candidate fail the checks.

`Common`, `Sorting`, `Arithmetic`, `Hardware` and `Schemas` hold shared vocabulary. `Times` and `Quotient` are
multiplication and floor division, as `TimesIsProduct` and `QuotientIsFloor` state.

Digests and serialisation are function parameters, and the contents of files are a type parameter; the journal's tamper
theorems assume an injective digest, the run theorems that decoding a result undoes encoding it. `RunDirectory.SomeCodec`
builds contents and a codec for which that holds, with any digests. Clocks, the network, processes, benchmark outcomes,
agents and free ports are parameters: every theorem is for all of them. `hide` statements inside proofs only keep the solver's view small.

## Model

| member | source | states |
|---|---|---|
| Partitions.EnumerateSound | src/servepilot/planner/gpu_groups.py:99-117 | everything the anchored recursion visits is a set of exactly the requested number of disjoint, increasing groups of the requested size, ordered by smallest id |
| Partitions.EnumerateComplete | src/servepilot/planner/gpu_groups.py:107-117 | every such set of groups is visited: skipping an anchor is allowed exactly when GPUs are left over, and nothing is lost |
| Partitions.EnumerateSorted | src/servepilot/planner/gpu_groups.py:99-117 | the visits come in strictly increasing lexicographic order, so no set of groups is visited twice |
| Placement.ExhaustiveOptimal | src/servepilot/planner/gpu_groups.py:95-122 | the exhaustive search finds a placement whenever there are enough GPUs; no placement of any shape scores higher, and it is the lexicographically least of those that score as high |
| Placement.PlanAnywhere | src/servepilot/planner/gpu_groups.py:59-75 | without machine boundaries a plan exists if and only if tp times replicas is at most the number of distinct GPUs; the result is canonical, and optimal up to eight GPUs |
| Placement.GreedySound | src/servepilot/planner/gpu_groups.py:124-140 | the greedy path returns as many disjoint groups of the exact size, drawn from the ids |
| Placement.GrowPicksBest | src/servepilot/planner/gpu_groups.py:133-138 | each member a greedy group gains was the best connected of the devices that were still available, lowest id first among equals |
| Placement.CanonicalForm | src/servepilot/planner/gpu_groups.py:75 | sorting groups by smallest member and each group by id keeps the placement and its score |
| Placement.NodeGroupsSound | src/servepilot/planner/gpu_groups.py:77-87 | splitting by machine never fails on a machine and yields every full group of every machine, each inside one machine |
| Placement.InMachinesBound | src/servepilot/planner/gpu_groups.py:77-93 | no placement inside machines has more groups than the machines hold full groups |
| Placement.PlanInsideMachines | src/servepilot/planner/gpu_groups.py:50-93 | planning without cross-node permission succeeds if and only if the machines together hold that many full groups, and then every group is increasing, disjoint from the others and inside one machine |
| Placement.PlanComplete | src/servepilot/planner/gpu_groups.py:68-93 | if any choice of disjoint in-machine groups exists at all, planning succeeds |
| Wiring.WiredPairScore | src/servepilot/schemas/hardware.py:91-124 | with topology, two devices of one machine score what the first edge recorded for them is worth: 100 and one more for each link where NVLink was detected, else what its class is listed with; and 1 if there is no edge |
| Wiring.ClassesOrdered | src/servepilot/schemas/hardware.py:29-38 | every interconnect class is listed, each scoring strictly more than the next |
| Wiring.ForeignPairScore | src/servepilot/planner/gpu_groups.py:32-33 | devices of different machines score nothing |
| Wiring.BlindPairScore | src/servepilot/planner/gpu_groups.py:34-37 | without topology neighbours score 7, each step further apart one less, and never less than 1 |
| Wiring.GroupScoreExact | src/servepilot/planner/gpu_groups.py:43-44 | every pair of a group counts once, in whatever order the devices are given |
| Wiring.GrowRaisesMost | src/servepilot/planner/gpu_groups.py:133-138 | the greedy path adds the free device that raises the score of the group most, lowest id first among equals |
| Wiring.SeedMissedMost | src/servepilot/planner/gpu_groups.py:129-132 | the greedy path starts a group with the device without which the others would score least, lowest id first among equals |
| Wiring.NvLinkedGroupsFound | src/servepilot/planner/gpu_groups.py:1-9 | up to eight devices with evenly linked NVLinks: if the groups asked for can be formed of NVLinked devices only, the plan forms such groups |
| MachineByMachine.AllGroupsBest | src/servepilot/planner/gpu_groups.py:77-93 | asked for all the groups that fit on several small machines, the plan is at least as well connected as any other placement inside machines |
| MachineByMachine.FewerMissTheBest | src/servepilot/planner/gpu_groups.py:77-93 | asked for some but not all of them, there is a pair of devices such that, if it alone is linked, a better placement exists than the one returned |
| MachineByMachine.PerMachineExact | src/servepilot/planner/gpu_groups.py:77-93 | the plan over several small machines is the best connected one whatever the wiring if and only if all the groups that fit are asked for, or none |
| Planner.GPUGroupPlanner.PairScore | src/servepilot/planner/gpu_groups.py:29-41 | the memoised score is the score of the pair, which the wiring theorems are about, whatever was cached before, in either order of arguments, and the cache stays right |
| Planner.GPUGroupPlanner.GroupScore | src/servepilot/planner/gpu_groups.py:43-44 | the sum over all pairs of the sorted group |
| Planner.GPUGroupPlanner.PartitionScore | src/servepilot/planner/gpu_groups.py:46-47 | the sum over the groups |
| Planner.GPUGroupPlanner.Recurse | src/servepilot/planner/gpu_groups.py:99-117 | the recursion over shared best variables equals keeping the first of the highest score over the whole enumeration |
| Planner.GPUGroupPlanner.ExhaustiveSearch | src/servepilot/planner/gpu_groups.py:95-122 | the search is the specified one, which the optimality theorem is about |
| Planner.GPUGroupPlanner.PickSeed | src/servepilot/planner/gpu_groups.py:129-132 | the seed is the remaining device best connected to the others, lowest id among equals |
| Planner.GPUGroupPlanner.PickNext | src/servepilot/planner/gpu_groups.py:136 | the next member is the remaining device best connected to the group |
| Planner.GPUGroupPlanner.GreedySearch | src/servepilot/planner/gpu_groups.py:124-140 | the loops compute the specified greedy placement |
| Planner.GPUGroupPlanner.PlanGroups | src/servepilot/planner/gpu_groups.py:50-75 | the planner returns, or refuses with, exactly what the plan specification says |
| Planner.GPUGroupPlanner.PlanNodeByNode | src/servepilot/planner/gpu_groups.py:77-93 | the per-machine loop computes the specified split, or refuses when too few groups fit |
| Verifier.JudgementUnique | src/servepilot/optimization/verifier.py:69-145 | the judgement relation fixes every field of a decision but its reasons, which the decision method fixes |
| Verifier.JudgementOrderFree | src/servepilot/optimization/verifier.py:69-145 | reporting the same measurements in any other order changes no judgement |
| Verifier.DeterministicVerifier.Decide | src/servepilot/optimization/verifier.py:69-145 | eligible if and only if correctness covers every case and mode and every fixed level has exactly the required valid repetitions and some level is a capacity point; the recommended level has the best worst trial, ties to the lower level; the maximum is the highest capacity point; acceptance is judged against the incumbent; and the reasons given are exactly those there are |
| Verifier.DeterministicVerifier.CheckCorrectness | src/servepilot/optimization/verifier.py:79-94 | no reason if and only if the fixed suite passed with every case in every required mode |
| Verifier.DeterministicVerifier.CollectInvalid | src/servepilot/optimization/verifier.py:97-99 | no reason if and only if every measurement is valid evidence |
| Verifier.DeterministicVerifier.Examine | src/servepilot/optimization/verifier.py:109-121 | a level has no violation if and only if no trial has one, and its utility is that of the worst trial |
| Verifier.DeterministicVerifier.FindCapacity | src/servepilot/optimization/verifier.py:107-123 | exactly the capacity points, each with the utility of its worst trial |
| Verifier.DeterministicVerifier.PickLevels | src/servepilot/optimization/verifier.py:128-143 | the argument of the maximum with ties to the lower level, and the highest level |
| Objectives.ValidMeansClean | src/servepilot/optimization/verifier.py:31-51 | a measurement is valid evidence if and only if seed, streaming and sample count are the fixed ones, every request was made and succeeded, and every metric reported is a positive number |
| Objectives.CoverageMeans | src/servepilot/optimization/verifier.py:79-94 | correctness is covered if and only if the fixed suite was observed, nothing observed failed, and every case was observed in every mode asked for |
| Objectives.CapacityMeans | src/servepilot/optimization/verifier.py:107-123 | a level is a capacity point if and only if it was measured and every trial keeps each bound of the SLO and the throughput floor, and lets the objective be worked out |
| Objectives.ThroughputVerdict | src/servepilot/optimization/verifier.py:53-56 | under throughput, the score is the throughput of the recommended level in its slowest trial, which no other capacity point exceeds, nor equals at a lower level |
| Objectives.LatencyVerdict | src/servepilot/optimization/verifier.py:57-61 | under latency, the score is one over the worst p95 time to first token of the recommended level, which no other capacity point undercuts, nor equals at a lower level |
| Objectives.BalancedVerdict | src/servepilot/optimization/verifier.py:62-67 | under the balanced objective with a rising root, the score is the root of the least gain at the recommended level, which no other capacity point exceeds, nor equals at a lower level |
| Objectives.GainMonotone | src/servepilot/optimization/verifier.py:62-67 | the gain rises with throughput and falls with the time to first token |
| Objectives.BaselineGain | src/servepilot/optimization/verifier.py:62-67 | the baseline gains exactly one on itself if and only if its throughput is not below the floor it is divided by |
| Search.OnlyTellingResultsCount | src/servepilot/optimization/loop.py:119-138 | interrupted and failed experiments leave no trace in best, baseline, baseline metric or reference |
| Search.BestDominates | src/servepilot/optimization/loop.py:119-123 | after any properly judged history the best has the largest accepted score, and no eligible result that was turned down reaches the required improvement over it |
| Search.AcceptedScoresCompound | src/servepilot/optimization/verifier.py:130-134 | the k-th further accepted score is at least the first one raised k times by the minimum improvement |
| Search.ImprovementFactor | src/servepilot/optimization/verifier.py:131-134 | improving by a fraction of a positive score is multiplying the score by one plus it |
| Search.BestIsDeployable | src/servepilot/optimization/schemas.py:249-259 | the recipe validator accepts the best result of every properly judged history |
| Lessons.BaselineIsFirst | src/servepilot/optimization/loop.py:132-138 | the baseline is the first result tried in full with clean measurements, and the metric its first measurement; there is one if and only if there is such a result |
| Lessons.ReferenceIsFirst | src/servepilot/optimization/loop.py:125-131 | the reference outputs come from the first result that passed the suite, if any did |
| Lessons.ReferencesMean | src/servepilot/optimization/loop.py:125-131 | the reference output of a case is the last one recorded under its name |
| Lessons.BestIsLatest | src/servepilot/optimization/loop.py:119-123 | the best is the last accepted result, if any was accepted |
| Journal.ChainGrows | src/servepilot/optimization/store.py:110-119 | a longer chain validates exactly when the shorter one does and the new line is one that append could have written |
| Journal.TipDeterminesJournal | src/servepilot/optimization/store.py:107-119 | with an injective digest, two journals that validate and end in the same digest are the same journal |
| Journal.EditNoticed | src/servepilot/optimization/store.py:110-119 | rewriting one line is noticed, except rewriting the last line into another record append could have written there |
| Journal.TruncationUnnoticed | src/servepilot/optimization/store.py:103-122 | dropping any number of the newest records leaves a journal that validates |
| Journal.IdsAreSequential | src/servepilot/optimization/store.py:139-146 | start ids are exactly 1..k in order, finish ids exactly 1..m in order |
| Journal.AtMostOnePending | src/servepilot/optimization/store.py:196-203 | at most one started experiment is unfinished |
| RunDirectory.ActionKeeps | src/servepilot/optimization/store.py:124-213 | each atomic write the controller may make, from any directory that satisfies the invariant, keeps it and loses nothing already written |
| RunDirectory.CrashSafety | src/servepilot/optimization/store.py:103-203 | cut any run of controllers after any number of writes: the journal validates and extends the old one, ids are consecutive with at most one pending, results already recorded are unchanged, and the best is still the best |
| RunDirectory.HistoryGrows | src/servepilot/optimization/store.py:178-194 | the recorded results before a run are a prefix of those after it |
| RunDirectory.RecordedIds | src/servepilot/optimization/store.py:178-194 | the recorded results are those of experiments 1, 2, 3, and so on, one for each finish record |
| RunDirectory.StartedOnce | src/servepilot/optimization/store.py:156-162 | every experiment up to the last started one has exactly one start record |
| RunDirectory.FinishedUpTo | src/servepilot/optimization/store.py:163-166 | exactly the experiments up to the last finished one are finished |
| RunDirectory.ScoresCompound | src/servepilot/optimization/loop.py:267-269 | accepted scores compound along the records of any run with any number of resumptions |
| RunDirectory.DurableBestDeployable | src/servepilot/optimization/schemas.py:249-259 | the best result of any directory a run may leave behind passes the recipe validator |
| RunDirectory.WedgePersists | src/servepilot/optimization/loop.py:355-365 | if a controller dies between writing a turn transcript and journalling it, no controller ever records another turn unless an agent reproduces that transcript exactly |
| RunDirectory.EmptyIsDurable | src/servepilot/optimization/store.py:103-106 | an empty directory satisfies the invariant |
| Store.ExperimentStore.Events | src/servepilot/optimization/store.py:103-122 | the records, if and only if the chain validates; otherwise the history is refused as corrupt |
| Store.ExperimentStore.Append | src/servepilot/optimization/store.py:124-137 | one atomic write adds one correctly linked record, or nothing |
| Store.ExperimentStore.Begin | src/servepilot/optimization/store.py:139-146 | a start record under the highest id so far plus one |
| Store.ExperimentStore.Finish | src/servepilot/optimization/store.py:153-176 | each refusal in its order, with nothing written; otherwise result file, then record, with the states a crash before, between and after leaves |
| Store.RefusalExact | src/servepilot/optimization/store.py:153-172 | a result is taken if and only if the journal is intact, started that experiment once, with the same proposal, and has not finished it, and no other contents lie in its file |
| Store.ExperimentStore.Results | src/servepilot/optimization/store.py:178-194 | the recorded results, each vouched for by its journal record, or a refusal if the chain or any result file is not intact |
| Integrity.RecordedExact | src/servepilot/optimization/store.py:178-194 | reading succeeds with exactly one result for each finish record, in order, each from a file with the recorded digest that decodes to a result of that experiment |
| Integrity.TamperingNoticed | src/servepilot/optimization/store.py:187-190 | with an injective digest, whatever is done to the result files: if that of a recorded experiment is altered or gone reading is refused, and otherwise it reads the same |
| Integrity.FileEditNoticed | src/servepilot/optimization/store.py:187-190 | replacing or removing the file of a recorded experiment makes reading fail, and changing any other file changes nothing |
| Store.ExperimentStore.Pending | src/servepilot/optimization/store.py:196-203 | the start records that have no finish record |
| Store.ExperimentStore.Artifact | src/servepilot/optimization/store.py:205-213 | refuses to overwrite different content, otherwise one atomic write |
| Store.PendingIsLast | src/servepilot/optimization/store.py:196-203 | in a well-ordered journal the pending list is empty or is exactly the last start record |
| Store.HighestIsCount | src/servepilot/optimization/store.py:140-141 | the highest started id is the number of starts |
| Experiment.OwedIsWellJudged | src/servepilot/optimization/loop.py:205-264 | on every exception, deadline, cancellation and cleanup path the result owed is eligible only with passed correctness and a verdict that follows from its evidence, and accepted only if cleanup did not fail |
| Experiment.AssembledIsOwed | src/servepilot/optimization/loop.py:205-258 | the status, decision and error assembled from any ending and any cleanup are the ones owed |
| Experiment.SweepLength | src/servepilot/optimization/loop.py:169-189 | a sweep that completes has measured every level the required number of times |
| Lessons.SweepRan | src/servepilot/optimization/loop.py:169-189 | a sweep runs the planned trials, level after level and repetition after repetition, up to the first that does not complete, and measures exactly those before it |
| Lessons.EvidenceMeans | src/servepilot/optimization/loop.py:155-189 | no correctness result unless the runtime opened and the checks ran, no measurement unless they passed, and then the planned trials as far as they completed |
| Lessons.FateMeans | src/servepilot/optimization/loop.py:205-277 | an evaluation is refused, cut off, unclean or returns if and only if, in turn: the proposal is not valid; cleaning up is cancelled; it fails; the operation was cancelled unasked, at any of its awaits; or none of these |
| Experiment.ProvisionalConfirmed | src/servepilot/optimization/loop.py:190-193 | setting the baseline metric before the verdict leads to the same state as setting it with the result |
| Experiment.StateFollows | src/servepilot/optimization/loop.py:259-269 | memory after an evaluation is the fold over the longer history |
| Experiment.FinishExperiment | src/servepilot/optimization/loop.py:247-259 | the owed result of the experiment under way is never refused, and each step of its commit is a permitted write |
| Experiment.PendingResult | src/servepilot/optimization/loop.py:96-118 | recovery has a result it may record for the one pending experiment: the file on disk if there is one, an interruption otherwise |
| Experiment.ResumeEquivalence | src/servepilot/optimization/loop.py:96-123 | a result that had reached the disk counts as if the controller had lived to journal it, and any other pending experiment leaves the search state untouched |
| Experiment.TurnStep | src/servepilot/optimization/loop.py:356-365 | saving a fresh transcript and journalling it are permitted writes |
| Optimizer.Optimizer.Recover | src/servepilot/optimization/loop.py:96-123 | recovery never raises on a directory a run may have left, ends with nothing pending, keeps a result already on disk, and sets the memory to the fold over the records |
| Optimizer.Optimizer.FinishPending | src/servepilot/optimization/loop.py:97-118 | every pending experiment is finished, with the result on disk where there is one |
| Optimizer.Optimizer.RememberReference | src/servepilot/optimization/loop.py:125-138 | first passed correctness and first full measurement are kept |
| Optimizer.Optimizer.Measure | src/servepilot/optimization/loop.py:155-203 | what was measured, the verdict and the provisional baseline metric, for every point at which the measurement may end |
| Optimizer.Optimizer.RunSweep | src/servepilot/optimization/loop.py:169-189 | levels and repetitions in order up to the first trial that does not complete, each saved, and never refused as already saved |
| Optimizer.Optimizer.Evaluate | src/servepilot/optimization/loop.py:140-277 | whichever way it ends: only permitted writes, the owed result recorded once, which of refusal, cleanup failure, cancellation before or after recording and return it is, memory equal to the fold when it returns, and best untouched when it does not |
| Optimizer.Optimizer.Conclude | src/servepilot/optimization/loop.py:243-277 | commit, then memory, then acceptance; a cleanup failure aborts after the record is written |
| Optimizer.CancelledNamesOldBest | src/servepilot/optimization/loop.py:265-269 | the best that was in memory before an evaluation was cut short has the id of the recorded best if and only if the result recorded by that evaluation was not accepted |
| Optimizer.Optimizer.WindUp | src/servepilot/optimization/loop.py:416-440 | the records added are the error, if the search raised, and the reason with the best known to the memory, if closing the backend succeeds; what is answered follows from how the search and the closing went; when the search raised or was cancelled, the best named is the recorded best if and only if no accepted result was cut short after being recorded |
| Cancellation.AcceptedAndCutShort | src/servepilot/optimization/loop.py:191-203 | an accepted result and a cancellation do occur together: a first experiment that qualifies, cancelled while its profile is captured |
| Cancellation.CancelledRun | src/servepilot/optimization/loop.py:371-440 | a whole run on a new directory that records one accepted result, which is then the best, and whose last record is a closing record naming no best |
| Optimizer.Optimizer.Propose | src/servepilot/optimization/loop.py:355-366 | a turn is refused if and only if a different transcript already has its number; otherwise it ends the way the agent did, returns what was submitted, is journalled and changes no result |
| Optimizer.Optimizer.TryBaselines | src/servepilot/optimization/loop.py:379-386 | the results recorded are those owed to the first baselines, in order, each tried while the search was not halted and no baseline was measured; it stops at the first of these conditions, at the end of the list, or at the first evaluation that does not return |
| Optimizer.Optimizer.Search | src/servepilot/optimization/loop.py:379-416 | baselines only where none is measured, exploring only if they came to their regular end, and a requested stop as the reason of a search that ends regularly |
| Optimizer.TrailingNext | src/servepilot/optimization/loop.py:408-415 | a turn without a proposal makes one more in a row, a proposal none, and the third in a row is the first time there are three |
| Optimizer.Optimizer.Explore | src/servepilot/optimization/loop.py:386-415 | the results recorded are those owed to the proposals of the rounds played, in order; exploring stops at, and only at, the third turn in a row without a proposal, a plateau, the deadline or a stop, or the first turn or evaluation that does not come to its regular end, each with its own reason or error |
| Optimizer.Optimizer.Run | src/servepilot/optimization/loop.py:371-440 | on any directory a run may have left, however it ends: only permitted writes; the results recorded are those recovered, then those of the baselines if none was measured, then those of the rounds; the answer follows from how that went, with a requested stop as the reason if there was one; what is returned is what the records say; and the last record of a run that raises or is cancelled names an older best exactly when an accepted result was cut short |
| Semaphore.OperationsConserve | src/servepilot/runtime/router.py:114-127 | each semaphore operation accounts for exactly the permit it moves; permits go out in order of arrival and no wake-up is lost |
| Routing.SelectExact | src/servepilot/runtime/router.py:104-110 | selection picks a routable, healthy, not excluded replica, least busy under that policy, and fails only if there is none |
| Routing.Pick | src/servepilot/runtime/policies.py:30-51 | the pick is a candidate, and under the least-inflight policy none has fewer requests in flight |
| Rotation.EachOnce | src/servepilot/runtime/policies.py:30-57 | with the candidates unchanged, as many picks in a row as the policy turns among take each of them exactly once: all candidates under round robin, those with the fewest requests under least-inflight |
| Ledger.NeverClamped | src/servepilot/runtime/router.py:143-154 | wherever an in-flight count is decremented it is at least one, so the clamp at zero never acts |
| Ledger.AdmitBooks | src/servepilot/runtime/router.py:129-132 | a new lease keeps every counter balanced |
| Ledger.MoveBooks | src/servepilot/runtime/router.py:141-151 | a reroute keeps every counter balanced, the abandoned replica charged |
| Ledger.FinishBooks | src/servepilot/runtime/router.py:153-161 | a release keeps every counter balanced, on the replica state the lease points at even after its removal |
| Ledger.AddBooks | src/servepilot/runtime/router.py:54-64 | re-adding an id starts a replica state with clean books and leaves the old one balanced |
| Serving.LedgerStep | src/servepilot/runtime/router.py:54-161 | every step of the protocol keeps, for each replica state ever created, in-flight equal to the live leases on it, failures to the charges and requests to the attempts, and the totals equal to the sums plus reroutes |
| Serving.PermitsStep | src/servepilot/runtime/router.py:112-132 | every step keeps free permits plus permits handed out plus live leases equal to the limit, the queue exact and within its bound |
| Serving.RunKeeps | src/servepilot/runtime/router.py:54-161 | any interleaving of requests, failures and replica changes keeps journeys, books and permits |
| Serving.InitialInvariant | src/servepilot/runtime/router.py:34-51 | a new router satisfies the invariant |
| Serving.Quiescence | src/servepilot/runtime/router.py:153-161 | when every request is over no replica is left busy and every permit is free |
| Serving.FinishedRequest | src/servepilot/api/proxy.py:95-218 | at most two attempts on different ids, exactly one release if leased, one charge for each transport error, discarded 5xx or mid-stream drop and none otherwise, and exactly one cleanup, by the response if one was handed to the client and by the handler if not, on every exit path |
| Serving.AttemptsAreEarned | src/servepilot/api/proxy.py:104-129 | an attempt is made only on a replica healthy and routable at that moment, only for the request that moves, and never after a response was accepted |
| Retrying.RetriedExactly | src/servepilot/api/proxy.py:104-129 | after a transport error or a cleanly discarded 5xx, a request goes on to a second attempt if and only if that was its first and some other routable replica is healthy; otherwise it is over with that error |
| Retrying.OtherwiseNotRetried | src/servepilot/api/proxy.py:104-129 | no attempt that ends in any other way is followed by another |
| Retrying.ArrivalExactly | src/servepilot/runtime/router.py:112-132 | an arriving request with a permit to be had is leased if and only if some routable replica is healthy; without one it waits if the queue has room and is rejected if not |
| Retrying.GrantExactly | src/servepilot/runtime/router.py:119-132 | a waiter handed a permit is leased if and only if some routable replica is healthy |
| Retrying.SingleFailureHadNoOther | src/servepilot/api/proxy.py:95-129 | over any run, a request that ended after one attempt that failed before any response found no other healthy routable replica at the moment it failed |
| Retrying.AnsweredExactly | src/servepilot/api/proxy.py:171-214 | the client is given a response if and only if the replica answers below 500 and one can be built from that |
| Retrying.ServedToTheEnd | src/servepilot/api/proxy.py:144-218 | from the answer to the end: judged by how the stream ended, the replica released once and charged exactly if it dropped the stream, the permit given back |
| Serving.DiscardDecidesCharge | src/servepilot/api/proxy.py:119-122 | a 5xx attempt is charged if and only if closing its response neither raises nor is cancelled |
| Serving.LimitChangeConserves | src/servepilot/runtime/router.py:91-93 | replacing the semaphore keeps permits conserved if and only if nothing waits and, under a new limit, nothing is leased |
| Serving.LimitChangeStrands | src/servepilot/runtime/router.py:91-93 | replacing the semaphore while no waiter has been handed a permit leaves every waiting request unknown to the new one, and the old one never lets any of them resume, in whatever order they are cancelled |
| Serving.StrandedStays | src/servepilot/runtime/router.py:119-127 | no step but its own cancellation moves a waiting request that the semaphore in use does not know |
| Serving.LimitChangeStrandsForever | src/servepilot/runtime/router.py:91-93 | after such a change every request that was waiting still waits at the end of any run that does not cancel it |
| Semaphore.RetiredServesItsUnits | src/servepilot/runtime/router.py:114-127 | a replaced semaphore, which nobody releases any more, lets exactly as many of its waiters resume as it has permits, free or handed out, or all of them if there are fewer |
| Proxy.StepKeeps | src/servepilot/api/proxy.py:95-218 | every step keeps every request on a proper journey, in which the hand-over flag decides which of the two cleanup sites acts and the other does nothing |
| Router.ReplicaRouter.AddReplica | src/servepilot/runtime/router.py:54-64 | a new state under the id, replacing an entry in place |
| Router.ReplicaRouter.RemoveReplica | src/servepilot/runtime/router.py:66-67 | the entry goes, the state it pointed at stays as it was |
| Router.ReplicaRouter.SetStatus | src/servepilot/runtime/router.py:69-75 | status and error of a routable replica, nothing for an unknown id |
| Router.ReplicaRouter.Select | src/servepilot/runtime/router.py:104-110 | the selection of the specification, with the policy counter it leaves |
| Router.ReplicaRouter.Choose | src/servepilot/runtime/policies.py:30-51 | the policy choice of the specification |
| Router.ReplicaRouter.LeastBusy | src/servepilot/runtime/policies.py:35 | the least in-flight count |
| Router.ReplicaRouter.Acquire | src/servepilot/runtime/router.py:112-132 | up to the first suspension: refused, queued, or a permit taken and a lease or the permit given back |
| Router.ReplicaRouter.ResumeAcquire | src/servepilot/runtime/router.py:119-132 | a granted waiter leaves the queue and gets a lease, or gives its permit back |
| Router.ReplicaRouter.CancelAcquire | src/servepilot/runtime/router.py:119-122 | a cancelled waiter leaves the queue and returns a permit it was handed |
| Router.ReplicaRouter.Reroute | src/servepilot/runtime/router.py:134-151 | the lease moves and the abandoned replica is charged, or the lease is left untouched |
| Router.ReplicaRouter.Release | src/servepilot/runtime/router.py:153-161 | slot, failure, router total and permit of one lease |
| Router.ReplicaRouter.SetMaxConcurrency | src/servepilot/runtime/router.py:91-93 | the semaphore is replaced and nothing else changes |
| HealthChecks.RespondStaysInBudget | src/servepilot/runtime/health.py:148-159 | a restart is granted only if the full history, not just what is remembered, stays within the budget |
| HealthChecks.RestartBudget | src/servepilot/runtime/health.py:92-180 | over any run, any stretch of time of the window length holds at most the allowed restarts of one replica, and no two restarts of one replica are under way at once |
| Supervision.RestartedExactly | src/servepilot/runtime/health.py:148-163 | a death leads to a restart if and only if restarts are enabled and fewer than the allowed number of all restarts so far lie within the window |
| Supervision.ScanExactly | src/servepilot/runtime/health.py:92-108 | a scan restarts a dead replica if and only if its budget allows and stops it for good if not, probes a live one, and leaves alone one being restarted, unknown to the router or stopped |
| Supervision.ProbedOnce | src/servepilot/runtime/health.py:92-108 | a scan probes exactly the replicas it found alive and was to look at, each once |
| Supervision.SettleExactly | src/servepilot/runtime/health.py:109-127 | the answers of a round of probes each reach the replica that was probed, once, and change no other |
| Supervision.StoppedOnlyWhenSpent | src/servepilot/runtime/health.py:148-159 | over any run, a replica stands stopped only if the scan that stopped it found restarts disabled or the window full |
| Supervision.ProbesExact | src/servepilot/runtime/health.py:109-127 | a healthy replica is unhealthy after a row of probes if and only if the configured number of them, and at least one, failed since the last success |
| Supervision.FailedRestartFoundAgain | src/servepilot/runtime/replicas.py:199-252 | over any run, a restart that ends before its replacement is ready leaves the replica to be found dead again by the next scan, if and only if it was not broken off between forgetting the old router entry and making the new one |
| Supervision.RestartComesOff | src/servepilot/runtime/replicas.py:199-252 | a restart all of whose awaits go well ends with the replica running, healthy and not being restarted |
| HealthChecks.RestartingIsDead | src/servepilot/runtime/health.py:141-180 | while a restart is under way and the replacement has not passed readiness, the replica is not healthy |
| HealthChecks.DeadStaysOut | src/servepilot/runtime/health.py:92-180 | over any run from a started fleet, a replica found dead is neither running nor healthy until its replacement passes readiness |
| Deployment.StepKeeps | src/servepilot/runtime/health.py:92-180 | whatever is served or decided next, the router knows of each replica exactly the status the checker decided and of no other replica, and the books and permits of the requests stay in order |
| Deployment.InitialJoined | src/servepilot/runtime/supervisor.py:170-190 | replicas that have just come up, known to the router as healthy, are where the theorem below starts |
| Deployment.DeadNeverLeased | src/servepilot/runtime/health.py:92-180 | over any run of deaths, probes, restarts and requests, a request only gets a lease on a replica held to be healthy, never on one found dead and not yet replaced |
| HealthChecks.StepKeeps | src/servepilot/runtime/health.py:92-180 | probing, deaths and restarts, interleaved, keep budgets, tasks and dead replicas unroutable |
| HealthChecks.OnlyReadinessRevives | src/servepilot/runtime/replicas.py:238-252 | a replica found dead counts as dead until a replacement passes its readiness check |
| HealthChecks.HealthChecker.HandleDead | src/servepilot/runtime/health.py:141-163 | the pruned times, the position, the restart task and the router status that the budget calls for, for this replica only |
| Replicas.ReplicaSet.LaunchOne | src/servepilot/runtime/replicas.py:126-160 | by its outcome: a serving replica on its own port, or no process running that can be killed |
| Replicas.ReplicaSet.Start | src/servepilot/runtime/replicas.py:162-180 | all or nothing: every position serving in order on a distinct reserved port, or every launched process terminated, every port released and nothing healthy |
| Startup.StepKeeps | src/servepilot/runtime/replicas.py:126-197 | with the launches interleaved and others using the same allocator: ports reserved once and apart, one process for each launch, a healthy entry exactly for the launches that serve |
| Startup.AllOrNothing | src/servepilot/runtime/replicas.py:162-180 | for every interleaving of the launches and every outcome of each, a start that is not cancelled ends with all replicas serving on distinct reserved ports or with nothing running, routed to or reserved |
| Startup.LaunchExactly | src/servepilot/runtime/replicas.py:126-160 | each await of a launch ends it or carries it on: failing to begin exactly when no port is to be had, going on with a process of its own if that starts, serving if it becomes ready and terminated if not |
| Startup.SucceedsExactly | src/servepilot/runtime/replicas.py:162-180 | a start that is not cancelled succeeds if and only if no launch failed |
| Startup.CleanLeaves | src/servepilot/runtime/replicas.py:178-197 | cleaning up leaves nothing behind if and only if every launch has failed, was never made, or is among the replicas listed |
| Startup.CancelLeaves | src/servepilot/runtime/replicas.py:165-180 | a start cancelled during its first launch or while gathering the others leaves something behind if and only if a launch was being terminated or another replica already served |
| Startup.OrphanComesUp | src/servepilot/runtime/replicas.py:167-180 | a start cancelled in the pause between two launches does not cancel those under way: each can come up, running and routed to, after its port was given back |
| Replicas.ReplicaSet.Stop | src/servepilot/runtime/replicas.py:182-197 | processes terminated but for those that outlive it, entries gone, ports back, and the answer is yes if and only if no process of a listed replica still runs |
| Replicas.ReplicaSet.RestartReplica | src/servepilot/runtime/replicas.py:199-252 | by its outcome: replaced in place on the same port, or unhealthy with the old replica kept; the new entry counts one restart more |
| Replicas.RestartTracks | src/servepilot/runtime/replicas.py:234-252 | a restart loses track of a running process that can be killed if and only if waiting for readiness raises or is cancelled |
| Replicas.RestartCounted | src/servepilot/runtime/replicas.py:209-233 | however a restart ends, the entry counts one restart more, and no other entry changes |
| Replicas.PartlyNext | src/servepilot/runtime/replicas.py:162-176 | after each launch, those that came up serve and nothing else runs |
| Ports.ProbeNearest | src/servepilot/runtime/ports.py:47-57 | probing finds the nearest available port at or after the cursor in cyclic order |
| Ports.AllocationComplete | src/servepilot/runtime/ports.py:47-61 | allocation fails if and only if every port of the range is reserved or busy |
| Ports.PortAllocator.Allocate | src/servepilot/runtime/ports.py:47-61 | reserves the port the probe finds and moves the cursor past it |
| Ports.PortAllocator.AllocateMany | src/servepilot/runtime/ports.py:63-65 | distinct new ports; on failure those already taken stay reserved |
| Ports.PortAllocator.Release | src/servepilot/runtime/ports.py:67-69 | the port is no longer reserved |
| Ports.PortAllocator.ReleaseAll | src/servepilot/runtime/ports.py:71-73 | no port is reserved any more |
| Scoring.PoolExact | src/servepilot/planner/scoring.py:244-249 | the pool holds the valid points that meet the SLO if there are any, and all valid points otherwise |
| OperatingPoint.ChoiceOpen | src/servepilot/planner/scoring.py:230-249 | there is a choice if and only if some point is usable, and it keeps every bound of the SLO if any usable point does |
| Scoring.PlateauLoss | src/servepilot/planner/scoring.py:263-281 | no point of the pool beats the chosen one by more than the plateau allowance, for sweeps of any length |
| OperatingPoint.PassedOver | src/servepilot/planner/scoring.py:263-281 | a heavier load is passed over if and only if it has no more throughput, or too little more while its p95 latency is too much higher |
| OperatingPoint.WalkStops | src/servepilot/planner/scoring.py:263-281 | where the walk ends, no heavier load is worth moving to, and it was worth moving there |
| Scoring.NoWorseThanLightest | src/servepilot/planner/scoring.py:244-281 | walking upward from the lightest eligible load never ends at lower throughput than it |
| Scoring.ChoiceSound | src/servepilot/planner/scoring.py:230-281 | a choice exists if and only if a point is valid; it is valid, and meets the SLO if any valid point does |
| Scoring.LatencyChoice | src/servepilot/planner/scoring.py:251-261 | under a latency SLO the highest load that meets it, otherwise the lowest p95 latency |
| Scoring.ChooseConcurrency | src/servepilot/planner/scoring.py:230-281 | the method makes the specified choice |
| Scoring.FrontExact | src/servepilot/planner/scoring.py:299-316 | a point is on the front if and only if no point dominates it |
| OperatingPoint.FrontMeans | src/servepilot/planner/scoring.py:287-316 | the list has exactly the measurements with a success, and marks exactly those that no other beats on one measure while matching or beating it on the other |
| Scoring.FrontCovers | src/servepilot/planner/scoring.py:299-316 | every point off the front is dominated by one on it, so the front is never empty when there are points |
| Scoring.FrontRises | src/servepilot/planner/scoring.py:316 | along the returned order throughput on the front never falls as latency rises |
| Scoring.ParetoFront | src/servepilot/planner/scoring.py:287-316 | the nested loops compute the specified front |
| Memory.MemorySafety | src/servepilot/planner/memory.py:80-201 | a replica that fits with known sizes and no forced fraction has room for everything it needs, and its budget leaves the safety reserve, at least the headroom share and at least the least headroom, free on every GPU of the group |
| Memory.FractionLeavesReserve | src/servepilot/planner/memory.py:61-71 | the floor-rounded fraction of the total plus the reserve is at most what is free |
| Memory.ReserveExact | src/servepilot/planner/memory.py:57-58 | the reserve is the larger of the headroom share of the device and the least headroom |
| Budget.FractionLargest | src/servepilot/planner/memory.py:61-71 | the computed fraction leaves the reserve, is within the maximum, and no larger number of hundredths within it would leave the reserve |
| Budget.EstimateExact | src/servepilot/planner/memory.py:80-135 | each figure of an estimate: smallest total and free sizes of the group, budget and activations as shares of the total, the shard of the weights with its overhead, the cache per token of a stage, and what the budget leaves for the cache |
| Budget.ConcurrencyExact | src/servepilot/planner/memory.py:142-145 | the tokens the cache holds and the sequences of median and 95th-percentile length among them, as whole quotients |
| Memory.ConcurrencyOrdered | src/servepilot/planner/memory.py:142-145 | the p95 concurrency never exceeds the p50 one, and both fit in the cache |
| Memory.PassesExactly | src/servepilot/planner/pruning.py:43-59 | a candidate fits if and only if the cache has room, a forced fraction does not exceed what is free, and the fraction is not below the minimum; it passes the check if and only if there is room or the weights are unknown, a forced fraction does not exceed what is free, and the fraction is not below the minimum by a byte or more |
| Memory.RoundedFraction | src/servepilot/planner/memory.py:182 | recording a fraction in hundredths moves it by at most half of one, and reaches one exactly from 0.995 on |
| Memory.ForcedClaimExact | src/servepilot/planner/memory.py:162-182 | whatever memory turns out to be free on given devices, every plan then said to fit claims only free memory, if and only if recording the forced fraction in hundredths does not raise what it claims |
| Memory.ForcedClaimMayExceedFree | src/servepilot/planner/memory.py:162-182 | the rounding does overclaim: two 80 GiB devices under the default configuration, of which a forced fraction of 0.506 fits and then claims more than is free |
| Selection.SelectionSound | src/servepilot/planner/candidates.py:53-102 | a selection has increasing ids of existing devices, exactly their entries, all of one kind |
| Selection.SelectionExact | src/servepilot/planner/candidates.py:53-102 | selection fails if and only if there are no devices, one asked for does not exist, or two chosen differ in name or size; otherwise it has exactly the devices asked for, or all, and the wiring between them |
| Selection.MaxReplicasIsCapacity | src/servepilot/planner/candidates.py:212 | the count of replicas the planner asks for is exactly what the machines can hold |
| Selection.PlanNeverRaises | src/servepilot/planner/candidates.py:212-221 | group planning succeeds for every number of replicas up to that count, and only then |
| Candidates.ContextCovered | src/servepilot/planner/candidates.py:105-130 | the resolved context covers the workload if and only if neither the caller nor the model limit shrinks it |
| Offering.ContextExact | src/servepilot/planner/candidates.py:105-130 | the context resolved, and each refusal, by what is wanted, the limit of the model and the override |
| Candidates.Divisors | src/servepilot/planner/pruning.py:12-13 | exactly the divisors |
| Producer.DedupedExact | src/servepilot/planner/pruning.py:62-74 | deduplication keeps exactly one plan of every structure |
| Producer.DedupedFirst | src/servepilot/planner/pruning.py:62-74 | the plan kept of a structure is the first in the list that has it |
| Producer.TpProduced | src/servepilot/planner/candidates.py:205-341 | planning one size fails only when more replicas are asked for than fit, and every plan it yields is laid out, configured and labelled properly |
| Producer.SpreadFacts | src/servepilot/planner/candidates.py:449-450 | a replica spanning machines takes equally many distinct devices from each |
| Offering.SpreadLowest | src/servepilot/planner/candidates.py:449-450 | a replica across machines takes the lowest-numbered devices of each |
| Producer.CrossProduced | src/servepilot/planner/candidates.py:424-554 | every cross-machine plan is laid out, configured and labelled properly |
| Producer.ProducedValidates | src/servepilot/optimization/validation.py:61-123 | a produced plan can only be turned down for its engine, its context, its memory fraction or its arguments |
| Producer.ProducerSatisfiesValidator | src/servepilot/optimization/validation.py:61-123 | every candidate offered, of every kind, passes every check if and only if its engine was prepared, nothing shrank the context, a forced fraction does not round up to one, and no extra argument is the controller's own |
| Producer.GenerateNeverUnplaceable | src/servepilot/planner/candidates.py:212-221 | candidate generation never fails because groups could not be placed |
| Offering.OfferedExactly | src/servepilot/planner/candidates.py:190-384 | a topology is offered if and only if a qualifying combination calls for it: a size dividing the smallest machine, an engine wanted, a variant that applies, supported and within memory, or a replica across machines where one is due; and nothing is offered only if none qualifies |
| Offering.PlanRead | src/servepilot/planner/candidates.py:281-305 | the topology and settings of a candidate inside machines, with its sequence limit as given, by default, or the estimate kept between 16 and 1024 |
| Offering.AcrossPlanRead | src/servepilot/planner/candidates.py:505-526 | the same of a replica across machines, with its backend |
| Validation.AcceptedFits | src/servepilot/optimization/validation.py:67-79 | an accepted plan never shares a device and never needs more devices than there are |
| Acceptance.AcceptedExactly | src/servepilot/optimization/validation.py:61-123 | a proposal passes if and only if its engine was prepared, its groups and prefill fit, every device exists and is named once, the contract is kept, the machines named are those of its devices, and the engine supports it |
| Acceptance.RejectedTruly | src/servepilot/optimization/validation.py:61-123 | a proposal is turned down only for something that is wrong with it |
| Acceptance.NormalizeExact | src/servepilot/optimization/validation.py:110 | the name an argument sets, without leading dashes and up to a = or a dot, with underscores read as dashes |
| Planning.CollectSizes | src/servepilot/planner/candidates.py:204-341 | the loops over sizes, engines and variants yield the specified plans or the first error |
| Planning.CollectAcross | src/servepilot/planner/candidates.py:477-554 | the loops over engines and shapes yield the specified plans |
| Planning.Dedupe | src/servepilot/planner/pruning.py:62-74 | first occurrences apart from the rest, nothing lost |
| Ranking.RankingExact | src/servepilot/planner/candidates.py:557-569 | ranking permutes the deduplicated plans into the order of size, pipeline stages, variant and engine, reversed in size where latency matters, and plans it does not tell apart stay in order |
| Ranking.GenerateRanked | src/servepilot/planner/candidates.py:369-384 | what generation returns is not empty and is in that order |
| Planning.GenerateCandidates | src/servepilot/planner/candidates.py:151-384 | the candidates, ranked, or the first error, are those of the specification |

## Left out

- Floating point: numbers are reals, and a `finite` flag on a measurement stands for NaN and infinity, which the verifier rejects; serialising a measurement that is not finite is not modelled.
- SHA-256 and JSON: an abstract digest and an encoding assumed to round-trip; a journal line either parses or does not.
- The controller lock: the model has one controller at a time on a directory.
- `ExperimentStore.create` and `definition`: the run definition and its checksum are fixed inputs here.
- Wall-clock fields of results: one stamp stands for them, and the tuning deadline is the point at which an operation is said to expire.
- Artifact paths: a key per artifact, so the check that a path stays inside the run directory is not modelled.
- The agent, its tools and materialising proposals: a proposal is an arbitrary input, and a planning turn is how it ends, what it submitted and its transcript.
- An asyncio timeout that fires while the search budget is not yet spent, with a verdict already reached: the result then also carries an error text.
- Exceptions raised by the verifier itself: `decide` is total here.
- Error message texts: reasons and failures are constructors, so only which of them occurs and their order is kept.
- Proxied requests are steps of a protocol rather than coroutines; that the framework runs a response once it is returned is assumed.
- Cancelling a queued request is one step, where the event loop marks the waiter and removes it when that coroutine next resumes.
- Replicas.ReplicaSet.Start: launches the later replicas one after another; their interleaving is the subject of `Startup`, on values.
- Startup.CancelLeaves: about one cancellation; a second one, and one that hits the cleaning up itself, are not covered.
- Launches cancelled while the operating system creates the process: `Startup` takes it that none was created.
- Processes that die on their own or outlive being killed while a start is under way: `Replicas` and `HealthChecks` have these, `Startup` does not.
- Restart back-off delays: how long a restart task sleeps is left open.
- Metrics, headers, request bodies and the rewriting of the model field in the proxy.
- Topology detail: link counts are naturals, and every relationship string without a class scores as unknown.
- Planner.GPUGroupPlanner.PlanNodeByNode: groups devices by machine through a filter per machine instead of one dictionary pass; the groups are the same.
- Scores relative to a result set, `select_best` and the decision to continue a sweep in the scoring module: argument-by-argument formulas.
- `minimum_tp_that_fits` and memory notes and confidence labels: a first match over sizes, and texts.
- Plan ids: a label that no check reads.
- Planning.GenerateCandidates: does not record excluded candidates, warnings and rationale, because nothing decides by them.
- Engine support rules, model profiles and key/value-cache formulas: parameters of the model.
- Remote launch, processes, SSH, Docker, Ray, NVML, the command line, reports and configuration loading.
