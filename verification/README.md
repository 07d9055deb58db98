# Verified models of the rexpolicy control, training and collection loops

This project states, in Dafny, what the stateful parts of the repository do, and proves what they promise. The
simulator, the policy networks and the learners are uninterpreted functions; files are modelled by the two
primitives the programs rely on, exclusive creation (which can be left half-written by a writer that dies) and
atomic replacement. Numbers are exact reals. `dafny verify dfyconfig.toml` checks everything.

## What is modelled

* **RTC action chunking** (`tools/run_newton_groot_rtc_control.py`). `Rounding` has the two rounding rules of the
  file; `SeedStore` the rolling chunk store and its seed window; `RtcFreeze` the option builder, the tensor
  initialisation, the denoising loop and the stored chunk; `ReplanMachine` one simulation frame of the controller as
  a function of its state, and `ReplanController` the controller as an object proved to take exactly those steps.
  `ReplanTheorems`, `ReplanGuarantees` and `ReplanRuns` prove what whole runs keep. `TickArithmetic` is the arithmetic
  of frames of p/q of a control period; with it `ReplanTiming` proves exactly which rates and action horizons keep the
  schedule, `ReplanFrozen` exactly which keep the frozen rows, and `ReplanLiveness` exactly when another row can still
  be executed.
  `HandQuantizer` is the 8-bit hand report and its bisection inverse.
* **Resumable training** (`tools/run_stage0_long.py`, `tools/run_stage0_grasp_lift_no_z.py`). `LongRunCursor`,
  `LongRunTraining` and `LongRunGuarantees` model the four-phase run with its checkpoints, latent cache and warm start
  under any schedule of crashes, pauses and resumes; `NoZTraining` is the one-phase trainer with its heartbeat log and
  status.
* **The one-shot locked test** (`tools/run_stage0_long.py`). `LockedTest` is a transition system of any number of
  attempts on one output directory, interleaved at every file access; `LockedTestProgress` says exactly when an attempt
  that is left alone gets the test done.
* **The flywheel** (`tools/run_flywheel_ddp.py`). `BranchChunks` tries K branches from a root and picks a
  continuation; `FlywheelCollection` collects an episode, archives its path as a recipe and rebuilds roots from it;
  `GenerationGate` and `GenerationGuarantees` are the generation loop with its gate, checkpoints and pointer files;
  `HeldOutSuite` is the sharing out of the evaluation suite over ranks.
* **The one-time validation claim** (`tools/run_stage0_grasp_lift_no_z_selection.py`). `SelectionClaim` is a transition
  system of selection runs that race, raise and die at any operation; `SelectionOutputDirectory` is one run as the
  program performs it, call by call, proved to be a run of that system; `SelectionProgress` is what a run that is left
  alone comes to.
* **Corpora and held-out groups** (`tools/run_stage0_long.py`). `MultimodeCorpus` is the collector;
  `CorpusVerification` and `CorpusQuality` are the structural and the measured half of the verifier, and `CorpusRates` is
  what its success thresholds imply for each other; `ModeGroups` is the held-out group selection and the latent permutation.
* **Rollouts and auto-reset** (`tools/run_rollout_recorder.py`, `rexpolicy/envs/groot_newton_vector_env.py`).
  `Rollout` is the recorder's loop and latching, `AutoReset` the vector wrapper over an environment that overwrites its
  own tensors.

Modules that follow step-by-step code are methods and classes proved equal to a function of the old state; the
properties are proved about that function. Protocols between processes are transition systems over their steps. A few
fields marked "history" record a run (ticks, lineages, evaluations) and are read by no branch.

## What turned out not to hold as intended

* The store, the install and the schedule round a time in different ways. They agree exactly when every control tick
  comes less than half a period late (`ReplanTiming.RoundingsCountTicksIff`); with frames of p/q of a control period, in
  lowest terms, that is p <= q and 2 (p - 1) < q (`ReplanTiming.PromptIff`), so it holds for 1, 2/3, 3/5 and every 1/q,
  and fails for 3/4 and 101/200. Fewer rates execute the row of another tick, because an answer as old as the action
  horizon is dropped: with answers of that many rows an asynchronous controller does so in some run exactly when an
  elapsed count that is not stale goes wrong, a comparison of whole numbers for each distance of up to the action
  horizon (`ReplanTiming.ScheduleKeptIff`). At 101/200 of a period the schedule is kept with 32 rows and lost with 64
  (`TickArithmetic.LimitMatters`). A synchronous controller always executes by count.
* Frozen rows are lost at more rates: a request places them by the store's rounding of whole times, however old the
  epoch is. With an action horizon of two rows or more and frames of at most a period, every controller keeps its frozen
  rows in every run exactly when 2 (p - 1) < q; with longer frames, exactly when the action horizon is at most two rows
  or at most the whole periods of a frame (`ReplanFrozen.FrozenRowsKeptIff`). For any rates
  `ReplanGuarantees.FrozenRowsShift` says which row a frozen row is.
* With a replan horizon above the action horizon the machine stalls for good once a chunk is used up
  (`ReplanRuns.StallsForever`, `ReplanRuns.SynchronousTicks`). An asynchronous machine can also starve: when a frame or a
  period fills the action horizon every answer is stale by the time it arrives, and no row is ever executed, for
  instance with 32 rows and frames of 32 periods (`ReplanLiveness.CanExecuteIff`).
* A target of the hand inverse need not have a least command reaching it, because ties round to even
  (`HandQuantizer.LeastCommandExistsIff`); the inverse is therefore compared with the threshold.
* A complete report of a long run can be lost. A collect-only resume of the finished directory always replaces it, and
  for good if the test had been evaluated (`LockedTest.CollectOnlyLosesTheReport`). Without collect-only launches it
  takes another attempt that is still alive (`LockedTest.OverlappingAttemptsLoseTheReport`);
  `LockedTest.CompleteReportStaysIff` says exactly which attempts can do it. A fresh start cannot: saving its first
  checkpoint is refused.
* A rejected generation stays in its directory and a save never overwrites, so a rejection that was regularly due ends
  the run directory for good; one that was due only as the last generation can be passed by raising the limit
  (`GenerationGuarantees.RejectionIsFinalIff`).
* The first status of a selection run is not written atomically (`SelectionClaim.PartialStatusHappens`, with the exact
  condition in `SelectionClaim.PartialStatusIff`), and a complete status is replaced by "burned" when syncing the
  directory or the final read of that status raises (`SelectionClaim.CompleteIsPermanentIff`).
* A no-z run that is disturbed before its first checkpoint can never complete on that output: a resume finds nothing and
  a fresh start is refused. One that is disturbed between that checkpoint and its first log record can, and its log then
  opens with a resume numbered 1 (`NoZTraining.RunSchedule`).

## Model

| member | source | states |
|---|---|---|
| Rounding.RulesDifferExactlyOnEvenTies | tools/run_newton_groot_rtc_control.py:764-786 | Python's `round` in the store and `floor(x + 0.5)` in the elapsed count give different steps exactly on a tie whose lower neighbour is even |
| HandQuantizer.ReportIsStaircase | tools/run_newton_groot_rtc_control.py:515-562 | the chain of scalings, clips and rounding from a command to its report is a staircase of 256 levels, for every calibrated joint and both byte orientations |
| HandQuantizer.ReportMonotone | tools/run_newton_groot_rtc_control.py:515-562 | a larger command never reports less, for every joint |
| HandQuantizer.LevelThreshold | tools/run_newton_groot_rtc_control.py:523-562 | a command reaches level n exactly when it lies above the half-byte threshold, or on it with the tie rounding up |
| HandQuantizer.LeastCommandExistsIff | tools/run_newton_groot_rtc_control.py:523-562 | a least command reaching a level exists exactly when the level's parity and the byte's orientation make the tie round up |
| HandQuantizer.ReportedHandValueToCommand | tools/run_newton_groot_rtc_control.py:565-586 | eighteen bisection steps give a command such that nothing more than range/2^19 below it reaches the clipped target, everything that far above it does, and its own report is within one quantum of the target |
| HandQuantizer.InverseTracksThreshold | tools/run_newton_groot_rtc_control.py:565-586 | any such command is within range/2^19 of the threshold of the first level that reaches the target |
| HandQuantizer.ReportedHandToCommand | tools/run_newton_groot_rtc_control.py:589-595 | inverting a whole hand and commanding it at once makes every joint report within one quantum of its target; missing entries count as zero |
| SeedStore.TeleopRtcSeedManager.Push | tools/run_newton_groot_rtc_control.py:783-797 | a push fixes the epoch once, places the chunk at its rounded step and keeps the newest chunks only |
| SeedStore.TeleopRtcSeedManager.SeedWindow | tools/run_newton_groot_rtc_control.py:799-841 | the step-indexed table and its walk give the direct definition: the newest retained row covering each step of the longest covered run, padded with the last one; it leaves the store as it was |
| SeedStore.WindowRows | tools/run_newton_groot_rtc_control.py:799-841 | a window carries the time and frame it was asked for and starts at that time's step; every table is exactly `horizon` long, covers the longest covered run, and each row is read off the newest covering chunk |
| SeedStore.WindowCases | tools/run_newton_groot_rtc_control.py:799-841 | which answer a store gives: nothing stored; no window exactly when no retained chunk has a row for the first step in every table; an error exactly when a configured key of the first covered row is missing from a later one; otherwise a window with exactly the configured keys of the first row |
| SeedStore.RetainedAreNewest | tools/run_newton_groot_rtc_control.py:783-797 | after any sequence of pushes the store holds exactly the newest `max_chunks` chunks, measured from the first push |
| SeedStore.EvictionInvisible | tools/run_newton_groot_rtc_control.py:788-841 | evicting old chunks changes no row of a step that a retained chunk covers |
| RtcFreeze.RtcOptions | tools/run_newton_groot_rtc_control.py:844-891 | options exist only with a previous action, and then overlap, start and frozen count fit inside it and the overlap limit |
| RtcFreeze.AnchoredNow | tools/run_newton_groot_rtc_control.py:844-891 | for a seed anchored at the present: exactly when there are options, and that they start at row 0, overlap as far as the limit and the previous action allow and freeze no more than asked |
| RtcFreeze.OptionsCover | tools/run_newton_groot_rtc_control.py:844-891 | for any start of the previous action: there are options exactly when guidance is on and a row is left after the nearest whole number of elapsed steps; they start there, the overlap is as long as the limit and the remaining rows allow, and the frozen count as large as asked and as the overlap allows |
| RtcFreeze.InitialActions | tools/run_newton_groot_rtc_control.py:917-968 | in-place: overlap slots take the previous action's rows, frozen slots get strength 0, the ramp in between, everything else unchanged; missing options are the only error |
| RtcFreeze.GetActionWithRtc | tools/run_newton_groot_rtc_control.py:971-1032 | the result is the last of a sequence of tensors, one more than inference steps: the first holds the previous action's rows in the covered slots and the given noise elsewhere, and each next one adds the network's velocity at that step and tensor, times the step size and the slot's weight, which is 0 in frozen slots, the ramp in the rest of the overlap and 1 behind it or without a previous action; so frozen slots of the result are the previous action's rows |
| RtcFreeze.StoredRtcAction | tools/run_newton_groot_rtc_control.py:745-761 | row by row, the frozen rows of every seeded key are the seed's, and all other rows and keys are the policy's |
| ReplanController.GrootRtcExample.InstallReplan | tools/run_newton_groot_rtc_control.py:2036-2086 | the object's install is the machine's: stale answers only raise the index, others go to the store and execute from their elapsed row |
| ReplanController.GrootRtcExample.PrepareReplan | tools/run_newton_groot_rtc_control.py:1974-2009 | the request the object builds is the machine's, and building it changes nothing |
| ReplanController.GrootRtcExample.PolicyTick | tools/run_newton_groot_rtc_control.py:2088-2150 | one tick of the object (consume, submit, apply) is the machine's, with the same executed row |
| ReplanController.GrootRtcExample.StepFrame | tools/run_newton_groot_rtc_control.py:2156-2160 | one frame of the object is `ReplanMachine.Step`, and returns its output |
| ReplanTheorems.StepStructure | tools/run_newton_groot_rtc_control.py:1974-2160 | every frame keeps: a request in flight is the one today's store would answer, and the executing chunk is the store's newest, placed at its own request time |
| ReplanTheorems.StepReachable | tools/run_newton_groot_rtc_control.py:2036-2160 | every frame, of any length, keeps the schedule: one tick per period, or per frame if frames are longer, on the tick grid, and where the executing chunk stands for the next tick, for any latency and any stale answers |
| ReplanTiming.RoundingsCountTicksIff | tools/run_newton_groot_rtc_control.py:764-786 | both roundings count the ticks between any two tick times exactly when every tick comes less than half a period late |
| ReplanTiming.PromptIff | tools/run_newton_groot_rtc_control.py:764-786 | with frames of p/q of a control period in lowest terms, every tick comes less than half a period late exactly when p <= q and 2 (p - 1) < q |
| TickArithmetic.CountsTicksIff | tools/run_newton_groot_rtc_control.py:764-786 | with frames of p/q of a period in lowest terms, every elapsed count below a limit is the number of ticks between its two tick times exactly when, for each distance of up to that limit, one whole-number comparison holds |
| TickArithmetic.LimitMatters | tools/run_newton_groot_rtc_control.py:511-512 | with frames of 101/200 of a period the comparisons hold up to the 32 rows that the checkpoint is held to, and not up to 64 |
| ReplanGuarantees.ExecutedRowMatchesTick | tools/run_newton_groot_rtc_control.py:2036-2160 | in every run at any rates, if every elapsed count short of the executing chunk's end counts the ticks between its two tick times, or answers are never waited for: tick k executes exactly row k - k0 of the chunk requested at tick k0, and executes a row whenever that chunk still has one |
| ReplanTiming.ScheduleKeptIff | tools/run_newton_groot_rtc_control.py:2036-2160 | for every configuration, with frames of p/q of a period and answers of exactly the action horizon's rows, all runs execute by count like that exactly when the controller is synchronous or the comparisons of `TickArithmetic.CountsTicksIff` hold up to the action horizon; a failing run is built for every other configuration |
| ReplanGuarantees.ExecutedRowIsTimely | tools/run_newton_groot_rtc_control.py:2036-2160 | in every run with frames of at most one period, an executed row's nominal time is within half a period and a frame of the simulated time |
| ReplanGuarantees.FrozenRowsShift | tools/run_newton_groot_rtc_control.py:745-891 | for any frame length, a frozen row of a new chunk is the row of the chunk executing at request time that lies the rounded shift further on |
| ReplanGuarantees.InstallKeepsSchedule | tools/run_newton_groot_rtc_control.py:1974-2086 | in every run whose ticks come less than half a period late, installing an answer leaves every tick of its frozen window that both chunks cover with the row that was scheduled for it |
| ReplanFrozen.FrozenRowsKeptIff | tools/run_newton_groot_rtc_control.py:745-891 | with answers of exactly the action horizon's rows, all runs of all controllers at given rates and action horizon execute each frozen tick's row and keep the rows ahead of it, whether or not the request is answered, exactly when: for frames of at most a period, 2 (p - 1) < q or the horizon is one row; for longer frames, the horizon is at most two rows or the whole periods of a frame; a failing controller and run are built otherwise |
| ReplanRuns.ReplanIsSeamless | tools/run_newton_groot_rtc_control.py:1974-2150 | in every run whose ticks come less than half a period late, while a tick lies in the frozen window of the request at hand it executes the row scheduled for it, whether or not the answer has arrived, synchronously or asynchronously |
| ReplanRuns.OneFreshRequest | tools/run_newton_groot_rtc_control.py:2036-2150 | in every run at most one request is in flight, it carries the current replan index, and a tick that changes the store leaves a chunk with a row for it |
| ReplanRuns.StallsForever | tools/run_newton_groot_rtc_control.py:2107-2115 | a used-up chunk shorter than the replan horizon with nothing in flight is never left again |
| ReplanRuns.SynchronousTicks | tools/run_newton_groot_rtc_control.py:2088-2150 | in synchronous mode with answers of h rows, a tick executes a row exactly when it is among the first h or the replan horizon is at most h |
| ReplanRuns.SwitchedOffIff | tools/run_newton_groot_rtc_control.py:2117-2150 | in every run the step counter is the number of rows executed, and the policy is switched off exactly when a positive step limit is reached, which is never exceeded |
| ReplanLiveness.CanExecuteIff | tools/run_newton_groot_rtc_control.py:2036-2160 | after any run of answers of exactly the action horizon's rows, in either mode and at any rates, some continuation executes another row exactly when the machine is enabled and a row is left, or the answer in flight is not stale at the next tick, or it may ask and an answer after one tick is not stale or not waited for |
| LongRunCursor.CursorWalk | rexpolicy/stage0/long_run.py:329-408 | advancing phase by phase walks through the closed-form cursors, never refuses, and changes phase exactly at the four boundaries |
| LongRunCursor.CursorReachable | rexpolicy/stage0/long_run.py:384-408 | the cursors that some number of steps reaches are exactly those that are not refused as over budget and have trained nothing after their phase |
| LongRunTraining.Stage0CheckpointManager.LatestCheckpoint | rexpolicy/stage0/checkpoint.py:333-350 | the highest completed sequence |
| LongRunTraining.TrainOneStep | tools/run_stage0_long.py:2672-2755 | with a cache computed on demand and a warm start taken only at the selector's first step, one step equals the cache-free, flag-free step |
| LongRunTraining.SaveCheckpoint | tools/run_stage0_long.py:2933-2956 | on a run's own directory the save is never refused, and a step already saved is not saved again |
| LongRunTraining.RunTraining | tools/run_stage0_long.py:2852-3071 | the first entry of the plan that is not "go" decides how a run from its newest checkpoint ends: a crash ends it where it strikes, a stop pauses it at the step it has reached, with that step saved, and otherwise it completes; exactly the due steps it trained are saved besides; no checkpoint is changed, every checkpoint is the uninterrupted run's, a completed run has its models, optimizers and step counts, and a fresh start is refused exactly on a used directory |
| LongRunGuarantees.RunSchedule | tools/run_stage0_long.py:2852-3071 | any number of attempts, the first fresh and each later one from the latest checkpoint: none is refused, each ends as its plan says from where it starts, which is the step the one before paused at or the newest step it made due, and the first that completes ends like the uninterrupted run |
| LongRunGuarantees.PhasesAreIndependent | tools/run_stage0_long.py:2672-2755 | at every step each component is what its own steps alone make of it: the encoder is frozen after its phase, selector and conditional policy see its latents, the no-z policy sees zeros, the selector is warm-started exactly once |
| LongRunGuarantees.PoliciesDifferInLatentsOnly | tools/run_stage0_long.py:2654-2755 | the two policies of a finished run are one and the same training under the latents and under zeros: same starting weights, batches, noise and number of steps |
| LongRunGuarantees.NoZIgnoresTheRest | tools/run_stage0_long.py:2672-2755 | at every step of a run the no-z policy is the same whatever the encoder, latents, selector, warm start and conditional policy are |
| LongRunGuarantees.ConditionalCheckpointCandidates | tools/run_stage0_long.py:2200-2259 | candidates are returned exactly when no checkpoint is inconsistent, no step repeats and the final one is there; they are exactly the candidate checkpoints with their models |
| LongRunGuarantees.CandidateOfRun | tools/run_stage0_long.py:2200-2223 | a run's checkpoint is a candidate exactly inside the conditional phase, and holds the conditional policy of that step |
| LongRunGuarantees.CompletedRunIsSelectable | tools/run_stage0_long.py:2224-2259 | after a completed run, however interrupted, candidate collection never fails |
| NoZTraining.NoZRun.BeginAttempt | tools/run_stage0_grasp_lift_no_z.py:227-269 | attempts are numbered upwards, a fresh start on a used log is refused, and the opening record knows the furthest step seen |
| NoZTraining.ResumesNotAhead | tools/run_stage0_grasp_lift_no_z.py:227-269 | a resume from a checkpoint never starts ahead of what its log has seen |
| NoZTraining.TrainStep | tools/run_stage0_grasp_lift_no_z.py:540-640 | one step logs, reports and commits exactly what the two grids make due, also when it dies between the log record and the status or in front of the checkpoint, and the newest checkpoint, the grid below it and the log stay in order |
| NoZTraining.RunAttempt | tools/run_stage0_grasp_lift_no_z.py:483-695 | the first disturbance decides: an exception fails the attempt and leaves the status "error" with the steps trained and the newest checkpoint, a kill leaves the status as it was last logged; either way exactly the grid steps, records and statuses up to there are there, and an undisturbed attempt completes; checkpoints are the uninterrupted run's and the status never claims more than is durable |
| NoZTraining.RunSchedule | tools/run_stage0_grasp_lift_no_z.py:483-695 | for any sequence of fresh starts and resumes disturbed anywhere, each attempt does that to the output as the one before left it: once the fresh start has saved its first checkpoint every undisturbed resume ends like the uninterrupted run, otherwise none ever completes; attempts of the wrong kind fail; and which record opens the log, also when the fresh attempt died right after its first checkpoint |
| LockedTest.OneEvaluator | tools/run_stage0_long.py:3087-3276 | in every interleaving all test evaluations belong to one attempt and one claim, once each and in order, and the claim binds the selection on disk, which passed the gate |
| LockedTest.CommittedIsFinal | tools/run_stage0_long.py:272-301 | a committed selection and a committed claim never change, and neither a claim nor a checkpoint disappears |
| LockedTest.LaterAttemptsStop | tools/run_stage0_long.py:2769-2787 | once a claim exists, even half-written, no attempt launched later trains or evaluates |
| LockedTest.DeadSelectionBlocks | tools/run_stage0_long.py:272-301 | a selection whose writer died half-way means no claim and no evaluation, ever |
| LockedTest.CompleteReportStaysIff | tools/run_stage0_long.py:2769-3110 | as long as no collect-only attempt is launched, a complete report survives every continuation exactly when no live attempt can still replace it: none collects, chooses, holds the passed selection, is about to report a pause, or stands in training where a pause would still be saved; with no live attempt it always survives |
| LockedTest.CollectOnlyLosesTheReport | tools/run_stage0_long.py:3398-3413 | a collect-only resume of a finished directory always replaces the complete report, and a complete report can come back exactly when the selection had failed the gate |
| LockedTest.OverlappingAttemptsLoseTheReport | tools/run_stage0_long.py:3087-3376 | for every training budget, a run without collect-only launches in which a complete report of an evaluated test is replaced by a paused one |
| LockedTestProgress.LoneAttemptConcludesIff | tools/run_stage0_long.py:2769-3376 | after any interleaving of attempts, a further attempt that is left alone gets the test done, with every due checkpoint, the selection and the complete report, and if the gate is passed the claim and exactly its three evaluations, exactly when no claim was ever begun and no selection is half-written; otherwise, and in a finished directory, it changes nothing |
| LockedTestProgress.PauseIsReported | tools/run_stage0_long.py:3056-3146 | a pause ends the attempt with a report that names the selection exactly when one was committed; in training it saves the step it stands at, and if another attempt has saved that step already the save is refused and nothing is reported |
| BranchChunks.ResetAndReplay | tools/run_flywheel_ddp.py:618-644 | the replay executes the recorded actions in order in every world, canonicalizes after each, and stops at the first step that ends an episode; an empty history canonicalizes the reset state; this is the root that the seed and the history name |
| BranchChunks.RunChunk | tools/run_flywheel_ddp.py:888-1008 | there is one course of joint states in which every world that has not ended proposes the policy's action and every other one holds still, each executing what the environment makes of all proposals; every world's record is its part of that course |
| BranchChunks.BranchIsPrefix | tools/run_flywheel_ddp.py:907-1008 | a world records exactly the steps up to its first terminated or truncated one, with the actions really executed; its score is the sum of their rewards; it has failed, touched or displaced exactly if one of them did, and is terminated or truncated exactly if any step of the chunk says so |
| BranchChunks.CandidatesFit | tools/run_flywheel_ddp.py:1010-1090 | every world is a candidate for its part of one course: between one step and the horizon, with the final evaluation's success, and unsafe in each of the three ways exactly if a recorded step or the final evaluation is |
| BranchChunks.SelectContinuation | rexpolicy/flywheel/experience.py:369-459 | refused exactly if a candidate succeeded unsafely; none exactly if nothing is safe; otherwise a safe candidate that succeeded if any safe one did, with the highest score among those and the lowest world among equals |
| BranchChunks.ChoiceIsUnique | rexpolicy/flywheel/experience.py:369-459 | that continuation is unique |
| FlywheelCollection.HistoryFor | tools/run_flywheel_ddp.py:1422-1429 | the loop over the archived path gives the history in front of a decision |
| FlywheelCollection.CollectEpisode | tools/run_flywheel_ddp.py:773-1218 | for every decision the archived path in front of it is the root history its candidates were sampled under; segments tile the steps, are the best candidate of their decision and stay within the budget; collection goes on after a continuation only if it neither succeeded nor ended its world, and stops for that, at the budget or without a safe candidate; the score is the sum of the rewards; and each failure names its cause at the last decision |
| FlywheelCollection.WithinBudget | tools/run_flywheel_ddp.py:861-1218 | decisions with a continuation are at most the executed steps, which are at most the budget |
| FlywheelCollection.RecipeIsHistory | tools/run_flywheel_ddp.py:1422-1434 | the history read from the archive has the decision's archived start as its length and is the one its candidates were sampled under |
| FlywheelCollection.RebuildRoot | tools/run_flywheel_ddp.py:1408-1438 | historical materialization replays exactly that history: it shows the observation of the state the replay reaches, and reports a decision that is not archived and a replay that ends early |
| FlywheelCollection.MaterializationFaithful | tools/run_flywheel_ddp.py:1408-1438 | if resets do not depend on what the simulator did before, materializing any decision from any simulator state never ends early and returns the observation of the root the decision was sampled at, from which the policy and the branches give the archived candidates again |
| GenerationGate.RunGeneration | tools/run_flywheel_ddp.py:2740-3032 | one generation of the loop, with every death point, is the step function that `GenerationOutcome` spells out |
| GenerationGate.GenerationOutcome | tools/run_flywheel_ddp.py:2922-3032 | a generation is saved, once, exactly if the checkpoint grid, the end of the run, an evaluation, a stop request or a rejection asks for it and the process lives to commit it; `latest.json` then names it exactly if it was accepted and the write happened, `last_good.json` exactly if it was also evaluated and survived, and both stay as they were otherwise; the model is updated from the archive as it was; and how the process ends |
| GenerationGate.FreshOutcome | tools/run_flywheel_ddp.py:2681-2731 | a fresh run is refused exactly where an earlier one left its pointer or its baseline; otherwise the untrained model is saved as generation zero, with both pointers set as for any generation |
| GenerationGate.GenerationSound | tools/run_flywheel_ddp.py:2740-3032 | a generation changes no checkpoint, keeps the directory in order and leaves a continuing process on its lineage |
| GenerationGate.RunDirectory.LatestCheckpoint | rexpolicy/flywheel/checkpoint.py:419-442 | the highest accepted completed generation |
| GenerationGate.LoopSound | tools/run_flywheel_ddp.py:2740-3037 | the whole loop keeps the directory in order, wherever it stops or dies |
| GenerationGate.LoopIsCourse | tools/run_flywheel_ddp.py:2740-3037 | the loop takes one generation after another, each below the limit and not stopped in front of, and ends with the outcome of the first that ends it, or at the limit or in front of a stop request |
| GenerationGuarantees.RunProcess | tools/run_flywheel_ddp.py:2635-3037 | a fresh process that gets through its start runs such a course of generations from there; a resume runs it from the highest accepted checkpoint or from the named one, and fails without changing anything if there is none or it is not accepted |
| GenerationGuarantees.PointersTellTheTruth | tools/run_flywheel_ddp.py:2400-2458 | after any schedule: every checkpoint's model and archive come from the same generations with the most recent accepted evaluation as its last good one, the latest is accepted, and both pointer files name accepted checkpoints no later than it |
| GenerationGuarantees.LineagesAgree | rexpolicy/flywheel/checkpoint.py:444-621 | a later checkpoint continues the lineage of every earlier one whose generation was regularly due |
| GenerationGuarantees.RejectionIsFinalIff | tools/run_flywheel_ddp.py:2922-3032 | no later process stores a generation beyond a rejected one, exactly when the rejected one was regularly due |
| HeldOutSuite.RanksPartition | tools/run_flywheel_ddp.py:1619-1624 | for every world size the rank-strided slices partition the suite |
| HeldOutSuite.WorldSizeInvisible | tools/run_flywheel_ddp.py:1712-1719 | the gathered and sorted episode list equals the single process's, for every world size |
| SelectionClaim.OneOpenerPerClaim | tools/run_stage0_grasp_lift_no_z_selection.py:1239-1300 | in every interleaving at most one run per claim opens held-out data, once, and only with its preflight, sentinel, verified receipt and claim in place |
| SelectionClaim.BurnedExactlyWhenReached | tools/run_stage0_grasp_lift_no_z_selection.py:497-516 | a reported exception says "burned" exactly when the call that persists the claim was reached |
| SelectionClaim.CompleteHasEvidence | tools/run_stage0_grasp_lift_no_z_selection.py:1239-1404 | a complete status implies all four evidence files, whole and by the one run that opened the held-out data |
| SelectionClaim.EvidenceIsFinal | tools/run_stage0_grasp_lift_no_z_selection.py:245-266 | a written evidence file is never changed again |
| SelectionClaim.LosersWriteNothing | tools/run_stage0_grasp_lift_no_z_selection.py:429-447 | a run that loses the race for its directory has written nothing there |
| SelectionClaim.PartialStatusIff | tools/run_stage0_grasp_lift_no_z_selection.py:429-447 | a status is partial exactly when its owner is, or ended, inside the first status write and reported no failure; a raise after that write leaves it whole |
| SelectionClaim.PartialStatusHappens | tools/run_stage0_grasp_lift_no_z_selection.py:429-447 | a run killed there leaves a partial status |
| SelectionClaim.CompleteIsPermanentIff | tools/run_stage0_grasp_lift_no_z_selection.py:1391-1423 | a complete status is permanent exactly when its owner is over; one that has still to sync or read it back can burn it |
| SelectionProgress.LoneRunCompletesIff | tools/run_stage0_grasp_lift_no_z_selection.py:1239-1423 | after any interleaving, a further run that is left alone completes, with every record in place and the held-out data opened once, exactly when its directory does not exist and its claim was never begun; a used directory turns it away untouched, a used claim burns its own directory and leaves the sentinel and the held-out data alone; no other directory or claim changes |
| SelectionOutputDirectory.SelectionOutput.Do | tools/run_stage0_grasp_lift_no_z_selection.py:245-283 | one system call that succeeds, raises or kills, on the real entries, is exactly one step of the transition system, exclusive creation included; it goes as the outside says unless the name is taken |
| SelectionOutputDirectory.SelectionOutput.RunSelection | tools/run_stage0_grasp_lift_no_z_selection.py:1239-1423 | the whole sequence with its candidate loop and handler, however its calls go, is a run of the transition system; it returns with all evidence, status and sentinel published, or raises with the status its flags ask for, or dies; a taken path is left alone |
| SelectionOutputDirectory.SelectionOutput.MarkFailed | tools/run_stage0_grasp_lift_no_z_selection.py:497-516 | the handler is the transition system's move: it replaces the status of a directory this run created, touches no other, and swallows a replacement that raises |
| MultimodeCorpus.RunPass | tools/run_stage0_long.py:573-639 | every world of a pass has one more state than actions, ends at its first success or failure with success first, or times out at the limit; executed steps and success disagreements are counted; it is refused exactly when oracle and environment disagree about failure on an executed step |
| MultimodeCorpus.OrderIsPermutation | rexpolicy/stage0/envs/reach_modes.py:185-197 | the seed-dependent order holds every mode once: it is the library rotated by the offset |
| MultimodeCorpus.CollectMultimodeCorpus | tools/run_stage0_long.py:492-718 | the collector writes one trajectory per batch, pass and world, refuses exactly a mismatched library and a failure disagreement, and its counters are the steps, disagreements and outcomes of those trajectories, per mode and in total |
| MultimodeCorpus.SumIsCount | tools/run_stage0_long.py:683-706 | summing the per-mode counters of an outcome counts every trajectory with it exactly once |
| MultimodeCorpus.TallyCounts | tools/run_stage0_long.py:641-706 | each counter of a mode is the number of its trajectories with that outcome |
| CorpusVerification.ModeOutcomesCoverResets | tools/run_stage0_long.py:641-718 | in a collected corpus the outcomes of every single mode add up to the number of reset groups |
| CorpusVerification.VerifyStructure | tools/run_stage0_long.py:776-858 | the pass over the trajectories and the groups accepts exactly the structural checks and the minimum of successful modes per group, and yields the groups in order |
| CorpusQuality.VerifyMultimodeCorpus | tools/run_stage0_long.py:744-930 | acceptance is exactly: a manifest bound to the run contract, the structural checks, the minimum of successful modes per group, paths that start alike, touch nothing and leave the object at rest, successful paths that are apart one by one and on average per pair of modes, 95% full groups and 98% success of every mode |
| CorpusQuality.AtRestIff | tools/run_stage0_long.py:857-894 | the group-wise checks for rest hold exactly if on no path the object moves more than 5 mm from its start or is touched, and every path starts within 1e-6 of the first one of its group |
| CorpusQuality.GapsIff | tools/run_stage0_long.py:864-888 | the measured gaps are exactly those of every two successful trajectories of one group, over the length of the shorter path |
| CorpusQuality.MeanIsAverage | tools/run_stage0_long.py:895-898 | the mean held against 0.03 is the average: of one gap that gap, and of two lists the average weighted by their lengths |
| CorpusRates.FullGroupsBound | tools/run_stage0_long.py:905-920 | the groups that are not full are at most the missed successes of all modes together, and the full ones at most any mode's successes |
| CorpusRates.FullCheckIdleIff | tools/run_stage0_long.py:905-920 | the check for 95% full groups refuses nothing that all other checks accept exactly when every mode must succeed in every group, or the modes together can miss at most a twentieth of the groups at a fiftieth each |
| CorpusVerification.AcceptedOncePerMode | tools/run_stage0_long.py:781-858 | acceptance implies that every reset group holds each mode exactly once, under one seed |
| CorpusVerification.AcceptedRecords | tools/run_stage0_long.py:776-858 | acceptance implies that the records are exactly the trajectories' identities, each with its own mode and group and a configured mode, and that every group has the minimum of modes that succeed in it |
| CorpusVerification.CollectedIsStructural | tools/run_stage0_long.py:562-684 | a collected corpus, listed in any order, passes every structural check |
| ModeGroups.SelectCompleteModeGroups | tools/run_stage0_long.py:1450-1482 | a repeated mode is refused, too few groups are refused, otherwise the result is the evenly spread complete groups, as many as fit the limit, group by group in mode order |
| ModeGroups.SpreadIncreases | tools/run_stage0_long.py:1476-1479 | the spread picks distinct groups in increasing order |
| ModeGroups.SpreadIsEven | tools/run_stage0_long.py:1476-1479 | the chosen groups stand at the heads of stretches that cut the list and differ in length by one at most |
| ModeGroups.PermutationRotates | tools/run_stage0_long.py:2032-2037 | the latent permutation stays inside each group, moves every window when there are two modes or more, and is the identity after as many applications as modes |
| ModeGroups.PermutationIsInjective | tools/run_stage0_long.py:2032-2037 | no two windows share an image |
| ModeGroups.PermutationIsSurjective | tools/run_stage0_long.py:2032-2037 | every window is an image |
| ModeGroups.PermutedWindow | tools/run_stage0_long.py:2032-2111 | on a group-major selection the permuted window has the same reset group and the next mode |
| Rollout.ExecuteRollout | tools/run_rollout_recorder.py:309-373 | history is control steps + 1 rows and equals the frames; it stops only at the limit or when all worlds are done; every executed action is for the worlds still active, each chunk is executed from its first action without a gap and the next one follows exactly when it is used up; with long enough chunks the decisions are the steps divided by the horizon, rounded up; and each error has its cause |
| Rollout.RowIsLatched | tools/run_rollout_recorder.py:294-306 | a recorded row is the raw row of its world's last counted step except for its step number, with flags the disjunction up to there |
| Rollout.RowsFreeze | tools/run_rollout_recorder.py:294-306 | once a world is done its rows differ only in the step number |
| AutoReset.GrootNewtonVectorEnv.Step | rexpolicy/envs/groot_newton_vector_env.py:72-104 | returned rewards and flags are the values before the reset in fresh tensors (terminations zeroed if ignored), and the final buffers take exactly the finished worlds' rows, although the reset overwrites the simulator's tensors |
| AutoReset.RunWrapper | rexpolicy/envs/groot_newton_vector_env.py:72-104 | after any run every world that ever completed has the observation and episode record of its most recent completion in the final buffers |

## Left out

- Floating-point error, the 1e-9 slack in the control loop's time comparison, and control rates above 1 GHz (where the elapsed-step division is clamped).
- The exact timing, frozen-row and liveness results take two positive rates whose ratio is a fraction, as the ratio of any two floats is, and policy answers of exactly the action horizon's rows, which the checkpoint check and the hold policy fix; the other results hold for answers of any length.
- The replan machine assumes that the policy answers with every configured action key; `SeedStore` itself models missing keys.
- Scene resets during a policy run, which set the simulated time back to zero without touching the policy schedule.
- The RTC ramp: any function of the slot; its exponential shape is not modelled.
- Simulator, renderer, VLM, denoising network, optimizers and seed derivation: uninterpreted functions.
- Hashing, JSON, fsync and fingerprints: a record stands for its own hash.
- Metrics, logging, previews, argument parsing and configuration loading.
- LongRunTraining: dropout, which would draw from the global random state; every shipped configuration sets it to zero.
- LockedTest: the corpus step before training can only end an attempt; the directory and its contract appear in one step; checkpoints are completed or absent.
- SelectionOutputDirectory runs one process while the others stand still; their interleavings are `SelectionClaim`'s.
- LockedTest and SelectionClaim treat everything between two file accesses as one step, and a read of several files as one read per file.
- GenerationGate: quarantines and the replay plan are part of the uninterpreted update and commit; checkpoint corruption and manifest changes other than the generation limit are not modelled.
- GenerationGuarantees: ranks are not modelled; one process stands for the whole distributed group.
- FlywheelCollection: physical replay gates, event ledgers and TaskSpec shadow checks, which can only abort a collection, are not modelled, nor is a non-finite action.
- FlywheelCollection: the end state of a branch is not related to the state its replay reaches; that needs assumptions about the simulator.
- BranchChunks.SelectContinuation: training weights and the subset kept for training are not modelled.
- CorpusQuality.VerifyMultimodeCorpus: the comparisons of manifest keys, hashes and dimensions are one boolean, the measurements on states (norms, slices, root mean squares) are uninterpreted functions, and of the returned summary only acceptance is modelled.
- MultimodeCorpus: the displacement and distance maxima of the collection summary; a refused collection leaves its hidden partial directory, which nothing reads.
- AutoReset: nested observation dictionaries are flattened to one row per world.
- NoZTraining: one process; the sampler's indices and flow seeds are part of the uninterpreted step.
- SelectionClaim: the inventory of candidates and its reordering from runs to steps.
- The advantage baseline, the non-regression rule and the checkpoint ranking are not modelled beyond their verdicts.
