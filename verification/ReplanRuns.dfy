/** Seamless replans, freshness, and when the machine keeps executing or stalls for good. */
module ReplanRuns {
  import opened Rounding
  import opened ActionChunks
  import opened SeedStore
  import opened RtcFreeze
  import opened ReplanMachine
  import opened ReplanTheorems
  import opened ReplanGuarantees

  // ----- the executed row does not notice a replan -----

  ghost predicate SameChunk(a: Machine, b: Machine) {
    a.chunk == b.chunk && a.chunkTimeline == b.chunkTimeline && a.actionIndex == b.actionIndex
  }

  /** A tick either installs the answer to the request at hand, or leaves the executing chunk alone. */
  lemma PlannedInstallsOrKeeps(cfg: Config, m: Machine, r: Request, f: Frame)
    requires ValidConfig(cfg) && StoreFits(cfg, m.store) && Answers(cfg, f.answer) && Requested(cfg, m, r)
    requires m.future.Some? ==> cfg.asynchronous
    ensures var p := Planned(cfg, m, f);
      var i := Install(cfg, m.(future := None), r, f.answer);
      SameChunk(p, i) || SameChunk(p, m)
  {
    hide StepOf, Horizon, RtcOptions, ElapsedActionSteps;
    assert m.future.None? ==> m.(future := None) == m;
  }

  /** An install never leaves the executing chunk without a row for the present tick, unless it had none. */
  lemma InstallKeepsARow(cfg: Config, m: Machine, r: Request, answer: Action)
    requires ValidConfig(cfg) && StoreFits(cfg, m.store) && Answers(cfg, answer)
    ensures var i := Install(cfg, m, r, answer);
      && ((i.store == m.store && SameChunk(i, m)) || HasRow(i))
      && (HasRow(m) ==> HasRow(i))
  {
    hide StepOf;
    ChunkFromKeys(cfg, r, answer);
  }

  lemma OutputWithinFrozen(cfg: Config, m: Machine, r: Request, f: Frame)
    requires Reachable(cfg, m) && Prompt(cfg) && Answers(cfg, f.answer) && Due(m)
    requires Requested(cfg, m, r) && FreezesTick(cfg, r, m.ticks)
    requires Scheduled(cfg, m, m.ticks).Some?
    ensures Output(cfg, m, f).Some? && Some(Output(cfg, m, f).value.row) == Scheduled(cfg, m, m.ticks)
  {
    hide Pending, StepOf, Units, Install, Prepare, OnGrid, Prompt, CountsUpTo, TickOf, Planned, Scheduled, MidTick, Horizon, HasRow, FreezesTick, Output;
    var p := Planned(cfg, m, f);
    if p.chunk.Some? && p.chunk.value != map[] {
      PromptCounts(cfg, Horizon(p.chunk.value));
    }
    RequestedIsPending(cfg, m, r);
    RequestedOnGrid(cfg, m, r);
    PendingKeepsSchedule(cfg, m, r, f.answer, m.ticks);
    PlannedTimed(cfg, m, f);
    PlannedClock(cfg, m, f);
    PlannedInstallsOrKeeps(cfg, m, r, f);
    InstallKeepsARow(cfg, m.(future := None), r, f.answer);
    PlannedKeepsRow(cfg, m, Install(cfg, m.(future := None), r, f.answer), p);
    FrozenOutput(cfg, m, f, p);
  }

  /** Whether or not an install `i` happened, the row for this tick is the one that was scheduled. */
  lemma PlannedKeepsRow(cfg: Config, m: Machine, i: Machine, p: Machine)
    requires ValidConfig(cfg) && MidTick(cfg, p) && p.ticks == m.ticks && Scheduled(cfg, m, m.ticks).Some?
    requires p.chunk.Some? && p.chunk.value != map[] ==> CountsFor(cfg, Horizon(p.chunk.value))
    requires (SameChunk(p, i) || SameChunk(p, m)) && (SameChunk(i, m) || HasRow(i))
    requires Scheduled(cfg, i, m.ticks).Some? ==> Scheduled(cfg, i, m.ticks) == Scheduled(cfg, m, m.ticks)
    ensures Scheduled(cfg, p, m.ticks) == Scheduled(cfg, m, m.ticks)
  {
    hide MidTick, CountsFor, TickOf, RowsAt;
    AppliedIsScheduled(cfg, p);
  }

  lemma FrozenOutput(cfg: Config, m: Machine, f: Frame, p: Machine)
    requires ValidConfig(cfg) && StoreFits(cfg, m.store) && Answers(cfg, f.answer) && Due(m) && p == Planned(cfg, m, f)
    requires MidTick(cfg, p) && p.ticks == m.ticks
    requires p.chunk.Some? && p.chunk.value != map[] ==> CountsFor(cfg, Horizon(p.chunk.value))
    requires Scheduled(cfg, p, m.ticks) == Scheduled(cfg, m, m.ticks) && Scheduled(cfg, m, m.ticks).Some?
    ensures Output(cfg, m, f).Some? && Some(Output(cfg, m, f).value.row) == Scheduled(cfg, m, m.ticks)
  {
    hide MidTick, CountsFor, Scheduled, Planned, AppliedRow, Horizon;
    AppliedIsScheduled(cfg, p);
  }

  ghost predicate Seamless(cfg: Config, m: Machine, r: Request, f: Frame)
    requires ValidConfig(cfg) && StoreFits(cfg, m.store) && Answers(cfg, f.answer)
  {
    Due(m) && Requested(cfg, m, r) && FreezesTick(cfg, r, m.ticks) && Scheduled(cfg, m, m.ticks).Some? ==>
      Output(cfg, m, f).Some? && Some(Output(cfg, m, f).value.row) == Scheduled(cfg, m, m.ticks)
  }

  /** While a tick lies in the frozen window of the request in flight (or of the one it makes), it executes the
      row that was scheduled for it, whether or not the answer has arrived. */
  lemma {:induction false} ReplanIsSeamless(cfg: Config, frames: seq<Frame>, r: Request, f: Frame)
    requires ValidConfig(cfg) && AllAnswer(cfg, frames) && Answers(cfg, f.answer)
    requires Prompt(cfg)
    ensures Seamless(cfg, After(cfg, frames), r, f)
  {
    hide StepOf, Units, Timed, Pending, Executing, Step, Output;
    RunReachable(cfg, frames);
    var m := After(cfg, frames);
    if Due(m) && Requested(cfg, m, r) && FreezesTick(cfg, r, m.ticks) && Scheduled(cfg, m, m.ticks).Some? {
      OutputWithinFrozen(cfg, m, r, f);
    }
  }

  /** In every run at most one request is in flight, its result carries the current replan index, and a tick
      that changes the store leaves a chunk that still has a row for it: nothing stale is installed. */
  lemma {:induction false} OneFreshRequest(cfg: Config, frames: seq<Frame>, f: Frame)
    requires ValidConfig(cfg) && AllAnswer(cfg, frames) && Answers(cfg, f.answer)
    ensures var m := After(cfg, frames);
      && (m.future.Some? ==> cfg.asynchronous && m.future.value.replanIndex == m.replanIndex && m.future.value.timeline <= m.simTime)
      && (Planned(cfg, m, f).store != m.store ==> HasRow(Planned(cfg, m, f)))
      && (m.chunk.Some? ==> m.chunk.value != map[] && m.actionIndex <= Horizon(m.chunk.value))
  {
    hide StepOf, Prepare;
    var m := After(cfg, frames);
    if m.future.Some? {
      InstallKeepsARow(cfg, m.(future := None), m.future.value, f.answer);
    }
    var c := Consume(cfg, m, f);
    InstallFits(cfg, m, f);
    if NeedsReplan(cfg, c) && c.future.None? && !cfg.asynchronous {
      InstallKeepsARow(cfg, c, Prepare(cfg, c), f.answer);
    }
  }

  // ----- stalling -----

  /** The executing chunk is used up, is shorter than the replan horizon, and nothing is in flight. */
  ghost predicate Stalled(cfg: Config, m: Machine) {
    && m.future.None? && m.chunk.Some? && m.chunk.value != map[]
    && Horizon(m.chunk.value) <= m.actionIndex < cfg.replanHorizon
  }

  /** A stalled machine never executes, requests or installs anything again. */
  lemma StallsForever(cfg: Config, m: Machine, f: Frame)
    requires ValidConfig(cfg) && StoreFits(cfg, m.store) && Answers(cfg, f.answer) && Stalled(cfg, m)
    ensures Output(cfg, m, f) == None
    ensures Step(cfg, m, f).store == m.store && Step(cfg, m, f).replanIndex == m.replanIndex
    ensures Stalled(cfg, Step(cfg, m, f))
  {
    hide StepOf, Prepare;
    assert Planned(cfg, m, f) == m;
  }

  /** Every answer so far offers exactly `h` rows. */
  ghost predicate Offers(cfg: Config, answer: Action, h: nat) {
    Answers(cfg, answer) && cfg.keys != [] && Selected(cfg.keys, answer) != map[] && Horizon(Selected(cfg.keys, answer)) == h
  }

  ghost predicate AllOffer(cfg: Config, frames: seq<Frame>, h: nat) {
    forall i :: 0 <= i < |frames| ==> Offers(cfg, frames[i].answer, h)
  }

  /** Where a synchronous machine stands after `m.ticks` ticks: mid-chunk for good, or stuck at the end of its
      first chunk. */
  ghost predicate SynchronousShape(cfg: Config, m: Machine, h: nat) {
    && m.future.None?
    && (m.chunk.None? <==> m.ticks == 0)
    && (m.chunk.Some? ==>
          && m.chunk.value != map[] && Horizon(m.chunk.value) == h
          && if cfg.replanHorizon <= h then 1 <= m.actionIndex <= cfg.replanHorizon else m.actionIndex == Min(m.ticks, h))
  }

  /** A synchronous replan is installed at once, from its first row. */
  lemma SubmitAtOnce(cfg: Config, m: Machine, f: Frame, h: nat)
    requires ValidConfig(cfg) && StoreFits(cfg, m.store) && Offers(cfg, f.answer, h) && h >= 1 && !cfg.asynchronous && m.future.None?
    ensures var s := Submit(cfg, m, f);
      && s.future.None? && s.chunk.Some? && s.chunk.value != map[] && Horizon(s.chunk.value) == h && s.actionIndex == 0
      && s.ticks == m.ticks
  {
    hide StepOf;
    ChunkFromKeys(cfg, Prepare(cfg, m), f.answer);
    NoTimePasses(m.simTime, cfg.actionDt);
  }

  lemma NoTimePasses(t: real, dt: real)
    ensures ElapsedActionSteps(t, t, dt) == 0
  {
    var d := if dt < 0.000000001 then 0.000000001 else dt;
    assert 0.0 / d == 0.0;
  }

  lemma SynchronousStep(cfg: Config, m: Machine, f: Frame, h: nat)
    requires ValidConfig(cfg) && StoreFits(cfg, m.store) && Offers(cfg, f.answer, h) && h >= 1 && !cfg.asynchronous
    requires SynchronousShape(cfg, m, h)
    ensures SynchronousShape(cfg, Step(cfg, m, f), h)
    ensures Due(m) ==> (Output(cfg, m, f).Some? <==> m.ticks < h || cfg.replanHorizon <= h)
  {
    hide StepOf, Prepare, Submit;
    assert Consume(cfg, m, f) == m;
    if Due(m) && NeedsReplan(cfg, m) {
      SubmitAtOnce(cfg, m, f, h);
    }
  }

  lemma {:induction false} SynchronousRun(cfg: Config, frames: seq<Frame>, h: nat)
    requires ValidConfig(cfg) && AllAnswer(cfg, frames) && AllOffer(cfg, frames, h) && h >= 1 && !cfg.asynchronous
    ensures SynchronousShape(cfg, After(cfg, frames), h)
  {
    if frames != [] {
      SynchronousRun(cfg, frames[..|frames| - 1], h);
      SynchronousStep(cfg, After(cfg, frames[..|frames| - 1]), frames[|frames| - 1], h);
    }
  }

  /** Synchronous mode with answers of `h` rows: every tick executes a row exactly when the replan horizon is at
      most `h`; otherwise exactly the first `h` ticks do. */
  lemma {:induction false} SynchronousTicks(cfg: Config, frames: seq<Frame>, f: Frame, h: nat)
    requires ValidConfig(cfg) && AllAnswer(cfg, frames) && AllOffer(cfg, frames, h) && Offers(cfg, f.answer, h)
    requires h >= 1 && !cfg.asynchronous && Due(After(cfg, frames))
    ensures Output(cfg, After(cfg, frames), f).Some? <==> After(cfg, frames).ticks < h || cfg.replanHorizon <= h
  {
    SynchronousRun(cfg, frames, h);
    SynchronousStep(cfg, After(cfg, frames), f, h);
  }

  // ----- the step limit -----

  lemma AnswersFront(cfg: Config, frames: seq<Frame>)
    requires AllAnswer(cfg, frames) && frames != []
    ensures AllAnswer(cfg, frames[..|frames| - 1]) && Answers(cfg, frames[|frames| - 1].answer)
  {
  }

  /** How many rows a run executes. */
  ghost function Executed(cfg: Config, frames: seq<Frame>): nat
    requires ValidConfig(cfg) && AllAnswer(cfg, frames)
  {
    if frames == [] then 0
    else
      AnswersFront(cfg, frames);
      var front, last := frames[..|frames| - 1], frames[|frames| - 1];
      Executed(cfg, front) + if Output(cfg, After(cfg, front), last).Some? then 1 else 0
  }

  lemma StepCounts(cfg: Config, m: Machine, f: Frame)
    requires ValidConfig(cfg) && StoreFits(cfg, m.store) && Answers(cfg, f.answer)
    ensures var after, ran := Step(cfg, m, f), Output(cfg, m, f).Some?;
      && after.policyStep == m.policyStep + (if ran then 1 else 0)
      && (!ran ==> after.enabled == m.enabled)
      && (ran ==> m.enabled && (after.enabled <==> cfg.maxPolicySteps <= 0 || after.policyStep < cfg.maxPolicySteps))
  {
    hide StepOf, Horizon, RtcOptions, ElapsedActionSteps, Prepare, Pushed;
  }

  /** Every executed row is counted, and the policy is switched off exactly when a positive limit is reached. */
  lemma {:induction false} SwitchedOffIff(cfg: Config, frames: seq<Frame>)
    requires ValidConfig(cfg) && AllAnswer(cfg, frames)
    ensures After(cfg, frames).policyStep == Executed(cfg, frames)
    ensures After(cfg, frames).enabled <==> cfg.maxPolicySteps <= 0 || Executed(cfg, frames) < cfg.maxPolicySteps
    ensures cfg.maxPolicySteps > 0 ==> Executed(cfg, frames) <= cfg.maxPolicySteps
  {
    hide Step, Output;
    if frames != [] {
      AnswersFront(cfg, frames);
      SwitchedOffIff(cfg, frames[..|frames| - 1]);
      StepCounts(cfg, After(cfg, frames[..|frames| - 1]), frames[|frames| - 1]);
    }
  }
}
