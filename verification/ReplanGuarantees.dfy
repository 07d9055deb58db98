/** What a whole run of the replan machine promises: rows follow simulated time, and a replan leaves the frozen
    part of the schedule as it was. */
module ReplanGuarantees {
  import opened Rounding
  import opened ActionChunks
  import opened SeedStore
  import opened RtcFreeze
  import opened ReplanMachine
  import opened ReplanTheorems

  // ----- runs -----

  ghost predicate AllAnswer(cfg: Config, frames: seq<Frame>) {
    forall i :: 0 <= i < |frames| ==> Answers(cfg, frames[i].answer)
  }

  /** The machine after any frames, with any inference latency and any answers. */
  ghost function After(cfg: Config, frames: seq<Frame>): (m: Machine)
    requires ValidConfig(cfg) && AllAnswer(cfg, frames)
    ensures Structure(cfg, m)
  {
    if frames == [] then Initial(cfg)
    else
      var before := After(cfg, frames[..|frames| - 1]);
      StepStructure(cfg, before, frames[|frames| - 1]);
      Step(cfg, before, frames[|frames| - 1])
  }

  lemma InitialTimed(cfg: Config)
    requires ValidConfig(cfg)
    ensures Timed(cfg, Initial(cfg))
  {
    assert Units(cfg, 0.0) == 0.0;
    assert 0.0 == FrameTime(cfg, 0);
    UnitsLinear(cfg, 0.0, cfg.frameDt);
  }

  lemma {:induction false} RunReachable(cfg: Config, frames: seq<Frame>)
    requires ValidConfig(cfg) && AllAnswer(cfg, frames)
    ensures Reachable(cfg, After(cfg, frames))
  {
    if frames == [] {
      InitialTimed(cfg);
    } else {
      RunReachable(cfg, frames[..|frames| - 1]);
      StepReachable(cfg, After(cfg, frames[..|frames| - 1]), frames[|frames| - 1]);
    }
  }

  // ----- the executed row and simulated time -----

  /** The row the executing chunk holds for a control tick. */
  ghost function Scheduled(cfg: Config, m: Machine, tick: int): Option<map<string, Row>>
    requires cfg.actionDt > 0.0
  {
    if m.chunk.None? || m.chunk.value == map[] then None
    else
      var row := tick - TickOf(cfg, m.chunkTimeline);
      if 0 <= row < Horizon(m.chunk.value) then Some(RowsAt(m.chunk.value, row)) else None
  }

  lemma AppliedIsScheduled(cfg: Config, p: Machine)
    requires ValidConfig(cfg) && MidTick(cfg, p)
    requires p.chunk.Some? && p.chunk.value != map[] ==> CountsFor(cfg, Horizon(p.chunk.value))
    ensures AppliedRow(p).Some? <==> Scheduled(cfg, p, p.ticks).Some?
    ensures AppliedRow(p).Some? ==>
              && Some(AppliedRow(p).value.row) == Scheduled(cfg, p, p.ticks)
              && AppliedRow(p).value.index == p.ticks - TickOf(cfg, p.chunkTimeline)
  {
  }

  /** A frame's tick executes the row that is due by count: tick k executes exactly row k - k0 of the chunk
      requested at tick k0, and executes a row whenever that chunk still has one. */
  ghost predicate OnSchedule(cfg: Config, m: Machine, f: Frame)
    requires ValidConfig(cfg) && StoreFits(cfg, m.store) && Answers(cfg, f.answer)
  {
    Due(m) ==>
      var p := Planned(cfg, m, f);
      && TickOf(cfg, m.simTime) == m.ticks
      && (Output(cfg, m, f).Some? <==> Scheduled(cfg, p, m.ticks).Some?)
      && (Output(cfg, m, f).Some? ==>
            var o := Output(cfg, m, f).value;
            && Some(o.row) == Scheduled(cfg, p, m.ticks)
            && o.index == TickOf(cfg, o.simTime) - TickOf(cfg, o.chunkTimeline))
  }

  /** At any rates a frame executes by count, if every elapsed count short of the executing chunk's end counts the
      ticks between two tick times, or answers are never waited for. */
  lemma {:induction false} ExecutedRowMatchesTick(cfg: Config, frames: seq<Frame>, f: Frame)
    requires ValidConfig(cfg) && AllAnswer(cfg, frames) && Answers(cfg, f.answer)
    requires var chunk := Planned(cfg, After(cfg, frames), f).chunk;
      chunk.Some? && chunk.value != map[] ==> CountsFor(cfg, Horizon(chunk.value))
    ensures OnSchedule(cfg, After(cfg, frames), f)
  {
    hide After, Planned, TickOf, OnGrid, Units, MidTick, CountsFor, Horizon, OnSchedule;
    RunReachable(cfg, frames);
    var m := After(cfg, frames);
    if Due(m) {
      PlannedTimed(cfg, m, f);
      DueOnSchedule(cfg, m, f, Planned(cfg, m, f));
    } else {
      QuietOnSchedule(cfg, m, f);
    }
  }

  lemma QuietOnSchedule(cfg: Config, m: Machine, f: Frame)
    requires ValidConfig(cfg) && StoreFits(cfg, m.store) && Answers(cfg, f.answer) && !Due(m)
    ensures OnSchedule(cfg, m, f)
  {
    hide Due;
  }

  lemma DueOnSchedule(cfg: Config, m: Machine, f: Frame, p: Machine)
    requires Reachable(cfg, m) && Answers(cfg, f.answer) && Due(m) && p == Planned(cfg, m, f) && MidTick(cfg, p)
    requires p.chunk.Some? && p.chunk.value != map[] ==> CountsFor(cfg, Horizon(p.chunk.value))
    ensures OnSchedule(cfg, m, f)
  {
    hide Planned, TickOf, OnGrid, Units, Scheduled, MidTick, CountsFor, Horizon, AppliedRow, Due;
    DueOnGrid(cfg, m);
    PlannedClock(cfg, m, f);
    AppliedIsScheduled(cfg, p);
    AppliedTimes(p);
  }

  lemma AppliedTimes(p: Machine)
    ensures AppliedRow(p).Some? ==> AppliedRow(p).value.simTime == p.simTime && AppliedRow(p).value.chunkTimeline == p.chunkTimeline
  {
    hide HasRow;
  }

  lemma BackToSeconds(cfg: Config, start: real, index: nat, now: real, n: int)
    requires ValidConfig(cfg) && cfg.frameDt <= cfg.actionDt && OnGrid(cfg, now) && TickOf(cfg, now) == n
    requires -0.5 <= Units(cfg, start) + index as real - n as real < 0.5 + FrameUnits(cfg)
    ensures -(cfg.actionDt / 2.0 + cfg.frameDt) < start + index as real * cfg.actionDt - now < cfg.actionDt / 2.0 + cfg.frameDt
  {
    hide Units, OnGrid, TickOf, FrameUnits;
    GridRange(cfg, now);
    InSeconds(cfg, start);
    InSeconds(cfg, now);
    InSeconds(cfg, cfg.frameDt);
    SecondsWithin(Units(cfg, start), index as real, Units(cfg, now), FrameUnits(cfg), cfg.actionDt, start, now, cfg.frameDt);
  }

  /** A bound in periods of length `d`, in seconds. */
  lemma SecondsWithin(start: real, index: real, now: real, frame: real, d: real, startAt: real, nowAt: real, frameDt: real)
    requires d > 0.0 && -(0.5 + frame) < start + index - now < 0.5 + frame
    requires start * d == startAt && now * d == nowAt && frame * d == frameDt
    ensures -(d / 2.0 + frameDt) < startAt + index * d - nowAt < d / 2.0 + frameDt
  {
    Scaled(start + index - now, 0.5 + frame, d);
    Distribute(start, index, -now, d);
    Distribute(0.5, frame, 0.0, d);
  }

  lemma GridRange(cfg: Config, t: real)
    requires ValidConfig(cfg) && cfg.frameDt <= cfg.actionDt && OnGrid(cfg, t)
    ensures TickOf(cfg, t) as real <= Units(cfg, t) < TickOf(cfg, t) as real + FrameUnits(cfg)
    ensures FrameUnits(cfg) == Units(cfg, cfg.frameDt)
  {
  }

  lemma InSeconds(cfg: Config, t: real)
    requires cfg.actionDt > 0.0
    ensures Units(cfg, t) * cfg.actionDt == t
  {
  }

  lemma Distribute(a: real, b: real, c: real, d: real)
    ensures (a + b + c) * d == a * d + b * d + c * d
  {
  }

  lemma Scaled(u: real, w: real, d: real)
    requires -w < u < w && d > 0.0
    ensures -(w * d) < u * d < w * d
  {
    assert (w - u) * d > 0.0 && (w + u) * d > 0.0;
  }

  /** An applied row's nominal time is within half a control period and a frame of the simulated time. */
  ghost predicate Timely(cfg: Config, o: Applied) {
    var drift := o.chunkTimeline + o.index as real * cfg.actionDt - o.simTime;
    -(cfg.actionDt / 2.0 + cfg.frameDt) < drift < cfg.actionDt / 2.0 + cfg.frameDt
  }

  lemma AppliedIsTimely(cfg: Config, p: Machine)
    requires ValidConfig(cfg) && cfg.frameDt <= cfg.actionDt && MidTick(cfg, p) && HasRow(p)
    ensures Timely(cfg, AppliedRow(p).value)
  {
    hide OnGrid, OnFrame, Prompt, CountsFor, Units, FrameUnits, TickOf, Horizon;
    BackToSeconds(cfg, p.chunkTimeline, p.actionIndex, p.simTime, p.ticks);
  }

  lemma OutputIsTimely(cfg: Config, m: Machine, f: Frame)
    requires Reachable(cfg, m) && cfg.frameDt <= cfg.actionDt && Answers(cfg, f.answer) && Output(cfg, m, f).Some?
    ensures Timely(cfg, Output(cfg, m, f).value)
  {
    PlannedTimed(cfg, m, f);
    AppliedIsTimely(cfg, Planned(cfg, m, f));
  }

  /** Frames of at most one control period keep every executed row timely. */
  lemma {:induction false} ExecutedRowIsTimely(cfg: Config, frames: seq<Frame>, f: Frame)
    requires ValidConfig(cfg) && AllAnswer(cfg, frames) && Answers(cfg, f.answer) && cfg.frameDt <= cfg.actionDt
    ensures var o := Output(cfg, After(cfg, frames), f);
      o.Some? ==> Timely(cfg, o.value)
  {
    RunReachable(cfg, frames);
    if Output(cfg, After(cfg, frames), f).Some? {
      OutputIsTimely(cfg, After(cfg, frames), f);
    }
  }

  // ----- a replan leaves the frozen schedule alone -----

  /** A request that the machine has in flight, or makes on this very tick. */
  ghost predicate Requested(cfg: Config, m: Machine, r: Request)
    requires ValidConfig(cfg) && StoreFits(cfg, m.store)
  {
    m.future == Some(r) || (m.future.None? && r == Prepare(cfg, m))
  }

  lemma RequestedIsPending(cfg: Config, m: Machine, r: Request)
    requires ValidConfig(cfg) && Structure(cfg, m) && Requested(cfg, m, r)
    ensures Pending(cfg, m, r)
  {
    UniformKeys(cfg, m.store, m.simTime, m.policyStep);
  }

  /** Steps by which the store places a request after the executing chunk. */
  function Shift(cfg: Config, m: Machine, r: Request): int
    requires m.store.actionDt > 0.0
  {
    StepOf(m.store, r.timeline) - StepOf(m.store, m.chunkTimeline)
  }

  lemma ShiftNonNegative(cfg: Config, m: Machine, r: Request)
    requires ValidConfig(cfg) && Structure(cfg, m) && m.chunk.Some? && Pending(cfg, m, r)
    ensures Shift(cfg, m, r) >= 0
  {
    hide RoundHalfEven, Horizon, RtcOptions, WindowAt;
    var e := m.store.epoch.value;
    UnitsLinear(cfg, r.timeline - e, m.chunkTimeline - e);
    UnitsLinear(cfg, m.chunkTimeline - e, r.timeline - e);
    RoundHalfEvenMonotone(Units(cfg, m.chunkTimeline - e), Units(cfg, r.timeline - e));
  }

  /** Every step the executing chunk covers is answered by the executing chunk. */
  lemma {:induction false} NewestIsExecuting(cfg: Config, m: Machine, step: int)
    requires ValidConfig(cfg) && Structure(cfg, m) && m.chunk.Some?
    requires StepOf(m.store, m.chunkTimeline) <= step < StepOf(m.store, m.chunkTimeline) + Horizon(m.chunk.value)
    ensures Newest(m.store.chunks, step) == Some(RowsAt(m.chunk.value, step - StepOf(m.store, m.chunkTimeline)))
  {
  }

  /** The window's covered run reaches at least as far as the executing chunk. */
  lemma {:induction false} CoveredThrough(cfg: Config, m: Machine, start: int, i: nat)
    requires ValidConfig(cfg) && Structure(cfg, m) && m.chunk.Some? && i < cfg.actionHorizon
    requires StepOf(m.store, m.chunkTimeline) <= start && start + i < StepOf(m.store, m.chunkTimeline) + Horizon(m.chunk.value)
    ensures CoveredPrefix(m.store.chunks, start, cfg.actionHorizon) > i
  {
    hide StepOf, Pending, Executing, Units;
    var valid := CoveredPrefix(m.store.chunks, start, cfg.actionHorizon);
    if valid <= i {
      NewestIsExecuting(cfg, m, start + valid);
    }
  }

  lemma SeedFollowsExecuting(cfg: Config, m: Machine, r: Request, key: string, i: nat)
    requires ValidConfig(cfg) && Structure(cfg, m) && m.chunk.Some? && Pending(cfg, m, r)
    requires key in cfg.keys && i < cfg.actionHorizon && Shift(cfg, m, r) + i < Horizon(m.chunk.value)
    ensures Shift(cfg, m, r) >= 0
    ensures r.seed.Some? && key in r.seed.value && |r.seed.value[key]| == cfg.actionHorizon
    ensures r.seed.value[key][i] == m.chunk.value[key][Shift(cfg, m, r) + i]
  {
    hide StepOf, RtcOptions, CoveredPrefix, Newest, Horizon;
    ShiftNonNegative(cfg, m, r);
    UniformKeys(cfg, m.store, r.timeline, r.policyStep);
    var start := StepOf(m.store, r.timeline);
    CoveredThrough(cfg, m, start, i);
    NewestIsExecuting(cfg, m, start + i);
    WindowRows(m.store, r.timeline, r.policyStep, cfg.actionHorizon, key, i);
  }

  lemma StoredRow(policy: Action, seed: Action, keys: seq<string>, frozen: int, key: string, i: nat)
    requires key in policy && key in seed && key in keys && i < frozen && i < |policy[key]| && i < |seed[key]|
    ensures Stored(policy, Some(seed), keys, frozen)[key][i] == seed[key][i]
  {
  }

  /** The options are built for a seed of `action_horizon` rows, and never freeze more than it has. */
  lemma FrozenWithinSeed(cfg: Config, m: Machine, r: Request)
    requires ValidConfig(cfg) && StoreFits(cfg, m.store) && Pending(cfg, m, r) && r.options.Some?
    ensures r.options.value.frozen <= cfg.actionHorizon
  {
    UniformKeys(cfg, m.store, r.timeline, r.policyStep);
  }

  /** For any frame length: a frozen row of a new chunk is the row the executing chunk holds `Shift` rows later,
      as long as it has one. */
  lemma FrozenRowsShift(cfg: Config, m: Machine, r: Request, answer: Action, key: string, i: nat)
    requires ValidConfig(cfg) && Structure(cfg, m) && m.chunk.Some? && Pending(cfg, m, r) && Answers(cfg, answer)
    requires key in cfg.keys && i < |answer[key]| && r.options.Some? && i < r.options.value.frozen
    requires Shift(cfg, m, r) + i < Horizon(m.chunk.value)
    ensures Shift(cfg, m, r) >= 0
    ensures ChunkFrom(cfg, r, answer).Keys == KeySet(cfg) && |ChunkFrom(cfg, r, answer)[key]| == |answer[key]|
    ensures ChunkFrom(cfg, r, answer)[key][i] == m.chunk.value[key][Shift(cfg, m, r) + i]
  {
    FrozenWithinSeed(cfg, m, r);
    ChunkFromKeys(cfg, r, answer);
    SeedFollowsExecuting(cfg, m, r, key, i);
    StoredRow(Selected(cfg.keys, answer), r.seed.value, cfg.keys, r.options.value.frozen, key, i);
  }

  lemma ShiftIsTicks(cfg: Config, m: Machine, r: Request)
    requires Reachable(cfg, m) && m.chunk.Some? && Prompt(cfg) && OnGrid(cfg, r.timeline)
    ensures Shift(cfg, m, r) == TickOf(cfg, r.timeline) - TickOf(cfg, m.chunkTimeline)
  {
    var e := m.store.epoch.value;
    GridStepsExact(cfg, e, r.timeline);
    GridStepsExact(cfg, e, m.chunkTimeline);
  }

  lemma RequestedOnGrid(cfg: Config, m: Machine, r: Request)
    requires Reachable(cfg, m) && Requested(cfg, m, r) && (m.future.None? ==> Due(m))
    ensures OnGrid(cfg, r.timeline)
    ensures TickOf(cfg, r.timeline) <= m.ticks
    ensures m.future.None? ==> TickOf(cfg, r.timeline) == m.ticks
  {
    if m.future.None? {
      DueOnGrid(cfg, m);
    }
  }

  /** The rows two schedules agree on, tick by tick. */
  lemma {:induction false} SameRows(a: Action, b: Action, i: nat, j: nat)
    requires a != map[] && b != map[] && a.Keys == b.Keys && i < Horizon(a) && j < Horizon(b)
    requires forall k :: k in a ==> a[k][i] == b[k][j]
    ensures RowsAt(a, i) == RowsAt(b, j)
  {
  }

  /** `FrozenRowsShift` for whole rows. */
  lemma FrozenRow(cfg: Config, m: Machine, r: Request, answer: Action, i: nat)
    requires ValidConfig(cfg) && Structure(cfg, m) && m.chunk.Some? && Pending(cfg, m, r) && Answers(cfg, answer)
    requires r.options.Some? && i < r.options.value.frozen && Shift(cfg, m, r) + i < Horizon(m.chunk.value)
    ensures var chunk := ChunkFrom(cfg, r, answer);
      && chunk != map[]
      && (i < Horizon(chunk) ==> Shift(cfg, m, r) >= 0 && RowsAt(chunk, i) == RowsAt(m.chunk.value, Shift(cfg, m, r) + i))
  {
    ChunkFromKeys(cfg, r, answer);
    var chunk := ChunkFrom(cfg, r, answer);
    ShiftNonNegative(cfg, m, r);
    if i < Horizon(chunk) {
      forall k | k in chunk ensures chunk[k][i] == m.chunk.value[k][Shift(cfg, m, r) + i] {
        FrozenRowsShift(cfg, m, r, answer, k, i);
      }
      SameRows(chunk, m.chunk.value, i, Shift(cfg, m, r) + i);
    }
  }

  lemma FrozenTick(cfg: Config, m: Machine, r: Request, answer: Action, tick: int)
    requires Reachable(cfg, m) && m.chunk.Some? && Pending(cfg, m, r) && Answers(cfg, answer)
    requires Prompt(cfg) && OnGrid(cfg, r.timeline) && r.options.Some?
    requires 0 <= tick - TickOf(cfg, r.timeline) < r.options.value.frozen
    requires Scheduled(cfg, m, tick).Some?
    ensures var chunk := ChunkFrom(cfg, r, answer);
      && chunk != map[]
      && (tick - TickOf(cfg, r.timeline) < Horizon(chunk) ==>
            Some(RowsAt(chunk, tick - TickOf(cfg, r.timeline))) == Scheduled(cfg, m, tick))
  {
    hide Pending, OnGrid, StepOf, Units;
    ShiftIsTicks(cfg, m, r);
    FrozenRow(cfg, m, r, answer, tick - TickOf(cfg, r.timeline));
  }

  /** After an install the schedule is the old one (stale answer) or that of the stored chunk. */
  lemma InstalledSchedule(cfg: Config, m: Machine, r: Request, answer: Action, tick: int)
    requires ValidConfig(cfg) && StoreFits(cfg, m.store) && Answers(cfg, answer)
    ensures ChunkFrom(cfg, r, answer) != map[]
    ensures var s := Scheduled(cfg, Install(cfg, m, r, answer), tick);
      var chunk := ChunkFrom(cfg, r, answer);
      var i := tick - TickOf(cfg, r.timeline);
      s == Scheduled(cfg, m, tick) || (s.Some? ==> 0 <= i < Horizon(chunk) && s == Some(RowsAt(chunk, i)))
  {
    ChunkFromKeys(cfg, r, answer);
  }

  lemma PendingKeepsSchedule(cfg: Config, m: Machine, r: Request, answer: Action, tick: int)
    requires Reachable(cfg, m) && Prompt(cfg) && Pending(cfg, m, r) && OnGrid(cfg, r.timeline) && Answers(cfg, answer)
    requires FreezesTick(cfg, r, tick)
    ensures KeptAt(cfg, m, r, answer, tick)
  {
    hide Pending, OnGrid, StepOf, Units, Timed;
    InstalledSchedule(cfg, m.(future := None), r, answer, tick);
    ScheduledIgnoresFuture(cfg, m, tick);
    if Scheduled(cfg, m, tick).Some? {
      FrozenTick(cfg, m, r, answer, tick);
    }
  }

  lemma ScheduledIgnoresFuture(cfg: Config, m: Machine, tick: int)
    requires ValidConfig(cfg)
    ensures Scheduled(cfg, m.(future := None), tick) == Scheduled(cfg, m, tick)
  {
  }

  /** Installing an answer leaves a tick's row as it was, wherever old and new schedule both have one. */
  ghost predicate KeptAt(cfg: Config, m: Machine, r: Request, answer: Action, tick: int)
    requires ValidConfig(cfg) && StoreFits(cfg, m.store) && Answers(cfg, answer)
  {
    var before, after := Scheduled(cfg, m, tick), Scheduled(cfg, Install(cfg, m.(future := None), r, answer), tick);
    before.Some? && after.Some? ==> after == before
  }

  /** If this tick's request freezes `tick`, installing its answer keeps that tick's row. */
  ghost predicate KeepsTick(cfg: Config, m: Machine, r: Request, answer: Action, tick: int)
    requires ValidConfig(cfg) && StoreFits(cfg, m.store) && Answers(cfg, answer)
  {
    Due(m) && Requested(cfg, m, r) && FreezesTick(cfg, r, tick) ==> KeptAt(cfg, m, r, answer, tick)
  }

  /** Main continuity result. Whenever a request's answer is installed, on this tick or a later one, every tick
      inside its frozen window that the executing chunk had a row for keeps exactly that row. */
  lemma {:induction false} InstallKeepsSchedule(cfg: Config, frames: seq<Frame>, r: Request, answer: Action, tick: int)
    requires ValidConfig(cfg) && AllAnswer(cfg, frames) && Answers(cfg, answer)
    requires Prompt(cfg)
    ensures KeepsTick(cfg, After(cfg, frames), r, answer, tick)
  {
    hide Pending, StepOf, Units, Timed;
    RunReachable(cfg, frames);
    if Due(After(cfg, frames)) && Requested(cfg, After(cfg, frames), r) && FreezesTick(cfg, r, tick) {
      RequestedIsPending(cfg, After(cfg, frames), r);
      RequestedOnGrid(cfg, After(cfg, frames), r);
      PendingKeepsSchedule(cfg, After(cfg, frames), r, answer, tick);
    }
  }

  /** A tick inside the frozen window of a request. */
  ghost predicate FreezesTick(cfg: Config, r: Request, tick: int)
    requires cfg.actionDt > 0.0
  {
    r.options.Some? && TickOf(cfg, r.timeline) <= tick < TickOf(cfg, r.timeline) + r.options.value.frozen
  }
}
