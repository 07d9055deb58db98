/** From which states the replan machine can still execute a row. */
module ReplanLiveness {
  import opened Rounding
  import opened ActionChunks
  import opened SeedStore
  import opened ReplanMachine
  import opened ReplanTheorems
  import opened ReplanGuarantees
  import opened ReplanRuns
  import opened ReplanTiming

  /** What every state of a run of full answers keeps. */
  ghost predicate FullReachable(cfg: Config, m: Machine) {
    Reachable(cfg, m) && FullChunk(cfg, m)
  }

  lemma FullStepReachable(cfg: Config, m: Machine, f: Frame)
    requires FullReachable(cfg, m) && FullAnswer(cfg, f.answer)
    ensures Answers(cfg, f.answer) && FullReachable(cfg, Step(cfg, m, f))
  {
    hide Structure, Timed, Step, FullChunk;
    FitsStore(cfg, m);
    FullOffers(cfg, f.answer);
    StepReachable(cfg, m, f);
    FullStep(cfg, m, f);
  }

  lemma FitsStore(cfg: Config, m: Machine)
    requires Reachable(cfg, m)
    ensures StoreFits(cfg, m.store)
  {
  }

  /** The machine after further frames with full answers. */
  ghost function Continue(cfg: Config, m: Machine, frames: seq<Frame>): (r: Machine)
    requires FullReachable(cfg, m) && AllFull(cfg, frames)
    ensures FullReachable(cfg, r)
    decreases |frames|
  {
    if frames == [] then m
    else
      FullStepReachable(cfg, m, frames[0]);
      Continue(cfg, Step(cfg, m, frames[0]), frames[1..])
  }

  ghost predicate ExecutesAfter(cfg: Config, m: Machine, frames: seq<Frame>, f: Frame)
    requires FullReachable(cfg, m)
  {
    && AllFull(cfg, frames) && FullAnswer(cfg, f.answer)
    && (FullOffers(cfg, f.answer); Output(cfg, Continue(cfg, m, frames), f).Some?)
  }

  /** Some continuation executes another row. */
  ghost predicate CanExecute(cfg: Config, m: Machine)
    requires FullReachable(cfg, m)
  {
    exists frames, f :: ExecutesAfter(cfg, m, frames, f)
  }

  // ----- the condition -----

  /** Frames until the next tick is due. */
  function WaitFrames(cfg: Config, m: Machine): nat
    requires cfg.frameDt > 0.0
  {
    var gap := m.nextPolicyTime - m.simTime;
    if gap <= 0.0 then 0 else var n := -((-(gap / cfg.frameDt)).Floor); if n < 0 then 0 else n
  }

  /** When the next tick will happen. */
  function NextTick(cfg: Config, m: Machine): real
    requires cfg.frameDt > 0.0
  {
    m.simTime + WaitFrames(cfg, m) as real * cfg.frameDt
  }

  /** The answer in flight, if there is one, would not be stale at the next tick. */
  ghost predicate InTime(cfg: Config, m: Machine)
    requires cfg.frameDt > 0.0
  {
    m.future.Some? && ElapsedActionSteps(m.future.value.timeline, NextTick(cfg, m), cfg.actionDt) < cfg.actionHorizon
  }

  /** An answer that comes one tick after its request is not stale: neither a period nor a frame fills the horizon. */
  ghost predicate AnswersInTime(cfg: Config)
    requires cfg.actionDt > 0.0
  {
    RoundHalfUp(if FrameUnits(cfg) > 1.0 then FrameUnits(cfg) else 1.0) < cfg.actionHorizon
  }

  /** A row is left, or the answer in flight comes in time, or the machine may ask and be answered in time. */
  ghost predicate Alive(cfg: Config, m: Machine)
    requires ValidConfig(cfg)
  {
    m.enabled && (HasRow(m) || InTime(cfg, m) || (NeedsReplan(cfg, m) && (!cfg.asynchronous || AnswersInTime(cfg))))
  }

  // ----- the next tick -----

  lemma NotYet(cfg: Config, m: Machine)
    requires ValidConfig(cfg) && m.simTime < m.nextPolicyTime
    ensures var later := m.(simTime := m.simTime + cfg.frameDt);
      WaitFrames(cfg, m) == WaitFrames(cfg, later) + 1 && NextTick(cfg, m) == NextTick(cfg, later)
  {
    var later := m.(simTime := m.simTime + cfg.frameDt);
    var gap, left := m.nextPolicyTime - m.simTime, m.nextPolicyTime - later.simTime;
    var x, y := gap / cfg.frameDt, left / cfg.frameDt;
    OneFrameLess(gap, left, cfg.frameDt);
    assert WaitFrames(cfg, m) == WaitFrames(cfg, later) + 1;
    var n := WaitFrames(cfg, later) as real;
    assert (n + 1.0) * cfg.frameDt == n * cfg.frameDt + cfg.frameDt;
  }

  lemma OneFrameLess(gap: real, left: real, d: real)
    requires d > 0.0 && left == gap - d && gap > 0.0
    ensures left / d == gap / d - 1.0 && gap / d > 0.0
    ensures left <= 0.0 <==> gap / d <= 1.0
  {
    var x := gap / d;
    assert x * d == gap;
    assert (x - 1.0) * d == left;
    var y := left / d;
    assert y * d == left;
    CompareParts(x - 1.0, y, d, left, left);
    CompareParts(y, x - 1.0, d, left, left);
    SignOfProduct(x, d);
    SignOfProduct(x - 1.0, d);
  }

  /** The next tick is on the grid, with the machine's own number, and not in the past. */
  lemma {:induction false} NextTickOnGrid(cfg: Config, m: Machine)
    requires ValidConfig(cfg) && Timed(cfg, m) && m.enabled
    ensures OnGrid(cfg, NextTick(cfg, m)) && TickOf(cfg, NextTick(cfg, m)) == m.ticks
    ensures m.simTime <= NextTick(cfg, m) && m.ticks as real <= Units(cfg, NextTick(cfg, m))
    decreases WaitFrames(cfg, m)
  {
    hide Timed, OnGrid, TickOf, Units;
    if Due(m) {
      assert 0.0 * cfg.frameDt == 0.0;
      DueOnGrid(cfg, m);
    } else {
      NotYet(cfg, m);
      QuietTimed(cfg, m);
      NextTickOnGrid(cfg, m.(simTime := m.simTime + cfg.frameDt));
    }
  }

  // ----- a machine that is not alive never executes again -----

  lemma ElapsedMonotone(cfg: Config, start: real, a: real, b: real)
    requires ValidConfig(cfg) && a <= b
    ensures ElapsedActionSteps(start, a, cfg.actionDt) <= ElapsedActionSteps(start, b, cfg.actionDt)
  {
    var x := if a - start < 0.0 then 0.0 else a - start;
    var y := if b - start < 0.0 then 0.0 else b - start;
    UnitsLinear(cfg, x, y);
    assert Units(cfg, x) == x / cfg.actionDt && Units(cfg, y) == y / cfg.actionDt;
  }

  /** One tick later a machine's clock is at least half a period and at least a frame further. */
  lemma TickGap(cfg: Config, now: real, next: real, k: nat)
    requires ValidConfig(cfg) && OnGrid(cfg, now) && TickOf(cfg, now) == k && (k + 1) as real <= Units(cfg, next)
    requires now + cfg.frameDt <= next
    ensures Units(cfg, next) - Units(cfg, now) >= FrameUnits(cfg)
    ensures cfg.frameDt <= cfg.actionDt ==> Units(cfg, next) - Units(cfg, now) >= 0.5
  {
    hide OnFrame, TickOf;
    UnitsLinear(cfg, now, cfg.frameDt);
    UnitsLinear(cfg, now + cfg.frameDt, next);
    if cfg.frameDt <= cfg.actionDt {
      ShortTickOf(cfg, now);
    }
  }

  lemma StaleGap(cfg: Config, gap: real)
    requires ValidConfig(cfg) && !AnswersInTime(cfg)
    requires gap >= FrameUnits(cfg) && (FrameUnits(cfg) <= 1.0 ==> gap >= 0.5)
    ensures RoundHalfUp(gap) >= cfg.actionHorizon
  {
    hide FrameUnits;
  }

  lemma LongUnits(cfg: Config)
    requires ValidConfig(cfg)
    ensures cfg.frameDt <= cfg.actionDt <==> FrameUnits(cfg) <= 1.0
  {
    UnitsLinear(cfg, cfg.frameDt, cfg.actionDt);
  }

  /** Asking now and being answered at the next tick is too late, if the rates say so. */
  lemma AskedTooLate(cfg: Config, m: Machine, after: Machine)
    requires FullReachable(cfg, m) && Due(m) && Timed(cfg, after) && after.enabled && after.ticks == m.ticks + 1
    requires after.simTime == m.simTime + cfg.frameDt && !AnswersInTime(cfg)
    ensures ElapsedActionSteps(m.simTime, NextTick(cfg, after), cfg.actionDt) >= cfg.actionHorizon
  {
    hide Structure, Timed, OnGrid, TickOf, Units, FullChunk, AnswersInTime, RoundHalfUp, ElapsedActionSteps;
    DueOnGrid(cfg, m);
    NextTickOnGrid(cfg, after);
    TickGap(cfg, m.simTime, NextTick(cfg, after), m.ticks);
    LongUnits(cfg);
    StaleGap(cfg, Units(cfg, NextTick(cfg, after)) - Units(cfg, m.simTime));
    ElapsedUnits(cfg, m.simTime, NextTick(cfg, after));
  }

  lemma DueNow(cfg: Config, m: Machine)
    requires ValidConfig(cfg) && Due(m)
    ensures NextTick(cfg, m) == m.simTime
  {
    assert 0.0 * cfg.frameDt == 0.0;
  }

  /** A due machine that is not alive: no row, no install, and at most a request. */
  lemma DeadPlanned(cfg: Config, m: Machine, f: Frame)
    requires FullReachable(cfg, m) && FullAnswer(cfg, f.answer) && Due(m) && !Alive(cfg, m)
    ensures Answers(cfg, f.answer)
    ensures var p := Planned(cfg, m, f);
      && p.chunk == m.chunk && p.actionIndex == m.actionIndex && p.enabled && !HasRow(p)
      && (p.future.Some? ==> p.future == m.future || (p.future.value.timeline == m.simTime && !AnswersInTime(cfg)))
  {
    hide Executing, Timed, ElapsedActionSteps, Pending, StepOf, WindowAt, OptionsFor, AnswersInTime;
    FullOffers(cfg, f.answer);
    DueNow(cfg, m);
    if m.future.Some? {
      ChunkFromKeys(cfg, m.future.value, f.answer);
    }
    assert NeedsReplan(cfg, m) ==> cfg.asynchronous && !AnswersInTime(cfg);
  }

  lemma DeadStep(cfg: Config, m: Machine, f: Frame)
    requires FullReachable(cfg, m) && FullAnswer(cfg, f.answer) && !Alive(cfg, m)
    ensures Answers(cfg, f.answer)
    ensures Output(cfg, m, f).None? && FullReachable(cfg, Step(cfg, m, f)) && !Alive(cfg, Step(cfg, m, f))
  {
    hide Structure, Timed, ElapsedActionSteps, FullChunk, AnswersInTime, Planned, NextTick;
    FitsStore(cfg, m);
    FullStepReachable(cfg, m, f);
    if Due(m) {
      DeadTick(cfg, m, f);
    } else if m.enabled {
      NotYet(cfg, m);
    }
  }

  lemma DeadTick(cfg: Config, m: Machine, f: Frame)
    requires FullReachable(cfg, m) && FullAnswer(cfg, f.answer) && Due(m) && !Alive(cfg, m)
    ensures Answers(cfg, f.answer)
    ensures Output(cfg, m, f).None? && !Alive(cfg, Step(cfg, m, f))
  {
    hide Structure, Timed, ElapsedActionSteps, FullChunk, AnswersInTime, Planned, NextTick;
    FitsStore(cfg, m);
    FullStepReachable(cfg, m, f);
    DeadPlanned(cfg, m, f);
    PlannedClock(cfg, m, f);
    var after := Step(cfg, m, f);
    assert after.enabled && after.ticks == m.ticks + 1 && after.simTime == m.simTime + cfg.frameDt;
    NextTickOnGrid(cfg, after);
    if !AnswersInTime(cfg) {
      AskedTooLate(cfg, m, after);
    }
    if m.future.Some? {
      DueNow(cfg, m);
      ElapsedMonotone(cfg, m.future.value.timeline, m.simTime, NextTick(cfg, after));
    }
  }

  lemma {:induction false} NeverExecutes(cfg: Config, m: Machine, frames: seq<Frame>, f: Frame)
    requires FullReachable(cfg, m) && !Alive(cfg, m)
    ensures !ExecutesAfter(cfg, m, frames, f)
    decreases |frames|
  {
    hide Executing, Timed, FullChunk, Step, Output, Alive, FullAnswer;
    if AllFull(cfg, frames) && FullAnswer(cfg, f.answer) {
      if frames == [] {
        DeadStep(cfg, m, f);
      } else {
        DeadStep(cfg, m, frames[0]);
        NeverExecutes(cfg, Step(cfg, m, frames[0]), frames[1..], f);
      }
    }
  }

  // ----- every other machine can -----

  lemma OneFrameEarlier(cfg: Config, m: Machine, f: Frame)
    requires FullReachable(cfg, m) && FullAnswer(cfg, f.answer)
    ensures Answers(cfg, f.answer) && FullReachable(cfg, Step(cfg, m, f))
    ensures CanExecute(cfg, Step(cfg, m, f)) ==> CanExecute(cfg, m)
  {
    hide Executing, Timed, FullChunk, Step, Output, FullAnswer;
    FullStepReachable(cfg, m, f);
    if CanExecute(cfg, Step(cfg, m, f)) {
      var frames, g :| ExecutesAfter(cfg, Step(cfg, m, f), frames, g);
      assert ([f] + frames)[1..] == frames;
      assert ExecutesAfter(cfg, m, [f] + frames, g);
    }
  }

  lemma ExecutesNow(cfg: Config, m: Machine, f: Frame)
    requires FullReachable(cfg, m) && FullAnswer(cfg, f.answer)
    ensures Answers(cfg, f.answer)
    ensures Output(cfg, m, f).Some? ==> CanExecute(cfg, m)
  {
    hide Executing, Timed, FullChunk, Output, FullAnswer;
    FullOffers(cfg, f.answer);
    assert Output(cfg, m, f).Some? ==> ExecutesAfter(cfg, m, [], f);
  }

  /** A due machine with a row executes it, or the first row of a new chunk; a synchronous one that asks does too. */
  lemma RowExecutes(cfg: Config, m: Machine)
    requires FullReachable(cfg, m) && Due(m) && (HasRow(m) || (NeedsReplan(cfg, m) && !cfg.asynchronous))
    ensures CanExecute(cfg, m)
  {
    hide Executing, Timed, Pending, StepOf, Prepare, Install;
    ExecutesNow(cfg, m, Wait(cfg));
    FullOffers(cfg, Flat(cfg));
    if !cfg.asynchronous {
      SubmitAtOnce(cfg, m, Wait(cfg), cfg.actionHorizon);
    }
  }

  /** An answer in time is executed on the spot. */
  lemma AnswerExecutes(cfg: Config, m: Machine)
    requires FullReachable(cfg, m) && Due(m) && InTime(cfg, m)
    ensures CanExecute(cfg, m)
  {
    hide StepOf, Executing, Timed, Pending, ElapsedActionSteps;
    DueNow(cfg, m);
    ExecutesNow(cfg, m, Arrive(cfg));
    FullOffers(cfg, Flat(cfg));
    ChunkFromKeys(cfg, m.future.value, Flat(cfg));
    assert HasRow(Consume(cfg, m, Arrive(cfg)));
    assert Planned(cfg, m, Arrive(cfg)).chunk == Consume(cfg, m, Arrive(cfg)).chunk;
  }

  /** An asynchronous machine that may ask has, after a due tick, a row executed or a request of that very tick. */
  lemma AsksNow(cfg: Config, m: Machine)
    requires FullReachable(cfg, m) && Due(m) && cfg.asynchronous && NeedsReplan(cfg, m) && !HasRow(m) && !InTime(cfg, m)
    ensures Answers(cfg, Flat(cfg))
    ensures var after := Step(cfg, m, Arrive(cfg));
      && after.enabled && NeedsReplan(cfg, after) && after.future.Some? && after.future.value.timeline == m.simTime
      && after.ticks == m.ticks + 1 && after.simTime == m.simTime + cfg.frameDt && !HasRow(after)
  {
    hide StepOf, Executing, Timed, Pending, ElapsedActionSteps, WindowAt, OptionsFor;
    DueNow(cfg, m);
    FullOffers(cfg, Flat(cfg));
    if m.future.Some? {
      ChunkFromKeys(cfg, m.future.value, Flat(cfg));
    }
    var c := Consume(cfg, m, Arrive(cfg));
    assert c.chunk == m.chunk && c.actionIndex == m.actionIndex && c.future.None?;
    assert Planned(cfg, m, Arrive(cfg)) == c.(future := Some(Prepare(cfg, c)));
  }

  /** Quiet frames change nothing but the time: what holds on the next due frame can be waited for. */
  lemma {:induction false} WaitForTick(cfg: Config, m: Machine)
    requires FullReachable(cfg, m) && m.enabled
    requires forall later :: FullReachable(cfg, later) && Due(later) && later == m.(simTime := NextTick(cfg, m)) ==> CanExecute(cfg, later)
    ensures CanExecute(cfg, m)
    decreases WaitFrames(cfg, m)
  {
    hide Executing, Timed, FullChunk, CanExecute, Step;
    if Due(m) {
      DueNow(cfg, m);
      assert m == m.(simTime := NextTick(cfg, m));
    } else {
      NotYet(cfg, m);
      OneFrameEarlier(cfg, m, Wait(cfg));
      QuietFrame(cfg, m);
      WaitForTick(cfg, Step(cfg, m, Wait(cfg)));
    }
  }

  lemma QuietFrame(cfg: Config, m: Machine)
    requires FullReachable(cfg, m) && !Due(m)
    ensures Answers(cfg, Wait(cfg).answer) && Step(cfg, m, Wait(cfg)) == m.(simTime := m.simTime + cfg.frameDt)
  {
    hide Executing, Timed, FullChunk, Planned;
    FullOffers(cfg, Flat(cfg));
  }

  lemma SameAtTick(cfg: Config, m: Machine)
    requires ValidConfig(cfg) && Due(m.(simTime := NextTick(cfg, m)))
    ensures NextTick(cfg, m.(simTime := NextTick(cfg, m))) == NextTick(cfg, m)
  {
    DueNow(cfg, m.(simTime := NextTick(cfg, m)));
  }

  /** A row, an answer in time, or a synchronous replan. */
  lemma SoonExecutes(cfg: Config, m: Machine)
    requires FullReachable(cfg, m) && m.enabled
    requires HasRow(m) || InTime(cfg, m) || (NeedsReplan(cfg, m) && !cfg.asynchronous)
    ensures CanExecute(cfg, m)
  {
    hide Executing, Timed, FullChunk, CanExecute, NextTick, WaitFrames;
    forall later | FullReachable(cfg, later) && Due(later) && later == m.(simTime := NextTick(cfg, m)) ensures CanExecute(cfg, later) {
      SameAtTick(cfg, m);
      if InTime(cfg, m) {
        AnswerExecutes(cfg, later);
      } else {
        RowExecutes(cfg, later);
      }
    }
    WaitForTick(cfg, m);
  }

  /** A machine that may ask, with no row left and no answer coming in time. */
  ghost predicate MustAsk(cfg: Config, m: Machine)
    requires ValidConfig(cfg)
  {
    cfg.asynchronous && m.enabled && NeedsReplan(cfg, m) && !HasRow(m) && !InTime(cfg, m)
  }

  /** The time of the tick after a request, in periods: less than a period and a frame behind its number. */
  lemma NextTickRange(cfg: Config, m: Machine)
    requires ValidConfig(cfg) && Timed(cfg, m) && m.enabled && cfg.frameDt <= cfg.actionDt
    ensures m.ticks as real <= Units(cfg, NextTick(cfg, m)) < m.ticks as real + 1.0
  {
    hide Timed, TickOf, OnFrame, NextTick;
    NextTickOnGrid(cfg, m);
    ShortTickOf(cfg, NextTick(cfg, m));
    LongUnits(cfg);
  }

  /** Of two gaps between three ticks in a row one is less than one and a half periods. */
  lemma TwoGaps(a: real, b: real, c: real, k: int, horizon: nat)
    requires k as real <= a && a <= b && c < (k + 3) as real && horizon >= 2 && RoundHalfUp(b - a) >= horizon
    ensures RoundHalfUp(c - b) < horizon
  {
  }

  /** Asked on a second tick, the answer to the next one is in time if that to the first was not. */
  lemma SecondAsk(cfg: Config, m: Machine, t: real)
    requires FullReachable(cfg, m) && Due(m) && MustAsk(cfg, m) && AnswersInTime(cfg) && cfg.frameDt <= cfg.actionDt
    requires t <= m.simTime && ElapsedActionSteps(t, m.simTime, cfg.actionDt) >= cfg.actionHorizon
    requires m.ticks >= 1 && (m.ticks - 1) as real <= Units(cfg, t)
    ensures CanExecute(cfg, m)
  {
    hide Executing, Timed, Positioned, FullChunk, CanExecute, NextTick, ElapsedActionSteps, RoundHalfUp, Step, OnGrid, Units;
    AsksNow(cfg, m);
    OneFrameEarlier(cfg, m, Arrive(cfg));
    var after := Step(cfg, m, Arrive(cfg));
    NextTickRange(cfg, after);
    NextTickOnGrid(cfg, after);
    LongUnits(cfg);
    TwoRows(cfg);
    UnitsLinear(cfg, t, m.simTime);
    ElapsedUnits(cfg, t, m.simTime);
    ElapsedUnits(cfg, m.simTime, NextTick(cfg, after));
    TwoGaps(Units(cfg, t), Units(cfg, m.simTime), Units(cfg, NextTick(cfg, after)), m.ticks - 1, cfg.actionHorizon);
    SoonExecutes(cfg, after);
  }

  lemma TwoRows(cfg: Config)
    requires ValidConfig(cfg) && AnswersInTime(cfg) && FrameUnits(cfg) <= 1.0
    ensures cfg.actionHorizon >= 2
  {
    hide FrameUnits;
  }

  lemma LongAnswer(cfg: Config, m: Machine, after: Machine)
    requires ValidConfig(cfg) && AnswersInTime(cfg) && cfg.frameDt > cfg.actionDt && Timed(cfg, after) && after.enabled
    requires after.future.Some? && after.future.value.timeline == m.simTime && after.simTime == m.simTime + cfg.frameDt
    ensures InTime(cfg, after)
  {
    hide Timed, ElapsedActionSteps, RoundHalfUp;
    AlwaysDue(cfg, after);
    DueNow(cfg, after);
    LongUnits(cfg);
    UnitsLinear(cfg, m.simTime, cfg.frameDt);
    ElapsedUnits(cfg, m.simTime, after.simTime);
  }

  lemma FirstAsk(cfg: Config, m: Machine)
    requires FullReachable(cfg, m) && Due(m) && MustAsk(cfg, m) && AnswersInTime(cfg)
    ensures CanExecute(cfg, m)
  {
    hide Executing, Timed, Positioned, FullChunk, CanExecute, NextTick, ElapsedActionSteps, Step, OnGrid, TickOf, Units, AnswersInTime, WaitFrames;
    AsksNow(cfg, m);
    OneFrameEarlier(cfg, m, Arrive(cfg));
    var after := Step(cfg, m, Arrive(cfg));
    if cfg.frameDt > cfg.actionDt {
      LongAnswer(cfg, m, after);
    }
    if InTime(cfg, after) {
      SoonExecutes(cfg, after);
    } else {
      DueOnGrid(cfg, m);
      NextTickOnGrid(cfg, after);
      forall later | FullReachable(cfg, later) && Due(later) && later == after.(simTime := NextTick(cfg, after))
        ensures CanExecute(cfg, later)
      {
        SameAtTick(cfg, after);
        SecondAsk(cfg, later, m.simTime);
      }
      WaitForTick(cfg, after);
    }
  }

  lemma AliveCanExecute(cfg: Config, m: Machine)
    requires FullReachable(cfg, m) && Alive(cfg, m)
    ensures CanExecute(cfg, m)
  {
    hide Executing, Timed, Positioned, FullChunk, CanExecute, NextTick, ElapsedActionSteps, Step, AnswersInTime, WaitFrames;
    if HasRow(m) || InTime(cfg, m) || (NeedsReplan(cfg, m) && !cfg.asynchronous) {
      SoonExecutes(cfg, m);
    } else {
      forall later | FullReachable(cfg, later) && Due(later) && later == m.(simTime := NextTick(cfg, m)) ensures CanExecute(cfg, later) {
        SameAtTick(cfg, m);
        FirstAsk(cfg, later);
      }
      WaitForTick(cfg, m);
    }
  }

  /** After any run of full answers some continuation executes another row exactly when a row is left, the answer in
      flight comes in time, or the machine may ask and be answered in time. */
  lemma {:induction false} CanExecuteIff(cfg: Config, frames: seq<Frame>)
    requires ValidConfig(cfg) && AllFull(cfg, frames)
    ensures AllAnswer(cfg, frames) && FullReachable(cfg, After(cfg, frames))
    ensures CanExecute(cfg, After(cfg, frames)) <==> Alive(cfg, After(cfg, frames))
  {
    hide Executing, Timed, FullChunk, Step, Alive, FullAnswer;
    FullRun(cfg, frames);
    RunReachable(cfg, frames);
    var m := After(cfg, frames);
    if Alive(cfg, m) {
      AliveCanExecute(cfg, m);
    } else {
      forall more: seq<Frame>, f: Frame ensures !ExecutesAfter(cfg, m, more, f) {
        NeverExecutes(cfg, m, more, f);
      }
    }
  }
}
