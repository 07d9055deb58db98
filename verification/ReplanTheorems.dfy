/** What holds in every reachable state of the replan machine, and what its replans leave unchanged. */
module ReplanTheorems {
  import opened Rounding
  import opened ActionChunks
  import opened SeedStore
  import opened RtcFreeze
  import opened ReplanMachine

  // ----- structure: requests, store and executing chunk agree -----

  /** A request belongs to the machine as it is now: its seed is what the store would answer today. */
  ghost predicate Pending(cfg: Config, m: Machine, r: Request)
    requires ValidConfig(cfg) && StoreFits(cfg, m.store)
  {
    UniformKeys(cfg, m.store, r.timeline, r.policyStep);
    && r.replanIndex == m.replanIndex
    && r.timeline <= m.simTime
    && (m.chunk.Some? ==> m.chunkTimeline <= r.timeline)
    && r.seed == SeedAction(WindowAt(m.store, r.timeline, r.policyStep, cfg.actionHorizon))
    && r.options == OptionsFor(cfg, r.seed, r.timeline)
  }

  ghost predicate Executing(cfg: Config, m: Machine)
    requires ValidConfig(cfg) && StoreFits(cfg, m.store)
  {
    if m.chunk.None? then m.store.chunks == [] && m.store.epoch.None?
    else
      && m.store.chunks != [] && m.store.epoch.Some?
      && m.chunk.value.Keys == KeySet(cfg) && m.chunk.value != map[]
      && m.chunkTimeline <= m.simTime
      && m.actionIndex <= Horizon(m.chunk.value)
      && var last := m.store.chunks[|m.store.chunks| - 1];
         last.action == m.chunk.value && last.startStep == StepOf(m.store, m.chunkTimeline)
  }

  /** At most one request is in flight, it carries the current replan index, and the executing chunk is the
      newest chunk of the store. */
  ghost predicate Structure(cfg: Config, m: Machine)
    requires ValidConfig(cfg)
  {
    && StoreFits(cfg, m.store)
    && Executing(cfg, m)
    && (m.future.Some? ==> cfg.asynchronous && Pending(cfg, m, m.future.value))
  }

  lemma PushedNewest(cfg: Config, s: Store, action: Action, time: real, frame: int)
    requires ValidConfig(cfg) && StoreFits(cfg, s) && action.Keys == KeySet(cfg) && Selected(cfg.keys, action) == action
    ensures var p := Pushed(s, action, time, frame);
      && StoreFits(cfg, p)
      && p.chunks != [] && p.epoch == Some(Epoch(s, time))
      && p.chunks[|p.chunks| - 1] == Chunk(StepOf(s, time), frame, action)
      && StepOf(p, time) == StepOf(s, time)
  {
  }

  lemma InstallStructure(cfg: Config, m: Machine, r: Request, answer: Action)
    requires ValidConfig(cfg) && StoreFits(cfg, m.store) && Executing(cfg, m) && m.future.None?
    requires r.timeline <= m.simTime && Answers(cfg, answer)
    ensures Structure(cfg, Install(cfg, m, r, answer))
  {
    hide DirectWindow, Stored, RtcOptions, Selected, RoundHalfEven;
    ChunkFromKeys(cfg, r, answer);
    PushedNewest(cfg, m.store, ChunkFrom(cfg, r, answer), r.timeline, r.policyStep);
    var after := Install(cfg, m, r, answer);
    assert StoreFits(cfg, after.store);
  }

  lemma PlannedStructure(cfg: Config, m: Machine, f: Frame)
    requires ValidConfig(cfg) && Structure(cfg, m) && Answers(cfg, f.answer)
    ensures Structure(cfg, Consume(cfg, m, f))
    ensures Structure(cfg, Planned(cfg, m, f))
  {
    if m.future.Some? && f.inferenceDone {
      InstallStructure(cfg, m.(future := None), m.future.value, f.answer);
    }
    var c := Consume(cfg, m, f);
    if NeedsReplan(cfg, c) && c.future.None? && !cfg.asynchronous {
      InstallStructure(cfg, c, Prepare(cfg, c), f.answer);
    }
  }

  lemma StepStructure(cfg: Config, m: Machine, f: Frame)
    requires ValidConfig(cfg) && Structure(cfg, m) && Answers(cfg, f.answer)
    ensures Structure(cfg, Step(cfg, m, f))
  {
    if Due(m) {
      PlannedStructure(cfg, m, f);
      ApplyStructure(cfg, Planned(cfg, m, f));
    }
  }

  lemma ApplyStructure(cfg: Config, m: Machine)
    requires ValidConfig(cfg) && Structure(cfg, m)
    ensures Structure(cfg, AfterApply(cfg, m))
  {
    var after := AfterApply(cfg, m);
    assert after.store == m.store;
  }

  // ----- time, counted in action periods -----

  function Units(cfg: Config, t: real): real
    requires cfg.actionDt > 0.0
  {
    t / cfg.actionDt
  }

  /** One simulation frame, in action periods. */
  function FrameUnits(cfg: Config): real
    requires cfg.actionDt > 0.0
  {
    Units(cfg, cfg.frameDt)
  }

  lemma SelfQuotient(d: real)
    requires d > 0.0
    ensures d / d == 1.0
  {
  }

  lemma UnitsLinear(cfg: Config, a: real, b: real)
    requires cfg.actionDt > 0.0
    ensures Units(cfg, a + b) == Units(cfg, a) + Units(cfg, b)
    ensures Units(cfg, a - b) == Units(cfg, a) - Units(cfg, b)
    ensures a <= b <==> Units(cfg, a) <= Units(cfg, b)
    ensures Units(cfg, cfg.actionDt) == 1.0
  {
    var x, y := Units(cfg, a), Units(cfg, b);
    assert x * cfg.actionDt == a && y * cfg.actionDt == b;
    assert (y - x) * cfg.actionDt == b - a;
    assert y - x >= 0.0 <==> (y - x) * cfg.actionDt >= 0.0;
    SelfQuotient(cfg.actionDt);
  }

  /** Ticks come one per period, or one per frame if frames are longer. */
  function TickSpacing(cfg: Config): real {
    if cfg.frameDt <= cfg.actionDt then cfg.actionDt else cfg.frameDt
  }

  /** The number of the control tick that happens at a time on the tick grid. */
  function TickOf(cfg: Config, t: real): int
    requires cfg.actionDt > 0.0
  {
    (t / TickSpacing(cfg)).Floor
  }

  /** The clock after `n` frames. */
  function FrameTime(cfg: Config, n: nat): real {
    n as real * cfg.frameDt
  }

  ghost predicate OnFrame(cfg: Config, t: real) {
    exists n: nat :: t == FrameTime(cfg, n)
  }

  lemma NextFrame(cfg: Config, t: real)
    requires OnFrame(cfg, t)
    ensures OnFrame(cfg, t + cfg.frameDt)
  {
    var n: nat :| t == FrameTime(cfg, n);
    assert t + cfg.frameDt == FrameTime(cfg, n + 1);
  }

  /** A time at which a tick can happen: the first frame at or after a whole number of action periods, or any frame
      if frames are longer than a period. */
  ghost predicate OnGrid(cfg: Config, t: real)
    requires cfg.actionDt > 0.0
  {
    OnFrame(cfg, t) && (cfg.frameDt <= cfg.actionDt ==> 0.0 <= Units(cfg, t) - TickOf(cfg, t) as real < FrameUnits(cfg))
  }

  /** With frames longer than a period every frame is a tick. */
  lemma EveryFrameTicks(cfg: Config, n: nat)
    requires ValidConfig(cfg) && cfg.frameDt > cfg.actionDt
    ensures OnGrid(cfg, FrameTime(cfg, n)) && TickOf(cfg, FrameTime(cfg, n)) == n
  {
    Cancel(n as real, cfg.frameDt);
    assert FrameTime(cfg, n) / TickSpacing(cfg) == n as real;
    assert OnFrame(cfg, FrameTime(cfg, n));
  }

  lemma Cancel(x: real, d: real)
    requires d > 0.0
    ensures (x * d) / d == x
  {
    var y := (x * d) / d;
    assert y * d == x * d;
    assert (y - x) * d == 0.0;
  }

  /** Ticks come once a period, and every one less than half a period after its nominal time. This depends on the
      two rates alone. */
  ghost predicate Prompt(cfg: Config)
    requires cfg.actionDt > 0.0
  {
    cfg.frameDt <= cfg.actionDt && forall t :: OnGrid(cfg, t) ==> Units(cfg, t) - TickOf(cfg, t) as real < 0.5
  }

  /** Between two tick times of a prompt machine both roundings count the ticks. */
  lemma GridStepsExact(cfg: Config, from: real, to: real)
    requires cfg.actionDt > 0.0 && Prompt(cfg) && OnGrid(cfg, from) && OnGrid(cfg, to)
    ensures RoundHalfEven((to - from) / cfg.actionDt) == TickOf(cfg, to) - TickOf(cfg, from)
    ensures RoundHalfUp((to - from) / cfg.actionDt) == TickOf(cfg, to) - TickOf(cfg, from)
  {
    UnitsLinear(cfg, to, from);
    Nearest(Units(cfg, to - from), TickOf(cfg, to) - TickOf(cfg, from));
  }

  /** Every elapsed count below `limit` between two tick times counts the ticks. */
  ghost predicate CountsUpTo(cfg: Config, limit: int)
    requires cfg.actionDt > 0.0
  {
    forall from, to :: OnGrid(cfg, from) && OnGrid(cfg, to) && from <= to ==> CountsPair(cfg, from, to, limit)
  }

  predicate CountsPair(cfg: Config, from: real, to: real, limit: int)
    requires cfg.actionDt > 0.0
  {
    var count := RoundHalfUp(Units(cfg, to) - Units(cfg, from));
    count < limit ==> count == TickOf(cfg, to) - TickOf(cfg, from)
  }

  lemma PromptCounts(cfg: Config, limit: int)
    requires cfg.actionDt > 0.0 && Prompt(cfg)
    ensures CountsUpTo(cfg, limit)
  {
    forall from, to | OnGrid(cfg, from) && OnGrid(cfg, to) && from <= to ensures CountsPair(cfg, from, to, limit) {
      UnitsLinear(cfg, to, from);
      GridStepsExact(cfg, from, to);
    }
  }

  /** Installs of chunks of `limit` rows count exactly: every count that is not stale does, or answers never wait. */
  ghost predicate CountsFor(cfg: Config, limit: int)
    requires cfg.actionDt > 0.0
  {
    !cfg.asynchronous || CountsUpTo(cfg, limit)
  }

  /** The schedule: ticks so far, the clock, and the position of the executing chunk. */
  ghost predicate Timed(cfg: Config, m: Machine)
    requires ValidConfig(cfg)
  {
    && Units(cfg, m.nextPolicyTime) == m.ticks as real
    && OnFrame(cfg, m.simTime) && 0.0 <= m.simTime
    && (m.enabled ==> if cfg.frameDt <= cfg.actionDt then Units(cfg, m.simTime) < m.ticks as real + FrameUnits(cfg)
                      else m.simTime == FrameTime(cfg, m.ticks))
    && (m.ticks > 0 ==> (m.ticks - 1) as real <= Units(cfg, m.simTime) - FrameUnits(cfg))
    && (m.store.epoch.Some? ==> OnGrid(cfg, m.store.epoch.value))
    && (m.future.Some? ==> OnGrid(cfg, m.future.value.timeline) && TickOf(cfg, m.future.value.timeline) < m.ticks)
    && (m.chunk.Some? ==> OnGrid(cfg, m.chunkTimeline) && TickOf(cfg, m.chunkTimeline) < m.ticks && Positioned(cfg, m, m.ticks))
  }

  /** Where the executing chunk stands for the `n`-th tick. */
  ghost predicate Positioned(cfg: Config, m: Machine, n: nat)
    requires ValidConfig(cfg) && m.chunk.Some?
  {
    && (cfg.frameDt <= cfg.actionDt && HasRow(m) ==> -0.5 <= Units(cfg, m.chunkTimeline) + m.actionIndex as real - n as real < 0.5 + FrameUnits(cfg))
    && (m.chunk.value != map[] && CountsFor(cfg, Horizon(m.chunk.value)) ==>
          m.actionIndex == Min(n - TickOf(cfg, m.chunkTimeline), Horizon(m.chunk.value)))
  }

  ghost predicate Reachable(cfg: Config, m: Machine) {
    ValidConfig(cfg) && Structure(cfg, m) && Timed(cfg, m)
  }

  /** A due machine ticks on the grid, on its own tick number. */
  lemma DueOnGrid(cfg: Config, m: Machine)
    requires ValidConfig(cfg) && Timed(cfg, m) && Due(m)
    ensures OnGrid(cfg, m.simTime) && TickOf(cfg, m.simTime) == m.ticks
    ensures m.ticks as real <= Units(cfg, m.simTime)
    ensures cfg.frameDt <= cfg.actionDt ==> FrameUnits(cfg) <= 1.0
  {
    UnitsLinear(cfg, m.nextPolicyTime, m.simTime);
    UnitsLinear(cfg, cfg.frameDt, cfg.actionDt);
    if cfg.frameDt <= cfg.actionDt {
      TickUnits(Units(cfg, m.simTime), m.ticks, FrameUnits(cfg));
    } else {
      EveryFrameTicks(cfg, m.ticks);
    }
  }

  lemma TickUnits(u: real, n: nat, f: real)
    requires n as real <= u < n as real + f && f <= 1.0
    ensures u.Floor == n && 0.0 <= u - u.Floor as real < f
  {
  }

  /** A machine in the middle of tick `m.ticks`, on which a row may still be applied. */
  ghost predicate MidTick(cfg: Config, m: Machine)
    requires ValidConfig(cfg)
  {
    && OnGrid(cfg, m.simTime) && TickOf(cfg, m.simTime) == m.ticks && 0.0 <= m.simTime
    && (m.store.epoch.Some? ==> OnGrid(cfg, m.store.epoch.value))
    && (m.future.Some? ==> OnGrid(cfg, m.future.value.timeline) && TickOf(cfg, m.future.value.timeline) <= m.ticks)
    && (m.chunk.Some? ==> OnGrid(cfg, m.chunkTimeline) && TickOf(cfg, m.chunkTimeline) <= m.ticks && Positioned(cfg, m, m.ticks))
  }

  /** The row a late chunk starts at stands for the present tick, to within half a period and a frame. All quantities
      in action periods. */
  lemma LateStart(now: real, asked: real, f: real, n: int, start: nat)
    requires n as real <= now < n as real + f && asked <= now && start == RoundHalfUp(now - asked)
    ensures -0.5 <= asked + start as real - n as real < 0.5 + f
  {
  }

  lemma ElapsedUnits(cfg: Config, from: real, to: real)
    requires ValidConfig(cfg) && from <= to
    ensures ElapsedActionSteps(from, to, cfg.actionDt) == RoundHalfUp(Units(cfg, to) - Units(cfg, from))
  {
    UnitsLinear(cfg, to, from);
    UnitsLinear(cfg, from, to);
  }

  /** Where an install puts the index: near the present tick, and exactly on it if counts are exact. */
  lemma InstalledIndex(cfg: Config, m: Machine, r: Request, elapsed: nat, limit: nat)
    requires ValidConfig(cfg) && OnGrid(cfg, m.simTime) && TickOf(cfg, m.simTime) == m.ticks
    requires OnGrid(cfg, r.timeline) && r.timeline <= m.simTime && (cfg.asynchronous || r.timeline == m.simTime)
    requires elapsed == ElapsedActionSteps(r.timeline, m.simTime, cfg.actionDt) && elapsed < limit
    ensures cfg.frameDt <= cfg.actionDt ==>
              -0.5 <= Units(cfg, r.timeline) + elapsed as real - m.ticks as real < 0.5 + FrameUnits(cfg)
    ensures CountsFor(cfg, limit) ==> elapsed == m.ticks - TickOf(cfg, r.timeline)
  {
    hide CountsUpTo, OnFrame;
    ElapsedUnits(cfg, r.timeline, m.simTime);
    UnitsLinear(cfg, r.timeline, m.simTime);
    if cfg.frameDt <= cfg.actionDt {
      LateStart(Units(cfg, m.simTime), Units(cfg, r.timeline), FrameUnits(cfg), m.ticks, elapsed);
    }
    if cfg.asynchronous && CountsFor(cfg, limit) {
      CountedPair(cfg, r.timeline, m.simTime, limit);
    }
  }

  lemma CountedPair(cfg: Config, from: real, to: real, limit: int)
    requires cfg.actionDt > 0.0 && CountsUpTo(cfg, limit) && OnGrid(cfg, from) && OnGrid(cfg, to) && from <= to
    ensures CountsPair(cfg, from, to, limit)
  {
  }

  lemma InstallTimed(cfg: Config, m: Machine, r: Request, answer: Action)
    requires ValidConfig(cfg) && StoreFits(cfg, m.store) && Answers(cfg, answer)
    requires MidTick(cfg, m) && OnGrid(cfg, r.timeline) && TickOf(cfg, r.timeline) <= m.ticks && r.timeline <= m.simTime
    requires cfg.asynchronous || r.timeline == m.simTime
    ensures MidTick(cfg, Install(cfg, m, r, answer))
  {
    hide StepOf, Stored, RoundHalfEven, Selected, ElapsedActionSteps, OnFrame, TickOf;
    ChunkFromKeys(cfg, r, answer);
    var chunk := ChunkFrom(cfg, r, answer);
    var after := Install(cfg, m, r, answer);
    var elapsed := ElapsedActionSteps(r.timeline, m.simTime, cfg.actionDt);
    if elapsed < Horizon(chunk) {
      assert after.chunk == Some(chunk) && after.chunkTimeline == r.timeline && after.actionIndex == elapsed;
      InstalledIndex(cfg, m, r, elapsed, Horizon(chunk));
      assert after.simTime == m.simTime && after.ticks == m.ticks && after.future == m.future;
      assert Positioned(cfg, after, m.ticks);
    } else {
      assert after == m.(replanIndex := m.replanIndex + 1);
    }
  }

  /** At a tick, a machine stands in the middle of it. */
  lemma DueMidTick(cfg: Config, m: Machine)
    requires Reachable(cfg, m) && Due(m)
    ensures MidTick(cfg, m) && MidTick(cfg, m.(future := None))
    ensures OnGrid(cfg, m.simTime) && TickOf(cfg, m.simTime) == m.ticks
  {
    DueOnGrid(cfg, m);
    assert m.chunk.Some? ==> Positioned(cfg, m.(future := None), m.ticks);
  }

  lemma ConsumeTimed(cfg: Config, m: Machine, f: Frame)
    requires Reachable(cfg, m) && Answers(cfg, f.answer) && Due(m)
    ensures MidTick(cfg, Consume(cfg, m, f))
  {
    hide Install, OnGrid, TickOf, MidTick;
    DueMidTick(cfg, m);
    if m.future.Some? && f.inferenceDone {
      InstallTimed(cfg, m.(future := None), m.future.value, f.answer);
    }
  }

  lemma PlannedTimed(cfg: Config, m: Machine, f: Frame)
    requires Reachable(cfg, m) && Answers(cfg, f.answer) && Due(m)
    ensures MidTick(cfg, Planned(cfg, m, f))
  {
    hide Units, OnGrid, TickOf, Positioned, Install, Consume, Pending, Executing;
    DueMidTick(cfg, m);
    ConsumeTimed(cfg, m, f);
    PlannedStructure(cfg, m, f);
    ConsumeClock(cfg, m, f);
    var c := Consume(cfg, m, f);
    if NeedsReplan(cfg, c) && c.future.None? && !cfg.asynchronous {
      InstallTimed(cfg, c, Prepare(cfg, c), f.answer);
    }
    SubmittedTimed(cfg, c);
  }

  /** Leaving a request to the executor keeps a machine in the middle of its tick. */
  lemma SubmittedTimed(cfg: Config, c: Machine)
    requires ValidConfig(cfg) && StoreFits(cfg, c.store) && MidTick(cfg, c)
    ensures MidTick(cfg, c.(future := Some(Prepare(cfg, c))))
  {
    var after := c.(future := Some(Prepare(cfg, c)));
    assert c.chunk.Some? ==> Positioned(cfg, after, c.ticks);
  }

  lemma ConsumeClock(cfg: Config, m: Machine, f: Frame)
    requires ValidConfig(cfg) && StoreFits(cfg, m.store) && Answers(cfg, f.answer)
    ensures var c := Consume(cfg, m, f);
      c.simTime == m.simTime && c.ticks == m.ticks && c.nextPolicyTime == m.nextPolicyTime && c.enabled == m.enabled
  {
  }

  /** Applying a row moves the executing chunk on to the next tick. */
  lemma ApplyTimed(cfg: Config, m: Machine)
    requires ValidConfig(cfg) && MidTick(cfg, m) && Structure(cfg, m) && m.chunk.Some?
    ensures Positioned(cfg, AfterApply(cfg, m), m.ticks + 1)
  {
  }

  /** With frames longer than a period an enabled machine ticks on every frame. */
  lemma AlwaysDue(cfg: Config, m: Machine)
    requires ValidConfig(cfg) && Timed(cfg, m) && m.enabled && cfg.frameDt > cfg.actionDt
    ensures Due(m)
  {
    hide Positioned, OnFrame, OnGrid, TickOf;
    LongFrame(cfg, m.ticks);
    UnitsLinear(cfg, m.nextPolicyTime, m.simTime);
  }

  lemma LongFrame(cfg: Config, n: nat)
    requires ValidConfig(cfg) && cfg.frameDt > cfg.actionDt
    ensures Units(cfg, FrameTime(cfg, n)) >= n as real
  {
    assert n as real * (cfg.frameDt - cfg.actionDt) >= 0.0;
    UnitsLinear(cfg, n as real * cfg.actionDt, FrameTime(cfg, n));
    Cancel(n as real, cfg.actionDt);
  }

  lemma QuietClock(cfg: Config, m: Machine)
    requires ValidConfig(cfg) && Timed(cfg, m) && !Due(m)
    ensures var later := m.simTime + cfg.frameDt;
      && OnFrame(cfg, later) && 0.0 <= later && Units(cfg, later) == Units(cfg, m.simTime) + FrameUnits(cfg)
      && FrameUnits(cfg) >= 0.0
      && (m.enabled ==> cfg.frameDt <= cfg.actionDt && Units(cfg, later) < m.ticks as real + FrameUnits(cfg))
  {
    hide Positioned, OnFrame, OnGrid, TickOf;
    UnitsLinear(cfg, m.simTime, cfg.frameDt);
    UnitsLinear(cfg, 0.0, cfg.frameDt);
    UnitsLinear(cfg, m.nextPolicyTime, m.simTime);
    NextFrame(cfg, m.simTime);
    if m.enabled && cfg.frameDt > cfg.actionDt {
      AlwaysDue(cfg, m);
    }
  }

  lemma QuietTimed(cfg: Config, m: Machine)
    requires ValidConfig(cfg) && Timed(cfg, m) && !Due(m)
    ensures Timed(cfg, m.(simTime := m.simTime + cfg.frameDt))
  {
    hide Units, FrameUnits, OnFrame, OnGrid, TickOf, Positioned;
    QuietClock(cfg, m);
    if m.chunk.Some? {
      SamePosition(cfg, m, m.(simTime := m.simTime + cfg.frameDt), m.ticks);
    }
  }

  /** The clock one frame after a tick. */
  lemma TickClock(cfg: Config, m: Machine)
    requires ValidConfig(cfg) && Timed(cfg, m) && Due(m)
    ensures Units(cfg, m.nextPolicyTime + cfg.actionDt) == (m.ticks + 1) as real
    ensures m.ticks as real <= Units(cfg, m.simTime + cfg.frameDt) - FrameUnits(cfg)
    ensures cfg.frameDt <= cfg.actionDt ==> Units(cfg, m.simTime + cfg.frameDt) < (m.ticks + 1) as real + FrameUnits(cfg)
    ensures cfg.frameDt > cfg.actionDt ==> m.simTime + cfg.frameDt == FrameTime(cfg, m.ticks + 1)
    ensures OnFrame(cfg, m.simTime + cfg.frameDt)
  {
    hide OnGrid, TickOf, Positioned;
    DueOnGrid(cfg, m);
    NextFrame(cfg, m.simTime);
    UnitsLinear(cfg, m.simTime, cfg.frameDt);
    UnitsLinear(cfg, m.nextPolicyTime, cfg.actionDt);
  }

  lemma TickTimed(cfg: Config, m: Machine, p: Machine)
    requires ValidConfig(cfg) && Timed(cfg, m) && Due(m)
    requires MidTick(cfg, p) && Structure(cfg, p)
    requires p.simTime == m.simTime && p.ticks == m.ticks && p.nextPolicyTime == m.nextPolicyTime
    ensures var a := AfterApply(cfg, p);
      Timed(cfg, a.(nextPolicyTime := a.nextPolicyTime + cfg.actionDt, ticks := a.ticks + 1, simTime := a.simTime + cfg.frameDt))
  {
    hide Units, Structure, TickOf, OnGrid, OnFrame, Positioned, FrameUnits, Horizon;
    TickClock(cfg, m);
    if p.chunk.Some? {
      ApplyTimed(cfg, p);
    }
    var a := AfterApply(cfg, p);
    var after := a.(nextPolicyTime := a.nextPolicyTime + cfg.actionDt, ticks := a.ticks + 1, simTime := a.simTime + cfg.frameDt);
    assert after.chunk == p.chunk && after.chunkTimeline == p.chunkTimeline && after.future == p.future && after.store == p.store;
    if p.chunk.Some? {
      SamePosition(cfg, a, after, p.ticks + 1);
    }
  }

  lemma SamePosition(cfg: Config, a: Machine, b: Machine, n: nat)
    requires ValidConfig(cfg) && a.chunk.Some? && Positioned(cfg, a, n)
    requires b.chunk == a.chunk && b.chunkTimeline == a.chunkTimeline && b.actionIndex == a.actionIndex
    ensures Positioned(cfg, b, n)
  {
  }

  lemma PlannedClock(cfg: Config, m: Machine, f: Frame)
    requires ValidConfig(cfg) && StoreFits(cfg, m.store) && Answers(cfg, f.answer)
    ensures var p := Planned(cfg, m, f);
      p.simTime == m.simTime && p.ticks == m.ticks && p.nextPolicyTime == m.nextPolicyTime && p.enabled == m.enabled
  {
    hide StepOf, Horizon, RtcOptions, ElapsedActionSteps, Prepare, Pushed;
  }

  lemma DueTimed(cfg: Config, m: Machine, f: Frame)
    requires Reachable(cfg, m) && Answers(cfg, f.answer) && Due(m)
    ensures Timed(cfg, Step(cfg, m, f))
  {
    hide Units, Planned;
    PlannedTimed(cfg, m, f);
    PlannedStructure(cfg, m, f);
    PlannedClock(cfg, m, f);
    TickTimed(cfg, m, Planned(cfg, m, f));
    var a := AfterApply(cfg, Planned(cfg, m, f));
    assert Step(cfg, m, f) == a.(nextPolicyTime := a.nextPolicyTime + cfg.actionDt, ticks := a.ticks + 1, simTime := a.simTime + cfg.frameDt);
  }

  /** Every frame keeps the structure and the schedule. */
  lemma StepReachable(cfg: Config, m: Machine, f: Frame)
    requires Reachable(cfg, m) && Answers(cfg, f.answer)
    ensures Reachable(cfg, Step(cfg, m, f))
  {
    StepStructure(cfg, m, f);
    if Due(m) {
      DueTimed(cfg, m, f);
    } else {
      QuietTimed(cfg, m);
      assert Step(cfg, m, f) == m.(simTime := m.simTime + cfg.frameDt);
    }
  }
}
