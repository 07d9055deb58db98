/** Exactly which rates, for which action horizon, let every replan keep the frozen rows as scheduled. */
module ReplanFrozen {
  import opened Rounding
  import opened ActionChunks
  import opened SeedStore
  import opened RtcFreeze
  import opened TickArithmetic
  import opened ReplanMachine
  import opened ReplanTheorems
  import opened ReplanGuarantees
  import opened ReplanRuns
  import opened ReplanTiming

  // ----- what a replan may not change -----

  /** The row that the machine would execute `ahead` ticks from now without a replan. */
  ghost function RowAhead(m: Machine, ahead: nat): Option<map<string, Row>> {
    if m.chunk.Some? && m.chunk.value != map[] && m.actionIndex + ahead < Horizon(m.chunk.value)
    then Some(RowsAt(m.chunk.value, m.actionIndex + ahead)) else None
  }

  /** A tick `ahead` of now whose row in the requested chunk is a frozen one. */
  ghost predicate FreezesAhead(cfg: Config, m: Machine, r: Request, ahead: nat) {
    r.options.Some? && ElapsedActionSteps(r.timeline, m.simTime, cfg.actionDt) + ahead < r.options.value.frozen
  }

  /** Installing the answer now leaves that tick's row as it was, wherever old and new chunk both have one. */
  ghost predicate KeepsAhead(cfg: Config, m: Machine, r: Request, answer: Action, ahead: nat)
    requires ValidConfig(cfg) && StoreFits(cfg, m.store) && Answers(cfg, answer)
  {
    var before, after := RowAhead(m, ahead), RowAhead(Install(cfg, m.(future := None), r, answer), ahead);
    FreezesAhead(cfg, m, r, ahead) && before.Some? && after.Some? ==> after == before
  }

  /** On a frozen tick the machine executes the row that was due without the replan. */
  ghost predicate ExecutesFrozen(cfg: Config, m: Machine, r: Request, f: Frame)
    requires ValidConfig(cfg) && StoreFits(cfg, m.store) && Answers(cfg, f.answer)
  {
    FreezesAhead(cfg, m, r, 0) && RowAhead(m, 0).Some? ==>
      Output(cfg, m, f).Some? && Some(Output(cfg, m, f).value.row) == RowAhead(m, 0)
  }

  /** The request at hand changes no frozen row, installed now or not. */
  ghost predicate FrozenKept(cfg: Config, m: Machine, r: Request, f: Frame)
    requires ValidConfig(cfg) && StoreFits(cfg, m.store) && Answers(cfg, f.answer)
  {
    Due(m) && Requested(cfg, m, r) ==>
      ExecutesFrozen(cfg, m, r, f) && forall ahead: nat :: KeepsAhead(cfg, m, r, f.answer, ahead)
  }

  ghost predicate EveryRunKeepsFrozenRows(cfg: Config)
    requires ValidConfig(cfg)
  {
    forall frames: seq<Frame>, r: Request, f: Frame :: AllFull(cfg, frames) && FullAnswer(cfg, f.answer) ==>
      FrozenKeptAfter(cfg, frames, r, f)
  }

  ghost predicate FrozenKeptAfter(cfg: Config, frames: seq<Frame>, r: Request, f: Frame)
    requires ValidConfig(cfg) && AllFull(cfg, frames) && FullAnswer(cfg, f.answer)
  {
    FullAnswers(cfg, frames);
    FullOffers(cfg, f.answer);
    FrozenKept(cfg, After(cfg, frames), r, f)
  }

  // ----- aligned requests keep the frozen rows -----

  /** The new chunk's elapsed row is placed on the row that the executing chunk is at. */
  ghost predicate Aligned(cfg: Config, m: Machine, r: Request)
    requires ValidConfig(cfg) && StoreFits(cfg, m.store)
  {
    Shift(cfg, m, r) + ElapsedActionSteps(r.timeline, m.simTime, cfg.actionDt) == m.actionIndex
  }

  lemma AlignedKeeps(cfg: Config, m: Machine, r: Request, answer: Action, ahead: nat)
    requires ValidConfig(cfg) && Structure(cfg, m) && Pending(cfg, m, r) && Answers(cfg, answer)
    requires FreezesAhead(cfg, m, r, 0) && HasRow(m) ==> Aligned(cfg, m, r)
    ensures KeepsAhead(cfg, m, r, answer, ahead)
  {
    hide StepOf, Pending, Executing, ElapsedActionSteps, RtcOptions, Horizon, ChunkFrom;
    ChunkFromKeys(cfg, r, answer);
    if FreezesAhead(cfg, m, r, ahead) && RowAhead(m, ahead).Some? {
      FrozenRow(cfg, m, r, answer, ElapsedActionSteps(r.timeline, m.simTime, cfg.actionDt) + ahead);
    }
  }

  lemma KeptIsExecuted(cfg: Config, m: Machine, r: Request, f: Frame)
    requires ValidConfig(cfg) && Structure(cfg, m) && Answers(cfg, f.answer) && Due(m) && Requested(cfg, m, r)
    requires KeepsAhead(cfg, m, r, f.answer, 0)
    ensures ExecutesFrozen(cfg, m, r, f)
  {
    hide StepOf, Pending, Executing, ElapsedActionSteps, Prepare, Install, Horizon;
    PlannedInstallsOrKeeps(cfg, m, r, f);
    InstallKeepsARow(cfg, m.(future := None), r, f.answer);
  }

  lemma AlignedFrozenKept(cfg: Config, m: Machine, r: Request, f: Frame)
    requires ValidConfig(cfg) && Structure(cfg, m) && Answers(cfg, f.answer) && Due(m)
    requires Requested(cfg, m, r) && FreezesAhead(cfg, m, r, 0) && HasRow(m) ==> Aligned(cfg, m, r)
    ensures FrozenKept(cfg, m, r, f)
  {
    hide Executing, Pending, Aligned, KeepsAhead, ExecutesFrozen, Requested;
    if Requested(cfg, m, r) {
      RequestedIsPending(cfg, m, r);
      forall ahead: nat ensures KeepsAhead(cfg, m, r, f.answer, ahead) {
        AlignedKeeps(cfg, m, r, f.answer, ahead);
      }
      KeptIsExecuted(cfg, m, r, f);
    }
  }

  // ----- where the counts put a request -----

  /** The elapsed count and the executing index, when counts up to the action horizon are exact. */
  lemma CountedPlaces(cfg: Config, m: Machine, r: Request)
    requires Reachable(cfg, m) && Due(m) && FullChunk(cfg, m) && CountsFor(cfg, cfg.actionHorizon)
    requires Requested(cfg, m, r) && HasRow(m)
    ensures m.actionIndex == m.ticks - TickOf(cfg, m.chunkTimeline)
    ensures var e := ElapsedActionSteps(r.timeline, m.simTime, cfg.actionDt);
      e < cfg.actionHorizon ==> e == m.ticks - TickOf(cfg, r.timeline)
    ensures OnGrid(cfg, r.timeline) && OnGrid(cfg, m.chunkTimeline) && m.chunkTimeline <= r.timeline
  {
    hide CountsFor, ElapsedActionSteps, Executing, Prepare;
    RequestedIsPending(cfg, m, r);
    RequestedOnGrid(cfg, m, r);
    DueOnGrid(cfg, m);
    var e := ElapsedActionSteps(r.timeline, m.simTime, cfg.actionDt);
    if e < cfg.actionHorizon {
      RequestWhen(cfg, m, r);
      InstalledIndex(cfg, m, r, e, cfg.actionHorizon);
    }
  }

  lemma RequestWhen(cfg: Config, m: Machine, r: Request)
    requires ValidConfig(cfg) && Structure(cfg, m) && Requested(cfg, m, r)
    ensures r.timeline <= m.simTime && (cfg.asynchronous || r.timeline == m.simTime)
  {
  }

  /** A frozen row is one the answer still has. */
  lemma FrozenIsFresh(cfg: Config, m: Machine, r: Request, ahead: nat)
    requires ValidConfig(cfg) && StoreFits(cfg, m.store) && Pending(cfg, m, r) && FreezesAhead(cfg, m, r, ahead)
    ensures ElapsedActionSteps(r.timeline, m.simTime, cfg.actionDt) + ahead < cfg.actionHorizon
  {
    hide ElapsedActionSteps;
    FrozenWithinSeed(cfg, m, r);
  }

  lemma PromptAligned(cfg: Config, m: Machine, r: Request)
    requires Reachable(cfg, m) && Due(m) && FullChunk(cfg, m) && Prompt(cfg)
    requires Requested(cfg, m, r) && HasRow(m) && FreezesAhead(cfg, m, r, 0)
    ensures Aligned(cfg, m, r)
  {
    hide Executing, Prompt, ElapsedActionSteps, StepOf, Timed, Prepare;
    PromptCounts(cfg, cfg.actionHorizon);
    RequestedIsPending(cfg, m, r);
    FrozenIsFresh(cfg, m, r, 0);
    CountedPlaces(cfg, m, r);
    ShiftIsTicks(cfg, m, r);
  }

  // ----- a seed needs the executing chunk -----

  /** Every retained chunk has the action horizon's rows, and none is placed after the executing one. */
  ghost predicate NoneBeyond(cfg: Config, s: Store) {
    s.chunks != [] ==>
      forall i :: 0 <= i < |s.chunks| ==>
        && s.chunks[i].action != map[] && Horizon(s.chunks[i].action) == cfg.actionHorizon
        && s.chunks[i].startStep <= s.chunks[|s.chunks| - 1].startStep
  }

  lemma {:induction false} PushedBeyond(cfg: Config, s: Store, action: Action, time: real, frame: int)
    requires ValidConfig(cfg) && StoreFits(cfg, s) && NoneBeyond(cfg, s)
    requires Selected(cfg.keys, action) == action && action != map[] && Horizon(action) == cfg.actionHorizon
    requires s.chunks != [] ==> s.chunks[|s.chunks| - 1].startStep <= StepOf(s, time)
    ensures NoneBeyond(cfg, Pushed(s, action, time, frame))
  {
    hide StepOf, Horizon, Selected;
  }

  lemma InstallBeyond(cfg: Config, m: Machine, r: Request, answer: Action)
    requires ValidConfig(cfg) && Structure(cfg, m) && Pending(cfg, m, r) && FullAnswer(cfg, answer) && NoneBeyond(cfg, m.store)
    ensures Answers(cfg, answer)
    ensures NoneBeyond(cfg, Install(cfg, m.(future := None), r, answer).store)
  {
    hide Pending, Horizon, NoneBeyond, StepOf, ElapsedActionSteps;
    FullOffers(cfg, answer);
    ChunkFromKeys(cfg, r, answer);
    if m.chunk.Some? {
      ShiftNonNegative(cfg, m, r);
    }
    PushedBeyond(cfg, m.store, ChunkFrom(cfg, r, answer), r.timeline, r.policyStep);
  }

  lemma PlannedBeyond(cfg: Config, m: Machine, f: Frame)
    requires ValidConfig(cfg) && Structure(cfg, m) && FullAnswer(cfg, f.answer) && NoneBeyond(cfg, m.store)
    ensures Answers(cfg, f.answer)
    ensures NoneBeyond(cfg, Planned(cfg, m, f).store)
  {
    hide Pending, Executing, NoneBeyond, Install, Prepare;
    FullOffers(cfg, f.answer);
    PlannedStructure(cfg, m, f);
    if m.future.Some? {
      InstallBeyond(cfg, m, m.future.value, f.answer);
    }
    var c := Consume(cfg, m, f);
    if c.future.None? {
      assert c.(future := None) == c;
      RequestedIsPending(cfg, c, Prepare(cfg, c));
      InstallBeyond(cfg, c, Prepare(cfg, c), f.answer);
    }
  }

  lemma StepBeyond(cfg: Config, m: Machine, f: Frame)
    requires ValidConfig(cfg) && Structure(cfg, m) && FullAnswer(cfg, f.answer) && NoneBeyond(cfg, m.store)
    ensures Answers(cfg, f.answer)
    ensures NoneBeyond(cfg, Step(cfg, m, f).store)
  {
    hide Executing, NoneBeyond, Planned;
    PlannedBeyond(cfg, m, f);
  }

  lemma {:induction false} RunBeyond(cfg: Config, frames: seq<Frame>)
    requires ValidConfig(cfg) && AllFull(cfg, frames)
    ensures AllAnswer(cfg, frames) && NoneBeyond(cfg, After(cfg, frames).store)
  {
    hide Step, FullAnswer, Executing;
    FullAnswers(cfg, frames);
    if frames != [] {
      RunBeyond(cfg, frames[..|frames| - 1]);
      StepBeyond(cfg, After(cfg, frames[..|frames| - 1]), frames[|frames| - 1]);
    }
  }

  lemma {:induction false} SomeCovers(chunks: seq<Chunk>, step: int) returns (i: nat)
    requires Newest(chunks, step).Some?
    ensures i < |chunks| && Covers(chunks[i], step)
  {
    i := |chunks| - 1;
    if !Covers(chunks[i], step) {
      i := SomeCovers(chunks[..i], step);
    }
  }

  /** Options need a seed, and a seed a chunk over the present step: the executing one covers it too. */
  lemma OptionsWithin(cfg: Config, m: Machine, r: Request)
    requires ValidConfig(cfg) && Structure(cfg, m) && m.chunk.Some? && Pending(cfg, m, r) && NoneBeyond(cfg, m.store)
    requires r.options.Some?
    ensures 0 <= Shift(cfg, m, r) < cfg.actionHorizon
  {
    hide StepOf, Horizon;
    ShiftNonNegative(cfg, m, r);
    var start := StepOf(m.store, r.timeline);
    assert CoveredPrefix(m.store.chunks, start, cfg.actionHorizon) > 0;
    var i := SomeCovers(m.store.chunks, start);
  }

  // ----- frames longer than a period -----

  /** The whole-number condition: exactly which rates and horizons leave frozen rows alone. */
  predicate FrozenFits(p: nat, q: nat, horizon: nat)
    requires q > 0
  {
    if p <= q then horizon <= 1 || 2 * (p - 1) < q else horizon <= 2 || horizon <= p / q
  }

  /** With long frames and so short a horizon an elapsed count is exact or stale. */
  lemma LongCountsFit(p: nat, q: nat, horizon: nat)
    requires p > q > 0 && FrozenFits(p, q, horizon)
    ensures CountsFit(p, q, horizon)
  {
    forall d: nat | 1 <= d <= horizon ensures CountFits(p, q, horizon, d) {
      LongCountFits(p, q, horizon, d);
    }
  }

  lemma QuotientAtLeast(n: int, w: int, k: int)
    requires w > 0 && n >= w * k
    ensures n / w >= k
  {
    assert n == w * (n / w) + n % w;
    Grows(w, n / w + 1, k);
  }

  lemma ManyTicks(d: nat, p: nat, least: nat)
    requires d >= least
    ensures 2 * d * p >= 2 * (least * p)
  {
    MulAssociates(2, d, p);
    Grows(p, least, d);
    assert d * p == p * d && least * p == p * least;
  }

  /** A count over `d` ticks, from a bound on their length. */
  lemma CountAtLeast(x: nat, q: nat, horizon: nat)
    requires q > 0 && x + q >= 2 * q * horizon
    ensures (x + q) / (2 * q) >= horizon
  {
    QuotientAtLeast(x + q, 2 * q, horizon);
  }

  lemma WholeFrames(p: nat, q: nat, horizon: nat)
    requires q > 0 && horizon <= p / q
    ensures 2 * p >= 2 * q * horizon
  {
    assert p == q * (p / q) + p % q;
    Grows(q, horizon, p / q);
    MulAssociates(2, q, horizon);
  }

  lemma LongCountFits(p: nat, q: nat, horizon: nat, d: nat)
    requires p > q > 0 && FrozenFits(p, q, horizon) && d >= 1
    ensures CountFits(p, q, horizon, d)
  {
    hide FrozenFits;
    var x := 2 * d * p;
    ManyTicks(d, p, 1);
    if horizon <= 2 {
      ShortHorizonFits(p, q, horizon, d);
    } else {
      LongIfNotTwo(p, q, horizon);
      WholeFrames(p, q, horizon);
      CountAtLeast(x, q, horizon);
    }
  }

  lemma LongIfNotTwo(p: nat, q: nat, horizon: nat)
    requires p > q > 0 && FrozenFits(p, q, horizon) && horizon > 2
    ensures horizon <= p / q
  {
  }

  lemma ShortHorizonFits(p: nat, q: nat, horizon: nat, d: nat)
    requires p > q > 0 && horizon <= 2 && d >= 1
    ensures CountFits(p, q, horizon, d)
  {
    if d >= 2 {
      ManyTicks(d, p, 2);
      CountAtLeast(2 * d * p, q, 2);
    } else if 2 * (p - q) >= q {
      CountAtLeast(2 * p, q, 2);
    }
  }

  /** A whole number bounded by a real one, both in q-ths. */
  lemma WholeBound(s: int, d: real, q: nat, n: int)
    requires q > 0 && s as real >= d - 1.0 && d * q as real == n as real
    ensures s * q >= n - q
  {
    var w := q as real;
    SignOfProduct(s as real - (d - 1.0), w);
    assert (s as real - (d - 1.0)) * w == s as real * w - d * w + w;
    assert s as real * w == (s * q) as real;
  }

  lemma NotDivided(p: nat, q: nat)
    requires q > 1 && Coprime(p, q)
    ensures p % q > 0
  {
    MultipleDivides(q, 1);
    assert p % q == 0 ==> CommonDivisor(q, p, q);
  }

  lemma FloorBound(s: int, p: nat, q: nat)
    requires q > 0 && p % q > 0 && q * s >= p - q
    ensures s >= p / q
  {
    var f := p / q;
    assert p == q * f + p % q;
    assert q * (f - 1) == q * f - q;
    Grows(q, s, f - 1);
  }

  /** Steps between requests `d` frames apart: never less than the whole periods of a frame. */
  lemma LongSteps(s: int, p: nat, q: nat, d: nat)
    requires p > q > 0 && d >= 1 && q * s >= d * p - q
    requires q == 1 ==> s == d * p
    requires Coprime(p, q)
    ensures p >= 2 * q ==> s >= p / q
    ensures p < 2 * q ==> s >= 1 && (d >= 2 ==> s >= 2)
  {
    hide Coprime;
    ManyTicks(d, p, 1);
    MulAssociates(2, d, p);
    if q == 1 {
      Quotient(p, 1, p, 0);
    } else {
      NotDivided(p, q);
      FloorBound(s, p, q);
    }
    if p < 2 * q {
      Grows(q, s, 0);
      Grows(q, s, 1);
      if d >= 2 {
        ManyTicks(d, p, 2);
      }
    }
  }

  lemma StepsApart(x: real, y: real)
    ensures (RoundHalfEven(x) - RoundHalfEven(y)) as real <= x - y + 1.0
    ensures (RoundHalfEven(x) - RoundHalfEven(y)) as real >= x - y - 1.0
  {
    Nearest(x, 0);
    Nearest(y, 0);
  }

  /** Whole numbers round to themselves. */
  lemma WholeRounds(x: real, n: int)
    requires x == n as real
    ensures RoundHalfEven(x) == n
  {
  }

  /** Where the store puts frame `n`, counted from frame `e`. */
  lemma StepParts(cfg: Config, p: nat, q: nat, e: nat, n: nat)
    requires ValidConfig(cfg) && Ratio(cfg, p, q)
    ensures Units(cfg, FrameTime(cfg, n) - FrameTime(cfg, e)) * q as real == ((n - e) * p) as real
    ensures q == 1 ==> RoundHalfEven(Units(cfg, FrameTime(cfg, n) - FrameTime(cfg, e))) == (n - e) * p
  {
    hide Coprime, InProportion, Units, FrameTime, RoundHalfEven;
    FrameParts(cfg, p, q, n);
    FrameParts(cfg, p, q, e);
    UnitsLinear(cfg, FrameTime(cfg, n), FrameTime(cfg, e));
    var x, y, w := Units(cfg, FrameTime(cfg, n)), Units(cfg, FrameTime(cfg, e)), q as real;
    assert (x - y) * w == x * w - y * w;
    assert (n - e) * p == n * p - e * p;
    if q == 1 {
      assert (x - y) * w == x - y;
      WholeRounds(x - y, (n - e) * p);
    }
  }

  lemma LongStep(cfg: Config, p: nat, q: nat, e: nat, from: nat, to: nat)
    requires ValidConfig(cfg) && Ratio(cfg, p, q) && p > q && from < to
    ensures var s := RoundHalfEven(Units(cfg, FrameTime(cfg, to) - FrameTime(cfg, e)))
                   - RoundHalfEven(Units(cfg, FrameTime(cfg, from) - FrameTime(cfg, e)));
      && (p >= 2 * q ==> s >= p / q)
      && (p < 2 * q ==> s >= 1 && (to - from >= 2 ==> s >= 2))
  {
    hide InProportion, Units, FrameTime, RoundHalfEven, Coprime;
    StepParts(cfg, p, q, e, to);
    StepParts(cfg, p, q, e, from);
    var x, y := Units(cfg, FrameTime(cfg, to) - FrameTime(cfg, e)), Units(cfg, FrameTime(cfg, from) - FrameTime(cfg, e));
    var s := RoundHalfEven(x) - RoundHalfEven(y);
    StepsApart(x, y);
    DifferenceParts(x, y, q, (to - e) * p, (from - e) * p);
    assert (to - e) * p - (from - e) * p == (to - from) * p;
    WholeBound(s, x - y, q, (to - from) * p);
    assert q * s == s * q;
    LongSteps(s, p, q, to - from);
  }

  lemma DifferenceParts(x: real, y: real, q: nat, a: int, b: int)
    requires x * q as real == a as real && y * q as real == b as real
    ensures (x - y) * q as real == (a - b) as real
  {
    assert (x - y) * q as real == x * q as real - y * q as real;
  }

  lemma LongShift(cfg: Config, p: nat, q: nat, m: Machine, r: Request)
    requires Reachable(cfg, m) && Ratio(cfg, p, q) && p > q && m.chunk.Some? && m.store.epoch.Some?
    requires OnGrid(cfg, r.timeline) && TickOf(cfg, m.chunkTimeline) < TickOf(cfg, r.timeline)
    ensures p >= 2 * q ==> Shift(cfg, m, r) >= p / q
    ensures p < 2 * q ==> Shift(cfg, m, r) >= 1
    ensures p < 2 * q && TickOf(cfg, r.timeline) - TickOf(cfg, m.chunkTimeline) >= 2 ==> Shift(cfg, m, r) >= 2
  {
    hide InProportion, Units, FrameTime, RoundHalfEven, Coprime, Executing, Positioned, OnGrid, TickOf;
    RatioShort(cfg, p, q);
    GridIsTick(cfg, p, q, m.store.epoch.value);
    GridIsTick(cfg, p, q, r.timeline);
    GridIsTick(cfg, p, q, m.chunkTimeline);
    LongStep(cfg, p, q, TickOf(cfg, m.store.epoch.value), TickOf(cfg, m.chunkTimeline), TickOf(cfg, r.timeline));
    StoreSteps(cfg, m, r.timeline);
    StoreSteps(cfg, m, m.chunkTimeline);
  }

  lemma StoreSteps(cfg: Config, m: Machine, t: real)
    requires ValidConfig(cfg) && StoreFits(cfg, m.store) && m.store.epoch.Some?
    ensures StepOf(m.store, t) == RoundHalfEven(Units(cfg, t - m.store.epoch.value))
  {
    hide RoundHalfEven;
  }

  lemma LongAligned(cfg: Config, p: nat, q: nat, m: Machine, r: Request)
    requires Reachable(cfg, m) && Due(m) && FullChunk(cfg, m) && NoneBeyond(cfg, m.store)
    requires Ratio(cfg, p, q) && p > q && FrozenFits(p, q, cfg.actionHorizon)
    requires Requested(cfg, m, r) && HasRow(m) && FreezesAhead(cfg, m, r, 0)
    ensures Aligned(cfg, m, r)
  {
    hide Coprime, InProportion, ElapsedActionSteps, StepOf, Prepare, NoneBeyond, CountsUpTo, CountsFit, FrozenFits, OnGrid, TickOf, Pending;
    LongCountsFit(p, q, cfg.actionHorizon);
    CountsUpToIff(cfg, p, q, cfg.actionHorizon);
    RequestedIsPending(cfg, m, r);
    FrozenIsFresh(cfg, m, r, 0);
    CountedPlaces(cfg, m, r);
    OptionsWithin(cfg, m, r);
    var k0, kc := TickOf(cfg, r.timeline), TickOf(cfg, m.chunkTimeline);
    GridIsTick(cfg, p, q, r.timeline);
    GridIsTick(cfg, p, q, m.chunkTimeline);
    TicksInOrder(cfg, p, q, kc, k0);
    assert kc == k0 ==> r.timeline == m.chunkTimeline;
    if kc < k0 {
      LongShift(cfg, p, q, m, r);
      HorizonCases(p, q, cfg.actionHorizon);
    }
  }

  lemma HorizonCases(p: nat, q: nat, horizon: nat)
    requires p > q > 0 && FrozenFits(p, q, horizon)
    ensures horizon <= if p >= 2 * q then p / q else 2
  {
    if p >= 2 * q {
      QuotientAtLeast(p, q, 2);
    } else {
      Quotient(p, q, 1, p - q);
    }
  }

  /** The positive half: under the condition every replan of every controller keeps its frozen rows. */
  lemma FitsKeeps(cfg: Config, p: nat, q: nat, frames: seq<Frame>, r: Request, f: Frame)
    requires ValidConfig(cfg) && Ratio(cfg, p, q) && FrozenFits(p, q, cfg.actionHorizon)
    requires AllFull(cfg, frames) && FullAnswer(cfg, f.answer)
    ensures FrozenKeptAfter(cfg, frames, r, f)
  {
    hide Coprime, InProportion, Executing, FullAnswer, FreezesAhead, Requested, Aligned, FrozenKept, Timed, Prompt, NoneBeyond, Step;
    FullRun(cfg, frames);
    RunReachable(cfg, frames);
    RunBeyond(cfg, frames);
    FullOffers(cfg, f.answer);
    PromptIff(cfg, p, q);
    var m := After(cfg, frames);
    if Due(m) {
      if Requested(cfg, m, r) && FreezesAhead(cfg, m, r, 0) && HasRow(m) {
        if p > q {
          LongAligned(cfg, p, q, m, r);
        } else {
          RowLeft(cfg, m);
          PromptAligned(cfg, m, r);
        }
      }
      AlignedFrozenKept(cfg, m, r, f);
    } else {
      NotDueKept(cfg, m, r, f);
    }
  }

  lemma RowLeft(cfg: Config, m: Machine)
    requires FullChunk(cfg, m) && HasRow(m)
    ensures cfg.actionHorizon >= 2
  {
  }

  lemma NotDueKept(cfg: Config, m: Machine, r: Request, f: Frame)
    requires ValidConfig(cfg) && StoreFits(cfg, m.store) && Answers(cfg, f.answer) && !Due(m)
    ensures FrozenKept(cfg, m, r, f)
  {
  }

  // ----- everywhere else some step between two ticks is wrong -----

  /** The step that the store gives tick `k`, counted from the first tick. */
  function StepAt(cfg: Config, p: nat, q: nat, k: nat): int
    requires p > 0 && cfg.actionDt > 0.0
  {
    RoundHalfEven(Units(cfg, TickTime(cfg, p, q, k)))
  }

  /** The step from the tick before. */
  function StepTo(cfg: Config, p: nat, q: nat, k: nat): int
    requires p > 0 && cfg.actionDt > 0.0 && k >= 1
  {
    StepAt(cfg, p, q, k) - StepAt(cfg, p, q, k - 1)
  }

  lemma {:induction false} SomeStepBelow(cfg: Config, p: nat, q: nat, first: nat, last: nat) returns (k: nat)
    requires p > 0 && cfg.actionDt > 0.0 && first < last
    requires StepAt(cfg, p, q, last) - StepAt(cfg, p, q, first) < last - first
    ensures first < k <= last && StepTo(cfg, p, q, k) < 1
    decreases last
  {
    hide StepAt;
    k := last;
    if StepTo(cfg, p, q, last) >= 1 {
      k := SomeStepBelow(cfg, p, q, first, last - 1);
    }
  }

  lemma {:induction false} SomeStepNot(cfg: Config, p: nat, q: nat, n: nat, c: int) returns (k: nat)
    requires p > 0 && cfg.actionDt > 0.0 && StepAt(cfg, p, q, n) - StepAt(cfg, p, q, 0) != n * c
    ensures 1 <= k <= n && StepTo(cfg, p, q, k) != c
  {
    hide StepAt;
    if n > 0 && StepTo(cfg, p, q, n) == c {
      assert n * c == (n - 1) * c + c;
      k := SomeStepNot(cfg, p, q, n - 1, c);
    } else {
      k := n;
    }
  }

  lemma StartStep(cfg: Config, p: nat, q: nat)
    requires ValidConfig(cfg) && p > 0 && q > 0
    ensures StepAt(cfg, p, q, 0) == 0
  {
    StartTime(cfg, p, q);
    StartOnGrid(cfg);
    WholeRounds(0.0, 0);
  }

  /** A tick's step, from how late it is. */
  lemma StepFromDelay(cfg: Config, p: nat, q: nat, k: nat)
    requires ValidConfig(cfg) && Ratio(cfg, p, q) && p <= q
    ensures k <= StepAt(cfg, p, q, k) <= k + 1
    ensures Late(p, q, k) == 0 ==> StepAt(cfg, p, q, k) == k
    ensures 2 * Late(p, q, k) > q || (2 * Late(p, q, k) == q && k % 2 == 1) ==> StepAt(cfg, p, q, k) == k + 1
  {
    hide Coprime, InProportion, TickTime, Units, Late, RoundHalfEven;
    LateRange(p, q, k);
    DelayParts(cfg, p, q, k);
    DelayRounds(Units(cfg, TickTime(cfg, p, q, k)), k, Late(p, q, k), q);
  }

  lemma DelayRounds(u: real, k: nat, late: nat, q: nat)
    requires q > 0 && late < q && (u - k as real) * q as real == late as real
    ensures k <= RoundHalfEven(u) <= k + 1
    ensures late == 0 ==> RoundHalfEven(u) == k
    ensures 2 * late > q || (2 * late == q && k % 2 == 1) ==> RoundHalfEven(u) == k + 1
  {
    var d, w := u - k as real, q as real;
    CompareParts(d, 0.0, w, late as real, 0.0);
    CompareParts(0.0, d, w, 0.0, late as real);
    CompareParts(d, 1.0, w, late as real, w);
    CompareParts(d, 0.5, w, late as real, 0.5 * w);
    CompareParts(0.5, d, w, 0.5 * w, late as real);
    assert late as real < w;
    assert late as real < 0.5 * w <==> (2 * late) as real < q as real;
    assert 0.5 * w < late as real <==> q as real < (2 * late) as real;
    RoundsByPart(u, k);
  }

  lemma RoundsByPart(u: real, k: int)
    requires 0.0 <= u - k as real < 1.0
    ensures RoundHalfEven(u) == if u - k as real < 0.5 || (u - k as real == 0.5 && k % 2 == 0) then k else k + 1
  {
    assert u.Floor == k;
  }

  /** If ticks come half a period late, the store puts some tick one step too far. */
  lemma StepTooFar(cfg: Config, p: nat, q: nat) returns (k: nat)
    requires ValidConfig(cfg) && Ratio(cfg, p, q) && p <= q && 2 * (p - 1) >= q
    ensures StepAt(cfg, p, q, k) == k + 1
  {
    hide InProportion, Late, StepAt, Coprime;
    k := LatestTick(p, q);
    if 2 * (p - 1) == q && k % 2 == 0 {
      OddFrames(p, q);
      LateRepeats(p, q, k, 1);
      k := k + p;
    }
    StepFromDelay(cfg, p, q, k);
  }

  lemma OddFrames(p: nat, q: nat)
    requires p > 0 && 2 * (p - 1) == q && Coprime(p, q)
    ensures p % 2 == 1
  {
    var d: nat := 2;
    assert !CommonDivisor(d, p, q);
  }

  /** With short frames that are not prompt, some tick gets the step of the tick before. */
  lemma StandingStep(cfg: Config, p: nat, q: nat) returns (k: nat)
    requires ValidConfig(cfg) && Ratio(cfg, p, q) && p <= q && 2 * (p - 1) >= q
    ensures k >= 1 && StepTo(cfg, p, q, k) == 0
  {
    hide InProportion, Late, StepAt, Coprime;
    var j := StepTooFar(cfg, p, q);
    var n := 0 + (j + 1) * p;
    Grows(j + 1, 1, p);
    FirstTick(p, q);
    LateRepeats(p, q, 0, j + 1);
    StepFromDelay(cfg, p, q, n);
    k := SomeStepBelow(cfg, p, q, j, n);
    StepFromDelay(cfg, p, q, k);
    StepFromDelay(cfg, p, q, k - 1);
  }

  lemma LongStepAt(cfg: Config, p: nat, q: nat, k: nat)
    requires ValidConfig(cfg) && Ratio(cfg, p, q) && p > q && k >= 1
    ensures p >= 2 * q ==> StepTo(cfg, p, q, k) >= p / q
    ensures p < 2 * q ==> StepTo(cfg, p, q, k) >= 1
    ensures StepTo(cfg, p, q, k) * q <= p + q
  {
    hide InProportion, Coprime, Units, RoundHalfEven;
    LongStep(cfg, p, q, 0, k - 1, k);
    assert FrameTime(cfg, 0) == 0.0;
    assert FrameTime(cfg, k) - 0.0 == FrameTime(cfg, k) && FrameTime(cfg, k - 1) - 0.0 == FrameTime(cfg, k - 1);
    FrameParts(cfg, p, q, k);
    FrameParts(cfg, p, q, k - 1);
    var x, y := Units(cfg, FrameTime(cfg, k)), Units(cfg, FrameTime(cfg, k - 1));
    StepsApart(x, y);
    DifferenceParts(x, y, q, k * p, (k - 1) * p);
    assert k * p - (k - 1) * p == p;
    UpperBound(StepTo(cfg, p, q, k), x - y, q, p);
  }

  lemma UpperBound(s: int, d: real, q: nat, n: int)
    requires q > 0 && s as real <= d + 1.0 && d * q as real == n as real
    ensures s * q <= n + q
  {
    var w := q as real;
    SignOfProduct(d + 1.0 - s as real, w);
    assert (d + 1.0 - s as real) * w == d * w + w - s as real * w;
    assert s as real * w == (s * q) as real;
  }

  /** After `q` long frames exactly `p` periods have passed. */
  lemma WholePeriods(cfg: Config, p: nat, q: nat)
    requires ValidConfig(cfg) && Ratio(cfg, p, q) && p > q
    ensures StepAt(cfg, p, q, q) == p
  {
    hide InProportion, Coprime, Units, RoundHalfEven, FrameTime;
    FrameParts(cfg, p, q, q);
    var u, w := Units(cfg, FrameTime(cfg, q)), q as real;
    assert (q * p) as real == p as real * w;
    CompareParts(u, p as real, w, u * w, p as real * w);
    CompareParts(p as real, u, w, p as real * w, u * w);
    WholeRounds(u, p);
  }

  /** With long frames and a horizon beyond their whole periods, some step is wrong and still covered. */
  lemma CoveredLongStep(cfg: Config, p: nat, q: nat, horizon: nat) returns (k: nat)
    requires ValidConfig(cfg) && Ratio(cfg, p, q) && p > q && !FrozenFits(p, q, horizon)
    ensures k >= 1 && 0 <= StepTo(cfg, p, q, k) < horizon && StepTo(cfg, p, q, k) != 1
  {
    hide InProportion, Coprime, StepAt;
    StartStep(cfg, p, q);
    WholePeriods(cfg, p, q);
    var f := p / q;
    assert p == q * f + p % q;
    var c := if p < 2 * q then 1 else f + 1;
    assert q * (f + 1) == q * f + q;
    k := SomeStepNot(cfg, p, q, q, c);
    LongStepAt(cfg, p, q, k);
    StepBetween(StepTo(cfg, p, q, k), p, q);
    if p >= 2 * q {
      QuotientAtLeast(p, q, 2);
    }
  }

  lemma StepBetween(s: int, p: nat, q: nat)
    requires q > 0 && s * q <= p + q
    ensures s <= p / q + 1
  {
    var f := p / q;
    assert p == q * f + p % q;
    Grows(q, f + 2, s);
    assert q * (f + 2) == q * f + 2 * q && q * s == s * q;
  }

  lemma WrongStep(cfg: Config, p: nat, q: nat, horizon: nat) returns (k: nat)
    requires ValidConfig(cfg) && Ratio(cfg, p, q) && !FrozenFits(p, q, horizon)
    ensures k >= 1 && 0 <= StepTo(cfg, p, q, k) < horizon && StepTo(cfg, p, q, k) != 1 && horizon >= 2
  {
    hide InProportion, Coprime, StepAt;
    if p > q {
      k := CoveredLongStep(cfg, p, q, horizon);
    } else {
      k := StandingStep(cfg, p, q);
    }
  }

  // ----- a controller that loses a frozen row there -----

  /** At the given rates and horizon: synchronous, asking on every tick, freezing one row. */
  function AsksAlways(rates: Config): Config {
    Config(["arm"], rates.actionDt, rates.frameDt, 4, rates.actionHorizon, 1, false, true, false, 4, 1, 1.0, 0)
  }

  /** An answer whose rows are all empty, and one whose rows all differ. */
  function Blank(cfg: Config): (a: Action)
    ensures a.Keys == {"arm"} && |a["arm"]| == cfg.actionHorizon && forall i :: 0 <= i < cfg.actionHorizon ==> a["arm"][i] == []
  {
    map["arm" := seq(cfg.actionHorizon, i => [])]
  }

  function Distinct(cfg: Config): (a: Action)
    ensures a.Keys == {"arm"} && |a["arm"]| == cfg.actionHorizon
    ensures forall i :: 0 <= i < cfg.actionHorizon ==> a["arm"][i] == [i as real]
  {
    map["arm" := seq(cfg.actionHorizon, i => [i as real])]
  }

  lemma {:induction false} ArmAnswer(cfg: Config, a: Action)
    requires ValidConfig(cfg) && cfg.keys == ["arm"] && a.Keys == {"arm"} && |a["arm"]| == cfg.actionHorizon
    ensures FullAnswer(cfg, a) && Answers(cfg, a) && Selected(cfg.keys, a) == a && KeySet(cfg) == {"arm"}
    ensures a != map[] && Horizon(a) == cfg.actionHorizon
    ensures forall i: nat :: i < cfg.actionHorizon ==> RowsAt(a, i) == map["arm" := a["arm"][i]]
  {
    assert cfg.keys[0] == "arm";
    assert "arm" in a;
    assert Selected(cfg.keys, a) == a;
  }

  /** A machine between ticks: nothing pending, its last chunk one row in, the store's epoch the first tick. */
  ghost predicate Between(cfg: Config, m: Machine) {
    && m.future.None? && m.enabled
    && (m.chunk.None? ==> m == Initial(cfg))
    && (m.chunk.Some? ==> m.store.epoch == Some(0.0) && m.actionIndex == 1 && m.chunk.value.Keys == {"arm"}
                          && |m.chunk.value["arm"]| == cfg.actionHorizon)
  }

  /** Every row of the executing chunk is empty. */
  ghost predicate AllBlank(cfg: Config, m: Machine)
    requires Between(cfg, m)
  {
    m.chunk.Some? ==> forall i :: 0 <= i < cfg.actionHorizon ==> m.chunk.value["arm"][i] == []
  }

  /** The executing chunk is `Distinct`, but for a first row that may be empty. */
  ghost predicate AllDistinct(cfg: Config, m: Machine)
    requires Between(cfg, m) && cfg.actionHorizon >= 1
  {
    && m.chunk.Some? && (m.chunk.value["arm"][0] == [] || m.chunk.value["arm"][0] == [0.0])
    && forall i :: 1 <= i < cfg.actionHorizon ==> m.chunk.value["arm"][i] == [i as real]
  }

  /** The chunk that a tick installs: the answer, with its first row from the executing chunk if it is frozen. */
  lemma ChunkNow(cfg: Config, m: Machine, a: Action)
    requires ValidConfig(cfg) && cfg == AsksAlways(cfg) && Structure(cfg, m) && Between(cfg, m) && NoneBeyond(cfg, m.store)
    requires a.Keys == {"arm"} && |a["arm"]| == cfg.actionHorizon
    ensures Answers(cfg, a)
    ensures var chunk := ChunkFrom(cfg, Prepare(cfg, m), a);
      && chunk.Keys == {"arm"} && |chunk["arm"]| == cfg.actionHorizon
      && (forall i :: 1 <= i < cfg.actionHorizon ==> chunk["arm"][i] == a["arm"][i])
      && (chunk["arm"][0] == a["arm"][0]
          || (m.chunk.Some? && exists j :: 0 <= j < cfg.actionHorizon && chunk["arm"][0] == m.chunk.value["arm"][j]))
  {
    hide Prepare, Executing, Pending, WindowAt, RtcOptions, StepOf, NoneBeyond, Horizon;
    ArmAnswer(cfg, a);
    var r := Prepare(cfg, m);
    RequestedIsPending(cfg, m, r);
    OneFrozen(cfg, m, r);
    ChunkShape(cfg, r, a);
    if r.options.Some? && r.options.value.frozen == 1 {
      SeedsNeedChunks(cfg, m, r);
      OptionsWithin(cfg, m, r);
      ArmHorizon(cfg, m.chunk.value);
      FrozenRowsShift(cfg, m, r, a, "arm", 0);
    }
  }

  lemma {:induction false} ArmHorizon(cfg: Config, a: Action)
    requires a.Keys == {"arm"} && |a["arm"]| == cfg.actionHorizon
    ensures a != map[] && Horizon(a) == cfg.actionHorizon
  {
    assert "arm" in a;
  }

  /** At most one row is frozen. */
  lemma OneFrozen(cfg: Config, m: Machine, r: Request)
    requires ValidConfig(cfg) && cfg == AsksAlways(cfg) && StoreFits(cfg, m.store) && Pending(cfg, m, r)
    ensures r.options.Some? ==> r.options.value.frozen <= 1 && r.seed.Some?
  {
    hide WindowAt;
  }

  /** With an empty store there is no seed. */
  lemma SeedsNeedChunks(cfg: Config, m: Machine, r: Request)
    requires ValidConfig(cfg) && Structure(cfg, m) && Pending(cfg, m, r) && r.seed.Some?
    ensures m.chunk.Some?
  {
    hide RtcOptions;
  }

  lemma ChunkShape(cfg: Config, r: Request, a: Action)
    requires ValidConfig(cfg) && cfg.keys == ["arm"] && a.Keys == {"arm"}
    ensures var chunk := ChunkFrom(cfg, r, a);
      && chunk.Keys == {"arm"} && |chunk["arm"]| == |a["arm"]|
      && forall i :: 0 <= i < |a["arm"]| && i >= (if r.options.None? then 0 else r.options.value.frozen) ==> chunk["arm"][i] == a["arm"][i]
  {
    assert cfg.keys[0] == "arm";
    assert "arm" in Selected(cfg.keys, a);
    assert Selected(cfg.keys, a) == a;
  }

  /** A tick installs a new chunk at once and executes its first row. */
  lemma TickInstalls(cfg: Config, m: Machine, a: Action)
    requires ValidConfig(cfg) && cfg == AsksAlways(cfg) && Structure(cfg, m) && Between(cfg, m) && NoneBeyond(cfg, m.store) && Due(m)
    requires a.Keys == {"arm"} && |a["arm"]| == cfg.actionHorizon
    ensures Answers(cfg, a)
    ensures var after := Step(cfg, m, Frame(false, a));
      && Between(cfg, after) && after.chunk == Some(ChunkFrom(cfg, Prepare(cfg, m), a))
      && after.chunkTimeline == m.simTime && after.ticks == m.ticks + 1
  {
    hide Executing, WindowAt, OptionsFor, StepOf, NoneBeyond, Stored, Horizon;
    ArmAnswer(cfg, a);
    ChunkNow(cfg, m, a);
    var f := Frame(false, a);
    SubmitAtOnce(cfg, m, f, cfg.actionHorizon);
    SubmitPlaces(cfg, m, f);
    assert Planned(cfg, m, f) == Submit(cfg, m, f);
  }

  lemma SubmitPlaces(cfg: Config, m: Machine, f: Frame)
    requires ValidConfig(cfg) && cfg == AsksAlways(cfg) && StoreFits(cfg, m.store) && Between(cfg, m) && Answers(cfg, f.answer)
    requires FullAnswer(cfg, f.answer)
    ensures var s := Submit(cfg, m, f);
      && s.chunk == Some(ChunkFrom(cfg, Prepare(cfg, m), f.answer)) && s.chunkTimeline == m.simTime && s.store.epoch == Some(0.0)
      && s.enabled == m.enabled && s.ticks == m.ticks && s.simTime == m.simTime && s.nextPolicyTime == m.nextPolicyTime
  {
    hide WindowAt, OptionsFor, StepOf, Stored;
    FullOffers(cfg, f.answer);
    ChunkFromKeys(cfg, Prepare(cfg, m), f.answer);
    NoTimePasses(m.simTime, cfg.actionDt);
  }

  lemma QuietBetween(cfg: Config, m: Machine, f: Frame)
    requires ValidConfig(cfg) && StoreFits(cfg, m.store) && Between(cfg, m) && Answers(cfg, f.answer) && !Due(m)
    ensures Step(cfg, m, f) == m.(simTime := m.simTime + cfg.frameDt) && Between(cfg, Step(cfg, m, f)) && m.chunk.Some?
  {
    hide Planned;
  }

  lemma BlankStep(cfg: Config, m: Machine)
    requires ValidConfig(cfg) && cfg == AsksAlways(cfg) && Structure(cfg, m) && NoneBeyond(cfg, m.store)
    requires Between(cfg, m) && AllBlank(cfg, m)
    ensures Answers(cfg, Blank(cfg))
    ensures var after := Step(cfg, m, Frame(false, Blank(cfg))); Between(cfg, after) && AllBlank(cfg, after)
  {
    hide Executing, NoneBeyond, Step, ChunkFrom, Prepare;
    ArmAnswer(cfg, Blank(cfg));
    if Due(m) {
      ChunkNow(cfg, m, Blank(cfg));
      TickInstalls(cfg, m, Blank(cfg));
    } else {
      QuietBetween(cfg, m, Frame(false, Blank(cfg)));
    }
  }

  lemma {:induction false} BlankRun(cfg: Config, n: nat) returns (frames: seq<Frame>)
    requires ValidConfig(cfg) && cfg == AsksAlways(cfg)
    ensures AllFull(cfg, frames) && |frames| == n && AllAnswer(cfg, frames)
    ensures Between(cfg, After(cfg, frames)) && AllBlank(cfg, After(cfg, frames))
  {
    hide Executing, NoneBeyond, Step, FullAnswer;
    if n == 0 {
      frames := [];
    } else {
      var before := BlankRun(cfg, n - 1);
      RunBeyond(cfg, before);
      ArmAnswer(cfg, Blank(cfg));
      BlankStep(cfg, After(cfg, before));
      OneMoreFull(cfg, before, Frame(false, Blank(cfg)));
      frames := before + [Frame(false, Blank(cfg))];
    }
  }

  /** After tick `k - 1` was answered by `Distinct`, `n` frames into the run. */
  ghost predicate DistinctAfter(cfg: Config, p: nat, q: nat, frames: seq<Frame>, n: nat, k: nat)
    requires ValidConfig(cfg) && p > 0 && k >= 1
  {
    && AllFull(cfg, frames) && |frames| == n && AllAnswer(cfg, frames)
    && var m := After(cfg, frames);
      Between(cfg, m) && AllDistinct(cfg, m) && m.ticks == k && m.chunkTimeline == TickTime(cfg, p, q, k - 1)
  }

  lemma DistinctTick(cfg: Config, p: nat, q: nat, k: nat) returns (frames: seq<Frame>)
    requires ValidConfig(cfg) && cfg == AsksAlways(cfg) && Ratio(cfg, p, q) && k >= 1
    ensures DistinctAfter(cfg, p, q, frames, FrameOf(p, q, k - 1) + 1, k)
  {
    hide Executing, NoneBeyond, Step, FullAnswer, Coprime, InProportion, FrameOf, FrameTime, OnGrid, TickOf, Due, ChunkFrom, Prepare;
    var before := BlankRun(cfg, FrameOf(p, q, k - 1));
    var m := After(cfg, before);
    RunBeyond(cfg, before);
    RunClock(cfg, before);
    TickOnGrid(cfg, p, q, k - 1);
    AtTick(cfg, before);
    ArmAnswer(cfg, Distinct(cfg));
    ChunkNow(cfg, m, Distinct(cfg));
    TickInstalls(cfg, m, Distinct(cfg));
    OneMoreFull(cfg, before, Frame(false, Distinct(cfg)));
    frames := before + [Frame(false, Distinct(cfg))];
    assert Distinct(cfg)["arm"][0] == [0 as real];
  }

  /** Between two tick frames nothing is due. */
  lemma {:induction false} NotDueBetween(cfg: Config, p: nat, q: nat, frames: seq<Frame>, k: nat)
    requires ValidConfig(cfg) && Ratio(cfg, p, q) && AllAnswer(cfg, frames) && After(cfg, frames).ticks == k && |frames| < FrameOf(p, q, k)
    ensures !Due(After(cfg, frames))
  {
    hide Structure, Positioned, Step, Coprime, InProportion, FrameOf, FrameTime, OnGrid, TickOf;
    RunClock(cfg, frames);
    RunReachable(cfg, frames);
    FrameOrder(cfg, |frames|, FrameOf(p, q, k));
    if Due(After(cfg, frames)) {
      DueOnGrid(cfg, After(cfg, frames));
      GridIsTick(cfg, p, q, After(cfg, frames).simTime);
      assert false;
    }
  }

  lemma {:induction false} DistinctOn(cfg: Config, p: nat, q: nat, k: nat, n: nat) returns (frames: seq<Frame>)
    requires ValidConfig(cfg) && cfg == AsksAlways(cfg) && Ratio(cfg, p, q) && k >= 1
    requires FrameOf(p, q, k - 1) < n <= FrameOf(p, q, k)
    ensures DistinctAfter(cfg, p, q, frames, n, k)
    decreases n
  {
    hide Executing, Step, FullAnswer, Coprime, InProportion, FrameOf, TickTime, Due, AllDistinct;
    if n == FrameOf(p, q, k - 1) + 1 {
      frames := DistinctTick(cfg, p, q, k);
    } else {
      var before := DistinctOn(cfg, p, q, k, n - 1);
      NotDueBetween(cfg, p, q, before, k);
      ArmAnswer(cfg, Blank(cfg));
      QuietBetween(cfg, After(cfg, before), Frame(false, Blank(cfg)));
      OneMoreFull(cfg, before, Frame(false, Blank(cfg)));
      frames := before + [Frame(false, Blank(cfg))];
      StillDistinct(cfg, After(cfg, before), After(cfg, frames));
    }
  }

  lemma StillDistinct(cfg: Config, m: Machine, after: Machine)
    requires cfg.actionHorizon >= 1 && Between(cfg, m) && AllDistinct(cfg, m) && Between(cfg, after) && after.chunk == m.chunk
    ensures AllDistinct(cfg, after)
  {
  }

  lemma PrepareIsNow(cfg: Config, m: Machine)
    requires ValidConfig(cfg) && StoreFits(cfg, m.store)
    ensures Prepare(cfg, m).timeline == m.simTime && Prepare(cfg, m).policyStep == m.policyStep
  {
  }

  /** A request inside the executing chunk freezes exactly one row. */
  lemma FreezesOne(cfg: Config, m: Machine)
    requires ValidConfig(cfg) && cfg == AsksAlways(cfg) && Structure(cfg, m) && m.chunk.Some? && m.chunk.value.Keys == {"arm"}
    requires |m.chunk.value["arm"]| == cfg.actionHorizon
    requires var r := Prepare(cfg, m); 0 <= Shift(cfg, m, r) < cfg.actionHorizon
    ensures var r := Prepare(cfg, m);
      Pending(cfg, m, r) && r.options.Some? && r.options.value.frozen == 1
  {
    hide RtcOptions, Prepare, Executing, WindowAt, StepOf, Horizon;
    var r := Prepare(cfg, m);
    assert cfg.keys[0] == "arm";
    RequestedIsPending(cfg, m, r);
    ArmHorizon(cfg, m.chunk.value);
    SeedFollowsExecuting(cfg, m, r, "arm", 0);
    UniformKeys(cfg, m.store, r.timeline, r.policyStep);
    AnchoredNow(false, Some(cfg.actionHorizon), r.timeline, cfg.actionDt, 1, 4, 1, 1.0);
  }

  /** A frozen first row taken from the wrong place is not the row that was due. */
  lemma WrongRowLost(cfg: Config, m: Machine)
    requires ValidConfig(cfg) && cfg == AsksAlways(cfg) && Structure(cfg, m) && cfg.actionHorizon >= 2
    requires Between(cfg, m) && AllDistinct(cfg, m)
    requires var s := Shift(cfg, m, Prepare(cfg, m)); 0 <= s < cfg.actionHorizon && s != 1
    ensures FullAnswer(cfg, Blank(cfg)) && Answers(cfg, Blank(cfg))
    ensures !KeepsAhead(cfg, m, Prepare(cfg, m), Blank(cfg), 0)
  {
    hide RtcOptions, Prepare, Executing, StepOf, Pending, ChunkFrom, ElapsedActionSteps;
    var r, a := Prepare(cfg, m), Blank(cfg);
    ArmAnswer(cfg, a);
    FreezesOne(cfg, m);
    PrepareIsNow(cfg, m);
    NoTimePasses(m.simTime, cfg.actionDt);
    ArmAnswer(cfg, m.chunk.value);
    FrozenRow(cfg, m, r, a, 0);
    ChunkFromKeys(cfg, r, a);
    DifferentRows(m.chunk.value["arm"], Shift(cfg, m, r));
    assert map["arm" := m.chunk.value["arm"][Shift(cfg, m, r)]]["arm"] != map["arm" := m.chunk.value["arm"][1]]["arm"];
  }

  lemma DifferentRows(rows: seq<Row>, s: nat)
    requires s < |rows| && 2 <= |rows| && s != 1 && (rows[0] == [] || rows[0] == [0.0])
    requires forall i :: 1 <= i < |rows| ==> rows[i] == [i as real]
    ensures rows[s] != rows[1]
  {
    assert rows[1][0] == 1.0;
    assert s >= 2 ==> rows[s][0] == s as real;
  }

  /** The negative half: at all other rates this controller loses a frozen row. */
  lemma FrozenRowLost(rates: Config, p: nat, q: nat)
    requires ValidConfig(rates) && Ratio(rates, p, q) && !FrozenFits(p, q, rates.actionHorizon)
    ensures ValidConfig(AsksAlways(rates)) && !EveryRunKeepsFrozenRows(AsksAlways(rates))
  {
    hide Executing, Step, FullAnswer, Coprime, FrameOf, FrameTime, OnGrid, TickOf, Due, AllDistinct, Prepare, KeepsAhead,
      FrozenFits, StepAt, StepOf, Between;
    var cfg := AsksAlways(rates);
    assert cfg == AsksAlways(cfg) && Ratio(cfg, p, q);
    var k := WrongStep(cfg, p, q, cfg.actionHorizon);
    FramesInOrder(p, q, k - 1, k);
    var frames := DistinctOn(cfg, p, q, k, FrameOf(p, q, k));
    var m := After(cfg, frames);
    RunClock(cfg, frames);
    TickOnGrid(cfg, p, q, k);
    IsOn(cfg, m);
    AtTick(cfg, frames);
    ShiftIsStep(cfg, p, q, m, k);
    WrongRowLost(cfg, m);
    assert !FrozenKept(cfg, m, Prepare(cfg, m), Frame(false, Blank(cfg)));
    assert !FrozenKeptAfter(cfg, frames, Prepare(cfg, m), Frame(false, Blank(cfg)));
  }

  lemma IsOn(cfg: Config, m: Machine)
    requires cfg.actionHorizon >= 1 && Between(cfg, m) && AllDistinct(cfg, m)
    ensures m.enabled && m.future.None? && m.chunk.Some?
  {
  }

  lemma ShiftIsStep(cfg: Config, p: nat, q: nat, m: Machine, k: nat)
    requires ValidConfig(cfg) && StoreFits(cfg, m.store) && p > 0 && k >= 1 && Between(cfg, m) && m.chunk.Some?
    requires m.simTime == TickTime(cfg, p, q, k) && m.chunkTimeline == TickTime(cfg, p, q, k - 1)
    ensures Shift(cfg, m, Prepare(cfg, m)) == StepTo(cfg, p, q, k)
  {
    hide FrameTime, FrameOf, RoundHalfEven, Prepare, Units;
    PrepareIsNow(cfg, m);
    StoreSteps(cfg, m, m.simTime);
    StoreSteps(cfg, m, m.chunkTimeline);
    assert m.simTime - 0.0 == m.simTime && m.chunkTimeline - 0.0 == m.chunkTimeline;
  }

  predicate SameRates(a: Config, b: Config) {
    a.frameDt == b.frameDt && a.actionDt == b.actionDt && a.actionHorizon == b.actionHorizon
  }

  /** Main continuity result. All replans of all controllers at given rates and action horizon keep their frozen rows
      exactly under the whole-number condition. */
  lemma FrozenRowsKeptIff(rates: Config, p: nat, q: nat)
    requires ValidConfig(rates) && Ratio(rates, p, q)
    ensures (forall cfg :: ValidConfig(cfg) && SameRates(cfg, rates) ==> EveryRunKeepsFrozenRows(cfg))
       <==> FrozenFits(p, q, rates.actionHorizon)
  {
    hide Coprime, FullAnswer, FrozenFits, FrozenKept;
    if FrozenFits(p, q, rates.actionHorizon) {
      forall cfg | ValidConfig(cfg) && SameRates(cfg, rates) ensures EveryRunKeepsFrozenRows(cfg) {
        assert Ratio(cfg, p, q);
        forall frames: seq<Frame>, r: Request, f: Frame | AllFull(cfg, frames) && FullAnswer(cfg, f.answer)
          ensures FrozenKeptAfter(cfg, frames, r, f)
        {
          FitsKeeps(cfg, p, q, frames, r, f);
        }
      }
    } else {
      FrozenRowLost(rates, p, q);
    }
  }
}
