/** Exactly which rates, for which action horizon, make every run execute its rows by count. */
module ReplanTiming {
  import opened Rounding
  import opened ActionChunks
  import opened SeedStore
  import opened RtcFreeze
  import opened TickArithmetic
  import opened ReplanMachine
  import opened ReplanTheorems
  import opened ReplanGuarantees
  import opened ReplanRuns

  // ----- rates as a ratio of whole numbers -----

  /** A frame is `p / q` of a control period, in lowest terms. */
  ghost predicate Ratio(cfg: Config, p: nat, q: nat) {
    1 <= p && 1 <= q && Coprime(p, q) && InProportion(cfg, p, q)
  }

  predicate InProportion(cfg: Config, p: nat, q: nat) {
    cfg.frameDt * q as real == cfg.actionDt * p as real
  }

  lemma SignOfProduct(x: real, q: real)
    requires q > 0.0
    ensures x * q < 0.0 <==> x < 0.0
    ensures x * q > 0.0 <==> x > 0.0
  {
  }

  /** Numbers compare as their multiples do. */
  lemma CompareParts(d: real, e: real, q: real, r: real, s: real)
    requires q > 0.0 && d * q == r && e * q == s
    ensures d < e <==> r < s
  {
    assert (e - d) * q == s - r;
    SignOfProduct(e - d, q);
  }

  /** The whole part of `m` q-ths. */
  lemma WholePart(u: real, m: int, q: nat)
    requires q > 0 && u * q as real == m as real
    ensures u.Floor == m / q
  {
    var k, r := m / q, m % q;
    assert m == q * k + r;
    var w := q as real;
    assert k as real * w == (q * k) as real;
    assert (k as real + 1.0) * w == (q * k + q) as real;
    CompareParts(u, k as real, w, m as real, (q * k) as real);
    CompareParts(u, k as real + 1.0, w, m as real, (q * k + q) as real);
  }

  lemma RatioShort(cfg: Config, p: nat, q: nat)
    requires ValidConfig(cfg) && Ratio(cfg, p, q)
    ensures cfg.frameDt <= cfg.actionDt <==> p <= q
  {
    hide Coprime;
    var w, v := q as real, p as real;
    assert (q as real < p as real) <==> q < p;
    CompareParts(v, w, cfg.actionDt, cfg.frameDt * w, cfg.actionDt * w);
    CompareParts(cfg.frameDt, cfg.actionDt, w, cfg.frameDt * w, cfg.actionDt * w);
    CompareParts(w, v, cfg.actionDt, cfg.actionDt * w, cfg.frameDt * w);
    CompareParts(cfg.actionDt, cfg.frameDt, w, cfg.actionDt * w, cfg.frameDt * w);
  }

  /** A frame's time, in q-ths of a period. */
  lemma FrameParts(cfg: Config, p: nat, q: nat, n: nat)
    requires ValidConfig(cfg) && Ratio(cfg, p, q)
    ensures Units(cfg, FrameTime(cfg, n)) * q as real == (n * p) as real
  {
    hide Coprime;
    var u := Units(cfg, FrameTime(cfg, n));
    assert u * cfg.actionDt == n as real * cfg.frameDt;
    assert u * cfg.actionDt * q as real == n as real * (cfg.frameDt * q as real);
    assert n as real * (cfg.actionDt * p as real) == (n as real * p as real) * cfg.actionDt;
    assert (u * q as real - n as real * p as real) * cfg.actionDt == 0.0;
  }

  /** The time of tick `k`. */
  function TickTime(cfg: Config, p: nat, q: nat, k: nat): real
    requires p > 0
  {
    FrameTime(cfg, FrameOf(p, q, k))
  }

  lemma DelayParts(cfg: Config, p: nat, q: nat, k: nat)
    requires ValidConfig(cfg) && Ratio(cfg, p, q)
    ensures (Units(cfg, TickTime(cfg, p, q, k)) - k as real) * q as real == Late(p, q, k) as real
  {
    hide Coprime, InProportion, FrameOf, FrameTime, Units;
    FrameParts(cfg, p, q, FrameOf(p, q, k));
    var u, w := Units(cfg, TickTime(cfg, p, q, k)), q as real;
    assert (u - k as real) * w == u * w - k as real * w;
    assert k as real * w == (k * q) as real;
  }

  lemma OneFrame(cfg: Config, p: nat, q: nat)
    requires ValidConfig(cfg) && Ratio(cfg, p, q)
    ensures FrameUnits(cfg) * q as real == p as real
  {
    hide Coprime, InProportion, Units;
    FrameParts(cfg, p, q, 1);
    assert FrameTime(cfg, 1) == cfg.frameDt;
  }

  lemma ShortTickOf(cfg: Config, t: real)
    requires ValidConfig(cfg) && cfg.frameDt <= cfg.actionDt
    ensures TickOf(cfg, t) == Units(cfg, t).Floor
  {
  }

  /** `late` q-ths are a part of a frame, and less than a period. */
  lemma PartOfFrame(d: real, f: real, late: int, p: nat, q: nat)
    requires q > 0 && d * q as real == late as real && f * q as real == p as real && 0 <= late < p <= q
    ensures 0.0 <= d < f && d < 1.0
  {
    var w := q as real;
    CompareParts(d, 0.0, w, late as real, 0.0);
    CompareParts(d, 1.0, w, late as real, w);
    CompareParts(d, f, w, late as real, p as real);
  }

  lemma NextBelow(u: real, k: int)
    requires 0.0 <= u - k as real < 1.0
    ensures u.Floor == k
  {
  }

  lemma ShortTick(cfg: Config, p: nat, q: nat, k: nat)
    requires ValidConfig(cfg) && Ratio(cfg, p, q) && p <= q && cfg.frameDt <= cfg.actionDt
    ensures var t := TickTime(cfg, p, q, k);
      TickOf(cfg, t) == k && 0.0 <= Units(cfg, t) - k as real < FrameUnits(cfg)
  {
    hide Coprime, Units, Late, FrameTime, FrameUnits, TickOf, InProportion, FrameOf;
    LateRange(p, q, k);
    DelayParts(cfg, p, q, k);
    OneFrame(cfg, p, q);
    var t := TickTime(cfg, p, q, k);
    ShortTickOf(cfg, t);
    PartOfFrame(Units(cfg, t) - k as real, FrameUnits(cfg), Late(p, q, k), p, q);
    NextBelow(Units(cfg, t), k);
  }

  /** Tick `k` happens at its time. */
  lemma TickOnGrid(cfg: Config, p: nat, q: nat, k: nat)
    requires ValidConfig(cfg) && Ratio(cfg, p, q)
    ensures OnGrid(cfg, TickTime(cfg, p, q, k)) && TickOf(cfg, TickTime(cfg, p, q, k)) == k
  {
    hide Coprime, Units, Late, FrameTime, FrameUnits, TickOf, InProportion;
    RatioShort(cfg, p, q);
    assert OnFrame(cfg, TickTime(cfg, p, q, k));
    if p <= q {
      ShortTick(cfg, p, q, k);
    } else {
      EveryFrameTicks(cfg, k);
    }
  }

  lemma CeilingUnique(n: nat, m: nat, p: nat)
    requires p > 0 && m <= n * p < m + p
    ensures n == (m + p - 1) / p
  {
    Quotient(m + p - 1, p, n, m + p - 1 - n * p);
  }

  /** Every tick time is the time of its tick. */
  lemma GridIsTick(cfg: Config, p: nat, q: nat, t: real)
    requires ValidConfig(cfg) && Ratio(cfg, p, q) && OnGrid(cfg, t)
    ensures TickOf(cfg, t) >= 0 && t == TickTime(cfg, p, q, TickOf(cfg, t))
  {
    hide Coprime, Units, FrameTime, FrameUnits, TickOf, InProportion;
    RatioShort(cfg, p, q);
    var n: nat :| t == FrameTime(cfg, n);
    if p <= q {
      ShortFrame(cfg, p, q, n);
    } else {
      EveryFrameTicks(cfg, n);
    }
  }

  lemma ShortFrame(cfg: Config, p: nat, q: nat, n: nat)
    requires ValidConfig(cfg) && Ratio(cfg, p, q) && p <= q && OnGrid(cfg, FrameTime(cfg, n))
    ensures TickOf(cfg, FrameTime(cfg, n)) >= 0 && n == FrameOf(p, q, TickOf(cfg, FrameTime(cfg, n)))
  {
    hide Coprime, Units, FrameTime, FrameUnits, TickOf, InProportion, FrameOf, OnFrame;
    RatioShort(cfg, p, q);
    OneFrame(cfg, p, q);
    FrameParts(cfg, p, q, n);
    var t := FrameTime(cfg, n);
    ShortTickOf(cfg, t);
    WholePart(Units(cfg, t), n * p, q);
    FrameWithin(Units(cfg, t), FrameUnits(cfg), n, p, q);
    assert FrameOf(p, q, (n * p) / q) == n by {
      FrameIs(p, q, n);
    }
  }

  lemma FrameIs(p: nat, q: nat, n: nat)
    requires 0 < p <= q && (n * p) % q < p
    ensures FrameOf(p, q, (n * p) / q) == n
  {
    var k := (n * p) / q;
    assert n * p == q * k + (n * p) % q && q * k == k * q;
    CeilingUnique(n, k * q, p);
  }

  lemma FrameWithin(u: real, f: real, n: nat, p: nat, q: nat)
    requires q > 0 && u * q as real == (n * p) as real && f * q as real == p as real
    requires u - ((n * p) / q) as real < f
    ensures (n * p) % q < p
  {
    var w, k, r := q as real, (n * p) / q, (n * p) % q;
    assert n * p == q * k + r;
    assert (u - k as real) * w == u * w - k as real * w;
    assert k as real * w == (q * k) as real;
    CompareParts(u - k as real, f, w, r as real, p as real);
  }

  /** The elapsed count the program takes between two tick times. */
  lemma ElapsedIsCount(cfg: Config, p: nat, q: nat, from: nat, to: nat)
    requires ValidConfig(cfg) && Ratio(cfg, p, q)
    ensures RoundHalfUp(Units(cfg, TickTime(cfg, p, q, to)) - Units(cfg, TickTime(cfg, p, q, from))) == Elapsed(p, q, from, to)
  {
    hide Coprime, InProportion, Units, FrameTime, FrameOf;
    var a, b := FrameOf(p, q, to), FrameOf(p, q, from);
    FrameParts(cfg, p, q, a);
    FrameParts(cfg, p, q, b);
    RoundedParts(Units(cfg, TickTime(cfg, p, q, to)), Units(cfg, TickTime(cfg, p, q, from)), a, b, p, q);
  }

  lemma RoundedParts(x: real, y: real, a: nat, b: nat, p: nat, q: nat)
    requires q > 0 && x * q as real == (a * p) as real && y * q as real == (b * p) as real
    ensures RoundHalfUp(x - y) == (2 * (a - b) * p + q) / (2 * q)
  {
    var w := q as real;
    assert (x - y + 0.5) * (2.0 * w) == 2.0 * (x * w) - 2.0 * (y * w) + w;
    assert (2 * (a - b) * p + q) == 2 * (a * p) - 2 * (b * p) + q by {
      ProductOfSum(a - b, b, p);
      MulAssociates(2, a - b, p);
    }
    WholePart(x - y + 0.5, 2 * (a - b) * p + q, 2 * q);
  }

  lemma TicksInOrder(cfg: Config, p: nat, q: nat, from: nat, to: nat)
    requires ValidConfig(cfg) && Ratio(cfg, p, q)
    ensures from < to ==> FrameOf(p, q, from) < FrameOf(p, q, to)
    ensures from <= to <==> TickTime(cfg, p, q, from) <= TickTime(cfg, p, q, to)
  {
    hide Coprime, InProportion;
    FramesInOrder(p, q, from, to);
    FramesInOrder(p, q, to, from);
    FrameOrder(cfg, FrameOf(p, q, from), FrameOf(p, q, to));
    FrameOrder(cfg, FrameOf(p, q, to), FrameOf(p, q, from));
  }

  lemma FrameOrder(cfg: Config, i: nat, n: nat)
    requires ValidConfig(cfg)
    ensures i < n ==> FrameTime(cfg, i) + cfg.frameDt <= FrameTime(cfg, n)
    ensures i == n ==> FrameTime(cfg, i) == FrameTime(cfg, n)
  {
    if i < n {
      var gap := (n - i - 1) as real;
      assert gap * cfg.frameDt >= 0.0;
      assert (i as real + gap + 1.0) * cfg.frameDt == i as real * cfg.frameDt + gap * cfg.frameDt + cfg.frameDt;
      assert n as real == i as real + gap + 1.0;
    }
  }

  /** The machine's elapsed counts below a limit are exact exactly when the whole-number condition holds. */
  lemma CountsUpToIff(cfg: Config, p: nat, q: nat, limit: int)
    requires ValidConfig(cfg) && Ratio(cfg, p, q)
    ensures CountsUpTo(cfg, limit) <==> CountsFit(p, q, limit)
  {
    hide Coprime, Elapsed, CountsFit, OnGrid, TickTime, FrameTime, Units, TickOf;
    CountsTicksIff(p, q, limit);
    if CountsFit(p, q, limit) {
      forall from, to | OnGrid(cfg, from) && OnGrid(cfg, to) && from <= to ensures CountsPair(cfg, from, to, limit) {
        GridIsTick(cfg, p, q, from);
        GridIsTick(cfg, p, q, to);
        PairIsCount(cfg, p, q, limit, TickOf(cfg, from), TickOf(cfg, to));
      }
    } else {
      var from: nat, to: nat :| from <= to && !CountIs(p, q, limit, from, to);
      TickOnGrid(cfg, p, q, from);
      TickOnGrid(cfg, p, q, to);
      PairIsCount(cfg, p, q, limit, from, to);
      assert !CountsPair(cfg, TickTime(cfg, p, q, from), TickTime(cfg, p, q, to), limit);
    }
  }

  lemma PairIsCount(cfg: Config, p: nat, q: nat, limit: int, from: nat, to: nat)
    requires ValidConfig(cfg) && Ratio(cfg, p, q)
    ensures CountsPair(cfg, TickTime(cfg, p, q, from), TickTime(cfg, p, q, to), limit) <==> CountIs(p, q, limit, from, to)
    ensures from <= to <==> TickTime(cfg, p, q, from) <= TickTime(cfg, p, q, to)
  {
    hide Coprime, Elapsed, OnGrid, TickTime, FrameTime, Units, TickOf, InProportion;
    TickOnGrid(cfg, p, q, from);
    TickOnGrid(cfg, p, q, to);
    TicksInOrder(cfg, p, q, from, to);
    ElapsedIsCount(cfg, p, q, from, to);
  }

  // ----- prompt rates -----

  /** Both roundings count the ticks between any two tick times. */
  ghost predicate RoundingsCountTicks(cfg: Config)
    requires cfg.actionDt > 0.0
  {
    forall from, to :: OnGrid(cfg, from) && OnGrid(cfg, to) ==> RoundingsAgree(cfg, from, to)
  }

  predicate RoundingsAgree(cfg: Config, from: real, to: real)
    requires cfg.actionDt > 0.0
  {
    && RoundHalfEven((to - from) / cfg.actionDt) == TickOf(cfg, to) - TickOf(cfg, from)
    && RoundHalfUp((to - from) / cfg.actionDt) == TickOf(cfg, to) - TickOf(cfg, from)
  }

  lemma StartOnGrid(cfg: Config)
    requires ValidConfig(cfg)
    ensures OnGrid(cfg, 0.0) && Units(cfg, 0.0) == 0.0 && TickOf(cfg, 0.0) == 0
  {
    assert 0.0 == FrameTime(cfg, 0);
    UnitsLinear(cfg, 0.0, cfg.frameDt);
    assert 0.0 / TickSpacing(cfg) == 0.0;
  }

  /** With longer frames some tick is half a period late. */
  lemma LongFramesFallBehind(cfg: Config) returns (n: nat)
    requires ValidConfig(cfg) && cfg.frameDt > cfg.actionDt
    ensures Units(cfg, FrameTime(cfg, n)) - n as real >= 0.5
  {
    var f := FrameUnits(cfg);
    UnitsLinear(cfg, cfg.frameDt, cfg.actionDt);
    n := (0.5 / (f - 1.0)).Floor + 1;
    BehindByHalf(f, n);
    assert Units(cfg, FrameTime(cfg, n)) == n as real * f by {
      assert n as real * f * cfg.actionDt == n as real * cfg.frameDt;
      Cancel(n as real * f, cfg.actionDt);
    }
  }

  lemma BehindByHalf(f: real, n: nat)
    requires f > 1.0 && n as real > 0.5 / (f - 1.0)
    ensures n as real * f - n as real >= 0.5
  {
    var d := f - 1.0;
    assert (0.5 / d) * d == 0.5;
    assert (n as real - 0.5 / d) * d >= 0.0;
  }

  lemma LateRounding(u: real, k: int)
    requires u - k as real >= 0.5
    ensures RoundHalfUp(u) > k
  {
  }

  lemma RoundingsCountTicksIff(cfg: Config)
    requires ValidConfig(cfg)
    ensures RoundingsCountTicks(cfg) <==> Prompt(cfg)
  {
    hide OnFrame, Units, TickOf, RoundHalfEven, RoundHalfUp;
    if Prompt(cfg) {
      forall from, to | OnGrid(cfg, from) && OnGrid(cfg, to) ensures RoundingsAgree(cfg, from, to) {
        GridStepsExact(cfg, from, to);
      }
    } else {
      var t := LateTime(cfg);
      StartOnGrid(cfg);
      SinceStart(cfg, t);
      LateRounding(Units(cfg, t), TickOf(cfg, t));
      assert !RoundingsAgree(cfg, 0.0, t);
    }
  }

  lemma SinceStart(cfg: Config, t: real)
    requires cfg.actionDt > 0.0
    ensures (t - 0.0) / cfg.actionDt == Units(cfg, t)
  {
    assert t - 0.0 == t;
  }

  lemma LateTime(cfg: Config) returns (t: real)
    requires ValidConfig(cfg) && !Prompt(cfg)
    ensures OnGrid(cfg, t) && Units(cfg, t) - TickOf(cfg, t) as real >= 0.5
  {
    hide Units, TickOf, OnFrame;
    if cfg.frameDt <= cfg.actionDt {
      t :| OnGrid(cfg, t) && Units(cfg, t) - TickOf(cfg, t) as real >= 0.5;
    } else {
      var n := LongFramesFallBehind(cfg);
      EveryFrameTicks(cfg, n);
      t := FrameTime(cfg, n);
    }
  }

  /** A delay of `late` q-ths is half a period or more. */
  lemma HalfPart(d: real, late: int, q: nat)
    requires q > 0 && d * q as real == late as real
    ensures d < 0.5 <==> 2 * late < q
  {
    var w := q as real;
    CompareParts(d, 0.5, w, late as real, 0.5 * w);
    assert late as real < 0.5 * w <==> (2 * late) as real < q as real;
  }

  /** With frames of p/q of a period the latest tick is (p - 1)/q of a period late. */
  lemma PromptIff(cfg: Config, p: nat, q: nat)
    requires ValidConfig(cfg) && Ratio(cfg, p, q)
    ensures Prompt(cfg) <==> p <= q && 2 * (p - 1) < q
  {
    hide Coprime, InProportion, OnGrid, TickTime, Late, Units, TickOf;
    RatioShort(cfg, p, q);
    if p <= q && 2 * (p - 1) < q {
      forall t | OnGrid(cfg, t) ensures Units(cfg, t) - TickOf(cfg, t) as real < 0.5 {
        GridIsTick(cfg, p, q, t);
        LateRange(p, q, TickOf(cfg, t));
        DelayParts(cfg, p, q, TickOf(cfg, t));
        HalfPart(Units(cfg, t) - TickOf(cfg, t) as real, Late(p, q, TickOf(cfg, t)), q);
      }
    } else if p <= q {
      var k := LatestTick(p, q);
      TickOnGrid(cfg, p, q, k);
      DelayParts(cfg, p, q, k);
      HalfPart(Units(cfg, TickTime(cfg, p, q, k)) - k as real, p - 1, q);
    }
  }

  // ----- runs -----

  lemma {:induction false} OneMoreFrame(cfg: Config, frames: seq<Frame>, f: Frame)
    requires ValidConfig(cfg) && AllAnswer(cfg, frames) && Answers(cfg, f.answer)
    ensures AllAnswer(cfg, frames + [f]) && After(cfg, frames + [f]) == Step(cfg, After(cfg, frames), f)
  {
    assert (frames + [f])[..|frames|] == frames;
  }

  lemma StepClock(cfg: Config, m: Machine, f: Frame)
    requires ValidConfig(cfg) && StoreFits(cfg, m.store) && Answers(cfg, f.answer)
    ensures Step(cfg, m, f).simTime == m.simTime + cfg.frameDt
  {
    hide Planned, HasRow;
    PlannedClock(cfg, m, f);
  }

  lemma {:induction false} RunClock(cfg: Config, frames: seq<Frame>)
    requires ValidConfig(cfg) && AllAnswer(cfg, frames)
    ensures After(cfg, frames).simTime == FrameTime(cfg, |frames|)
  {
    hide Step, Executing;
    if frames != [] {
      RunClock(cfg, frames[..|frames| - 1]);
      StepClock(cfg, After(cfg, frames[..|frames| - 1]), frames[|frames| - 1]);
      NextFrameTime(cfg, |frames| - 1);
    }
  }

  lemma NextFrameTime(cfg: Config, n: nat)
    ensures FrameTime(cfg, n) + cfg.frameDt == FrameTime(cfg, n + 1)
  {
  }

  /** A tick frame finds an enabled machine at exactly that tick. */
  lemma {:induction false} AtTick(cfg: Config, frames: seq<Frame>)
    requires ValidConfig(cfg) && AllAnswer(cfg, frames)
    requires OnGrid(cfg, FrameTime(cfg, |frames|)) && After(cfg, frames).enabled
    ensures Due(After(cfg, frames)) && After(cfg, frames).ticks == TickOf(cfg, FrameTime(cfg, |frames|))
  {
    hide Structure, Positioned, Step, Prompt, Units;
    RunClock(cfg, frames);
    RunReachable(cfg, frames);
    ClockAtTick(cfg, After(cfg, frames));
  }

  lemma ClockAtTick(cfg: Config, m: Machine)
    requires ValidConfig(cfg) && Timed(cfg, m) && m.enabled && OnGrid(cfg, m.simTime)
    ensures Due(m) && m.ticks == TickOf(cfg, m.simTime)
  {
    hide Positioned, OnFrame;
    UnitsLinear(cfg, cfg.frameDt, cfg.actionDt);
    UnitsLinear(cfg, 0.0, m.simTime);
    UnitsLinear(cfg, m.nextPolicyTime, m.simTime);
    if cfg.frameDt <= cfg.actionDt {
      ShortTickOf(cfg, m.simTime);
      assert Units(cfg, 0.0) == 0.0;
      WholeTicks(Units(cfg, m.simTime), m.ticks, FrameUnits(cfg));
    } else {
      EveryFrameTicks(cfg, m.ticks);
      LongFrame(cfg, m.ticks);
    }
  }

  lemma WholeTicks(u: real, ticks: nat, f: real)
    requires u < ticks as real + f && (ticks > 0 ==> (ticks - 1) as real <= u - f)
    requires 0.0 <= u && 0.0 <= u - u.Floor as real < f <= 1.0
    ensures ticks == u.Floor
  {
    assert u.Floor as real < ticks as real + 1.0;
    assert (ticks - 1) as real < u.Floor as real || ticks == 0;
  }

  // ----- answers of the action horizon -----

  /** The policy answers with exactly its action horizon of rows for every action key. */
  ghost predicate FullAnswer(cfg: Config, answer: Action) {
    forall k :: k in cfg.keys ==> k in answer && |answer[k]| == cfg.actionHorizon
  }

  ghost predicate AllFull(cfg: Config, frames: seq<Frame>) {
    forall i :: 0 <= i < |frames| ==> FullAnswer(cfg, frames[i].answer)
  }

  lemma FullAnswers(cfg: Config, frames: seq<Frame>)
    requires AllFull(cfg, frames)
    ensures AllAnswer(cfg, frames)
  {
  }

  lemma FullOffers(cfg: Config, answer: Action)
    requires ValidConfig(cfg) && FullAnswer(cfg, answer)
    ensures Answers(cfg, answer) && Offers(cfg, answer, cfg.actionHorizon)
  {
    assert cfg.keys[0] in Selected(cfg.keys, answer);
  }

  /** An executing chunk has the action horizon's rows, and its first one is behind. */
  ghost predicate FullChunk(cfg: Config, m: Machine) {
    m.chunk.Some? ==> m.chunk.value != map[] && Horizon(m.chunk.value) == cfg.actionHorizon && m.actionIndex >= 1
  }

  ghost predicate FullMidChunk(cfg: Config, m: Machine) {
    m.chunk.Some? ==> m.chunk.value != map[] && Horizon(m.chunk.value) == cfg.actionHorizon && (m.actionIndex >= 1 || HasRow(m))
  }

  lemma FullInstall(cfg: Config, m: Machine, r: Request, answer: Action)
    requires ValidConfig(cfg) && StoreFits(cfg, m.store) && FullAnswer(cfg, answer) && FullMidChunk(cfg, m)
    ensures Answers(cfg, answer) && FullMidChunk(cfg, Install(cfg, m, r, answer))
  {
    hide StepOf, ElapsedActionSteps;
    FullOffers(cfg, answer);
    ChunkFromKeys(cfg, r, answer);
  }

  lemma FullPlanned(cfg: Config, m: Machine, f: Frame)
    requires ValidConfig(cfg) && StoreFits(cfg, m.store) && FullAnswer(cfg, f.answer) && FullChunk(cfg, m)
    ensures Answers(cfg, f.answer) && FullMidChunk(cfg, Planned(cfg, m, f))
  {
    hide Install, Prepare;
    FullOffers(cfg, f.answer);
    InstallFits(cfg, m, f);
    if m.future.Some? {
      FullInstall(cfg, m.(future := None), m.future.value, f.answer);
    }
    var c := Consume(cfg, m, f);
    FullInstall(cfg, c, Prepare(cfg, c), f.answer);
  }

  lemma FullStep(cfg: Config, m: Machine, f: Frame)
    requires ValidConfig(cfg) && StoreFits(cfg, m.store) && FullAnswer(cfg, f.answer) && FullChunk(cfg, m)
    ensures Answers(cfg, f.answer) && FullChunk(cfg, Step(cfg, m, f))
  {
    hide Planned;
    FullPlanned(cfg, m, f);
  }

  lemma {:induction false} FullRun(cfg: Config, frames: seq<Frame>)
    requires ValidConfig(cfg) && AllFull(cfg, frames)
    ensures AllAnswer(cfg, frames) && FullChunk(cfg, After(cfg, frames))
  {
    hide Step, FullChunk, FullAnswer, Executing;
    FullAnswers(cfg, frames);
    if frames == [] {
      NoChunkYet(cfg);
    } else {
      FullRun(cfg, frames[..|frames| - 1]);
      FullStep(cfg, After(cfg, frames[..|frames| - 1]), frames[|frames| - 1]);
    }
  }

  lemma NoChunkYet(cfg: Config)
    ensures FullChunk(cfg, Initial(cfg))
  {
  }

  // ----- an answer that comes late -----

  /** An answer of the action horizon's rows for every key. */
  function Flat(cfg: Config): (a: Action)
    ensures FullAnswer(cfg, a)
  {
    map k | k in cfg.keys :: seq(cfg.actionHorizon, i => [])
  }

  function Wait(cfg: Config): Frame {
    Frame(false, Flat(cfg))
  }

  function Arrive(cfg: Config): Frame {
    Frame(true, Flat(cfg))
  }

  /** A machine without a chunk that asked at time `t` and has not consumed an answer since. */
  ghost predicate Waiting(cfg: Config, m: Machine, t: real) {
    m.chunk.None? && m.enabled && m.future.Some? && m.future.value.timeline == t
  }

  lemma FirstRequest(cfg: Config)
    requires ValidConfig(cfg) && cfg.asynchronous
    ensures Answers(cfg, Wait(cfg).answer) && Waiting(cfg, Step(cfg, Initial(cfg), Wait(cfg)), 0.0)
  {
    hide OptionsFor;
    FullOffers(cfg, Flat(cfg));
  }

  lemma StillWaiting(cfg: Config, m: Machine, t: real)
    requires ValidConfig(cfg) && StoreFits(cfg, m.store) && Waiting(cfg, m, t)
    ensures Answers(cfg, Wait(cfg).answer) && Waiting(cfg, Step(cfg, m, Wait(cfg)), t)
  {
    FullOffers(cfg, Flat(cfg));
  }

  /** A stale answer is dropped, and the same tick asks again. */
  lemma AsksAgain(cfg: Config, m: Machine, t: real)
    requires ValidConfig(cfg) && StoreFits(cfg, m.store) && cfg.asynchronous && Waiting(cfg, m, t) && Due(m)
    requires ElapsedActionSteps(t, m.simTime, cfg.actionDt) >= cfg.actionHorizon
    ensures Answers(cfg, Arrive(cfg).answer) && Waiting(cfg, Step(cfg, m, Arrive(cfg)), m.simTime)
  {
    hide ElapsedActionSteps, OptionsFor, WindowAt;
    FullOffers(cfg, Flat(cfg));
    ChunkFromKeys(cfg, m.future.value, Flat(cfg));
    var c := Consume(cfg, m, Arrive(cfg));
    assert c == m.(future := None, replanIndex := m.replanIndex + 1);
    assert Planned(cfg, m, Arrive(cfg)) == c.(future := Some(Prepare(cfg, c)));
  }

  /** An answer in time is executed from its elapsed row. */
  lemma Installs(cfg: Config, m: Machine, t: real)
    requires ValidConfig(cfg) && StoreFits(cfg, m.store) && cfg.asynchronous && Waiting(cfg, m, t) && Due(m)
    requires ElapsedActionSteps(t, m.simTime, cfg.actionDt) < cfg.actionHorizon
    ensures Answers(cfg, Arrive(cfg).answer)
    ensures var o := Output(cfg, m, Arrive(cfg));
      && o.Some? && o.value.index == ElapsedActionSteps(t, m.simTime, cfg.actionDt)
      && o.value.chunkTimeline == t && o.value.simTime == m.simTime
  {
    hide ElapsedActionSteps, StepOf, RtcOptions;
    FullOffers(cfg, Flat(cfg));
    ChunkFromKeys(cfg, m.future.value, Flat(cfg));
    var c := Consume(cfg, m, Arrive(cfg));
    assert c.chunk.Some? && Horizon(c.chunk.value) == cfg.actionHorizon;
    assert HasRow(Planned(cfg, m, Arrive(cfg)));
  }

  /** A run of full answers that leaves the machine waiting on a request made at time `t`, after `n` frames. */
  ghost predicate WaitsAfter(cfg: Config, frames: seq<Frame>, n: nat, t: real)
    requires ValidConfig(cfg)
  {
    AllFull(cfg, frames) && |frames| == n && AllAnswer(cfg, frames) && Waiting(cfg, After(cfg, frames), t)
  }

  lemma {:induction false} OneMoreFull(cfg: Config, frames: seq<Frame>, f: Frame)
    requires ValidConfig(cfg) && AllFull(cfg, frames) && FullAnswer(cfg, f.answer)
    ensures AllAnswer(cfg, frames) && Answers(cfg, f.answer)
    ensures AllFull(cfg, frames + [f]) && AllAnswer(cfg, frames + [f])
    ensures After(cfg, frames + [f]) == Step(cfg, After(cfg, frames), f)
  {
    FullAnswers(cfg, frames);
    FullOffers(cfg, f.answer);
    OneMoreFrame(cfg, frames, f);
  }

  lemma {:induction false} WaitsOn(cfg: Config, frames: seq<Frame>, n: nat, t: real, more: nat) returns (longer: seq<Frame>)
    requires ValidConfig(cfg) && WaitsAfter(cfg, frames, n, t)
    ensures WaitsAfter(cfg, longer, n + more, t)
  {
    hide Executing, Step, Waiting, FullAnswer;
    if more == 0 {
      longer := frames;
    } else {
      var before := WaitsOn(cfg, frames, n, t, more - 1);
      StillWaiting(cfg, After(cfg, before), t);
      OneMoreFull(cfg, before, Wait(cfg));
      longer := before + [Wait(cfg)];
    }
  }

  lemma WaitsFromStart(cfg: Config, n: nat) returns (frames: seq<Frame>)
    requires ValidConfig(cfg) && cfg.asynchronous && n >= 1
    ensures WaitsAfter(cfg, frames, n, 0.0)
  {
    hide Executing, Step, Waiting, FullAnswer;
    FirstRequest(cfg);
    OneMoreFull(cfg, [], Wait(cfg));
    assert [] + [Wait(cfg)] == [Wait(cfg)];
    assert WaitsAfter(cfg, [Wait(cfg)], 1, 0.0);
    frames := WaitsOn(cfg, [Wait(cfg)], 1, 0.0, n - 1);
  }

  /** What a waiting machine's clock shows on a tick frame. */
  lemma {:induction false} WaitsAtTick(cfg: Config, p: nat, q: nat, frames: seq<Frame>, k: nat, t: real)
    requires ValidConfig(cfg) && Ratio(cfg, p, q) && WaitsAfter(cfg, frames, FrameOf(p, q, k), t)
    ensures var m := After(cfg, frames);
      Due(m) && m.ticks == k && m.simTime == TickTime(cfg, p, q, k)
  {
    hide Executing, Step, FullAnswer, Coprime, InProportion, FrameOf, FrameTime, OnGrid, TickOf, Due;
    RunClock(cfg, frames);
    TickOnGrid(cfg, p, q, k);
    AtTick(cfg, frames);
  }

  lemma ElapsedAtTicks(cfg: Config, p: nat, q: nat, from: nat, to: nat)
    requires ValidConfig(cfg) && Ratio(cfg, p, q) && from <= to
    ensures ElapsedActionSteps(TickTime(cfg, p, q, from), TickTime(cfg, p, q, to), cfg.actionDt) == Elapsed(p, q, from, to)
  {
    hide Coprime, InProportion, FrameOf, FrameTime, ElapsedActionSteps, Elapsed, RoundHalfUp;
    TicksInOrder(cfg, p, q, from, to);
    ElapsedUnits(cfg, TickTime(cfg, p, q, from), TickTime(cfg, p, q, to));
    ElapsedIsCount(cfg, p, q, from, to);
  }

  /** Any tick from the action horizon on can be the one a waiting machine asked on. */
  lemma AsksOnTick(cfg: Config, p: nat, q: nat, k: nat) returns (frames: seq<Frame>)
    requires ValidConfig(cfg) && Ratio(cfg, p, q) && cfg.asynchronous && k >= cfg.actionHorizon
    ensures WaitsAfter(cfg, frames, FrameOf(p, q, k) + 1, TickTime(cfg, p, q, k))
  {
    hide Executing, Step, Waiting, FullAnswer, Coprime, InProportion, FrameOf, FrameTime, ElapsedActionSteps, Elapsed, Due;
    FirstTick(p, q);
    FramesInOrder(p, q, 0, k);
    var before := WaitsFromStart(cfg, FrameOf(p, q, k));
    WaitsAtTick(cfg, p, q, before, k, 0.0);
    StartTime(cfg, p, q);
    ElapsedAtTicks(cfg, p, q, 0, k);
    StaleFromStart(p, q, k);
    AsksAgain(cfg, After(cfg, before), 0.0);
    OneMoreFull(cfg, before, Arrive(cfg));
    frames := before + [Arrive(cfg)];
  }

  lemma StartTime(cfg: Config, p: nat, q: nat)
    requires p > 0 && q > 0
    ensures TickTime(cfg, p, q, 0) == 0.0
  {
    FirstTick(p, q);
  }

  ghost predicate EveryRunOnSchedule(cfg: Config)
    requires ValidConfig(cfg)
  {
    forall frames: seq<Frame>, f: Frame :: AllFull(cfg, frames) && FullAnswer(cfg, f.answer) ==> FullOnSchedule(cfg, frames, f)
  }

  ghost predicate FullOnSchedule(cfg: Config, frames: seq<Frame>, f: Frame)
    requires ValidConfig(cfg) && AllFull(cfg, frames) && FullAnswer(cfg, f.answer)
  {
    FullAnswers(cfg, frames);
    FullOffers(cfg, f.answer);
    OnSchedule(cfg, After(cfg, frames), f)
  }

  /** A count that goes wrong short of the action horizon makes some run execute a row of another tick. */
  lemma MiscountSlips(cfg: Config, p: nat, q: nat, from: nat, to: nat)
    requires ValidConfig(cfg) && Ratio(cfg, p, q) && cfg.asynchronous
    requires cfg.actionHorizon <= from < to && !CountIs(p, q, cfg.actionHorizon, from, to)
    ensures !EveryRunOnSchedule(cfg)
  {
    hide Executing, Step, Waiting, FullAnswer, Coprime, InProportion, FrameOf, FrameTime, ElapsedActionSteps, Elapsed, Due, Output;
    var asked := AsksOnTick(cfg, p, q, from);
    FramesInOrder(p, q, from, to);
    var frames := WaitsOn(cfg, asked, FrameOf(p, q, from) + 1, TickTime(cfg, p, q, from), FrameOf(p, q, to) - FrameOf(p, q, from) - 1);
    WaitsAtTick(cfg, p, q, frames, to, TickTime(cfg, p, q, from));
    ElapsedAtTicks(cfg, p, q, from, to);
    var m := After(cfg, frames);
    Installs(cfg, m, TickTime(cfg, p, q, from));
    TickOnGrid(cfg, p, q, from);
    TickOnGrid(cfg, p, q, to);
    assert !FullOnSchedule(cfg, frames, Arrive(cfg));
  }

  /** Main timing result. With answers of the action horizon's rows every run executes by count exactly when answers
      are never waited for, or no elapsed count goes wrong short of the horizon. */
  lemma ScheduleKeptIff(cfg: Config, p: nat, q: nat)
    requires ValidConfig(cfg) && Ratio(cfg, p, q)
    ensures EveryRunOnSchedule(cfg) <==> !cfg.asynchronous || CountsFit(p, q, cfg.actionHorizon)
  {
    hide Coprime, InProportion, CountsFit, OnSchedule, FullAnswer, CountIs;
    if cfg.asynchronous && !CountsFit(p, q, cfg.actionHorizon) {
      var d: nat, from: nat := LaterMiscount(p, q, cfg.actionHorizon);
      MiscountSlips(cfg, p, q, from, from + d);
    } else {
      CountsUpToIff(cfg, p, q, cfg.actionHorizon);
      forall frames: seq<Frame>, f: Frame | AllFull(cfg, frames) && FullAnswer(cfg, f.answer)
        ensures FullOnSchedule(cfg, frames, f)
      {
        KeepsCount(cfg, frames, f);
      }
    }
  }

  lemma KeepsCount(cfg: Config, frames: seq<Frame>, f: Frame)
    requires ValidConfig(cfg) && AllFull(cfg, frames) && FullAnswer(cfg, f.answer) && CountsFor(cfg, cfg.actionHorizon)
    ensures FullOnSchedule(cfg, frames, f)
  {
    hide CountsFor, OnSchedule, FullAnswer, Executing, Planned;
    FullRun(cfg, frames);
    FullPlanned(cfg, After(cfg, frames), f);
    ExecutedRowMatchesTick(cfg, frames, f);
  }
}
