/** The replan machine: requests, late installs and one executed row per control tick. */
module ReplanMachine {
  import opened Rounding
  import opened ActionChunks
  import opened SeedStore
  import opened RtcFreeze

  datatype Config = Config(
    keys: seq<string>,
    actionDt: real,
    frameDt: real,
    maxChunks: nat,
    actionHorizon: nat,
    replanHorizon: nat,
    asynchronous: bool,
    rtc: bool,
    rtcModeOff: bool,
    maxOverlap: int,
    frozenSteps: int,
    rampRate: real,
    maxPolicySteps: int)

  ghost predicate ValidConfig(cfg: Config) {
    && cfg.keys != []
    && 0.000000001 <= cfg.actionDt
    && 0.0 < cfg.frameDt
    && 1 <= cfg.maxChunks
    && 1 <= cfg.replanHorizon
    && 1 <= cfg.actionHorizon
  }

  datatype Request = Request(replanIndex: nat, policyStep: nat, timeline: real, seed: Option<Action>, options: Option<Options>)

  /** `ticks` and `chunkTimeline` are history: the control ticks so far, and the request time of the executing
      chunk. No step reads them. */
  datatype Machine = Machine(
    store: Store,
    chunk: Option<Action>,
    actionIndex: nat,
    replanIndex: nat,
    policyStep: nat,
    future: Option<Request>,
    nextPolicyTime: real,
    simTime: real,
    enabled: bool,
    ticks: nat,
    chunkTimeline: real)

  /** What the outside does during one frame: whether a pending inference is finished, and the policy's answer. */
  datatype Frame = Frame(inferenceDone: bool, answer: Action)

  datatype Applied = Applied(row: map<string, Row>, index: nat, chunkTimeline: real, simTime: real)

  /** The policy answers with every action key. */
  ghost predicate Answers(cfg: Config, answer: Action) {
    forall k :: k in cfg.keys ==> k in answer
  }

  // ----- one frame, as a function of the machine -----

  function ElapsedActionSteps(start: real, now: real, actionDt: real): nat {
    var elapsed := if now - start < 0.0 then 0.0 else now - start;
    Max(0, RoundHalfUp(elapsed / if actionDt < 0.000000001 then 0.000000001 else actionDt))
  }

  ghost function SeedAction(w: SeedWindow): Option<Action> {
    if w.Window? then Some(w.seed) else None
  }

  ghost function OptionsFor(cfg: Config, seed: Option<Action>, timeline: real): Option<Options>
    requires ValidConfig(cfg) && (seed.Some? ==> seed.value != map[])
  {
    RtcOptions(cfg.rtc, cfg.rtcModeOff, if seed.Some? then Some(Horizon(seed.value)) else None,
               if seed.Some? then Some(timeline) else None, timeline, cfg.actionDt, cfg.replanHorizon,
               cfg.maxOverlap, cfg.frozenSteps, cfg.rampRate)
  }

  /** Every retained chunk carries exactly the configured keys. */
  ghost predicate StoreFits(cfg: Config, s: Store) {
    && s.keys == cfg.keys && s.actionDt == cfg.actionDt && s.maxChunks == cfg.maxChunks
    && forall i :: 0 <= i < |s.chunks| ==> s.chunks[i].action.Keys == KeySet(cfg)
  }

  ghost function KeySet(cfg: Config): set<string> {
    set k | k in cfg.keys
  }

  /** With uniform keys the window never misses one, and a seed always has every key. */
  lemma UniformKeys(cfg: Config, s: Store, time: real, frame: int)
    requires ValidConfig(cfg) && StoreFits(cfg, s)
    ensures !WindowAt(s, time, frame, cfg.actionHorizon).MissingKey?
    ensures WindowAt(s, time, frame, cfg.actionHorizon).Window? ==>
              var w := WindowAt(s, time, frame, cfg.actionHorizon);
              && w.seed.Keys == KeySet(cfg) && w.seed != map[]
              && Horizon(w.seed) == cfg.actionHorizon
  {
    var start := StepOf(s, time);
    var valid := CoveredPrefix(s.chunks, start, cfg.actionHorizon);
    if s.chunks != [] && valid > 0 {
      forall k, i: nat | k in cfg.keys && i < valid ensures k in SeedRow(s.chunks, start, valid, i) {
        NewestKeys(cfg, s.chunks, start + i);
      }
      assert cfg.keys[0] in SeedRow(s.chunks, start, valid, 0);
      NewestKeys(cfg, s.chunks, start);
      var w := WindowAt(s, time, frame, cfg.actionHorizon);
      assert w.seed.Keys == KeySet(cfg);
      assert cfg.keys[0] in w.seed;
    }
  }

  lemma {:induction false} NewestKeys(cfg: Config, chunks: seq<Chunk>, step: int)
    requires forall i :: 0 <= i < |chunks| ==> chunks[i].action.Keys == KeySet(cfg)
    requires Newest(chunks, step).Some?
    ensures Newest(chunks, step).value.Keys == KeySet(cfg)
  {
    if !Covers(chunks[|chunks| - 1], step) {
      NewestKeys(cfg, chunks[..|chunks| - 1], step);
    }
  }

  ghost function Prepare(cfg: Config, m: Machine): (r: Request)
    requires ValidConfig(cfg) && StoreFits(cfg, m.store)
  {
    UniformKeys(cfg, m.store, m.simTime, m.policyStep);
    var seed := SeedAction(WindowAt(m.store, m.simTime, m.policyStep, cfg.actionHorizon));
    Request(m.replanIndex, m.policyStep, m.simTime, seed, OptionsFor(cfg, seed, m.simTime))
  }

  /** The chunk a result turns into: the policy's tables with the frozen rows taken from the seed. */
  ghost function ChunkFrom(cfg: Config, r: Request, answer: Action): Action {
    Stored(Selected(cfg.keys, answer), r.seed, cfg.keys, if r.options.None? then 0 else r.options.value.frozen)
  }

  ghost function Install(cfg: Config, m: Machine, r: Request, answer: Action): Machine
    requires ValidConfig(cfg) && StoreFits(cfg, m.store) && Answers(cfg, answer)
  {
    var chunk := ChunkFrom(cfg, r, answer);
    ChunkFromKeys(cfg, r, answer);
    var elapsed := ElapsedActionSteps(r.timeline, m.simTime, cfg.actionDt);
    if elapsed >= Horizon(chunk) then m.(replanIndex := m.replanIndex + 1)
    else m.(replanIndex := m.replanIndex + 1, store := Pushed(m.store, chunk, r.timeline, r.policyStep),
            chunk := Some(chunk), actionIndex := elapsed, chunkTimeline := r.timeline)
  }

  lemma ChunkFromKeys(cfg: Config, r: Request, answer: Action)
    requires ValidConfig(cfg) && Answers(cfg, answer)
    ensures ChunkFrom(cfg, r, answer).Keys == KeySet(cfg)
    ensures ChunkFrom(cfg, r, answer) != map[]
    ensures Selected(cfg.keys, answer) != map[]
    ensures Horizon(ChunkFrom(cfg, r, answer)) == Horizon(Selected(cfg.keys, answer))
    ensures Selected(cfg.keys, ChunkFrom(cfg, r, answer)) == ChunkFrom(cfg, r, answer)
  {
    var unbatched := Selected(cfg.keys, answer);
    assert cfg.keys[0] in unbatched;
    SameHorizon(unbatched, ChunkFrom(cfg, r, answer));
  }

  ghost function Consume(cfg: Config, m: Machine, f: Frame): Machine
    requires ValidConfig(cfg) && StoreFits(cfg, m.store) && Answers(cfg, f.answer)
  {
    if m.future.None? || !f.inferenceDone then m
    else Install(cfg, m.(future := None), m.future.value, f.answer)
  }

  ghost function Submit(cfg: Config, m: Machine, f: Frame): Machine
    requires ValidConfig(cfg) && StoreFits(cfg, m.store) && Answers(cfg, f.answer)
  {
    if cfg.asynchronous then m.(future := Some(Prepare(cfg, m)))
    else Install(cfg, m, Prepare(cfg, m), f.answer)
  }

  ghost predicate NeedsReplan(cfg: Config, m: Machine) {
    m.chunk.None? || m.actionIndex >= cfg.replanHorizon
  }

  /** The machine a tick applies its row from. */
  ghost function Planned(cfg: Config, m: Machine, f: Frame): Machine
    requires ValidConfig(cfg) && StoreFits(cfg, m.store) && Answers(cfg, f.answer)
  {
    var consumed := Consume(cfg, m, f);
    InstallFits(cfg, m, f);
    if NeedsReplan(cfg, consumed) && consumed.future.None? then Submit(cfg, consumed, f) else consumed
  }

  lemma InstallFits(cfg: Config, m: Machine, f: Frame)
    requires ValidConfig(cfg) && StoreFits(cfg, m.store) && Answers(cfg, f.answer)
    ensures StoreFits(cfg, Consume(cfg, m, f).store)
  {
    if m.future.Some? {
      ChunkFromKeys(cfg, m.future.value, f.answer);
    }
  }

  ghost predicate HasRow(m: Machine) {
    m.chunk.Some? && m.chunk.value != map[] && m.actionIndex < Horizon(m.chunk.value)
  }

  ghost function AppliedRow(m: Machine): Option<Applied> {
    if HasRow(m) then Some(Applied(RowsAt(m.chunk.value, m.actionIndex), m.actionIndex, m.chunkTimeline, m.simTime)) else None
  }

  ghost function AfterApply(cfg: Config, m: Machine): Machine {
    if !HasRow(m) then m
    else m.(actionIndex := m.actionIndex + 1, policyStep := m.policyStep + 1,
            enabled := m.enabled && !(cfg.maxPolicySteps > 0 && m.policyStep + 1 >= cfg.maxPolicySteps))
  }

  ghost predicate Due(m: Machine) {
    m.enabled && m.simTime >= m.nextPolicyTime
  }

  ghost function Step(cfg: Config, m: Machine, f: Frame): Machine
    requires ValidConfig(cfg) && StoreFits(cfg, m.store) && Answers(cfg, f.answer)
  {
    var ticked := if !Due(m) then m
                  else var after := AfterApply(cfg, Planned(cfg, m, f));
                       after.(nextPolicyTime := after.nextPolicyTime + cfg.actionDt, ticks := after.ticks + 1);
    ticked.(simTime := ticked.simTime + cfg.frameDt)
  }

  /** The row sent to the controller during a frame, if any. */
  ghost function Output(cfg: Config, m: Machine, f: Frame): Option<Applied>
    requires ValidConfig(cfg) && StoreFits(cfg, m.store) && Answers(cfg, f.answer)
  {
    if Due(m) then AppliedRow(Planned(cfg, m, f)) else None
  }

  function Initial(cfg: Config): Machine {
    Machine(Store(cfg.keys, cfg.actionDt, cfg.maxChunks, None, []), None, 0, 0, 0, None, 0.0, 0.0, true, 0, 0.0)
  }
}
