/** The controller as the program keeps it: one object whose methods update its fields. Every method is proved
    to take the step that `ReplanMachine` describes. */
module ReplanController {
  import opened ActionChunks
  import opened SeedStore
  import opened RtcFreeze
  import opened ReplanMachine
  import opened ReplanTheorems

  class GrootRtcExample {
    const cfg: Config
    const seedManager: TeleopRtcSeedManager
    var actionChunk: Option<Action>
    var actionIndex: nat
    var replanIndex: nat
    var policyStep: nat
    var replanFuture: Option<Request>
    var nextPolicyTime: real
    var simTime: real
    var policyEnabled: bool
    // history, read by no decision
    ghost var ticks: nat
    var chunkTimeline: real

    ghost predicate Valid()
      reads this, seedManager
    {
      ValidConfig(cfg) && seedManager.Valid() && StoreFits(cfg, seedManager.View())
    }

    ghost function View(): Machine
      reads this, seedManager
    {
      Machine(seedManager.View(), actionChunk, actionIndex, replanIndex, policyStep, replanFuture, nextPolicyTime,
              simTime, policyEnabled, ticks, chunkTimeline)
    }

    constructor (cfg: Config)
      requires ValidConfig(cfg)
      ensures Valid() && this.cfg == cfg && View() == Initial(cfg) && fresh(seedManager)
    {
      this.cfg := cfg;
      seedManager := new TeleopRtcSeedManager(cfg.keys, cfg.actionDt, cfg.maxChunks);
      actionChunk, replanFuture := None, None;
      actionIndex, replanIndex, policyStep := 0, 0, 0;
      nextPolicyTime, simTime, policyEnabled := 0.0, 0.0, true;
      ticks, chunkTimeline := 0, 0.0;
    }

    method PrepareReplan() returns (request: Request)
      requires Valid()
      modifies seedManager`epoch
      ensures Valid() && View() == old(View())
      ensures request == Prepare(cfg, View())
    {
      UniformKeys(cfg, seedManager.View(), simTime, policyStep);
      var window := seedManager.SeedWindow(simTime, policyStep, cfg.actionHorizon);
      var seed, horizon, start := None, None, None;
      if window.Window? {
        var rows := ShortestTable(window.seed);
        seed, horizon, start := Some(window.seed), Some(rows), Some(simTime);
      }
      var options := RtcOptions(cfg.rtc, cfg.rtcModeOff, horizon, start, simTime, cfg.actionDt, cfg.replanHorizon,
                                cfg.maxOverlap, cfg.frozenSteps, cfg.rampRate);
      request := Request(replanIndex, policyStep, simTime, seed, options);
    }

    /** A fresh chunk goes to the seed store and starts executing at its elapsed row. */
    method TakeChunk(chunk: Action, timeline: real, frame: nat, elapsed: nat)
      requires Valid() && chunk.Keys == KeySet(cfg) && Selected(cfg.keys, chunk) == chunk
      modifies this, seedManager
      ensures Valid()
      ensures View() == old(View()).(store := Pushed(old(View()).store, chunk, timeline, frame), chunk := Some(chunk),
                                     actionIndex := elapsed, chunkTimeline := timeline)
    {
      hide Pushed, Selected, KeySet;
      PushedNewest(cfg, seedManager.View(), chunk, timeline, frame);
      seedManager.Push(chunk, timeline, frame);
      actionChunk, actionIndex, chunkTimeline := Some(chunk), elapsed, timeline;
    }

    /** Installs a result unless it is older than the rows it brings. */
    method InstallReplan(request: Request, policyAction: Action) returns (installed: bool)
      requires Valid() && Answers(cfg, policyAction)
      modifies this, seedManager
      ensures Valid() && View() == Install(cfg, old(View()), request, policyAction)
      ensures ChunkFrom(cfg, request, policyAction) != map[]
      ensures installed <==> ElapsedActionSteps(request.timeline, simTime, cfg.actionDt) < Horizon(ChunkFrom(cfg, request, policyAction))
    {
      hide Stored, DirectWindow, RtcOptions, Pushed, Selected, KeySet, ElapsedActionSteps, WindowAt;
      ChunkFromKeys(cfg, request, policyAction);
      var unbatched := Selected(cfg.keys, policyAction);
      var frozen := if request.options.None? then 0 else request.options.value.frozen;
      var chunk := StoredRtcAction(unbatched, request.seed, cfg.keys, frozen);
      var horizon := ShortestTable(chunk);
      var elapsed := ElapsedActionSteps(request.timeline, simTime, cfg.actionDt);
      var stale := elapsed >= horizon;
      if !stale {
        TakeChunk(chunk, request.timeline, request.policyStep, elapsed);
      }
      replanIndex := replanIndex + 1;
      installed := !stale;
    }

    /** Synchronous mode infers and installs at once; otherwise the request is left to the executor. */
    method SubmitReplan(f: Frame)
      requires Valid() && Answers(cfg, f.answer)
      modifies this, seedManager
      ensures Valid() && View() == Submit(cfg, old(View()), f)
    {
      var request := PrepareReplan();
      if cfg.asynchronous {
        replanFuture := Some(request);
      } else {
        var _ := InstallReplan(request, f.answer);
      }
    }

    method ConsumeReplan(f: Frame)
      requires Valid() && Answers(cfg, f.answer)
      modifies this, seedManager
      ensures Valid() && View() == Consume(cfg, old(View()), f)
    {
      if replanFuture.None? || !f.inferenceDone {
        return;
      }
      var request := replanFuture.value;
      replanFuture := None;
      var _ := InstallReplan(request, f.answer);
    }

    /** Everything a tick does before it applies a row. */
    method Plan(f: Frame)
      requires Valid() && Answers(cfg, f.answer)
      modifies this, seedManager
      ensures Valid() && View() == Planned(cfg, old(View()), f)
    {
      ConsumeReplan(f);
      if (actionChunk.None? || actionIndex >= cfg.replanHorizon) && replanFuture.None? {
        SubmitReplan(f);
      }
    }

    method PolicyTick(f: Frame) returns (applied: Option<Applied>)
      requires Valid() && Answers(cfg, f.answer)
      modifies this, seedManager
      ensures Valid() && View() == AfterApply(cfg, Planned(cfg, old(View()), f))
      ensures applied == AppliedRow(Planned(cfg, old(View()), f))
    {
      hide Planned, WindowAt;
      Plan(f);
      if actionChunk.None? || actionChunk.value == map[] {
        return None;
      }
      var horizon := ShortestTable(actionChunk.value);
      if actionIndex >= horizon {
        return None;
      }
      applied := Some(Applied(map k | k in actionChunk.value :: actionChunk.value[k][actionIndex], actionIndex, chunkTimeline, simTime));
      actionIndex := actionIndex + 1;
      policyStep := policyStep + 1;
      if cfg.maxPolicySteps > 0 && policyStep >= cfg.maxPolicySteps {
        policyEnabled := false;
      }
    }

    /** One simulation frame. */
    method StepFrame(f: Frame) returns (applied: Option<Applied>)
      requires Valid() && Answers(cfg, f.answer)
      modifies this, seedManager
      ensures Valid() && View() == Step(cfg, old(View()), f)
      ensures applied == Output(cfg, old(View()), f)
    {
      applied := None;
      if policyEnabled && simTime >= nextPolicyTime {
        applied := PolicyTick(f);
        nextPolicyTime := nextPolicyTime + cfg.actionDt;
        ticks := ticks + 1;
      }
      simTime := simTime + cfg.frameDt;
    }
  }
}
