/** The flywheel's generation loop: model, Success Archive, held-out gate and checkpoint pointers move together. */
module GenerationGate {
  import opened ActionChunks

  /** What one generation does to the model and to the archive, and the non-regression rule. `update` may replay
      from the archive as it was before the generation is committed to it. */
  datatype Flywheel<!M, !A, !E, !R> = Flywheel(
    model: M,
    archive: A,
    update: (M, A, E) -> M,
    commit: (A, E) -> A,
    nonRegression: (R, R) -> bool)

  datatype Config = Config(maxGenerations: nat, checkpointEvery: nat, evalEvery: nat, evalAtStart: bool, evalAtEnd: bool, save: bool)

  datatype Metrics<R> = Metrics(generation: nat, result: R)

  /** One generation of a lineage: its experiences, and its held-out evaluation if one was due. */
  datatype Entry<E, R> = Entry(experience: E, evaluation: Option<R>)

  /** `baseline` and `history` record the lineage a checkpoint was computed from. No branch reads them. */
  datatype Checkpoint<M, A, E, R> = Checkpoint(
    model: M,
    archive: A,
    lastGood: Option<Metrics<R>>,
    candidate: Option<Metrics<R>>,
    accepted: bool,
    baseline: Option<R>,
    history: seq<Entry<E, R>>)

  predicate EvaluationDue(cfg: Config, g: nat) {
    cfg.evalEvery > 0 && (g % cfg.evalEvery == 0 || (cfg.evalAtEnd && g == cfg.maxGenerations))
  }

  /** Generations that are saved whatever happens; the other saves depend on stops and on the last generation. */
  predicate RegularlyDue(cfg: Config, g: nat)
    requires cfg.checkpointEvery > 0
  {
    g % cfg.checkpointEvery == 0 || (cfg.evalEvery > 0 && g % cfg.evalEvery == 0)
  }

  // ----- a lineage, replayed from nothing -----

  function Replayed<M, A, E, R>(f: Flywheel<M, A, E, R>, history: seq<Entry<E, R>>): (M, A) {
    if history == [] then (f.model, f.archive)
    else
      var (m, a) := Replayed(f, history[..|history| - 1]);
      var e := history[|history| - 1].experience;
      (f.update(m, a, e), f.commit(a, e))
  }

  /** The most recent evaluation of a lineage, or its baseline. */
  function MostRecent<E, R>(baseline: Option<R>, history: seq<Entry<E, R>>): Option<Metrics<R>> {
    if history == [] then (if baseline.None? then None else Some(Metrics(0, baseline.value)))
    else if history[|history| - 1].evaluation.Some? then Some(Metrics(|history|, history[|history| - 1].evaluation.value))
    else MostRecent(baseline, history[..|history| - 1])
  }

  /** The gate's verdict on a candidate against the last good evaluation. */
  function Passes<M, A, E, R>(f: Flywheel<M, A, E, R>, lastGood: Option<Metrics<R>>, candidate: Option<R>): bool {
    candidate.None? || lastGood.None? || f.nonRegression(lastGood.value.result, candidate.value)
  }

  /** Every evaluation of the lineage passed the gate against the one before it. */
  ghost predicate Gated<M, A, E, R>(f: Flywheel<M, A, E, R>, baseline: Option<R>, history: seq<Entry<E, R>>) {
    history == [] ||
    (var before := history[..|history| - 1];
     Gated(f, baseline, before) && Passes(f, MostRecent(baseline, before), history[|history| - 1].evaluation))
  }

  /** A checkpoint of generation `g`: model and archive come from the same `g` generations, and `lastGood` is the
      most recent accepted evaluation among them. */
  ghost predicate Honest<M, A, E, R>(f: Flywheel<M, A, E, R>, g: nat, c: Checkpoint<M, A, E, R>) {
    && |c.history| == g
    && (c.model, c.archive) == Replayed(f, c.history)
    && (c.accepted ==> Gated(f, c.baseline, c.history) && c.lastGood == MostRecent(c.baseline, c.history))
    && (!c.accepted ==>
          && g > 0 && c.candidate.Some? && c.history[g - 1].evaluation == Some(c.candidate.value.result)
          && Gated(f, c.baseline, c.history[..g - 1]) && c.lastGood == MostRecent(c.baseline, c.history[..g - 1])
          && !Passes(f, c.lastGood, c.history[g - 1].evaluation))
  }

  // ----- the run directory -----

  datatype Disk<M, A, E, R> = Disk(generations: map<nat, Checkpoint<M, A, E, R>>, latestJson: Option<nat>, lastGoodJson: Option<(nat, Metrics<R>)>)

  /** One atomic rename commits the directory; `latest.json` follows for accepted checkpoints, unless writing it
      fails, which the save survives. None is the refusal to overwrite. */
  function SaveTo<M, A, E, R>(disk: Disk<M, A, E, R>, g: nat, c: Checkpoint<M, A, E, R>,
                              latestWritten: bool): Option<Disk<M, A, E, R>> {
    if g in disk.generations then None
    else Some(disk.(generations := disk.generations[g := c],
                    latestJson := if c.accepted && latestWritten then Some(g) else disk.latestJson))
  }

  class RunDirectory<M, A, E, R> {
    var generations: map<nat, Checkpoint<M, A, E, R>>
    var latestJson: Option<nat>
    var lastGoodJson: Option<(nat, Metrics<R>)>

    constructor ()
      ensures generations == map[] && latestJson == None && lastGoodJson == None
    {
      generations, latestJson, lastGoodJson := map[], None, None;
    }

    function View(): Disk<M, A, E, R>
      reads this
    {
      Disk(generations, latestJson, lastGoodJson)
    }

    method Save(g: nat, checkpoint: Checkpoint<M, A, E, R>, latestWritten: bool) returns (ok: bool)
      modifies this
      ensures ok <==> SaveTo(old(View()), g, checkpoint, latestWritten).Some?
      ensures View() == if ok then SaveTo(old(View()), g, checkpoint, latestWritten).value else old(View())
    {
      ok := g !in generations;
      if ok {
        generations := generations[g := checkpoint];
        if checkpoint.accepted && latestWritten {
          latestJson := Some(g);
        }
      }
    }

    /** Scans the directories for the highest accepted one. */
    method LatestCheckpoint() returns (latest: Option<nat>)
      ensures IsLatest(generations, latest)
    {
      var rest := generations.Keys;
      latest := None;
      while rest != {}
        invariant rest <= generations.Keys
        invariant latest.Some? ==> latest.value in generations && generations[latest.value].accepted
        invariant forall g :: g in generations && g !in rest && generations[g].accepted ==> latest.Some? && g <= latest.value
        decreases rest
      {
        var g :| g in rest;
        rest := rest - {g};
        if generations[g].accepted && (latest.None? || latest.value < g) {
          latest := Some(g);
        }
      }
    }
  }

  ghost predicate IsLatest<M, A, E, R>(generations: map<nat, Checkpoint<M, A, E, R>>, latest: Option<nat>) {
    if latest.None? then forall g :: g in generations ==> !generations[g].accepted
    else
      && latest.value in generations && generations[latest.value].accepted
      && forall g :: g in generations && generations[g].accepted ==> g <= latest.value
  }

  ghost predicate AllHonest<M, A, E, R>(f: Flywheel<M, A, E, R>, generations: map<nat, Checkpoint<M, A, E, R>>) {
    forall g :: g in generations ==> Honest(f, g, generations[g])
  }

  /** A later checkpoint passed every regularly due generation by saving it, accepted, on its own lineage. */
  ghost predicate Threaded<M, A, E, R>(cfg: Config, generations: map<nat, Checkpoint<M, A, E, R>>)
    requires cfg.checkpointEvery > 0
  {
    forall g: nat, h: nat :: h in generations && g < h && RegularlyDue(cfg, g) ==> OnLineage(generations, g, generations[h].history)
  }

  ghost predicate OnLineage<M, A, E, R>(generations: map<nat, Checkpoint<M, A, E, R>>, g: nat, history: seq<Entry<E, R>>) {
    g in generations && generations[g].accepted && g <= |history| && generations[g].history == history[..g]
  }

  /** The pointer files name accepted checkpoints; `last_good.json` carries that checkpoint's own evaluation. */
  ghost predicate PointersFit<M, A, E, R>(d: Disk<M, A, E, R>) {
    && (d.latestJson.Some? ==> d.latestJson.value in d.generations && d.generations[d.latestJson.value].accepted)
    && (d.lastGoodJson.Some? ==>
          var (g, metrics) := d.lastGoodJson.value;
          && g in d.generations && d.generations[g].accepted
          && metrics.generation == g && d.generations[g].lastGood == Some(metrics))
  }

  ghost predicate Sound<M, A, E, R>(f: Flywheel<M, A, E, R>, cfg: Config, d: Disk<M, A, E, R>)
    requires cfg.checkpointEvery > 0
  {
    AllHonest(f, d.generations) && Threaded(cfg, d.generations) && PointersFit(d)
  }

  // ----- one process -----

  datatype Mode = Fresh | ResumeLatest | ResumeFrom(g: nat)

  /** Where a process dies during a generation, if it does: before the commit, after it, or after `latest.json`. */
  datatype Death = Survives | BeforeCommit | AfterCommit | AfterLatest

  /** What the outside contributes to one generation. */
  datatype Inputs<E, R> = Inputs(stopBefore: bool, experience: E, evaluation: R, stopAfter: bool, latestWritten: bool, death: Death)

  datatype Outcome = Failed | Died | Stopped | Rejected(g: nat) | Finished

  /** The variables of the generation loop. */
  datatype Run<M, A, E, R> = Run(model: M, archive: A, lastGood: Option<Metrics<R>>, baseline: Option<R>, history: seq<Entry<E, R>>)

  ghost predicate OnTrack<M, A, E, R>(f: Flywheel<M, A, E, R>, cfg: Config,
                                      generations: map<nat, Checkpoint<M, A, E, R>>, r: Run<M, A, E, R>)
    requires cfg.checkpointEvery > 0
  {
    && (r.model, r.archive) == Replayed(f, r.history)
    && Gated(f, r.baseline, r.history) && r.lastGood == MostRecent(r.baseline, r.history)
    && (cfg.save ==> Passed(cfg, generations, r.history, |r.history|))
  }

  /** Everything regularly due up to `n` lies on this lineage. */
  ghost predicate Passed<M, A, E, R>(cfg: Config, generations: map<nat, Checkpoint<M, A, E, R>>,
                                     history: seq<Entry<E, R>>, n: nat)
    requires cfg.checkpointEvery > 0
  {
    forall g: nat :: g <= n && RegularlyDue(cfg, g) ==> OnLineage(generations, g, history)
  }

  function NewEntry<E, R>(cfg: Config, g: nat, world: Inputs<E, R>): Entry<E, R> {
    Entry(world.experience, if EvaluationDue(cfg, g) then Some(world.evaluation) else None)
  }

  /** The loop variables after one more generation. */
  function Advance<M, A, E, R>(f: Flywheel<M, A, E, R>, cfg: Config, r: Run<M, A, E, R>,
                               world: Inputs<E, R>): Run<M, A, E, R> {
    var g := |r.history| + 1;
    var entry := NewEntry(cfg, g, world);
    Run(f.update(r.model, r.archive, world.experience), f.commit(r.archive, world.experience),
        if entry.evaluation.Some? && Passes(f, r.lastGood, entry.evaluation) then Some(Metrics(g, world.evaluation)) else r.lastGood,
        r.baseline, r.history + [entry])
  }

  function CheckpointOf<M, A, E, R>(f: Flywheel<M, A, E, R>, cfg: Config, r: Run<M, A, E, R>,
                                    world: Inputs<E, R>): Checkpoint<M, A, E, R> {
    var g, next := |r.history| + 1, Advance(f, cfg, r, world);
    Checkpoint(next.model, next.archive, next.lastGood, if EvaluationDue(cfg, g) then Some(Metrics(g, world.evaluation)) else None,
               Passes(f, r.lastGood, NewEntry(cfg, g, world).evaluation), r.baseline, next.history)
  }

  lemma {:induction false} CheckpointHonest<M, A, E, R>(f: Flywheel<M, A, E, R>, cfg: Config, r: Run<M, A, E, R>,
                                                        world: Inputs<E, R>)
    requires (r.model, r.archive) == Replayed(f, r.history)
    requires Gated(f, r.baseline, r.history) && r.lastGood == MostRecent(r.baseline, r.history)
    ensures Honest(f, |r.history| + 1, CheckpointOf(f, cfg, r, world))
  {
    var next := Advance(f, cfg, r, world);
    assert next.history[..|next.history| - 1] == r.history;
  }

  /** Adding an honest checkpoint of this lineage keeps the directory in order. */
  lemma SavedSound<M, A, E, R>(f: Flywheel<M, A, E, R>, cfg: Config, generations: map<nat, Checkpoint<M, A, E, R>>,
                               g: nat, c: Checkpoint<M, A, E, R>)
    requires cfg.checkpointEvery > 0 && g !in generations && AllHonest(f, generations) && Threaded(cfg, generations)
    requires Honest(f, g, c) && (g > 0 ==> Passed(cfg, generations, c.history, g - 1))
    ensures AllHonest(f, generations[g := c]) && Threaded(cfg, generations[g := c])
    ensures c.accepted ==> Passed(cfg, generations[g := c], c.history, g)
  {
    var after := generations[g := c];
    forall x: nat, h: nat | h in after && x < h && RegularlyDue(cfg, x) ensures OnLineage(after, x, after[h].history) {
      if h == g {
        assert OnLineage(generations, x, c.history);
      } else {
        assert OnLineage(generations, x, generations[h].history);
      }
    }
    if c.accepted {
      forall x: nat | x <= g && RegularlyDue(cfg, x) ensures OnLineage(after, x, c.history) {
        if x < g {
          assert OnLineage(generations, x, c.history);
        }
      }
    }
  }

  lemma PassedLonger<M, A, E, R>(cfg: Config, generations: map<nat, Checkpoint<M, A, E, R>>,
                                 history: seq<Entry<E, R>>, n: nat, entry: Entry<E, R>)
    requires cfg.checkpointEvery > 0 && n <= |history| && Passed(cfg, generations, history, n)
    ensures Passed(cfg, generations, history + [entry], n)
  {
    forall g: nat | g <= n && RegularlyDue(cfg, g) ensures OnLineage(generations, g, history + [entry]) {
      assert OnLineage(generations, g, history);
      assert (history + [entry])[..g] == history[..g];
    }
  }

  lemma {:induction false} AcceptedOnTrack<M, A, E, R>(f: Flywheel<M, A, E, R>, cfg: Config, r: Run<M, A, E, R>,
                                                       world: Inputs<E, R>)
    requires Honest(f, |r.history| + 1, CheckpointOf(f, cfg, r, world)) && CheckpointOf(f, cfg, r, world).accepted
    ensures var next := Advance(f, cfg, r, world);
      && (next.model, next.archive) == Replayed(f, next.history)
      && Gated(f, next.baseline, next.history) && next.lastGood == MostRecent(next.baseline, next.history)
  {
  }

  lemma SkippedIsPassed<M, A, E, R>(cfg: Config, generations: map<nat, Checkpoint<M, A, E, R>>,
                                    history: seq<Entry<E, R>>, g: nat)
    requires cfg.checkpointEvery > 0 && g > 0 && Passed(cfg, generations, history, g - 1)
    ensures !RegularlyDue(cfg, g) ==> Passed(cfg, generations, history, g)
    ensures RegularlyDue(cfg, g) ==> g % cfg.checkpointEvery == 0 || EvaluationDue(cfg, g)
  {
  }

  predicate CheckpointDue<M, A, E, R>(cfg: Config, g: nat, c: Checkpoint<M, A, E, R>, stopAfter: bool)
    requires cfg.checkpointEvery > 0
  {
    cfg.save && (g % cfg.checkpointEvery == 0 || g == cfg.maxGenerations || EvaluationDue(cfg, g) || stopAfter || !c.accepted)
  }

  /** The disk after one generation, and how the process ends if it does. */
  function GenerationStep<M, A, E, R>(f: Flywheel<M, A, E, R>, cfg: Config, disk: Disk<M, A, E, R>,
                                      r: Run<M, A, E, R>, world: Inputs<E, R>)
    : (Disk<M, A, E, R>, Option<Outcome>)
    requires cfg.checkpointEvery > 0
  {
    var g, c := |r.history| + 1, CheckpointOf(f, cfg, r, world);
    var end := if !c.accepted then Some(Rejected(g)) else if world.stopAfter then Some(Stopped) else None;
    if world.death.BeforeCommit? then (disk, Some(Died))
    else if !CheckpointDue(cfg, g, c, world.stopAfter) then (disk, if world.death.Survives? then end else Some(Died))
    else
      var saved := SaveTo(disk, g, c, world.latestWritten && !world.death.AfterCommit?);
      if saved.None? then (disk, Some(Failed))
      else if !world.death.Survives? then (saved.value, Some(Died))
      else if c.accepted && c.candidate.Some? then (saved.value.(lastGoodJson := Some((g, c.candidate.value))), end)
      else (saved.value, end)
  }

  /** A generation keeps the directory in order, and a process that goes on is on track. */
  lemma GenerationSound<M, A, E, R>(f: Flywheel<M, A, E, R>, cfg: Config, disk: Disk<M, A, E, R>, r: Run<M, A, E, R>,
                                    world: Inputs<E, R>)
    requires cfg.checkpointEvery > 0 && Sound(f, cfg, disk) && OnTrack(f, cfg, disk.generations, r)
    ensures var (after, end) := GenerationStep(f, cfg, disk, r, world);
      && Sound(f, cfg, after) && Extends(disk.generations, after.generations)
      && (end.None? ==> OnTrack(f, cfg, after.generations, Advance(f, cfg, r, world)))
  {
    hide Replayed, MostRecent, Honest, RegularlyDue, Passed;
    var g, c := |r.history| + 1, CheckpointOf(f, cfg, r, world);
    CheckpointHonest(f, cfg, r, world);
    if c.accepted {
      AcceptedOnTrack(f, cfg, r, world);
    }
    if cfg.save {
      PassedLonger(cfg, disk.generations, r.history, |r.history|, NewEntry(cfg, g, world));
      SkippedIsPassed(cfg, disk.generations, c.history, g);
      if g !in disk.generations {
        SavedSound(f, cfg, disk.generations, g, c);
      }
    }
  }

  // ----- what one generation leaves, read off its inputs -----

  /** A generation is evaluated on the evaluation grid, and at the end if that is asked for. */
  predicate IsEvaluated(cfg: Config, g: nat) {
    cfg.evalEvery > 0 && (g % cfg.evalEvery == 0 || (cfg.evalAtEnd && g == cfg.maxGenerations))
  }

  /** It is accepted unless an evaluation falls behind the last good one. */
  predicate IsAccepted<M, A, E, R>(f: Flywheel<M, A, E, R>, cfg: Config, g: nat, lastGood: Option<Metrics<R>>,
                                   evaluation: R) {
    IsEvaluated(cfg, g) && lastGood.Some? ==> f.nonRegression(lastGood.value.result, evaluation)
  }

  /** It is saved on the checkpoint grid, at the end, when evaluated, when a stop is requested and when rejected. */
  predicate MustSave(cfg: Config, g: nat, accepted: bool, stopAfter: bool)
    requires cfg.checkpointEvery > 0
  {
    cfg.save && (g % cfg.checkpointEvery == 0 || g == cfg.maxGenerations || IsEvaluated(cfg, g) || stopAfter || !accepted)
  }

  /** A checkpoint and the two pointers after a save: `latest.json` follows every accepted checkpoint whose write went
      through, `last_good.json` every accepted and evaluated one that the process survived. */
  ghost predicate Saved<M, A, E, R>(before: Disk<M, A, E, R>, after: Disk<M, A, E, R>, g: nat,
                                    c: Checkpoint<M, A, E, R>, evaluation: Option<R>, world: Inputs<E, R>) {
    && after.generations == before.generations[g := c]
    && after.latestJson == (if c.accepted && world.latestWritten && !world.death.AfterCommit? then Some(g) else before.latestJson)
    && after.lastGoodJson == (if c.accepted && evaluation.Some? && world.death.Survives? then Some((g, Metrics(g, evaluation.value)))
                              else before.lastGoodJson)
  }

  /** One generation: the model is updated from the archive as it was, then the generation is committed to it; an
      accepted evaluation becomes the last good one. What must be saved is, once, unless the process dies first. */
  lemma GenerationOutcome<M, A, E, R>(f: Flywheel<M, A, E, R>, cfg: Config, disk: Disk<M, A, E, R>,
                                      r: Run<M, A, E, R>, world: Inputs<E, R>)
    requires cfg.checkpointEvery > 0
    ensures var g, next := |r.history| + 1, Advance(f, cfg, r, world);
      var (after, end) := GenerationStep(f, cfg, disk, r, world);
      var evaluation := if IsEvaluated(cfg, g) then Some(world.evaluation) else None;
      var accepted := IsAccepted(f, cfg, g, r.lastGood, world.evaluation);
      var due := MustSave(cfg, g, accepted, world.stopAfter);
      && next.model == f.update(r.model, r.archive, world.experience) && next.archive == f.commit(r.archive, world.experience)
      && next.lastGood == (if evaluation.Some? && accepted then Some(Metrics(g, world.evaluation)) else r.lastGood)
      && next.baseline == r.baseline && next.history == r.history + [Entry(world.experience, evaluation)]
      && (due && !world.death.BeforeCommit? && g !in disk.generations ==>
            Saved(disk, after, g,
                  Checkpoint(next.model, next.archive, next.lastGood, if evaluation.Some? then Some(Metrics(g, world.evaluation)) else None,
                             accepted, r.baseline, next.history),
                  evaluation, world))
      && (!due || world.death.BeforeCommit? || g in disk.generations ==> after == disk)
      && end == (if world.death.BeforeCommit? then Some(Died)
                 else if due && g in disk.generations then Some(Failed)
                 else if !world.death.Survives? then Some(Died)
                 else if !accepted then Some(Rejected(g))
                 else if world.stopAfter then Some(Stopped)
                 else None)
  {
  }

  /** One generation: collect, update, commit, evaluate, gate and save. */
  method RunGeneration<M, A, E, R>(d: RunDirectory<M, A, E, R>, f: Flywheel<M, A, E, R>, cfg: Config,
                                   r: Run<M, A, E, R>, world: Inputs<E, R>)
    returns (next: Run<M, A, E, R>, end: Option<Outcome>)
    requires cfg.checkpointEvery > 0
    modifies d
    ensures (d.View(), end) == GenerationStep(f, cfg, old(d.View()), r, world)
    ensures next == Advance(f, cfg, r, world)
  {
    var g := |r.history| + 1;
    var due := EvaluationDue(cfg, g);
    var entry := Entry(world.experience, if due then Some(world.evaluation) else None);
    var model := f.update(r.model, r.archive, world.experience);
    var archive := f.commit(r.archive, world.experience);
    var accepted, lastGood, candidate := true, r.lastGood, None;
    if due {
      candidate := Some(Metrics(g, world.evaluation));
      if lastGood.Some? {
        accepted := f.nonRegression(lastGood.value.result, world.evaluation);
      }
      if accepted {
        lastGood := candidate;
      }
    }
    next := Run(model, archive, lastGood, r.baseline, r.history + [entry]);
    if world.death.BeforeCommit? {
      return next, Some(Died);
    }
    if cfg.save && (g % cfg.checkpointEvery == 0 || g == cfg.maxGenerations || due || world.stopAfter || !accepted) {
      var c := Checkpoint(model, archive, lastGood, candidate, accepted, r.baseline, next.history);
      var ok := d.Save(g, c, world.latestWritten && !world.death.AfterCommit?);
      if !ok {
        return next, Some(Failed);
      }
      if world.death.Survives? && accepted && candidate.Some? {
        d.lastGoodJson := Some((g, candidate.value));
      }
    }
    if !world.death.Survives? {
      return next, Some(Died);
    }
    end := if !accepted then Some(Rejected(g)) else if world.stopAfter then Some(Stopped) else None;
  }

  ghost predicate Extends<M, A, E, R>(before: map<nat, Checkpoint<M, A, E, R>>, after: map<nat, Checkpoint<M, A, E, R>>) {
    forall g :: g in before ==> g in after && after[g] == before[g]
  }

  // ----- a whole process -----

  /** The generation loop, from the state after `|r.history|` generations. */
  function LoopFrom<M, A, E, R>(f: Flywheel<M, A, E, R>, cfg: Config, disk: Disk<M, A, E, R>, r: Run<M, A, E, R>,
                                world: nat -> Inputs<E, R>)
    : (Disk<M, A, E, R>, Outcome)
    requires cfg.checkpointEvery > 0
    decreases cfg.maxGenerations - |r.history|
  {
    if |r.history| >= cfg.maxGenerations then (disk, Finished)
    else if world(|r.history| + 1).stopBefore then (disk, Stopped)
    else
      var (after, end) := GenerationStep(f, cfg, disk, r, world(|r.history| + 1));
      if end.Some? then (after, end.value) else LoopFrom(f, cfg, after, Advance(f, cfg, r, world(|r.history| + 1)), world)
  }

  /** The baseline of a fresh run: evaluated, saved as generation zero and, if evaluated, named last good.
      `world(0)` supplies its evaluation and its death. None is the refusal of a used directory. */
  function FreshStart<M, A, E, R>(f: Flywheel<M, A, E, R>, cfg: Config, disk: Disk<M, A, E, R>, world: Inputs<E, R>)
    : (Disk<M, A, E, R>, Option<Outcome>, Run<M, A, E, R>)
  {
    var baseline := if cfg.evalAtStart && cfg.evalEvery > 0 then Some(world.evaluation) else None;
    var lastGood := MostRecent<E, R>(baseline, []);
    var r := Run(f.model, f.archive, lastGood, baseline, []);
    if disk.latestJson.Some? then (disk, Some(Failed), r)
    else if world.death.BeforeCommit? then (disk, Some(Died), r)
    else if !cfg.save then (disk, if world.death.Survives? then None else Some(Died), r)
    else
      var saved := SaveTo(disk, 0, Checkpoint(f.model, f.archive, lastGood, None, true, baseline, []), world.latestWritten && !world.death.AfterCommit?);
      if saved.None? then (disk, Some(Failed), r)
      else if !world.death.Survives? then (saved.value, Some(Died), r)
      else (saved.value.(lastGoodJson := if lastGood.Some? then Some((0, lastGood.value)) else saved.value.lastGoodJson), None, r)
  }

  /** A fresh run is refused where an earlier one left its pointer or its baseline; otherwise the untrained model and
      archive are generation zero, with the baseline evaluation, if there is one, as the last good. */
  lemma FreshOutcome<M, A, E, R>(f: Flywheel<M, A, E, R>, cfg: Config, disk: Disk<M, A, E, R>, world: Inputs<E, R>)
    ensures var (after, end, r) := FreshStart(f, cfg, disk, world);
      var baseline := if cfg.evalAtStart && cfg.evalEvery > 0 then Some(world.evaluation) else None;
      var lastGood := if baseline.Some? then Some(Metrics(0, world.evaluation)) else None;
      var used := disk.latestJson.Some?;
      && r == Run(f.model, f.archive, lastGood, baseline, [])
      && (!used && !world.death.BeforeCommit? && cfg.save && 0 !in disk.generations ==>
            Saved(disk, after, 0, Checkpoint(f.model, f.archive, lastGood, None, true, baseline, []), baseline, world))
      && (used || world.death.BeforeCommit? || !cfg.save || 0 in disk.generations ==> after == disk)
      && end == (if used then Some(Failed)
                 else if world.death.BeforeCommit? then Some(Died)
                 else if cfg.save && 0 in disk.generations then Some(Failed)
                 else if !world.death.Survives? then Some(Died)
                 else None)
  {
  }

  function Loaded<M, A, E, R>(c: Checkpoint<M, A, E, R>): Run<M, A, E, R> {
    Run(c.model, c.archive, c.lastGood, c.baseline, c.history)
  }

  lemma {:induction false} BaselineHonest<M, A, E, R>(f: Flywheel<M, A, E, R>, baseline: Option<R>)
    ensures Honest(f, 0, Checkpoint(f.model, f.archive, MostRecent<E, R>(baseline, []), None, true, baseline, []))
    ensures Replayed(f, []) == (f.model, f.archive) && Gated(f, baseline, [])
    ensures MostRecent<E, R>(baseline, []).Some? ==> MostRecent<E, R>(baseline, []).value.generation == 0
  {
  }

  lemma FreshSound<M, A, E, R>(f: Flywheel<M, A, E, R>, cfg: Config, disk: Disk<M, A, E, R>, world: Inputs<E, R>)
    requires cfg.checkpointEvery > 0 && Sound(f, cfg, disk)
    ensures var (after, end, r) := FreshStart(f, cfg, disk, world);
      && Sound(f, cfg, after) && Extends(disk.generations, after.generations)
      && (end.None? ==> OnTrack(f, cfg, after.generations, r))
  {
    var (after, end, r) := FreshStart(f, cfg, disk, world);
    BaselineHonest(f, r.baseline);
    hide Honest, RegularlyDue, Replayed, MostRecent;
    if cfg.save && 0 !in disk.generations {
      SavedSound(f, cfg, disk.generations, 0, Checkpoint(f.model, f.archive, MostRecent<E, R>(r.baseline, []), None, true, r.baseline, []));
    }
  }

  lemma LoadedOnTrack<M, A, E, R>(f: Flywheel<M, A, E, R>, cfg: Config, disk: Disk<M, A, E, R>, g: nat)
    requires cfg.checkpointEvery > 0 && Sound(f, cfg, disk) && g in disk.generations && disk.generations[g].accepted
    ensures OnTrack(f, cfg, disk.generations, Loaded(disk.generations[g]))
  {
    var c := disk.generations[g];
    assert Honest(f, g, c);
    assert c.history[..g] == c.history;
    forall x: nat | x <= g && RegularlyDue(cfg, x) ensures OnLineage(disk.generations, x, c.history) {
    }
  }

  lemma {:induction false} LoopSound<M, A, E, R>(f: Flywheel<M, A, E, R>, cfg: Config, disk: Disk<M, A, E, R>,
                                                 r: Run<M, A, E, R>, world: nat -> Inputs<E, R>)
    requires cfg.checkpointEvery > 0 && Sound(f, cfg, disk) && OnTrack(f, cfg, disk.generations, r)
    ensures Sound(f, cfg, LoopFrom(f, cfg, disk, r, world).0)
    ensures Extends(disk.generations, LoopFrom(f, cfg, disk, r, world).0.generations)
    decreases cfg.maxGenerations - |r.history|
  {
    hide Sound, OnTrack, GenerationStep;
    if |r.history| < cfg.maxGenerations && !world(|r.history| + 1).stopBefore {
      GenerationSound(f, cfg, disk, r, world(|r.history| + 1));
      var (after, end) := GenerationStep(f, cfg, disk, r, world(|r.history| + 1));
      if end.None? {
        LoopSound(f, cfg, after, Advance(f, cfg, r, world(|r.history| + 1)), world);
      }
    }
  }

  /** The disks and runs of a loop, one more than generations. */
  datatype Course<M, A, E, R> = Course(disks: seq<Disk<M, A, E, R>>, runs: seq<Run<M, A, E, R>>)

  /** Generation by generation: each starts below the limit and without a stop request, and only the last ends the
      process; if none does, the limit is reached or a stop is requested in front of the next. */
  ghost predicate IsCourse<M, A, E, R>(f: Flywheel<M, A, E, R>, cfg: Config, world: nat -> Inputs<E, R>,
                                       c: Course<M, A, E, R>, outcome: Outcome)
    requires cfg.checkpointEvery > 0
  {
    && 0 < |c.runs| == |c.disks|
    && (forall i: nat :: i + 1 < |c.runs| ==>
          CourseStep(f, cfg, world, c.disks[i], c.runs[i], c.disks[i + 1], c.runs[i + 1], if i + 2 < |c.runs| then None else Some(outcome)))
    && (|c.runs| == 1 ==> Idle(cfg, world, c.runs[0], outcome))
  }

  /** One generation of a course; `last` is the outcome if it is the last one. */
  ghost predicate CourseStep<M, A, E, R>(f: Flywheel<M, A, E, R>, cfg: Config, world: nat -> Inputs<E, R>,
                                         disk: Disk<M, A, E, R>, r: Run<M, A, E, R>, 
                                         after: Disk<M, A, E, R>, next: Run<M, A, E, R>, last: Option<Outcome>)
    requires cfg.checkpointEvery > 0
  {
    var inputs := world(|r.history| + 1);
    && |r.history| < cfg.maxGenerations && !inputs.stopBefore && next == Advance(f, cfg, r, inputs)
    && var (d, end) := GenerationStep(f, cfg, disk, r, inputs);
       d == after && (if end.Some? then last == end else last.Some? ==> Idle(cfg, world, next, last.value))
  }

  ghost predicate Idle<M, A, E, R>(cfg: Config, world: nat -> Inputs<E, R>, r: Run<M, A, E, R>, outcome: Outcome) {
    if |r.history| >= cfg.maxGenerations then outcome == Finished
    else world(|r.history| + 1).stopBefore && outcome == Stopped
  }

  /** The loop walks through such a course. */
  lemma {:induction false} LoopIsCourse<M, A, E, R>(f: Flywheel<M, A, E, R>, cfg: Config, disk: Disk<M, A, E, R>,
                                                    r: Run<M, A, E, R>, world: nat -> Inputs<E, R>)
    returns (c: Course<M, A, E, R>)
    requires cfg.checkpointEvery > 0
    ensures var (after, outcome) := LoopFrom(f, cfg, disk, r, world);
      IsCourse(f, cfg, world, c, outcome) && c.disks[0] == disk && c.runs[0] == r && c.disks[|c.disks| - 1] == after
    decreases cfg.maxGenerations - |r.history|
  {
    hide GenerationStep, CourseStep;
    c := Course([disk], [r]);
    if |r.history| < cfg.maxGenerations && !world(|r.history| + 1).stopBefore {
      var (after, end) := GenerationStep(f, cfg, disk, r, world(|r.history| + 1));
      var next := Advance(f, cfg, r, world(|r.history| + 1));
      FirstStep(f, cfg, disk, r, world);
      if end.Some? {
        c := Course([disk, after], [r, next]);
      } else {
        var rest := LoopIsCourse(f, cfg, after, next, world);
        c := Course([disk] + rest.disks, [r] + rest.runs);
        LongerCourse(f, cfg, disk, r, world, rest, LoopFrom(f, cfg, after, next, world).1);
      }
    }
  }

  lemma FirstStep<M, A, E, R>(f: Flywheel<M, A, E, R>, cfg: Config, disk: Disk<M, A, E, R>, r: Run<M, A, E, R>,
                              world: nat -> Inputs<E, R>)
    requires cfg.checkpointEvery > 0 && |r.history| < cfg.maxGenerations && !world(|r.history| + 1).stopBefore
    ensures var (after, end) := GenerationStep(f, cfg, disk, r, world(|r.history| + 1));
      var next := Advance(f, cfg, r, world(|r.history| + 1));
      && (end.Some? ==> CourseStep(f, cfg, world, disk, r, after, next, end))
      && (end.None? ==> CourseStep(f, cfg, world, disk, r, after, next, None))
      && forall outcome :: end.None? && Idle(cfg, world, next, outcome) ==> CourseStep(f, cfg, world, disk, r, after, next, Some(outcome))
  {
    hide GenerationStep, Advance, Idle;
  }

  lemma LongerCourse<M, A, E, R>(f: Flywheel<M, A, E, R>, cfg: Config, disk: Disk<M, A, E, R>, r: Run<M, A, E, R>,
                                 world: nat -> Inputs<E, R>, 
                                 rest: Course<M, A, E, R>, outcome: Outcome)
    requires cfg.checkpointEvery > 0 && IsCourse(f, cfg, world, rest, outcome)
    requires CourseStep(f, cfg, world, disk, r, rest.disks[0], rest.runs[0], None)
    requires Idle(cfg, world, rest.runs[0], outcome) ==> CourseStep(f, cfg, world, disk, r, rest.disks[0], rest.runs[0], Some(outcome))
    ensures IsCourse(f, cfg, world, Course([disk] + rest.disks, [r] + rest.runs), outcome)
  {
    hide CourseStep, Idle;
    var c := Course([disk] + rest.disks, [r] + rest.runs);
    forall i: nat | i + 1 < |c.runs|
      ensures CourseStep(f, cfg, world, c.disks[i], c.runs[i], c.disks[i + 1], c.runs[i + 1], if i + 2 < |c.runs| then None else Some(outcome))
    {
      if i > 0 {
        assert c.disks[i] == rest.disks[i - 1] && c.runs[i] == rest.runs[i - 1];
        assert c.disks[i + 1] == rest.disks[i] && c.runs[i + 1] == rest.runs[i];
      }
    }
  }

  method RunLoop<M, A, E, R>(d: RunDirectory<M, A, E, R>, f: Flywheel<M, A, E, R>, cfg: Config,
                             start: Run<M, A, E, R>, world: nat -> Inputs<E, R>)
    returns (outcome: Outcome)
    requires cfg.checkpointEvery > 0
    modifies d
    ensures (d.View(), outcome) == LoopFrom(f, cfg, old(d.View()), start, world)
  {
    var r := start;
    while |r.history| < cfg.maxGenerations
      invariant LoopFrom(f, cfg, d.View(), r, world) == LoopFrom(f, cfg, old(d.View()), start, world)
      decreases cfg.maxGenerations - |r.history|
    {
      var inputs := world(|r.history| + 1);
      if inputs.stopBefore {
        return Stopped;
      }
      var next, end := RunGeneration(d, f, cfg, r, inputs);
      if end.Some? {
        return end.value;
      }
      r := next;
    }
    outcome := Finished;
  }
}
