/** What any schedule of flywheel processes on one run directory leaves behind. */
module GenerationGuarantees {
  import opened ActionChunks
  import opened GenerationGate

  // ----- processes -----

  /** The highest accepted checkpoint. */
  ghost function LatestOf<M, A, E, R>(generations: map<nat, Checkpoint<M, A, E, R>>): (latest: Option<nat>)
    ensures IsLatest(generations, latest)
    decreases generations.Keys
  {
    if generations == map[] then None
    else
      var g :| g in generations;
      var rest := generations - {g};
      assert forall h :: h in generations ==> h == g || (h in rest && rest[h] == generations[h]);
      var best := LatestOf(rest);
      if generations[g].accepted && (best.None? || best.value < g) then Some(g) else best
  }

  lemma LatestIsUnique<M, A, E, R>(generations: map<nat, Checkpoint<M, A, E, R>>, a: Option<nat>, b: Option<nat>)
    requires IsLatest(generations, a) && IsLatest(generations, b)
    ensures a == b
  {
  }

  /** A process: a fresh start, or a resume of the latest or of a named accepted checkpoint, then the loop. */
  ghost function Process<M, A, E, R>(f: Flywheel<M, A, E, R>, cfg: Config, disk: Disk<M, A, E, R>, mode: Mode,
                                     world: nat -> Inputs<E, R>)
    : (Disk<M, A, E, R>, Outcome)
    requires cfg.checkpointEvery > 0
  {
    match mode
    case Fresh =>
      var (after, end, r) := FreshStart(f, cfg, disk, world(0));
      if end.Some? then (after, end.value) else LoopFrom(f, cfg, after, r, world)
    case ResumeLatest =>
      var latest := LatestOf(disk.generations);
      if latest.None? then (disk, Failed) else LoopFrom(f, cfg, disk, Loaded(disk.generations[latest.value]), world)
    case ResumeFrom(g) =>
      if g !in disk.generations || !disk.generations[g].accepted then (disk, Failed)
      else LoopFrom(f, cfg, disk, Loaded(disk.generations[g]), world)
  }

  /** A course of generations leads from one directory and state to another directory. */
  ghost predicate Looped<M(!new), A(!new), E(!new), R(!new)>(f: Flywheel<M, A, E, R>, cfg: Config,
                                                             world: nat -> Inputs<E, R>, 
                                                             from: Disk<M, A, E, R>, r: Run<M, A, E, R>, after: Disk<M, A, E, R>, outcome: Outcome)
    requires cfg.checkpointEvery > 0
  {
    exists c: Course<M, A, E, R> :: IsCourse(f, cfg, world, c, outcome) && c.disks[0] == from && c.runs[0] == r && c.disks[|c.disks| - 1] == after
  }

  /** What a process does: a fresh one that gets through its start runs generations from there; a resume runs them from
      the checkpoint it takes up, and one that finds no accepted checkpoint fails and changes nothing. */
  ghost predicate ProcessDoes<M(!new), A(!new), E(!new), R(!new)>(f: Flywheel<M, A, E, R>, cfg: Config,
                                                                  before: Disk<M, A, E, R>, mode: Mode, 
                                                                  world: nat -> Inputs<E, R>, after: Disk<M, A, E, R>, outcome: Outcome)
    requires cfg.checkpointEvery > 0
  {
    match mode
    case Fresh =>
      var (begun, end, r) := FreshStart(f, cfg, before, world(0));
      if end.Some? then after == begun && outcome == end.value else Looped(f, cfg, world, begun, r, after, outcome)
    case ResumeLatest =>
      && ((forall g :: g in before.generations ==> !before.generations[g].accepted) ==> after == before && outcome == Failed)
      && forall g: nat :: IsLatest(before.generations, Some(g)) ==> Resumed(f, cfg, before, g, world, after, outcome)
    case ResumeFrom(g) =>
      if g !in before.generations || !before.generations[g].accepted then after == before && outcome == Failed
      else Resumed(f, cfg, before, g, world, after, outcome)
  }

  ghost predicate Resumed<M(!new), A(!new), E(!new), R(!new)>(f: Flywheel<M, A, E, R>, cfg: Config,
                                                              before: Disk<M, A, E, R>, g: nat, 
                                                              world: nat -> Inputs<E, R>, after: Disk<M, A, E, R>, outcome: Outcome)
    requires cfg.checkpointEvery > 0 && g in before.generations
  {
    var c := before.generations[g];
    Looped(f, cfg, world, before, Run(c.model, c.archive, c.lastGood, c.baseline, c.history), after, outcome)
  }

  lemma {:induction false} LoopLoops<M(!new), A(!new), E(!new), R(!new)>(f: Flywheel<M, A, E, R>, cfg: Config,
          disk: Disk<M, A, E, R>, r: Run<M, A, E, R>, 
                                                      world: nat -> Inputs<E, R>)
    requires cfg.checkpointEvery > 0
    ensures var (after, outcome) := LoopFrom(f, cfg, disk, r, world); Looped(f, cfg, world, disk, r, after, outcome)
  {
    hide IsCourse, LoopFrom;
    var c := LoopIsCourse(f, cfg, disk, r, world);
  }

  lemma ProcessDoesSo<M(!new), A(!new), E(!new), R(!new)>(f: Flywheel<M, A, E, R>, cfg: Config,
                                                          disk: Disk<M, A, E, R>, mode: Mode, 
                                                          world: nat -> Inputs<E, R>)
    requires cfg.checkpointEvery > 0
    ensures var (after, outcome) := Process(f, cfg, disk, mode, world); ProcessDoes(f, cfg, disk, mode, world, after, outcome)
  {
    hide FreshStart, LoopFrom, Looped;
    match mode
    case Fresh =>
      var (begun, end, r) := FreshStart(f, cfg, disk, world(0));
      if end.None? {
        LoopLoops(f, cfg, begun, r, world);
      }
    case ResumeLatest =>
      var latest := LatestOf(disk.generations);
      if latest.Some? {
        LoopLoops(f, cfg, disk, Loaded(disk.generations[latest.value]), world);
      }
      forall g: nat | IsLatest(disk.generations, Some(g)) ensures latest == Some(g) {
        LatestIsUnique(disk.generations, latest, Some(g));
      }
    case ResumeFrom(g) =>
      if g in disk.generations && disk.generations[g].accepted {
        LoopLoops(f, cfg, disk, Loaded(disk.generations[g]), world);
      }
  }

  method RunProcess<M(!new), A(!new), E(!new), R(!new)>(d: RunDirectory<M, A, E, R>, f: Flywheel<M, A, E, R>,
                                                        cfg: Config, mode: Mode, world: nat -> Inputs<E, R>)
    returns (outcome: Outcome)
    requires cfg.checkpointEvery > 0
    modifies d
    ensures (d.View(), outcome) == Process(f, cfg, old(d.View()), mode, world)
    ensures ProcessDoes(f, cfg, old(d.View()), mode, world, d.View(), outcome)
  {
    hide ProcessDoes;
    ProcessDoesSo(f, cfg, d.View(), mode, world);
    match mode
    case Fresh =>
      if d.latestJson.Some? {
        return Failed;
      }
      var inputs := world(0);
      var baseline: Option<R> := None;
      if cfg.evalAtStart && cfg.evalEvery > 0 {
        baseline := Some(inputs.evaluation);
      }
      var lastGood := if baseline.Some? then Some(Metrics(0, baseline.value)) else None;
      if inputs.death.BeforeCommit? {
        return Died;
      }
      if cfg.save {
        var c := Checkpoint(f.model, f.archive, lastGood, None, true, baseline, []);
        var ok := d.Save(0, c, inputs.latestWritten && !inputs.death.AfterCommit?);
        if !ok {
          return Failed;
        }
        if inputs.death.Survives? && lastGood.Some? {
          d.lastGoodJson := Some((0, lastGood.value));
        }
      }
      if !inputs.death.Survives? {
        return Died;
      }
      outcome := RunLoop(d, f, cfg, Run(f.model, f.archive, lastGood, baseline, []), world);
    case ResumeLatest =>
      var latest := d.LatestCheckpoint();
      LatestIsUnique(d.generations, latest, LatestOf(d.generations));
      if latest.None? {
        return Failed;
      }
      outcome := RunLoop(d, f, cfg, Loaded(d.generations[latest.value]), world);
    case ResumeFrom(g) =>
      if g !in d.generations || !d.generations[g].accepted {
        return Failed;
      }
      outcome := RunLoop(d, f, cfg, Loaded(d.generations[g]), world);
  }

  lemma ProcessSound<M, A, E, R>(f: Flywheel<M, A, E, R>, cfg: Config, disk: Disk<M, A, E, R>, mode: Mode,
                                 world: nat -> Inputs<E, R>)
    requires cfg.checkpointEvery > 0 && Sound(f, cfg, disk)
    ensures Sound(f, cfg, Process(f, cfg, disk, mode, world).0)
    ensures Extends(disk.generations, Process(f, cfg, disk, mode, world).0.generations)
  {
    hide Sound, OnTrack, FreshStart, LoopFrom;
    match mode
    case Fresh =>
      FreshSound(f, cfg, disk, world(0));
      var (after, end, r) := FreshStart(f, cfg, disk, world(0));
      if end.None? {
        LoopSound(f, cfg, after, r, world);
      }
    case ResumeLatest =>
      var latest := LatestOf(disk.generations);
      if latest.Some? {
        LoadedOnTrack(f, cfg, disk, latest.value);
        LoopSound(f, cfg, disk, Loaded(disk.generations[latest.value]), world);
      }
    case ResumeFrom(g) =>
      if g in disk.generations && disk.generations[g].accepted {
        LoadedOnTrack(f, cfg, disk, g);
        LoopSound(f, cfg, disk, Loaded(disk.generations[g]), world);
      }
  }

  // ----- schedules; only the generation limit may differ between processes -----

  datatype Attempt<!E, !R> = Attempt(mode: Mode, maxGenerations: nat, world: nat -> Inputs<E, R>)

  ghost function Attempts<M, A, E, R>(f: Flywheel<M, A, E, R>, cfg: Config, disk: Disk<M, A, E, R>,
                                      attempts: seq<Attempt<E, R>>): Disk<M, A, E, R>
    requires cfg.checkpointEvery > 0
  {
    if attempts == [] then disk
    else
      var last := attempts[|attempts| - 1];
      Process(f, cfg.(maxGenerations := last.maxGenerations), Attempts(f, cfg, disk, attempts[..|attempts| - 1]), last.mode, last.world).0
  }

  lemma SoundForAnyLimit<M, A, E, R>(f: Flywheel<M, A, E, R>, cfg: Config, disk: Disk<M, A, E, R>, limit: nat)
    requires cfg.checkpointEvery > 0
    ensures Sound(f, cfg, disk) <==> Sound(f, cfg.(maxGenerations := limit), disk)
  {
    assert forall g: nat :: RegularlyDue(cfg, g) <==> RegularlyDue(cfg.(maxGenerations := limit), g);
  }

  lemma {:induction false} AttemptsSound<M, A, E, R>(f: Flywheel<M, A, E, R>, cfg: Config, disk: Disk<M, A, E, R>,
                                                     attempts: seq<Attempt<E, R>>)
    requires cfg.checkpointEvery > 0 && Sound(f, cfg, disk)
    ensures Sound(f, cfg, Attempts(f, cfg, disk, attempts))
    ensures Extends(disk.generations, Attempts(f, cfg, disk, attempts).generations)
  {
    hide Sound, Process;
    if attempts != [] {
      var last := attempts[|attempts| - 1];
      var limited := cfg.(maxGenerations := last.maxGenerations);
      var before := Attempts(f, cfg, disk, attempts[..|attempts| - 1]);
      AttemptsSound(f, cfg, disk, attempts[..|attempts| - 1]);
      SoundForAnyLimit(f, cfg, before, last.maxGenerations);
      ProcessSound(f, limited, before, last.mode, last.world);
      SoundForAnyLimit(f, cfg, Process(f, limited, before, last.mode, last.world).0, last.maxGenerations);
    }
  }

  function Empty<M, A, E, R>(): Disk<M, A, E, R> {
    Disk(map[], None, None)
  }

  /** After any schedule from an empty directory, with stops, rejections and crashes anywhere: every checkpoint is
      honest, the latest one is accepted, and both pointer files name accepted checkpoints no later than it. */
  lemma {:induction false} PointersTellTheTruth<M, A, E, R>(f: Flywheel<M, A, E, R>, cfg: Config,
                                                            attempts: seq<Attempt<E, R>>)
    requires cfg.checkpointEvery > 0
    ensures var d := Attempts(f, cfg, Empty(), attempts);
      var latest := LatestOf(d.generations);
      && (forall g :: g in d.generations ==> Honest(f, g, d.generations[g]))
      && (latest.Some? ==> d.generations[latest.value].accepted)
      && (d.latestJson.Some? ==>
            && latest.Some? && d.latestJson.value <= latest.value
            && d.latestJson.value in d.generations && d.generations[d.latestJson.value].accepted)
      && (d.lastGoodJson.Some? ==>
            var (g, metrics) := d.lastGoodJson.value;
            && latest.Some? && g <= latest.value && g in d.generations && d.generations[g].accepted
            && metrics.generation == g && MostRecent(d.generations[g].baseline, d.generations[g].history) == Some(metrics))
  {
    hide Honest, Replayed, MostRecent;
    assert Sound(f, cfg, Empty());
    AttemptsSound(f, cfg, Empty(), attempts);
    var d := Attempts(f, cfg, Empty(), attempts);
    if d.lastGoodJson.Some? {
      AcceptedLastGood(f, d.lastGoodJson.value.0, d.generations[d.lastGoodJson.value.0]);
    }
  }

  lemma AcceptedLastGood<M, A, E, R>(f: Flywheel<M, A, E, R>, g: nat, c: Checkpoint<M, A, E, R>)
    requires Honest(f, g, c) && c.accepted
    ensures c.lastGood == MostRecent(c.baseline, c.history)
  {
  }

  ghost predicate NothingLater<M, A, E, R>(generations: map<nat, Checkpoint<M, A, E, R>>, g: nat) {
    forall h :: h in generations ==> h <= g
  }

  /** A rejected generation that is regularly due blocks every later one. */
  lemma RejectionBlocks<M, A, E, R>(f: Flywheel<M, A, E, R>, cfg: Config, disk: Disk<M, A, E, R>, g: nat)
    requires cfg.checkpointEvery > 0 && Sound(f, cfg, disk)
    requires g in disk.generations && !disk.generations[g].accepted && RegularlyDue(cfg, g)
    ensures NothingLater(disk.generations, g)
  {
    forall h | h in disk.generations ensures h <= g {
      assert g < h ==> OnLineage(disk.generations, g, disk.generations[h].history);
    }
  }

  /** A world in which nothing stops or dies. */
  function Calm<E, R>(experience: E, evaluation: R): nat -> Inputs<E, R> {
    (n: nat) => Inputs(false, experience, evaluation, false, true, Survives)
  }

  /** With one generation more to go, generations that are not regularly due are passed without a trace, and the
      last one is saved. */
  lemma {:induction false} CalmLoopReaches<M, A, E, R>(f: Flywheel<M, A, E, R>, cfg: Config, disk: Disk<M, A, E, R>,
                                                       r: Run<M, A, E, R>, 
                                                       g: nat, e: E, v: R)
    requires cfg.checkpointEvery > 0 && cfg.save && cfg.maxGenerations == g + 1 && |r.history| <= g && g + 1 !in disk.generations
    requires forall x: nat :: |r.history| < x <= g ==> !RegularlyDue(cfg, x)
    ensures g + 1 in LoopFrom(f, cfg, disk, r, Calm(e, v)).0.generations
    decreases g - |r.history|
  {
    var n, world := |r.history| + 1, Calm(e, v);
    if n <= g {
      assert !RegularlyDue(cfg, n);
      assert GenerationStep(f, cfg, disk, r, world(n)) == (disk, None);
      CalmLoopReaches(f, cfg, disk, Advance(f, cfg, r, world(n)), g, e, v);
    } else {
      var (after, end) := GenerationStep(f, cfg, disk, r, world(n));
      assert g + 1 in after.generations;
    }
  }

  /** A rejection is final, in that no schedule of later processes ever stores a later generation, exactly when
      the rejected generation is regularly due. One that was due only as the last generation can be passed by
      raising the limit. */
  lemma {:induction false} RejectionIsFinalIff<M, A, E, R>(f: Flywheel<M, A, E, R>, cfg: Config,
                                                           disk: Disk<M, A, E, R>, g: nat)
    requires cfg.checkpointEvery > 0 && cfg.save && Sound(f, cfg, disk)
    requires g in disk.generations && !disk.generations[g].accepted
    ensures (forall attempts: seq<Attempt<E, R>> :: NothingLater(Attempts(f, cfg, disk, attempts).generations, g)) <==> RegularlyDue(cfg, g)
  {
    if RegularlyDue(cfg, g) {
      forall attempts: seq<Attempt<E, R>> ensures NothingLater(Attempts(f, cfg, disk, attempts).generations, g) {
        AttemptsSound(f, cfg, disk, attempts);
        RejectionBlocks(f, cfg, Attempts(f, cfg, disk, attempts), g);
      }
    } else {
      PassRejection(f, cfg, disk, g);
    }
  }

  lemma {:induction false} PassRejection<M, A, E, R>(f: Flywheel<M, A, E, R>, cfg: Config, disk: Disk<M, A, E, R>, g: nat)
    requires cfg.checkpointEvery > 0 && cfg.save && Sound(f, cfg, disk)
    requires g in disk.generations && !disk.generations[g].accepted && !RegularlyDue(cfg, g)
    ensures exists attempts: seq<Attempt<E, R>> :: !NothingLater(Attempts(f, cfg, disk, attempts).generations, g)
  {
    if g + 1 in disk.generations {
      assert Attempts(f, cfg, disk, []) == disk;
      assert !NothingLater(Attempts(f, cfg, disk, []).generations, g);
    } else {
      assert Honest(f, g, disk.generations[g]);
      var e, v := disk.generations[g].history[g - 1].experience, disk.generations[g].candidate.value.result;
      var attempt := Attempt(ResumeLatest, g + 1, Calm(e, v));
      NothingDueAboveLatest(f, cfg, cfg.(maxGenerations := g + 1), disk, g);
      if LatestOf(disk.generations).value <= g {
        CalmLoopReaches(f, cfg.(maxGenerations := g + 1), disk, Loaded(disk.generations[LatestOf(disk.generations).value]), g, e, v);
        OneAttempt(f, cfg, disk, attempt);
        assert g + 1 in Attempts(f, cfg, disk, [attempt]).generations;
        assert !NothingLater(Attempts(f, cfg, disk, [attempt]).generations, g);
      } else {
        assert Attempts(f, cfg, disk, []) == disk;
        assert !NothingLater(Attempts(f, cfg, disk, []).generations, g);
      }
    }
  }

  lemma {:induction false} OneAttempt<M, A, E, R>(f: Flywheel<M, A, E, R>, cfg: Config, disk: Disk<M, A, E, R>,
                                                  a: Attempt<E, R>)
    requires cfg.checkpointEvery > 0
    ensures Attempts(f, cfg, disk, [a]) == Process(f, cfg.(maxGenerations := a.maxGenerations), disk, a.mode, a.world).0
  {
    assert [a][..0] == [];
  }

  /** Below a stored generation, nothing regularly due lies above the latest accepted checkpoint. */
  lemma NothingDueAboveLatest<M, A, E, R>(f: Flywheel<M, A, E, R>, cfg: Config, limited: Config,
                                          disk: Disk<M, A, E, R>, g: nat)
    requires cfg.checkpointEvery > 0 && Sound(f, cfg, disk)
    requires g in disk.generations && !disk.generations[g].accepted && !RegularlyDue(cfg, g)
    requires limited == cfg.(maxGenerations := g + 1)
    ensures var latest := LatestOf(disk.generations);
      && latest.Some? && |disk.generations[latest.value].history| == latest.value
      && forall x: nat :: latest.value < x <= g ==> !RegularlyDue(limited, x)
  {
    var latest := LatestOf(disk.generations);
    assert Honest(f, g, disk.generations[g]);
    assert RegularlyDue(cfg, 0);
    assert OnLineage(disk.generations, 0, disk.generations[g].history);
    assert Honest(f, latest.value, disk.generations[latest.value]);
    forall x: nat | latest.value < x <= g ensures !RegularlyDue(limited, x) {
      assert x < g && RegularlyDue(cfg, x) ==> OnLineage(disk.generations, x, disk.generations[g].history);
      assert RegularlyDue(cfg, x) <==> RegularlyDue(limited, x);
    }
  }

  /** Any two checkpoints whose earlier one is regularly due lie on one lineage. */
  lemma {:induction false} LineagesAgree<M, A, E, R>(f: Flywheel<M, A, E, R>, cfg: Config,
                                                     attempts: seq<Attempt<E, R>>, g: nat, h: nat)
    requires cfg.checkpointEvery > 0 && g < h && RegularlyDue(cfg, g)
    requires h in Attempts(f, cfg, Empty(), attempts).generations
    ensures var gens := Attempts(f, cfg, Empty(), attempts).generations;
      g in gens && gens[g].accepted && |gens[h].history| == h && gens[g].history == gens[h].history[..g]
  {
    assert Sound(f, cfg, Empty());
    AttemptsSound(f, cfg, Empty(), attempts);
    var gens := Attempts(f, cfg, Empty(), attempts).generations;
    assert OnLineage(gens, g, gens[h].history);
    assert Honest(f, h, gens[h]);
  }
}
