/** The fixed-budget no-z trainer: one phase, checkpoints on a fixed grid, a heartbeat log and a status file. */
module NoZTraining {
  import opened ActionChunks
  import TickArithmetic

  datatype Config = Config(totalSteps: nat, checkpointEvery: nat, logEvery: nat)

  ghost predicate ValidConfig(c: Config) {
    && 1 <= c.totalSteps && 1 <= c.checkpointEvery && 1 <= c.logEvery
    && OnGrid(c, c.totalSteps)
    && forall n: nat :: OnGrid(c, n) ==> n % c.logEvery == 0
  }

  predicate OnGrid(c: Config, n: nat)
    requires 1 <= c.checkpointEvery
  {
    n % c.checkpointEvery == 0
  }

  /** `train(step, model)`: one optimizer step on that step's batch indices and flow seed. */
  datatype Learner<!M> = Learner(initial: M, train: (nat, M) -> M)

  /** The model after `n` steps of a run that nothing interrupts. */
  function Ideal<M>(l: Learner<M>, n: nat): M {
    if n == 0 then l.initial else l.train(n - 1, Ideal(l, n - 1))
  }

  datatype Event = Start | Resume | Training
  datatype Beat = Beat(attempt: nat, event: Event, globalStep: nat, priorObserved: Option<nat>)

  /** `committed` is None when the run failed before its first checkpoint. */
  datatype Status = InTraining(attempt: nat, globalStep: nat) | Complete(attempt: nat, globalStep: nat) | Error(globalStep: nat, committed: Option<nat>)

  datatype World = Go | Fail | Kill
  datatype Outcome<M> = Completed(model: M, optimizerStep: nat) | Failed | Killed

  /** The largest value of a property of the records, as the log scan computes it. */
  ghost predicate IsMax(values: seq<nat>, m: nat) {
    m in values && forall v :: v in values ==> v <= m
  }

  method Largest(values: seq<nat>) returns (m: nat)
    requires values != []
    ensures IsMax(values, m)
  {
    m := values[0];
    for i := 1 to |values|
      invariant m in values[..i] && forall v :: v in values[..i] ==> v <= m
    {
      assert values[..i + 1] == values[..i] + [values[i]];
      if values[i] > m {
        m := values[i];
      }
    }
    assert values[..|values|] == values;
  }

  /** Attempts are numbered upwards through the log, and every attempt opens with its own record. */
  ghost predicate LogFits(beats: seq<Beat>) {
    && (forall i, j :: 0 <= i <= j < |beats| ==> beats[i].attempt <= beats[j].attempt)
    && (forall i, j :: 0 <= i < j < |beats| && !beats[j].event.Training? ==> beats[i].attempt < beats[j].attempt)
    && (forall j :: 0 <= j < |beats| && !beats[j].event.Training? && j > 0 ==>
          beats[j].priorObserved.Some? && forall i :: 0 <= i < j ==> beats[i].globalStep <= beats[j].priorObserved.value)
  }

  /** The furthest step any record has seen. */
  ghost predicate IsNewestStep(beats: seq<Beat>, step: nat) {
    && (forall i :: 0 <= i < |beats| ==> beats[i].globalStep <= step)
    && exists i :: 0 <= i < |beats| && beats[i].globalStep == step
  }

  /** The scan of the existing records: the highest step and the highest attempt, which is the newest one. */
  method Observed(beats: seq<Beat>) returns (step: nat, attempt: nat)
    requires beats != [] && LogFits(beats)
    ensures attempt == beats[|beats| - 1].attempt
    ensures forall i :: 0 <= i < |beats| ==> beats[i].attempt <= attempt
    ensures IsNewestStep(beats, step)
  {
    var steps := seq(|beats|, i requires 0 <= i < |beats| => beats[i].globalStep);
    var attempts := seq(|beats|, i requires 0 <= i < |beats| => beats[i].attempt);
    step := Largest(steps);
    attempt := Largest(attempts);
    forall i | 0 <= i < |beats| ensures beats[i].globalStep <= step && beats[i].attempt <= attempt {
      assert steps[i] in steps && attempts[i] in attempts;
    }
  }

  lemma LogFitsMore(beats: seq<Beat>, beat: Beat)
    requires LogFits(beats)
    requires forall i :: 0 <= i < |beats| ==> beats[i].attempt < beat.attempt || (beat.event.Training? && beats[i].attempt <= beat.attempt)
    requires !beat.event.Training? && beats != [] ==>
               beat.priorObserved.Some? && forall i :: 0 <= i < |beats| ==> beats[i].globalStep <= beat.priorObserved.value
    ensures LogFits(beats + [beat])
  {
  }

  /** The opening record of an attempt: numbered one above the newest attempt in the log (in an empty log a fresh
      start is attempt 0 and a resume attempt 1), and aware of the furthest step seen before it. */
  ghost predicate Opens(beats: seq<Beat>, beat: Beat, resume: bool, globalStep: nat) {
    && beat.event == (if resume then Resume else Start) && beat.globalStep == globalStep
    && (if beats == [] then beat.attempt == (if resume then 1 else 0) && beat.priorObserved.None?
        else beat.attempt == beats[|beats| - 1].attempt + 1 && beat.priorObserved.Some? && IsNewestStep(beats, beat.priorObserved.value))
  }

  method OpeningBeat(beats: seq<Beat>, resume: bool, globalStep: nat) returns (beat: Beat)
    requires LogFits(beats) && (beats == [] || resume)
    ensures Opens(beats, beat, resume, globalStep)
  {
    var prior, index := None, if resume then 1 else 0;
    if beats != [] {
      var last, newest := Observed(beats);
      prior, index := Some(last), newest + 1;
    }
    beat := Beat(index, if resume then Resume else Start, globalStep, prior);
  }

  lemma OpensFits(beats: seq<Beat>, beat: Beat, resume: bool, globalStep: nat)
    requires LogFits(beats) && Opens(beats, beat, resume, globalStep)
    ensures LogFits(beats + [beat])
  {
    LogFitsMore(beats, beat);
  }

  /** A run that resumes from a checkpoint never starts ahead of what its log has seen. */
  lemma ResumesNotAhead<M>(completed: map<nat, M>, beats: seq<Beat>, beat: Beat, committed: nat)
    requires CheckpointsLogged(completed, beats) && committed in completed && beats != []
    requires Opens(beats, beat, true, committed)
    ensures beat.priorObserved.Some? && committed <= beat.priorObserved.value
  {
    assert committed > 0 ==> Logged(beats, committed);
  }

  ghost predicate Logged(beats: seq<Beat>, n: nat) {
    exists i :: 0 <= i < |beats| && beats[i].globalStep == n
  }

  lemma LoggedStays(beats: seq<Beat>, next: Beat)
    ensures forall n :: Logged(beats, n) ==> Logged(beats + [next], n)
    ensures Logged(beats + [next], next.globalStep)
  {
    forall n | Logged(beats, n) ensures Logged(beats + [next], n) {
      var i :| 0 <= i < |beats| && beats[i].globalStep == n;
      assert (beats + [next])[i].globalStep == n;
    }
    assert (beats + [next])[|beats|] == next;
  }

  /** Checkpoints lie on the grid without a gap and hold the uninterrupted run's models. */
  ghost predicate StoreFits<M>(c: Config, l: Learner<M>, completed: map<nat, M>)
    requires ValidConfig(c)
  {
    && (forall n :: n in completed ==> n <= c.totalSteps && OnGrid(c, n) && completed[n] == Ideal(l, n))
    && (forall n: nat, k: nat :: n in completed && k < n && OnGrid(c, k) ==> k in completed)
  }

  /** A checkpoint's step was logged before it was saved. */
  ghost predicate CheckpointsLogged<M>(completed: map<nat, M>, beats: seq<Beat>) {
    forall n :: n in completed && n > 0 ==> Logged(beats, n)
  }

  /** The status never claims more than is durable. */
  ghost predicate Truthful<M>(c: Config, completed: map<nat, M>, status: Status) {
    match status
    case InTraining(_, _) => true
    case Complete(_, step) => step == c.totalSteps && c.totalSteps in completed
    case Error(step, committed) => committed.Some? ==> committed.value in completed && committed.value <= step
  }

  class NoZRun<M> {
    var created: bool
    var completed: map<nat, M>
    var heartbeat: seq<Beat>
    var status: Option<Status>

    constructor ()
      ensures !created && completed == map[] && heartbeat == [] && status == None
    {
      created, completed, heartbeat, status := false, map[], [], None;
    }

    ghost function View(): Output<M>
      reads this
    {
      Output(completed, heartbeat, status)
    }

    ghost predicate Sound(c: Config, l: Learner<M>)
      requires ValidConfig(c)
      reads this
    {
      && (!created ==> completed == map[] && heartbeat == [])
      && StoreFits(c, l, completed) && LogFits(heartbeat) && CheckpointsLogged(completed, heartbeat)
      && (status.Some? ==> Truthful(c, completed, status.value))
    }

    method Latest() returns (latest: Option<nat>)
      ensures latest.None? <==> completed == map[]
      ensures latest.Some? ==> latest.value in completed && forall n :: n in completed ==> n <= latest.value
    {
      var rest := completed.Keys;
      latest := None;
      while rest != {}
        invariant rest <= completed.Keys
        invariant latest.None? ==> rest == completed.Keys
        invariant latest.Some? ==> latest.value in completed && forall n :: n in completed && n !in rest ==> n <= latest.value
        decreases rest
      {
        var n :| n in rest;
        latest := if latest.None? || latest.value < n then Some(n) else latest;
        rest := rest - {n};
      }
    }

    /** Opens an attempt in the log; None is the refusal of a fresh start on a used log. */
    method BeginAttempt(resume: bool, globalStep: nat) returns (attempt: Option<nat>)
      requires LogFits(heartbeat)
      modifies this`heartbeat
      ensures attempt.None? <==> !resume && old(heartbeat) != []
      ensures attempt.None? ==> heartbeat == old(heartbeat)
      ensures attempt.Some? ==>
                && heartbeat != [] && heartbeat[..|heartbeat| - 1] == old(heartbeat)
                && Opens(old(heartbeat), heartbeat[|heartbeat| - 1], resume, globalStep)
                && heartbeat[|heartbeat| - 1].attempt == attempt.value
      ensures LogFits(heartbeat)
      ensures CheckpointsLogged(completed, old(heartbeat)) ==> CheckpointsLogged(completed, heartbeat)
    {
      hide LogFits, Opens;
      if !resume && heartbeat != [] {
        return None;
      }
      var beat := OpeningBeat(heartbeat, resume, globalStep);
      LoggedStays(heartbeat, beat);
      OpensFits(heartbeat, beat, resume, globalStep);
      heartbeat := heartbeat + [beat];
      attempt := Some(beat.attempt);
    }

    /** Logs a training record and then writes the status, unless the process dies in between. */
    method LogStep(step: nat, attempt: nat, cut: bool)
      requires LogFits(heartbeat) && heartbeat != [] && heartbeat[|heartbeat| - 1].attempt == attempt
      modifies this`heartbeat, this`status
      ensures heartbeat == old(heartbeat) + [Beat(attempt, Training, step, None)]
      ensures status == if cut then old(status) else Some(InTraining(attempt, step))
      ensures LogFits(heartbeat) && Logged(heartbeat, step)
      ensures CheckpointsLogged(completed, old(heartbeat)) ==> CheckpointsLogged(completed, heartbeat)
    {
      var beat := Beat(attempt, Training, step, None);
      LoggedStays(heartbeat, beat);
      LogFitsMore(heartbeat, beat);
      heartbeat := heartbeat + [beat];
      if !cut {
        status := Some(InTraining(attempt, step));
      }
    }

    /** Commits a step; an existing checkpoint would be refused. */
    method Commit(step: nat, model: M) returns (ok: bool)
      modifies this`completed
      ensures ok <==> step !in old(completed)
      ensures completed == if ok then old(completed)[step := model] else old(completed)
    {
      ok := step !in completed;
      if ok {
        completed := completed[step := model];
      }
    }
  }

  lemma {:induction false} CommitFits<M>(c: Config, l: Learner<M>, completed: map<nat, M>, beats: seq<Beat>, step: nat)
    requires ValidConfig(c) && StoreFits(c, l, completed) && CheckpointsLogged(completed, beats)
    requires step <= c.totalSteps && OnGrid(c, step) && (step > 0 ==> Logged(beats, step))
    requires GridDurable(c, completed, step)
    ensures var after := completed[step := Ideal(l, step)];
      StoreFits(c, l, after) && CheckpointsLogged(after, beats) && GridDurable(c, after, step + 1)
  {
  }

  /** Every grid step below `step` is durable. */
  ghost predicate GridDurable<M>(c: Config, completed: map<nat, M>, step: nat)
    requires ValidConfig(c)
  {
    forall k: nat :: k < step && OnGrid(c, k) ==> k in completed
  }

  /** A run in progress, after `step` steps: the newest checkpoint is `committed`, every grid step so far is
      durable, and the attempt is the newest in the log. */
  ghost predicate Underway<M>(c: Config, l: Learner<M>, run: NoZRun<M>, step: nat, committed: nat, attempt: nat)
    requires ValidConfig(c)
    reads run
  {
    && run.Sound(c, l) && run.created && step <= c.totalSteps && committed <= step
    && committed in run.completed && (forall n :: n in run.completed ==> n <= committed)
    && GridDurable(c, run.completed, step + 1)
    && run.heartbeat != [] && run.heartbeat[|run.heartbeat| - 1].attempt == attempt
  }

  // ----- what an attempt leaves, read off the disturbances -----

  /** What an attempt can change. */
  datatype Output<M> = Output(completed: map<nat, M>, heartbeat: seq<Beat>, status: Option<Status>)

  function LastMultiple(n: nat, every: nat): nat
    requires every >= 1
  {
    n - n % every
  }

  /** The training records of the steps after `start` up to `upTo`. */
  function TrainBeats(c: Config, attempt: nat, start: nat, upTo: nat): seq<Beat>
    requires 1 <= c.logEvery
  {
    if upTo <= start then []
    else TrainBeats(c, attempt, start, upTo - 1) + if upTo % c.logEvery == 0 then [Beat(attempt, Training, upTo, None)] else []
  }

  /** The status that the last of those records leaves, or the one before them. */
  function LoggedStatus(c: Config, before: Option<Status>, attempt: nat, start: nat, upTo: nat): Option<Status>
    requires 1 <= c.logEvery
  {
    if LastMultiple(upTo, c.logEvery) > start then Some(InTraining(attempt, LastMultiple(upTo, c.logEvery))) else before
  }

  /** Exactly the grid steps from `start` up to `upTo` have been saved. */
  ghost predicate GridSaved<M>(c: Config, before: map<nat, M>, after: map<nat, M>, start: nat, upTo: int)
    requires ValidConfig(c)
  {
    forall n: nat :: n in after <==> n in before || (start <= n <= upTo && OnGrid(c, n))
  }

  /** The log has grown by the record that opens the attempt and the training records up to `upTo`. */
  ghost predicate LoggedThrough(c: Config, resume: bool, start: nat, before: seq<Beat>, after: seq<Beat>, upTo: nat)
    requires ValidConfig(c)
  {
    && |before| < |after| && after[..|before|] == before && Opens(before, after[|before|], resume, start)
    && after[|before| + 1..] == TrainBeats(c, after[|before|].attempt, start, upTo)
  }

  ghost predicate FirstEvent(world: nat -> World, k: nat) {
    world(k) != Go && forall i: nat :: i < k ==> world(i) == Go
  }

  /** An undisturbed attempt saves the grid, logs every due step and reports its completion. */
  ghost predicate Completes<M>(c: Config, resume: bool, start: nat, before: Output<M>, after: Output<M>, outcome: Outcome<M>)
    requires ValidConfig(c)
  {
    && outcome.Completed? && GridSaved(c, before.completed, after.completed, start, c.totalSteps)
    && LoggedThrough(c, resume, start, before.heartbeat, after.heartbeat, c.totalSteps)
    && after.status == Some(Complete(after.heartbeat[|before.heartbeat|].attempt, c.totalSteps))
  }

  /** What entry `k` of the world leaves when it ends an attempt from `start`. An exception is reported with the steps
      trained and the newest checkpoint; a kill leaves the status as it was last logged. */
  ghost predicate Disturbed<M>(c: Config, resume: bool, event: World, k: nat, start: nat, before: Output<M>,
                               after: Output<M>, outcome: Outcome<M>)
    requires ValidConfig(c)
  {
    var trained, durable := if k == 0 then 0 else start + k / 3, if k < 2 then start else start + (k - 2) / 3;
    && GridSaved(c, before.completed, after.completed, start, if k == 0 then -1 else durable)
    && (if k < 2 then after.heartbeat == before.heartbeat
        else LoggedThrough(c, resume, start, before.heartbeat, after.heartbeat, trained))
    && (event == Fail ==>
          outcome.Failed? && after.status == Some(Error(trained, if k == 0 then None else Some(LastMultiple(durable, c.checkpointEvery)))))
    && (event == Kill ==>
          && outcome.Killed?
          && after.status == if k < 2 then before.status
                             else LoggedStatus(c, before.status, after.heartbeat[|before.heartbeat|].attempt, start, start + (k - 1) / 3))
  }

  /** How an attempt from `start` ends: the first entry of the world that is not `Go` decides, if it is consulted. */
  ghost predicate EndsAsDisturbed<M>(c: Config, resume: bool, world: nat -> World, start: nat, before: Output<M>,
                                     after: Output<M>, outcome: Outcome<M>)
    requires ValidConfig(c) && start <= c.totalSteps
  {
    var consulted := 2 + 3 * (c.totalSteps - start);
    && (AllGo(world, consulted) ==> Completes(c, resume, start, before, after, outcome))
    && forall k: nat :: FirstEvent(world, k) && k < consulted ==> Disturbed(c, resume, world(k), k, start, before, after, outcome)
  }

  ghost predicate AllGo(world: nat -> World, n: nat) {
    forall i: nat :: i < n ==> world(i) == Go
  }

  lemma NextEntry(world: nat -> World, k: nat)
    ensures AllGo(world, k) && world(k) == Go ==> AllGo(world, k + 1)
    ensures AllGo(world, k) && world(k) != Go ==> FirstEvent(world, k)
  {
  }

  lemma OneFirstEvent(world: nat -> World, k: nat)
    requires FirstEvent(world, k)
    ensures forall i: nat :: FirstEvent(world, i) ==> i == k
    ensures forall n: nat :: AllGo(world, n) ==> n <= k
  {
    forall i: nat | FirstEvent(world, i) ensures i == k {
      assert i < k ==> world(i) == Go;
    }
    forall n: nat | AllGo(world, n) ensures n <= k {
      assert k < n ==> world(k) == Go;
    }
  }

  lemma EventEnds<M>(c: Config, resume: bool, world: nat -> World, k: nat, start: nat, before: Output<M>,
                     after: Output<M>, outcome: Outcome<M>)
    requires ValidConfig(c) && start <= c.totalSteps && FirstEvent(world, k) && k < 2 + 3 * (c.totalSteps - start)
    requires Disturbed(c, resume, world(k), k, start, before, after, outcome)
    ensures EndsAsDisturbed(c, resume, world, start, before, after, outcome)
  {
    hide Disturbed, Completes, FirstEvent, AllGo, ValidConfig;
    OneFirstEvent(world, k);
  }

  lemma BudgetEnds<M>(c: Config, resume: bool, world: nat -> World, start: nat, before: Output<M>, after: Output<M>,
                      outcome: Outcome<M>)
    requires ValidConfig(c) && start <= c.totalSteps && AllGo(world, 2 + 3 * (c.totalSteps - start))
    requires Completes(c, resume, start, before, after, outcome)
    ensures EndsAsDisturbed(c, resume, world, start, before, after, outcome)
  {
    hide Disturbed, Completes, ValidConfig;
  }

  // ----- the trainer -----

  /** One step: train, log on the log grid, checkpoint on the checkpoint grid. It may die between the log record
      and the status (`cut`) or in front of the checkpoint (`crash`). */
  method TrainStep<M>(run: NoZRun<M>, c: Config, l: Learner<M>, step: nat, committed: nat, model: M, attempt: nat,
                      cut: bool, crash: bool)
    returns (next: M, newest: nat)
    requires ValidConfig(c) && Underway(c, l, run, step, committed, attempt) && step < c.totalSteps && model == Ideal(l, step)
    modifies run
    ensures run.Sound(c, l) && run.created && Extends(old(run.completed), run.completed)
    ensures var due := (step + 1) % c.logEvery == 0;
      && run.heartbeat == old(run.heartbeat) + (if due then [Beat(attempt, Training, step + 1, None)] else [])
      && run.status == if due && !cut then Some(InTraining(attempt, step + 1)) else old(run.status)
    ensures cut || crash ==> run.completed == old(run.completed)
    ensures !cut && !crash ==>
              && next == Ideal(l, step + 1) && Underway(c, l, run, step + 1, newest, attempt)
              && run.completed.Keys == old(run.completed).Keys + (if OnGrid(c, step + 1) then {step + 1} else {})
              && newest == if OnGrid(c, step + 1) then step + 1 else committed
  {
    hide StoreFits, LogFits, Logged, CheckpointsLogged;
    next, newest := l.train(step, model), committed;
    if (step + 1) % c.logEvery == 0 {
      run.LogStep(step + 1, attempt, cut);
    }
    if cut || crash {
      return;
    }
    if OnGrid(c, step + 1) {
      CommitFits(c, l, run.completed, run.heartbeat, step + 1);
      var _ := run.Commit(step + 1, next);
      newest := step + 1;
    }
  }

  /** The end of an attempt that something disturbs: an exception is reported, a kill is not. */
  method End<M>(run: NoZRun<M>, event: World, step: nat, committed: Option<nat>) returns (outcome: Outcome<M>)
    requires event != Go
    modifies run`status
    ensures event == Fail ==> outcome == Failed && run.status == Some(Error(step, committed))
    ensures event == Kill ==> outcome == Killed && run.status == old(run.status)
  {
    if event == Kill {
      return Killed;
    }
    run.status := Some(Error(step, committed));
    outcome := Failed;
  }

  /** Where the loop of an attempt stands after `step` steps: everything due has been saved, logged and reported. */
  ghost predicate InLoop<M>(c: Config, resume: bool, start: nat, before: Output<M>, now: Output<M>, attempt: nat,
                            step: nat, committed: nat)
    requires ValidConfig(c)
  {
    && start <= step && committed == LastMultiple(step, c.checkpointEvery)
    && GridSaved(c, before.completed, now.completed, start, step)
    && LoggedThrough(c, resume, start, before.heartbeat, now.heartbeat, step) && now.heartbeat[|before.heartbeat|].attempt == attempt
    && now.status == LoggedStatus(c, before.status, attempt, start, step)
  }

  lemma NextMultiple(n: nat, every: nat)
    requires every >= 1
    ensures LastMultiple(n + 1, every) == if (n + 1) % every == 0 then n + 1 else LastMultiple(n, every)
    ensures LastMultiple(n, every) <= n
  {
    var q, r := n / every, n % every;
    assert n == every * q + r;
    if r + 1 < every {
      TickArithmetic.ModuloUnique(n + 1, every, q, r + 1);
    } else {
      assert n + 1 == every * (q + 1) + 0;
      TickArithmetic.ModuloUnique(n + 1, every, q + 1, 0);
    }
  }

  /** A step that is not disturbed. */
  lemma StepInLoop<M>(c: Config, resume: bool, start: nat, before: Output<M>, now: Output<M>, attempt: nat, step: nat,
                      committed: nat, 
                      after: Output<M>, newest: nat)
    requires ValidConfig(c) && InLoop(c, resume, start, before, now, attempt, step, committed)
    requires after.completed.Keys == now.completed.Keys + (if OnGrid(c, step + 1) then {step + 1} else {})
    requires newest == if OnGrid(c, step + 1) then step + 1 else committed
    requires var due := (step + 1) % c.logEvery == 0;
      && after.heartbeat == now.heartbeat + (if due then [Beat(attempt, Training, step + 1, None)] else [])
      && after.status == if due then Some(InTraining(attempt, step + 1)) else now.status
    ensures InLoop(c, resume, start, before, after, attempt, step + 1, newest)
  {
    hide Opens, LoggedThrough, LoggedStatus, GridSaved;
    NextMultiple(step, c.checkpointEvery);
    LogGrows(c, resume, start, before.heartbeat, now.heartbeat, after.heartbeat, attempt, step);
    StatusGrows(c, before.status, attempt, start, step);
    GridGrows(c, before.completed, now.completed, after.completed, start, step);
  }

  lemma LogGrows(c: Config, resume: bool, start: nat, before: seq<Beat>, now: seq<Beat>, after: seq<Beat>,
                 attempt: nat, step: nat)
    requires ValidConfig(c) && start <= step && LoggedThrough(c, resume, start, before, now, step) && now[|before|].attempt == attempt
    requires after == now + if (step + 1) % c.logEvery == 0 then [Beat(attempt, Training, step + 1, None)] else []
    ensures LoggedThrough(c, resume, start, before, after, step + 1) && after[|before|].attempt == attempt
  {
    hide Opens;
    var record := if (step + 1) % c.logEvery == 0 then [Beat(attempt, Training, step + 1, None)] else [];
    assert after[..|before|] == now[..|before|] && after[|before|] == now[|before|];
    assert after[|before| + 1..] == now[|before| + 1..] + record;
  }

  lemma StatusGrows(c: Config, before: Option<Status>, attempt: nat, start: nat, step: nat)
    requires ValidConfig(c) && start <= step
    ensures LoggedStatus(c, before, attempt, start, step + 1)
         == if (step + 1) % c.logEvery == 0 then Some(InTraining(attempt, step + 1)) else LoggedStatus(c, before, attempt, start, step)
  {
    NextMultiple(step, c.logEvery);
  }

  lemma GridGrows<M>(c: Config, before: map<nat, M>, now: map<nat, M>, after: map<nat, M>, start: nat, step: nat)
    requires ValidConfig(c) && start <= step && GridSaved(c, before, now, start, step)
    requires after.Keys == now.Keys + if OnGrid(c, step + 1) then {step + 1} else {}
    ensures GridSaved(c, before, after, start, step + 1)
  {
    hide OnGrid;
    assert forall n :: n in after <==> n in now || (n == step + 1 && OnGrid(c, step + 1));
  }

  /** A disturbance in front of a step. */
  lemma EndsBetween<M>(c: Config, resume: bool, event: World, start: nat, before: Output<M>, now: Output<M>,
                       attempt: nat, step: nat, committed: nat, 
                       after: Output<M>, outcome: Outcome<M>)
    requires ValidConfig(c) && InLoop(c, resume, start, before, now, attempt, step, committed)
    requires after.completed == now.completed && after.heartbeat == now.heartbeat
    requires event == Fail ==> outcome == Failed && after.status == Some(Error(step, Some(committed)))
    requires event == Kill ==> outcome == Killed && after.status == now.status
    ensures Disturbed(c, resume, event, 2 + 3 * (step - start), start, before, after, outcome)
  {
    hide ValidConfig, LoggedThrough, LoggedStatus, GridSaved;
  }

  /** A disturbance within a step, before or after its status is written. */
  lemma EndsWithin<M>(c: Config, resume: bool, event: World, start: nat, before: Output<M>, now: Output<M>,
                      attempt: nat, step: nat, committed: nat, 
                      cut: bool, after: Output<M>, outcome: Outcome<M>)
    requires ValidConfig(c) && InLoop(c, resume, start, before, now, attempt, step, committed)
    requires after.completed == now.completed
    requires after.heartbeat == now.heartbeat + if (step + 1) % c.logEvery == 0 then [Beat(attempt, Training, step + 1, None)] else []
    requires event == Fail ==> outcome == Failed && after.status == Some(Error(step + 1, Some(committed)))
    requires event == Kill ==> outcome == Killed
    requires event == Kill ==> after.status == if (step + 1) % c.logEvery == 0 && !cut then Some(InTraining(attempt, step + 1)) else now.status
    ensures Disturbed(c, resume, event, if cut then 3 + 3 * (step - start) else 4 + 3 * (step - start), start, before, after, outcome)
  {
    hide ValidConfig, LoggedThrough, LoggedStatus, GridSaved;
    LogGrows(c, resume, start, before.heartbeat, now.heartbeat, after.heartbeat, attempt, step);
    StatusGrows(c, before.status, attempt, start, step);
  }

  /** The training loop of one attempt. */
  method TrainToBudget<M>(run: NoZRun<M>, c: Config, l: Learner<M>, resume: bool, start: nat, startModel: M,
                          attempt: nat, world: nat -> World, 
                          ghost before: Output<M>) returns (outcome: Outcome<M>)
    requires ValidConfig(c) && Underway(c, l, run, start, start, attempt) && startModel == Ideal(l, start)
    requires InLoop(c, resume, start, before, run.View(), attempt, start, start) && AllGo(world, 2)
    modifies run
    ensures run.Sound(c, l) && run.created && Extends(old(run.completed), run.completed)
    ensures outcome.Completed? ==> Finished(c, l, run, outcome)
    ensures old(run.heartbeat) <= run.heartbeat
    ensures EndsAsDisturbed(c, resume, world, start, before, run.View(), outcome)
  {
    hide ValidConfig, StoreFits, LogFits, CheckpointsLogged, InLoop, Disturbed, Completes, EndsAsDisturbed, AllGo, FirstEvent, OnGrid,
         GridDurable, Extends, Ideal;
    NothingLost(run.completed);
    var step: nat, committed: nat, model, optimizerStep, clock := start, start, startModel, start, 2;
    while step < c.totalSteps
      invariant Underway(c, l, run, step, committed, attempt) && optimizerStep == step && model == Ideal(l, step)
      invariant Extends(old(run.completed), run.completed) && old(run.heartbeat) <= run.heartbeat
      invariant start <= step && clock == 2 + 3 * (step - start) && AllGo(world, clock)
      invariant InLoop(c, resume, start, before, run.View(), attempt, step, committed)
    {
      ghost var now := run.View();
      NextEntry(world, clock);
      NextEntry(world, clock + 1);
      NextEntry(world, clock + 2);
      if world(clock) != Go {
        outcome := End(run, world(clock), step, Some(committed));
        EndsBetween(c, resume, world(clock), start, before, now, attempt, step, committed, run.View(), outcome);
        EventEnds(c, resume, world, clock, start, before, run.View(), outcome);
        return;
      }
      var cut := world(clock + 1) != Go;
      var end := if cut then world(clock + 1) else world(clock + 2);
      ghost var saved := run.completed;
      var next, newest := TrainStep(run, c, l, step, committed, model, attempt, cut, end != Go);
      ExtendsOn(old(run.completed), saved, run.completed);
      if end != Go {
        outcome := End(run, end, step + 1, Some(committed));
        EndsWithin(c, resume, end, start, before, now, attempt, step, committed, cut, run.View(), outcome);
        EventEnds(c, resume, world, if cut then clock + 1 else clock + 2, start, before, run.View(), outcome);
        return;
      }
      StepInLoop(c, resume, start, before, now, attempt, step, committed, run.View(), newest);
      model, committed := next, newest;
      step, optimizerStep, clock := step + 1, optimizerStep + 1, clock + 3;
    }
    FinalDurable(c, run.completed);
    ghost var now := run.View();
    run.status := Some(Complete(attempt, step));
    outcome := Completed(model, optimizerStep);
    LoopCompletes(c, resume, start, before, now, attempt, committed, run.View(), outcome);
    BudgetEnds(c, resume, world, start, before, run.View(), outcome);
  }

  lemma NothingLost<M>(store: map<nat, M>)
    ensures Extends(store, store)
  {
  }

  lemma ExtendsOn<M>(before: map<nat, M>, saved: map<nat, M>, after: map<nat, M>)
    requires Extends(before, saved) && Extends(saved, after)
    ensures Extends(before, after)
  {
  }

  lemma FinalDurable<M>(c: Config, completed: map<nat, M>)
    requires ValidConfig(c) && GridDurable(c, completed, c.totalSteps + 1)
    ensures c.totalSteps in completed
  {
  }

  lemma LoopCompletes<M>(c: Config, resume: bool, start: nat, before: Output<M>, now: Output<M>, attempt: nat,
                         committed: nat, 
                         after: Output<M>, outcome: Outcome<M>)
    requires ValidConfig(c) && InLoop(c, resume, start, before, now, attempt, c.totalSteps, committed) && outcome.Completed?
    requires after == now.(status := Some(Complete(attempt, c.totalSteps)))
    ensures Completes(c, resume, start, before, after, outcome)
  {
    hide ValidConfig, LoggedThrough, LoggedStatus, GridSaved;
  }

  ghost predicate Uninterrupted(world: nat -> World) {
    forall k :: world(k) == Go
  }

  /** A completed attempt is the uninterrupted run, durable and reported. */
  ghost predicate Finished<M>(c: Config, l: Learner<M>, run: NoZRun<M>, outcome: Outcome<M>)
    requires outcome.Completed?
    reads run
  {
    && outcome.model == Ideal(l, c.totalSteps) && outcome.optimizerStep == c.totalSteps
    && c.totalSteps in run.completed
    && run.status.Some? && run.status.value.Complete?
  }

  ghost predicate Extends<M>(before: map<nat, M>, after: map<nat, M>) {
    forall n :: n in before ==> n in after && after[n] == before[n]
  }

  /** The first record of a log. A resume opens it when the fresh attempt died between its first checkpoint and
      its first record. */
  function FirstBeat(resume: bool): Beat {
    Beat(if resume then 1 else 0, if resume then Resume else Start, 0, None)
  }

  datatype Ready<M> = Ready(step: nat, model: M) | Ended(outcome: Outcome<M>)

  /** Where an attempt trains from: step 0 of a fresh start, or the newest checkpoint. */
  ghost predicate IsStart<M>(resume: bool, completed: map<nat, M>, start: nat) {
    if resume then start in completed && forall n :: n in completed ==> n <= start else start == 0
  }

  /** The checkpoint an attempt trains from: of step 0, which a fresh start saves, or the newest one. Something may end
      the attempt in front of it, or after it. */
  method Prepare<M>(run: NoZRun<M>, c: Config, l: Learner<M>, resume: bool, world: nat -> World) returns (r: Ready<M>)
    requires ValidConfig(c) && run.Sound(c, l)
    modifies run
    ensures run.Sound(c, l) && Extends(old(run.completed), run.completed) && run.heartbeat == old(run.heartbeat)
    ensures r.Ended? ==> !r.outcome.Completed?
    ensures r.Ready? <==> resume == old(run.created) && (resume ==> old(run.completed) != map[]) && world(0) == Go && world(1) == Go
    ensures r.Ready? ==>
              && IsStart(resume, old(run.completed), r.step) && r.step <= c.totalSteps && OnGrid(c, r.step) && run.status == old(run.status)
              && r.step in run.completed && (forall n :: n in run.completed ==> n <= r.step)
              && r.model == Ideal(l, r.step) && GridDurable(c, run.completed, r.step + 1)
              && (run.heartbeat == [] ==> r.step == 0)
              && GridSaved(c, old(run.completed), run.completed, r.step, r.step)
    ensures resume != old(run.created) ==> r == Ended(Failed) && run.created == old(run.created) && run.View() == old(run.View())
    ensures resume && old(run.created) && old(run.completed) == map[] ==>
              && run.completed == map[] && r.Ended?
              && (if world(0) == Kill then r.outcome == Killed && run.status == old(run.status)
                  else r.outcome == Failed && run.status == Some(Error(0, None)))
    ensures r.Ended? && resume == old(run.created) && (resume ==> old(run.completed) != map[]) ==>
              exists start: nat ::
                && start <= c.totalSteps && IsStart(resume, old(run.completed), start)
                && EndsAsDisturbed(c, resume, world, start, old(run.View()), run.View(), r.outcome)
    ensures resume == old(run.created) ==> run.created && (run.completed != map[] <==> (if resume then old(run.completed) != map[] else world(0) == Go))
  {
    hide LogFits, Logged, CheckpointsLogged, EndsAsDisturbed, Disturbed, FirstEvent;
    ghost var before := run.View();
    NextEntry(world, 0);
    NextEntry(world, 1);
    var step: nat, model := 0, l.initial;
    if resume == !run.created {
      return Ended(Failed);
    }
    run.created := true;
    var latest := run.Latest();
    ghost var from := if resume && latest.Some? then latest.value else 0;
    GridStart(c);
    if world(0) != Go {
      var outcome := End(run, world(0), 0, None);
      EndsEarly(c, resume, world(0), 0, from, before, run.View(), outcome);
      EventEnds(c, resume, world, 0, from, before, run.View(), outcome);
      return Ended(outcome);
    }
    if resume {
      if latest.None? {
        run.status := Some(Error(0, None));
        return Ended(Failed);
      }
      step, model := latest.value, run.completed[latest.value];
    } else {
      CommitFits(c, l, run.completed, run.heartbeat, 0);
      var _ := run.Commit(0, model);
    }
    if world(1) != Go {
      var outcome := End(run, world(1), step, Some(step));
      EndsEarly(c, resume, world(1), 1, from, before, run.View(), outcome);
      EventEnds(c, resume, world, 1, from, before, run.View(), outcome);
      return Ended(outcome);
    }
    if run.heartbeat == [] {
      EmptyLogFromStart(run.completed, run.heartbeat);
    }
    r := Ready(step, model);
  }

  lemma GridStart(c: Config)
    requires ValidConfig(c)
    ensures OnGrid(c, 0)
  {
  }

  /** A disturbance in front of the log. */
  lemma EndsEarly<M>(c: Config, resume: bool, event: World, k: nat, start: nat, before: Output<M>, after: Output<M>,
                     outcome: Outcome<M>)
    requires ValidConfig(c) && k < 2 && OnGrid(c, start) && after.heartbeat == before.heartbeat
    requires GridSaved(c, before.completed, after.completed, start, if k == 0 then -1 else start)
    requires event == Fail ==> outcome == Failed && after.status == Some(if k == 0 then Error(0, None) else Error(start, Some(start)))
    requires event == Kill ==> outcome == Killed && after.status == before.status
    ensures Disturbed(c, resume, event, k, start, before, after, outcome)
  {
    hide GridSaved;
  }

  /** What one attempt does: nothing if it is of the wrong kind; if it finds no checkpoint to resume from, a report;
      otherwise it trains until the first disturbance. */
  ghost predicate AttemptDoes<M>(c: Config, resume: bool, created: bool, world: nat -> World, before: Output<M>,
                                 after: Output<M>, outcome: Outcome<M>)
    requires ValidConfig(c)
  {
    if resume != created then outcome == Failed && after == before
    else if resume && before.completed == map[] then
      && after.completed == map[] && after.heartbeat == before.heartbeat
      && (if world(0) == Kill then outcome == Killed && after.status == before.status
          else outcome == Failed && after.status == Some(Error(0, None)))
    else
      exists start: nat ::
        && start <= c.totalSteps && IsStart(resume, before.completed, start)
        && EndsAsDisturbed(c, resume, world, start, before, after, outcome)
  }

  /** One attempt: fresh into a new directory, or resumed from the latest checkpoint, until the budget is spent,
      something raises, or the process is killed. */
  method RunAttempt<M>(run: NoZRun<M>, c: Config, l: Learner<M>, resume: bool,
                       world: nat -> World) returns (outcome: Outcome<M>)
    requires ValidConfig(c) && run.Sound(c, l)
    modifies run
    ensures run.Sound(c, l) && Extends(old(run.completed), run.completed)
    ensures outcome.Completed? ==> Finished(c, l, run, outcome)
    ensures AttemptDoes(c, resume, old(run.created), world, old(run.View()), run.View(), outcome)
    ensures run.created <==> old(run.created) || !resume
    ensures Uninterrupted(world) && (if resume then old(run.completed) != map[] else !old(run.created)) ==> outcome.Completed?
    ensures resume == old(run.created) && old(run.completed) == map[] && (resume || world(0) != Go) ==>
              !outcome.Completed? && run.completed == map[] && run.heartbeat == old(run.heartbeat)
    ensures !resume && !old(run.created) && world(0) == Go ==> run.completed != map[]
    ensures old(run.completed) != map[] ==> run.completed != map[]
    ensures old(run.heartbeat) <= run.heartbeat
    ensures !resume && !old(run.created) ==> (run.heartbeat != [] <==> world(0) == Go && world(1) == Go)
    ensures old(run.heartbeat) == [] && run.heartbeat != [] ==> run.heartbeat[0] == FirstBeat(resume)
  {
    hide ValidConfig, LogFits, StoreFits, CheckpointsLogged, Ideal, Logged, EndsAsDisturbed, InLoop, GridSaved, OnGrid, Opens;
    ghost var before := run.View();
    var r := Prepare(run, c, l, resume, world);
    if r.Ended? {
      return r.outcome;
    }
    SomethingStays(old(run.completed), run.completed);
    ghost var prepared := run.completed;
    var attempt := run.BeginAttempt(resume, r.step);
    OpensFirst(old(run.heartbeat), run.heartbeat, resume, r.step);
    LoopStarts(c, resume, r.step, before, run.View(), attempt.value);
    outcome := TrainToBudget(run, c, l, resume, r.step, r.model, attempt.value, world, before);
    SomethingStays(prepared, run.completed);
    UndisturbedCompletes(c, resume, world, r.step, before, run.View(), outcome);
  }

  lemma LoopStarts<M>(c: Config, resume: bool, start: nat, before: Output<M>, now: Output<M>, attempt: nat)
    requires ValidConfig(c) && OnGrid(c, start) && GridSaved(c, before.completed, now.completed, start, start) && now.status == before.status
    requires now.heartbeat != [] && now.heartbeat[..|now.heartbeat| - 1] == before.heartbeat
    requires Opens(before.heartbeat, now.heartbeat[|now.heartbeat| - 1], resume, start) && now.heartbeat[|now.heartbeat| - 1].attempt == attempt
    ensures InLoop(c, resume, start, before, now, attempt, start, start)
  {
    hide Opens, GridSaved;
    NextMultiple(start, c.logEvery);
  }

  lemma UndisturbedCompletes<M>(c: Config, resume: bool, world: nat -> World, start: nat, before: Output<M>,
                                after: Output<M>, outcome: Outcome<M>)
    requires ValidConfig(c) && start <= c.totalSteps && EndsAsDisturbed(c, resume, world, start, before, after, outcome)
    ensures Uninterrupted(world) ==> outcome.Completed?
  {
    hide Disturbed;
  }

  lemma SomethingStays<M>(before: map<nat, M>, after: map<nat, M>)
    requires Extends(before, after)
    ensures before != map[] ==> after != map[]
  {
    if before != map[] {
      var n :| n in before;
      assert n in after;
    }
  }

  lemma OpensFirst(before: seq<Beat>, after: seq<Beat>, resume: bool, step: nat)
    requires after != [] && after[..|after| - 1] == before && Opens(before, after[|after| - 1], resume, step)
    ensures before <= after && (before == [] && step == 0 ==> after == [FirstBeat(resume)])
  {
  }

  lemma EmptyLogFromStart<M>(completed: map<nat, M>, beats: seq<Beat>)
    requires CheckpointsLogged(completed, beats) && beats == []
    ensures forall n :: n in completed ==> n == 0
  {
  }

  // ----- any schedule of attempts -----

  datatype Attempt = Attempt(resume: bool, world: nat -> World)

  /** The first attempt that starts fresh. */
  function FirstFresh(attempts: seq<Attempt>): (f: nat)
    ensures f <= |attempts| && forall i :: 0 <= i < f ==> attempts[i].resume
    ensures f < |attempts| ==> !attempts[f].resume
  {
    if attempts == [] || !attempts[0].resume then 0 else 1 + FirstFresh(attempts[1..])
  }

  /** The run got its first checkpoint: its fresh attempt was not disturbed before that. */
  predicate Begun(attempts: seq<Attempt>) {
    FirstFresh(attempts) < |attempts| && attempts[FirstFresh(attempts)].world(0) == Go
  }

  /** What attempt `i` may come to, as far as the attempts before it decide. */
  ghost predicate AttemptFits<M>(c: Config, l: Learner<M>, attempts: seq<Attempt>, i: nat, outcome: Outcome<M>)
    requires i < |attempts|
  {
    var f := FirstFresh(attempts);
    && (outcome.Completed? ==> Begun(attempts) && outcome.model == Ideal(l, c.totalSteps) && outcome.optimizerStep == c.totalSteps)
    && (attempts[i].resume != (i > f) ==> outcome.Failed?)
    && (Begun(attempts) && i >= f && attempts[i].resume == (i > f) && Uninterrupted(attempts[i].world) ==> outcome.Completed?)
  }

  /** Each attempt does what its kind and its world say to the output as the one before left it. */
  ghost predicate Chained<M>(c: Config, attempts: seq<Attempt>, outcomes: seq<Outcome<M>>, views: seq<Output<M>>)
    requires ValidConfig(c)
  {
    && |outcomes| <= |attempts| && |views| == |outcomes| + 1
    && forall i :: 0 <= i < |outcomes| ==>
         AttemptDoes(c, attempts[i].resume, i > FirstFresh(attempts), attempts[i].world, views[i], views[i + 1], outcomes[i])
  }

  lemma {:induction false} ChainMore<M>(c: Config, attempts: seq<Attempt>, outcomes: seq<Outcome<M>>,
                                        views: seq<Output<M>>, outcome: Outcome<M>, view: Output<M>)
    requires ValidConfig(c) && Chained(c, attempts, outcomes, views) && |outcomes| < |attempts|
    requires var n := |outcomes|;
      AttemptDoes(c, attempts[n].resume, n > FirstFresh(attempts), attempts[n].world, views[n], view, outcome)
    ensures Chained(c, attempts, outcomes + [outcome], views + [view])
  {
    hide ValidConfig, AttemptDoes, FirstFresh;
  }

  /** What the output holds after the first `n` attempts: whether it was created, whether it has a checkpoint, and
      which record opens its log. */
  ghost predicate StandsAt(created: bool, saved: bool, beats: seq<Beat>, attempts: seq<Attempt>, n: nat) {
    var f := FirstFresh(attempts);
    && (created <==> n > f)
    && (saved <==> n > f && Begun(attempts))
    && (n > f && Begun(attempts) && attempts[f].world(1) == Go ==> beats != [])
    && (beats != [] ==> Begun(attempts) && beats[0] == FirstBeat(attempts[f].world(1) != Go))
  }

  /** What an attempt does to that, by its contract. */
  ghost predicate Moved(a: Attempt, created: bool, saved: bool, beats: seq<Beat>, created': bool, saved': bool,
                        beats': seq<Beat>) {
    && (a.resume != created ==> created' == created && saved' == saved && beats' == beats)
    && (a.resume == created ==> created')
    && (a.resume == created && !saved && (a.resume || a.world(0) != Go) ==> !saved' && beats' == beats)
    && (!a.resume && !created && a.world(0) == Go ==> saved')
    && (saved ==> saved') && beats <= beats'
    && (!a.resume && !created ==> (beats' != [] <==> a.world(0) == Go && a.world(1) == Go))
    && (beats == [] && beats' != [] ==> beats'[0] == FirstBeat(a.resume))
  }

  lemma NothingStands(attempts: seq<Attempt>)
    ensures StandsAt(false, false, [], attempts, 0)
  {
  }

  lemma NextStands(attempts: seq<Attempt>, n: nat, created: bool, saved: bool, beats: seq<Beat>, created': bool,
                   saved': bool, beats': seq<Beat>)
    requires n < |attempts| && StandsAt(created, saved, beats, attempts, n)
    requires !created ==> beats == []
    requires Moved(attempts[n], created, saved, beats, created', saved', beats')
    ensures StandsAt(created', saved', beats', attempts, n + 1)
  {
    hide FirstBeat;
    var f := FirstFresh(attempts);
    assert n < f ==> attempts[n].resume;
    assert beats != [] ==> beats'[0] == beats[0];
  }

  lemma {:induction false} OutcomeFits<M>(c: Config, l: Learner<M>, attempts: seq<Attempt>, n: nat, created: bool,
                                          saved: bool, beats: seq<Beat>, outcome: Outcome<M>)
    requires n < |attempts| && StandsAt(created, saved, beats, attempts, n)
    requires outcome.Completed? ==> outcome.model == Ideal(l, c.totalSteps) && outcome.optimizerStep == c.totalSteps
    requires Uninterrupted(attempts[n].world) && (if attempts[n].resume then saved else !created) ==> outcome.Completed?
    requires attempts[n].resume != created ==> outcome.Failed?
    requires attempts[n].resume == created && !saved && (attempts[n].resume || attempts[n].world(0) != Go) ==> !outcome.Completed?
    ensures AttemptFits(c, l, attempts, n, outcome)
  {
    hide FirstBeat, Ideal;
    var f := FirstFresh(attempts);
    assert n < f ==> attempts[n].resume;
    assert n == f ==> !attempts[n].resume;
  }

  /** Any sequence of fresh starts and resumes, disturbed anywhere. Once the fresh start has saved its first
      checkpoint every undisturbed resume ends like the uninterrupted run; if it was disturbed before that, no
      attempt on this output can ever complete. The log opens with the fresh attempt's record, or, if that attempt
      died right after its first checkpoint, with the resume from step 0 that is numbered 1. */
  method RunSchedule<M>(run: NoZRun<M>, c: Config, l: Learner<M>, attempts: seq<Attempt>) returns (outcomes: seq<Outcome<M>>)
    requires ValidConfig(c) && run.Sound(c, l) && !run.created
    modifies run
    ensures run.Sound(c, l) && StandsAt(run.created, run.completed != map[], run.heartbeat, attempts, |attempts|)
    ensures |outcomes| == |attempts| && forall i :: 0 <= i < |attempts| ==> AttemptFits(c, l, attempts, i, outcomes[i])
    ensures exists views: seq<Output<M>> ::
              Chained(c, attempts, outcomes, views) && views[0] == old(run.View()) && views[|attempts|] == run.View()
  {
    hide ValidConfig, StoreFits, LogFits, CheckpointsLogged, Ideal, StandsAt, AttemptFits, Uninterrupted, FirstBeat, AttemptDoes, Chained, Extends;
    outcomes := [];
    ghost var views := [run.View()];
    NothingChained(c, attempts, views);
    NothingStands(attempts);
    for n := 0 to |attempts|
      invariant run.Sound(c, l) && StandsAt(run.created, run.completed != map[], run.heartbeat, attempts, n)
      invariant |outcomes| == n && forall i :: 0 <= i < n ==> AttemptFits(c, l, attempts, i, outcomes[i])
      invariant Chained(c, attempts, outcomes, views) && |views| == n + 1 && views[0] == old(run.View()) && views[n] == run.View()
    {
      CreatedAt(run.created, run.completed != map[], run.heartbeat, attempts, n);
      ghost var created, saved, beats := run.created, run.completed != map[], run.heartbeat;
      var outcome := RunAttempt(run, c, l, attempts[n].resume, attempts[n].world);
      RefusedDoes(c, attempts[n], created, views[n], run.View(), outcome);
      NextStands(attempts, n, created, saved, beats, run.created, run.completed != map[], run.heartbeat);
      OutcomeFits(c, l, attempts, n, created, saved, beats, outcome);
      ChainMore(c, attempts, outcomes, views, outcome, run.View());
      outcomes, views := outcomes + [outcome], views + [run.View()];
    }
  }

  lemma RefusedDoes<M>(c: Config, a: Attempt, created: bool, before: Output<M>, after: Output<M>, outcome: Outcome<M>)
    requires ValidConfig(c) && AttemptDoes(c, a.resume, created, a.world, before, after, outcome)
    ensures a.resume != created ==> outcome == Failed && after == before
  {
  }

  lemma NothingChained<M>(c: Config, attempts: seq<Attempt>, views: seq<Output<M>>)
    requires ValidConfig(c) && |views| == 1
    ensures Chained(c, attempts, [], views)
  {
  }

  lemma {:induction false} CreatedAt(created: bool, saved: bool, beats: seq<Beat>, attempts: seq<Attempt>, n: nat)
    requires StandsAt(created, saved, beats, attempts, n)
    ensures created <==> n > FirstFresh(attempts)
  {
  }
}
