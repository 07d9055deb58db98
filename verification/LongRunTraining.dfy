/** Four-phase training with crashes, pauses and resumes from the latest checkpoint. */
module LongRunTraining {
  import opened ActionChunks
  import opened LongRunCursor

  /** Models with their optimizers, one per phase. */
  datatype Components<M> = Components(encoder: M, selector: M, conditional: M, noZ: M)

  /** What a policy is told about the future: the cached latents, or zeros in their place. */
  datatype Guidance<+L> = Cached(latents: L) | Zeros

  /** What training does to a component. `seed(name, stream, step)` is the stateless per-step seed; a batch is drawn
      from a seed alone, contrastive ones for the encoder and for the others plain ones, of episode starts only or
      of all windows. */
  datatype Learner<!M, !L, !B> = Learner(
    initial: Components<M>,
    encode: M -> L,
    warmStart: (M, L) -> M,
    seed: (string, string, nat) -> int,
    contrastive: int -> B,
    sample: (bool, int) -> B,
    trainEncoder: (B, int, M) -> M,
    trainSelector: (B, L, M) -> M,
    trainPolicy: (B, Guidance<L>, int, M) -> M)

  function Component<M>(c: Components<M>, phase: Phase): M
    requires phase != Complete
  {
    match phase
    case FutureEncoder => c.encoder
    case Selector => c.selector
    case ConditionalPolicy => c.conditional
    case NoZPolicy => c.noZ
  }

  function WithComponent<M>(c: Components<M>, phase: Phase, m: M): Components<M>
    requires phase != Complete
  {
    match phase
    case FutureEncoder => c.(encoder := m)
    case Selector => c.(selector := m)
    case ConditionalPolicy => c.(conditional := m)
    case NoZPolicy => c.(noZ := m)
  }

  /** Both policies draw the same seeds. */
  function PhaseSeedName(phase: Phase): string {
    match phase
    case FutureEncoder => "future_encoder"
    case Selector => "selector"
    case ConditionalPolicy => "policy_equal_budget"
    case NoZPolicy => "policy_equal_budget"
    case Complete => "complete"
  }

  /** One training step of a phase; every phase but the encoder's needs the latent cache. Both policies are trained
      by the same trainer, on the same windows. */
  function TrainStep<M, L, B>(l: Learner<M, L, B>, phase: Phase, localStep: nat, m: M, cache: Option<L>): M
    requires phase != Complete && (phase != FutureEncoder ==> cache.Some?)
  {
    var batch := l.seed(PhaseSeedName(phase), "batch", localStep);
    var noise := l.seed(PhaseSeedName(phase), "model", localStep);
    match phase
    case FutureEncoder => l.trainEncoder(l.contrastive(batch), noise, m)
    case Selector => l.trainSelector(l.sample(true, batch), cache.value, m)
    case ConditionalPolicy => l.trainPolicy(l.sample(false, batch), Cached(cache.value), noise, m)
    case NoZPolicy => l.trainPolicy(l.sample(false, batch), Zeros, noise, m)
  }

  // ----- the uninterrupted run, with no cache, flag or checkpoint -----

  /** The components after `n` steps of one run that nothing interrupts. */
  function Ideal<M, L, B>(t: Training, l: Learner<M, L, B>, n: nat): Components<M>
    requires ValidTraining(t) && n <= TotalSteps(t)
  {
    if n == 0 then l.initial
    else
      CursorWalk(t, n - 1);
      IdealStep(t, l, CursorAt(t, n - 1), Ideal(t, l, n - 1))
  }

  function IdealStep<M, L, B>(t: Training, l: Learner<M, L, B>, at: Cursor, c: Components<M>): Components<M>
    requires NextPhase(t, at).Some? && NextPhase(t, at) != Some(Complete)
  {
    var phase := NextPhase(t, at).value;
    if phase == FutureEncoder then c.(encoder := TrainStep(l, phase, at.encoder, c.encoder, None))
    else
      var cache := l.encode(c.encoder);
      var m := if phase == Selector && at.selector == 0 then l.warmStart(c.selector, cache) else Component(c, phase);
      WithComponent(c, phase, TrainStep(l, phase, LocalStep(at, phase), m, Some(cache)))
  }

  // ----- durable checkpoints -----

  datatype Checkpoint<M> = Checkpoint(phase: Phase, steps: Cursor, components: Components<M>)

  function IdealCheckpoint<M, L, B>(t: Training, l: Learner<M, L, B>, n: nat): Checkpoint<M>
    requires ValidTraining(t) && n <= TotalSteps(t)
  {
    CursorWalk(t, n);
    Checkpoint(NextPhase(t, CursorAt(t, n)).value, CursorAt(t, n), Ideal(t, l, n))
  }

  /** The directory of completed checkpoints, by sequence number. */
  class Stage0CheckpointManager<M> {
    var completed: map<nat, Checkpoint<M>>

    constructor ()
      ensures completed == map[]
    {
      completed := map[];
    }

    /** The commit is one rename; an existing checkpoint is never overwritten. */
    method Save(sequence: nat, checkpoint: Checkpoint<M>) returns (ok: bool)
      modifies this
      ensures ok <==> sequence !in old(completed)
      ensures completed == if ok then old(completed)[sequence := checkpoint] else old(completed)
    {
      ok := sequence !in completed;
      if ok {
        completed := completed[sequence := checkpoint];
      }
    }

    /** The last name in sorted order. */
    method LatestCheckpoint() returns (latest: Option<nat>)
      ensures latest.None? <==> completed == map[]
      ensures latest.Some? ==> latest.value in completed && forall n :: n in completed ==> n <= latest.value
    {
      var rest := completed.Keys;
      latest := None;
      while rest != {}
        invariant rest <= completed.Keys
        invariant latest.None? ==> rest == completed.Keys
        invariant latest.Some? ==> latest.value in completed && forall n :: n in completed && n !in rest ==> n <= latest.value
        decreases rest
      {
        var n :| n in rest;
        latest := if latest.None? || latest.value < n then Some(n) else latest;
        rest := rest - {n};
      }
    }
  }

  /** Every completed checkpoint is the uninterrupted run's, and none skips a step after which
      the loop saves. */
  ghost predicate Sound<M, L, B>(t: Training, l: Learner<M, L, B>, store: map<nat, Checkpoint<M>>)
    requires ValidTraining(t)
  {
    && (forall n :: n in store ==> n <= TotalSteps(t) && store[n] == IdealCheckpoint(t, l, n))
    && (forall n: nat, k: nat :: n in store && k < n && SaveDue(t, k) ==> k in store)
  }

  // ----- one process -----

  /** The outside world, consulted at every point where it can matter: entry 0 before anything is saved, entry
      2 j + 1 when j steps are done, entry 2 j + 2 when the next one is trained and not yet saved. A stop request stays
      until it is noticed, between two steps. */
  datatype Event = Go | Stop | Crash

  ghost predicate Uninterrupted(plan: nat -> Event) {
    forall k :: plan(k) == Go
  }

  datatype Outcome<M> =
    | Crashed
    | Refused
    | Paused(at: nat)
    | Completed(cursor: Cursor, trainerSteps: Cursor, components: Components<M>)

  /** Prepares the cache and the selector if the phase needs it, then trains. */
  method TrainOneStep<M, L, B>(t: Training, l: Learner<M, L, B>, cursor: Cursor, phase: Phase, components: Components<M>,
                            latentCache: Option<L>, warmStarted: bool)
    returns (trained: Components<M>, cache: Option<L>, warm: bool)
    requires NextPhase(t, cursor) == Some(phase) && phase != Complete
    requires latentCache.Some? ==> phase != FutureEncoder && latentCache.value == l.encode(components.encoder)
    requires warmStarted <==> cursor.selector > 0
    ensures trained == IdealStep(t, l, cursor, components)
    ensures cache == if phase == FutureEncoder then None else Some(l.encode(trained.encoder))
    ensures warm <==> cursor.selector > 0 || phase == Selector
  {
    trained, cache, warm := components, latentCache, warmStarted;
    if phase != FutureEncoder && cache.None? {
      cache := Some(l.encode(trained.encoder));
    }
    if phase == Selector && !warm && cache.Some? {
      trained := trained.(selector := l.warmStart(trained.selector, cache.value));
      warm := true;
    }
    trained := WithComponent(trained, phase, TrainStep(l, phase, LocalStep(cursor, phase), Component(trained, phase), cache));
  }

  /** Saves unless the last checkpoint is already of this step. */
  method SaveCheckpoint<M, L, B>(manager: Stage0CheckpointManager<M>, t: Training, ghost l: Learner<M, L, B>, cursor: Cursor,
                              components: Components<M>, lastCheckpointStep: int) returns (ok: bool, last: int)
    requires ValidTraining(t) && Sound(t, l, manager.completed)
    requires Durable(t, manager.completed, cursor, lastCheckpointStep)
    requires components == Ideal(t, l, GlobalStep(cursor))
    requires forall k: nat :: SaveDue(t, k) && k < GlobalStep(cursor) ==> k in manager.completed
    modifies manager
    ensures ok && last == GlobalStep(cursor) && Sound(t, l, manager.completed)
    ensures manager.completed == old(manager.completed)[GlobalStep(cursor) := IdealCheckpoint(t, l, GlobalStep(cursor))]
    ensures Durable(t, manager.completed, cursor, last)
  {
    CursorWalk(t, GlobalStep(cursor));
    if GlobalStep(cursor) == lastCheckpointStep {
      assert manager.completed == manager.completed[GlobalStep(cursor) := manager.completed[GlobalStep(cursor)]];
      return true, lastCheckpointStep;
    }
    ok := manager.Save(GlobalStep(cursor), Checkpoint(NextPhase(t, cursor).value, cursor, components));
    last := GlobalStep(cursor);
  }

  /** The cursor is on its track, and the newest checkpoint is `last`. */
  ghost predicate Durable<M>(t: Training, store: map<nat, Checkpoint<M>>, cursor: Cursor, last: int)
    requires ValidTraining(t)
  {
    && GlobalStep(cursor) <= TotalSteps(t) && cursor == CursorAt(t, GlobalStep(cursor))
    && last <= GlobalStep(cursor)
    && (forall n :: n in store ==> n <= last)
    && (last >= 0 ==> last in store)
  }

  /** Everything up to and including the cursor that must be durable is. */
  ghost predicate DueSaved<M>(t: Training, store: map<nat, Checkpoint<M>>, upTo: nat)
    requires ValidTraining(t)
  {
    forall k: nat :: SaveDue(t, k) && k <= upTo ==> k in store
  }

  ghost predicate FirstEvent(plan: nat -> Event, k: nat) {
    plan(k) != Go && forall i: nat :: i < k ==> plan(i) == Go
  }

  /** How a run from step `start` ends, read off the plan: the first entry that is not `Go` decides. A crash ends it if
      there is still a step to take. A stop pauses it at the step it has reached, unless that is the last one or the
      process dies before it notices. */
  ghost predicate EndsAsPlanned<M>(plan: nat -> Event, start: nat, total: nat, r: Outcome<M>)
    requires start <= total
  {
    && (Uninterrupted(plan) ==> r.Completed?)
    && forall k: nat :: FirstEvent(plan, k) ==>
         if plan(k) == Crash then (if k <= 2 * (total - start) then r.Crashed? else r.Completed?)
         else if k / 2 >= total - start then r.Completed?
         else if k % 2 == 0 && plan(k + 1) == Crash then r.Crashed?
         else r == Paused(start + k / 2)
  }

  /** Exactly the due steps from `start` up to `upTo` have been saved. */
  ghost predicate SavedThrough<M>(t: Training, before: map<nat, Checkpoint<M>>, after: map<nat, Checkpoint<M>>,
                                  start: nat, upTo: int)
    requires ValidTraining(t)
  {
    forall n: nat :: n in after <==> n in before || (start <= n <= upTo && SaveDue(t, n))
  }

  /** What a run from `start` has saved: the due steps it trained, and the step it paused at. */
  ghost predicate SavedAsPlanned<M>(t: Training, plan: nat -> Event, start: nat, before: map<nat, Checkpoint<M>>,
                                    after: map<nat, Checkpoint<M>>, r: Outcome<M>)
    requires ValidTraining(t)
  {
    && (r.Completed? ==> SavedThrough(t, before, after, start, TotalSteps(t)))
    && (r.Paused? ==>
          && r.at in after && start <= r.at
          && forall n: nat :: n in after <==> n in before || n == r.at || (start <= n <= r.at && SaveDue(t, n)))
    && (r.Crashed? ==> forall k: nat :: FirstEvent(plan, k) ==>
          SavedThrough(t, before, after, start, if plan(k) == Crash then (if k == 0 then -1 else start + (k - 1) / 2) else start + k / 2))
  }

  /** One run of the program: fresh or from the latest checkpoint, until it completes, pauses or dies. */
  method RunTraining<M, L, B>(manager: Stage0CheckpointManager<M>, t: Training, l: Learner<M, L, B>, resume: bool,
                              plan: nat -> Event)
    returns (r: Outcome<M>)
    requires ValidTraining(t) && Sound(t, l, manager.completed)
    modifies manager
    ensures Sound(t, l, manager.completed)
    ensures Extends(old(manager.completed), manager.completed)
    ensures r.Refused? <==> !resume && old(manager.completed) != map[] && plan(0) != Crash
    ensures r.Refused? ==> manager.completed == old(manager.completed)
    ensures r.Completed? ==> Finished(t, l, manager.completed, r)
    ensures !r.Refused? && (resume || old(manager.completed) == map[]) ==>
              exists start: nat ::
                && start <= TotalSteps(t) && IsStart(old(manager.completed), start)
                && EndsAsPlanned(plan, start, TotalSteps(t), r)
                && SavedAsPlanned(t, plan, start, old(manager.completed), manager.completed, r)
    ensures r.Crashed? && !resume && old(manager.completed) != map[] ==> manager.completed == old(manager.completed)
  {
    hide ValidTraining, NextPhase, OnTrack, Sound, EndsAsPlanned, SavedAsPlanned, Finished, GlobalStep, TotalSteps;
    var latest := manager.LatestCheckpoint();
    ghost var before := manager.completed;
    ghost var from := if latest.None? then 0 else latest.value;
    StartsInRange(t, l, before, from);
    if plan(0) == Crash {
      CrashedFirst(t, plan, from, before);
      return Crashed;
    }
    var start: Option<Process<M, L>>;
    if resume && latest.Some? {
      start := Resume(manager, t, l, latest.value);
    } else {
      start := StartFresh(manager, t, l);
    }
    if start.None? {
      return Refused;
    }
    ghost var begun := manager.completed;
    r := TrainFrom(manager, t, l, start.value, plan);
    OpenedSaves(t, plan, from, before, begun, manager.completed, r);
  }

  /** A process starts from the newest checkpoint, or from nothing. */
  ghost predicate IsStart<M>(store: map<nat, Checkpoint<M>>, start: nat) {
    if store == map[] then start == 0 else start in store && forall n :: n in store ==> n <= start
  }

  lemma StartsInRange<M, L, B>(t: Training, l: Learner<M, L, B>, store: map<nat, Checkpoint<M>>, start: nat)
    requires ValidTraining(t) && Sound(t, l, store) && IsStart(store, start)
    ensures start <= TotalSteps(t)
  {
    hide IdealCheckpoint, SaveDue;
  }

  lemma CrashedFirst<M>(t: Training, plan: nat -> Event, start: nat, store: map<nat, Checkpoint<M>>)
    requires ValidTraining(t) && start <= TotalSteps(t) && plan(0) == Crash
    ensures EndsAsPlanned<M>(plan, start, TotalSteps(t), Crashed) && SavedAsPlanned(t, plan, start, store, store, Crashed)
  {
    hide SaveDue;
    forall k: nat | FirstEvent(plan, k) ensures k == 0 {
    }
  }

  /** The checkpoint of step 0 that a fresh process opens with is one of the due ones. */
  lemma OpenedSaves<M>(t: Training, plan: nat -> Event, start: nat, before: map<nat, Checkpoint<M>>,
                       begun: map<nat, Checkpoint<M>>, 
                       after: map<nat, Checkpoint<M>>, r: Outcome<M>)
    requires ValidTraining(t) && IsStart(before, start) && plan(0) != Crash
    requires if before == map[] then OnlyStart(begun) else begun == before
    requires SavedAsPlanned(t, plan, start, begun, after, r)
    ensures SavedAsPlanned(t, plan, start, before, after, r)
  {
    hide EndsAsPlanned;
    if before == map[] {
      assert SaveDue(t, 0);
      hide SaveDue;
      if r.Crashed? {
        forall k: nat | FirstEvent(plan, k) ensures k > 0 || plan(k) != Crash {
        }
      }
    }
  }

  /** What a fresh process starts from: no step trained, nothing cached, the checkpoint of step 0. */
  function FreshProcess<M, L, B>(l: Learner<M, L, B>): Process<M, L> {
    Process(Cursor(0, 0, 0, 0), Cursor(0, 0, 0, 0), l.initial, None, false, 0)
  }

  lemma FreshIsSound<M, L, B>(t: Training, l: Learner<M, L, B>, store: map<nat, Checkpoint<M>>)
    requires ValidTraining(t) && store == map[0 := IdealCheckpoint(t, l, 0)]
    ensures Sound(t, l, store)
  {
    hide IdealCheckpoint, SaveDue;
  }

  ghost predicate OnlyStart<M>(store: map<nat, Checkpoint<M>>) {
    forall n :: n in store <==> n == 0
  }

  lemma FreshIsDurable<M>(t: Training, store: map<nat, Checkpoint<M>>)
    requires ValidTraining(t) && OnlyStart(store)
    ensures Durable(t, store, Cursor(0, 0, 0, 0), 0)
  {
    hide Durable, CursorAt, ValidTraining;
    CursorStart(t);
    NothingTrained(t, store, Cursor(0, 0, 0, 0));
  }

  lemma NothingTrained<M>(t: Training, store: map<nat, Checkpoint<M>>, start: Cursor)
    requires ValidTraining(t) && OnlyStart(store) && CursorAt(t, 0) == start && GlobalStep(start) == 0
    ensures Durable(t, store, start, 0)
  {
    hide CursorAt, ValidTraining, GlobalStep;
  }

  lemma FreshIsSaved<M>(t: Training, store: map<nat, Checkpoint<M>>)
    requires ValidTraining(t) && OnlyStart(store)
    ensures DueSaved(t, store, 0)
  {
    hide SaveDue, ValidTraining;
  }

  lemma {:induction false} FreshIsIdeal<M, L, B>(t: Training, l: Learner<M, L, B>)
    requires ValidTraining(t)
    ensures l.initial == Ideal(t, l, 0)
  {
    hide CursorAt, NextPhase, IdealStep;
  }

  lemma FreshOnTrack<M, L, B>(t: Training, l: Learner<M, L, B>, store: map<nat, Checkpoint<M>>)
    requires ValidTraining(t) && store == map[0 := IdealCheckpoint(t, l, 0)]
    ensures OnTrack(t, l, store, FreshProcess(l))
  {
    hide IdealCheckpoint, CursorAt, NextPhase, Ideal, Sound, Durable, DueSaved;
    FreshIsSound(t, l, store);
    FreshIsDurable(t, store);
    FreshIsSaved(t, store);
    FreshIsIdeal(t, l);
  }

  lemma NoSteps(c: Cursor)
    requires c.encoder == 0 && c.selector == 0 && c.conditional == 0 && c.noZ == 0
    ensures GlobalStep(c) == 0
  {
  }

  /** The first checkpoint; refused when the output already holds one. */
  method StartFresh<M, L, B>(manager: Stage0CheckpointManager<M>, t: Training,
                             l: Learner<M, L, B>) returns (p: Option<Process<M, L>>)
    requires ValidTraining(t) && Sound(t, l, manager.completed)
    modifies manager
    ensures p.None? <==> old(manager.completed) != map[]
    ensures p.None? ==> manager.completed == old(manager.completed)
    ensures p.Some? ==> OnTrack(t, l, manager.completed, p.value) && GlobalStep(p.value.cursor) == 0 && OnlyStart(manager.completed)
  {
    hide OnTrack, CursorAt, GlobalStep;
    var cursor := Cursor(0, 0, 0, 0);
    CursorStart(t);
    NoSteps(cursor);
    var newest := manager.LatestCheckpoint();
    assert newest.Some? && newest.value > 0 ==> 0 in manager.completed;
    var ok := manager.Save(0, Checkpoint(NextPhase(t, cursor).value, cursor, l.initial));
    if !ok {
      return None;
    }
    assert manager.completed == map[0 := IdealCheckpoint(t, l, 0)];
    FreshOnTrack(t, l, manager.completed);
    p := Some(FreshProcess(l));
  }

  method Resume<M, L, B>(manager: Stage0CheckpointManager<M>, t: Training, l: Learner<M, L, B>,
                         latest: nat) returns (p: Option<Process<M, L>>)
    requires ValidTraining(t) && Sound(t, l, manager.completed)
    requires latest in manager.completed && forall n :: n in manager.completed ==> n <= latest
    ensures p.Some? && OnTrack(t, l, manager.completed, p.value) && GlobalStep(p.value.cursor) == latest
  {
    var loaded := manager.completed[latest];
    CursorWalk(t, latest);
    if NextPhase(t, loaded.steps) != Some(loaded.phase) {
      return None;
    }
    p := Some(Process(loaded.steps, loaded.steps, loaded.components, None, loaded.steps.selector > 0, GlobalStep(loaded.steps)));
  }

  /** No checkpoint is ever changed or lost. */
  ghost predicate Extends<M>(before: map<nat, Checkpoint<M>>, after: map<nat, Checkpoint<M>>) {
    forall n :: n in before ==> n in after && after[n] == before[n]
  }

  /** What the loop of one process keeps: its models are the uninterrupted run's, its cache is the encoder's,
      and the warm start has happened exactly if a selector step has. */
  ghost predicate OnTrack<M, L, B>(t: Training, l: Learner<M, L, B>, store: map<nat, Checkpoint<M>>, p: Process<M, L>)
    requires ValidTraining(t)
  {
    && Sound(t, l, store)
    && Durable(t, store, p.cursor, p.lastCheckpointStep) && p.lastCheckpointStep >= 0
    && DueSaved(t, store, GlobalStep(p.cursor))
    && p.trainerSteps == p.cursor && p.components == Ideal(t, l, GlobalStep(p.cursor))
    && (p.selectorWarmStarted <==> p.cursor.selector > 0)
    && (p.latentCache.Some? ==> p.cursor.encoder == t.encoderSteps && p.latentCache.value == l.encode(p.components.encoder))
  }

  /** The variables of the training loop. */
  datatype Process<M, L> = Process(cursor: Cursor, trainerSteps: Cursor, components: Components<M>, latentCache: Option<L>,
                                   selectorWarmStarted: bool, lastCheckpointStep: int)

  /** One trained step, in memory only. */
  method TrainInMemory<M, L, B>(t: Training, l: Learner<M, L, B>, ghost store: map<nat, Checkpoint<M>>, p: Process<M, L>)
    returns (q: Process<M, L>)
    requires ValidTraining(t) && OnTrack(t, l, store, p) && NextPhase(t, p.cursor) != Some(Complete)
    ensures GlobalStep(q.cursor) == GlobalStep(p.cursor) + 1 <= TotalSteps(t)
    ensures q.cursor == CursorAt(t, GlobalStep(q.cursor)) && q.lastCheckpointStep == p.lastCheckpointStep
    ensures q.trainerSteps == q.cursor && q.components == Ideal(t, l, GlobalStep(q.cursor))
    ensures q.selectorWarmStarted <==> q.cursor.selector > 0
    ensures q.latentCache.Some? ==> q.cursor.encoder == t.encoderSteps && q.latentCache.value == l.encode(q.components.encoder)
  {
    hide CursorAt, Sound, DueSaved, IdealStep, Boundary;
    CursorWalk(t, GlobalStep(p.cursor));
    var phase := NextPhase(t, p.cursor).value;
    var components, cache, warm := TrainOneStep(t, l, p.cursor, phase, p.components, p.latentCache, p.selectorWarmStarted);
    var cursor := Advance(t, p.cursor, phase).value;
    q := Process(cursor, Bump(p.trainerSteps, phase), components, cache, warm, p.lastCheckpointStep);
  }

  /** One pass of the loop body; a crash between training and the checkpoint loses the step. */
  method TrainIteration<M, L, B>(manager: Stage0CheckpointManager<M>, t: Training, l: Learner<M, L, B>,
                                 p: Process<M, L>, crash: bool)
    returns (q: Process<M, L>)
    requires ValidTraining(t) && OnTrack(t, l, manager.completed, p)
    requires NextPhase(t, p.cursor) != Some(Complete)
    modifies manager
    ensures crash ==> manager.completed == old(manager.completed)
    ensures !crash ==> OnTrack(t, l, manager.completed, q) && Extends(old(manager.completed), manager.completed)
    ensures !crash ==> SavedThrough(t, old(manager.completed), manager.completed, GlobalStep(q.cursor), GlobalStep(q.cursor))
    ensures GlobalStep(q.cursor) == GlobalStep(p.cursor) + 1 <= TotalSteps(t)
  {
    hide CursorAt, IdealCheckpoint, Ideal, Sound, IdealStep;
    q := TrainInMemory(t, l, manager.completed, p);
    if crash {
      return;
    }
    CursorWalk(t, GlobalStep(p.cursor));
    CursorWalk(t, GlobalStep(q.cursor));
    if GlobalStep(q.cursor) % t.checkpointEvery == 0 || NextPhase(t, q.cursor) != NextPhase(t, p.cursor) {
      var _, last := SaveCheckpoint(manager, t, l, q.cursor, q.components, p.lastCheckpointStep);
      q := q.(lastCheckpointStep := last);
    }
  }

  lemma TrackPlace<M, L, B>(t: Training, l: Learner<M, L, B>, store: map<nat, Checkpoint<M>>, p: Process<M, L>)
    requires ValidTraining(t) && OnTrack(t, l, store, p)
    ensures GlobalStep(p.cursor) <= TotalSteps(t)
    ensures NextPhase(t, p.cursor).Some? && (NextPhase(t, p.cursor) == Some(Complete) <==> GlobalStep(p.cursor) == TotalSteps(t))
  {
    hide CursorAt, IdealCheckpoint, Ideal, Sound, DueSaved;
    CursorWalk(t, GlobalStep(p.cursor));
  }

  /** Saves the step the process has reached. */
  method SaveHere<M, L, B>(manager: Stage0CheckpointManager<M>, t: Training, ghost l: Learner<M, L, B>, p: Process<M, L>)
    requires ValidTraining(t) && OnTrack(t, l, manager.completed, p)
    modifies manager
    ensures Sound(t, l, manager.completed) && Extends(old(manager.completed), manager.completed)
    ensures manager.completed.Keys == old(manager.completed).Keys + {GlobalStep(p.cursor)}
    ensures DueSaved(t, manager.completed, GlobalStep(p.cursor))
  {
    hide CursorAt, Ideal, SaveDue;
    var _, _ := SaveCheckpoint(manager, t, l, p.cursor, p.components, p.lastCheckpointStep);
  }

  lemma TrackFinished<M, L, B>(t: Training, l: Learner<M, L, B>, begun: map<nat, Checkpoint<M>>,
                               store: map<nat, Checkpoint<M>>, p: Process<M, L>)
    requires ValidTraining(t) && OnTrack(t, l, begun, p) && GlobalStep(p.cursor) == TotalSteps(t) && DueSaved(t, store, TotalSteps(t))
    ensures Finished(t, l, store, Completed(p.cursor, p.trainerSteps, p.components)) && TotalSteps(t) in begun
  {
    hide CursorAt, IdealCheckpoint, Ideal, Sound;
    assert SaveDue(t, TotalSteps(t));
  }

  /** The training loop, from a checkpointed state. */
  method TrainFrom<M, L, B>(manager: Stage0CheckpointManager<M>, t: Training, l: Learner<M, L, B>,
                            start: Process<M, L>, plan: nat -> Event)
    returns (r: Outcome<M>)
    requires ValidTraining(t) && OnTrack(t, l, manager.completed, start) && GlobalStep(start.cursor) in manager.completed && plan(0) != Crash
    modifies manager
    ensures Sound(t, l, manager.completed) && Extends(old(manager.completed), manager.completed)
    ensures !r.Refused?
    ensures r.Completed? ==> Finished(t, l, manager.completed, r)
    ensures GlobalStep(start.cursor) <= TotalSteps(t) && EndsAsPlanned(plan, GlobalStep(start.cursor), TotalSteps(t), r)
    ensures SavedAsPlanned(t, plan, GlobalStep(start.cursor), old(manager.completed), manager.completed, r)
  {
    hide ValidTraining, NextPhase, CursorAt, EndsAsPlanned, SavedAsPlanned, SavedThrough, OnTrack, Finished, DueSaved, Sound, Extends, FirstEvent,
         AllGo, GlobalStep, TotalSteps;
    ghost var from, before := GlobalStep(start.cursor), manager.completed;
    var p, clock, stopping := start, 1, plan(0) == Stop;
    NothingSaved(t, before, from);
    TrackPlace(t, l, manager.completed, p);
    NothingLost(before);
    FirstGo(plan);
    while NextPhase(t, p.cursor) != Some(Complete)
      invariant OnTrack(t, l, manager.completed, p) && Extends(before, manager.completed)
      invariant clock == 2 * (GlobalStep(p.cursor) - from) + 1 && from <= GlobalStep(p.cursor)
      invariant if stopping then FirstEvent(plan, clock - 1) && plan(clock - 1) == Stop else AllGo(plan, clock)
      invariant SavedThrough(t, before, manager.completed, from, GlobalStep(p.cursor))
      decreases TotalSteps(t) - GlobalStep(p.cursor)
    {
      TrackPlace(t, l, manager.completed, p);
      ghost var done, saved := GlobalStep(p.cursor), manager.completed;
      NextEntry(plan, clock);
      NextEntry(plan, clock + 1);
      if plan(clock) == Crash {
        CrashEnds(t, plan, from, done, clock, before, saved);
        TrackSound(t, l, saved, p);
        return Crashed;
      }
      if stopping || plan(clock) == Stop {
        SaveHere(manager, t, l, p);
        ExtendsOn(before, saved, manager.completed);
        PauseEnds(t, plan, from, done, if stopping then clock - 1 else clock, before, saved, manager.completed);
        return Paused(GlobalStep(p.cursor));
      }
      var crash := plan(clock + 1) == Crash;
      stopping := plan(clock + 1) == Stop;
      TrackSound(t, l, saved, p);
      p := TrainIteration(manager, t, l, p, crash);
      if crash {
        CrashEnds(t, plan, from, done, clock + 1, before, saved);
        return Crashed;
      }
      ExtendsOn(before, saved, manager.completed);
      SavedMore(t, before, saved, manager.completed, from, done);
      clock := clock + 2;
    }
    TrackPlace(t, l, manager.completed, p);
    ghost var saved := manager.completed;
    SaveHere(manager, t, l, p);
    ExtendsOn(before, saved, manager.completed);
    TrackFinished(t, l, saved, manager.completed, p);
    CompletionEnds(t, plan, from, clock, before, saved, manager.completed, p.cursor, p.trainerSteps, p.components);
    r := Completed(p.cursor, p.trainerSteps, p.components);
  }

  ghost predicate AllGo(plan: nat -> Event, n: nat) {
    forall i: nat :: i < n ==> plan(i) == Go
  }

  lemma NextEntry(plan: nat -> Event, k: nat)
    ensures AllGo(plan, k) && plan(k) == Go ==> AllGo(plan, k + 1)
    ensures AllGo(plan, k) && plan(k) != Go ==> FirstEvent(plan, k)
  {
  }

  lemma FirstGo(plan: nat -> Event)
    ensures plan(0) == Go ==> AllGo(plan, 1)
    ensures plan(0) != Go ==> FirstEvent(plan, 0)
  {
  }

  lemma NothingLost<M>(store: map<nat, Checkpoint<M>>)
    ensures Extends(store, store)
  {
  }

  lemma ExtendsOn<M>(before: map<nat, Checkpoint<M>>, saved: map<nat, Checkpoint<M>>, after: map<nat, Checkpoint<M>>)
    requires Extends(before, saved) && Extends(saved, after)
    ensures Extends(before, after)
  {
  }

  lemma TrackSound<M, L, B>(t: Training, l: Learner<M, L, B>, store: map<nat, Checkpoint<M>>, p: Process<M, L>)
    requires ValidTraining(t) && OnTrack(t, l, store, p)
    ensures Sound(t, l, store)
  {
    hide Sound;
  }

  lemma NothingSaved<M>(t: Training, store: map<nat, Checkpoint<M>>, start: nat)
    requires ValidTraining(t) && start in store
    ensures SavedThrough(t, store, store, start, start)
  {
  }

  lemma SameSaved<M>(t: Training, before: map<nat, Checkpoint<M>>, saved: map<nat, Checkpoint<M>>,
                     after: map<nat, Checkpoint<M>>, start: nat, done: nat)
    requires ValidTraining(t) && SavedThrough(t, before, saved, start, done) && done in saved && after.Keys == saved.Keys + {done}
    ensures SavedThrough(t, before, after, start, done)
  {
    hide SaveDue;
    assert forall n :: n in after <==> n in saved;
  }

  lemma SavedMore<M>(t: Training, before: map<nat, Checkpoint<M>>, saved: map<nat, Checkpoint<M>>,
                     after: map<nat, Checkpoint<M>>, start: nat, done: nat)
    requires ValidTraining(t) && start <= done
    requires SavedThrough(t, before, saved, start, done) && SavedThrough(t, saved, after, done + 1, done + 1)
    ensures SavedThrough(t, before, after, start, done + 1)
  {
    hide SaveDue;
  }

  /** The first event is unique. */
  lemma OneFirstEvent(plan: nat -> Event, k: nat)
    requires FirstEvent(plan, k)
    ensures !Uninterrupted(plan) && forall i: nat :: FirstEvent(plan, i) ==> i == k
  {
    forall i: nat | FirstEvent(plan, i) ensures i == k {
      assert i < k ==> plan(i) == Go;
    }
  }

  lemma CrashEnds<M>(t: Training, plan: nat -> Event, start: nat, done: nat, k: nat, before: map<nat, Checkpoint<M>>,
                     after: map<nat, Checkpoint<M>>)
    requires ValidTraining(t) && start <= done < TotalSteps(t) && plan(k) == Crash && SavedThrough(t, before, after, start, done)
    requires k == 2 * (done - start) + 1 || k == 2 * (done - start) + 2
    requires FirstEvent(plan, k) || (k == 2 * (done - start) + 1 && FirstEvent(plan, k - 1) && plan(k - 1) == Stop)
    ensures EndsAsPlanned<M>(plan, start, TotalSteps(t), Crashed) && SavedAsPlanned(t, plan, start, before, after, Crashed)
  {
    hide SavedThrough, FirstEvent, Uninterrupted;
    var first := if FirstEvent(plan, k) then k else k - 1;
    OneFirstEvent(plan, first);
  }

  lemma PauseEnds<M>(t: Training, plan: nat -> Event, start: nat, done: nat, k: nat, before: map<nat, Checkpoint<M>>,
                     saved: map<nat, Checkpoint<M>>, after: map<nat, Checkpoint<M>>)
    requires ValidTraining(t) && start <= done < TotalSteps(t) && FirstEvent(plan, k) && plan(k) == Stop
    requires SavedThrough(t, before, saved, start, done) && done in after && after.Keys == saved.Keys + {done}
    requires k == 2 * (done - start) + 1 || (k == 2 * (done - start) && plan(k + 1) != Crash)
    ensures EndsAsPlanned<M>(plan, start, TotalSteps(t), Paused(done)) && SavedAsPlanned(t, plan, start, before, after, Paused(done))
  {
    hide FirstEvent, Uninterrupted, SaveDue;
    OneFirstEvent(plan, k);
    assert forall n :: n in after <==> n in saved || n == done;
  }

  lemma CompletionEnds<M>(t: Training, plan: nat -> Event, start: nat, clock: nat, before: map<nat, Checkpoint<M>>,
                          saved: map<nat, Checkpoint<M>>, 
                          after: map<nat, Checkpoint<M>>, cursor: Cursor, trainerSteps: Cursor, components: Components<M>)
    requires ValidTraining(t) && start <= TotalSteps(t) && clock == 2 * (TotalSteps(t) - start) + 1
    requires (FirstEvent(plan, clock - 1) && plan(clock - 1) == Stop) || AllGo(plan, clock)
    requires SavedThrough(t, before, saved, start, TotalSteps(t)) && TotalSteps(t) in saved && after.Keys == saved.Keys + {TotalSteps(t)}
    ensures var r := Completed(cursor, trainerSteps, components);
      EndsAsPlanned(plan, start, TotalSteps(t), r) && SavedAsPlanned(t, plan, start, before, after, r)
  {
    SameSaved(t, before, saved, after, start, TotalSteps(t));
    hide SavedThrough;
    forall k: nat | FirstEvent(plan, k)
      ensures if plan(k) == Crash then k > 2 * (TotalSteps(t) - start) else k / 2 >= TotalSteps(t) - start
    {
      if FirstEvent(plan, clock - 1) && plan(clock - 1) == Stop {
        OneFirstEvent(plan, clock - 1);
      }
    }
  }

  /** A completed run is the uninterrupted one. */
  ghost predicate Finished<M, L, B>(t: Training, l: Learner<M, L, B>, store: map<nat, Checkpoint<M>>, r: Outcome<M>)
    requires ValidTraining(t) && r.Completed?
  {
    && r.cursor == r.trainerSteps == CursorAt(t, TotalSteps(t))
    && r.components == Ideal(t, l, TotalSteps(t))
    && DueSaved(t, store, TotalSteps(t))
  }
}
