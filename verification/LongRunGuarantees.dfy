/** What any schedule of crashes, pauses and resumes of a long run leaves behind. */
module LongRunGuarantees {
  import opened ActionChunks
  import opened LongRunCursor
  import opened LongRunTraining

  // ----- any schedule of attempts -----

  /** The step of the last training state that an attempt from `start` made due: none before its first entry. */
  ghost predicate Reached(plan: nat -> Event, start: nat, reached: int) {
    forall k: nat :: FirstEvent(plan, k) ==>
      reached == if plan(k) == Crash then (if k == 0 then -1 else start + (k - 1) / 2) else start + k / 2
  }

  /** Where the attempt after an unfinished one starts: where it paused, or else at the newest step it made due, or at
      its own start if there is none. */
  ghost predicate GoesOnFrom<M>(t: Training, plan: nat -> Event, start: nat, r: Outcome<M>, next: nat)
    requires ValidTraining(t)
  {
    && (r.Paused? ==> next == r.at)
    && (r.Crashed? ==> start <= next && forall reached: int :: Reached(plan, start, reached) ==>
          (next == start || (next <= reached && SaveDue(t, next))) && forall n: nat :: next < n <= reached ==> !SaveDue(t, n))
  }

  /** A schedule: every attempt ends as its plan says from where it starts, and only the last can complete. */
  ghost predicate ScheduleFits<M>(t: Training, plans: seq<nat -> Event>, outcomes: seq<Outcome<M>>, starts: seq<nat>)
    requires ValidTraining(t)
  {
    && |outcomes| <= |plans| && |starts| == |outcomes| + 1 && starts[0] == 0
    && (forall i :: 0 <= i < |outcomes| ==>
          && starts[i] <= TotalSteps(t) && EndsAsPlanned(plans[i], starts[i], TotalSteps(t), outcomes[i])
          && (outcomes[i].Completed? ==> i == |outcomes| - 1)
          && (!outcomes[i].Completed? ==> GoesOnFrom(t, plans[i], starts[i], outcomes[i], starts[i + 1])))
    && (|outcomes| < |plans| ==> outcomes != [] && outcomes[|outcomes| - 1].Completed?)
  }

  lemma GoesOn<M>(t: Training, plan: nat -> Event, start: nat, before: map<nat, Checkpoint<M>>,
                  after: map<nat, Checkpoint<M>>, r: Outcome<M>, next: nat)
    requires ValidTraining(t) && IsStart(before, start) && IsStart(after, next) && SavedAsPlanned(t, plan, start, before, after, r)
    requires r.Paused? || r.Crashed?
    requires exists k: nat :: FirstEvent(plan, k)
    ensures GoesOnFrom(t, plan, start, r, next)
  {
    hide SaveDue, FirstEvent;
    var k: nat :| FirstEvent(plan, k);
    if r.Paused? {
      PausedNext(t, start, before, after, r.at, next);
    } else {
      var reached := if plan(k) == Crash then (if k == 0 then -1 else start + (k - 1) / 2) else start + k / 2;
      CrashedNext(t, start, before, after, reached, next);
      forall other: int | Reached(plan, start, other) ensures other == reached {
      }
    }
  }

  lemma PausedNext<M>(t: Training, start: nat, before: map<nat, Checkpoint<M>>, after: map<nat, Checkpoint<M>>,
                      at: nat, next: nat)
    requires ValidTraining(t) && IsStart(before, start) && IsStart(after, next) && at in after && start <= at
    requires forall n: nat :: n in after <==> n in before || n == at || (start <= n <= at && SaveDue(t, n))
    ensures next == at
  {
    hide SaveDue;
    assert next in after;
  }

  lemma CrashedNext<M>(t: Training, start: nat, before: map<nat, Checkpoint<M>>, after: map<nat, Checkpoint<M>>,
                       reached: int, next: nat)
    requires ValidTraining(t) && IsStart(before, start) && IsStart(after, next) && SavedThrough(t, before, after, start, reached)
    ensures start <= next && (next == start || (next <= reached && SaveDue(t, next)))
    ensures forall n: nat :: next < n <= reached ==> !SaveDue(t, n)
  {
    hide SaveDue;
    if after == map[] {
      assert forall n :: n in before ==> n in after;
      assert forall n: nat :: n <= reached && start <= n && SaveDue(t, n) ==> n in after;
    } else {
      assert next in after;
      if before != map[] {
        assert start in after;
      }
    }
  }

  lemma SomethingHappened<M>(plan: nat -> Event, start: nat, total: nat, r: Outcome<M>)
    requires start <= total && EndsAsPlanned(plan, start, total, r) && !r.Completed?
    ensures exists k: nat :: FirstEvent(plan, k)
  {
    var k: nat :| plan(k) != Go;
    FirstUpTo(plan, k);
  }

  lemma {:induction false} FirstUpTo(plan: nat -> Event, n: nat)
    requires plan(n) != Go
    ensures exists k: nat :: FirstEvent(plan, k)
  {
    if i: nat :| i < n && plan(i) != Go {
      FirstUpTo(plan, i);
    } else {
      assert FirstEvent(plan, n);
    }
  }

  /** The first attempt starts fresh, every later one resumes from the latest checkpoint, until one completes. */
  method RunSchedule<M, L, B>(manager: Stage0CheckpointManager<M>, t: Training, l: Learner<M, L, B>,
                              plans: seq<nat -> Event>)
    returns (outcomes: seq<Outcome<M>>)
    requires ValidTraining(t) && manager.completed == map[]
    modifies manager
    ensures Sound(t, l, manager.completed)
    ensures exists starts: seq<nat> :: ScheduleFits(t, plans, outcomes, starts)
    ensures forall i :: 0 <= i < |outcomes| && outcomes[i].Completed? ==> Finished(t, l, manager.completed, outcomes[i])
    ensures plans != [] && Uninterrupted(plans[|plans| - 1]) ==> outcomes != [] && outcomes[|outcomes| - 1].Completed?
  {
    hide ValidTraining, Sound, EndsAsPlanned, SavedAsPlanned, Finished, GoesOnFrom;
    outcomes := [];
    ghost var starts: seq<nat> := [0];
    NothingStored(t, l, manager.completed);
    for i := 0 to |plans|
      invariant Sound(t, l, manager.completed) && ScheduleFits(t, plans[..i], outcomes, starts) && |outcomes| == i
      invariant IsStart(manager.completed, starts[i]) && (i == 0 ==> manager.completed == map[])
      invariant forall k :: 0 <= k < i ==> !outcomes[k].Completed?
      invariant i > 0 ==> !Uninterrupted(plans[i - 1])
    {
      ghost var before := manager.completed;
      var r := RunTraining(manager, t, l, i > 0, plans[i]);
      OneStart(before, starts[i]);
      ghost var next: nat := starts[i];
      if !r.Completed? {
        SomethingHappened(plans[i], starts[i], TotalSteps(t), r);
        next := NewestOf(manager.completed);
        GoesOn(t, plans[i], starts[i], before, manager.completed, r, next);
      }
      LongerSchedule(t, plans[..i], plans[i], outcomes, starts, r, next);
      assert plans[..i + 1] == plans[..i] + [plans[i]];
      outcomes, starts := outcomes + [r], starts + [next];
      if r.Completed? {
        ScheduleStops(t, plans[..i + 1], plans, outcomes, starts);
        return;
      }
    }
    assert plans[..|plans|] == plans;
  }

  lemma NothingStored<M, L, B>(t: Training, l: Learner<M, L, B>, store: map<nat, Checkpoint<M>>)
    requires ValidTraining(t) && store == map[]
    ensures Sound(t, l, store)
  {
  }

  lemma OneStart<M>(store: map<nat, Checkpoint<M>>, start: nat)
    requires IsStart(store, start)
    ensures forall other: nat :: IsStart(store, other) ==> other == start
  {
  }

  lemma NewestOf<M>(store: map<nat, Checkpoint<M>>) returns (n: nat)
    ensures IsStart(store, n)
    decreases store.Keys
  {
    if store == map[] {
      n := 0;
    } else {
      n :| n in store;
      var rest := store - {n};
      if rest != map[] {
        var m := NewestOf(rest);
        n := if m > n then m else n;
      }
      forall k | k in store ensures k <= n {
        assert k in rest || k !in rest;
      }
    }
  }

  lemma LongerSchedule<M>(t: Training, plans: seq<nat -> Event>, plan: nat -> Event, outcomes: seq<Outcome<M>>,
                          starts: seq<nat>, r: Outcome<M>, next: nat)
    requires ValidTraining(t) && ScheduleFits(t, plans, outcomes, starts) && |outcomes| == |plans|
    requires forall i :: 0 <= i < |outcomes| ==> !outcomes[i].Completed?
    requires starts[|outcomes|] <= TotalSteps(t) && EndsAsPlanned(plan, starts[|outcomes|], TotalSteps(t), r)
    requires !r.Completed? ==> GoesOnFrom(t, plan, starts[|outcomes|], r, next)
    ensures ScheduleFits(t, plans + [plan], outcomes + [r], starts + [next])
  {
    hide EndsAsPlanned, GoesOnFrom, ValidTraining;
  }

  lemma ScheduleStops<M>(t: Training, front: seq<nat -> Event>, plans: seq<nat -> Event>, outcomes: seq<Outcome<M>>,
                         starts: seq<nat>)
    requires ValidTraining(t) && ScheduleFits(t, front, outcomes, starts) && front <= plans
    requires outcomes != [] && outcomes[|outcomes| - 1].Completed?
    ensures ScheduleFits(t, plans, outcomes, starts)
  {
    hide EndsAsPlanned, GoesOnFrom, ValidTraining;
  }

  // ----- what the uninterrupted run is -----

  /** The encoder on its own after `n` steps. */
  function EncoderAlone<M, L, B>(l: Learner<M, L, B>, n: nat): M {
    if n == 0 then l.initial.encoder
    else
      l.trainEncoder(l.contrastive(l.seed("future_encoder", "batch", n - 1)), l.seed("future_encoder", "model", n - 1), EncoderAlone(l, n - 1))
  }

  /** The latents that the later phases are given. */
  function FrozenLatents<M, L, B>(t: Training, l: Learner<M, L, B>): L {
    l.encode(EncoderAlone(l, t.encoderSteps))
  }

  /** The selector on its own: `n` steps after one warm start. */
  function SelectorAlone<M, L, B>(l: Learner<M, L, B>, latents: L, n: nat): M {
    if n == 0 then l.warmStart(l.initial.selector, latents)
    else l.trainSelector(l.sample(true, l.seed("selector", "batch", n - 1)), latents, SelectorAlone(l, latents, n - 1))
  }

  /** A policy on its own: `n` steps from given weights under given guidance. */
  function PolicyAlone<M, L, B>(l: Learner<M, L, B>, start: M, guidance: Guidance<L>, n: nat): M {
    if n == 0 then start
    else
      l.trainPolicy(l.sample(false, l.seed("policy_equal_budget", "batch", n - 1)), guidance,
                    l.seed("policy_equal_budget", "model", n - 1), PolicyAlone(l, start, guidance, n - 1))
  }

  /** Each component is what its own steps alone make of it. */
  ghost predicate Separate<M, L, B>(t: Training, l: Learner<M, L, B>, at: Cursor, c: Components<M>) {
    var latents := FrozenLatents(t, l);
    && c.encoder == EncoderAlone(l, at.encoder)
    && c.selector == (if at.selector == 0 then l.initial.selector else SelectorAlone(l, latents, at.selector))
    && c.conditional == PolicyAlone(l, l.initial.conditional, Cached(latents), at.conditional)
    && c.noZ == PolicyAlone(l, l.initial.noZ, Zeros, at.noZ)
  }

  /** A step of a phase, given that phase's latents. */
  lemma {:induction false} PhaseStep<M, L, B>(t: Training, l: Learner<M, L, B>, at: Cursor, c: Components<M>, phase: Phase)
    requires NextPhase(t, at) == Some(phase) && phase != Complete && c.encoder == EncoderAlone(l, at.encoder)
    ensures phase != FutureEncoder ==> at.encoder == t.encoderSteps && l.encode(c.encoder) == FrozenLatents(t, l)
    ensures phase != ConditionalPolicy ==> IdealStep(t, l, at, c).conditional == c.conditional
    ensures phase != NoZPolicy ==> IdealStep(t, l, at, c).noZ == c.noZ
    ensures phase != Selector ==> IdealStep(t, l, at, c).selector == c.selector
    ensures phase != FutureEncoder ==> IdealStep(t, l, at, c).encoder == c.encoder
  {
    hide TrainStep, PolicyAlone, SelectorAlone;
  }

  lemma SeparateStep<M, L, B>(t: Training, l: Learner<M, L, B>, at: Cursor, c: Components<M>, phase: Phase)
    requires NextPhase(t, at) == Some(phase) && phase != Complete && Separate(t, l, at, c)
    ensures Separate(t, l, Bump(at, phase), IdealStep(t, l, at, c))
  {
    hide FrozenLatents, IdealStep, TrainStep, PolicyAlone, SelectorAlone, EncoderAlone, NextPhase;
    PhaseStep(t, l, at, c, phase);
    match phase
    case FutureEncoder => EncoderStep(t, l, at, c);
    case Selector => SelectorStep(t, l, at, c);
    case ConditionalPolicy => PolicyStep(t, l, at, c);
    case NoZPolicy => PolicyStep(t, l, at, c);
  }

  lemma {:induction false} EncoderStep<M, L, B>(t: Training, l: Learner<M, L, B>, at: Cursor, c: Components<M>)
    requires NextPhase(t, at) == Some(FutureEncoder) && c.encoder == EncoderAlone(l, at.encoder)
    ensures IdealStep(t, l, at, c).encoder == EncoderAlone(l, at.encoder + 1)
  {
  }

  lemma {:induction false} SelectorStep<M, L, B>(t: Training, l: Learner<M, L, B>, at: Cursor, c: Components<M>)
    requires NextPhase(t, at) == Some(Selector)
    requires c.selector == if at.selector == 0 then l.initial.selector else SelectorAlone(l, l.encode(c.encoder), at.selector)
    ensures IdealStep(t, l, at, c).selector == SelectorAlone(l, l.encode(c.encoder), at.selector + 1)
  {
  }

  lemma {:induction false} PolicyStep<M, L, B>(t: Training, l: Learner<M, L, B>, at: Cursor, c: Components<M>)
    requires NextPhase(t, at) == Some(ConditionalPolicy) || NextPhase(t, at) == Some(NoZPolicy)
    requires c.conditional == PolicyAlone(l, l.initial.conditional, Cached(l.encode(c.encoder)), at.conditional)
    requires c.noZ == PolicyAlone(l, l.initial.noZ, Zeros, at.noZ)
    ensures NextPhase(t, at) == Some(ConditionalPolicy) ==>
              IdealStep(t, l, at, c).conditional == PolicyAlone(l, l.initial.conditional, Cached(l.encode(c.encoder)), at.conditional + 1)
    ensures NextPhase(t, at) == Some(NoZPolicy) ==>
              IdealStep(t, l, at, c).noZ == PolicyAlone(l, l.initial.noZ, Zeros, at.noZ + 1)
  {
  }

  /** At any step of a run, phases have not leaked into each other: the encoder never changes after its phase,
      the latents the other phases see are those of the final encoder, and the selector is warm-started once. */
  lemma {:induction false} PhasesAreIndependent<M, L, B>(t: Training, l: Learner<M, L, B>, n: nat)
    requires ValidTraining(t) && n <= TotalSteps(t)
    ensures Separate(t, l, CursorAt(t, n), Ideal(t, l, n))
  {
    if n == 0 {
      CursorStart(t);
    } else {
      hide CursorAt, Separate, NextPhase;
      PhasesAreIndependent(t, l, n - 1);
      CursorWalk(t, n - 1);
      SeparateStep(t, l, CursorAt(t, n - 1), Ideal(t, l, n - 1), NextPhase(t, CursorAt(t, n - 1)).value);
    }
  }

  /** The two policies of a finished run are one and the same training, under the latents and under zeros: same
      starting weights (the program copies the conditional ones), same batches, same noise, same number of steps. */
  lemma {:induction false} PoliciesDifferInLatentsOnly<M, L, B>(t: Training, l: Learner<M, L, B>)
    requires ValidTraining(t) && l.initial.noZ == l.initial.conditional
    ensures var done := Ideal(t, l, TotalSteps(t));
      && done.conditional == PolicyAlone(l, l.initial.conditional, Cached(FrozenLatents(t, l)), t.conditionalSteps)
      && done.noZ == PolicyAlone(l, l.initial.conditional, Zeros, t.conditionalSteps)
  {
    PhasesAreIndependent(t, l, TotalSteps(t));
  }

  /** What the no-z policy is trained from. */
  ghost predicate SameNoZ<M, L, B>(a: Learner<M, L, B>, b: Learner<M, L, B>) {
    a.initial.noZ == b.initial.noZ && a.seed == b.seed && a.sample == b.sample && a.trainPolicy == b.trainPolicy
  }

  lemma {:induction false} SamePolicyAlone<M, L, B>(a: Learner<M, L, B>, b: Learner<M, L, B>, guidance: Guidance<L>, n: nat)
    requires SameNoZ(a, b)
    ensures PolicyAlone(a, a.initial.noZ, guidance, n) == PolicyAlone(b, b.initial.noZ, guidance, n)
  {
    if n > 0 {
      SamePolicyAlone(a, b, guidance, n - 1);
    }
  }

  /** The no-z policy is a clean baseline: at every step of a run it is the same whatever the encoder, the selector,
      the latents, the warm start and the conditional policy are. */
  lemma {:induction false} NoZIgnoresTheRest<M, L, B>(t: Training, a: Learner<M, L, B>, b: Learner<M, L, B>, n: nat)
    requires ValidTraining(t) && n <= TotalSteps(t) && SameNoZ(a, b)
    ensures Ideal(t, a, n).noZ == Ideal(t, b, n).noZ
  {
    hide CursorAt, Ideal;
    PhasesAreIndependent(t, a, n);
    PhasesAreIndependent(t, b, n);
    SamePolicyAlone(a, b, Zeros, CursorAt(t, n).noZ);
  }

  // ----- checkpoint selection -----

  /** The conditional step a checkpoint stands for, if it was taken inside the conditional phase; an error when
      its name and its cursor disagree. */
  datatype Candidate = Mismatch | NotACandidate | At(step: nat)

  function ConditionalCandidateStep<M>(t: Training, sequence: nat, c: Checkpoint<M>): Candidate {
    if sequence != GlobalStep(c.steps) then Mismatch
    else if c.steps.encoder != t.encoderSteps || c.steps.selector != t.selectorSteps || c.steps.noZ != 0
      || !(1 <= c.steps.conditional <= t.conditionalSteps) then NotACandidate
    else At(c.steps.conditional)
  }

  /** A checkpoint's name is the number of steps it holds. */
  ghost predicate WellNamed<M>(sequence: nat, c: Checkpoint<M>) {
    sequence == c.steps.encoder + c.steps.selector + c.steps.conditional + c.steps.noZ
  }

  /** Taken inside the conditional phase: the phases in front of it are done, and the one behind it has not begun. */
  ghost predicate InConditionalPhase<M>(t: Training, c: Checkpoint<M>) {
    && c.steps.encoder == t.encoderSteps && c.steps.selector == t.selectorSteps && c.steps.noZ == 0
    && 1 <= c.steps.conditional <= t.conditionalSteps
  }

  lemma CandidateIff<M>(t: Training, sequence: nat, c: Checkpoint<M>)
    ensures ConditionalCandidateStep(t, sequence, c).Mismatch? <==> !WellNamed(sequence, c)
    ensures ConditionalCandidateStep(t, sequence, c).At? <==> WellNamed(sequence, c) && InConditionalPhase(t, c)
    ensures ConditionalCandidateStep(t, sequence, c).At? ==> ConditionalCandidateStep(t, sequence, c).step == c.steps.conditional
  {
  }

  ghost predicate SameCandidate<M>(t: Training, store: map<nat, Checkpoint<M>>, m: nat, n: nat)
    requires m in store && n in store
  {
    InConditionalPhase(t, store[m]) && InConditionalPhase(t, store[n]) && store[m].steps.conditional == store[n].steps.conditional
  }

  /** Every checkpoint is well named, no two are candidates for one step, and the final step is among them. */
  ghost predicate Selectable<M>(t: Training, store: map<nat, Checkpoint<M>>) {
    && (forall n :: n in store ==> WellNamed(n, store[n]))
    && (forall m, n :: m in store && n in store && SameCandidate(t, store, m, n) ==> m == n)
    && (exists n :: n in store && InConditionalPhase(t, store[n]) && store[n].steps.conditional == t.conditionalSteps)
  }

  /** Collects the candidates; None is any of its errors: a mismatch, a duplicate, or no final candidate. */
  method ConditionalCheckpointCandidates<M>(manager: Stage0CheckpointManager<M>, t: Training)
    returns (candidates: Option<map<nat, M>>)
    ensures candidates.Some? <==> Selectable(t, manager.completed)
    ensures candidates.Some? ==> forall n :: n in manager.completed && InConditionalPhase(t, manager.completed[n]) ==>
              var step := manager.completed[n].steps.conditional;
              step in candidates.value && candidates.value[step] == manager.completed[n].components.conditional
    ensures candidates.Some? ==> forall s :: s in candidates.value ==>
              exists n :: n in manager.completed && InConditionalPhase(t, manager.completed[n]) && manager.completed[n].steps.conditional == s
  {
    hide ConditionalCandidateStep, InConditionalPhase, WellNamed;
    var found: map<nat, M> := map[];
    ghost var from: map<nat, nat> := map[];
    var rest := manager.completed.Keys;
    while rest != {}
      invariant rest <= manager.completed.Keys
      invariant found.Keys == from.Keys
      invariant forall n :: n in manager.completed && n !in rest ==>
                  && WellNamed(n, manager.completed[n])
                  && (InConditionalPhase(t, manager.completed[n]) ==>
                        manager.completed[n].steps.conditional in from && from[manager.completed[n].steps.conditional] == n)
      invariant forall s :: s in found ==>
                  && from[s] in manager.completed && from[s] !in rest
                  && InConditionalPhase(t, manager.completed[from[s]]) && manager.completed[from[s]].steps.conditional == s
                  && found[s] == manager.completed[from[s]].components.conditional
      decreases rest
    {
      var n :| n in rest;
      rest := rest - {n};
      CandidateIff(t, n, manager.completed[n]);
      var step := ConditionalCandidateStep(t, n, manager.completed[n]);
      if step.Mismatch? {
        return None;
      }
      if step.At? {
        if step.step in found {
          assert SameCandidate(t, manager.completed, from[step.step], n);
          return None;
        }
        found, from := found[step.step := manager.completed[n].components.conditional], from[step.step := n];
      }
    }
    if t.conditionalSteps !in found {
      return None;
    }
    candidates := Some(found);
  }

  /** A checkpoint of the run is a candidate exactly inside the conditional phase, and holds that phase's model. */
  lemma {:induction false} CandidateOfRun<M, L, B>(t: Training, l: Learner<M, L, B>, n: nat)
    requires ValidTraining(t) && n <= TotalSteps(t)
    ensures var c, before := IdealCheckpoint(t, l, n), t.encoderSteps + t.selectorSteps;
      && ConditionalCandidateStep(t, n, c) == (if before < n <= before + t.conditionalSteps then At(n - before) else NotACandidate)
      && c.components.conditional == PolicyAlone(l, l.initial.conditional, Cached(FrozenLatents(t, l)), c.steps.conditional)
  {
    hide Separate;
    PhasesAreIndependent(t, l, n);
    CandidateCursor(t, n);
    ConditionalAlone(t, l, CursorAt(t, n), Ideal(t, l, n));
  }

  lemma {:induction false} ConditionalAlone<M, L, B>(t: Training, l: Learner<M, L, B>, at: Cursor, c: Components<M>)
    requires Separate(t, l, at, c)
    ensures c.conditional == PolicyAlone(l, l.initial.conditional, Cached(FrozenLatents(t, l)), at.conditional)
  {
  }

  lemma CandidateCursor(t: Training, n: nat)
    requires ValidTraining(t) && n <= TotalSteps(t)
    ensures var at, before := CursorAt(t, n), t.encoderSteps + t.selectorSteps;
      && GlobalStep(at) == n
      && (before < n <= before + t.conditionalSteps <==>
            at.encoder == t.encoderSteps && at.selector == t.selectorSteps && at.noZ == 0 && 1 <= at.conditional <= t.conditionalSteps)
      && (before < n <= before + t.conditionalSteps ==> at.conditional == n - before)
  {
  }

  /** After a completed run candidate selection never fails, whatever interrupted the run on the way. */
  lemma CompletedRunIsSelectable<M, L, B>(t: Training, l: Learner<M, L, B>, store: map<nat, Checkpoint<M>>)
    requires ValidTraining(t) && Sound(t, l, store) && DueSaved(t, store, TotalSteps(t))
    ensures Selectable(t, store)
  {
    hide CursorAt, IdealCheckpoint;
    forall n | n in store ensures n <= TotalSteps(t) && store[n] == IdealCheckpoint(t, l, n) {
    }
    forall n: nat | n <= TotalSteps(t) {
      CandidateOfRun(t, l, n);
    }
    var last := t.encoderSteps + t.selectorSteps + t.conditionalSteps;
    assert SaveDue(t, last);
    CandidateOfRun(t, l, last);
  }
}
