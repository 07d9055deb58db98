/** K branches tried from one canonical root: replaying to the root, running a chunk, choosing a continuation. */
module BranchChunks {
  import opened ActionChunks

  /** What one world reports for one control step, and at the end of a chunk. */
  datatype WorldStep = WorldStep(reward: real, terminated: bool, truncated: bool, failure: bool, contact: bool, displacement: bool)
  datatype WorldFinal = WorldFinal(success: bool, failure: bool, contact: bool, displacement: bool)

  /** The simulator, as uninterpreted functions of the joint state of all worlds. */
  datatype Env<!S, !A, !O> = Env(
    worlds: nat,
    reset: (S, int) -> S,
    project: (S, seq<A>, nat) -> A,
    advance: (S, seq<A>) -> S,
    outcome: (S, seq<A>, nat) -> WorldStep,
    applied: (S, nat) -> A,
    hold: (S, nat) -> A,
    canonicalize: S -> S,
    observe: S -> O,
    final: (S, nat) -> WorldFinal)

  function Projected<S, A, O>(env: Env<S, A, O>, s: S, proposed: seq<A>): (r: seq<A>)
    ensures |r| == env.worlds
  {
    seq(env.worlds, w requires 0 <= w < env.worlds => env.project(s, proposed, w))
  }

  predicate Done(step: WorldStep) {
    step.terminated || step.truncated
  }

  // ----- rebuilding a root -----

  predicate AnyDone<S, A, O>(env: Env<S, A, O>, s: S, effective: seq<A>) {
    exists w: nat :: w < env.worlds && Done(env.outcome(s, effective, w))
  }

  function Tiled<S, A, O>(env: Env<S, A, O>, s: S, action: A): seq<A> {
    Projected(env, s, seq(env.worlds, _ => action))
  }

  /** Replaying a history; true when a step ends an episode, which cuts the replay short. */
  function ReplayFrom<S, A, O>(env: Env<S, A, O>, s: S, history: seq<A>): (S, bool) {
    if history == [] then (s, false)
    else
      var effective := Tiled(env, s, history[0]);
      if AnyDone(env, s, effective) then (env.advance(s, effective), true)
      else ReplayFrom(env, env.canonicalize(env.advance(s, effective)), history[1..])
  }

  /** The root that a seed and a history name. Only an empty history canonicalizes the reset state itself. */
  function Root<S, A, O>(env: Env<S, A, O>, prior: S, seed: int, history: seq<A>): (S, bool) {
    if history == [] then (env.canonicalize(env.reset(prior, seed)), false)
    else ReplayFrom(env, env.reset(prior, seed), history)
  }

  /** States, one more than steps, and the joint actions between them. */
  datatype Course<S, A> = Course(states: seq<S>, effective: seq<seq<A>>)

  /** What world `w` reports for the `i`-th step. */
  function Report<S, A, O>(env: Env<S, A, O>, run: Course<S, A>, i: nat, w: nat): WorldStep
    requires i < |run.states| && i < |run.effective|
  {
    env.outcome(run.states[i], run.effective[i], w)
  }

  /** In the `i`-th step every world proposes the recorded action, and executes what the environment makes of it. */
  ghost predicate Repeats<S, A, O>(env: Env<S, A, O>, run: Course<S, A>, i: nat, action: A)
    requires i < |run.states| && i < |run.effective|
  {
    && |run.effective[i]| == env.worlds
    && forall w: nat :: w < env.worlds ==> run.effective[i][w] == env.project(run.states[i], seq(env.worlds, _ => action), w)
  }

  ghost predicate AllGoOn<S, A, O>(env: Env<S, A, O>, run: Course<S, A>, i: nat)
    requires i < |run.states| && i < |run.effective|
  {
    forall w: nat :: w < env.worlds ==> !Report(env, run, i, w).terminated && !Report(env, run, i, w).truncated
  }

  /** A replay executes the recorded actions in order and canonicalizes after each, until one ends an episode; an empty
      one canonicalizes the reset state. */
  ghost predicate IsReplay<S, A, O>(env: Env<S, A, O>, start: S, history: seq<A>, run: Course<S, A>, s: S, ended: bool) {
    var n := |run.effective|;
    && |run.states| == n + 1 && n <= |history| && run.states[0] == start
    && (forall i: nat :: i < n ==> Repeats(env, run, i, history[i]))
    && (forall i: nat :: i < n && (i + 1 < n || !ended) ==>
          AllGoOn(env, run, i) && run.states[i + 1] == env.canonicalize(env.advance(run.states[i], run.effective[i])))
    && (if ended then n > 0 && !AllGoOn(env, run, n - 1) && s == env.advance(run.states[n - 1], run.effective[n - 1])
        else n == |history| && s == if n == 0 then env.canonicalize(start) else run.states[n])
  }

  /** One more canonicalized step. */
  function Extended<S, A, O>(env: Env<S, A, O>, run: Course<S, A>, s: S, effective: seq<A>): Course<S, A> {
    Course(run.states + [env.canonicalize(env.advance(s, effective))], run.effective + [effective])
  }

  lemma NothingReplayed<S, A, O>(env: Env<S, A, O>, start: S, history: seq<A>)
    ensures Replaying(env, start, history, Course([start], []), 0, start)
  {
  }

  /** Replayed so far: no step has ended an episode. */
  ghost predicate Replaying<S, A, O>(env: Env<S, A, O>, start: S, history: seq<A>, run: Course<S, A>, n: nat, s: S)
    requires n <= |history|
  {
    && |run.states| == n + 1 && |run.effective| == n && run.states[0] == start && run.states[n] == s
    && forall i: nat :: i < n ==>
         && Repeats(env, run, i, history[i]) && AllGoOn(env, run, i)
         && run.states[i + 1] == env.canonicalize(env.advance(run.states[i], run.effective[i]))
  }

  lemma ReplayStep<S, A, O>(env: Env<S, A, O>, start: S, history: seq<A>, run: Course<S, A>, n: nat, s: S)
    requires n < |history| && Replaying(env, start, history, run, n, s)
    ensures var effective := Tiled(env, s, history[n]);
      var longer := Extended(env, run, s, effective);
      if AnyDone(env, s, effective) then IsReplay(env, start, history, longer, env.advance(s, effective), true)
      else Replaying(env, start, history, longer, n + 1, env.canonicalize(env.advance(s, effective)))
  {
    var effective := Tiled(env, s, history[n]);
    var longer := Extended(env, run, s, effective);
    forall i: nat | i < n
      ensures Repeats(env, longer, i, history[i]) && AllGoOn(env, longer, i)
      ensures longer.states[i + 1] == env.canonicalize(env.advance(longer.states[i], longer.effective[i]))
    {
      assert Repeats(env, run, i, history[i]) && AllGoOn(env, run, i);
      forall w: nat | w < env.worlds ensures !Report(env, longer, i, w).terminated && !Report(env, longer, i, w).truncated {
        assert Report(env, longer, i, w) == Report(env, run, i, w);
      }
    }
    assert longer.states[n] == s && longer.effective[n] == effective;
    assert Repeats(env, longer, n, history[n]);
    assert forall w: nat :: w < env.worlds ==> Report(env, longer, n, w) == env.outcome(s, effective, w);
    assert AllGoOn(env, longer, n) <==> !AnyDone(env, s, effective);
  }

  lemma ReplayEnds<S, A, O>(env: Env<S, A, O>, start: S, history: seq<A>, run: Course<S, A>, s: S)
    requires Replaying(env, start, history, run, |history|, s)
    ensures IsReplay(env, start, history, run, if history == [] then env.canonicalize(s) else s, false)
  {
    hide Repeats, AllGoOn;
  }

  method ResetAndReplay<S, A, O>(env: Env<S, A, O>, prior: S, seed: int, rootActions: seq<A>) returns (s: S, ended: bool)
    ensures (s, ended) == Root(env, prior, seed, rootActions)
    ensures exists run: Course<S, A> :: IsReplay(env, env.reset(prior, seed), rootActions, run, s, ended)
  {
    hide IsReplay, Replaying;
    s := env.reset(prior, seed);
    ghost var start, run := s, Course([s], []);
    NothingReplayed(env, start, rootActions);
    for i := 0 to |rootActions|
      invariant ReplayFrom(env, start, rootActions) == ReplayFrom(env, s, rootActions[i..])
      invariant Replaying(env, start, rootActions, run, i, s)
    {
      ReplayStep(env, start, rootActions, run, i, s);
      var effective := Tiled(env, s, rootActions[i]);
      var any := false;
      for w := 0 to env.worlds
        invariant any <==> exists v: nat :: v < w && Done(env.outcome(s, effective, v))
      {
        any := any || Done(env.outcome(s, effective, w));
      }
      assert rootActions[i..][1..] == rootActions[i + 1..];
      if any {
        return env.advance(s, effective), true;
      }
      run := Extended(env, run, s, effective);
      s := env.canonicalize(env.advance(s, effective));
    }
    ReplayEnds(env, start, rootActions, run, s);
    if rootActions == [] {
      s := env.canonicalize(s);
    }
    ended := false;
  }

  /** Where the reset does not depend on what the simulator did before, a root depends on its recipe alone. */
  lemma RootsAgree<S, A, O>(env: Env<S, A, O>, a: S, b: S, seed: int, history: seq<A>)
    requires env.reset(a, seed) == env.reset(b, seed)
    ensures Root(env, a, seed, history) == Root(env, b, seed, history)
  {
  }

  // ----- one chunk, K branches -----

  /** One world's part of a chunk. */
  datatype Branch<A> = Branch(active: bool, score: real, rewards: seq<real>, actions: seq<A>,
                              terminated: bool, truncated: bool, failure: bool, contact: bool, displacement: bool)

  function Untried<A>(): Branch<A> {
    Branch(true, 0.0, [], [], false, false, false, false, false)
  }

  /** The policy's proposals for a chunk: for each step and world an action. */
  datatype Proposals<!A> = Proposals(length: nat, action: (nat, nat) -> A)

  /** Active worlds follow the proposal, finished ones hold still. */
  function Joint<S, A, O>(env: Env<S, A, O>, s: S, p: Proposals<A>, step: nat, branches: seq<Branch<A>>): seq<A>
    requires |branches| == env.worlds
  {
    Projected(env, s, seq(env.worlds, w requires 0 <= w < env.worlds => if branches[w].active then p.action(step, w) else env.hold(s, w)))
  }

  /** The accumulators keep watching a world after it has ended; everything else is kept only while it is active. */
  function Observed<A>(b: Branch<A>, step: WorldStep, action: A): Branch<A> {
    Branch(b.active && !Done(step),
           b.score + (if b.active then step.reward else 0.0),
           if b.active then b.rewards + [step.reward] else b.rewards,
           if b.active then b.actions + [action] else b.actions,
           b.terminated || step.terminated, b.truncated || step.truncated,
           b.failure || (b.active && step.failure), b.contact || (b.active && step.contact),
           b.displacement || (b.active && step.displacement))
  }

  /** State and branches after the first `n` steps of a chunk. */
  function Tried<S, A, O>(env: Env<S, A, O>, s: S, p: Proposals<A>, n: nat): (r: (S, seq<Branch<A>>))
    ensures |r.1| == env.worlds
  {
    if n == 0 then (s, seq(env.worlds, _ => Untried()))
    else
      var (t, branches) := Tried(env, s, p, n - 1);
      var joint := Joint(env, t, p, n - 1, branches);
      var next := env.advance(t, joint);
      (next, Watched(env, t, joint, next, branches))
  }

  function Watched<S, A, O>(env: Env<S, A, O>, s: S, joint: seq<A>, next: S, branches: seq<Branch<A>>): (r: seq<Branch<A>>)
    requires |branches| == env.worlds
    ensures |r| == env.worlds
  {
    seq(env.worlds, w requires 0 <= w < env.worlds => Observed(branches[w], env.outcome(s, joint, w), env.applied(next, w)))
  }

  function Sum(rewards: seq<real>): real {
    if rewards == [] then 0.0 else Sum(rewards[..|rewards| - 1]) + rewards[|rewards| - 1]
  }

  // ----- what a chunk is, step by step -----

  ghost predicate EndedBefore<S, A, O>(env: Env<S, A, O>, run: Course<S, A>, i: nat, w: nat)
    requires i <= |run.states| && i <= |run.effective|
  {
    exists k: nat :: k < i && (Report(env, run, k, w).terminated || Report(env, run, k, w).truncated)
  }

  /** What the worlds propose in the `i`-th step: the policy's action, or to hold still once they have ended. */
  ghost function Proposed<S, A, O>(env: Env<S, A, O>, p: Proposals<A>, run: Course<S, A>, i: nat): (r: seq<A>)
    requires i < |run.states| && i < |run.effective|
    ensures |r| == env.worlds
  {
    seq(env.worlds, w requires 0 <= w < env.worlds => if EndedBefore(env, run, i, w) then env.hold(run.states[i], w) else p.action(i, w))
  }

  /** Each world executes what the environment makes of all proposals. */
  ghost predicate Acts<S, A, O>(env: Env<S, A, O>, p: Proposals<A>, run: Course<S, A>, i: nat)
    requires i < |run.states| && i < |run.effective|
  {
    && |run.effective[i]| == env.worlds
    && forall w: nat :: w < env.worlds ==> run.effective[i][w] == env.project(run.states[i], Proposed(env, p, run, i), w)
  }

  ghost predicate IsCourse<S, A, O>(env: Env<S, A, O>, s: S, p: Proposals<A>, n: nat, run: Course<S, A>) {
    && |run.states| == n + 1 && |run.effective| == n && run.states[0] == s
    && forall i: nat :: i < n ==> Acts(env, p, run, i) && run.states[i + 1] == env.advance(run.states[i], run.effective[i])
  }

  /** What world `w` reports for all steps, and what it really executes in them. */
  function Reports<S, A, O>(env: Env<S, A, O>, run: Course<S, A>, w: nat): (r: seq<WorldStep>)
    requires |run.states| > |run.effective|
    ensures |r| == |run.effective|
  {
    seq(|run.effective|, i requires 0 <= i < |run.effective| => Report(env, run, i, w))
  }

  function Executed<S, A, O>(env: Env<S, A, O>, run: Course<S, A>, w: nat): (r: seq<A>)
    requires |run.states| > |run.effective|
    ensures |r| == |run.effective|
  {
    seq(|run.effective|, i requires 0 <= i < |run.effective| => env.applied(run.states[i + 1], w))
  }

  /** A world's recorded steps are exactly the steps up to its first terminated or truncated one, with the actions
      really executed, and its score is the sum of its rewards there. Failure, contact and displacement are those of
      the recorded steps; termination and truncation those of all steps. */
  ghost predicate IsPrefix<A>(reports: seq<WorldStep>, executed: seq<A>, b: Branch<A>) {
    var m, n := |b.actions|, |reports|;
    && |b.rewards| == m <= n == |executed| && b.score == Sum(b.rewards) && (n > 0 ==> m > 0)
    && (b.active <==> !b.terminated && !b.truncated) && (b.active ==> m == n)
    && (!b.active ==> n > 0 && (reports[m - 1].terminated || reports[m - 1].truncated))
    && (forall i :: 0 <= i < m ==> b.rewards[i] == reports[i].reward && b.actions[i] == executed[i])
    && (forall i :: 0 <= i < m - 1 ==> !reports[i].terminated && !reports[i].truncated)
    && (b.failure <==> exists i :: 0 <= i < m && reports[i].failure)
    && (b.contact <==> exists i :: 0 <= i < m && reports[i].contact)
    && (b.displacement <==> exists i :: 0 <= i < m && reports[i].displacement)
    && (b.terminated <==> exists i :: 0 <= i < n && reports[i].terminated)
    && (b.truncated <==> exists i :: 0 <= i < n && reports[i].truncated)
  }

  /** The chunk that `Tried` walks through. */
  function CourseOf<S, A, O>(env: Env<S, A, O>, s: S, p: Proposals<A>, n: nat): (run: Course<S, A>)
    ensures |run.states| == n + 1 && |run.effective| == n
  {
    Course(seq(n + 1, i requires 0 <= i <= n => Tried(env, s, p, i).0),
           seq(n, i requires 0 <= i < n => JointAt(env, s, p, i)))
  }

  function JointAt<S, A, O>(env: Env<S, A, O>, s: S, p: Proposals<A>, i: nat): seq<A> {
    Joint(env, Tried(env, s, p, i).0, p, i, Tried(env, s, p, i).1)
  }

  lemma TriedStep<S, A, O>(env: Env<S, A, O>, s: S, p: Proposals<A>, n: nat)
    ensures Tried(env, s, p, n + 1).0 == env.advance(Tried(env, s, p, n).0, JointAt(env, s, p, n))
    ensures forall w: nat :: w < env.worlds ==>
              Tried(env, s, p, n + 1).1[w] == Observed(Tried(env, s, p, n).1[w], env.outcome(Tried(env, s, p, n).0, JointAt(env, s, p, n), w),
                                                       env.applied(Tried(env, s, p, n + 1).0, w))
  {
    hide Joint, Observed;
  }

  lemma PrefixStep<A>(reports: seq<WorldStep>, executed: seq<A>, b: Branch<A>, step: WorldStep, action: A)
    requires IsPrefix(reports, executed, b)
    ensures IsPrefix(reports + [step], executed + [action], Observed(b, step, action))
  {
    hide Sum;
    if b.active {
      SumMore(b.rewards, step.reward);
    }
    StepAdds(reports, step);
    StepFlags(reports, |b.actions|, step, b.active);
  }

  lemma StepAdds(reports: seq<WorldStep>, step: WorldStep)
    ensures var more, n := reports + [step], |reports|;
      && ((exists i :: 0 <= i < n + 1 && more[i].terminated) <==> (exists i :: 0 <= i < n && reports[i].terminated) || step.terminated)
      && ((exists i :: 0 <= i < n + 1 && more[i].truncated) <==> (exists i :: 0 <= i < n && reports[i].truncated) || step.truncated)
  {
    var more := reports + [step];
    assert more[|reports|] == step;
    assert forall i :: 0 <= i < |reports| ==> more[i] == reports[i];
  }

  lemma StepFlags(reports: seq<WorldStep>, m: nat, step: WorldStep, active: bool)
    requires m <= |reports| && (active ==> m == |reports|)
    ensures var more, k := reports + [step], if active then m + 1 else m;
      && ((exists i :: 0 <= i < k && more[i].failure) <==> (exists i :: 0 <= i < m && reports[i].failure) || (active && step.failure))
      && ((exists i :: 0 <= i < k && more[i].contact) <==> (exists i :: 0 <= i < m && reports[i].contact) || (active && step.contact))
      && ((exists i :: 0 <= i < k && more[i].displacement) <==> (exists i :: 0 <= i < m && reports[i].displacement) || (active && step.displacement))
  {
    var more := reports + [step];
    assert more[|reports|] == step;
    assert forall i :: 0 <= i < |reports| ==> more[i] == reports[i];
  }

  lemma {:induction false} SumMore(rewards: seq<real>, r: real)
    ensures Sum(rewards + [r]) == Sum(rewards) + r
  {
    assert (rewards + [r])[..|rewards|] == rewards;
  }

  lemma CourseStep<S, A, O>(env: Env<S, A, O>, s: S, p: Proposals<A>, n: nat, w: nat)
    ensures var short, run := CourseOf(env, s, p, n), CourseOf(env, s, p, n + 1);
      && Reports(env, run, w) == Reports(env, short, w) + [env.outcome(Tried(env, s, p, n).0, JointAt(env, s, p, n), w)]
      && Executed(env, run, w) == Executed(env, short, w) + [env.applied(Tried(env, s, p, n + 1).0, w)]
  {
    hide Tried, JointAt;
  }

  lemma {:induction false} BranchIsPrefix<S, A, O>(env: Env<S, A, O>, s: S, p: Proposals<A>, n: nat, w: nat)
    requires w < env.worlds
    ensures IsPrefix(Reports(env, CourseOf(env, s, p, n), w), Executed(env, CourseOf(env, s, p, n), w), Tried(env, s, p, n).1[w])
  {
    if n == 0 {
      hide Report;
    } else {
      hide Tried, IsPrefix, CourseOf, Report, JointAt, Reports, Executed, Observed;
      BranchIsPrefix(env, s, p, n - 1, w);
      TriedStep(env, s, p, n - 1);
      CourseStep(env, s, p, n - 1, w);
      var short := CourseOf(env, s, p, n - 1);
      PrefixStep(Reports(env, short, w), Executed(env, short, w), Tried(env, s, p, n - 1).1[w],
                 env.outcome(Tried(env, s, p, n - 1).0, JointAt(env, s, p, n - 1), w), env.applied(Tried(env, s, p, n).0, w));
    }
  }

  /** A world is active exactly as long as it has not ended. */
  lemma {:induction false} ActiveIff<S, A, O>(env: Env<S, A, O>, s: S, p: Proposals<A>, n: nat, i: nat, w: nat)
    requires i <= n && w < env.worlds
    ensures Tried(env, s, p, i).1[w].active <==> !EndedBefore(env, CourseOf(env, s, p, n), i, w)
  {
    hide Tried, JointAt, Sum;
    BranchIsPrefix(env, s, p, i, w);
    var reports := Reports(env, CourseOf(env, s, p, i), w);
    assert forall k: nat :: k < i ==> reports[k] == Report(env, CourseOf(env, s, p, n), k, w);
  }

  lemma TriedActs<S, A, O>(env: Env<S, A, O>, s: S, p: Proposals<A>, n: nat, i: nat)
    requires i < n
    ensures var run := CourseOf(env, s, p, n);
      Acts(env, p, run, i) && run.states[i + 1] == env.advance(run.states[i], run.effective[i])
  {
    hide Tried, EndedBefore;
    var run := CourseOf(env, s, p, n);
    TriedStep(env, s, p, i);
    var branches := Tried(env, s, p, i).1;
    forall w: nat | w < env.worlds ensures branches[w].active <==> !EndedBefore(env, run, i, w) {
      ActiveIff(env, s, p, n, i, w);
    }
    assert Proposed(env, p, run, i)
        == seq(env.worlds, w requires 0 <= w < env.worlds => if branches[w].active then p.action(i, w) else env.hold(run.states[i], w));
  }

  lemma CourseStarts<S, A, O>(env: Env<S, A, O>, s: S, p: Proposals<A>, n: nat)
    ensures CourseOf(env, s, p, n).states[0] == s
  {
    hide JointAt;
    assert Tried(env, s, p, 0).0 == s;
  }

  /** The chunk's definition walks through a course. */
  lemma {:induction false} TriedIsCourse<S, A, O>(env: Env<S, A, O>, s: S, p: Proposals<A>, n: nat)
    ensures IsCourse(env, s, p, n, CourseOf(env, s, p, n)) && CourseOf(env, s, p, n).states[n] == Tried(env, s, p, n).0
  {
    CourseStarts(env, s, p, n);
    hide Acts, Tried, JointAt;
    forall i: nat | i < n
      ensures Acts(env, p, CourseOf(env, s, p, n), i)
      ensures CourseOf(env, s, p, n).states[i + 1] == env.advance(CourseOf(env, s, p, n).states[i], CourseOf(env, s, p, n).effective[i])
    {
      TriedActs(env, s, p, n, i);
    }
  }

  /** Runs a chunk in all worlds at once. */
  method RunChunk<S, A, O>(env: Env<S, A, O>, start: S, p: Proposals<A>,
                           horizon: nat) returns (s: S, branches: seq<Branch<A>>)
    ensures (s, branches) == Tried(env, start, p, horizon)
    ensures |branches| == env.worlds
    ensures exists run: Course<S, A> ::
              && IsCourse(env, start, p, horizon, run) && s == run.states[horizon]
              && forall w: nat :: w < env.worlds ==> IsPrefix(Reports(env, run, w), Executed(env, run, w), branches[w])
  {
    hide IsCourse, IsPrefix;
    s := start;
    branches := seq(env.worlds, _ => Untried());
    for n := 0 to horizon
      invariant (s, branches) == Tried(env, start, p, n)
    {
      var joint := Joint(env, s, p, n, branches);
      var next := env.advance(s, joint);
      var updated := branches;
      for w := 0 to env.worlds
        invariant |updated| == env.worlds
        invariant forall v :: 0 <= v < w ==> updated[v] == Observed(branches[v], env.outcome(s, joint, v), env.applied(next, v))
        invariant forall v :: w <= v < env.worlds ==> updated[v] == branches[v]
      {
        updated := updated[w := Observed(branches[w], env.outcome(s, joint, w), env.applied(next, w))];
      }
      assert updated == Watched(env, s, joint, next, branches);
      s, branches := next, updated;
    }
    TriedIsCourse(env, start, p, horizon);
    ghost var run := CourseOf(env, start, p, horizon);
    forall w: nat | w < env.worlds ensures IsPrefix(Reports(env, run, w), Executed(env, run, w), branches[w]) {
      BranchIsPrefix(env, start, p, horizon, w);
    }
  }

  // ----- candidates and the continuation -----

  datatype Candidate<A> = Candidate(world: nat, score: real, success: bool, terminated: bool, truncated: bool,
                                    rewards: seq<real>, actions: seq<A>, failure: bool, contact: bool, displacement: bool)

  /** A world's candidate, with the chunk's final evaluation folded into its accumulators. */
  function CandidateOf<A>(w: nat, b: Branch<A>, final: WorldFinal): Candidate<A> {
    Candidate(w, b.score, final.success, b.terminated, b.truncated, b.rewards, b.actions,
              b.failure || final.failure, b.contact || final.contact, b.displacement || final.displacement)
  }

  predicate Safe<A>(c: Candidate<A>) {
    !c.failure && !c.contact && !c.displacement
  }

  /** Every world that executed a step, in world order. */
  function Candidates<S, A, O>(env: Env<S, A, O>, s: S, p: Proposals<A>, horizon: nat): seq<Candidate<A>> {
    if horizon == 0 then []
    else
      var (t, branches) := Tried(env, s, p, horizon);
      seq(env.worlds, w requires 0 <= w < env.worlds => CandidateOf(w, branches[w], env.final(t, w)))
  }

  /** What a candidate says about its world: the steps up to the first ended one, scored by their sum, the final
      evaluation's success, and a violation at any of them or in the final evaluation. */
  ghost predicate IsCandidate<A>(reports: seq<WorldStep>, executed: seq<A>, final: WorldFinal, w: nat, c: Candidate<A>) {
    var m, n := |c.actions|, |reports|;
    && c.world == w && |c.rewards| == m && 1 <= m <= n == |executed| && c.score == Sum(c.rewards) && c.success == final.success
    && (forall i :: 0 <= i < m ==> c.rewards[i] == reports[i].reward && c.actions[i] == executed[i])
    && (forall i :: 0 <= i < m - 1 ==> !reports[i].terminated && !reports[i].truncated)
    && (m < n ==> reports[m - 1].terminated || reports[m - 1].truncated)
    && (c.failure <==> final.failure || exists i :: 0 <= i < m && reports[i].failure)
    && (c.contact <==> final.contact || exists i :: 0 <= i < m && reports[i].contact)
    && (c.displacement <==> final.displacement || exists i :: 0 <= i < m && reports[i].displacement)
    && (c.terminated <==> exists i :: 0 <= i < n && reports[i].terminated)
    && (c.truncated <==> exists i :: 0 <= i < n && reports[i].truncated)
  }

  lemma BranchIsCandidate<A>(reports: seq<WorldStep>, executed: seq<A>, final: WorldFinal, w: nat, b: Branch<A>)
    requires IsPrefix(reports, executed, b) && reports != []
    ensures IsCandidate(reports, executed, final, w, CandidateOf(w, b, final))
  {
    hide Sum;
  }

  /** Every world is a candidate, for its own part of one course of the chunk. */
  lemma CandidatesFit<S, A, O>(env: Env<S, A, O>, s: S, p: Proposals<A>, horizon: nat)
    ensures var cs := Candidates(env, s, p, horizon);
      && |cs| == (if horizon == 0 then 0 else env.worlds)
      && exists run: Course<S, A> ::
           && IsCourse(env, s, p, horizon, run)
           && forall w: nat :: w < |cs| ==>
                IsCandidate(Reports(env, run, w), Executed(env, run, w), env.final(run.states[horizon], w), w, cs[w])
  {
    hide Reports, Executed, Sum, Tried, IsCourse, IsPrefix, IsCandidate;
    var cs, run := Candidates(env, s, p, horizon), CourseOf(env, s, p, horizon);
    TriedIsCourse(env, s, p, horizon);
    forall w: nat | w < |cs|
      ensures IsCandidate(Reports(env, run, w), Executed(env, run, w), env.final(run.states[horizon], w), w, cs[w])
    {
      BranchIsPrefix(env, s, p, horizon, w);
      BranchIsCandidate(Reports(env, run, w), Executed(env, run, w), env.final(run.states[horizon], w), w, Tried(env, s, p, horizon).1[w]);
    }
  }

  // ----- the continuation -----

  datatype Choice = Inconsistent | NoneSafe | Continue(index: nat)

  /** Candidates compared with each other: the safe successes if there are any, otherwise all safe ones. */
  predicate InPool<A>(cs: seq<Candidate<A>>, i: nat)
    requires i < |cs|
  {
    Safe(cs[i]) && (cs[i].success || forall j :: 0 <= j < |cs| && Safe(cs[j]) ==> !cs[j].success)
  }

  /** `i` comes first in the order by score, then by lower world. */
  predicate Before<A>(a: Candidate<A>, b: Candidate<A>) {
    a.score > b.score || (a.score == b.score && a.world <= b.world)
  }

  /** A candidate that succeeded and failed, or succeeded unsafely, is refused. */
  predicate Contradictory<A>(c: Candidate<A>) {
    c.success && !Safe(c)
  }

  ghost predicate IsChoice<A>(cs: seq<Candidate<A>>, choice: Choice) {
    match choice
    case Inconsistent => exists i :: 0 <= i < |cs| && Contradictory(cs[i])
    case NoneSafe => (forall i :: 0 <= i < |cs| ==> !Contradictory(cs[i])) && forall i :: 0 <= i < |cs| ==> !Safe(cs[i])
    case Continue(k) =>
      && (forall i :: 0 <= i < |cs| ==> !Contradictory(cs[i]))
      && k < |cs| && InPool(cs, k)
      && forall i :: 0 <= i < |cs| && InPool(cs, i) ==> Before(cs[k], cs[i])
  }

  /** A safe candidate that succeeded if any did, and among those scores highest, in the lowest world. */
  ghost predicate IsBest<A>(cs: seq<Candidate<A>>, k: nat)
    requires k < |cs|
  {
    && !cs[k].failure && !cs[k].contact && !cs[k].displacement
    && forall i :: 0 <= i < |cs| && !cs[i].failure && !cs[i].contact && !cs[i].displacement ==>
         && (cs[i].success ==> cs[k].success)
         && (cs[i].success == cs[k].success ==> cs[k].score > cs[i].score || (cs[k].score == cs[i].score && cs[k].world <= cs[i].world))
  }

  /** The continuation of `select_advantage_chunks`: the best of the pool, the lowest world among equals. */
  method SelectContinuation<A>(cs: seq<Candidate<A>>) returns (choice: Choice)
    ensures IsChoice(cs, choice)
    ensures choice.Inconsistent? <==> exists i :: 0 <= i < |cs| && cs[i].success && (cs[i].failure || cs[i].contact || cs[i].displacement)
    ensures choice.NoneSafe? ==> forall i :: 0 <= i < |cs| ==> cs[i].failure || cs[i].contact || cs[i].displacement
    ensures choice.Continue? ==> choice.index < |cs| && IsBest(cs, choice.index)
  {
    var anySafe, anySuccess := false, false;
    for i := 0 to |cs|
      invariant forall j :: 0 <= j < i ==> !Contradictory(cs[j])
      invariant anySafe <==> exists j :: 0 <= j < i && Safe(cs[j])
      invariant anySuccess <==> exists j :: 0 <= j < i && Safe(cs[j]) && cs[j].success
    {
      if Contradictory(cs[i]) {
        return Inconsistent;
      }
      anySafe := anySafe || Safe(cs[i]);
      anySuccess := anySuccess || (Safe(cs[i]) && cs[i].success);
    }
    if !anySafe {
      return NoneSafe;
    }
    ghost var some :| 0 <= some < |cs| && Safe(cs[some]) && (cs[some].success || !anySuccess);
    assert InPool(cs, some);
    var best: Option<nat> := None;
    for i := 0 to |cs|
      invariant best.None? ==> forall j :: 0 <= j < i ==> !InPool(cs, j)
      invariant best.Some? ==> best.value < i && InPool(cs, best.value)
      invariant best.Some? ==> forall j :: 0 <= j < i && InPool(cs, j) ==> Before(cs[best.value], cs[j])
    {
      assert InPool(cs, i) <==> Safe(cs[i]) && (cs[i].success || !anySuccess);
      if Safe(cs[i]) && (cs[i].success || !anySuccess) && (best.None? || !Before(cs[best.value], cs[i])) {
        best := Some(i);
      }
    }
    choice := Continue(best.value);
  }

  /** There is one choice: ties go to the lower world. */
  lemma ChoiceIsUnique<A>(cs: seq<Candidate<A>>, a: Choice, b: Choice)
    requires IsChoice(cs, a) && IsChoice(cs, b) && forall w: nat :: w < |cs| ==> cs[w].world == w
    ensures a == b
  {
    if a.Continue? && b.Continue? {
      assert Before(cs[a.index], cs[b.index]) && Before(cs[b.index], cs[a.index]);
    }
  }
}
