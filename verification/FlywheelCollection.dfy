/** Collecting one episode, archiving its selected path as a recipe, and rebuilding roots from that recipe. */
module FlywheelCollection {
  import opened ActionChunks
  import opened BranchChunks

  /** `sample(observation, decision)`: the policy's proposals, free to differ from decision to decision. */
  datatype Policy<!O, !A> = Policy(sample: (O, nat) -> Proposals<A>)

  /** The archived selected path, one segment per continued decision. */
  datatype Segment<A> = Segment(decisionIndex: nat, startControlStep: nat, validSteps: nat, actions: seq<A>, rewards: seq<real>)

  datatype Decision<A> = Decision(index: nat, startControlStep: nat, candidates: seq<Candidate<A>>)

  datatype Episode<A> = Episode(seed: int, decisions: seq<Decision<A>>, path: seq<Segment<A>>, rewards: seq<real>, score: real, success: bool)

  datatype Failure = NoBranchExecuted | InconsistentCandidate | ContinuationReplayEnded
  datatype Outcome<A> = Collected(episode: Episode<A>) | Failed(failure: Failure)

  datatype Limits = Limits(budget: nat, executionHorizon: nat)

  // ----- the archived path as a history -----

  function Actions<A>(path: seq<Segment<A>>): seq<A> {
    if path == [] then [] else Actions(path[..|path| - 1]) + path[|path| - 1].actions
  }

  function Rewards<A>(path: seq<Segment<A>>): seq<real> {
    if path == [] then [] else Rewards(path[..|path| - 1]) + path[|path| - 1].rewards
  }

  /** The history replayed for a decision: the segments in front, up to the first of that decision or later. */
  function PathBefore<A>(path: seq<Segment<A>>, d: nat): seq<A> {
    if path == [] || path[0].decisionIndex >= d then [] else path[0].actions + PathBefore(path[1..], d)
  }

  method HistoryFor<A>(path: seq<Segment<A>>, d: nat) returns (history: seq<A>)
    ensures history == PathBefore(path, d)
  {
    history := [];
    for i := 0 to |path|
      invariant history + PathBefore(path[i..], d) == PathBefore(path, d)
    {
      assert path[i..][1..] == path[i + 1..];
      if path[i].decisionIndex >= d {
        return;
      }
      history := history + path[i].actions;
    }
  }

  /** Segments are numbered by their decisions and tile the control steps from zero without gap or overlap. */
  ghost predicate Tiles<A>(path: seq<Segment<A>>) {
    forall i: nat :: i < |path| ==>
      && path[i].decisionIndex == i
      && path[i].startControlStep == |Actions(path[..i])|
      && path[i].validSteps == |path[i].actions| == |path[i].rewards|
      && 1 <= path[i].validSteps
  }

  lemma {:induction false} PathBeforeSplit<A>(front: seq<Segment<A>>, back: seq<Segment<A>>, d: nat)
    requires forall i :: 0 <= i < |front| ==> front[i].decisionIndex < d
    requires back != [] ==> back[0].decisionIndex >= d
    ensures PathBefore(front + back, d) == Actions(front)
  {
    if front == [] {
      assert front + back == back;
    } else {
      assert (front + back)[1..] == front[1..] + back;
      PathBeforeSplit(front[1..], back, d);
      FirstSegment(front);
      hide Actions;
    }
  }

  lemma {:induction false} FirstSegment<A>(path: seq<Segment<A>>)
    requires path != []
    ensures Actions(path) == path[0].actions + Actions(path[1..])
  {
    ActionsSplit([path[0]], path[1..]);
    assert [path[0]] + path[1..] == path;
    assert [path[0]][..0] == [];
  }

  lemma {:induction false} ActionsSplit<A>(a: seq<Segment<A>>, b: seq<Segment<A>>)
    ensures Actions(a + b) == Actions(a) + Actions(b)
    ensures Rewards(a + b) == Rewards(a) + Rewards(b)
  {
    if b == [] {
      assert a + b == a;
    } else {
      var front := b[..|b| - 1];
      ActionsSplit(a, front);
      assert (a + b)[..|a + b| - 1] == a + front && (a + b)[|a + b| - 1] == b[|b| - 1];
      hide Actions, Rewards;
      LastSegment(a + b);
      LastSegment(b);
    }
  }

  lemma LastSegment<A>(path: seq<Segment<A>>)
    requires path != []
    ensures var front, last := path[..|path| - 1], path[|path| - 1];
      Actions(path) == Actions(front) + last.actions && Rewards(path) == Rewards(front) + last.rewards
  {
  }

  /** In a tiled path the history of decision `d` is exactly the first `d` segments. */
  lemma {:induction false} PathBeforeTiles<A>(path: seq<Segment<A>>, d: nat)
    requires Tiles(path) && d <= |path|
    ensures PathBefore(path, d) == Actions(path[..d])
  {
    hide PathBefore, Actions;
    assert forall i :: 0 <= i < |path| ==> path[i].decisionIndex == i;
    assert path[..d] + path[d..] == path;
    PathBeforeSplit(path[..d], path[d..], d);
  }

  lemma {:induction false} TilesMore<A>(path: seq<Segment<A>>, next: Segment<A>)
    requires Tiles(path)
    requires next.decisionIndex == |path| && next.startControlStep == |Actions(path)|
    requires next.validSteps == |next.actions| == |next.rewards| && 1 <= next.validSteps
    ensures Tiles(path + [next])
    ensures Actions(path + [next]) == Actions(path) + next.actions
    ensures Rewards(path + [next]) == Rewards(path) + next.rewards
    ensures forall d: nat :: d <= |path| ==> (path + [next])[..d] == path[..d]
  {
    assert (path + [next])[..|path|] == path;
    assert forall d: nat :: d <= |path| ==> (path + [next])[..d] == path[..d];
  }

  lemma {:induction false} SumSplit(a: seq<real>, b: seq<real>)
    ensures Sum(a + b) == Sum(a) + Sum(b)
  {
    if b == [] {
      assert a + b == a;
    } else {
      assert (a + b)[..|a + b| - 1] == a + b[..|b| - 1];
      SumSplit(a, b[..|b| - 1]);
    }
  }

  lemma {:induction false} TiledLength<A>(path: seq<Segment<A>>)
    requires Tiles(path)
    ensures |path| <= |Actions(path)| == |Rewards(path)|
  {
    if path != [] {
      var front := path[..|path| - 1];
      assert forall i: nat :: i < |front| ==> front[..i] == path[..i];
      TiledLength(front);
    }
  }

  // ----- where a decision's candidates came from -----

  /** As many steps as the execution horizon, the budget and the proposals all allow. */
  function ChunkHorizon<A>(limits: Limits, used: nat, p: Proposals<A>): (h: nat)
    ensures h <= limits.executionHorizon && h <= p.length && (h == 0 || used + h <= limits.budget)
    ensures h == limits.executionHorizon || h == p.length || used + h >= limits.budget
  {
    Max(0, Min(limits.executionHorizon, Min(limits.budget - used, p.length)))
  }

  /** From simulator state `prior`, the seed and the history reach a root without ending, and sampling there gives
      these candidates. */
  ghost predicate SampledFrom<S, A, O>(env: Env<S, A, O>, policy: Policy<O, A>, limits: Limits, seed: int, d: nat,
                                       history: seq<A>, cs: seq<Candidate<A>>, prior: S) {
    var (root, ended) := Root(env, prior, seed, history);
    var p := policy.sample(env.observe(root), d);
    !ended && cs == Candidates(env, root, p, ChunkHorizon(limits, |history|, p))
  }

  /** The candidates were tried from the root that this seed and history name, whatever the simulator did before. */
  ghost predicate SampledUnder<S(!new), A, O>(env: Env<S, A, O>, policy: Policy<O, A>, limits: Limits, seed: int, d: nat,
                                             history: seq<A>, cs: seq<Candidate<A>>) {
    exists prior: S :: SampledFrom(env, policy, limits, seed, d, history, cs, prior)
  }

  /** A segment is the best candidate of its decision. */
  ghost predicate Chosen<A>(cs: seq<Candidate<A>>, s: Segment<A>) {
    exists k: nat :: IsChoice(cs, Continue(k)) && s.actions == cs[k].actions && s.rewards == cs[k].rewards
  }

  /** A decision as recorded: its place, and the history its candidates were sampled under. */
  ghost predicate DecisionFits<S(!new), A, O>(env: Env<S, A, O>, policy: Policy<O, A>, limits: Limits, seed: int, d: nat,
                                             history: seq<A>, decision: Decision<A>) {
    && decision.index == d && decision.startControlStep == |history| < limits.budget
    && SampledUnder(env, policy, limits, seed, d, history, decision.candidates)
  }

  /** How the continuation of a decision ended: did it succeed, and did its world end the episode. */
  ghost predicate Continued<A>(cs: seq<Candidate<A>>, success: bool, over: bool) {
    exists k: nat :: IsChoice(cs, Continue(k)) && cs[k].success == success && (cs[k].terminated || cs[k].truncated) == over
  }

  ghost predicate LastContinued<A>(decisions: seq<Decision<A>>, path: seq<Segment<A>>, success: bool, over: bool) {
    && |path| <= |decisions| <= |path| + 1
    && if path == [] then !success && !over else Continued(decisions[|path| - 1].candidates, success, over)
  }

  /** Decisions are numbered from zero, each sampled under the history of the path in front of it; each segment of the
      path is the continuation of its decision, and one that another decision follows neither succeeded nor ended. */
  ghost predicate Recorded<S(!new), A, O>(env: Env<S, A, O>, policy: Policy<O, A>, limits: Limits, seed: int,
                                         decisions: seq<Decision<A>>, path: seq<Segment<A>>) {
    && Tiles(path) && |path| <= |decisions| <= |path| + 1
    && |Actions(path)| <= limits.budget
    && (forall d: nat :: d < |decisions| ==> DecisionFits(env, policy, limits, seed, d, Actions(path[..d]), decisions[d]))
    && (forall d: nat :: d < |path| ==> Chosen(decisions[d].candidates, path[d]))
    && (forall d: nat :: d < |path| && d + 1 < |decisions| ==> Continued(decisions[d].candidates, false, false))
  }

  /** A root that is ready for the next decision. */
  ghost predicate AtRoot<S(!new), A, O>(env: Env<S, A, O>, seed: int, history: seq<A>, s: S) {
    exists prior: S :: Root(env, prior, seed, history) == (s, false)
  }

  /** Some replay of the history reached its end. */
  ghost predicate Replayable<S(!new), A, O>(env: Env<S, A, O>, seed: int, history: seq<A>) {
    exists s: S :: AtRoot(env, seed, history, s)
  }

  /** Why a collection is given up at its last decision: no world executed a step, a candidate contradicts itself, or
      the replay of the path with its continuation ends early. */
  ghost predicate GivenUp<S(!new), A, O>(env: Env<S, A, O>, policy: Policy<O, A>, limits: Limits, seed: int,
                                        decisions: seq<Decision<A>>, path: seq<Segment<A>>, failure: Failure) {
    && Recorded(env, policy, limits, seed, decisions, path) && |decisions| == |path| + 1
    && var cs := decisions[|path|].candidates;
       match failure
       case NoBranchExecuted => cs == []
       case InconsistentCandidate => exists i :: 0 <= i < |cs| && cs[i].success && (cs[i].failure || cs[i].contact || cs[i].displacement)
       case ContinuationReplayEnded => exists k: nat :: IsChoice(cs, Continue(k)) && !cs[k].terminated && !cs[k].truncated
                                                          && EndsEarly(env, seed, Actions(path) + cs[k].actions)
  }

  ghost predicate EndsEarly<S(!new), A, O>(env: Env<S, A, O>, seed: int, history: seq<A>) {
    exists prior: S :: Root(env, prior, seed, history).1
  }

  // ----- collection -----

  /** Samples the policy at a root, runs the chunk and lists the candidates. */
  method TryBranches<S, A, O>(env: Env<S, A, O>, policy: Policy<O, A>, limits: Limits, root: S, d: nat, used: nat)
    returns (s: S, cs: seq<Candidate<A>>)
    ensures var p := policy.sample(env.observe(root), d); cs == Candidates(env, root, p, ChunkHorizon(limits, used, p))
  {
    var p := policy.sample(env.observe(root), d);
    var horizon := ChunkHorizon(limits, used, p);
    hide IsCourse, IsPrefix, Tried;
    var branches;
    s, branches := RunChunk(env, root, p, horizon);
    if horizon == 0 {
      return s, [];
    }
    cs := [];
    for w := 0 to env.worlds
      invariant |cs| == w
      invariant forall v :: 0 <= v < w ==> cs[v] == CandidateOf(v, branches[v], env.final(s, v))
    {
      cs := cs + [CandidateOf(w, branches[w], env.final(s, w))];
    }
  }

  lemma {:induction false} RecordDecision<S(!new), A, O>(env: Env<S, A, O>, policy: Policy<O, A>, limits: Limits, seed: int,
                                      decisions: seq<Decision<A>>, path: seq<Segment<A>>, cs: seq<Candidate<A>>)
    requires Recorded(env, policy, limits, seed, decisions, path) && |decisions| == |path| && |Actions(path)| < limits.budget
    requires SampledUnder(env, policy, limits, seed, |path|, Actions(path), cs) && LastContinued(decisions, path, false, false)
    ensures Recorded(env, policy, limits, seed, decisions + [Decision(|path|, |Actions(path)|, cs)], path)
  {
    hide SampledUnder, Actions, Tiles, Chosen, Continued;
    assert path[..|path|] == path;
  }

  lemma {:induction false} RecordSegment<S(!new), A, O>(env: Env<S, A, O>, policy: Policy<O, A>, limits: Limits, seed: int,
                                     decisions: seq<Decision<A>>, path: seq<Segment<A>>, next: Segment<A>)
    requires Recorded(env, policy, limits, seed, decisions, path) && |decisions| == |path| + 1
    requires next.decisionIndex == |path| && next.startControlStep == |Actions(path)|
    requires next.validSteps == |next.actions| == |next.rewards| && 1 <= next.validSteps
    requires |Actions(path)| + next.validSteps <= limits.budget && Chosen(decisions[|path|].candidates, next)
    ensures Recorded(env, policy, limits, seed, decisions, path + [next])
  {
    hide DecisionFits, Actions, Rewards, Chosen, Tiles, Continued;
    TilesMore(path, next);
    var longer := path + [next];
    forall d: nat | d < |decisions| ensures DecisionFits(env, policy, limits, seed, d, Actions(longer[..d]), decisions[d]) {
      assert longer[..d] == path[..d];
    }
    forall d: nat | d < |longer| ensures Chosen(decisions[d].candidates, longer[d]) {
      assert d < |path| ==> longer[d] == path[d];
    }
  }

  /** Why collection stopped: the budget is used up, the last continuation succeeded or ended the episode, or the
      last decision had no safe candidate. Success is that of the last continuation. */
  ghost predicate StoppedFor<A>(limits: Limits, decisions: seq<Decision<A>>, path: seq<Segment<A>>, success: bool,
                                over: bool) {
    && LastContinued(decisions, path, success, over)
    && (|Actions(path)| >= limits.budget || success || over
        || (|decisions| == |path| + 1 && decisions[|path|].candidates != [] && IsChoice(decisions[|path|].candidates, NoneSafe)))
  }

  /** The variables of the collection loop; `over` records that the last continuation ended its world. */
  datatype Progress<S, A> = Progress(root: S, rootActions: seq<A>, path: seq<Segment<A>>, decisions: seq<Decision<A>>,
                                     rewards: seq<real>, score: real, success: bool, over: bool, done: bool)

  ghost predicate Underway<S(!new), A, O>(env: Env<S, A, O>, policy: Policy<O, A>, limits: Limits, seed: int,
                                          g: Progress<S, A>) {
    && Recorded(env, policy, limits, seed, g.decisions, g.path)
    && g.rootActions == Actions(g.path) && g.rewards == Rewards(g.path) && g.score == Sum(g.rewards)
    && LastContinued(g.decisions, g.path, g.success, g.over)
    && (!g.over ==> Replayable(env, seed, g.rootActions))
    && (!g.done ==> |g.decisions| == |g.path| && !g.success && !g.over && AtRoot(env, seed, g.rootActions, g.root))
    && (g.done ==> StoppedFor(limits, g.decisions, g.path, g.success, g.over))
  }

  /** A continuation becomes the next segment; unless it ended its world, the simulator is replayed to its end. */
  method Continuing<S(!new), A, O>(env: Env<S, A, O>, policy: Policy<O, A>, limits: Limits, seed: int,
                                   g: Progress<S, A>, s: S, 
                                   cs: seq<Candidate<A>>, k: nat)
    returns (next: Option<Progress<S, A>>)
    requires Recorded(env, policy, limits, seed, g.decisions, g.path) && |g.decisions| == |g.path| + 1
    requires g.decisions[|g.path|].candidates == cs && IsChoice(cs, Continue(k)) && k < |cs|
    requires g.rootActions == Actions(g.path) && g.rewards == Rewards(g.path) && g.score == Sum(g.rewards)
    requires 1 <= |cs[k].actions| == |cs[k].rewards| <= limits.budget - |g.rootActions| && cs[k].score == Sum(cs[k].rewards)
    ensures next.Some? ==> Underway(env, policy, limits, seed, next.value) && |next.value.rootActions| > |g.rootActions|
    ensures next.None? ==> GivenUp(env, policy, limits, seed, g.decisions, g.path, ContinuationReplayEnded)
  {
    hide IsChoice, SampledUnder, Root, Recorded, Actions, Rewards, Sum, LastContinued, Chosen, Continued, AtRoot;
    var c := cs[k];
    var segment := Segment(|g.path|, |g.rootActions|, |c.actions|, c.actions, c.rewards);
    var root := g.root;
    if !c.terminated && !c.truncated {
      var ended;
      root, ended := ResetAndReplay(env, s, seed, g.rootActions + c.actions);
      if ended {
        ReplayGivesUp(env, policy, limits, seed, g.decisions, g.path, k, s);
        return None;
      }
    }
    var over := c.terminated || c.truncated;
    ChosenContinues(cs, k, segment, over);
    if !over {
      ReachedRoot(env, s, seed, g.rootActions + c.actions, root);
    }
    RecordSegment(env, policy, limits, seed, g.decisions, g.path, segment);
    SegmentAppended(env, policy, limits, seed, g.decisions, g.path, segment);
    SumSplit(g.rewards, c.rewards);
    var used := g.rootActions + c.actions;
    LastIsContinued(g.decisions, g.path + [segment], c.success, over);
    next := Some(Progress(root, used, g.path + [segment], g.decisions, g.rewards + c.rewards, g.score + c.score, c.success,
                          over, c.success || over || |used| >= limits.budget));
  }

  lemma {:induction false} ReplayGivesUp<S(!new), A, O>(env: Env<S, A, O>, policy: Policy<O, A>, limits: Limits, seed: int,
                                     decisions: seq<Decision<A>>, path: seq<Segment<A>>, k: nat, prior: S)
    requires Recorded(env, policy, limits, seed, decisions, path) && |decisions| == |path| + 1
    requires var cs := decisions[|path|].candidates;
      IsChoice(cs, Continue(k)) && k < |cs| && !cs[k].terminated && !cs[k].truncated && Root(env, prior, seed, Actions(path) + cs[k].actions).1
    ensures GivenUp(env, policy, limits, seed, decisions, path, ContinuationReplayEnded)
  {
    hide Recorded, IsChoice, Root;
  }

  lemma ChosenContinues<A>(cs: seq<Candidate<A>>, k: nat, segment: Segment<A>, over: bool)
    requires IsChoice(cs, Continue(k)) && k < |cs|
    requires segment.actions == cs[k].actions && segment.rewards == cs[k].rewards && over == (cs[k].terminated || cs[k].truncated)
    ensures Chosen(cs, segment) && Continued(cs, cs[k].success, over)
  {
  }

  lemma ReachedRoot<S(!new), A, O>(env: Env<S, A, O>, prior: S, seed: int, history: seq<A>, root: S)
    requires Root(env, prior, seed, history) == (root, false)
    ensures AtRoot(env, seed, history, root)
  {
  }

  lemma LastIsContinued<A>(decisions: seq<Decision<A>>, path: seq<Segment<A>>, success: bool, over: bool)
    requires path != [] && |decisions| == |path| && Continued(decisions[|path| - 1].candidates, success, over)
    ensures LastContinued(decisions, path, success, over)
  {
  }

  /** One pass of the collection loop. */
  method Decide<S(!new), A, O>(env: Env<S, A, O>, policy: Policy<O, A>, limits: Limits, seed: int, g: Progress<S, A>)
    returns (next: Progress<S, A>, failure: Option<Failure>)
    requires Underway(env, policy, limits, seed, g) && |g.rootActions| < limits.budget && !g.done
    ensures failure.None? ==>
              && Underway(env, policy, limits, seed, next)
              && (|next.rootActions| > |g.rootActions| || (next.done && next.rootActions == g.rootActions))
    ensures failure.Some? ==> GivenUp(env, policy, limits, seed, next.decisions, next.path, failure.value)
  {
    hide Candidates, SampledUnder, Root, Recorded, LastContinued;
    var s, cs := TryBranches(env, policy, limits, g.root, |g.path|, |g.rootActions|);
    Sampled(env, policy, limits, seed, g.rootActions, g.root, |g.path|);
    RecordDecision(env, policy, limits, seed, g.decisions, g.path, cs);
    next := g.(decisions := g.decisions + [Decision(|g.path|, |g.rootActions|, cs)]);
    if cs == [] {
      return next, Some(NoBranchExecuted);
    }
    var choice := SelectContinuation(cs);
    if choice.Inconsistent? {
      return next, Some(InconsistentCandidate);
    }
    if choice.NoneSafe? {
      LastContinuedKept(g.decisions, next.decisions, g.path, g.success, g.over);
      return next.(done := true), None;
    }
    var p := policy.sample(env.observe(g.root), |g.path|);
    CandidatesFit(env, g.root, p, ChunkHorizon(limits, |g.rootActions|, p));
    var continued := Continuing(env, policy, limits, seed, next, s, cs, choice.index);
    if continued.None? {
      return next, Some(ContinuationReplayEnded);
    }
    next, failure := continued.value, None;
  }

  /** Builds one root path; every decision starts at the canonical root of the path so far. */
  method CollectEpisode<S(!new), A, O>(env: Env<S, A, O>, policy: Policy<O, A>, limits: Limits, prior: S, seed: int)
    returns (outcome: Outcome<A>)
    ensures outcome.Collected? ==>
              var e := outcome.episode;
              && e.seed == seed && Recorded(env, policy, limits, seed, e.decisions, e.path)
              && e.rewards == Rewards(e.path) && e.score == Sum(e.rewards)
              && |e.path| <= |e.rewards| <= limits.budget
              && exists over :: StoppedFor(limits, e.decisions, e.path, e.success, over) && (over || Replayable(env, seed, Actions(e.path)))
    ensures outcome.Failed? ==>
              exists decisions: seq<Decision<A>>, path: seq<Segment<A>> ::
                GivenUp(env, policy, limits, seed, decisions, path, outcome.failure)
  {
    hide Recorded, Root, GivenUp;
    RecordedEmpty(env, policy, limits, seed);
    var root, _ := ResetAndReplay(env, prior, seed, []);
    FreshRoot(env, prior, seed);
    var g: Progress<S, A> := Progress(root, [], [], [], [], 0.0, false, false, false);
    while |g.rootActions| < limits.budget && !g.done
      invariant Underway(env, policy, limits, seed, g)
      decreases limits.budget - |g.rootActions| + if g.done then 0 else 1
    {
      var next, failure := Decide(env, policy, limits, seed, g);
      if failure.Some? {
        assert GivenUp(env, policy, limits, seed, next.decisions, next.path, failure.value);
        return Failed(failure.value);
      }
      g := next;
    }
    WithinBudget(env, policy, limits, seed, g.decisions, g.path);
    assert StoppedFor(limits, g.decisions, g.path, g.success, g.over) && (g.over || Replayable(env, seed, Actions(g.path)));
    outcome := Collected(Episode(seed, g.decisions, g.path, g.rewards, g.score, g.success));
  }

  lemma {:induction false} SegmentAppended<S(!new), A, O>(env: Env<S, A, O>, policy: Policy<O, A>, limits: Limits, seed: int,
                                       decisions: seq<Decision<A>>, path: seq<Segment<A>>, next: Segment<A>)
    requires Recorded(env, policy, limits, seed, decisions, path)
    requires next.decisionIndex == |path| && next.startControlStep == |Actions(path)|
    requires next.validSteps == |next.actions| == |next.rewards| && 1 <= next.validSteps
    ensures Actions(path + [next]) == Actions(path) + next.actions && Rewards(path + [next]) == Rewards(path) + next.rewards
  {
    TilesMore(path, next);
  }

  lemma LastContinuedKept<A>(decisions: seq<Decision<A>>, more: seq<Decision<A>>, path: seq<Segment<A>>,
                             success: bool, over: bool)
    requires LastContinued(decisions, path, success, over) && |decisions| == |path| && |more| == |path| + 1 && more[..|path|] == decisions
    ensures LastContinued(more, path, success, over)
  {
    assert path != [] ==> more[|path| - 1] == more[..|path|][|path| - 1];
  }

  lemma FreshRoot<S(!new), A, O>(env: Env<S, A, O>, prior: S, seed: int)
    ensures AtRoot(env, seed, [], Root(env, prior, seed, []).0)
  {
    assert Root(env, prior, seed, []) == (Root(env, prior, seed, []).0, false);
  }

  /** Each continued decision uses up at least one control step of the budget. */
  lemma {:induction false} WithinBudget<S(!new), A, O>(env: Env<S, A, O>, policy: Policy<O, A>, limits: Limits, seed: int,
                                    decisions: seq<Decision<A>>, path: seq<Segment<A>>)
    ensures Recorded(env, policy, limits, seed, decisions, path) ==> |path| <= |Actions(path)| == |Rewards(path)| <= limits.budget
  {
    if Recorded(env, policy, limits, seed, decisions, path) {
      TiledLength(path);
    }
  }

  lemma RecordedEmpty<S(!new), A, O>(env: Env<S, A, O>, policy: Policy<O, A>, limits: Limits, seed: int)
    ensures Recorded<S, A, O>(env, policy, limits, seed, [], [])
  {
  }

  lemma Sampled<S(!new), A, O>(env: Env<S, A, O>, policy: Policy<O, A>, limits: Limits, seed: int, history: seq<A>,
                               root: S, d: nat)
    requires AtRoot(env, seed, history, root)
    ensures var p := policy.sample(env.observe(root), d);
      SampledUnder(env, policy, limits, seed, d, history, Candidates(env, root, p, ChunkHorizon(limits, |history|, p)))
  {
    var prior: S :| Root(env, prior, seed, history) == (root, false);
    var p := policy.sample(env.observe(root), d);
    assert SampledFrom(env, policy, limits, seed, d, history, Candidates(env, root, p, ChunkHorizon(limits, |history|, p)), prior);
  }

  // ----- rebuilding roots from the archive -----

  /** What a decision of a recorded episode was sampled from: the history its archived path gives, whose length
      is its archived start, on a root that the replay reaches without ending. */
  lemma {:induction false} RecipeIsHistory<S(!new), A, O>(env: Env<S, A, O>, policy: Policy<O, A>, limits: Limits,
                                                          e: Episode<A>, d: nat)
    ensures Recorded(env, policy, limits, e.seed, e.decisions, e.path) && d < |e.decisions| ==>
              && PathBefore(e.path, d) == Actions(e.path[..d]) && |PathBefore(e.path, d)| == e.decisions[d].startControlStep
              && SampledUnder(env, policy, limits, e.seed, d, PathBefore(e.path, d), e.decisions[d].candidates)
  {
    if Recorded(env, policy, limits, e.seed, e.decisions, e.path) && d < |e.decisions| {
      PathBeforeTiles(e.path, d);
    }
  }

  datatype Rebuilt<O> = Observation(value: O) | MissingDecision | ReplayEnded

  /** What materialization shows for a decision, from a simulator in state `prior`. */
  ghost function Rebuilding<S, A, O>(env: Env<S, A, O>, prior: S, e: Episode<A>, d: nat): Rebuilt<O> {
    var (root, ended) := Root(env, prior, e.seed, PathBefore(e.path, d));
    if forall i :: 0 <= i < |e.decisions| ==> e.decisions[i].index != d then MissingDecision
    else if ended then ReplayEnded
    else Observation(env.observe(root))
  }

  /** Some replay of the history comes to this. */
  ghost predicate IsReplayed<S(!new), A(!new), O>(env: Env<S, A, O>, start: S, history: seq<A>, root: S, ended: bool) {
    exists run: Course<S, A> :: IsReplay(env, start, history, run, root, ended)
  }

  /** The part of historical materialization that rebuilds a decision's root. */
  method RebuildRoot<S(!new), A(!new), O>(env: Env<S, A, O>, prior: S, e: Episode<A>,
                                          d: nat) returns (r: Rebuilt<O>, history: seq<A>)
    ensures history == PathBefore(e.path, d) && r == Rebuilding(env, prior, e, d)
    ensures r.MissingDecision? <==> forall i :: 0 <= i < |e.decisions| ==> e.decisions[i].index != d
    ensures !r.MissingDecision? ==> exists root: S, ended: bool ::
              IsReplayed(env, env.reset(prior, e.seed), history, root, ended) && r == if ended then ReplayEnded else Observation(env.observe(root))
  {
    hide IsReplay;
    history := HistoryFor(e.path, d);
    var found := false;
    for i := 0 to |e.decisions|
      invariant found <==> exists j :: 0 <= j < i && e.decisions[j].index == d
    {
      found := found || e.decisions[i].index == d;
    }
    if !found {
      return MissingDecision, history;
    }
    var root, ended := ResetAndReplay(env, prior, e.seed, history);
    assert IsReplayed(env, env.reset(prior, e.seed), history, root, ended);
    r := if ended then ReplayEnded else Observation(env.observe(root));
  }

  /** When the reset does not depend on what the simulator did before, materialization of any decision of any
      collected episode, from any simulator state, never ends early and shows the very observation that the policy
      was sampled on, whatever state the collector's own reset started from; sampling it again gives the archived
      candidates. */
  lemma {:induction false} MaterializationFaithful<S(!new), A, O>(env: Env<S, A, O>, policy: Policy<O, A>,
                                                                  limits: Limits, e: Episode<A>, d: nat, later: S)
    requires forall a: S, b: S :: env.reset(a, e.seed) == env.reset(b, e.seed)
    ensures Recorded(env, policy, limits, e.seed, e.decisions, e.path) && d < |e.decisions| ==>
              var history, cs := PathBefore(e.path, d), e.decisions[d].candidates;
              && SampledFrom(env, policy, limits, e.seed, d, history, cs, later)
              && forall prior: S :: SampledFrom(env, policy, limits, e.seed, d, history, cs, prior) ==>
                   Rebuilding(env, later, e, d) == Observation(env.observe(Root(env, prior, e.seed, history).0))
  {
    hide Root, Candidates;
    if Recorded(env, policy, limits, e.seed, e.decisions, e.path) && d < |e.decisions| {
      RecipeIsHistory(env, policy, limits, e, d);
      var history, cs := PathBefore(e.path, d), e.decisions[d].candidates;
      assert e.decisions[d].index == d;
      forall prior: S | SampledFrom(env, policy, limits, e.seed, d, history, cs, prior)
        ensures SampledFrom(env, policy, limits, e.seed, d, history, cs, later)
        ensures Rebuilding(env, later, e, d) == Observation(env.observe(Root(env, prior, e.seed, history).0))
      {
        RootsAgree(env, prior, later, e.seed, history);
      }
    }
  }
}
