/** The auto-reset wrapper: it hands out pre-reset rewards and flags, and keeps each world's last final data. */
module AutoReset {

  /** Tensors have one row per world; a tree of tensors is flattened to its rows. */
  type Row = seq<real>

  /** What the inner environment computes in one step, before any reset. */
  datatype Transition = Transition(observation: seq<Row>, reward: seq<real>, terminated: seq<bool>, truncated: seq<bool>, episode: seq<Row>)

  predicate Shaped(t: Transition, worlds: nat) {
    |t.observation| == |t.reward| == |t.terminated| == |t.truncated| == |t.episode| == worlds
  }

  /** The inner environment owns its tensors and returns the same ones every time; a reset overwrites them in
      place with whatever it likes. */
  class GrootNewtonEnv {
    const worlds: nat
    const observation: array<Row>
    const reward: array<real>
    const terminated: array<bool>
    const truncated: array<bool>
    const episode: array<Row>

    ghost predicate Valid() {
      && observation.Length == reward.Length == terminated.Length == truncated.Length == episode.Length == worlds
      && observation != episode && terminated != truncated
    }

    constructor (worlds: nat)
      ensures Valid() && this.worlds == worlds
      ensures fresh(observation) && fresh(reward) && fresh(terminated) && fresh(truncated) && fresh(episode)
    {
      this.worlds := worlds;
      observation := new Row[worlds](_ => []);
      reward := new real[worlds](_ => 0.0);
      terminated := new bool[worlds](_ => false);
      truncated := new bool[worlds](_ => false);
      episode := new Row[worlds](_ => []);
    }

    ghost function View(): Transition
      reads observation, reward, terminated, truncated, episode
    {
      Transition(observation[..], reward[..], terminated[..], truncated[..], episode[..])
    }

    /** Overwrites every tensor, on a step as on a reset. */
    method Overwrite(t: Transition)
      requires Valid() && Shaped(t, worlds)
      modifies observation, reward, terminated, truncated, episode
      ensures View() == t
    {
      for w := 0 to worlds
        invariant forall v :: 0 <= v < w ==>
                    observation[v] == t.observation[v] && reward[v] == t.reward[v] && terminated[v] == t.terminated[v]
                    && truncated[v] == t.truncated[v] && episode[v] == t.episode[v]
      {
        observation[w], reward[w], terminated[w], truncated[w], episode[w] :=
          t.observation[w], t.reward[w], t.terminated[w], t.truncated[w], t.episode[w];
      }
    }
  }

  // ----- what the wrapper computes, on values -----

  function DoneMask(t: Transition, ignoreTerminations: bool): (d: seq<bool>)
    requires |t.terminated| == |t.truncated|
    ensures |d| == |t.terminated|
  {
    seq(|t.terminated|, w requires 0 <= w < |t.terminated| => (!ignoreTerminations && t.terminated[w]) || t.truncated[w])
  }

  /** Masked rows come from the source, the others stay. */
  function CopyMasked(destination: seq<Row>, source: seq<Row>, mask: seq<bool>): (r: seq<Row>)
    requires |destination| == |source| == |mask|
    ensures |r| == |mask|
  {
    seq(|mask|, w requires 0 <= w < |mask| => if mask[w] then source[w] else destination[w])
  }

  /** A world's episode ends by truncation, or by termination unless terminations are ignored. */
  predicate Ends(t: Transition, ignoreTerminations: bool, w: nat)
    requires w < |t.terminated| && w < |t.truncated|
  {
    t.truncated[w] || (t.terminated[w] && !ignoreTerminations)
  }

  class GrootNewtonVectorEnv {
    const env: GrootNewtonEnv
    const autoReset: bool
    const ignoreTerminations: bool
    var finalObservation: array?<Row>
    var finalEpisode: array?<Row>

    ghost predicate Valid()
      reads this
    {
      && env.Valid()
      && (finalObservation == null <==> finalEpisode == null)
      && (finalObservation != null ==>
            && finalObservation.Length == finalEpisode.Length == env.worlds && finalObservation != finalEpisode
            && finalObservation !in {env.observation, env.episode} && finalEpisode !in {env.observation, env.episode})
    }

    constructor (env: GrootNewtonEnv, autoReset: bool, ignoreTerminations: bool)
      requires env.Valid()
      ensures Valid() && this.env == env && this.autoReset == autoReset && this.ignoreTerminations == ignoreTerminations
      ensures finalObservation == null
    {
      this.env, this.autoReset, this.ignoreTerminations := env, autoReset, ignoreTerminations;
      finalObservation, finalEpisode := null, null;
    }

    static method Clone<T(0)>(a: array<T>) returns (b: array<T>)
      ensures fresh(b) && b[..] == a[..]
    {
      b := new T[a.Length];
      for i := 0 to a.Length
        invariant forall j :: 0 <= j < i ==> b[j] == a[j]
      {
        b[i] := a[i];
      }
    }

    static method CopyRows(destination: array<Row>, source: array<Row>, mask: seq<bool>)
      requires destination.Length == source.Length == |mask| && destination != source
      modifies destination
      ensures destination[..] == CopyMasked(old(destination[..]), source[..], mask)
    {
      for w := 0 to |mask|
        invariant forall v :: 0 <= v < |mask| ==>
                    destination[v] == if v < w && mask[v] then source[v] else old(destination[v])
      {
        if mask[w] {
          destination[w] := source[w];
        }
      }
    }

    /** Copies the finished worlds' rows into the final buffers, which are made on first use. */
    method KeepFinals(ghost next: Transition, done: seq<bool>)
      requires Valid() && Shaped(next, env.worlds) && |done| == env.worlds
      requires env.observation[..] == next.observation && env.episode[..] == next.episode
      modifies this, finalObservation, finalEpisode
      ensures Valid() && finalObservation != null && finalEpisode != null
      ensures old(finalObservation) != null ==>
                && finalObservation == old(finalObservation) && finalEpisode == old(finalEpisode)
                && finalObservation[..] == CopyMasked(old(finalObservation[..]), next.observation, done)
                && finalEpisode[..] == CopyMasked(old(finalEpisode[..]), next.episode, done)
      ensures old(finalObservation) == null ==> fresh(finalObservation) && fresh(finalEpisode)
      ensures forall w :: 0 <= w < env.worlds && done[w] ==>
                finalObservation[w] == next.observation[w] && finalEpisode[w] == next.episode[w]
    {
      if finalObservation == null {
        finalObservation := new Row[env.worlds](_ => []);
        finalEpisode := new Row[env.worlds](_ => []);
      }
      CopyRows(finalObservation, env.observation, done);
      CopyRows(finalEpisode, env.episode, done);
      assert forall w :: 0 <= w < env.worlds && done[w] ==> finalObservation[..][w] == next.observation[w] && finalEpisode[..][w] == next.episode[w];
    }

    /** Clones of the step's rewards and flags, with terminations masked if they are ignored. */
    method Outputs(ghost next: Transition)
      returns (reward: array<real>, terminated: array<bool>, truncated: array<bool>, done: seq<bool>)
      requires Valid() && Shaped(next, env.worlds) && env.View() == next
      ensures fresh(reward) && fresh(terminated) && fresh(truncated)
      ensures reward[..] == next.reward && truncated[..] == next.truncated
      ensures terminated[..] == if ignoreTerminations then seq(env.worlds, _ => false) else next.terminated
      ensures done == DoneMask(next, ignoreTerminations)
    {
      reward := Clone(env.reward);
      terminated := Clone(env.terminated);
      truncated := Clone(env.truncated);
      if ignoreTerminations {
        for w := 0 to env.worlds
          modifies terminated
          invariant forall v :: 0 <= v < env.worlds ==> terminated[v] == (v >= w && next.terminated[v])
        {
          terminated[w] := false;
        }
      }
      done := seq(env.worlds, w requires 0 <= w < env.worlds reads terminated, truncated => terminated[w] || truncated[w]);
    }

    /** Steps the inner environment and resets its finished worlds. `next` is what the simulator makes of the
        step; `resetTo` is what the reset leaves in the same tensors, both arbitrary. */
    method Step(next: Transition, resetTo: Transition)
      returns (reward: array<real>, terminated: array<bool>, truncated: array<bool>, done: seq<bool>)
      requires Valid() && Shaped(next, env.worlds) && Shaped(resetTo, env.worlds)
      modifies this, env.observation, env.reward, env.terminated, env.truncated, env.episode, finalObservation, finalEpisode
      ensures Valid()
      ensures !autoReset ==>
                && reward == env.reward && terminated == env.terminated && truncated == env.truncated
                && env.View() == next && finalObservation == old(finalObservation) && finalEpisode == old(finalEpisode)
                && (finalObservation != null ==>
                      finalObservation[..] == old(finalObservation[..]) && finalEpisode[..] == old(finalEpisode[..]))
      ensures autoReset ==>
                && fresh(reward) && fresh(terminated) && fresh(truncated)
                && reward[..] == next.reward && truncated[..] == next.truncated
                && terminated[..] == (if ignoreTerminations then seq(env.worlds, _ => false) else next.terminated)
                && |done| == env.worlds && (forall w: nat :: w < env.worlds ==> (done[w] <==> Ends(next, ignoreTerminations, w)))
                && env.View() == resetTo
      ensures autoReset ==> finalObservation != null && finalEpisode != null
      ensures autoReset && old(finalObservation) != null ==>
                && finalObservation == old(finalObservation) && finalEpisode == old(finalEpisode)
                && (forall w :: 0 <= w < env.worlds ==>
                      && finalObservation[w] == (if done[w] then next.observation[w] else old(finalObservation[w]))
                      && finalEpisode[w] == (if done[w] then next.episode[w] else old(finalEpisode[w])))
      ensures autoReset && old(finalObservation) == null ==>
                && fresh(finalObservation) && fresh(finalEpisode)
                && forall w :: 0 <= w < env.worlds && done[w] ==>
                     finalObservation[w] == next.observation[w] && finalEpisode[w] == next.episode[w]
    {
      env.Overwrite(next);
      if !autoReset {
        return env.reward, env.terminated, env.truncated, [];
      }
      reward, terminated, truncated, done := Outputs(next);
      KeepFinals(next, done);
      env.Overwrite(resetTo);
    }
  }

  // ----- whole runs -----

  /** One call of the wrapper: the transition the simulator makes, and what the reset leaves behind. */
  datatype Call = Call(next: Transition, resetTo: Transition)

  ghost predicate Calls(calls: seq<Call>, worlds: nat) {
    forall i :: 0 <= i < |calls| ==> Shaped(calls[i].next, worlds) && Shaped(calls[i].resetTo, worlds)
  }

  /** `i` is world `w`'s most recent completion. */
  ghost predicate LastCompletion(calls: seq<Call>, worlds: nat, ignoreTerminations: bool, w: nat, i: nat)
    requires Calls(calls, worlds) && w < worlds
  {
    && i < |calls| && Ends(calls[i].next, ignoreTerminations, w)
    && forall j :: i < j < |calls| ==> !Ends(calls[j].next, ignoreTerminations, w)
  }

  lemma LastCompletionMore(calls: seq<Call>, n: nat, worlds: nat, ignoreTerminations: bool, w: nat, i: nat)
    requires Calls(calls, worlds) && w < worlds && n < |calls| && LastCompletion(calls[..n + 1], worlds, ignoreTerminations, w, i)
    ensures var done := Ends(calls[n].next, ignoreTerminations, w);
      && (i == n || (!done && LastCompletion(calls[..n], worlds, ignoreTerminations, w, i)))
      && (i == n ==> done)
  {
    hide Ends;
    assert calls[..n + 1][n] == calls[n];
    assert forall j :: 0 <= j < n ==> calls[..n + 1][j] == calls[..n][j] == calls[j];
  }

  /** Any run from a new wrapper: every world that has ever completed has the observation and the episode record
      of its most recent completion in the final buffers, although each reset overwrote the simulator's tensors. */
  method RunWrapper(v: GrootNewtonVectorEnv, calls: seq<Call>)
    requires v.Valid() && v.autoReset && v.finalObservation == null && Calls(calls, v.env.worlds)
    modifies v, v.env.observation, v.env.reward, v.env.terminated, v.env.truncated, v.env.episode
    ensures v.Valid() && (calls != [] ==> v.finalObservation != null)
    ensures forall w: nat, i: nat :: w < v.env.worlds && LastCompletion(calls, v.env.worlds, v.ignoreTerminations, w, i) ==>
              && v.finalObservation[w] == calls[i].next.observation[w]
              && v.finalEpisode[w] == calls[i].next.episode[w]
  {
    hide Ends;
    for n := 0 to |calls|
      invariant v.Valid() && (n > 0 ==> v.finalObservation != null && fresh(v.finalObservation) && fresh(v.finalEpisode))
      invariant n == 0 ==> v.finalObservation == null
      invariant forall w: nat, i: nat :: w < v.env.worlds && LastCompletion(calls[..n], v.env.worlds, v.ignoreTerminations, w, i) ==>
                  && v.finalObservation[w] == calls[i].next.observation[w]
                  && v.finalEpisode[w] == calls[i].next.episode[w]
    {
      var _, _, _, done := v.Step(calls[n].next, calls[n].resetTo);
      forall w: nat, i: nat | w < v.env.worlds && LastCompletion(calls[..n + 1], v.env.worlds, v.ignoreTerminations, w, i)
        ensures i == n || (!done[w] && LastCompletion(calls[..n], v.env.worlds, v.ignoreTerminations, w, i))
        ensures i == n ==> done[w]
      {
        LastCompletionMore(calls, n, v.env.worlds, v.ignoreTerminations, w, i);
      }
    }
    assert calls[..|calls|] == calls;
  }
}
