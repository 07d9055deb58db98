/** Collecting a corpus with every mode under every reset, and the structural checks it must pass. */
module MultimodeCorpus {
  import opened ActionChunks

  datatype Outcome = Success | Failure | Timeout

  /** A reset group, by the batch and world it ran in. */
  datatype GroupId = GroupId(batch: nat, world: nat)

  datatype Trajectory<S, A> = Trajectory(group: GroupId, seed: int, mode: string, states: seq<S>, actions: seq<A>, outcome: Outcome)

  /** A trajectory's identity: its group and its mode. */
  type Id = (GroupId, string)

  datatype Record = Record(mode: string, group: GroupId)

  /** `batches * worlds` reset groups. */
  datatype Config = Config(batches: nat, worlds: nat, modes: seq<string>, library: seq<string>, maxSteps: nat, minimumSuccesses: nat)

  predicate Distinct<T(==)>(s: seq<T>) {
    forall i, j :: 0 <= i < j < |s| ==> s[i] != s[j]
  }

  function Elements<T>(s: seq<T>): set<T> {
    set x | x in s
  }

  predicate ValidConfig(c: Config) {
    c.maxSteps >= 1 && c.modes != [] && Distinct(c.modes) && Distinct(c.library)
  }

  /** The simulator and the seed-dependent choices, per batch, pass, step and world. Episodes end by the
      environment's success and the oracle's failure; the other two verdicts are only compared with them. */
  datatype Simulator<!S, !A> = Simulator(
    seed: (nat, nat) -> int,
    offset: int -> nat,
    state: (nat, nat, nat, nat) -> S,
    action: (nat, nat, nat, nat) -> A,
    succeeded: (nat, nat, nat, nat) -> bool,
    failed: (nat, nat, nat, nat) -> bool,
    oracleSucceeded: (nat, nat, nat, nat) -> bool,
    environmentFailed: (nat, nat, nat, nat) -> bool)

  /** Every library mode once, rotated by the seed. */
  function OrderedModes(c: Config, offset: int -> nat, seed: int): (order: seq<string>)
    requires c.library != []
    ensures |order| == |c.library|
  {
    var o := offset(seed) % |c.library|;
    c.library[o..] + c.library[..o]
  }

  lemma OrderIsPermutation(c: Config, offset: int -> nat, seed: int)
    requires c.library != [] && Distinct(c.library)
    ensures Distinct(OrderedModes(c, offset, seed)) && Elements(OrderedModes(c, offset, seed)) == Elements(c.library)
    ensures forall i: nat :: i < |c.library| ==>
              OrderedModes(c, offset, seed)[i] == c.library[(i + offset(seed) % |c.library|) % |c.library|]
  {
    var n := |c.library|;
    var o := offset(seed) % n;
    RotationIsPermutation(c.library, o);
    forall i: nat | i < n ensures OrderedModes(c, offset, seed)[i] == c.library[(i + o) % n] {
      Wraps(i + o, n);
    }
  }

  lemma RotationIsPermutation(s: seq<string>, o: nat)
    requires Distinct(s) && o <= |s|
    ensures Distinct(s[o..] + s[..o]) && Elements(s[o..] + s[..o]) == Elements(s)
  {
    var r := s[o..] + s[..o];
    assert s == s[..o] + s[o..];
    forall i | 0 <= i < |r| ensures r[i] == s[if i < |s| - o then i + o else i - (|s| - o)] {
    }
  }

  lemma Wraps(k: nat, n: nat)
    requires n >= 1 && k < 2 * n
    ensures k % n == if k < n then k else k - n
  {
    if k >= n {
      assert k == n * 1 + (k - n);
    }
  }

  lemma {:induction false} DistinctLength<T>(s: seq<T>)
    requires Distinct(s)
    ensures |Elements(s)| == |s|
  {
    if s != [] {
      var front, last := s[..|s| - 1], s[|s| - 1];
      DistinctLength(front);
      assert Elements(s) == Elements(front) + {last};
      assert last !in Elements(front);
    }
  }

  lemma {:induction false} SetLength<T>(s: seq<T>)
    ensures |Elements(s)| <= |s|
    ensures |Elements(s)| == |s| ==> Distinct(s)
  {
    if s != [] {
      var front, last := s[..|s| - 1], s[|s| - 1];
      SetLength(front);
      assert s == front + [last];
      assert Elements(s) == Elements(front) + {last};
      if last in front {
        assert Elements(s) == Elements(front);
      }
    }
  }

  // ----- one pass: one mode in every world -----

  datatype Episode<S, A> = Episode(states: seq<S>, actions: seq<A>, outcome: Option<Outcome>)

  function OutcomeAt<S, A>(sim: Simulator<S, A>, b: nat, p: nat, step: nat, w: nat): Outcome {
    if sim.succeeded(b, p, step, w) then Success else if sim.failed(b, p, step, w) then Failure else Timeout
  }

  /** What a world's episode of a pass is: one more state than actions, and it ends at its first success or
      failure, success first, or times out at the step limit. */
  ghost predicate IsEpisode<S, A>(c: Config, sim: Simulator<S, A>, b: nat, p: nat, w: nat, steps: nat, e: Episode<S, A>) {
    && |e.states| == |e.actions| + 1 && |e.actions| <= steps
    && (forall i: nat :: i < |e.states| ==> e.states[i] == sim.state(b, p, i, w))
    && (forall i: nat :: i < |e.actions| ==> e.actions[i] == sim.action(b, p, i, w))
    && (forall i: nat :: i + 1 < |e.actions| ==> !sim.succeeded(b, p, i, w) && !sim.failed(b, p, i, w))
    && (e.outcome.None? ==> |e.actions| == steps && forall i: nat :: i < steps ==> !sim.succeeded(b, p, i, w) && !sim.failed(b, p, i, w))
    && (e.outcome.Some? ==>
          var last: int := |e.actions| - 1;
          && last >= 0
          && (e.outcome.value == Success <==> sim.succeeded(b, p, last, w))
          && (e.outcome.value == Failure <==> !sim.succeeded(b, p, last, w) && sim.failed(b, p, last, w))
          && (e.outcome.value == Timeout ==> |e.actions| == c.maxSteps))
  }

  /** An active world's episode after one more step; a finished one stays as it is. */
  function Stepped<S, A>(sim: Simulator<S, A>, b: nat, p: nat, step: nat, w: nat, e: Episode<S, A>): Episode<S, A> {
    if e.outcome.Some? then e
    else
      var outcome := OutcomeAt(sim, b, p, step, w);
      Episode(e.states + [sim.state(b, p, step + 1, w)], e.actions + [sim.action(b, p, step, w)],
              if outcome == Timeout then None else Some(outcome))
  }

  lemma SteppedIsEpisode<S, A>(c: Config, sim: Simulator<S, A>, b: nat, p: nat, step: nat, w: nat, e: Episode<S, A>)
    requires IsEpisode(c, sim, b, p, w, step, e) && e.outcome != Some(Timeout)
    ensures IsEpisode(c, sim, b, p, w, step + 1, Stepped(sim, b, p, step, w, e)) && Stepped(sim, b, p, step, w, e).outcome != Some(Timeout)
  {
  }

  ghost predicate Episodes<S, A>(c: Config, sim: Simulator<S, A>, b: nat, p: nat, steps: nat, es: seq<Episode<S, A>>) {
    forall w: nat :: w < |es| ==> IsEpisode(c, sim, b, p, w, steps, es[w])
  }

  predicate NoTimeouts<S, A>(es: seq<Episode<S, A>>) {
    forall w: nat :: w < |es| ==> (es[w].outcome.None? || es[w].outcome.value != Timeout)
  }

  // ----- where the oracle and the environment disagree -----

  /** A world's first `n` steps on which the two disagree about success. */
  function Disputes<S, A>(sim: Simulator<S, A>, b: nat, p: nat, w: nat, n: nat): nat {
    if n == 0 then 0
    else Disputes(sim, b, p, w, n - 1) + if sim.oracleSucceeded(b, p, n - 1, w) != sim.succeeded(b, p, n - 1, w) then 1 else 0
  }

  /** The disagreements of all episodes together. */
  function DisputeCount<S, A>(sim: Simulator<S, A>, b: nat, p: nat, es: seq<Episode<S, A>>): nat {
    if es == [] then 0 else DisputeCount(sim, b, p, es[..|es| - 1]) + Disputes(sim, b, p, |es| - 1, |es[|es| - 1].actions|)
  }

  lemma {:induction false} DisputeCountUpdate<S, A>(sim: Simulator<S, A>, b: nat, p: nat, es: seq<Episode<S, A>>,
                                                    w: nat, e: Episode<S, A>)
    requires w < |es|
    ensures DisputeCount(sim, b, p, es[w := e])
         == DisputeCount(sim, b, p, es) - Disputes(sim, b, p, w, |es[w].actions|) + Disputes(sim, b, p, w, |e.actions|)
  {
    var front := es[..|es| - 1];
    if w < |es| - 1 {
      DisputeCountUpdate(sim, b, p, front, w, e);
      assert es[w := e][..|es| - 1] == front[w := e];
    } else {
      assert es[w := e][..|es| - 1] == front;
    }
  }

  lemma {:induction false} NothingDisputed<S, A>(sim: Simulator<S, A>, b: nat, p: nat, es: seq<Episode<S, A>>)
    requires forall w: nat :: w < |es| ==> es[w].actions == []
    ensures DisputeCount(sim, b, p, es) == 0
  {
    if es != [] {
      NothingDisputed(sim, b, p, es[..|es| - 1]);
    }
  }

  /** Some world is still running before a step of a pass. */
  ghost predicate Runs<S, A>(c: Config, sim: Simulator<S, A>, b: nat, p: nat, step: nat) {
    step < c.maxSteps && exists w: nat :: w < c.worlds && Undecided(sim, b, p, w, step)
  }

  ghost predicate Undecided<S, A>(sim: Simulator<S, A>, b: nat, p: nat, w: nat, step: nat) {
    forall i: nat :: i < step ==> !sim.succeeded(b, p, i, w) && !sim.failed(b, p, i, w)
  }

  /** The two disagree about failure in some world, running or not. */
  ghost predicate FailureDisputed<S, A>(c: Config, sim: Simulator<S, A>, b: nat, p: nat, step: nat) {
    exists w: nat :: w < c.worlds && sim.environmentFailed(b, p, step, w) != sim.failed(b, p, step, w)
  }

  ghost predicate PassRefused<S, A>(c: Config, sim: Simulator<S, A>, b: nat, p: nat) {
    exists step: nat :: Runs(c, sim, b, p, step) && FailureDisputed(c, sim, b, p, step)
  }

  method FailuresAgree<S, A>(c: Config, sim: Simulator<S, A>, b: nat, p: nat, step: nat) returns (agree: bool)
    ensures agree <==> !FailureDisputed(c, sim, b, p, step)
  {
    for w := 0 to c.worlds
      invariant forall v: nat :: v < w ==> sim.environmentFailed(b, p, step, v) == sim.failed(b, p, step, v)
    {
      if sim.environmentFailed(b, p, step, w) != sim.failed(b, p, step, w) {
        return false;
      }
    }
    agree := true;
  }

  lemma ActiveRuns<S, A>(c: Config, sim: Simulator<S, A>, b: nat, p: nat, step: nat, es: seq<Episode<S, A>>)
    requires |es| == c.worlds && Episodes(c, sim, b, p, step, es) && NoTimeouts(es) && step < c.maxSteps
    requires exists w: nat :: w < |es| && es[w].outcome.None?
    ensures Runs(c, sim, b, p, step)
  {
    var w: nat :| w < |es| && es[w].outcome.None?;
    assert IsEpisode(c, sim, b, p, w, step, es[w]);
    assert Undecided(sim, b, p, w, step);
  }

  /** Once every world is decided no later step runs. */
  lemma DecidedStops<S, A>(c: Config, sim: Simulator<S, A>, b: nat, p: nat, step: nat, es: seq<Episode<S, A>>, later: nat)
    requires |es| == c.worlds && Episodes(c, sim, b, p, step, es) && NoTimeouts(es) && step <= later
    requires step >= c.maxSteps || forall w: nat :: w < |es| ==> es[w].outcome.Some?
    ensures !Runs(c, sim, b, p, later)
  {
    forall w: nat | w < c.worlds && later < c.maxSteps ensures !Undecided(sim, b, p, w, later) {
      assert IsEpisode(c, sim, b, p, w, step, es[w]);
      var last: nat := |es[w].actions| - 1;
      assert sim.succeeded(b, p, last, w) || sim.failed(b, p, last, w);
    }
  }

  lemma ActiveLength<S, A>(c: Config, sim: Simulator<S, A>, b: nat, p: nat, w: nat, step: nat, e: Episode<S, A>)
    requires IsEpisode(c, sim, b, p, w, step, e) && e.outcome.None?
    ensures |e.actions| == step && |Stepped(sim, b, p, step, w, e).actions| == step + 1
  {
  }

  /** One control step of all active worlds. */
  method StepWorlds<S, A>(c: Config, sim: Simulator<S, A>, b: nat, p: nat, step: nat, before: seq<Episode<S, A>>)
    returns (after: seq<Episode<S, A>>, executed: nat, disputed: nat)
    requires Episodes(c, sim, b, p, step, before) && NoTimeouts(before)
    ensures |after| == |before| && Episodes(c, sim, b, p, step + 1, after) && NoTimeouts(after)
    ensures StepCount(after) == StepCount(before) + executed
    ensures DisputeCount(sim, b, p, after) == DisputeCount(sim, b, p, before) + disputed
  {
    hide IsEpisode, Stepped;
    after, executed, disputed := before, 0, 0;
    for w := 0 to |before|
      invariant |after| == |before|
      invariant forall v: nat :: v < w ==> after[v] == Stepped(sim, b, p, step, v, before[v])
      invariant forall v: nat :: w <= v < |before| ==> after[v] == before[v]
      invariant StepCount(after) == StepCount(before) + executed
      invariant DisputeCount(sim, b, p, after) == DisputeCount(sim, b, p, before) + disputed
    {
      if before[w].outcome.None? {
        var next := Stepped(sim, b, p, step, w, before[w]);
        ActiveLength(c, sim, b, p, w, step, before[w]);
        StepCountUpdate(after, w, next);
        DisputeCountUpdate(sim, b, p, after, w, next);
        after, executed := after[w := next], executed + 1;
        if sim.oracleSucceeded(b, p, step, w) != sim.succeeded(b, p, step, w) {
          disputed := disputed + 1;
        }
      } else {
        FinishedStays(sim, b, p, step, w, before[w]);
      }
    }
    forall w: nat | w < |after|
      ensures IsEpisode(c, sim, b, p, w, step + 1, after[w]) && (after[w].outcome.None? || after[w].outcome.value != Timeout)
    {
      SteppedIsEpisode(c, sim, b, p, step, w, before[w]);
    }
  }

  lemma FinishedStays<S, A>(sim: Simulator<S, A>, b: nat, p: nat, step: nat, w: nat, e: Episode<S, A>)
    requires e.outcome.Some?
    ensures Stepped(sim, b, p, step, w, e) == e
  {
  }

  /** The actions of all episodes together. */
  function StepCount<S, A>(es: seq<Episode<S, A>>): nat {
    if es == [] then 0 else StepCount(es[..|es| - 1]) + |es[|es| - 1].actions|
  }

  lemma {:induction false} StepCountUpdate<S, A>(es: seq<Episode<S, A>>, w: nat, e: Episode<S, A>)
    requires w < |es|
    ensures StepCount(es[w := e]) == StepCount(es) - |es[w].actions| + |e.actions|
  {
    var front := es[..|es| - 1];
    if w < |es| - 1 {
      StepCountUpdate(front, w, e);
      assert es[w := e][..|es| - 1] == front[w := e];
    } else {
      assert es[w := e][..|es| - 1] == front;
    }
  }

  /** Runs one pass: until no world is active, or the step limit times the rest out. A step on which oracle and
      environment disagree about failure is refused. */
  method RunPass<S, A>(c: Config, sim: Simulator<S, A>, b: nat, p: nat)
    returns (es: seq<Episode<S, A>>, executed: nat, disputed: nat, ok: bool)
    requires c.maxSteps >= 1
    ensures ok <==> !PassRefused(c, sim, b, p)
    ensures ok ==> |es| == c.worlds && Episodes(c, sim, b, p, c.maxSteps, es)
    ensures ok ==> forall w: nat :: w < |es| ==> es[w].outcome.Some?
    ensures ok ==> StepCount(es) == executed && DisputeCount(sim, b, p, es) == disputed
  {
    hide IsEpisode, Runs, FailureDisputed, StepCount, DisputeCount;
    es, executed, disputed := seq(c.worlds, w requires 0 <= w < c.worlds => Episode([sim.state(b, p, 0, w)], [], None)), 0, 0;
    forall w: nat | w < |es| ensures IsEpisode(c, sim, b, p, w, 0, es[w]) {
      FreshEpisode(c, sim, b, p, w);
    }
    NothingExecuted(es);
    NothingDisputed(sim, b, p, es);
    var step := 0;
    while step < c.maxSteps && (exists w: nat :: w < |es| && es[w].outcome.None?)
      invariant step <= c.maxSteps && |es| == c.worlds
      invariant Episodes(c, sim, b, p, step, es) && NoTimeouts(es)
      invariant StepCount(es) == executed && DisputeCount(sim, b, p, es) == disputed
      invariant forall i: nat :: i < step ==> !FailureDisputed(c, sim, b, p, i)
    {
      ActiveRuns(c, sim, b, p, step, es);
      var agree := FailuresAgree(c, sim, b, p, step);
      if !agree {
        ok := false;
        return;
      }
      var n, d;
      es, n, d := StepWorlds(c, sim, b, p, step, es);
      executed, disputed, step := executed + n, disputed + d, step + 1;
    }
    forall later: nat | step <= later ensures !Runs(c, sim, b, p, later) {
      DecidedStops(c, sim, b, p, step, es, later);
    }
    ok := true;
    es := FinishPass(c, sim, b, p, step, es);
  }

  method FinishPass<S, A>(c: Config, sim: Simulator<S, A>, b: nat, p: nat, step: nat,
                          running: seq<Episode<S, A>>) returns (es: seq<Episode<S, A>>)
    requires 1 <= c.maxSteps && step <= c.maxSteps && Episodes(c, sim, b, p, step, running)
    requires step == c.maxSteps || forall w: nat :: w < |running| ==> running[w].outcome.Some?
    ensures |es| == |running| && Episodes(c, sim, b, p, c.maxSteps, es) && StepCount(es) == StepCount(running)
    ensures DisputeCount(sim, b, p, es) == DisputeCount(sim, b, p, running)
    ensures forall w: nat :: w < |es| ==> es[w].outcome.Some?
  {
    hide IsEpisode;
    es := running;
    for w := 0 to |running|
      invariant |es| == |running| && StepCount(es) == StepCount(running)
      invariant DisputeCount(sim, b, p, es) == DisputeCount(sim, b, p, running)
      invariant forall v: nat :: v < w ==> es[v].outcome.Some? && IsEpisode(c, sim, b, p, v, c.maxSteps, es[v])
      invariant forall v: nat :: w <= v < |running| ==> es[v] == running[v]
    {
      if es[w].outcome.None? {
        StepCountUpdate(es, w, es[w].(outcome := Some(Timeout)));
        DisputeCountUpdate(sim, b, p, es, w, es[w].(outcome := Some(Timeout)));
        es := es[w := es[w].(outcome := Some(Timeout))];
        TimedOut(c, sim, b, p, w, running[w]);
      } else {
        LaterSteps(c, sim, b, p, w, step, running[w]);
      }
    }
  }

  lemma FreshEpisode<S, A>(c: Config, sim: Simulator<S, A>, b: nat, p: nat, w: nat)
    ensures IsEpisode(c, sim, b, p, w, 0, Episode([sim.state(b, p, 0, w)], [], None))
  {
  }

  lemma LaterSteps<S, A>(c: Config, sim: Simulator<S, A>, b: nat, p: nat, w: nat, step: nat, e: Episode<S, A>)
    requires step <= c.maxSteps && IsEpisode(c, sim, b, p, w, step, e) && e.outcome.Some?
    ensures IsEpisode(c, sim, b, p, w, c.maxSteps, e)
  {
  }

  lemma TimedOut<S, A>(c: Config, sim: Simulator<S, A>, b: nat, p: nat, w: nat, e: Episode<S, A>)
    requires c.maxSteps >= 1 && IsEpisode(c, sim, b, p, w, c.maxSteps, e) && e.outcome.None?
    ensures IsEpisode(c, sim, b, p, w, c.maxSteps, e.(outcome := Some(Timeout)))
  {
  }

  lemma {:induction false} NothingExecuted<S, A>(es: seq<Episode<S, A>>)
    requires forall w: nat :: w < |es| ==> es[w].actions == []
    ensures StepCount(es) == 0
  {
    if es != [] {
      NothingExecuted(es[..|es| - 1]);
    }
  }

  // ----- the whole corpus -----

  function IdOf<S, A>(t: Trajectory<S, A>): Id {
    (t.group, t.mode)
  }

  /** A mode of one world of one batch, in its `p`-th pass. */
  function IdAt<S, A>(c: Config, sim: Simulator<S, A>, b: nat, p: nat, w: nat): Id
    requires c.library != [] && p < |c.library|
  {
    (GroupId(b, w), OrderedModes(c, sim.offset, sim.seed(b, w))[p])
  }

  /** The trajectory written for a pass of a world. */
  ghost predicate IsShard<S, A>(c: Config, sim: Simulator<S, A>, b: nat, p: nat, w: nat, t: Trajectory<S, A>)
    requires c.library != [] && p < |c.library|
  {
    && IdOf(t) == IdAt(c, sim, b, p, w) && t.seed == sim.seed(b, w)
    && IsEpisode(c, sim, b, p, w, c.maxSteps, Episode(t.states, t.actions, Some(t.outcome)))
  }

  function TotalActions<S, A>(ts: seq<Trajectory<S, A>>): nat {
    if ts == [] then 0 else TotalActions(ts[..|ts| - 1]) + |ts[|ts| - 1].actions|
  }

  function CountOutcome<S, A>(ts: seq<Trajectory<S, A>>, o: Outcome): nat {
    if ts == [] then 0 else CountOutcome(ts[..|ts| - 1], o) + if ts[|ts| - 1].outcome == o then 1 else 0
  }

  // ----- the collector's counters -----

  /** One mode's counters. */
  datatype Tally = Tally(success: nat, failure: nat, timeout: nat)

  function Counted(t: Tally, o: Outcome): nat {
    match o
    case Success => t.success
    case Failure => t.failure
    case Timeout => t.timeout
  }

  function OneMore(t: Tally, o: Outcome): Tally {
    match o
    case Success => t.(success := t.success + 1)
    case Failure => t.(failure := t.failure + 1)
    case Timeout => t.(timeout := t.timeout + 1)
  }

  /** A mode's trajectories, by outcome. */
  function TallyOf<S, A>(ts: seq<Trajectory<S, A>>, m: string): Tally {
    if ts == [] then Tally(0, 0, 0)
    else
      var front, last := TallyOf(ts[..|ts| - 1], m), ts[|ts| - 1];
      if last.mode == m then OneMore(front, last.outcome) else front
  }

  /** The places of a mode's trajectories with an outcome. */
  function PlacesOf<S, A>(ts: seq<Trajectory<S, A>>, m: string, o: Outcome): set<nat> {
    set i: nat | i < |ts| && ts[i].mode == m && ts[i].outcome == o
  }

  /** Each counter of a mode is the number of its trajectories with that outcome. */
  lemma {:induction false} TallyCounts<S, A>(ts: seq<Trajectory<S, A>>, m: string)
    ensures TallyOf(ts, m).success == |PlacesOf(ts, m, Success)|
    ensures TallyOf(ts, m).failure == |PlacesOf(ts, m, Failure)|
    ensures TallyOf(ts, m).timeout == |PlacesOf(ts, m, Timeout)|
  {
    if ts != [] {
      TallyCounts(ts[..|ts| - 1], m);
      OnePlaceMore(ts, m, Success);
      OnePlaceMore(ts, m, Failure);
      OnePlaceMore(ts, m, Timeout);
    }
  }

  lemma OnePlaceMore<S, A>(ts: seq<Trajectory<S, A>>, m: string, o: Outcome)
    requires ts != []
    ensures var front, last := ts[..|ts| - 1], ts[|ts| - 1];
      |PlacesOf(ts, m, o)| == |PlacesOf(front, m, o)| + if last.mode == m && last.outcome == o then 1 else 0
  {
    var front, last := ts[..|ts| - 1], ts[|ts| - 1];
    assert |front| !in PlacesOf(front, m, o);
    var before, after := PlacesOf(front, m, o), PlacesOf(ts, m, o);
    forall i: nat ensures i in after <==> i in before || (i == |front| && last.mode == m && last.outcome == o) {
    }
    hide PlacesOf;
    if last.mode == m && last.outcome == o {
      assert after == before + {|front|};
    } else {
      assert after == before;
    }
  }

  /** The counters are those of the trajectories so far, for exactly the configured modes. */
  ghost predicate Tallied<S, A>(modes: seq<string>, ts: seq<Trajectory<S, A>>, tallies: map<string, Tally>) {
    && (forall m :: m in tallies <==> m in modes)
    && (forall m :: m in modes ==> tallies[m] == TallyOf(ts, m))
  }

  lemma TalliedMore<S, A>(modes: seq<string>, ts: seq<Trajectory<S, A>>, tallies: map<string, Tally>, t: Trajectory<S, A>)
    requires Tallied(modes, ts, tallies) && t.mode in modes
    ensures Tallied(modes, ts + [t], tallies[t.mode := OneMore(tallies[t.mode], t.outcome)])
  {
    assert (ts + [t])[..|ts|] == ts;
  }

  /** The trajectories with an outcome, mode by mode. */
  function SumOf<S, A>(modes: seq<string>, ts: seq<Trajectory<S, A>>, o: Outcome): nat {
    if modes == [] then 0 else SumOf(modes[..|modes| - 1], ts, o) + Counted(TallyOf(ts, modes[|modes| - 1]), o)
  }

  lemma {:induction false} SumMore<S, A>(modes: seq<string>, ts: seq<Trajectory<S, A>>, o: Outcome)
    requires ts != [] && Distinct(modes)
    ensures var last := ts[|ts| - 1];
      SumOf(modes, ts, o) == SumOf(modes, ts[..|ts| - 1], o) + if last.outcome == o && last.mode in modes then 1 else 0
  {
    if modes != [] {
      var front, m := modes[..|modes| - 1], modes[|modes| - 1];
      SumMore(front, ts, o);
      assert modes == front + [m];
    }
  }

  lemma {:induction false} SumOfNothing<S, A>(modes: seq<string>, o: Outcome)
    ensures SumOf<S, A>(modes, [], o) == 0
  {
    if modes != [] {
      SumOfNothing<S, A>(modes[..|modes| - 1], o);
    }
  }

  /** Summing the counters over the modes counts every trajectory with the outcome, once. */
  lemma {:induction false} SumIsCount<S, A>(modes: seq<string>, ts: seq<Trajectory<S, A>>, o: Outcome)
    requires Distinct(modes) && forall t :: t in ts ==> t.mode in modes
    ensures SumOf(modes, ts, o) == CountOutcome(ts, o)
  {
    if ts == [] {
      SumOfNothing<S, A>(modes, o);
    } else {
      SumMore(modes, ts, o);
      assert ts[|ts| - 1] in ts;
      SumIsCount(modes, ts[..|ts| - 1], o);
    }
  }

  /** The outcomes partition a corpus. */
  lemma {:induction false} OutcomesPartition<S, A>(ts: seq<Trajectory<S, A>>)
    ensures CountOutcome(ts, Success) + CountOutcome(ts, Failure) + CountOutcome(ts, Timeout) == |ts|
  {
    if ts != [] {
      OutcomesPartition(ts[..|ts| - 1]);
    }
  }

  /** Sums one counter over the modes. */
  method SumCounters<S, A>(modes: seq<string>, tallies: map<string, Tally>, ghost ts: seq<Trajectory<S, A>>,
                           o: Outcome) returns (sum: nat)
    requires Tallied(modes, ts, tallies)
    ensures sum == SumOf(modes, ts, o)
  {
    sum := 0;
    for i := 0 to |modes|
      invariant sum == SumOf(modes[..i], ts, o)
    {
      assert modes[..i + 1][..i] == modes[..i];
      sum := sum + Counted(tallies[modes[i]], o);
    }
    assert modes[..|modes|] == modes;
  }

  /** A pass only runs modes that were asked for. */
  lemma PassMode<S, A>(c: Config, sim: Simulator<S, A>, b: nat, p: nat, w: nat)
    requires ValidConfig(c) && c.library != [] && Elements(c.modes) == Elements(c.library) && p < |c.library|
    ensures OrderedModes(c, sim.offset, sim.seed(b, w))[p] in c.modes
  {
    var order := OrderedModes(c, sim.offset, sim.seed(b, w));
    OrderIsPermutation(c, sim.offset, sim.seed(b, w));
    assert order[p] in Elements(order);
    assert order[p] in Elements(c.modes);
  }

  /** Turns the episodes of a pass into trajectories, in world order, and counts their outcomes. */
  method WritePass<S, A>(c: Config, sim: Simulator<S, A>, b: nat, p: nat, es: seq<Episode<S, A>>,
                         ghost before: seq<Trajectory<S, A>>, 
                         counters: map<string, Tally>) returns (ts: seq<Trajectory<S, A>>, tallies: map<string, Tally>)
    requires ValidConfig(c) && c.library != [] && Elements(c.modes) == Elements(c.library) && p < |c.library|
    requires |es| == c.worlds && Episodes(c, sim, b, p, c.maxSteps, es) && Tallied(c.modes, before, counters)
    requires forall w: nat :: w < |es| ==> es[w].outcome.Some?
    ensures |ts| == c.worlds && forall w: nat :: w < c.worlds ==> IsShard(c, sim, b, p, w, ts[w]) && ts[w].actions == es[w].actions
    ensures TotalActions(ts) == StepCount(es) && Tallied(c.modes, before + ts, tallies)
  {
    hide Tallied, IsEpisode, OrderedModes, TotalActions, StepCount;
    StepsOfNothing<S, A>();
    ts, tallies := [], counters;
    assert before + ts == before;
    for w := 0 to c.worlds
      invariant |ts| == w && forall v: nat :: v < w ==> IsShard(c, sim, b, p, v, ts[v]) && ts[v].actions == es[v].actions
      invariant TotalActions(ts) == StepCount(es[..w]) && Tallied(c.modes, before + ts, tallies)
    {
      var mode := OrderedModes(c, sim.offset, sim.seed(b, w))[p];
      var t := Trajectory(GroupId(b, w), sim.seed(b, w), mode, es[w].states, es[w].actions, es[w].outcome.value);
      PassMode(c, sim, b, p, w);
      TalliedMore(c.modes, before + ts, tallies, t);
      HasCounter(c.modes, before + ts, tallies, mode);
      assert before + (ts + [t]) == (before + ts) + [t];
      tallies := tallies[mode := OneMore(tallies[mode], t.outcome)];
      StepsMore(ts, t, es[..w], es[w]);
      assert es[..w + 1] == es[..w] + [es[w]];
      ts := ts + [t];
    }
    assert es[..|es|] == es;
  }

  lemma StepsOfNothing<S, A>()
    ensures TotalActions<S, A>([]) == 0 && StepCount<S, A>([]) == 0
  {
  }

  lemma {:induction false} StepsMore<S, A>(ts: seq<Trajectory<S, A>>, t: Trajectory<S, A>, es: seq<Episode<S, A>>,
                                           e: Episode<S, A>)
    requires t.actions == e.actions
    ensures TotalActions(ts + [t]) - TotalActions(ts) == StepCount(es + [e]) - StepCount(es)
  {
    assert (ts + [t])[..|ts|] == ts && (es + [e])[..|es|] == es;
  }

  lemma HasCounter<S, A>(modes: seq<string>, ts: seq<Trajectory<S, A>>, tallies: map<string, Tally>, m: string)
    requires Tallied(modes, ts, tallies) && m in modes
    ensures m in tallies
  {
  }

  /** Distinct places, distinct identities. */
  lemma IdInjective<S, A>(c: Config, sim: Simulator<S, A>, b: nat, p: nat, w: nat, b': nat, p': nat, w': nat)
    requires c.library != [] && Distinct(c.library) && p < |c.library| && p' < |c.library|
    requires IdAt(c, sim, b, p, w) == IdAt(c, sim, b', p', w')
    ensures b == b' && p == p' && w == w'
  {
    OrderIsPermutation(c, sim.offset, sim.seed(b, w));
  }

  /** Places come batch by batch and pass by pass. */
  predicate Earlier(place: (nat, nat, nat), b: nat, p: nat) {
    place.0 < b || (place.0 == b && place.1 < p)
  }

  predicate InRange(c: Config, place: (nat, nat, nat)) {
    place.1 < |c.library| && place.2 < c.worlds
  }

  /** `at[i]` is the place that the `i`-th shard was written for. */
  ghost predicate ShardsAt<S, A>(c: Config, sim: Simulator<S, A>, ts: seq<Trajectory<S, A>>, at: seq<(nat, nat, nat)>)
    requires c.library != []
  {
    && |at| == |ts|
    && forall i: nat :: i < |ts| ==> InRange(c, at[i]) && IsShard(c, sim, at[i].0, at[i].1, at[i].2, ts[i])
  }

  /** The places so far are distinct, and they are exactly those before `(b, p)`. */
  ghost predicate PlacesBefore(c: Config, at: seq<(nat, nat, nat)>, b: nat, p: nat) {
    && Distinct(at)
    && forall place: (nat, nat, nat) :: place in at <==> InRange(c, place) && Earlier(place, b, p)
  }

  ghost predicate Written<S, A>(c: Config, sim: Simulator<S, A>, ts: seq<Trajectory<S, A>>, at: seq<(nat, nat, nat)>,
                                b: nat, p: nat)
    requires c.library != []
  {
    ShardsAt(c, sim, ts, at) && PlacesBefore(c, at, b, p)
  }

  /** The places of one pass, world by world. */
  function Places(c: Config, b: nat, p: nat): (r: seq<(nat, nat, nat)>)
    ensures |r| == c.worlds
  {
    seq(c.worlds, w requires 0 <= w < c.worlds => (b, p, w))
  }

  lemma MorePlaces(c: Config, at: seq<(nat, nat, nat)>, b: nat, p: nat)
    requires PlacesBefore(c, at, b, p) && p < |c.library|
    ensures PlacesBefore(c, at + Places(c, b, p), b, p + 1)
  {
    var row := Places(c, b, p);
    var more := at + row;
    forall i, j | 0 <= i < j < |more| ensures more[i] != more[j] {
      assert i < |at| ==> more[i] in at && Earlier(more[i], b, p);
      assert j >= |at| ==> more[j] == row[j - |at|];
      assert i >= |at| ==> more[i] == row[i - |at|];
    }
    forall place: (nat, nat, nat) ensures place in more <==> InRange(c, place) && Earlier(place, b, p + 1) {
      if place.0 == b && place.1 == p && place.2 < c.worlds {
        assert row[place.2] == place;
      }
    }
  }

  lemma WrittenPass<S, A>(c: Config, sim: Simulator<S, A>, ts: seq<Trajectory<S, A>>, at: seq<(nat, nat, nat)>,
                          b: nat, p: nat, pass: seq<Trajectory<S, A>>)
    requires c.library != [] && p < |c.library| && Written(c, sim, ts, at, b, p)
    requires |pass| == c.worlds && forall w: nat :: w < c.worlds ==> IsShard(c, sim, b, p, w, pass[w])
    ensures Written(c, sim, ts + pass, at + Places(c, b, p), b, p + 1)
  {
    hide IsShard;
    MorePlaces(c, at, b, p);
  }

  /** Distinct places give distinct identities. */
  lemma WrittenDistinct<S, A>(c: Config, sim: Simulator<S, A>, ts: seq<Trajectory<S, A>>, at: seq<(nat, nat, nat)>,
                              b: nat, p: nat, i: nat, j: nat)
    requires c.library != [] && Distinct(c.library) && Written(c, sim, ts, at, b, p) && i < j < |ts|
    ensures IdOf(ts[i]) != IdOf(ts[j])
  {
    if IdOf(ts[i]) == IdOf(ts[j]) {
      IdInjective(c, sim, at[i].0, at[i].1, at[i].2, at[j].0, at[j].1, at[j].2);
    }
  }

  lemma {:induction false} TotalsAdd<S, A>(a: seq<Trajectory<S, A>>, b: seq<Trajectory<S, A>>)
    ensures TotalActions(a + b) == TotalActions(a) + TotalActions(b)
  {
    if b == [] {
      assert a + b == a;
    } else {
      TotalsAdd(a, b[..|b| - 1]);
      assert (a + b)[..|a + b| - 1] == a + b[..|b| - 1];
    }
  }

  /** The disagreements about success, over all trajectories. */
  function TotalDisputes<S, A>(sim: Simulator<S, A>, ts: seq<Trajectory<S, A>>, at: seq<(nat, nat, nat)>): nat
    requires |at| == |ts|
  {
    if ts == [] then 0
    else
      var n := |ts| - 1;
      TotalDisputes(sim, ts[..n], at[..n]) + Disputes(sim, at[n].0, at[n].1, at[n].2, |ts[n].actions|)
  }

  lemma {:induction false} DisputesAdd<S, A>(c: Config, sim: Simulator<S, A>, ts: seq<Trajectory<S, A>>,
                                             at: seq<(nat, nat, nat)>, 
                                             b: nat, p: nat, pass: seq<Trajectory<S, A>>, es: seq<Episode<S, A>>, row: seq<(nat, nat, nat)>)
    requires |at| == |ts| && |pass| == |es| == |row|
    requires forall w: nat :: w < |es| ==> pass[w].actions == es[w].actions && row[w] == (b, p, w)
    ensures TotalDisputes(sim, ts + pass, at + row) == TotalDisputes(sim, ts, at) + DisputeCount(sim, b, p, es)
  {
    if pass == [] {
      assert ts + pass == ts && at + row == at;
    } else {
      var n := |pass| - 1;
      DisputesAdd(c, sim, ts, at, b, p, pass[..n], es[..n], row[..n]);
      assert (ts + pass)[..|ts + pass| - 1] == ts + pass[..n] && (at + row)[..|ts + pass| - 1] == at + row[..n];
    }
  }

  datatype Summary = Summary(trajectories: nat, successes: nat, failures: nat, timeouts: nat, worldSteps: nat, disagreements: nat,
                             modeOutcomes: map<string, Tally>)

  datatype Collection<S, A> = LibraryMismatch | FailureMismatch | Corpus(shards: seq<Trajectory<S, A>>, summary: Summary)

  /** Every mode once under every reset: what the collector writes. */
  ghost predicate IsCorpus<S, A>(c: Config, sim: Simulator<S, A>, ts: seq<Trajectory<S, A>>)
    requires c.library != []
  {
    exists at :: Written(c, sim, ts, at, c.batches, 0)
  }

  /** What the counters of a collection count. */
  ghost predicate Summarized<S, A>(c: Config, sim: Simulator<S, A>, ts: seq<Trajectory<S, A>>, s: Summary)
    requires c.library != []
  {
    && s.trajectories == |ts| && s.worldSteps == TotalActions(ts) && Tallied(c.modes, ts, s.modeOutcomes)
    && s.successes == CountOutcome(ts, Success) && s.failures == CountOutcome(ts, Failure) && s.timeouts == CountOutcome(ts, Timeout)
    && s.successes + s.failures + s.timeouts == s.trajectories
    && exists at :: Written(c, sim, ts, at, c.batches, 0) && s.disagreements == TotalDisputes(sim, ts, at)
  }

  /** A collection in progress, with its counters. */
  datatype Progress<S, A> = Progress(shards: seq<Trajectory<S, A>>, worldSteps: nat, disagreements: nat, tallies: map<string, Tally>)

  ghost predicate Underway<S, A>(c: Config, sim: Simulator<S, A>, x: Progress<S, A>, at: seq<(nat, nat, nat)>, b: nat,
                                 p: nat)
    requires c.library != []
  {
    && Written(c, sim, x.shards, at, b, p) && Tallied(c.modes, x.shards, x.tallies)
    && TotalActions(x.shards) == x.worldSteps && TotalDisputes(sim, x.shards, at) == x.disagreements
  }

  /** One pass, written and counted. */
  method CollectPass<S, A>(c: Config, sim: Simulator<S, A>, before: Progress<S, A>, ghost at: seq<(nat, nat, nat)>,
                           b: nat, p: nat)
    returns (after: Progress<S, A>, ok: bool)
    requires ValidConfig(c) && c.library != [] && Elements(c.modes) == Elements(c.library) && p < |c.library|
    requires Underway(c, sim, before, at, b, p)
    ensures ok <==> !PassRefused(c, sim, b, p)
    ensures ok ==> Underway(c, sim, after, at + Places(c, b, p), b, p + 1)
    ensures ok ==> |after.shards| == |before.shards| + c.worlds
  {
    hide IsShard, IsEpisode, PassRefused, Tallied, Stepped;
    after := before;
    var es, n, d;
    es, n, d, ok := RunPass(c, sim, b, p);
    if !ok {
      return;
    }
    var pass, tallies := WritePass(c, sim, b, p, es, before.shards, before.tallies);
    WrittenPass(c, sim, before.shards, at, b, p, pass);
    TotalsAdd(before.shards, pass);
    DisputesAdd(c, sim, before.shards, at, b, p, pass, es, Places(c, b, p));
    after := Progress(before.shards + pass, before.worldSteps + n, before.disagreements + d, tallies);
  }

  /** One batch: every mode, pass by pass, from the same resets. */
  method CollectBatch<S, A>(c: Config, sim: Simulator<S, A>, before: Progress<S, A>,
                            ghost places: seq<(nat, nat, nat)>, b: nat)
    returns (after: Progress<S, A>, ok: bool, ghost at: seq<(nat, nat, nat)>)
    requires ValidConfig(c) && c.library != [] && Elements(c.modes) == Elements(c.library) && |c.library| == |c.modes|
    requires Underway(c, sim, before, places, b, 0)
    ensures ok <==> forall p: nat :: p < |c.modes| ==> !PassRefused(c, sim, b, p)
    ensures ok ==> Underway(c, sim, after, at, b + 1, 0) && |after.shards| == |before.shards| + |c.modes| * c.worlds
  {
    hide Written, Tallied, PassRefused;
    after, at := before, places;
    for p := 0 to |c.modes|
      invariant Underway(c, sim, after, at, b, p)
      invariant |after.shards| == |before.shards| + p * c.worlds
      invariant forall i: nat :: i < p ==> !PassRefused(c, sim, b, i)
    {
      after, ok := CollectPass(c, sim, after, at, b, p);
      if !ok {
        return;
      }
      OneMorePass(p, c.worlds);
      at := at + Places(c, b, p);
    }
    ok := true;
    NextBatch(c, sim, after.shards, at, b);
  }

  lemma ShardModes<S, A>(c: Config, sim: Simulator<S, A>, ts: seq<Trajectory<S, A>>, at: seq<(nat, nat, nat)>, b: nat,
                         p: nat)
    requires ValidConfig(c) && c.library != [] && Elements(c.modes) == Elements(c.library) && Written(c, sim, ts, at, b, p)
    ensures forall t :: t in ts ==> t.mode in c.modes
  {
    forall t | t in ts ensures t.mode in c.modes {
      var i: nat :| i < |ts| && ts[i] == t;
      PassMode(c, sim, at[i].0, at[i].1, at[i].2);
    }
  }

  /** Adds up the counters of a finished collection. */
  method Summarize<S, A>(c: Config, sim: Simulator<S, A>, x: Progress<S, A>,
                         ghost at: seq<(nat, nat, nat)>) returns (s: Summary)
    requires ValidConfig(c) && c.library != [] && Elements(c.modes) == Elements(c.library) && Underway(c, sim, x, at, c.batches, 0)
    ensures Summarized(c, sim, x.shards, s)
  {
    hide Written, Tallied;
    ShardModes(c, sim, x.shards, at, c.batches, 0);
    SumIsCount(c.modes, x.shards, Success);
    SumIsCount(c.modes, x.shards, Failure);
    SumIsCount(c.modes, x.shards, Timeout);
    OutcomesPartition(x.shards);
    var successes := SumCounters(c.modes, x.tallies, x.shards, Success);
    var failures := SumCounters(c.modes, x.tallies, x.shards, Failure);
    var timeouts := SumCounters(c.modes, x.tallies, x.shards, Timeout);
    s := Summary(|x.shards|, successes, failures, timeouts, x.worldSteps, x.disagreements, x.tallies);
  }

  /** Collects every mode under every reset, and counts. It refuses exactly a mode list that is not the library's,
      and a step on which oracle and environment disagree about failure. */
  method CollectMultimodeCorpus<S, A>(c: Config, sim: Simulator<S, A>) returns (result: Collection<S, A>)
    requires ValidConfig(c)
    ensures result.LibraryMismatch? <==> Elements(c.modes) != Elements(c.library)
    ensures result.FailureMismatch? <==>
              Elements(c.modes) == Elements(c.library)
              && exists b: nat, p: nat :: b < c.batches && p < |c.modes| && PassRefused(c, sim, b, p)
    ensures result.Corpus? ==>
              && c.library != [] && IsCorpus(c, sim, result.shards)
              && |result.shards| == c.batches * (|c.modes| * c.worlds)
              && Summarized(c, sim, result.shards, result.summary)
  {
    hide Written, Tallied, PassRefused, Summarized, TotalDisputes;
    if Elements(c.modes) != Elements(c.library) {
      return LibraryMismatch;
    }
    SameModes(c);
    var x: Progress<S, A> := Progress([], 0, 0, map m | m in c.modes :: Tally(0, 0, 0));
    ghost var at: seq<(nat, nat, nat)> := [];
    NothingCollected(c, sim, x);
    for b := 0 to c.batches
      invariant Underway(c, sim, x, at, b, 0)
      invariant |x.shards| == b * (|c.modes| * c.worlds)
      invariant forall i: nat, p: nat :: i < b && p < |c.modes| ==> !PassRefused(c, sim, i, p)
    {
      var ok;
      x, ok, at := CollectBatch(c, sim, x, at, b);
      if !ok {
        return FailureMismatch;
      }
      OneMorePass(b, |c.modes| * c.worlds);
    }
    var summary := Summarize(c, sim, x, at);
    result := Corpus(x.shards, summary);
  }

  lemma NothingCollected<S, A>(c: Config, sim: Simulator<S, A>, x: Progress<S, A>)
    requires c.library != [] && x == Progress([], 0, 0, map m | m in c.modes :: Tally(0, 0, 0))
    ensures Underway(c, sim, x, [], 0, 0)
  {
    NothingWritten(c, sim);
  }

  lemma NothingWritten<S, A>(c: Config, sim: Simulator<S, A>)
    requires c.library != []
    ensures Written<S, A>(c, sim, [], [], 0, 0)
  {
  }

  lemma OneMorePass(n: nat, worlds: nat)
    ensures (n + 1) * worlds == n * worlds + worlds
  {
  }

  lemma NextBatch<S, A>(c: Config, sim: Simulator<S, A>, ts: seq<Trajectory<S, A>>, at: seq<(nat, nat, nat)>, b: nat)
    requires c.library != [] && Written(c, sim, ts, at, b, |c.library|)
    ensures Written(c, sim, ts, at, b + 1, 0)
  {
  }

  /** Two lists of distinct modes with the same members are equally long. */
  lemma SameModes(c: Config)
    requires ValidConfig(c) && Elements(c.modes) == Elements(c.library)
    ensures |c.library| == |c.modes| && c.library != []
  {
    DistinctLength(c.modes);
    DistinctLength(c.library);
  }
}
