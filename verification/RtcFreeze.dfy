/** Freezing the start of a new chunk: the option builder, the denoising loop and the stored chunk. */
module RtcFreeze {
  import opened Rounding
  import opened ActionChunks

  datatype Options = Options(actionHorizon: nat, overlap: nat, frozen: nat, rampRate: real, previousStart: nat)

  /** Overlap and freeze counts for a previous action of `previousHorizon` steps; None means no guidance. */
  function RtcOptions(enabled: bool, modeOff: bool, previousHorizon: Option<nat>, previousStart: Option<real>, now: real,
                      actionDt: real, fallbackReplanHorizon: int, maxOverlap: int, frozenSteps: int, rampRate: real): (o: Option<Options>)
    requires actionDt > 0.0
    ensures o.Some? ==>
              && previousHorizon == Some(o.value.actionHorizon)
              && 1 <= o.value.overlap <= maxOverlap
              && o.value.previousStart + o.value.overlap <= o.value.actionHorizon
              && o.value.frozen <= o.value.overlap
  {
    if !enabled || modeOff || previousHorizon.None? then None
    else
      var horizon := previousHorizon.value;
      var raw := if previousStart.None? then fallbackReplanHorizon
                 else RoundHalfUp((if now - previousStart.value < 0.0 then 0.0 else now - previousStart.value) / actionDt);
      var elapsed := Max(0, Min(raw, horizon));
      var overlap := Min(Max(0, horizon - elapsed), Max(0, maxOverlap));
      if overlap <= 0 then None
      else Some(Options(horizon, overlap, Min(Max(0, frozenSteps), overlap), rampRate, elapsed))
  }

  /** A seed anchored at the present is taken from its first row, and freezes as much as was asked for, up to
      the overlap limit and the seed's length. */
  lemma AnchoredNow(modeOff: bool, previousHorizon: Option<nat>, now: real, actionDt: real,
                    fallbackReplanHorizon: int, maxOverlap: int, frozenSteps: int, rampRate: real)
    requires actionDt > 0.0
    ensures var o := RtcOptions(true, modeOff, previousHorizon, Some(now), now, actionDt, fallbackReplanHorizon, maxOverlap, frozenSteps, rampRate);
      && (o.Some? <==> !modeOff && previousHorizon.Some? && previousHorizon.value > 0 && maxOverlap > 0)
      && (o.Some? ==> o.value.previousStart == 0
                      && o.value.overlap == Min(previousHorizon.value, maxOverlap)
                      && o.value.frozen == Min(Max(0, frozenSteps), Min(previousHorizon.value, maxOverlap)))
  {
    assert 0.0 / actionDt == 0.0;
  }

  /** When there is guidance, and which slots it covers. The previous action is entered after `elapsed` steps: the
      rounded age of its start, no less than zero, or the replan horizon if its start is unknown. */
  lemma OptionsCover(enabled: bool, modeOff: bool, previousHorizon: Option<nat>, previousStart: Option<real>, now: real,
                     actionDt: real, fallbackReplanHorizon: int, maxOverlap: int, frozenSteps: int, rampRate: real, elapsed: nat)
    requires actionDt > 0.0
    requires match previousStart
             case None => elapsed == Max(0, fallbackReplanHorizon)
             case Some(start) => if start > now then elapsed == 0
                                 else (elapsed as real - 0.5) * actionDt <= now - start < (elapsed as real + 0.5) * actionDt
    ensures var o := RtcOptions(enabled, modeOff, previousHorizon, previousStart, now, actionDt, fallbackReplanHorizon,
                                maxOverlap, frozenSteps, rampRate);
      && (o.Some? <==> enabled && !modeOff && previousHorizon.Some? && elapsed < previousHorizon.value && maxOverlap > 0)
      && (o.Some? ==>
            && o.value.actionHorizon == previousHorizon.value && o.value.rampRate == rampRate && o.value.previousStart == elapsed
            && o.value.overlap <= maxOverlap && elapsed + o.value.overlap <= previousHorizon.value
            && (o.value.overlap == maxOverlap || elapsed + o.value.overlap == previousHorizon.value)
            && o.value.frozen <= o.value.overlap && o.value.frozen <= Max(0, frozenSteps)
            && (o.value.frozen == o.value.overlap || o.value.frozen == Max(0, frozenSteps)))
  {
    hide RoundHalfUp;
    if previousStart.Some? {
      var age := if now < previousStart.value then 0.0 else now - previousStart.value;
      InPeriods(age, elapsed as real - 0.5, elapsed as real + 0.5, actionDt);
      NearestStep(age / actionDt, elapsed);
    }
  }

  lemma NearestStep(x: real, n: nat)
    requires n as real - 0.5 <= x < n as real + 0.5
    ensures RoundHalfUp(x) == n
  {
  }

  lemma InPeriods(age: real, low: real, high: real, dt: real)
    requires dt > 0.0 && low * dt <= age < high * dt
    ensures low <= age / dt < high
  {
    var x := age / dt;
    assert x * dt == age;
    Ordered(low, x, dt);
    Ordered(high, x, dt);
  }

  lemma Ordered(a: real, b: real, dt: real)
    requires dt > 0.0
    ensures a <= b <==> a * dt <= b * dt
  {
    assert a > b ==> (a - b) * dt > 0.0;
    assert a <= b ==> (b - a) * dt >= 0.0;
  }

  // ----- one denoising pass -----

  ghost predicate Rectangular(t: seq<Row>, width: nat) {
    forall i :: 0 <= i < |t| ==> |t[i]| == width
  }

  /** Slots of the action tensor that take rows from the previous action. */
  datatype Slots = Slots(start: nat, overlap: nat, frozen: nat)

  /** Slot `i` takes a row of the previous action: it lies in the overlap, and that row exists and is in use. */
  predicate Seeded(o: Options, previousLength: nat, i: nat) {
    i < o.overlap && o.previousStart + i < o.actionHorizon && o.previousStart + i < previousLength
  }

  function SlotsFor(o: Options, previousLength: nat, actionsLength: nat): (s: Slots)
    ensures s.frozen <= s.overlap <= actionsLength
    ensures s.start + s.overlap <= previousLength
    ensures forall i: nat :: i < actionsLength ==> (i < s.overlap <==> Seeded(o, previousLength, i))
    ensures forall i: nat :: i < actionsLength ==> (i < s.frozen <==> Seeded(o, previousLength, i) && i < o.frozen)
    ensures s.overlap > 0 ==> s.start == o.previousStart
  {
    var sliceEnd := Max(0, Min(o.actionHorizon, previousLength));
    var overlap := Max(0, Min(o.overlap, Min(sliceEnd, actionsLength)));
    var frozen := Max(0, Min(o.frozen, overlap));
    var start := Max(0, Min(o.previousStart, sliceEnd));
    var end := Min(sliceEnd, start + overlap);
    var clipped := Max(0, end - start);
    Slots(start, clipped, Min(frozen, clipped))
  }

  /** Writes the overlap into the action tensor and the velocity strengths; false is the missing-options error.
      `ramp(slot, count)` is the strength of the `slot`-th of `count` intermediate slots. */
  method InitialActions(actions: array<Row>, strength: array<Row>, width: nat, previous: Option<seq<Row>>,
                        options: Option<Options>, ramp: (nat, nat) -> real) returns (ok: bool)
    requires actions != strength && actions.Length == strength.Length
    requires Rectangular(actions[..], width)
    requires previous.Some? ==> Rectangular(previous.value, width)
    modifies actions, strength
    ensures ok <==> previous.None? || options.Some?
    ensures Rectangular(actions[..], width)
    ensures ok && previous.None? ==>
              forall i :: 0 <= i < actions.Length ==> actions[i] == old(actions[i]) && strength[i] == Uniform(width, 1.0)
    ensures ok && previous.Some? ==>
              var s := SlotsFor(options.value, |previous.value|, actions.Length);
              forall i :: 0 <= i < actions.Length ==>
                && actions[i] == (if i < s.overlap then previous.value[s.start + i] else old(actions[i]))
                && strength[i] == Uniform(width, SlotStrength(s, ramp, i))
  {
    FillOnes(strength, width);
    if previous.None? {
      return true;
    }
    if options.None? {
      return false;
    }
    var s := SlotsFor(options.value, |previous.value|, actions.Length);
    CopyPrevious(actions, previous.value, s);
    ShapeStrength(strength, width, s, ramp);
    ok := true;
  }

  method FillOnes(strength: array<Row>, width: nat)
    modifies strength
    ensures forall i :: 0 <= i < strength.Length ==> strength[i] == Uniform(width, 1.0)
  {
    for i := 0 to strength.Length
      invariant forall k :: 0 <= k < i ==> strength[k] == Uniform(width, 1.0)
    {
      strength[i] := Uniform(width, 1.0);
    }
  }

  method CopyPrevious(actions: array<Row>, previous: seq<Row>, s: Slots)
    requires s.overlap <= actions.Length && s.start + s.overlap <= |previous|
    modifies actions
    ensures forall i :: 0 <= i < actions.Length ==> actions[i] == if i < s.overlap then previous[s.start + i] else old(actions[i])
  {
    for i := 0 to s.overlap
      invariant forall k :: 0 <= k < actions.Length ==> actions[k] == if k < i then previous[s.start + k] else old(actions[k])
    {
      actions[i] := previous[s.start + i];
    }
  }

  /** The strength of a slot: none while frozen, the ramp inside the overlap, full behind it. */
  function SlotStrength(s: Slots, ramp: (nat, nat) -> real, i: nat): real
    requires s.frozen <= s.overlap
  {
    if i < s.frozen then 0.0 else if i < s.overlap then ramp(i - s.frozen, s.overlap - s.frozen) else 1.0
  }

  method ShapeStrength(strength: array<Row>, width: nat, s: Slots, ramp: (nat, nat) -> real)
    requires s.frozen <= s.overlap <= strength.Length
    requires forall i :: 0 <= i < strength.Length ==> strength[i] == Uniform(width, 1.0)
    modifies strength
    ensures forall i :: 0 <= i < strength.Length ==> strength[i] == Uniform(width, SlotStrength(s, ramp, i))
  {
    for i := 0 to s.overlap
      invariant forall k :: 0 <= k < i ==> strength[k] == Uniform(width, SlotStrength(s, ramp, k))
      invariant forall k :: i <= k < strength.Length ==> strength[k] == old(strength[k])
    {
      strength[i] := Uniform(width, SlotStrength(s, ramp, i));
    }
    forall k | s.overlap <= k < strength.Length ensures strength[k] == Uniform(width, SlotStrength(s, ramp, k)) {
      assert strength[k] == Uniform(width, 1.0);
    }
  }

  function Uniform(width: nat, x: real): (r: Row)
    ensures |r| == width && forall j :: 0 <= j < width ==> r[j] == x
  {
    seq(width, j => x)
  }

  /** `actions + delta * velocity * strength`, elementwise. */
  function EulerStep(actions: seq<Row>, velocity: seq<Row>, strength: seq<Row>, delta: real, width: nat): (r: seq<Row>)
    requires Rectangular(actions, width) && Rectangular(velocity, width) && Rectangular(strength, width)
    requires |velocity| == |strength| == |actions|
    ensures |r| == |actions| && Rectangular(r, width)
  {
    seq(|actions|, i requires 0 <= i < |actions| =>
      seq(width, j requires 0 <= j < width => actions[i][j] + delta * velocity[i][j] * strength[i][j]))
  }

  /** The network: any velocity of the right shape, free to depend on the step and on every slot. */
  ghost predicate ShapedNetwork(network: (nat, seq<Row>) -> seq<Row>, length: nat, width: nat) {
    forall t: nat, a: seq<Row> :: |a| == length && Rectangular(a, width) ==>
      |network(t, a)| == length && Rectangular(network(t, a), width)
  }

  /** What guidance makes of slot `i`: the row it starts from, and the weight `w` of every velocity there. The first
      `seeded` slots take rows of the previous action, the first `frozen` of them stay as they are and the others
      follow the ramp; slots behind them, and all slots without a previous action, start from `initial` and move freely. */
  ghost predicate Guided(initial: seq<Row>, previous: Option<seq<Row>>, options: Option<Options>, ramp: (nat, nat) -> real,
                         seeded: nat, frozen: nat, i: nat, start: Row, w: real)
    requires i < |initial| && (previous.Some? ==> options.Some?)
  {
    if previous.None? then start == initial[i] && w == 1.0
    else
      var o, length := options.value, |previous.value|;
      && (i < seeded <==> Seeded(o, length, i)) && (i < frozen <==> Seeded(o, length, i) && i < o.frozen)
      && (i < frozen ==> w == 0.0)
      && (frozen <= i < seeded ==> w == ramp(i - frozen, seeded - frozen))
      && (seeded <= i ==> w == 1.0)
      && (if Seeded(o, length, i) then start == previous.value[o.previousStart + i] else start == initial[i])
  }

  /** The tensors of a denoising run, one more than steps: each is the one before it plus a step of the network's
      velocity, slot by slot with the slot's weight. */
  ghost predicate Denoised(initial: seq<Row>, width: nat, previous: Option<seq<Row>>, options: Option<Options>,
                           ramp: (nat, nat) -> real, 
                           network: (nat, seq<Row>) -> seq<Row>, steps: nat, seeded: nat, frozen: nat, weights: seq<real>, tensors: seq<seq<Row>>)
    requires steps > 0 && (previous.Some? ==> options.Some?)
  {
    && frozen <= seeded <= |initial| && |weights| == |initial| && |tensors| == steps + 1
    && (forall t :: 0 <= t <= steps ==> |tensors[t]| == |initial| && Rectangular(tensors[t], width))
    && (forall i: nat :: i < |initial| ==> Guided(initial, previous, options, ramp, seeded, frozen, i, tensors[0][i], weights[i]))
    && (forall t: nat :: t < steps ==> StepsBy(tensors[t], tensors[t + 1], network(t, tensors[t]), weights, 1.0 / steps as real, width))
  }

  ghost predicate StepsBy(before: seq<Row>, after: seq<Row>, velocity: seq<Row>, weights: seq<real>, delta: real, width: nat)
    requires |after| == |before| == |weights| && Rectangular(before, width) && Rectangular(after, width)
  {
    && |velocity| == |before| && Rectangular(velocity, width)
    && forall i: nat, j: nat :: i < |before| && j < width ==> after[i][j] == before[i][j] + delta * velocity[i][j] * weights[i]
  }

  /** The guided denoising loop from a given start tensor: every tensor on the way is the one before it plus the
      weighted step of the network. Whatever the network answers, the frozen slots of the result are the rows of the
      previous action they were initialised with. */
  method GetActionWithRtc(initial: seq<Row>, width: nat, previous: Option<seq<Row>>, options: Option<Options>,
                          ramp: (nat, nat) -> real, network: (nat, seq<Row>) -> seq<Row>, inferenceSteps: nat)
    returns (result: Option<seq<Row>>)
    requires Rectangular(initial, width) && inferenceSteps > 0
    requires previous.Some? ==> Rectangular(previous.value, width)
    requires ShapedNetwork(network, |initial|, width)
    ensures result.Some? <==> previous.None? || options.Some?
    ensures result.Some? ==> |result.value| == |initial| && Rectangular(result.value, width)
    ensures result.Some? ==>
              exists seeded: nat, frozen: nat, weights: seq<real>, tensors: seq<seq<Row>> ::
                && Denoised(initial, width, previous, options, ramp, network, inferenceSteps, seeded, frozen, weights, tensors)
                && result.value == tensors[inferenceSteps]
    ensures result.Some? && previous.Some? ==>
              forall i: nat :: i < |initial| && Seeded(options.value, |previous.value|, i) && i < options.value.frozen ==>
                result.value[i] == previous.value[options.value.previousStart + i]
  {
    hide StepsBy;
    var tensor := new Row[|initial|](i requires 0 <= i < |initial| => initial[i]);
    var strengths := new Row[|initial|];
    assert tensor[..] == initial;
    var ok := InitialActions(tensor, strengths, width, previous, options, ramp);
    if !ok {
      return None;
    }
    ghost var s := if previous.None? then Slots(0, 0, 0) else SlotsFor(options.value, |previous.value|, |initial|);
    var actions, strength := tensor[..], strengths[..];
    ghost var weights := seq(|initial|, i requires 0 <= i < |initial| => SlotStrength(s, ramp, i));
    ghost var begun, tensors := actions, [actions];
    forall i: nat | i < |initial| ensures Guided(initial, previous, options, ramp, s.overlap, s.frozen, i, begun[i], weights[i]) {
      assert begun[i] == tensor[i];
    }
    var delta := 1.0 / inferenceSteps as real;
    for t := 0 to inferenceSteps
      invariant |tensors| == t + 1 && tensors[t] == actions && tensors[0] == begun
      invariant forall k :: 0 <= k <= t ==> |tensors[k]| == |initial| && Rectangular(tensors[k], width)
      invariant forall k: nat :: k < t ==> StepsBy(tensors[k], tensors[k + 1], network(k, tensors[k]), weights, delta, width)
    {
      var velocity := network(t, actions);
      EulerStepsBy(actions, velocity, strength, weights, delta, width);
      actions := EulerStep(actions, velocity, strength, delta, width);
      tensors := tensors + [actions];
    }
    FrozenStays(initial, width, previous, options, ramp, network, inferenceSteps, s.overlap, s.frozen, weights, tensors);
    result := Some(actions);
    assert Denoised(initial, width, previous, options, ramp, network, inferenceSteps, s.overlap, s.frozen, weights, tensors)
        && result.value == tensors[inferenceSteps];
  }

  lemma EulerStepsBy(actions: seq<Row>, velocity: seq<Row>, strength: seq<Row>, weights: seq<real>, delta: real, width: nat)
    requires Rectangular(actions, width) && Rectangular(velocity, width) && Rectangular(strength, width)
    requires |velocity| == |strength| == |actions| == |weights|
    requires forall i: nat :: i < |strength| ==> strength[i] == Uniform(width, weights[i])
    ensures StepsBy(actions, EulerStep(actions, velocity, strength, delta, width), velocity, weights, delta, width)
  {
  }

  /** A slot of weight zero never moves. */
  lemma {:induction false} ZeroWeightHolds(tensors: seq<seq<Row>>, weights: seq<real>,
                                           network: (nat, seq<Row>) -> seq<Row>, delta: real, width: nat, i: nat,
                                           t: nat)
    requires t < |tensors| && i < |weights| && weights[i] == 0.0
    requires forall k :: 0 <= k < |tensors| ==> |tensors[k]| == |weights| && Rectangular(tensors[k], width)
    requires forall k: nat :: k < t ==> StepsBy(tensors[k], tensors[k + 1], network(k, tensors[k]), weights, delta, width)
    ensures tensors[t][i] == tensors[0][i]
  {
    if t > 0 {
      ZeroWeightHolds(tensors, weights, network, delta, width, i, t - 1);
      assert StepsBy(tensors[t - 1], tensors[t], network(t - 1, tensors[t - 1]), weights, delta, width);
      assert tensors[t][i] == tensors[t - 1][i];
    }
  }

  lemma FrozenStays(initial: seq<Row>, width: nat, previous: Option<seq<Row>>, options: Option<Options>,
                    ramp: (nat, nat) -> real, 
                    network: (nat, seq<Row>) -> seq<Row>, steps: nat, seeded: nat, frozen: nat, weights: seq<real>, tensors: seq<seq<Row>>)
    requires steps > 0 && (previous.Some? ==> options.Some?)
    requires Denoised(initial, width, previous, options, ramp, network, steps, seeded, frozen, weights, tensors)
    ensures previous.Some? ==>
              forall i: nat :: i < |initial| && Seeded(options.value, |previous.value|, i) && i < options.value.frozen ==>
                tensors[steps][i] == previous.value[options.value.previousStart + i]
  {
    if previous.Some? {
      forall i: nat | i < |initial| && Seeded(options.value, |previous.value|, i) && i < options.value.frozen
        ensures tensors[steps][i] == previous.value[options.value.previousStart + i]
      {
        assert Guided(initial, previous, options, ramp, seeded, frozen, i, tensors[0][i], weights[i]);
        ZeroWeightHolds(tensors, weights, network, 1.0 / steps as real, width, i, steps);
      }
    }
  }

  // ----- the stored chunk -----

  function Overwritten(table: seq<Row>, seed: seq<Row>, frozen: int): (r: seq<Row>)
    ensures |r| == |table|
  {
    var count := Max(0, Min(frozen, Min(|table|, |seed|)));
    seed[..count] + table[count..]
  }

  function Stored(policy: Action, seed: Option<Action>, keys: seq<string>, frozen: int): (r: Action)
    ensures r.Keys == policy.Keys
    ensures forall k :: k in policy ==> |r[k]| == |policy[k]|
  {
    if seed.None? || frozen <= 0 then policy
    else map k | k in policy :: if k in keys && k in seed.value then Overwritten(policy[k], seed.value[k], frozen) else policy[k]
  }

  lemma StoredRows(policy: Action, seed: Option<Action>, keys: seq<string>, frozen: int)
    ensures var stored := Stored(policy, seed, keys, frozen);
      forall k: string, i: nat :: k in policy && i < |policy[k]| ==>
        stored[k][i] == (if i < frozen && seed.Some? && k in keys && k in seed.value && i < |seed.value[k]| then seed.value[k][i]
                         else policy[k][i])
  {
  }

  /** A repeated key changes nothing. */
  lemma OverwrittenTwice(table: seq<Row>, seed: seq<Row>, frozen: int)
    ensures Overwritten(Overwritten(table, seed, frozen), seed, frozen) == Overwritten(table, seed, frozen)
  {
  }

  /** Replaces the frozen rows of every seeded table, in a copy of the policy's answer. */
  method StoredRtcAction(policy: Action, seed: Option<Action>, keys: seq<string>, frozen: int) returns (stored: Action)
    ensures stored == Stored(policy, seed, keys, frozen)
    ensures stored.Keys == policy.Keys
    ensures forall k: string, i: nat :: k in policy && i < |policy[k]| ==>
              && |stored[k]| == |policy[k]|
              && stored[k][i] == (if i < frozen && seed.Some? && k in keys && k in seed.value && i < |seed.value[k]| then seed.value[k][i]
                                  else policy[k][i])
  {
    stored := Overwrite(policy, seed, keys, frozen);
    StoredRows(policy, seed, keys, frozen);
  }

  method Overwrite(policy: Action, seed: Option<Action>, keys: seq<string>, frozen: int) returns (stored: Action)
    ensures stored == Stored(policy, seed, keys, frozen)
  {
    hide Overwritten;
    stored := policy;
    if seed.None? || frozen <= 0 {
      return;
    }
    for n := 0 to |keys|
      invariant stored.Keys == policy.Keys
      invariant forall k :: k in policy ==>
                  stored[k] == if k in keys[..n] && k in seed.value then Overwritten(policy[k], seed.value[k], frozen) else policy[k]
    {
      var key := keys[n];
      if key in stored && key in seed.value {
        OverwrittenTwice(policy[key], seed.value[key], frozen);
        stored := stored[key := Overwritten(stored[key], seed.value[key], frozen)];
      }
    }
    assert keys[..|keys|] == keys;
  }

  lemma {:induction false} SameHorizon(a: Action, b: Action)
    requires a != map[] && a.Keys == b.Keys && forall k :: k in a ==> |a[k]| == |b[k]|
    ensures b != map[] && Horizon(a) == Horizon(b)
  {
    var k :| k in a;
    assert k in b;
  }
}
