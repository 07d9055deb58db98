/** Recording one rollout: chunked control steps, latched telemetry and one frame per row. */
module Rollout {
  import opened ActionChunks

  datatype WorldTelemetry = WorldTelemetry(step: int, distance: real, success: bool, safetyFailure: bool, terminated: bool, truncated: bool)

  predicate Done(t: WorldTelemetry) {
    t.terminated || t.truncated
  }

  predicate AnyActive(row: seq<WorldTelemetry>) {
    exists w :: 0 <= w < |row| && !Done(row[w])
  }

  /** Some world has neither terminated nor been truncated. */
  ghost predicate StillRunning(row: seq<WorldTelemetry>) {
    exists w :: 0 <= w < |row| && !row[w].terminated && !row[w].truncated
  }

  /** The worlds that have not. */
  ghost predicate IsActive(row: seq<WorldTelemetry>, active: seq<bool>) {
    |active| == |row| && forall w :: 0 <= w < |row| ==> (active[w] <==> !row[w].terminated && !row[w].truncated)
  }

  function Active(row: seq<WorldTelemetry>): (a: seq<bool>) {
    seq(|row|, w requires 0 <= w < |row| => !Done(row[w]))
  }

  /** After a world is done only its step still moves; before, its flags accumulate. */
  function LatchTelemetry(previous: WorldTelemetry, current: WorldTelemetry): WorldTelemetry {
    if Done(previous) then previous.(step := current.step)
    else current.(success := previous.success || current.success,
                  safetyFailure := previous.safetyFailure || current.safetyFailure,
                  terminated := previous.terminated || current.terminated,
                  truncated := previous.truncated || current.truncated)
  }

  /** The runtime of one rollout: the raw telemetry after the reset (0) and after each control step, and the
      length of each chunk the policy returns. Both are whatever the simulator and the policy make them. */
  datatype Runtime = Runtime(worlds: nat, raw: nat -> seq<WorldTelemetry>, chunkLength: nat -> nat)

  /** What the runtime was asked to execute: which action of which chunk, for which worlds. */
  datatype Call = Call(decision: nat, offset: nat, active: seq<bool>)

  datatype Failure = BadLimits | WrongTelemetryCount | EmptyChunk
  datatype Recording = Recorded(controlSteps: nat, policyDecisions: nat, history: seq<seq<WorldTelemetry>>,
                                frames: seq<seq<WorldTelemetry>>, calls: seq<Call>)
                     | Failed(failure: Failure)

  predicate ValidLimits(r: Runtime, episodeControlSteps: int, executionHorizon: int) {
    episodeControlSteps >= 1 && executionHorizon in {1, 2, 4, 8} && r.worlds >= 1
  }

  // ----- latching, world by world -----

  /** World `w`'s row after `k` control steps. */
  function Latched(raw: nat -> seq<WorldTelemetry>, k: nat, w: nat): WorldTelemetry
    requires forall i: nat :: i <= k ==> w < |raw(i)|
  {
    if k == 0 then raw(0)[w] else LatchTelemetry(Latched(raw, k - 1, w), raw(k)[w])
  }

  /** The last step up to `k` that still counts for world `w`: its first done one, or `k`. */
  function Counted(raw: nat -> seq<WorldTelemetry>, k: nat, w: nat): (j: nat)
    requires forall i: nat :: i <= k ==> w < |raw(i)|
    ensures j <= k
    ensures forall i: nat :: i < j ==> !raw(i)[w].terminated && !raw(i)[w].truncated
    ensures j < k ==> raw(j)[w].terminated || raw(j)[w].truncated
  {
    if k == 0 then 0
    else
      var j := Counted(raw, k - 1, w);
      if j < k - 1 || raw(j)[w].terminated || raw(j)[w].truncated then j else k
  }

  /** A recorded row is the raw one of the last step that counts, except for its step number; each flag is the
      disjunction of the raw flags up to there. */
  lemma {:induction false} RowIsLatched(raw: nat -> seq<WorldTelemetry>, k: nat, w: nat)
    requires forall i: nat :: i <= k ==> w < |raw(i)|
    ensures var t, j := Latched(raw, k, w), Counted(raw, k, w);
      && t.step == raw(k)[w].step && t.distance == raw(j)[w].distance
      && (t.success <==> exists i: nat :: i <= j && raw(i)[w].success)
      && (t.safetyFailure <==> exists i: nat :: i <= j && raw(i)[w].safetyFailure)
      && (t.terminated <==> raw(j)[w].terminated) && (t.truncated <==> raw(j)[w].truncated)
  {
    if k > 0 {
      RowIsLatched(raw, k - 1, w);
    }
  }

  /** Once a world is done, all later rows agree with each other except for the step number. */
  lemma {:induction false} RowsFreeze(raw: nat -> seq<WorldTelemetry>, k: nat, later: nat, w: nat)
    requires k <= later && (forall i: nat :: i <= later ==> w < |raw(i)|)
    requires Latched(raw, k, w).terminated || Latched(raw, k, w).truncated
    ensures Latched(raw, later, w) == Latched(raw, k, w).(step := Latched(raw, later, w).step)
  {
    if k < later {
      RowsFreeze(raw, k, later - 1, w);
    }
  }

  // ----- the loop -----

  /** The row recorded after `k` control steps. */
  ghost predicate IsRow(r: Runtime, k: nat, row: seq<WorldTelemetry>) {
    && (forall i: nat :: i <= k ==> |r.raw(i)| == r.worlds)
    && |row| == r.worlds && forall w: nat :: w < r.worlds ==> row[w] == Latched(r.raw, k, w)
  }

  /** `d` chunks of `h` steps cover `steps` control steps and no chunk is superfluous. */
  predicate Covers(d: nat, h: nat, steps: nat) {
    (d - 1) * h < steps <= d * h
  }

  /** How many actions of chunk `d` are executed if nothing ends the rollout: the horizon's, or all if it is shorter. */
  ghost function Used(r: Runtime, h: nat, d: nat): nat {
    if r.chunkLength(d) < h then r.chunkLength(d) else h
  }

  /** The actions executed: each chunk from its first action on without a gap, and the next one exactly when it is
      used up. */
  ghost predicate InTurn(r: Runtime, h: nat, calls: seq<Call>) {
    forall k: nat :: k < |calls| ==> InPlace(r, h, calls, k)
  }

  ghost predicate InPlace(r: Runtime, h: nat, calls: seq<Call>, k: nat)
    requires k < |calls|
  {
    && calls[k].offset < Used(r, h, calls[k].decision)
    && (if k == 0 then calls[k].decision == 0 && calls[k].offset == 0
        else if calls[k - 1].offset + 1 == Used(r, h, calls[k - 1].decision) then
          calls[k].decision == calls[k - 1].decision + 1 && calls[k].offset == 0
        else calls[k].decision == calls[k - 1].decision && calls[k].offset == calls[k - 1].offset + 1)
  }

  ghost predicate LongChunks(r: Runtime, h: int) {
    forall d: nat :: r.chunkLength(d) >= h
  }

  /** What the loop has recorded so far. */
  datatype Progress = Progress(controlSteps: nat, policyDecisions: nat, history: seq<seq<WorldTelemetry>>,
                               frames: seq<seq<WorldTelemetry>>, calls: seq<Call>)

  ghost predicate Ongoing(r: Runtime, limit: int, h: nat, p: Progress) {
    && p.controlSteps <= limit && |p.history| == p.controlSteps + 1 && p.frames == p.history
    && (forall k: nat :: k <= p.controlSteps ==> IsRow(r, k, p.history[k]))
    && (forall k: nat :: k < p.controlSteps ==> StillRunning(p.history[k]))
    && |p.calls| == p.controlSteps && InTurn(r, h, p.calls)
    && (forall k: nat :: k < p.controlSteps ==> IsActive(p.history[k], p.calls[k].active))
    && p.policyDecisions <= p.controlSteps
    && p.policyDecisions == if p.calls == [] then 0 else p.calls[|p.calls| - 1].decision + 1
  }

  /** The last chunk is used up. */
  ghost predicate BetweenChunks(r: Runtime, h: nat, p: Progress) {
    p.calls != [] ==> p.calls[|p.calls| - 1].offset + 1 == Used(r, h, p.calls[|p.calls| - 1].decision)
  }

  /** The rollout gets as far as a control step that comes back without a row for each world. */
  ghost predicate StepMiscounts(r: Runtime, limit: int, h: nat) {
    exists p: Progress :: Ongoing(r, limit, h, p) && p.controlSteps < limit && StillRunning(Last(p)) && |r.raw(p.controlSteps + 1)| != r.worlds
  }

  /** It gets as far as a decision for which the policy returns an empty chunk. */
  ghost predicate ChunkEmpty(r: Runtime, limit: int, h: nat) {
    exists p: Progress :: Ongoing(r, limit, h, p) && p.controlSteps < limit && StillRunning(Last(p)) && BetweenChunks(r, h, p)
                          && r.chunkLength(p.policyDecisions) == 0
  }

  lemma RunningIff(row: seq<WorldTelemetry>)
    ensures AnyActive(row) <==> StillRunning(row)
    ensures IsActive(row, Active(row))
  {
  }

  function Last(p: Progress): seq<WorldTelemetry> {
    if p.history == [] then [] else p.history[|p.history| - 1]
  }

  /** One control step. */
  method ExecuteAction(r: Runtime, limit: int, p: Progress, decision: nat, offset: nat) returns (q: Option<Progress>)
    requires p.controlSteps < limit && |p.history| == p.controlSteps + 1 && IsRow(r, p.controlSteps, Last(p))
    ensures q.None? ==> |r.raw(p.controlSteps + 1)| != r.worlds
    ensures q.Some? ==>
              && q.value.controlSteps == p.controlSteps + 1 && q.value.policyDecisions == p.policyDecisions
              && q.value.history != [] && IsRow(r, p.controlSteps + 1, Last(q.value))
              && q.value.history == p.history + [Last(q.value)] && q.value.frames == p.frames + [Last(q.value)]
              && q.value.calls == p.calls + [Call(decision, offset, Active(Last(p)))]
  {
    var telemetry := Last(p);
    var current := r.raw(p.controlSteps + 1);
    if |current| != r.worlds {
      return None;
    }
    var latched := seq(r.worlds, w requires 0 <= w < r.worlds => LatchTelemetry(telemetry[w], current[w]));
    q := Some(Progress(p.controlSteps + 1, p.policyDecisions, p.history + [latched], p.frames + [latched],
                       p.calls + [Call(decision, offset, Active(telemetry))]));
  }

  /** One more executed action keeps the record in order. */
  lemma OngoingMore(r: Runtime, limit: int, h: nat, p: Progress, q: Progress, call: Call)
    requires Ongoing(r, limit, h, p) && p.controlSteps < limit && AnyActive(Last(p)) && call.active == Active(Last(p))
    requires q.controlSteps == p.controlSteps + 1 && q.history != [] && IsRow(r, q.controlSteps, Last(q))
    requires q.history == p.history + [Last(q)] && q.frames == p.frames + [Last(q)] && q.calls == p.calls + [call]
    requires q.policyDecisions == call.decision + 1 && call.offset < Used(r, h, call.decision)
    requires if BetweenChunks(r, h, p) then call.offset == 0 && call.decision == p.policyDecisions
             else call.decision == p.policyDecisions - 1 && call.offset == p.calls[|p.calls| - 1].offset + 1
    ensures Ongoing(r, limit, h, q)
  {
    hide IsRow, Active, AnyActive, StillRunning, IsActive, Used;
    RunningIff(Last(p));
    forall k: nat | k < q.controlSteps ensures IsActive(q.history[k], q.calls[k].active) && StillRunning(q.history[k]) {
    }
    forall k: nat | k < |q.calls| ensures InPlace(r, h, q.calls, k) {
      assert k < |p.calls| ==> InPlace(r, h, p.calls, k) && q.calls[k] == p.calls[k];
    }
  }

  /** One chunk: its actions in turn, until the chunk's horizon or until every world is done. */
  method ExecuteChunk(r: Runtime, limit: int, ghost h: nat, horizon: nat, p: Progress) returns (q: Option<Progress>)
    requires Ongoing(r, limit, h, p) && AnyActive(Last(p)) && BetweenChunks(r, h, p)
    requires 1 <= horizon == Min(Used(r, h, p.policyDecisions), limit - p.controlSteps)
    ensures q.None? ==> StepMiscounts(r, limit, h)
    ensures q.Some? ==>
              && Ongoing(r, limit, h, q.value) && q.value.policyDecisions == p.policyDecisions + 1
              && 1 <= q.value.controlSteps - p.controlSteps <= horizon
              && (q.value.controlSteps - p.controlSteps == horizon || !AnyActive(Last(q.value)))
              && (q.value.controlSteps == limit || !AnyActive(Last(q.value)) || BetweenChunks(r, h, q.value))
  {
    hide IsRow, InTurn, Used, StepMiscounts, AnyActive, Active, StillRunning, IsActive;
    var first := ExecuteAction(r, limit, p, p.policyDecisions, 0);
    if first.None? {
      Miscounted(r, limit, h, p);
      return None;
    }
    var now, offset := first.value.(policyDecisions := p.policyDecisions + 1), 1;
    OngoingMore(r, limit, h, p, now, Call(p.policyDecisions, 0, Active(Last(p))));
    while offset < horizon && AnyActive(Last(now))
      invariant 1 <= offset <= horizon && now.controlSteps == p.controlSteps + offset
      invariant Ongoing(r, limit, h, now) && now.policyDecisions == p.policyDecisions + 1
      invariant now.calls[|now.calls| - 1].offset == offset - 1 && now.calls[|now.calls| - 1].decision == p.policyDecisions
    {
      var next := ExecuteAction(r, limit, now, p.policyDecisions, offset);
      if next.None? {
        Miscounted(r, limit, h, now);
        return None;
      }
      OngoingMore(r, limit, h, now, next.value, Call(p.policyDecisions, offset, Active(Last(now))));
      now, offset := next.value, offset + 1;
    }
    q := Some(now);
  }

  lemma Miscounted(r: Runtime, limit: int, h: nat, p: Progress)
    requires Ongoing(r, limit, h, p) && p.controlSteps < limit && AnyActive(Last(p)) && |r.raw(p.controlSteps + 1)| != r.worlds
    ensures StepMiscounts(r, limit, h)
  {
    RunningIff(Last(p));
  }

  lemma Emptied(r: Runtime, limit: int, h: nat, p: Progress)
    requires Ongoing(r, limit, h, p) && p.controlSteps < limit && AnyActive(Last(p)) && BetweenChunks(r, h, p)
    requires r.chunkLength(p.policyDecisions) == 0
    ensures ChunkEmpty(r, limit, h)
  {
    RunningIff(Last(p));
  }

  lemma CoversMore(d: nat, h: nat, steps: nat, offset: nat)
    requires steps == d * h && 1 <= offset <= h
    ensures Covers(d + 1, h, steps + offset)
    ensures offset == h ==> steps + offset == (d + 1) * h
  {
    assert (d + 1) * h == d * h + h;
  }

  method ExecuteRollout(r: Runtime, episodeControlSteps: int, executionHorizon: int) returns (result: Recording)
    ensures result.Failed? && result.failure.BadLimits? <==>
              episodeControlSteps < 1 || r.worlds < 1
              || (executionHorizon != 1 && executionHorizon != 2 && executionHorizon != 4 && executionHorizon != 8)
    ensures result.Recorded? ==>
              && |result.history| == result.controlSteps + 1 && result.frames == result.history
              && (forall k: nat :: k <= result.controlSteps ==> IsRow(r, k, result.history[k]))
              && result.controlSteps <= episodeControlSteps
              && (result.controlSteps == episodeControlSteps || !StillRunning(result.history[result.controlSteps]))
              && (forall k: nat :: k < result.controlSteps ==> StillRunning(result.history[k]))
    ensures result.Recorded? ==>
              && executionHorizon >= 1 && |result.calls| == result.controlSteps && InTurn(r, executionHorizon, result.calls)
              && (forall k: nat :: k < result.controlSteps ==> IsActive(result.history[k], result.calls[k].active))
              && result.policyDecisions == if result.calls == [] then 0 else result.calls[result.controlSteps - 1].decision + 1
    ensures result.Recorded? && result.controlSteps > 0 && LongChunks(r, executionHorizon) ==>
              Covers(result.policyDecisions, executionHorizon, result.controlSteps)
    ensures result.Failed? && result.failure.WrongTelemetryCount? ==>
              executionHorizon >= 1 && (|r.raw(0)| != r.worlds || StepMiscounts(r, episodeControlSteps, executionHorizon))
    ensures result.Failed? && result.failure.EmptyChunk? ==> executionHorizon >= 1 && ChunkEmpty(r, episodeControlSteps, executionHorizon)
  {
    hide IsRow, InTurn, Covers, StepMiscounts, ChunkEmpty, StillRunning, IsActive, AnyActive, BetweenChunks, Used, LongChunks, Ongoing;
    if !ValidLimits(r, episodeControlSteps, executionHorizon) {
      return Failed(BadLimits);
    }
    if |r.raw(0)| != r.worlds {
      return Failed(WrongTelemetryCount);
    }
    var p := Progress(0, 0, [r.raw(0)], [r.raw(0)], []);
    StartsOngoing(r, episodeControlSteps, executionHorizon, p);
    while p.controlSteps < episodeControlSteps && AnyActive(Last(p))
      invariant Ongoing(r, episodeControlSteps, executionHorizon, p)
      invariant p.controlSteps == episodeControlSteps || !AnyActive(Last(p)) || BetweenChunks(r, executionHorizon, p)
      invariant LongChunks(r, executionHorizon) ==>
                  || p.controlSteps == p.policyDecisions * executionHorizon
                  || ((p.controlSteps == episodeControlSteps || !AnyActive(Last(p))) && Covers(p.policyDecisions, executionHorizon, p.controlSteps))
      decreases episodeControlSteps - p.controlSteps
    {
      var length := r.chunkLength(p.policyDecisions);
      if length == 0 {
        Emptied(r, episodeControlSteps, executionHorizon, p);
        return Failed(EmptyChunk);
      }
      var horizon := Min(executionHorizon, Min(episodeControlSteps - p.controlSteps, length));
      WholeUse(r, executionHorizon, p.policyDecisions);
      StepsWithin(r, episodeControlSteps, executionHorizon, p);
      var q := ExecuteChunk(r, episodeControlSteps, executionHorizon, horizon, p);
      if q.None? {
        return Failed(WrongTelemetryCount);
      }
      if p.controlSteps == p.policyDecisions * executionHorizon {
        CoversMore(p.policyDecisions, executionHorizon, p.controlSteps, q.value.controlSteps - p.controlSteps);
      }
      p := q.value;
    }
    RunningIff(Last(p));
    RecordOf(r, episodeControlSteps, executionHorizon, p);
    if p.controlSteps == p.policyDecisions * executionHorizon && p.controlSteps > 0 {
      ExactlyCovers(p.policyDecisions, executionHorizon, p.controlSteps);
    }
    result := Recorded(p.controlSteps, p.policyDecisions, p.history, p.frames, p.calls);
  }

  lemma StartsOngoing(r: Runtime, limit: int, h: nat, p: Progress)
    requires |r.raw(0)| == r.worlds && limit >= 1 && p == Progress(0, 0, [r.raw(0)], [r.raw(0)], [])
    ensures Ongoing(r, limit, h, p) && BetweenChunks(r, h, p)
  {
  }

  lemma WholeUse(r: Runtime, h: nat, d: nat)
    ensures Used(r, h, d) == Min(h, r.chunkLength(d))
    ensures LongChunks(r, h) ==> Used(r, h, d) == h
  {
  }

  lemma StepsWithin(r: Runtime, limit: int, h: nat, p: Progress)
    requires Ongoing(r, limit, h, p)
    ensures p.controlSteps <= limit
  {
  }

  lemma RecordOf(r: Runtime, limit: int, h: nat, p: Progress)
    requires Ongoing(r, limit, h, p)
    ensures |p.history| == p.controlSteps + 1 && p.frames == p.history && p.controlSteps <= limit
    ensures forall k: nat :: k <= p.controlSteps ==> IsRow(r, k, p.history[k])
    ensures forall k: nat :: k < p.controlSteps ==> StillRunning(p.history[k])
    ensures |p.calls| == p.controlSteps && InTurn(r, h, p.calls)
    ensures forall k: nat :: k < p.controlSteps ==> IsActive(p.history[k], p.calls[k].active)
    ensures p.policyDecisions == if p.calls == [] then 0 else p.calls[p.controlSteps - 1].decision + 1
  {
    hide IsRow, StillRunning, IsActive, InTurn;
  }

  lemma ExactlyCovers(d: nat, h: nat, steps: nat)
    requires steps == d * h && h >= 1
    ensures Covers(d, h, steps)
  {
    assert (d - 1) * h == d * h - h;
  }
}
