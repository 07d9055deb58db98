/** The rolling store of recent action chunks and the seed window it answers with. */
module SeedStore {
  import opened Rounding
  import opened ActionChunks

  datatype Chunk = Chunk(startStep: int, frameId: int, action: Action)

  datatype SeedWindow =
    | NoChunks
    | NoWindow(startStep: int)
    | MissingKey
    | Window(seed: Action, startTime: real, anchorFrame: int, startStep: int, validSteps: nat)

  // ----- the direct definition -----

  ghost predicate Covers(c: Chunk, step: int) {
    c.action != map[] && c.startStep <= step < c.startStep + Horizon(c.action)
  }

  /** The row of the newest chunk covering a step; later list entries are newer. */
  ghost function Newest(chunks: seq<Chunk>, step: int): Option<map<string, Row>> {
    if chunks == [] then None
    else
      var last := chunks[|chunks| - 1];
      if Covers(last, step) then Some(RowsAt(last.action, step - last.startStep))
      else Newest(chunks[..|chunks| - 1], step)
  }

  ghost predicate Covered(chunks: seq<Chunk>, from: int, to: int) {
    forall step :: from <= step < to ==> Newest(chunks, step).Some?
  }

  /** Length of the longest run of covered steps from `start`, at most `horizon`. */
  ghost function CoveredPrefix(chunks: seq<Chunk>, start: int, horizon: nat): (n: nat)
    ensures n <= horizon
    ensures Covered(chunks, start, start + n)
    ensures n < horizon ==> Newest(chunks, start + n).None?
    decreases horizon
  {
    if horizon == 0 || Newest(chunks, start).None? then 0
    else 1 + CoveredPrefix(chunks, start + 1, horizon - 1)
  }

  /** Row `i` of the window: covered rows as they are, then the last covered row repeated. */
  ghost function SeedRow(chunks: seq<Chunk>, start: int, valid: nat, i: nat): map<string, Row>
    requires 0 < valid && Covered(chunks, start, start + valid)
  {
    Newest(chunks, start + if i < valid then i else valid - 1).value
  }

  /** Every covered row holds a key. */
  ghost predicate KeyThroughout(chunks: seq<Chunk>, start: int, valid: nat, key: string)
    requires 0 < valid && Covered(chunks, start, start + valid)
  {
    forall i: nat :: i < valid ==> key in SeedRow(chunks, start, valid, i)
  }

  /** The window's table for one key. */
  ghost function SeedTable(chunks: seq<Chunk>, start: int, valid: nat, steps: nat, key: string): seq<Row>
    requires 0 < valid && Covered(chunks, start, start + valid) && KeyThroughout(chunks, start, valid, key)
  {
    assert forall i: nat :: key in SeedRow(chunks, start, valid, i) by {
      forall i: nat ensures key in SeedRow(chunks, start, valid, i) {
        assert SeedRow(chunks, start, valid, i) == SeedRow(chunks, start, valid, if i < valid then i else valid - 1);
      }
    }
    seq(steps, i requires 0 <= i < steps => SeedRow(chunks, start, valid, i)[key])
  }

  ghost predicate KeysThroughout(keys: seq<string>, chunks: seq<Chunk>, start: int, valid: nat)
    requires 0 < valid && Covered(chunks, start, start + valid)
  {
    forall k :: k in keys && k in SeedRow(chunks, start, valid, 0) ==> KeyThroughout(chunks, start, valid, k)
  }

  ghost function DirectWindow(keys: seq<string>, chunks: seq<Chunk>, start: int, time: real, frame: int,
                              horizon: int): SeedWindow {
    var steps := Max(0, horizon);
    var valid := CoveredPrefix(chunks, start, steps);
    if valid == 0 then NoWindow(start)
    else if !KeysThroughout(keys, chunks, start, valid) then MissingKey
    else Window(map k | k in keys && k in SeedRow(chunks, start, valid, 0) :: SeedTable(chunks, start, valid, steps, k),
                time, frame, start, valid)
  }

  // ----- the store as a value -----

  datatype Store = Store(keys: seq<string>, actionDt: real, maxChunks: nat, epoch: Option<real>, chunks: seq<Chunk>)

  /** The epoch is the first time the store ever converts. */
  function Epoch(s: Store, time: real): real {
    if s.epoch.None? then time else s.epoch.value
  }

  function StepOf(s: Store, time: real): int
    requires s.actionDt > 0.0
  {
    RoundHalfEven((time - Epoch(s, time)) / s.actionDt)
  }

  function Selected(keys: seq<string>, action: Action): Action {
    map k | k in keys && k in action :: action[k]
  }

  function LastN<T>(s: seq<T>, n: nat): seq<T> {
    if |s| > n then s[|s| - n..] else s
  }

  function Pushed(s: Store, action: Action, start: real, frame: int): Store
    requires s.actionDt > 0.0
  {
    var chunk := Chunk(StepOf(s, start), frame, Selected(s.keys, action));
    s.(epoch := Some(Epoch(s, start)), chunks := LastN(s.chunks + [chunk], s.maxChunks))
  }

  ghost function WindowAt(s: Store, time: real, frame: int, horizon: int): SeedWindow
    requires s.actionDt > 0.0
  {
    if s.chunks == [] then NoChunks
    else DirectWindow(s.keys, s.chunks, StepOf(s, time), time, frame, horizon)
  }

  // ----- the store as the program keeps it -----

  class TeleopRtcSeedManager {
    const actionKeys: seq<string>
    const actionDt: real
    const maxChunks: nat
    var epoch: Option<real>
    var chunks: seq<Chunk>

    ghost predicate Valid()
      reads this
    {
      && actionDt > 0.0
      && 1 <= maxChunks
      && |chunks| <= maxChunks
      && (chunks != [] ==> epoch.Some?)
    }

    ghost function View(): Store
      reads this
    {
      Store(actionKeys, actionDt, maxChunks, epoch, chunks)
    }

    constructor (actionKeys: seq<string>, actionDt: real, maxChunks: int)
      requires actionDt > 0.0
      ensures Valid()
      ensures View() == Store(actionKeys, actionDt, Max(1, maxChunks), None, [])
    {
      this.actionKeys := actionKeys;
      this.actionDt := actionDt;
      this.maxChunks := Max(1, maxChunks);
      epoch := None;
      chunks := [];
    }

    method TimeToStep(timestamp: real) returns (step: int)
      requires Valid()
      modifies this`epoch
      ensures Valid()
      ensures epoch == Some(Epoch(old(View()), timestamp))
      ensures step == StepOf(old(View()), timestamp)
    {
      if epoch.None? {
        epoch := Some(timestamp);
      }
      step := RoundHalfEven((timestamp - epoch.value) / actionDt);
    }

    method Push(action: Action, start: real, frame: int)
      requires Valid()
      modifies this
      ensures Valid()
      ensures View() == Pushed(old(View()), action, start, frame)
    {
      var step := TimeToStep(start);
      chunks := chunks + [Chunk(step, frame, Selected(actionKeys, action))];
      if |chunks| > maxChunks {
        chunks := chunks[|chunks| - maxChunks..];
      }
    }

    /** Builds the step-indexed table over the retained chunks and walks it. */
    method SeedWindow(anchor: real, frame: int, horizon: int) returns (window: SeedWindow)
      requires Valid()
      modifies this`epoch
      ensures Valid()
      ensures View() == old(View())
      ensures window == WindowAt(View(), anchor, frame, horizon)
    {
      if chunks == [] {
        return NoChunks;
      }
      var start := TimeToStep(anchor);
      var indexed := IndexedRows();
      var rows := WalkRows(indexed, chunks, start, Max(0, horizon));
      if rows == [] {
        return NoWindow(start);
      }
      var valid := |rows|;
      var seed := StackTables(actionKeys, Padded(rows, Max(0, horizon)), chunks, start, valid);
      window := if seed.None? then MissingKey else Window(seed.value, anchor, frame, start, valid);
    }

    /** Collects rows from `start` until a step is missing or the horizon is reached. */
    static method WalkRows(indexed: map<int, map<string, Row>>, ghost chunks: seq<Chunk>, start: int, steps: nat)
      returns (rows: seq<map<string, Row>>)
      requires forall step :: step in indexed <==> Newest(chunks, step).Some?
      requires forall step :: step in indexed ==> Newest(chunks, step) == Some(indexed[step])
      ensures |rows| == CoveredPrefix(chunks, start, steps)
      ensures forall i: nat :: i < |rows| ==> Newest(chunks, start + i) == Some(rows[i])
    {
      rows := [];
      while |rows| < steps && start + |rows| in indexed
        invariant |rows| <= steps
        invariant Covered(chunks, start, start + |rows|)
        invariant forall i: nat :: i < |rows| ==> Newest(chunks, start + i) == Some(rows[i])
        decreases steps - |rows|
      {
        rows := rows + [indexed[start + |rows|]];
      }
      PrefixIsUnique(chunks, start, steps, |rows|);
    }

    /** Repeats the last row up to the horizon. */
    static function Padded(rows: seq<map<string, Row>>, steps: nat): (r: seq<map<string, Row>>)
      requires 0 < |rows| <= steps
      ensures |r| == steps
      ensures forall i: nat :: i < steps ==> r[i] == rows[if i < |rows| then i else |rows| - 1]
    {
      rows + seq(steps - |rows|, i => rows[|rows| - 1])
    }

    /** Stacks the rows into one table per key of the first row; None when a row misses such a key. */
    static method StackTables(keys: seq<string>, rows: seq<map<string, Row>>, ghost chunks: seq<Chunk>,
                              ghost start: int, ghost valid: nat)
      returns (seed: Option<Action>)
      requires 0 < valid <= |rows| && Covered(chunks, start, start + valid)
      requires forall i: nat :: i < |rows| ==> rows[i] == SeedRow(chunks, start, valid, i)
      ensures seed.Some? <==> KeysThroughout(keys, chunks, start, valid)
      ensures seed.Some? ==>
                seed.value == map k | k in keys && k in SeedRow(chunks, start, valid, 0) :: SeedTable(chunks, start, valid, |rows|, k)
    {
      var tables: Action := map[];
      for n := 0 to |keys|
        invariant forall k :: k in tables <==> k in keys[..n] && k in rows[0]
        invariant forall k :: k in tables ==>
                    KeyThroughout(chunks, start, valid, k) && tables[k] == SeedTable(chunks, start, valid, |rows|, k)
      {
        var key := keys[n];
        if key in rows[0] {
          var table := StackKey(key, rows, chunks, start, valid);
          if table.None? {
            return None;
          }
          tables := tables[key := table.value];
        }
      }
      assert keys[..|keys|] == keys;
      seed := Some(tables);
    }

    static method StackKey(key: string, rows: seq<map<string, Row>>, ghost chunks: seq<Chunk>, ghost start: int,
                           ghost valid: nat)
      returns (table: Option<seq<Row>>)
      requires 0 < valid <= |rows| && Covered(chunks, start, start + valid)
      requires forall i: nat :: i < |rows| ==> rows[i] == SeedRow(chunks, start, valid, i)
      ensures table.Some? <==> KeyThroughout(chunks, start, valid, key)
      ensures table.Some? ==> table.value == SeedTable(chunks, start, valid, |rows|, key)
    {
      var stacked: seq<Row> := [];
      for i := 0 to |rows|
        invariant |stacked| == i
        invariant forall j: nat :: j < i ==> key in rows[j] && stacked[j] == rows[j][key]
      {
        if key !in rows[i] {
          assert key !in SeedRow(chunks, start, valid, if i < valid then i else valid - 1);
          return None;
        }
        stacked := stacked + [rows[i][key]];
      }
      forall i: nat | i < valid ensures key in SeedRow(chunks, start, valid, i) {
        assert key in rows[i];
      }
      table := Some(stacked);
    }

    /** Writes a chunk's rows over a step-indexed table. */
    static method Overlay(before: map<int, map<string, Row>>, chunk: Chunk) returns (indexed: map<int, map<string, Row>>)
      requires chunk.action != map[]
      ensures forall step :: step in indexed <==> step in before || Covers(chunk, step)
      ensures forall step :: step in indexed ==>
                indexed[step] == if Covers(chunk, step) then RowsAt(chunk.action, step - chunk.startStep) else before[step]
    {
      indexed := before;
      var horizon := ShortestTable(chunk.action);
      for offset := 0 to horizon
        invariant forall step :: step in indexed <==> step in before || chunk.startStep <= step < chunk.startStep + offset
        invariant forall step :: step in indexed ==>
                    indexed[step] == if chunk.startStep <= step < chunk.startStep + offset
                                     then RowsAt(chunk.action, step - chunk.startStep) else before[step]
      {
        indexed := indexed[chunk.startStep + offset := map k | k in chunk.action :: chunk.action[k][offset]];
      }
    }

    /** Step-indexed table: a later chunk overwrites the rows of an earlier one. */
    method IndexedRows() returns (indexed: map<int, map<string, Row>>)
      requires Valid()
      ensures forall step :: step in indexed <==> Newest(chunks, step).Some?
      ensures forall step :: step in indexed ==> Newest(chunks, step) == Some(indexed[step])
    {
      indexed := map[];
      for c := 0 to |chunks|
        invariant forall step :: step in indexed <==> Newest(chunks[..c], step).Some?
        invariant forall step :: step in indexed ==> Newest(chunks[..c], step) == Some(indexed[step])
      {
        var chunk := chunks[c];
        assert chunks[..c + 1][..c] == chunks[..c];
        if chunk.action != map[] {
          indexed := Overlay(indexed, chunk);
        }
      }
      assert chunks[..|chunks|] == chunks;
    }
  }

  lemma PrefixIsUnique(chunks: seq<Chunk>, start: int, horizon: nat, n: nat)
    requires n <= horizon
    requires Covered(chunks, start, start + n)
    requires n < horizon ==> Newest(chunks, start + n).None?
    ensures CoveredPrefix(chunks, start, horizon) == n
  {
    var p := CoveredPrefix(chunks, start, horizon);
    assert p < n ==> Newest(chunks, start + p).Some?;
  }

  // ----- any sequence of pushes and evictions -----

  datatype PushCall = PushCall(action: Action, start: real, frame: int)

  function PushAll(s: Store, calls: seq<PushCall>): (r: Store)
    requires s.actionDt > 0.0
    ensures r.actionDt == s.actionDt
  {
    if calls == [] then s
    else
      var last := calls[|calls| - 1];
      Pushed(PushAll(s, calls[..|calls| - 1]), last.action, last.start, last.frame)
  }

  /** Every chunk ever pushed, each placed relative to the time of the first push. */
  function AllChunks(keys: seq<string>, actionDt: real, calls: seq<PushCall>): seq<Chunk>
    requires actionDt > 0.0
  {
    seq(|calls|, i requires 0 <= i < |calls| => PlacedChunk(keys, actionDt, calls[0].start, calls[i]))
  }

  function PlacedChunk(keys: seq<string>, actionDt: real, first: real, c: PushCall): Chunk
    requires actionDt > 0.0
  {
    Chunk(RoundHalfEven((c.start - first) / actionDt), c.frame, map k | k in keys && k in c.action :: c.action[k])
  }

  /** After any pushes the store holds exactly the newest `maxChunks` of them, measured from the first. */
  lemma {:induction false} RetainedAreNewest(keys: seq<string>, actionDt: real, maxChunks: nat, calls: seq<PushCall>)
    requires actionDt > 0.0 && calls != [] && 1 <= maxChunks
    ensures PushAll(Store(keys, actionDt, maxChunks, None, []), calls)
         == Store(keys, actionDt, maxChunks, Some(calls[0].start), LastN(AllChunks(keys, actionDt, calls), maxChunks))
  {
    hide PushAll, AllChunks, LastN, Pushed;
    PushedLast(Store(keys, actionDt, maxChunks, None, []), calls);
    var before, last := calls[..|calls| - 1], calls[|calls| - 1];
    if before == [] {
      FirstPushed(keys, actionDt, maxChunks, last);
      assert calls == [last];
    } else {
      RetainedAreNewest(keys, actionDt, maxChunks, before);
      var all := AllChunks(keys, actionDt, before);
      ChunksMore(keys, actionDt, before, last);
      PushedLater(keys, actionDt, maxChunks, calls[0].start, LastN(all, maxChunks), last);
      LastNMore(all, PlacedChunk(keys, actionDt, calls[0].start, last), maxChunks);
      assert calls == before + [last];
    }
  }

  lemma {:induction false} PushedLast(s: Store, calls: seq<PushCall>)
    requires s.actionDt > 0.0 && calls != []
    ensures PushAll(s, []) == s
    ensures var last := calls[|calls| - 1];
      PushAll(s, calls) == Pushed(PushAll(s, calls[..|calls| - 1]), last.action, last.start, last.frame)
  {
    hide Pushed;
  }

  lemma FirstPushed(keys: seq<string>, actionDt: real, maxChunks: nat, c: PushCall)
    requires actionDt > 0.0 && 1 <= maxChunks
    ensures Pushed(Store(keys, actionDt, maxChunks, None, []), c.action, c.start, c.frame)
         == Store(keys, actionDt, maxChunks, Some(c.start), LastN(AllChunks(keys, actionDt, [c]), maxChunks))
  {
    hide RoundHalfEven;
    assert AllChunks(keys, actionDt, [c]) == [PlacedChunk(keys, actionDt, c.start, c)];
  }

  lemma PushedLater(keys: seq<string>, actionDt: real, maxChunks: nat, first: real, chunks: seq<Chunk>, c: PushCall)
    requires actionDt > 0.0
    ensures Pushed(Store(keys, actionDt, maxChunks, Some(first), chunks), c.action, c.start, c.frame)
         == Store(keys, actionDt, maxChunks, Some(first), LastN(chunks + [PlacedChunk(keys, actionDt, first, c)], maxChunks))
  {
    hide RoundHalfEven, LastN;
  }

  lemma ChunksMore(keys: seq<string>, actionDt: real, calls: seq<PushCall>, c: PushCall)
    requires actionDt > 0.0 && calls != []
    ensures AllChunks(keys, actionDt, calls + [c]) == AllChunks(keys, actionDt, calls) + [PlacedChunk(keys, actionDt, calls[0].start, c)]
  {
    hide RoundHalfEven;
  }

  lemma LastNMore(s: seq<Chunk>, c: Chunk, n: nat)
    requires 1 <= n
    ensures LastN(LastN(s, n) + [c], n) == LastN(s + [c], n)
  {
  }

  /** Eviction is invisible on every step that a retained chunk covers. */
  lemma {:induction false} EvictionInvisible(all: seq<Chunk>, maxChunks: nat, step: int)
    requires Newest(LastN(all, maxChunks), step).Some?
    ensures Newest(LastN(all, maxChunks), step) == Newest(all, step)
  {
    var kept := LastN(all, maxChunks);
    if |all| > maxChunks && !Covers(all[|all| - 1], step) {
      var rest := all[..|all| - 1];
      assert kept[..|kept| - 1] == LastN(rest, maxChunks - 1);
      EvictionInvisible(rest, maxChunks - 1, step);
    }
  }

  /** A step is covered when some retained chunk has a row for it in every one of its tables. */
  ghost predicate HasStep(chunks: seq<Chunk>, step: int) {
    exists i :: 0 <= i < |chunks| && HoldsStep(chunks[i], step)
  }

  ghost predicate HoldsStep(c: Chunk, step: int) {
    c.action != map[] && forall k :: k in c.action ==> 0 <= step - c.startStep < |c.action[k]|
  }

  lemma {:induction false} NewestHas(chunks: seq<Chunk>, step: int)
    ensures Newest(chunks, step).Some? <==> HasStep(chunks, step)
  {
    hide Covers, HoldsStep;
    if chunks != [] {
      var front, last := chunks[..|chunks| - 1], chunks[|chunks| - 1];
      NewestHas(front, step);
      CoversIff(last, step);
      assert forall i :: 0 <= i < |front| ==> front[i] == chunks[i];
    }
  }

  lemma CoversIff(c: Chunk, step: int)
    ensures Covers(c, step) <==> HoldsStep(c, step)
  {
    if c.action != map[] {
      HorizonLeast(c.action);
    }
  }

  lemma {:induction false} HorizonLeast(action: Action)
    requires action != map[]
    ensures forall k :: k in action ==> Horizon(action) <= |action[k]|
    ensures exists k :: k in action && Horizon(action) == |action[k]|
  {
  }

  /** Which answer a store gives: nothing stored, nothing that covers the asked step, a key that the first covered row
      has and a later one lacks, or a window with exactly the configured keys of the first row. */
  lemma WindowCases(s: Store, time: real, frame: int, horizon: int)
    requires s.actionDt > 0.0
    ensures var w, start := WindowAt(s, time, frame, horizon), StepOf(s, time);
      && (w.NoChunks? <==> s.chunks == [])
      && (w == NoWindow(start) <==> s.chunks != [] && (horizon <= 0 || !HasStep(s.chunks, start)))
      && (w.NoWindow? ==> w == NoWindow(start))
      && (w.MissingKey? <==> s.chunks != [] && exists n: nat, k :: n < horizon && k in s.keys && LosesKey(s.chunks, start, n, k))
      && (w.Window? ==> Newest(s.chunks, start).Some? && forall k :: k in w.seed <==> k in s.keys && k in Newest(s.chunks, start).value)
  {
    var start := StepOf(s, time);
    var valid := CoveredPrefix(s.chunks, start, Max(0, horizon));
    NewestHas(s.chunks, start);
    if s.chunks != [] && valid > 0 {
      KeysKept(s.keys, s.chunks, start, valid, horizon);
    }
    if s.chunks != [] && valid == 0 {
      forall n: nat, k | n < horizon ensures !LosesKey(s.chunks, start, n, k) {
        assert start + valid == start;
      }
    }
  }

  /** The steps up to `start + n` are covered, the first with the key and the last without it. */
  ghost predicate LosesKey(chunks: seq<Chunk>, start: int, n: nat, key: string) {
    && Covered(chunks, start, start + n + 1)
    && key in Newest(chunks, start).value && key !in Newest(chunks, start + n).value
  }

  lemma {:induction false} KeysKept(keys: seq<string>, chunks: seq<Chunk>, start: int, valid: nat, horizon: int)
    requires 0 < valid == CoveredPrefix(chunks, start, Max(0, horizon))
    ensures !KeysThroughout(keys, chunks, start, valid) <==> exists n: nat, k :: n < horizon && k in keys && LosesKey(chunks, start, n, k)
  {
    assert SeedRow(chunks, start, valid, 0) == Newest(chunks, start).value;
    if !KeysThroughout(keys, chunks, start, valid) {
      var k :| k in keys && k in SeedRow(chunks, start, valid, 0) && !KeyThroughout(chunks, start, valid, k);
      var n: nat :| n < valid && k !in SeedRow(chunks, start, valid, n);
      assert LosesKey(chunks, start, n, k);
    }
    if n: nat, k :| n < horizon && k in keys && LosesKey(chunks, start, n, k) {
      assert n < valid by {
        assert valid < horizon ==> Newest(chunks, start + valid).None?;
      }
      assert k !in SeedRow(chunks, start, valid, n);
    }
  }

  /** Reading a window: its tables are exactly `horizon` long, and row `i` is the newest retained row covering
      the `i`-th step of the longest covered run, or the last such row repeated. */
  lemma WindowRows(s: Store, time: real, frame: int, horizon: int, key: string, i: nat)
    requires s.actionDt > 0.0
    requires WindowAt(s, time, frame, horizon).Window?
    requires key in WindowAt(s, time, frame, horizon).seed && i < horizon
    ensures var w := WindowAt(s, time, frame, horizon);
      var step := StepOf(s, time) + if i < w.validSteps then i else w.validSteps - 1;
      && w.startTime == time && w.anchorFrame == frame && w.startStep == StepOf(s, time)
      && 1 <= w.validSteps <= horizon
      && (w.validSteps < horizon ==> Newest(s.chunks, StepOf(s, time) + w.validSteps).None?)
      && |w.seed[key]| == horizon
      && Newest(s.chunks, step).Some?
      && key in Newest(s.chunks, step).value
      && w.seed[key][i] == Newest(s.chunks, step).value[key]
  {
    var start := StepOf(s, time);
    var valid := CoveredPrefix(s.chunks, start, Max(0, horizon));
    assert KeyThroughout(s.chunks, start, valid, key);
    assert key in SeedRow(s.chunks, start, valid, if i < valid then i else valid - 1);
  }
}
