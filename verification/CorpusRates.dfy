/** What the success thresholds of the corpus verifier imply for each other. */
module CorpusRates {
  import opened ActionChunks
  import opened MultimodeCorpus
  import opened CorpusVerification
  import opened CorpusQuality

  // ----- groups that are not full -----

  function FullGroups<S, A>(ts: seq<Trajectory<S, A>>, gs: seq<GroupId>): set<GroupId> {
    set g | g in gs && Full(Items(ts, g))
  }

  lemma {:induction false} CountFullSize<S, A>(ts: seq<Trajectory<S, A>>, gs: seq<GroupId>)
    requires Distinct(gs)
    ensures CountFull(ts, gs) == |FullGroups(ts, gs)|
  {
    hide Full, Items;
    if gs != [] {
      var front, last := gs[..|gs| - 1], gs[|gs| - 1];
      CountFullSize(ts, front);
      assert gs == front + [last];
      assert last !in front;
      assert FullGroups(ts, gs) == FullGroups(ts, front) + if Full(Items(ts, last)) then {last} else {};
    }
  }

  /** The groups in which a mode succeeds. */
  function Reached<S, A>(ts: seq<Trajectory<S, A>>, m: string): set<GroupId> {
    set i | 0 <= i < |ts| && ts[i].mode == m && ts[i].outcome == Success :: ts[i].group
  }

  lemma {:induction false} ReachedSize<S, A>(ts: seq<Trajectory<S, A>>, m: string)
    requires DistinctIds(ts)
    ensures |Reached(ts, m)| == TallyOf(ts, m).success
  {
    if ts != [] {
      var front, last := ts[..|ts| - 1], ts[|ts| - 1];
      ReachedSize(front, m);
      ReachedMore(ts, m);
      forall i: nat | i < |front| ensures !(front[i].group == last.group && front[i].mode == last.mode) {
        assert IdOf(ts[i]) != IdOf(ts[|ts| - 1]);
      }
    }
  }

  lemma ReachedMore<S, A>(ts: seq<Trajectory<S, A>>, m: string)
    requires ts != []
    ensures var front, last := ts[..|ts| - 1], ts[|ts| - 1];
      Reached(ts, m) == Reached(front, m) + (if last.mode == m && last.outcome == Success then {last.group} else {})
  {
    var front, last := ts[..|ts| - 1], ts[|ts| - 1];
    forall g | g in Reached(front, m) ensures g in Reached(ts, m) {
      var i :| 0 <= i < |front| && front[i].mode == m && front[i].outcome == Success && front[i].group == g;
      assert ts[i] == front[i];
    }
    forall g | g in Reached(ts, m) && !(last.mode == m && last.outcome == Success && last.group == g) ensures g in Reached(front, m) {
      var i :| 0 <= i < |ts| && ts[i].mode == m && ts[i].outcome == Success && ts[i].group == g;
      assert front[i] == ts[i];
    }
  }

  /** A verified corpus holds no identity twice. */
  lemma VerifiedDistinct<S, A>(c: Config, ts: seq<Trajectory<S, A>>, records: map<Id, Record>)
    requires ValidConfig(c) && Structural(c, ts, records)
    ensures DistinctIds(ts)
  {
    hide GroupFits, GroupsOf;
    forall i: nat, j: nat | i < j < |ts| ensures IdOf(ts[i]) != IdOf(ts[j]) {
      if ts[i].group == ts[j].group {
        assert RecordFits(c, ts[i], records);
        assert ts[i].group in GroupsOf(ts);
        AcceptedOncePerMode(c, ts, records, ts[i].group, ts[i].mode);
      }
    }
  }

  /** A group is full exactly when every mode succeeds in it. */
  lemma {:induction false} FullIffReached<S, A>(c: Config, ts: seq<Trajectory<S, A>>, records: map<Id, Record>, g: GroupId)
    requires ValidConfig(c) && Structural(c, ts, records) && g in GroupsOf(ts)
    ensures Full(Items(ts, g)) <==> forall m :: m in c.modes ==> g in Reached(ts, m)
  {
    hide GroupFits, GroupsOf, Structural;
    if Full(Items(ts, g)) {
      forall m | m in c.modes ensures g in Reached(ts, m) {
        AcceptedOncePerMode(c, ts, records, g, m);
        var i: nat :| i < |ts| && ts[i].group == g && ts[i].mode == m;
        var a := ItemsKeepOrder(ts, g, i);
      }
    } else {
      var a: nat :| a < |Items(ts, g)| && Items(ts, g)[a].outcome != Success;
      ItemsAreMembers(ts, g, a);
      var i: nat :| i < |ts| && ts[i] == Items(ts, g)[a] && ts[i].group == g;
      ModeOf(c, ts, records, i);
      AcceptedOncePerMode(c, ts, records, g, ts[i].mode);
      assert g !in Reached(ts, ts[i].mode);
    }
  }

  lemma ModeOf<S, A>(c: Config, ts: seq<Trajectory<S, A>>, records: map<Id, Record>, i: nat)
    requires Structural(c, ts, records) && i < |ts|
    ensures ts[i].mode in c.modes
  {
    assert RecordFits(c, ts[i], records);
  }

  /** The groups that one of the modes misses. */
  function Missed<S, A>(ts: seq<Trajectory<S, A>>, gs: set<GroupId>, modes: seq<string>): set<GroupId> {
    if modes == [] then {}
    else Missed(ts, gs, modes[..|modes| - 1]) + (gs - Reached(ts, modes[|modes| - 1]))
  }

  lemma {:induction false} MissedBy<S, A>(ts: seq<Trajectory<S, A>>, gs: set<GroupId>, modes: seq<string>, g: GroupId)
    ensures g in Missed(ts, gs, modes) <==> g in gs && exists m :: m in modes && g !in Reached(ts, m)
  {
    hide Reached;
    if modes != [] {
      var front, last := modes[..|modes| - 1], modes[|modes| - 1];
      MissedBy(ts, gs, front, g);
      assert modes == front + [last];
    }
  }

  function Misses<S, A>(ts: seq<Trajectory<S, A>>, groups: nat, modes: seq<string>): int {
    if modes == [] then 0
    else Misses(ts, groups, modes[..|modes| - 1]) + groups - TallyOf(ts, modes[|modes| - 1]).success
  }

  lemma SetSum(a: set<GroupId>, b: set<GroupId>)
    ensures |a + b| <= |a| + |b|
  {
    assert a + b == a + (b - a);
    assert b == (b - a) + (b * a);
  }

  lemma {:induction false} MissedSize<S, A>(ts: seq<Trajectory<S, A>>, gs: set<GroupId>, modes: seq<string>)
    requires DistinctIds(ts) && forall i :: 0 <= i < |ts| ==> ts[i].group in gs
    ensures |Missed(ts, gs, modes)| <= Misses(ts, |gs|, modes)
  {
    if modes != [] {
      var front, last := modes[..|modes| - 1], modes[|modes| - 1];
      MissedSize(ts, gs, front);
      ReachedSize(ts, last);
      var r := Reached(ts, last);
      assert r <= gs;
      assert gs == (gs - r) + r;
      assert |gs - r| == |gs| - |r|;
      SetSum(Missed(ts, gs, front), gs - r);
    }
  }

  /** Each group that is not full costs some mode a success, and a full one every mode none: the groups that are
      not full are at most the missed successes of all modes together, and full ones at most any mode's successes. */
  lemma {:induction false} FullGroupsBound<S, A>(c: Config, ts: seq<Trajectory<S, A>>, records: map<Id, Record>)
    requires ValidConfig(c) && Structural(c, ts, records)
    ensures |GroupsOf(ts)| - CountFull(ts, GroupsOf(ts)) <= Misses(ts, |GroupsOf(ts)|, c.modes)
    ensures forall m :: m in c.modes ==> CountFull(ts, GroupsOf(ts)) <= TallyOf(ts, m).success
  {
    hide Structural, Full, Items, Missed, Misses, Reached, CountFull, TallyOf;
    var order := GroupsOf(ts);
    var gs, full := Elements(order), FullGroups(ts, order);
    VerifiedDistinct(c, ts, records);
    CountFullSize(ts, order);
    DistinctLength(order);
    forall g | g in order ensures g in full <==> g !in Missed(ts, gs, c.modes) {
      FullIffReached(c, ts, records, g);
      MissedBy(ts, gs, c.modes, g);
    }
    forall g | g in Missed(ts, gs, c.modes) ensures g in gs {
      MissedBy(ts, gs, c.modes, g);
    }
    assert gs == full + Missed(ts, gs, c.modes);
    MissedSize(ts, gs, c.modes);
    forall m | m in c.modes ensures |full| <= TallyOf(ts, m).success {
      forall g | g in full ensures g in Reached(ts, m) {
        FullIffReached(c, ts, records, g);
      }
      ReachedSize(ts, m);
      SubsetSize(full, Reached(ts, m));
    }
  }

  // ----- the positive half -----

  /** Every check but the one on full groups. */
  ghost predicate OthersPass<S, A>(c: Config, ms: Measures<S>, ts: seq<Trajectory<S, A>>, records: map<Id, Record>) {
    && Loaded(ts) && Structural(c, ts, records) && EnoughSuccesses(c, ts)
    && AllAtRest(ms, ts, GroupsOf(ts)) && PathsDistinct(AllGaps(ms, ts, GroupsOf(ts))) && ModesReliable(c, ts)
  }

  lemma {:induction false} MissesBound<S, A>(ts: seq<Trajectory<S, A>>, groups: nat, modes: seq<string>, q: nat)
    requires forall m :: m in modes ==> groups - TallyOf(ts, m).success <= q
    ensures Misses(ts, groups, modes) <= |modes| * q
  {
    hide TallyOf;
    if modes != [] {
      var front := modes[..|modes| - 1];
      assert modes[|modes| - 1] in modes;
      MissesBound(ts, groups, front, q);
      assert |modes| * q == |front| * q + q;
    }
  }

  /** 98% of whole numbers: at most every fiftieth is missed. */
  lemma Fiftieth(groups: nat, n: nat)
    requires n as real >= 0.98 * groups as real
    ensures groups - n <= groups / 50
  {
    assert 50 * (groups - n) <= groups;
  }

  lemma Twentieth(groups: nat, n: nat)
    requires groups - n <= groups / 20
    ensures n as real >= 0.95 * groups as real
  {
    assert 20 * (groups - n) <= groups;
  }

  lemma RatesSuffice<S, A>(c: Config, ts: seq<Trajectory<S, A>>, records: map<Id, Record>)
    requires ValidConfig(c) && Structural(c, ts, records) && ModesReliable(c, ts)
    requires |c.modes| * (c.batches * c.worlds / 50) <= c.batches * c.worlds / 20
    ensures MostlyFull(ts)
  {
    var groups := |GroupsOf(ts)|;
    assert groups == c.batches * c.worlds;
    hide Structural, TallyOf, Misses, CountFull, GroupsOf;
    forall m | m in c.modes ensures groups - TallyOf(ts, m).success <= groups / 50 {
      Fiftieth(groups, TallyOf(ts, m).success);
    }
    MissesBound(ts, groups, c.modes, groups / 50);
    FullGroupsBound(c, ts, records);
    Twentieth(groups, CountFull(ts, GroupsOf(ts)));
  }

  /** The mode of a trajectory that does not succeed is missing from its group's successes. */
  lemma FailedMode<S, A>(c: Config, items: seq<Trajectory<S, A>>, a: nat)
    requires ValidConfig(c) && GroupFits(c, items) && a < |items|
    ensures items[a].outcome != Success ==> |SuccessModes(items)| < |c.modes|
  {
    var modes := Modes(items);
    var m := modes[a];
    DistinctLength(c.modes);
    SetLength(modes);
    assert m in Elements(c.modes);
    forall x | x in SuccessModes(items) ensures x in Elements(c.modes) && (x == m ==> items[a].outcome == Success) {
      var b :| 0 <= b < |items| && items[b].outcome == Success && items[b].mode == x;
      assert modes[b] == x;
      assert x == m ==> a == b;
    }
    if items[a].outcome != Success {
      SubsetSize(SuccessModes(items), Elements(c.modes) - {m});
    }
  }

  /** A group in which as many modes succeed as there are is full. */
  lemma AllModesFull<S, A>(c: Config, items: seq<Trajectory<S, A>>)
    requires ValidConfig(c) && GroupFits(c, items) && |SuccessModes(items)| >= |c.modes|
    ensures Full(items)
  {
    hide GroupFits, SuccessModes;
    forall a: nat | a < |items| ensures items[a].outcome == Success {
      FailedMode(c, items, a);
    }
  }

  lemma {:induction false} AllFull<S, A>(ts: seq<Trajectory<S, A>>, gs: seq<GroupId>)
    requires forall g :: g in gs ==> Full(Items(ts, g))
    ensures CountFull(ts, gs) == |gs|
  {
    hide Full, Items;
    if gs != [] {
      AllFull(ts, gs[..|gs| - 1]);
      assert gs[|gs| - 1] in gs;
    }
  }

  // ----- the negative half: a corpus in which the modes fail in different groups -----

  /** Mode `j` fails in `q` groups from the `j * q`-th on. */
  predicate Fails(x: nat, q: nat, j: nat) {
    j * q <= x < j * q + q
  }

  function Row<S, A>(x: nat, g: GroupId, modes: seq<string>, q: nat, s: S, a: A): (row: seq<Trajectory<S, A>>)
    ensures |row| == |modes|
  {
    seq(|modes|, j requires 0 <= j < |modes| => Trajectory(g, 0, modes[j], [s, s], [a], if Fails(x, q, j) then Timeout else Success))
  }

  function Corpus<S, A>(gs: seq<GroupId>, modes: seq<string>, q: nat, s: S, a: A): (ts: seq<Trajectory<S, A>>)
    ensures |ts| == |gs| * |modes|
  {
    if gs == [] then []
    else Corpus(gs[..|gs| - 1], modes, q, s, a) + Row(|gs| - 1, gs[|gs| - 1], modes, q, s, a)
  }

  lemma {:induction false} AppendRow<S, A>(front: seq<Trajectory<S, A>>, row: seq<Trajectory<S, A>>, g: GroupId)
    requires g !in GroupsOf(front) && forall i :: 0 <= i < |row| ==> row[i].group == g
    ensures GroupsOf(front + row) == if row == [] then GroupsOf(front) else GroupsOf(front) + [g]
    ensures forall h :: Items(front + row, h) == if h == g then row else Items(front, h)
  {
    hide Items, GroupsOf;
    if row == [] {
      assert front + row == front;
      ItemsOfOthers(front, g);
    } else {
      var short, last := row[..|row| - 1], row[|row| - 1];
      AppendRow(front, short, g);
      assert front + row == (front + short) + [last];
      CorpusVerification.OneMore(front + short, last);
      assert row == short + [last];
    }
  }

  lemma {:induction false} CorpusGroups<S, A>(gs: seq<GroupId>, modes: seq<string>, q: nat, s: S, a: A)
    requires Distinct(gs) && modes != []
    ensures GroupsOf(Corpus(gs, modes, q, s, a)) == gs
    ensures forall x: nat :: x < |gs| ==> Items(Corpus(gs, modes, q, s, a), gs[x]) == Row(x, gs[x], modes, q, s, a)
  {
    hide Items, GroupsOf, Row;
    if gs == [] {
      NothingGrouped<S, A>();
      assert Corpus(gs, modes, q, s, a) == [];
    } else {
      var front, last := gs[..|gs| - 1], gs[|gs| - 1];
      CorpusGroups(front, modes, q, s, a);
      assert gs == front + [last];
      assert last !in front;
      RowGroup(|gs| - 1, last, modes, q, s, a);
      AppendRow(Corpus(front, modes, q, s, a), Row(|gs| - 1, last, modes, q, s, a), last);
      forall x: nat | x < |gs| ensures Items(Corpus(gs, modes, q, s, a), gs[x]) == Row(x, gs[x], modes, q, s, a) {
        assert x < |gs| - 1 ==> gs[x] == front[x] && front[x] in front;
      }
    }
  }

  lemma RowGroup<S, A>(x: nat, g: GroupId, modes: seq<string>, q: nat, s: S, a: A)
    ensures forall i :: 0 <= i < |modes| ==> Row(x, g, modes, q, s, a)[i].group == g
  {
  }

  lemma {:induction false} CorpusFrom<S, A>(gs: seq<GroupId>, modes: seq<string>, q: nat, s: S, a: A)
    ensures forall t :: t in Corpus(gs, modes, q, s, a) ==> t.mode in modes && t.states == [s, s]
  {
    if gs != [] {
      CorpusFrom(gs[..|gs| - 1], modes, q, s, a);
    }
  }

  function RecordsOf<S, A>(ts: seq<Trajectory<S, A>>): map<Id, Record> {
    map id | id in Ids(ts) :: Record(id.1, id.0)
  }

  lemma RowFits<S, A>(c: Config, x: nat, g: GroupId, q: nat, s: S, a: A)
    requires ValidConfig(c)
    ensures GroupFits(c, Row(x, g, c.modes, q, s, a))
  {
    var row: seq<Trajectory<S, A>> := Row(x, g, c.modes, q, s, a);
    assert Modes(row) == c.modes;
    assert Seeds(row) == {0} by {
      assert row[0].seed in Seeds(row);
    }
  }

  lemma {:induction false} CorpusStructural<S, A>(c: Config, q: nat, s: S, a: A)
    requires ValidConfig(c)
    ensures var ts := Corpus(AllGroups(c.batches, c.worlds), c.modes, q, s, a); Structural(c, ts, RecordsOf(ts))
  {
    hide AllGroups, Items, GroupsOf, GroupFits, Corpus;
    var gs := AllGroups(c.batches, c.worlds);
    var ts: seq<Trajectory<S, A>> := Corpus(gs, c.modes, q, s, a);
    CorpusGroups<S, A>(gs, c.modes, q, s, a);
    CorpusFrom<S, A>(gs, c.modes, q, s, a);
    forall i | 0 <= i < |ts| ensures RecordFits(c, ts[i], RecordsOf(ts)) {
      assert ts[i] in ts && IdOf(ts[i]) in Ids(ts);
    }
    forall g | g in GroupsOf(ts) ensures GroupFits(c, Items(ts, g)) {
      var x: nat :| x < |gs| && gs[x] == g;
      RowFits<S, A>(c, x, g, q, s, a);
    }
  }

  // ----- its successes -----

  lemma FailsOnce(x: nat, q: nat, j: nat)
    requires q >= 1
    ensures Fails(x, q, j) <==> j == x / q
  {
    var k, r := x / q, x % q;
    assert x == k * q + r;
    if j < k {
      Steps(j + 1, k, q);
    } else if k < j {
      Steps(k + 1, j, q);
    }
    assert (j + 1) * q == j * q + q && (k + 1) * q == k * q + q;
  }

  lemma Steps(a: nat, b: nat, q: nat)
    requires a <= b
    ensures a * q <= b * q
  {
    assert (b - a) * q >= 0;
  }

  lemma RowFull<S, A>(x: nat, g: GroupId, modes: seq<string>, q: nat, s: S, a: A)
    requires q >= 1
    ensures Full(Row(x, g, modes, q, s, a)) <==> x >= |modes| * q
  {
    hide Fails;
    var j := x / q;
    QuotientBelow(x, q, |modes|);
    FailsOnce(x, q, j);
    var row: seq<Trajectory<S, A>> := Row(x, g, modes, q, s, a);
    if j < |modes| {
      assert row[j].outcome == Timeout;
    } else {
      forall i: nat | i < |row| ensures row[i].outcome == Success {
        FailsOnce(x, q, i);
      }
    }
  }

  lemma QuotientBelow(x: nat, q: nat, k: nat)
    requires q >= 1
    ensures x / q < k <==> x < k * q
  {
    var j, r := x / q, x % q;
    assert x == j * q + r && (j + 1) * q == j * q + q;
    if j < k {
      Steps(j + 1, k, q);
    } else {
      Steps(k, j, q);
    }
  }

  lemma RowSuccesses<S, A>(x: nat, g: GroupId, modes: seq<string>, q: nat, s: S, a: A)
    requires q >= 1 && Distinct(modes)
    ensures |SuccessModes(Row(x, g, modes, q, s, a))| >= |modes| - 1
  {
    hide Fails;
    var row: seq<Trajectory<S, A>> := Row(x, g, modes, q, s, a);
    var lost := if x / q < |modes| then {modes[x / q]} else {};
    forall m | m in Elements(modes) - lost ensures m in SuccessModes(row) {
      var j :| 0 <= j < |modes| && modes[j] == m;
      FailsOnce(x, q, j);
      assert row[j].outcome == Success && row[j].mode == m;
    }
    DistinctLength(modes);
    SubsetSize(Elements(modes) - lost, SuccessModes(row));
  }

  lemma {:induction false} TallyRow<S, A>(front: seq<Trajectory<S, A>>, x: nat, g: GroupId, modes: seq<string>,
                                          q: nat, s: S, a: A, j: nat, i: nat)
    requires Distinct(modes) && j < |modes| && i <= |modes|
    ensures TallyOf(front + Row(x, g, modes, q, s, a)[..i], modes[j]).success
         == TallyOf(front, modes[j]).success + if j < i && !Fails(x, q, j) then 1 else 0
  {
    hide Fails, TallyOf;
    var row: seq<Trajectory<S, A>> := Row(x, g, modes, q, s, a);
    if i == 0 {
      assert front + row[..0] == front;
    } else {
      TallyRow(front, x, g, modes, q, s, a, j, i - 1);
      assert front + row[..i] == (front + row[..i - 1]) + [row[i - 1]];
      TallyMore(front + row[..i - 1], row[i - 1], modes[j]);
    }
  }

  lemma {:induction false} TallyMore<S, A>(front: seq<Trajectory<S, A>>, t: Trajectory<S, A>, m: string)
    ensures TallyOf(front + [t], m).success == TallyOf(front, m).success + if t.mode == m && t.outcome == Success then 1 else 0
  {
    assert (front + [t])[..|front|] == front;
  }

  /** In how many of the first `x` groups mode `j` fails. */
  function FailCount(x: nat, q: nat, j: nat): (n: nat)
    ensures n <= q
  {
    if x <= j * q then 0 else if x >= j * q + q then q else x - j * q
  }

  lemma {:induction false} CorpusSuccesses<S, A>(gs: seq<GroupId>, modes: seq<string>, q: nat, s: S, a: A, j: nat)
    requires Distinct(modes) && j < |modes|
    ensures TallyOf(Corpus(gs, modes, q, s, a), modes[j]).success + FailCount(|gs|, q, j) == |gs|
  {
    hide Row, TallyOf;
    if gs == [] {
      NothingTallied<S, A>(modes[j]);
      assert Corpus(gs, modes, q, s, a) == [];
      Steps(0, j, q);
    } else {
      var front, last := gs[..|gs| - 1], gs[|gs| - 1];
      CorpusSuccesses(front, modes, q, s, a, j);
      var row: seq<Trajectory<S, A>> := Row(|gs| - 1, last, modes, q, s, a);
      assert row[..|modes|] == row;
      TallyRow(Corpus(front, modes, q, s, a), |gs| - 1, last, modes, q, s, a, j, |modes|);
    }
  }

  lemma {:induction false} NothingTallied<S, A>(m: string)
    ensures TallyOf<S, A>([], m).success == 0
  {
  }

  lemma {:induction false} CorpusFull<S, A>(gs: seq<GroupId>, modes: seq<string>, q: nat, s: S, a: A, x: nat)
    requires Distinct(gs) && modes != [] && q >= 1 && x <= |gs|
    ensures CountFull(Corpus(gs, modes, q, s, a), gs[..x]) == if x <= |modes| * q then 0 else x - |modes| * q
  {
    hide Full, Items, Row, Corpus, GroupsOf;
    if x > 0 {
      CorpusFull(gs, modes, q, s, a, x - 1);
      CorpusGroups(gs, modes, q, s, a);
      RowFull(x - 1, gs[x - 1], modes, q, s, a);
      assert gs[..x][..x - 1] == gs[..x - 1];
    } else {
      Steps(0, |modes|, q);
    }
  }

  // ----- its measurements -----

  /** Nothing moves, and every two paths are one unit apart. */
  function Still<S>(): Measures<S> {
    Measures((x, y) => 0.0, (x, y) => 0.0, s => false, (x, y) => 1.0)
  }

  lemma {:induction false} GapsAreOne<S, A>(successful: seq<Trajectory<S, A>>)
    ensures forall g :: g in GroupGaps(Still(), successful) ==> g.rms == 1.0
    ensures |successful| >= 2 ==> GroupGaps(Still(), successful) != []
  {
    if successful != [] {
      GapsAreOne(successful[1..]);
    }
  }

  lemma {:induction false} AllGapsAreOne<S, A>(ts: seq<Trajectory<S, A>>, gs: seq<GroupId>)
    ensures forall g :: g in AllGaps(Still(), ts, gs) ==> g.rms == 1.0
    ensures gs != [] && |Successful(Items(ts, gs[0]))| >= 2 ==> AllGaps(Still(), ts, gs) != []
  {
    hide GroupGaps, Successful, Items;
    if gs != [] {
      AllGapsAreOne(ts, gs[..|gs| - 1]);
      GapsAreOne(Successful(Items(ts, gs[|gs| - 1])));
    }
  }

  lemma {:induction false} RmsAreOne(gaps: seq<Gap>, modes: set<string>)
    requires forall g :: g in gaps ==> g.rms == 1.0
    ensures Total(RmsOf(gaps, modes)) == |RmsOf(gaps, modes)| as real
  {
    if gaps != [] {
      var front, last := gaps[..|gaps| - 1], gaps[|gaps| - 1];
      assert last in gaps && forall g :: g in front ==> g in gaps;
      RmsAreOne(front, modes);
      var values := RmsOf(front, modes);
      assert (values + [1.0])[..|values|] == values;
    }
  }

  lemma OnesAreDistinct(gaps: seq<Gap>)
    requires gaps != [] && forall g :: g in gaps ==> g.rms == 1.0
    ensures PathsDistinct(gaps)
  {
    hide RmsOf, Total;
    forall g | g in gaps ensures RmsOf(gaps, g.modes) != [] && Mean(RmsOf(gaps, g.modes)) >= 0.03 {
      var i :| 0 <= i < |gaps| && gaps[i] == g;
      RmsAreOne(gaps, g.modes);
    }
  }

  lemma {:induction false} SuccessfulModes<S, A>(items: seq<Trajectory<S, A>>)
    ensures |SuccessModes(items)| <= |Successful(items)|
  {
    if items != [] {
      var front, last := items[..|items| - 1], items[|items| - 1];
      SuccessfulModes(front);
      assert SuccessModes(items) <= SuccessModes(front) + {last.mode};
      if last.outcome != Success {
        assert SuccessModes(items) <= SuccessModes(front);
        SubsetSize(SuccessModes(items), SuccessModes(front));
      } else {
        SubsetSize(SuccessModes(items), SuccessModes(front) + {last.mode});
      }
    }
  }

  lemma {:induction false} CorpusCalm<S, A>(c: Config, q: nat, s: S, a: A)
    requires ValidConfig(c) && q >= 1 && c.batches * c.worlds > 0 && |c.modes| >= 3
    ensures var gs := AllGroups(c.batches, c.worlds);
      var ts := Corpus(gs, c.modes, q, s, a);
      Loaded(ts) && AllAtRest(Still(), ts, gs) && PathsDistinct(AllGaps(Still(), ts, gs))
  {
    hide AllGroups, Items, GroupsOf, Corpus, PathsDistinct, GroupGaps, AllGaps, Successful, SuccessModes;
    var gs := AllGroups(c.batches, c.worlds);
    var ts: seq<Trajectory<S, A>> := Corpus(gs, c.modes, q, s, a);
    CorpusGroups<S, A>(gs, c.modes, q, s, a);
    CorpusFrom<S, A>(gs, c.modes, q, s, a);
    forall i | 0 <= i < |ts| ensures ts[i].states != [] {
      assert ts[i] in ts;
    }
    forall x | 0 <= x < |gs| ensures GroupAtRest(Still(), Items(ts, gs[x])) {
      assert Items(ts, gs[x]) == Row(x, gs[x], c.modes, q, s, a);
    }
    RowSuccesses<S, A>(0, gs[0], c.modes, q, s, a);
    SuccessfulModes(Items(ts, gs[0]));
    AllGapsAreOne(ts, gs);
    OnesAreDistinct(AllGaps(Still(), ts, gs));
  }

  /** Losing `q` of every mode keeps 98%, but not 95% of the groups full. */
  lemma LossesBite(groups: nat, k: nat, full: nat)
    requires k * (groups / 50) > groups / 20
    requires full == if groups <= k * (groups / 50) then 0 else groups - k * (groups / 50)
    ensures groups / 50 >= 1 && k >= 3
    ensures full as real < 0.95 * groups as real
    ensures (groups - groups / 50) as real >= 0.98 * groups as real
  {
    var q := groups / 50;
    assert 50 * q <= groups;
    FewModes(groups, k);
    assert 20 * (k * q) > groups;
  }

  /** Two modes never lose enough. */
  lemma FewModes(groups: nat, k: nat)
    ensures k <= 2 || groups < 50 ==> k * (groups / 50) <= groups / 20
  {
    var q := groups / 50;
    if groups < 50 {
      assert k * q == 0;
    } else if k <= 2 {
      Steps(k, 2, q);
      assert 20 * (2 * q) <= groups;
    }
  }

  lemma CorpusReliable<S, A>(c: Config, s: S, a: A)
    requires ValidConfig(c) && |c.modes| * (c.batches * c.worlds / 50) > c.batches * c.worlds / 20
    ensures ModesReliable(c, Corpus(AllGroups(c.batches, c.worlds), c.modes, c.batches * c.worlds / 50, s, a))
  {
    hide AllGroups, Corpus, TallyOf;
    var groups := c.batches * c.worlds;
    var q, k := groups / 50, |c.modes|;
    LossesBite(groups, k, if groups <= k * q then 0 else groups - k * q);
    var gs := AllGroups(c.batches, c.worlds);
    forall m | m in c.modes ensures TallyOf(Corpus(gs, c.modes, q, s, a), m).success as real >= 0.98 * groups as real {
      var j: nat :| j < k && c.modes[j] == m;
      CorpusSuccesses<S, A>(gs, c.modes, q, s, a, j);
      assert TallyOf(Corpus(gs, c.modes, q, s, a), m).success >= groups - q;
    }
  }

  lemma {:induction false} CorpusEnough<S, A>(c: Config, q: nat, s: S, a: A)
    requires ValidConfig(c) && q >= 1 && c.minimumSuccesses < |c.modes|
    ensures EnoughSuccesses(c, Corpus(AllGroups(c.batches, c.worlds), c.modes, q, s, a))
  {
    hide AllGroups, Items, GroupsOf, Corpus, SuccessModes, Row;
    var gs := AllGroups(c.batches, c.worlds);
    var ts: seq<Trajectory<S, A>> := Corpus(gs, c.modes, q, s, a);
    CorpusGroups<S, A>(gs, c.modes, q, s, a);
    forall g | g in GroupsOf(ts) ensures |SuccessModes(Items(ts, g))| >= c.minimumSuccesses {
      var x: nat :| x < |gs| && gs[x] == g;
      RowSuccesses<S, A>(x, g, c.modes, q, s, a);
    }
  }

  lemma CorpusNotFull<S, A>(c: Config, s: S, a: A)
    requires ValidConfig(c) && |c.modes| * (c.batches * c.worlds / 50) > c.batches * c.worlds / 20
    ensures !MostlyFull(Corpus(AllGroups(c.batches, c.worlds), c.modes, c.batches * c.worlds / 50, s, a))
  {
    hide AllGroups, Corpus, GroupsOf, CountFull;
    var groups := c.batches * c.worlds;
    var q, k := groups / 50, |c.modes|;
    var gs := AllGroups(c.batches, c.worlds);
    LossesBite(groups, k, if groups <= k * q then 0 else groups - k * q);
    CorpusGroups<S, A>(gs, c.modes, q, s, a);
    CorpusFull<S, A>(gs, c.modes, q, s, a, groups);
    assert gs[..groups] == gs;
  }

  /** The check on full groups never refuses what the other checks accept. */
  ghost predicate FullCheckIdle<S(!new), A(!new)>(c: Config) {
    forall ms: Measures<S>, ts: seq<Trajectory<S, A>>, records: map<Id, Record> :: OthersPass(c, ms, ts, records) ==> MostlyFull(ts)
  }

  lemma AllSucceed<S, A>(c: Config, ts: seq<Trajectory<S, A>>, records: map<Id, Record>)
    requires ValidConfig(c) && Structural(c, ts, records) && EnoughSuccesses(c, ts) && |c.modes| <= c.minimumSuccesses
    ensures MostlyFull(ts)
  {
    hide GroupsOf, Items, SuccessModes, GroupFits, CountFull, Full;
    forall g | g in GroupsOf(ts) ensures Full(Items(ts, g)) {
      AllModesFull(c, Items(ts, g));
    }
    AllFull(ts, GroupsOf(ts));
  }

  /** The 95% of full groups is implied by the rest exactly when every mode must succeed everywhere, or the modes
      together may miss no more groups at 98% each than one twentieth. */
  lemma FullCheckIdleIff<S(!new), A(!new)>(c: Config, s: S, a: A)
    requires ValidConfig(c)
    ensures FullCheckIdle<S, A>(c) <==>
            |c.modes| <= c.minimumSuccesses || |c.modes| * (c.batches * c.worlds / 50) <= c.batches * c.worlds / 20
  {
    hide Structural, EnoughSuccesses, AllAtRest, PathsDistinct, ModesReliable, MostlyFull, Loaded, AllGaps, GroupsOf, Corpus, AllGroups;
    var groups := c.batches * c.worlds;
    var q, k := groups / 50, |c.modes|;
    if k <= c.minimumSuccesses || k * q <= groups / 20 {
      forall ms: Measures<S>, ts: seq<Trajectory<S, A>>, records: map<Id, Record> | OthersPass(c, ms, ts, records) ensures MostlyFull(ts) {
        if k <= c.minimumSuccesses {
          AllSucceed(c, ts, records);
        } else {
          RatesSuffice(c, ts, records);
        }
      }
    } else {
      LossesBite(groups, k, if groups <= k * q then 0 else groups - k * q);
      var gs := AllGroups(c.batches, c.worlds);
      var ts: seq<Trajectory<S, A>> := Corpus(gs, c.modes, q, s, a);
      CorpusGroups<S, A>(gs, c.modes, q, s, a);
      CorpusStructural<S, A>(c, q, s, a);
      CorpusEnough<S, A>(c, q, s, a);
      CorpusCalm<S, A>(c, q, s, a);
      CorpusReliable<S, A>(c, s, a);
      CorpusNotFull<S, A>(c, s, a);
      assert OthersPass(c, Still(), ts, RecordsOf(ts));
    }
  }
}
