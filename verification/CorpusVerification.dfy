/** The structural checks of a multimode corpus: what acceptance means, and that collected corpora pass. */
module CorpusVerification {
  import opened ActionChunks
  import opened MultimodeCorpus

  // ----- grouping -----

  function Items<S, A>(ts: seq<Trajectory<S, A>>, g: GroupId): seq<Trajectory<S, A>> {
    if ts == [] then []
    else
      var front := Items(ts[..|ts| - 1], g);
      if ts[|ts| - 1].group == g then front + [ts[|ts| - 1]] else front
  }

  /** Groups in the order of their first trajectory. */
  function GroupsOf<S, A>(ts: seq<Trajectory<S, A>>): (gs: seq<GroupId>)
    ensures Distinct(gs)
    ensures forall g :: g in gs <==> exists i :: 0 <= i < |ts| && ts[i].group == g
  {
    if ts == [] then []
    else
      var front := GroupsOf(ts[..|ts| - 1]);
      var g := ts[|ts| - 1].group;
      if g in front then
        front
      else
        front + [g]
  }

  function Modes<S, A>(ts: seq<Trajectory<S, A>>): (ms: seq<string>)
    ensures |ms| == |ts|
  {
    seq(|ts|, i requires 0 <= i < |ts| => ts[i].mode)
  }

  function Seeds<S, A>(ts: seq<Trajectory<S, A>>): set<int> {
    set i | 0 <= i < |ts| :: ts[i].seed
  }

  function SuccessModes<S, A>(ts: seq<Trajectory<S, A>>): set<string> {
    set i | 0 <= i < |ts| && ts[i].outcome == Success :: ts[i].mode
  }

  function Ids<S, A>(ts: seq<Trajectory<S, A>>): set<Id> {
    set i | 0 <= i < |ts| :: IdOf(ts[i])
  }

  // ----- the checks -----

  predicate RecordFits<S, A>(c: Config, t: Trajectory<S, A>, records: map<Id, Record>) {
    IdOf(t) in records && records[IdOf(t)] == Record(t.mode, t.group) && t.mode in c.modes
  }

  /** A same-reset mode set. */
  predicate GroupFits<S, A>(c: Config, items: seq<Trajectory<S, A>>) {
    |items| == |c.modes| && |Seeds(items)| == 1 && Elements(Modes(items)) == Elements(c.modes)
  }

  ghost predicate Structural<S, A>(c: Config, ts: seq<Trajectory<S, A>>, records: map<Id, Record>) {
    && records.Keys == Ids(ts)
    && |ts| == c.batches * c.worlds * |c.modes|
    && (forall i :: 0 <= i < |ts| ==> RecordFits(c, ts[i], records))
    && |GroupsOf(ts)| == c.batches * c.worlds
    && forall g :: g in GroupsOf(ts) ==> GroupFits(c, Items(ts, g))
  }

  ghost predicate EnoughSuccesses<S, A>(c: Config, ts: seq<Trajectory<S, A>>) {
    forall g :: g in GroupsOf(ts) ==> |SuccessModes(Items(ts, g))| >= c.minimumSuccesses
  }

  /** The groups and their trajectories, collected in one pass over the corpus. */
  method CollectGroups<S, A>(c: Config, ts: seq<Trajectory<S, A>>, records: map<Id, Record>)
    returns (ok: bool, order: seq<GroupId>, groups: map<GroupId, seq<Trajectory<S, A>>>)
    ensures ok <==> forall i :: 0 <= i < |ts| ==> RecordFits(c, ts[i], records)
    ensures ok ==> order == GroupsOf(ts) && forall g :: g in order ==> g in groups && groups[g] == Items(ts, g)
  {
    hide RecordFits, Distinct, Items, GroupsOf;
    ok, order, groups := true, [], map[];
    NothingGrouped<S, A>();
    for n := 0 to |ts|
      invariant forall i :: 0 <= i < n ==> RecordFits(c, ts[i], records)
      invariant order == GroupsOf(ts[..n])
      invariant forall g :: g in groups <==> g in order
      invariant forall g :: g in order ==> groups[g] == Items(ts[..n], g)
    {
      if !RecordFits(c, ts[n], records) {
        return false, order, groups;
      }
      var g := ts[n].group;
      OneMore(ts[..n], ts[n]);
      assert ts[..n + 1] == ts[..n] + [ts[n]];
      if g !in groups {
        ItemsOfOthers(ts[..n], g);
        order, groups := order + [g], groups[g := []];
      }
      groups := groups[g := groups[g] + [ts[n]]];
    }
    assert ts[..|ts|] == ts;
  }

  lemma NothingGrouped<S, A>()
    ensures GroupsOf<S, A>([]) == []
  {
  }

  lemma {:induction false} OneMore<S, A>(front: seq<Trajectory<S, A>>, t: Trajectory<S, A>)
    ensures GroupsOf(front + [t]) == if t.group in GroupsOf(front) then GroupsOf(front) else GroupsOf(front) + [t.group]
    ensures forall g :: Items(front + [t], g) == if t.group == g then Items(front, g) + [t] else Items(front, g)
  {
    assert (front + [t])[..|front|] == front;
  }

  lemma {:induction false} ItemsOfOthers<S, A>(ts: seq<Trajectory<S, A>>, g: GroupId)
    ensures Items(ts, g) != [] <==> g in GroupsOf(ts)
  {
    if ts != [] {
      ItemsOfOthers(ts[..|ts| - 1], g);
    }
  }

  /** The checks on identities, groups, modes and seeds. */
  method VerifyStructure<S, A>(c: Config, ts: seq<Trajectory<S, A>>, records: map<Id, Record>)
    returns (accepted: bool, order: seq<GroupId>, groups: map<GroupId, seq<Trajectory<S, A>>>)
    ensures accepted <==> Structural(c, ts, records) && EnoughSuccesses(c, ts)
    ensures accepted ==> order == GroupsOf(ts) && forall g :: g in order ==> g in groups && groups[g] == Items(ts, g)
  {
    hide RecordFits, Distinct, Items, SuccessModes, Ids;
    if records.Keys != Ids(ts) || |ts| != c.batches * c.worlds * |c.modes| {
      return false, [], map[];
    }
    accepted, order, groups := CollectGroups(c, ts, records);
    if !accepted || |order| != c.batches * c.worlds {
      return false, [], map[];
    }
    for n := 0 to |order|
      invariant forall i :: 0 <= i < n ==> GroupFits(c, Items(ts, order[i])) && |SuccessModes(Items(ts, order[i]))| >= c.minimumSuccesses
    {
      var items := groups[order[n]];
      assert order[n] in order;
      if !GroupFits(c, items) || |SuccessModes(items)| < c.minimumSuccesses {
        return false, [], map[];
      }
    }
  }

  // ----- what acceptance means -----

  /** Two trajectories of a group are two items of it, in order. */
  lemma {:induction false} ItemsKeepOrder<S, A>(ts: seq<Trajectory<S, A>>, g: GroupId, i: nat) returns (a: nat)
    requires i < |ts| && ts[i].group == g
    ensures a < |Items(ts, g)| && Items(ts, g)[a] == ts[i] && a == |Items(ts[..i], g)|
  {
    var front := ts[..|ts| - 1];
    if i == |ts| - 1 {
      a := |Items(front, g)|;
    } else {
      a := ItemsKeepOrder(front, g, i);
      assert front[..i] == ts[..i];
    }
  }

  lemma {:induction false} ItemsGrow<S, A>(ts: seq<Trajectory<S, A>>, g: GroupId, i: nat, j: nat)
    requires i < j <= |ts| && ts[i].group == g
    ensures |Items(ts[..i], g)| < |Items(ts[..j], g)|
  {
    assert ts[..j][..j - 1] == ts[..j - 1];
    if i < j - 1 {
      ItemsGrow(ts, g, i, j - 1);
    } else {
      assert ts[..j][j - 1] == ts[i];
    }
  }

  /** An accepted corpus holds every mode of every reset group exactly once, all under one seed. */
  lemma {:induction false} AcceptedOncePerMode<S, A>(c: Config, ts: seq<Trajectory<S, A>>, records: map<Id, Record>,
                                                     g: GroupId, m: string)
    requires ValidConfig(c) && Structural(c, ts, records) && g in GroupsOf(ts) && m in c.modes
    ensures exists i: nat :: i < |ts| && ts[i].group == g && ts[i].mode == m
    ensures forall i: nat, j: nat :: i < |ts| && j < |ts| && ts[i].group == g && ts[j].group == g ==>
              ts[i].seed == ts[j].seed && (ts[i].mode == ts[j].mode ==> i == j)
  {
    var items := Items(ts, g);
    assert GroupFits(c, items);
    DistinctLength(c.modes);
    SetLength(Modes(items));
    assert m in Elements(Modes(items));
    ItemsComeFrom(ts, g, m);
    forall i: nat, j: nat | i < |ts| && j < |ts| && ts[i].group == g && ts[j].group == g
      ensures ts[i].seed == ts[j].seed && (ts[i].mode == ts[j].mode ==> i == j)
    {
      SameItem(c, ts, g, i, j);
    }
  }

  lemma {:induction false} ItemsComeFrom<S, A>(ts: seq<Trajectory<S, A>>, g: GroupId, m: string)
    requires m in Elements(Modes(Items(ts, g)))
    ensures exists i: nat :: i < |ts| && ts[i].group == g && ts[i].mode == m
  {
    var items := Items(ts, g);
    var a :| 0 <= a < |items| && Modes(items)[a] == m;
    ItemsAreMembers(ts, g, a);
  }

  lemma {:induction false} ItemsAreMembers<S, A>(ts: seq<Trajectory<S, A>>, g: GroupId, a: nat)
    requires a < |Items(ts, g)|
    ensures exists i: nat :: i < |ts| && ts[i] == Items(ts, g)[a] && ts[i].group == g
  {
    var front := ts[..|ts| - 1];
    if a < |Items(front, g)| {
      ItemsAreMembers(front, g, a);
      var i: nat :| i < |front| && front[i] == Items(front, g)[a] && front[i].group == g;
      assert ts[i] == front[i];
    } else {
      assert ts[|ts| - 1] == Items(ts, g)[a];
    }
  }

  lemma {:induction false} SameItem<S, A>(c: Config, ts: seq<Trajectory<S, A>>, g: GroupId, i: nat, j: nat)
    requires Distinct(Modes(Items(ts, g))) && |Seeds(Items(ts, g))| == 1
    requires i < |ts| && j < |ts| && ts[i].group == g && ts[j].group == g
    ensures ts[i].seed == ts[j].seed && (ts[i].mode == ts[j].mode ==> i == j)
  {
    var items := Items(ts, g);
    var a := ItemsKeepOrder(ts, g, i);
    var b := ItemsKeepOrder(ts, g, j);
    assert items[a].seed in Seeds(items) && items[b].seed in Seeds(items);
    OneElement(Seeds(items), items[a].seed, items[b].seed);
    if i < j {
      ItemsGrow(ts, g, i, j);
    } else if j < i {
      ItemsGrow(ts, g, j, i);
    }
    assert Modes(items)[a] == ts[i].mode && Modes(items)[b] == ts[j].mode;
  }

  lemma OneElement(s: set<int>, x: int, y: int)
    requires |s| == 1 && x in s && y in s
    ensures x == y
  {
    if x != y {
      assert {x, y} <= s;
      SubsetSize({x, y}, s);
      assert false;
    }
  }

  lemma SubsetSize<T>(a: set<T>, b: set<T>)
    requires a <= b
    ensures |a| <= |b|
  {
    assert b == a + (b - a);
  }

  /** In an accepted corpus the records are those of the trajectories, one for each, and every group has enough modes that
      succeed in it. */
  lemma {:induction false} AcceptedRecords<S, A>(c: Config, ts: seq<Trajectory<S, A>>, records: map<Id, Record>)
    requires Structural(c, ts, records) && EnoughSuccesses(c, ts)
    ensures forall g: GroupId, m: string :: (g, m) in records <==> exists i: nat :: i < |ts| && ts[i].group == g && ts[i].mode == m
    ensures forall g: GroupId, m: string :: (g, m) in records ==> m in c.modes && records[(g, m)] == Record(m, g)
    ensures forall g :: g in GroupsOf(ts) ==> exists modes: set<string> ::
              |modes| >= c.minimumSuccesses && forall m :: m in modes ==> SucceedsIn(ts, g, m)
  {
    hide GroupFits, GroupsOf, SuccessModes;
    forall g: GroupId, m: string
      ensures (g, m) in records <==> exists i: nat :: i < |ts| && ts[i].group == g && ts[i].mode == m
      ensures (g, m) in records ==> m in c.modes && records[(g, m)] == Record(m, g)
    {
      if (g, m) in records {
        assert (g, m) in Ids(ts);
        var i: nat :| i < |ts| && IdOf(ts[i]) == (g, m);
        assert RecordFits(c, ts[i], records);
      }
      if i: nat :| i < |ts| && ts[i].group == g && ts[i].mode == m {
        assert IdOf(ts[i]) in Ids(ts);
      }
    }
    forall g | g in GroupsOf(ts)
      ensures exists modes: set<string> :: |modes| >= c.minimumSuccesses && forall m :: m in modes ==> SucceedsIn(ts, g, m)
    {
      var modes := SuccessModes(Items(ts, g));
      forall m | m in modes ensures SucceedsIn(ts, g, m) {
        SuccessModesAre(ts, g, m);
      }
    }
  }

  ghost predicate SucceedsIn<S, A>(ts: seq<Trajectory<S, A>>, g: GroupId, m: string) {
    exists i: nat :: i < |ts| && ts[i].group == g && ts[i].mode == m && ts[i].outcome == Success
  }

  /** The modes counted for a group are exactly those that succeed in it. */
  lemma {:induction false} SuccessModesAre<S, A>(ts: seq<Trajectory<S, A>>, g: GroupId, m: string)
    ensures m in SuccessModes(Items(ts, g)) <==> SucceedsIn(ts, g, m)
  {
    var items := Items(ts, g);
    if m in SuccessModes(items) {
      var a: nat :| a < |items| && items[a].outcome == Success && items[a].mode == m;
      ItemsAreMembers(ts, g, a);
    }
    if SucceedsIn(ts, g, m) {
      var i: nat :| i < |ts| && ts[i].group == g && ts[i].mode == m && ts[i].outcome == Success;
      var a := ItemsKeepOrder(ts, g, i);
    }
  }

  // ----- collected corpora -----

  /** A directory listing of the shards: the same trajectories in any order. */
  ghost predicate Listing<S, A>(ts: seq<Trajectory<S, A>>, shards: seq<Trajectory<S, A>>) {
    multiset(ts) == multiset(shards)
  }

  ghost predicate DistinctIds<S, A>(ts: seq<Trajectory<S, A>>) {
    forall i, j :: 0 <= i < j < |ts| ==> IdOf(ts[i]) != IdOf(ts[j])
  }

  /** A listing has the shards' trajectories, and each identity once, if the shards do. */
  lemma ListingDistinct<S, A>(ts: seq<Trajectory<S, A>>, shards: seq<Trajectory<S, A>>)
    requires Listing(ts, shards) && DistinctIds(shards)
    ensures |ts| == |shards| && DistinctIds(ts) && forall t :: t in ts <==> t in shards
  {
    assert |multiset(ts)| == |multiset(shards)|;
    forall t ensures t in ts <==> t in shards {
      assert t in multiset(ts) <==> t in multiset(shards);
    }
    assert Elements(ts) == Elements(shards);
    forall i, j | 0 <= i < j < |shards| ensures shards[i] != shards[j] {
      assert IdOf(shards[i]) != IdOf(shards[j]);
    }
    DistinctLength(shards);
    SetLength(ts);
    forall i, j | 0 <= i < j < |ts| ensures IdOf(ts[i]) != IdOf(ts[j]) {
      assert ts[i] in shards && ts[j] in shards;
      var a :| 0 <= a < |shards| && shards[a] == ts[i];
      var b :| 0 <= b < |shards| && shards[b] == ts[j];
      assert a != b;
      assert IdOf(shards[a]) != IdOf(shards[b]);
    }
  }

  /** Every mode of every world of every batch is there, and nothing else. */
  ghost predicate FullGrid<S, A>(c: Config, sim: Simulator<S, A>, ts: seq<Trajectory<S, A>>) {
    && (forall t :: t in ts ==>
          t.group.batch < c.batches && t.group.world < c.worlds && t.mode in c.modes && t.seed == sim.seed(t.group.batch, t.group.world))
    && (forall b: nat, w: nat, m :: b < c.batches && w < c.worlds && m in c.modes ==> Holds(ts, GroupId(b, w), m))
  }

  ghost predicate Holds<S, A>(ts: seq<Trajectory<S, A>>, g: GroupId, m: string) {
    exists t :: t in ts && t.group == g && t.mode == m
  }

  lemma CorpusIsGrid<S, A>(c: Config, sim: Simulator<S, A>, shards: seq<Trajectory<S, A>>)
    requires ValidConfig(c) && c.library != [] && Elements(c.modes) == Elements(c.library) && IsCorpus(c, sim, shards)
    ensures DistinctIds(shards) && FullGrid(c, sim, shards)
  {
    var at: seq<(nat, nat, nat)> :| Written(c, sim, shards, at, c.batches, 0);
    forall i: nat, j: nat | i < j < |shards| ensures IdOf(shards[i]) != IdOf(shards[j]) {
      WrittenDistinct(c, sim, shards, at, c.batches, 0, i, j);
    }
    forall t | t in shards
      ensures t.group.batch < c.batches && t.group.world < c.worlds && t.mode in c.modes && t.seed == sim.seed(t.group.batch, t.group.world)
    {
      var i: nat :| i < |shards| && shards[i] == t;
      assert at[i] in at;
      OrderIsPermutation(c, sim.offset, sim.seed(at[i].0, at[i].2));
      assert t.mode in Elements(OrderedModes(c, sim.offset, sim.seed(at[i].0, at[i].2)));
      assert t.mode in Elements(c.library);
    }
    forall b: nat, w: nat, m | b < c.batches && w < c.worlds && m in c.modes ensures Holds(shards, GroupId(b, w), m) {
      GridCell(c, sim, shards, at, b, w, m);
    }
  }

  lemma GridCell<S, A>(c: Config, sim: Simulator<S, A>, shards: seq<Trajectory<S, A>>, at: seq<(nat, nat, nat)>,
                       b: nat, w: nat, m: string)
    requires ValidConfig(c) && c.library != [] && Elements(c.modes) == Elements(c.library)
    requires Written(c, sim, shards, at, c.batches, 0) && b < c.batches && w < c.worlds && m in c.modes
    ensures Holds(shards, GroupId(b, w), m)
  {
    var order := OrderedModes(c, sim.offset, sim.seed(b, w));
    OrderIsPermutation(c, sim.offset, sim.seed(b, w));
    assert m in Elements(c.modes);
    assert m in Elements(order);
    var p: nat :| p < |order| && order[p] == m;
    assert (b, p, w) in at;
    var i: nat :| i < |at| && at[i] == (b, p, w);
    assert shards[i] in shards && shards[i].group == GroupId(b, w) && shards[i].mode == m;
  }

  /** All reset groups, each once. */
  function AllGroups(batches: nat, worlds: nat): (gs: seq<GroupId>)
    ensures |gs| == batches * worlds && Distinct(gs)
    ensures forall g :: g in gs <==> g.batch < batches && g.world < worlds
  {
    if batches == 0 then []
    else
      var row := seq(worlds, w requires 0 <= w < worlds => GroupId(batches - 1, w));
      assert forall g: GroupId :: g in row <==> g.batch == batches - 1 && g.world < worlds by {
        forall g: GroupId ensures g in row <==> g.batch == batches - 1 && g.world < worlds {
          if g.batch == batches - 1 && g.world < worlds {
            assert row[g.world] == g;
          }
        }
      }
      OneMorePass(batches - 1, worlds);
      JoinDistinct(AllGroups(batches - 1, worlds), row);
      AllGroups(batches - 1, worlds) + row
  }

  lemma JoinDistinct(a: seq<GroupId>, b: seq<GroupId>)
    requires Distinct(a) && Distinct(b) && forall g :: g in a ==> g !in b
    ensures Distinct(a + b)
  {
    var s := a + b;
    forall i, j | 0 <= i < j < |s| ensures s[i] != s[j] {
      assert i < |a| ==> s[i] in a;
      assert j >= |a| ==> s[j] in b;
      assert i >= |a| ==> s[i] == b[i - |a|] && s[j] == b[j - |a|];
    }
  }

  lemma {:induction false} ItemsDistinct<S, A>(ts: seq<Trajectory<S, A>>, g: GroupId)
    requires DistinctIds(ts)
    ensures Distinct(Modes(Items(ts, g)))
  {
    if ts != [] {
      var front, last := ts[..|ts| - 1], ts[|ts| - 1];
      ItemsDistinct(front, g);
      forall a: nat | last.group == g && a < |Items(front, g)| ensures Items(front, g)[a].mode != last.mode {
        ItemsAreMembers(front, g, a);
        var i: nat :| i < |front| && front[i] == Items(front, g)[a] && front[i].group == g;
        assert ts[i] == front[i];
        assert IdOf(ts[i]) != IdOf(ts[|ts| - 1]);
      }
      if last.group == g {
        assert Modes(Items(ts, g)) == Modes(Items(front, g)) + [last.mode];
      }
    }
  }

  /** One group of a full grid is a same-reset mode set. */
  lemma {:induction false} GridGroupFits<S, A>(c: Config, sim: Simulator<S, A>, ts: seq<Trajectory<S, A>>, b: nat, w: nat)
    requires ValidConfig(c) && DistinctIds(ts) && FullGrid(c, sim, ts) && b < c.batches && w < c.worlds
    ensures GroupFits(c, Items(ts, GroupId(b, w)))
  {
    GridModes(c, sim, ts, b, w);
    hide DistinctIds, FullGrid, Items, Elements;
    var items := Items(ts, GroupId(b, w));
    forall a: nat | a < |items| ensures items[a].seed == sim.seed(b, w) {
      GridItem(c, sim, ts, b, w, a);
    }
    assert Seeds(items) == {sim.seed(b, w)} by {
      assert items[0].seed in Seeds(items);
    }
  }

  lemma {:induction false} GridItem<S, A>(c: Config, sim: Simulator<S, A>, ts: seq<Trajectory<S, A>>, b: nat, w: nat, a: nat)
    requires FullGrid(c, sim, ts) && a < |Items(ts, GroupId(b, w))|
    ensures var t := Items(ts, GroupId(b, w))[a]; t.mode in c.modes && t.seed == sim.seed(b, w)
  {
    hide Items;
    ItemsAreMembers(ts, GroupId(b, w), a);
  }

  lemma {:induction false} GridModes<S, A>(c: Config, sim: Simulator<S, A>, ts: seq<Trajectory<S, A>>, b: nat, w: nat)
    requires ValidConfig(c) && DistinctIds(ts) && FullGrid(c, sim, ts) && b < c.batches && w < c.worlds
    ensures var items := Items(ts, GroupId(b, w)); |items| == |c.modes| && Elements(Modes(items)) == Elements(c.modes)
  {
    hide Items, DistinctIds;
    var g, items := GroupId(b, w), Items(ts, GroupId(b, w));
    ItemsDistinct(ts, g);
    forall a: nat | a < |items| ensures Modes(items)[a] in c.modes {
      GridItem(c, sim, ts, b, w, a);
    }
    forall m | m in c.modes ensures m in Modes(items) {
      assert Holds(ts, g, m);
      var i: nat :| i < |ts| && ts[i].group == g && ts[i].mode == m;
      var a := ItemsKeepOrder(ts, g, i);
      assert Modes(items)[a] == m;
    }
    SameElements(Modes(items), c.modes);
    DistinctLength(Modes(items));
    DistinctLength(c.modes);
  }

  lemma SameElements<T>(a: seq<T>, b: seq<T>)
    requires (forall x :: x in a ==> x in b) && forall x :: x in b ==> x in a
    ensures Elements(a) == Elements(b)
  {
  }

  /** Whatever order the directory lists it in, a collected corpus passes every structural check. */
  lemma CollectedIsStructural<S, A>(c: Config, sim: Simulator<S, A>, shards: seq<Trajectory<S, A>>,
                                    ts: seq<Trajectory<S, A>>, records: map<Id, Record>)
    requires ValidConfig(c) && c.library != [] && Elements(c.modes) == Elements(c.library)
    requires IsCorpus(c, sim, shards) && |shards| == c.batches * (|c.modes| * c.worlds) && Listing(ts, shards)
    requires records.Keys == Ids(shards) && forall t :: t in shards ==> IdOf(t) in records && records[IdOf(t)] == Record(t.mode, t.group)
    ensures Structural(c, ts, records)
  {
    CorpusIsGrid(c, sim, shards);
    ListingDistinct(ts, shards);
    SameIds(ts, shards);
    assert FullGrid(c, sim, ts) by {
      GridListed(c, sim, ts, shards);
    }
    Reorder(c.batches, |c.modes|, c.worlds);
    GroupsAreAll(c, sim, ts);
    forall g | g in GroupsOf(ts) ensures GroupFits(c, Items(ts, g)) {
      assert g in AllGroups(c.batches, c.worlds);
      GridGroupFits(c, sim, ts, g.batch, g.world);
    }
    forall i | 0 <= i < |ts| ensures RecordFits(c, ts[i], records) {
      assert ts[i] in ts;
    }
  }

  lemma Reorder(a: nat, b: nat, c: nat)
    ensures a * (b * c) == a * c * b
  {
  }

  lemma SameIds<S, A>(ts: seq<Trajectory<S, A>>, shards: seq<Trajectory<S, A>>)
    requires forall t :: t in ts <==> t in shards
    ensures Ids(ts) == Ids(shards)
  {
    forall id ensures id in Ids(ts) <==> id in Ids(shards) {
      if id in Ids(ts) {
        var i: nat :| i < |ts| && IdOf(ts[i]) == id;
        assert ts[i] in shards;
      }
      if id in Ids(shards) {
        var i: nat :| i < |shards| && IdOf(shards[i]) == id;
        assert shards[i] in ts;
      }
    }
  }

  lemma GridListed<S, A>(c: Config, sim: Simulator<S, A>, ts: seq<Trajectory<S, A>>, shards: seq<Trajectory<S, A>>)
    requires FullGrid(c, sim, shards) && forall t :: t in ts <==> t in shards
    ensures FullGrid(c, sim, ts)
  {
    forall b: nat, w: nat, m | b < c.batches && w < c.worlds && m in c.modes ensures Holds(ts, GroupId(b, w), m) {
      assert Holds(shards, GroupId(b, w), m);
    }
  }

  lemma {:induction false} GroupsAreAll<S, A>(c: Config, sim: Simulator<S, A>, ts: seq<Trajectory<S, A>>)
    requires ValidConfig(c) && FullGrid(c, sim, ts)
    ensures |GroupsOf(ts)| == c.batches * c.worlds
    ensures forall g :: g in GroupsOf(ts) ==> g in AllGroups(c.batches, c.worlds)
  {
    hide AllGroups, GroupsOf, FullGrid, Holds, Distinct;
    var all, gs := AllGroups(c.batches, c.worlds), GroupsOf(ts);
    forall g ensures g in gs <==> g in all {
      GroupIsThere(c, sim, ts, g);
    }
    assert Elements(gs) == Elements(all);
    DistinctLength(gs);
    DistinctLength(all);
  }

  lemma {:induction false} GroupIsThere<S, A>(c: Config, sim: Simulator<S, A>, ts: seq<Trajectory<S, A>>, g: GroupId)
    requires ValidConfig(c) && FullGrid(c, sim, ts)
    ensures g in GroupsOf(ts) <==> g.batch < c.batches && g.world < c.worlds
  {
    if g.batch < c.batches && g.world < c.worlds {
      var m := c.modes[0];
      assert m in c.modes && g == GroupId(g.batch, g.world);
      assert Holds(ts, GroupId(g.batch, g.world), m);
      var t :| t in ts && t.group == g && t.mode == m;
      var i :| 0 <= i < |ts| && ts[i] == t;
    }
    if g in GroupsOf(ts) {
      var i :| 0 <= i < |ts| && ts[i].group == g;
      assert ts[i] in ts;
    }
  }

  // ----- every mode is counted once per reset -----

  /** The groups that hold a mode, one entry per trajectory. */
  function GroupsWith<S, A>(ts: seq<Trajectory<S, A>>, m: string): seq<GroupId> {
    if ts == [] then []
    else
      var front := GroupsWith(ts[..|ts| - 1], m);
      if ts[|ts| - 1].mode == m then front + [ts[|ts| - 1].group] else front
  }

  lemma {:induction false} GroupsWithMode<S, A>(ts: seq<Trajectory<S, A>>, m: string)
    requires DistinctIds(ts)
    ensures forall g :: g in GroupsWith(ts, m) <==> Holds(ts, g, m)
    ensures Distinct(GroupsWith(ts, m))
    ensures var t := TallyOf(ts, m); |GroupsWith(ts, m)| == t.success + t.failure + t.timeout
  {
    if ts != [] {
      var front, last := ts[..|ts| - 1], ts[|ts| - 1];
      GroupsWithMode(front, m);
      forall g ensures Holds(ts, g, m) <==> Holds(front, g, m) || (last.mode == m && last.group == g) {
        HoldsMore(ts, g, m);
      }
      forall i: nat | i < |front| ensures !(front[i].group == last.group && front[i].mode == last.mode) {
        assert IdOf(ts[i]) != IdOf(ts[|ts| - 1]);
      }
      assert last.mode == m ==> !Holds(front, last.group, m);
    }
  }

  lemma HoldsMore<S, A>(ts: seq<Trajectory<S, A>>, g: GroupId, m: string)
    requires ts != []
    ensures Holds(ts, g, m) <==> Holds(ts[..|ts| - 1], g, m) || (ts[|ts| - 1].mode == m && ts[|ts| - 1].group == g)
  {
    var front, last := ts[..|ts| - 1], ts[|ts| - 1];
    assert ts == front + [last];
    if Holds(ts, g, m) {
      var t :| t in ts && t.group == g && t.mode == m;
      assert t in front || t == last;
    }
    if Holds(front, g, m) {
      var t :| t in front && t.group == g && t.mode == m;
      assert t in ts;
    }
    assert last in ts;
  }

  /** In a collected corpus the outcomes of every single mode add up to the number of reset groups. */
  lemma ModeOutcomesCoverResets<S, A>(c: Config, sim: Simulator<S, A>, shards: seq<Trajectory<S, A>>,
                                      summary: Summary, m: string)
    requires ValidConfig(c) && c.library != [] && Elements(c.modes) == Elements(c.library)
    requires Summarized(c, sim, shards, summary) && m in c.modes
    ensures m in summary.modeOutcomes
    ensures var t := summary.modeOutcomes[m]; t.success + t.failure + t.timeout == c.batches * c.worlds
  {
    hide Written, AllGroups, TallyOf, GroupsWith;
    CorpusIsGrid(c, sim, shards);
    GroupsWithMode(shards, m);
    var with, all := GroupsWith(shards, m), AllGroups(c.batches, c.worlds);
    forall g ensures g in with <==> g in all {
      assert g == GroupId(g.batch, g.world);
    }
    assert Elements(with) == Elements(all);
    DistinctLength(with);
    DistinctLength(all);
  }
}
