/** The measured half of the corpus verifier: paths at rest, distinct modes and success rates. */
module CorpusQuality {
  import opened ActionChunks
  import opened MultimodeCorpus
  import opened CorpusVerification

  /** The measurements on states, uninterpreted: the largest coordinate difference, how far the object moved, hand
      contact, and the root-mean-square distance of two end-effector paths of one length. */
  datatype Measures<!S> = Measures(apart: (S, S) -> real, moved: (S, S) -> real, contact: S -> bool, rms: (seq<S>, seq<S>) -> real)

  /** Loading a shard refuses a trajectory without states. */
  ghost predicate Loaded<S, A>(ts: seq<Trajectory<S, A>>) {
    forall i :: 0 <= i < |ts| ==> ts[i].states != []
  }

  // ----- at rest -----

  predicate Within(values: seq<real>, limit: real) {
    forall v :: v in values ==> v <= limit
  }

  /** How far the starts of a group differ from its first one. */
  function Starts<S, A>(ms: Measures<S>, items: seq<Trajectory<S, A>>): seq<real>
    requires Loaded(items)
  {
    seq(|items|, i requires 0 <= i < |items| => ms.apart(items[i].states[0], items[0].states[0]))
  }

  /** How far the object is from where it started. */
  function Moves<S, A>(ms: Measures<S>, t: Trajectory<S, A>): seq<real>
    requires t.states != []
  {
    seq(|t.states|, k requires 0 <= k < |t.states| => ms.moved(t.states[k], t.states[0]))
  }

  ghost predicate PathAtRest<S, A>(ms: Measures<S>, t: Trajectory<S, A>)
    requires t.states != []
  {
    Within(Moves(ms, t), 0.005) && forall s :: s in t.states ==> !ms.contact(s)
  }

  ghost predicate GroupAtRest<S, A>(ms: Measures<S>, items: seq<Trajectory<S, A>>) {
    && Loaded(items) && Within(Starts(ms, items), 0.000001)
    && forall i :: 0 <= i < |items| ==> PathAtRest(ms, items[i])
  }

  // ----- distinct paths -----

  /** The distance of two successful paths of a group, under their two modes. */
  datatype Gap = Gap(modes: set<string>, rms: real)

  function GapOf<S, A>(ms: Measures<S>, left: Trajectory<S, A>, right: Trajectory<S, A>): Gap {
    var common := if |left.states| < |right.states| then |left.states| else |right.states|;
    Gap({left.mode, right.mode}, ms.rms(left.states[..common], right.states[..common]))
  }

  function GapsFrom<S, A>(ms: Measures<S>, left: Trajectory<S, A>, rest: seq<Trajectory<S, A>>): seq<Gap> {
    seq(|rest|, j requires 0 <= j < |rest| => GapOf(ms, left, rest[j]))
  }

  /** Every two of them, once. */
  function GroupGaps<S, A>(ms: Measures<S>, successful: seq<Trajectory<S, A>>): seq<Gap> {
    if successful == [] then []
    else GapsFrom(ms, successful[0], successful[1..]) + GroupGaps(ms, successful[1..])
  }

  function Successful<S, A>(items: seq<Trajectory<S, A>>): seq<Trajectory<S, A>> {
    if items == [] then []
    else
      var front, last := Successful(items[..|items| - 1]), items[|items| - 1];
      if last.outcome == Success then front + [last] else front
  }

  function AllGaps<S, A>(ms: Measures<S>, ts: seq<Trajectory<S, A>>, gs: seq<GroupId>): seq<Gap> {
    if gs == [] then []
    else AllGaps(ms, ts, gs[..|gs| - 1]) + GroupGaps(ms, Successful(Items(ts, gs[|gs| - 1])))
  }

  /** The distances recorded for two modes. */
  function RmsOf(gaps: seq<Gap>, modes: set<string>): (values: seq<real>)
    ensures values != [] <==> exists i :: 0 <= i < |gaps| && gaps[i].modes == modes
  {
    if gaps == [] then []
    else
      var front, last := RmsOf(gaps[..|gaps| - 1], modes), gaps[|gaps| - 1];
      if last.modes == modes then front + [last.rms] else front
  }

  function Total(values: seq<real>): real {
    if values == [] then 0.0 else Total(values[..|values| - 1]) + values[|values| - 1]
  }

  function Mean(values: seq<real>): real
    requires values != []
  {
    Total(values) / |values| as real
  }

  ghost predicate PathsDistinct(gaps: seq<Gap>) {
    && gaps != []
    && (forall g :: g in gaps ==> g.rms >= 0.025)
    && forall g :: g in gaps ==> RmsOf(gaps, g.modes) != [] && Mean(RmsOf(gaps, g.modes)) >= 0.03
  }

  // ----- success rates -----

  predicate Full<S, A>(items: seq<Trajectory<S, A>>) {
    forall i :: 0 <= i < |items| ==> items[i].outcome == Success
  }

  /** Groups in which every mode succeeds. */
  function CountFull<S, A>(ts: seq<Trajectory<S, A>>, gs: seq<GroupId>): nat {
    if gs == [] then 0
    else CountFull(ts, gs[..|gs| - 1]) + if Full(Items(ts, gs[|gs| - 1])) then 1 else 0
  }

  ghost predicate MostlyFull<S, A>(ts: seq<Trajectory<S, A>>) {
    CountFull(ts, GroupsOf(ts)) as real >= 0.95 * |GroupsOf(ts)| as real
  }

  ghost predicate ModesReliable<S, A>(c: Config, ts: seq<Trajectory<S, A>>) {
    forall m :: m in c.modes ==> TallyOf(ts, m).success as real >= 0.98 * (c.batches * c.worlds) as real
  }

  // ----- the verifier -----

  /** What the loop over the groups measures. */
  datatype Measured = Measured(apart: real, moved: real, contacts: nat, full: nat, gaps: seq<Gap>)

  predicate Calm(m: Measured) {
    m.apart <= 0.000001 && m.moved <= 0.005 && m.contacts == 0
  }

  lemma WithinMore(values: seq<real>, v: real, limit: real)
    ensures Within(values + [v], limit) <==> Within(values, limit) && v <= limit
  {
    assert v in values + [v];
    assert forall x :: x in values ==> x in values + [v];
  }

  /** The running maximum, compared with any limit. */
  method Largest(values: seq<real>, floor: real, ghost limit: real) returns (m: real)
    ensures m <= limit <==> floor <= limit && Within(values, limit)
  {
    m := floor;
    for i := 0 to |values|
      invariant m <= limit <==> floor <= limit && Within(values[..i], limit)
    {
      assert values[..i + 1] == values[..i] + [values[i]];
      WithinMore(values[..i], values[i], limit);
      if m < values[i] {
        m := values[i];
      }
    }
    assert values[..|values|] == values;
  }

  method CountContacts<S>(contact: S -> bool, states: seq<S>) returns (n: nat)
    ensures n == 0 <==> forall s :: s in states ==> !contact(s)
  {
    n := 0;
    for i := 0 to |states|
      invariant n == 0 <==> forall s :: s in states[..i] ==> !contact(s)
    {
      assert states[..i + 1] == states[..i] + [states[i]];
      n := n + if contact(states[i]) then 1 else 0;
    }
    assert states[..|states|] == states;
  }

  method PathGaps<S, A>(ms: Measures<S>, successful: seq<Trajectory<S, A>>) returns (gaps: seq<Gap>)
    ensures gaps == GroupGaps(ms, successful)
  {
    hide GapOf, GapsFrom, GroupGaps;
    gaps := [];
    assert successful[0..] == successful;
    for l := 0 to |successful|
      invariant gaps + GroupGaps(ms, successful[l..]) == GroupGaps(ms, successful)
    {
      GroupGapsNext(ms, successful, l);
      var more := PathGapsFrom(ms, successful[l], successful[l + 1..]);
      gaps := gaps + more;
    }
    GroupGapsNone(ms, successful[|successful|..]);
  }

  lemma {:induction false} GroupGapsNext<S, A>(ms: Measures<S>, successful: seq<Trajectory<S, A>>, l: nat)
    requires l < |successful|
    ensures GroupGaps(ms, successful[l..]) == GapsFrom(ms, successful[l], successful[l + 1..]) + GroupGaps(ms, successful[l + 1..])
  {
    hide GapsFrom;
    assert successful[l..][1..] == successful[l + 1..];
  }

  lemma {:induction false} GroupGapsNone<S, A>(ms: Measures<S>, successful: seq<Trajectory<S, A>>)
    requires successful == []
    ensures GroupGaps(ms, successful) == []
  {
  }

  method PathGapsFrom<S, A>(ms: Measures<S>, left: Trajectory<S, A>, rest: seq<Trajectory<S, A>>) returns (gaps: seq<Gap>)
    ensures gaps == GapsFrom(ms, left, rest)
  {
    hide GapOf;
    gaps := [];
    for r := 0 to |rest|
      invariant gaps == GapsFrom(ms, left, rest)[..r]
    {
      gaps := gaps + [GapOf(ms, left, rest[r])];
    }
  }

  method MeasureGroup<S, A>(ms: Measures<S>, items: seq<Trajectory<S, A>>, m: Measured) returns (next: Measured)
    requires Loaded(items)
    ensures Calm(next) <==> Calm(m) && GroupAtRest(ms, items)
    ensures next.full == m.full + if Full(items) then 1 else 0
    ensures next.gaps == m.gaps + GroupGaps(ms, Successful(items))
  {
    hide Starts, Moves, Within, GroupGaps;
    var apart := Largest(Starts(ms, items), m.apart, 0.000001);
    var moved, contacts, full, successful := m.moved, m.contacts, true, [];
    for i := 0 to |items|
      invariant (moved <= 0.005 && contacts == 0) <==>
                (m.moved <= 0.005 && m.contacts == 0 && forall k :: 0 <= k < i ==> PathAtRest(ms, items[k]))
      invariant full <==> Full(items[..i])
      invariant successful == Successful(items[..i])
    {
      assert items[..i + 1][..i] == items[..i];
      moved := Largest(Moves(ms, items[i]), moved, 0.005);
      var n := CountContacts(ms.contact, items[i].states);
      contacts := contacts + n;
      if items[i].outcome == Success {
        successful := successful + [items[i]];
      } else {
        full := false;
      }
    }
    assert items[..|items|] == items;
    var gaps := PathGaps(ms, successful);
    next := Measured(apart, moved, contacts, m.full + if full then 1 else 0, m.gaps + gaps);
  }

  /** The distances by pair of modes. */
  method ByModes(gaps: seq<Gap>) returns (values: map<set<string>, seq<real>>)
    ensures forall p :: p in values <==> RmsOf(gaps, p) != []
    ensures forall p :: p in values ==> values[p] == RmsOf(gaps, p)
  {
    values := map[];
    for i := 0 to |gaps|
      invariant forall p :: p in values <==> RmsOf(gaps[..i], p) != []
      invariant forall p :: p in values ==> values[p] == RmsOf(gaps[..i], p)
    {
      assert gaps[..i + 1][..i] == gaps[..i];
      var p := gaps[i].modes;
      values := values[p := (if p in values then values[p] else []) + [gaps[i].rms]];
    }
    assert gaps[..|gaps|] == gaps;
  }

  method CheckPaths(gaps: seq<Gap>) returns (ok: bool)
    ensures ok <==> PathsDistinct(gaps)
  {
    hide RmsOf, Total, Mean;
    if gaps == [] {
      return false;
    }
    var values := ByModes(gaps);
    ok := true;
    for i := 0 to |gaps|
      invariant ok <==> forall k :: 0 <= k < i ==> gaps[k].rms >= 0.025 && Mean(RmsOf(gaps, gaps[k].modes)) >= 0.03
    {
      ok := ok && gaps[i].rms >= 0.025 && Mean(values[gaps[i].modes]) >= 0.03;
    }
  }

  method CountSuccesses<S, A>(ts: seq<Trajectory<S, A>>, m: string) returns (n: nat)
    ensures n == TallyOf(ts, m).success
  {
    n := 0;
    for i := 0 to |ts|
      invariant n == TallyOf(ts[..i], m).success
    {
      assert ts[..i + 1][..i] == ts[..i];
      if ts[i].mode == m && ts[i].outcome == Success {
        n := n + 1;
      }
    }
    assert ts[..|ts|] == ts;
  }

  method CheckRates<S, A>(c: Config, ts: seq<Trajectory<S, A>>) returns (ok: bool)
    ensures ok <==> ModesReliable(c, ts)
  {
    ok := true;
    for i := 0 to |c.modes|
      invariant ok <==> forall k :: 0 <= k < i ==> TallyOf(ts, c.modes[k]).success as real >= 0.98 * (c.batches * c.worlds) as real
    {
      var n := CountSuccesses(ts, c.modes[i]);
      ok := ok && n as real >= 0.98 * (c.batches * c.worlds) as real;
    }
  }

  lemma {:induction false} ItemsLoaded<S, A>(ts: seq<Trajectory<S, A>>, g: GroupId)
    requires Loaded(ts)
    ensures Loaded(Items(ts, g))
  {
    forall a: nat | a < |Items(ts, g)| ensures Items(ts, g)[a].states != [] {
      ItemsAreMembers(ts, g, a);
    }
  }

  ghost predicate AllAtRest<S, A>(ms: Measures<S>, ts: seq<Trajectory<S, A>>, gs: seq<GroupId>) {
    forall i :: 0 <= i < |gs| ==> GroupAtRest(ms, Items(ts, gs[i]))
  }

  method MeasureGroups<S, A>(ms: Measures<S>, ts: seq<Trajectory<S, A>>, order: seq<GroupId>,
                             groups: map<GroupId, seq<Trajectory<S, A>>>)
    returns (m: Measured)
    requires Loaded(ts) && forall g :: g in order ==> g in groups && groups[g] == Items(ts, g)
    ensures Calm(m) <==> AllAtRest(ms, ts, order)
    ensures m.full == CountFull(ts, order) && m.gaps == AllGaps(ms, ts, order)
  {
    hide Loaded, GroupAtRest, Full, Items;
    m := Measured(0.0, 0.0, 0, 0, []);
    for n := 0 to |order|
      invariant Calm(m) <==> AllAtRest(ms, ts, order[..n])
      invariant m.full == CountFull(ts, order[..n]) && m.gaps == AllGaps(ms, ts, order[..n])
    {
      assert order[n] in order && order[..n + 1][..n] == order[..n];
      ItemsLoaded(ts, order[n]);
      m := MeasureGroup(ms, groups[order[n]], m);
    }
    assert order[..|order|] == order;
  }

  // ----- the measurements, read off the trajectories -----

  /** The first trajectory of its group. */
  ghost predicate Opens<S, A>(ts: seq<Trajectory<S, A>>, f: nat)
    requires f < |ts|
  {
    forall k: nat :: k < f ==> ts[k].group != ts[f].group
  }

  /** On no path does the object move by more than 5 mm or touch the hand. */
  ghost predicate StandsStill<S, A>(ms: Measures<S>, ts: seq<Trajectory<S, A>>)
    requires Loaded(ts)
  {
    forall i: nat, k: nat :: i < |ts| && k < |ts[i].states| ==>
      ms.moved(ts[i].states[k], ts[i].states[0]) <= 0.005 && !ms.contact(ts[i].states[k])
  }

  /** All paths of a group start where its first one does. */
  ghost predicate StartsTogether<S, A>(ms: Measures<S>, ts: seq<Trajectory<S, A>>)
    requires Loaded(ts)
  {
    forall f: nat, i: nat :: f < |ts| && i < |ts| && ts[f].group == ts[i].group && Opens(ts, f) ==>
      ms.apart(ts[i].states[0], ts[f].states[0]) <= 0.000001
  }

  lemma {:induction false} FirstOf<S, A>(ts: seq<Trajectory<S, A>>, g: GroupId) returns (f: nat)
    requires g in GroupsOf(ts)
    ensures f < |ts| && ts[f].group == g && Opens(ts, f) && Items(ts, g) != [] && Items(ts, g)[0] == ts[f]
  {
    var front := ts[..|ts| - 1];
    if g in GroupsOf(front) {
      f := FirstOf(front, g);
    } else {
      f := |ts| - 1;
      ItemsOfOthers(front, g);
    }
  }

  lemma OneOpens<S, A>(ts: seq<Trajectory<S, A>>, a: nat, b: nat)
    requires a < |ts| && b < |ts| && ts[a].group == ts[b].group && Opens(ts, a) && Opens(ts, b)
    ensures a == b
  {
  }

  lemma PathIsCalm<S, A>(ms: Measures<S>, t: Trajectory<S, A>)
    requires t.states != []
    ensures PathAtRest(ms, t) <==>
              forall k: nat :: k < |t.states| ==> ms.moved(t.states[k], t.states[0]) <= 0.005 && !ms.contact(t.states[k])
  {
    forall k: nat | k < |t.states| ensures Moves(ms, t)[k] in Moves(ms, t) && t.states[k] in t.states {
    }
  }

  lemma StartsAreClose<S, A>(ms: Measures<S>, items: seq<Trajectory<S, A>>)
    requires Loaded(items)
    ensures Within(Starts(ms, items), 0.000001) <==>
              forall i: nat :: i < |items| ==> ms.apart(items[i].states[0], items[0].states[0]) <= 0.000001
  {
    var starts := Starts(ms, items);
    forall i: nat | i < |items| ensures starts[i] == ms.apart(items[i].states[0], items[0].states[0]) && starts[i] in starts {
    }
  }

  /** Every group is at rest exactly when all paths stand still and start together. */
  lemma {:induction false} AtRestIff<S, A>(ms: Measures<S>, ts: seq<Trajectory<S, A>>)
    requires Loaded(ts)
    ensures AllAtRest(ms, ts, GroupsOf(ts)) <==> StandsStill(ms, ts) && StartsTogether(ms, ts)
  {
    hide Items, GroupsOf, PathAtRest, Starts, Within, Opens;
    if AllAtRest(ms, ts, GroupsOf(ts)) {
      forall i: nat | i < |ts| ensures PathAtRest(ms, ts[i]) {
        GroupIsCalm(ms, ts, i);
      }
      forall f: nat, i: nat | f < |ts| && i < |ts| && ts[f].group == ts[i].group && Opens(ts, f)
        ensures ms.apart(ts[i].states[0], ts[f].states[0]) <= 0.000001
      {
        GroupIsCalm(ms, ts, i);
        var first := FirstOf(ts, ts[i].group);
        OneOpens(ts, f, first);
      }
      forall i: nat | i < |ts| {
        PathIsCalm(ms, ts[i]);
      }
    }
    if StandsStill(ms, ts) && StartsTogether(ms, ts) {
      forall n: nat | n < |GroupsOf(ts)| ensures GroupAtRest(ms, Items(ts, GroupsOf(ts)[n])) {
        assert GroupsOf(ts)[n] in GroupsOf(ts);
        CalmGroup(ms, ts, GroupsOf(ts)[n]);
      }
    }
  }

  lemma {:induction false} GroupIsCalm<S, A>(ms: Measures<S>, ts: seq<Trajectory<S, A>>, i: nat)
    requires Loaded(ts) && AllAtRest(ms, ts, GroupsOf(ts)) && i < |ts|
    ensures PathAtRest(ms, ts[i]) && ts[i].group in GroupsOf(ts)
    ensures var items := Items(ts, ts[i].group);
      items != [] && items[0].states != [] && ms.apart(ts[i].states[0], items[0].states[0]) <= 0.000001
  {
    hide Items, GroupsOf, PathAtRest, Starts, Within;
    var items := Items(ts, ts[i].group);
    var a := ItemsKeepOrder(ts, ts[i].group, i);
    assert ts[i].group in GroupsOf(ts);
    StartsAreClose(ms, items);
  }

  lemma {:induction false} CalmGroup<S, A>(ms: Measures<S>, ts: seq<Trajectory<S, A>>, g: GroupId)
    requires Loaded(ts) && StandsStill(ms, ts) && StartsTogether(ms, ts) && g in GroupsOf(ts)
    ensures GroupAtRest(ms, Items(ts, g))
  {
    hide Items, GroupsOf, PathAtRest, Starts, Within, Opens;
    var items := Items(ts, g);
    var f := FirstOf(ts, g);
    ItemsLoaded(ts, g);
    forall a: nat | a < |items| ensures PathAtRest(ms, items[a]) && ms.apart(items[a].states[0], items[0].states[0]) <= 0.000001 {
      ItemsAreMembers(ts, g, a);
      PathIsCalm(ms, items[a]);
    }
    StartsAreClose(ms, items);
  }

  /** What a gap records: the two modes, and the distance of the two paths over the length of the shorter one. */
  ghost predicate Separates<S, A>(ms: Measures<S>, left: Trajectory<S, A>, right: Trajectory<S, A>, gap: Gap) {
    var l, r := left.states, right.states;
    && gap.modes == {left.mode, right.mode}
    && (|l| <= |r| ==> gap.rms == ms.rms(l, r[..|l|]))
    && (|r| <= |l| ==> gap.rms == ms.rms(l[..|r|], r))
  }

  lemma GapSeparates<S, A>(ms: Measures<S>, left: Trajectory<S, A>, right: Trajectory<S, A>, gap: Gap)
    ensures gap == GapOf(ms, left, right) <==> Separates(ms, left, right, gap)
  {
    assert left.states[..|left.states|] == left.states && right.states[..|right.states|] == right.states;
  }

  /** Some two of a list, in order. */
  ghost predicate GapWithin<S, A>(ms: Measures<S>, list: seq<Trajectory<S, A>>, gap: Gap) {
    exists i: nat, j: nat :: i < j < |list| && gap == GapOf(ms, list[i], list[j])
  }

  lemma {:induction false} GroupGapsAre<S, A>(ms: Measures<S>, list: seq<Trajectory<S, A>>, gap: Gap)
    ensures gap in GroupGaps(ms, list) <==> GapWithin(ms, list, gap)
  {
    hide GapOf;
    if list != [] {
      var first, rest := list[0], list[1..];
      GroupGapsAre(ms, rest, gap);
      if gap in GapsFrom(ms, first, rest) {
        var j: nat :| j < |rest| && gap == GapsFrom(ms, first, rest)[j];
        assert list[0] == first && list[j + 1] == rest[j];
      }
      if GapWithin(ms, rest, gap) {
        var i: nat, j: nat :| i < j < |rest| && gap == GapOf(ms, rest[i], rest[j]);
        assert list[i + 1] == rest[i] && list[j + 1] == rest[j];
      }
      if GapWithin(ms, list, gap) {
        var i: nat, j: nat :| i < j < |list| && gap == GapOf(ms, list[i], list[j]);
        assert list[j] == rest[j - 1];
        if i == 0 {
          assert gap == GapsFrom(ms, first, rest)[j - 1];
        } else {
          assert list[i] == rest[i - 1];
        }
      }
    }
  }

  predicate Succeeds<S, A>(t: Trajectory<S, A>, g: GroupId) {
    t.group == g && t.outcome == Success
  }

  ghost predicate PairOf<S, A>(ts: seq<Trajectory<S, A>>, g: GroupId, left: Trajectory<S, A>, right: Trajectory<S, A>) {
    InOrder(ts, left, right) && Succeeds(left, g) && Succeeds(right, g)
  }

  ghost predicate InOrder<S, A>(list: seq<Trajectory<S, A>>, left: Trajectory<S, A>, right: Trajectory<S, A>) {
    exists i: nat, j: nat :: i < j < |list| && list[i] == left && list[j] == right
  }

  lemma {:induction false} SuccessfulAre<S, A>(ts: seq<Trajectory<S, A>>, g: GroupId)
    ensures forall t :: t in Successful(Items(ts, g)) <==> t in ts && Succeeds(t, g)
  {
    if ts != [] {
      SuccessfulAre(ts[..|ts| - 1], g);
      SuccessfulMore(ts, g);
    }
  }

  lemma SuccessfulMore<S, A>(ts: seq<Trajectory<S, A>>, g: GroupId)
    requires ts != []
    ensures var front, last := ts[..|ts| - 1], ts[|ts| - 1];
      && ts == front + [last]
      && Successful(Items(ts, g)) == Successful(Items(front, g)) + if Succeeds(last, g) then [last] else []
  {
    var front, last := ts[..|ts| - 1], ts[|ts| - 1];
    assert (Items(front, g) + [last])[..|Items(front, g)|] == Items(front, g);
  }

  lemma {:induction false} PairsAre<S, A>(ts: seq<Trajectory<S, A>>, g: GroupId, left: Trajectory<S, A>,
                                          right: Trajectory<S, A>)
    ensures InOrder(Successful(Items(ts, g)), left, right) <==> PairOf(ts, g, left, right)
  {
    if ts != [] {
      hide Items, Successful, InOrder;
      var front, last := ts[..|ts| - 1], ts[|ts| - 1];
      PairsAre(front, g, left, right);
      SuccessfulMore(ts, g);
      SuccessfulAre(front, g);
      MoreInOrder(front, last, left, right);
      if Succeeds(last, g) {
        MoreInOrder(Successful(Items(front, g)), last, left, right);
      }
    }
  }

  lemma MoreInOrder<S, A>(list: seq<Trajectory<S, A>>, last: Trajectory<S, A>, left: Trajectory<S, A>,
                          right: Trajectory<S, A>)
    ensures InOrder(list + [last], left, right) <==> InOrder(list, left, right) || (left in list && right == last)
  {
    var more := list + [last];
    if InOrder(list, left, right) {
      var i: nat, j: nat :| i < j < |list| && list[i] == left && list[j] == right;
      assert more[i] == left && more[j] == right;
    }
    if left in list && right == last {
      var i: nat :| i < |list| && list[i] == left;
      assert more[i] == left && more[|list|] == right;
    }
  }

  /** The gaps that are measured: those of every two successful trajectories of one group, each pair once, in the order
      of the corpus. */
  lemma {:induction false} GapsIff<S, A>(ms: Measures<S>, ts: seq<Trajectory<S, A>>, gap: Gap)
    ensures gap in AllGaps(ms, ts, GroupsOf(ts)) <==>
              exists i: nat, j: nat ::
                && i < j < |ts| && ts[i].group == ts[j].group && ts[i].outcome == Success && ts[j].outcome == Success
                && Separates(ms, ts[i], ts[j], gap)
  {
    hide GapOf, Separates, Successful, Items, GroupGaps;
    GapsOfGroups(ms, ts, GroupsOf(ts), gap);
    if gap in AllGaps(ms, ts, GroupsOf(ts)) {
      var g :| g in GroupsOf(ts) && gap in GroupGaps(ms, Successful(Items(ts, g)));
      GapsOfGroup(ms, ts, g, gap);
      var i: nat, j: nat :| i < j < |ts| && Succeeds(ts[i], g) && Succeeds(ts[j], g) && gap == GapOf(ms, ts[i], ts[j]);
      GapSeparates(ms, ts[i], ts[j], gap);
    }
    if i: nat, j: nat :| i < j < |ts| && ts[i].group == ts[j].group && ts[i].outcome == Success && ts[j].outcome == Success
                           && Separates(ms, ts[i], ts[j], gap) {
      GapSeparates(ms, ts[i], ts[j], gap);
      GapsOfGroup(ms, ts, ts[i].group, gap);
      assert Succeeds(ts[i], ts[i].group) && Succeeds(ts[j], ts[i].group);
    }
  }

  lemma {:induction false} GapsOfGroups<S, A>(ms: Measures<S>, ts: seq<Trajectory<S, A>>, gs: seq<GroupId>, gap: Gap)
    ensures gap in AllGaps(ms, ts, gs) <==> exists g :: g in gs && gap in GroupGaps(ms, Successful(Items(ts, g)))
  {
    hide GroupGaps, Successful, Items;
    if gs != [] {
      var front, last := gs[..|gs| - 1], gs[|gs| - 1];
      GapsOfGroups(ms, ts, front, gap);
      assert gs == front + [last];
      assert gap in AllGaps(ms, ts, gs) <==> gap in AllGaps(ms, ts, front) || gap in GroupGaps(ms, Successful(Items(ts, last)));
      assert forall g :: g in gs <==> g in front || g == last;
    }
  }

  lemma {:induction false} GapsOfGroup<S, A>(ms: Measures<S>, ts: seq<Trajectory<S, A>>, g: GroupId, gap: Gap)
    ensures gap in GroupGaps(ms, Successful(Items(ts, g))) <==>
              exists i: nat, j: nat :: i < j < |ts| && Succeeds(ts[i], g) && Succeeds(ts[j], g) && gap == GapOf(ms, ts[i], ts[j])
  {
    hide GapOf, Successful, Items, GroupGaps;
    var list := Successful(Items(ts, g));
    GroupGapsAre(ms, list, gap);
    if GapWithin(ms, list, gap) {
      var i: nat, j: nat :| i < j < |list| && gap == GapOf(ms, list[i], list[j]);
      assert InOrder(list, list[i], list[j]);
      PairsAre(ts, g, list[i], list[j]);
    }
    if i: nat, j: nat :| i < j < |ts| && Succeeds(ts[i], g) && Succeeds(ts[j], g) && gap == GapOf(ms, ts[i], ts[j]) {
      assert PairOf(ts, g, ts[i], ts[j]);
      PairsAre(ts, g, ts[i], ts[j]);
      assert InOrder(list, ts[i], ts[j]);
    }
  }

  lemma {:induction false} TotalJoin(a: seq<real>, b: seq<real>)
    ensures Total(a + b) == Total(a) + Total(b)
  {
    if b == [] {
      assert a + b == a;
    } else {
      assert (a + b)[..|a + b| - 1] == a + b[..|b| - 1];
      TotalJoin(a, b[..|b| - 1]);
    }
  }

  /** The mean is the average: of one value that value, of two lists the average weighted by their lengths. */
  lemma MeanIsAverage(a: seq<real>, b: seq<real>, v: real)
    requires a != [] && b != []
    ensures Mean([v]) == v
    ensures Mean(a + b) * (|a| + |b|) as real == Mean(a) * |a| as real + Mean(b) * |b| as real
  {
    TotalJoin(a, b);
    assert [v][..0] == [] && Total([v]) == v && |[v]| as real == 1.0;
  }

  /** What acceptance means. `bound` says that the manifest's keys, hashes and dimensions are the run contract's. */
  ghost predicate Accepted<S, A>(c: Config, bound: bool, ms: Measures<S>, ts: seq<Trajectory<S, A>>,
                                 records: map<Id, Record>) {
    && bound && Structural(c, ts, records) && EnoughSuccesses(c, ts)
    && AllAtRest(ms, ts, GroupsOf(ts)) && PathsDistinct(AllGaps(ms, ts, GroupsOf(ts)))
    && MostlyFull(ts) && ModesReliable(c, ts)
  }

  method VerifyMultimodeCorpus<S, A>(c: Config, bound: bool, ms: Measures<S>, ts: seq<Trajectory<S, A>>,
                                     records: map<Id, Record>)
    returns (accepted: bool)
    requires Loaded(ts)
    ensures accepted <==> Accepted(c, bound, ms, ts, records)
  {
    hide Structural, EnoughSuccesses, AllAtRest, PathsDistinct, ModesReliable, AllGaps, CountFull, GroupsOf;
    if !bound {
      return false;
    }
    var ok, order, groups := VerifyStructure(c, ts, records);
    if !ok {
      return false;
    }
    var m := MeasureGroups(ms, ts, order, groups);
    var distinct := CheckPaths(m.gaps);
    var reliable := CheckRates(c, ts);
    accepted := Calm(m) && distinct && m.full as real >= 0.95 * |order| as real && reliable;
  }
}
