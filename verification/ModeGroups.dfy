/** Choosing complete held-out mode groups, and permuting latents inside each of them. */
module ModeGroups {
  import opened ActionChunks

  /** A held-out window with the mode of its trajectory. */
  datatype Window = Window(trajectory: int, start: nat, group: int, mode: string)

  type Groups = map<int, map<string, Window>>

  datatype Selection = Repeated | TooFew | Chosen(windows: seq<Window>)

  /** Two start-zero windows of one group and one mode. */
  ghost predicate Repeats(windows: seq<Window>) {
    exists i, j :: 0 <= i < j < |windows| && Clash(windows[i], windows[j])
  }

  predicate Clash(a: Window, b: Window) {
    a.start == 0 && b.start == 0 && a.group == b.group && a.mode == b.mode
  }

  /** Exactly the start-zero windows, by group and mode. */
  ghost predicate Indexes(groups: Groups, windows: seq<Window>) {
    && (forall i :: 0 <= i < |windows| && windows[i].start == 0 ==>
          && windows[i].group in groups && windows[i].mode in groups[windows[i].group]
          && groups[windows[i].group][windows[i].mode] == windows[i])
    && (forall g :: g in groups ==> forall m :: m in groups[g] ==>
          groups[g][m] in windows && groups[g][m].start == 0 && groups[g][m].group == g && groups[g][m].mode == m)
  }

  lemma IndexesMore(groups: Groups, windows: seq<Window>, w: Window)
    requires Indexes(groups, windows)
    requires w.start == 0 && (w.group in groups ==> w.mode !in groups[w.group])
    ensures Indexes(groups[w.group := (if w.group in groups then groups[w.group] else map[])[w.mode := w]], windows + [w])
    ensures forall i :: 0 <= i < |windows| ==> !Clash(windows[i], w)
  {
  }

  method GroupWindows(windows: seq<Window>) returns (groups: Option<Groups>)
    ensures groups.None? <==> Repeats(windows)
    ensures groups.Some? ==> Indexes(groups.value, windows)
  {
    hide Indexes;
    var found: Groups := map[];
    assert Indexes(found, windows[..0]) by {
      NothingIndexed(windows);
    }
    for n := 0 to |windows|
      invariant Indexes(found, windows[..n])
      invariant forall i, j :: 0 <= i < j < n ==> !Clash(windows[i], windows[j])
    {
      var w := windows[n];
      assert windows[..n + 1] == windows[..n] + [w];
      if w.start == 0 {
        var group := if w.group in found then found[w.group] else map[];
        if w.mode in group {
          FoundClash(found, windows, n);
          return None;
        }
        IndexesMore(found, windows[..n], w);
        assert forall i :: 0 <= i < n ==> windows[..n][i] == windows[i];
        found := found[w.group := group[w.mode := w]];
      } else {
        LaterIgnored(found, windows[..n], w);
      }
    }
    assert windows[..|windows|] == windows;
    groups := Some(found);
  }

  lemma NothingIndexed(windows: seq<Window>)
    ensures Indexes(map[], windows[..0])
  {
  }

  lemma FoundClash(groups: Groups, windows: seq<Window>, n: nat)
    requires n < |windows| && Indexes(groups, windows[..n])
    requires windows[n].start == 0 && windows[n].group in groups && windows[n].mode in groups[windows[n].group]
    ensures Repeats(windows)
  {
    var i :| 0 <= i < n && windows[..n][i] == groups[windows[n].group][windows[n].mode];
    assert Clash(windows[i], windows[n]);
  }

  lemma LaterIgnored(groups: Groups, windows: seq<Window>, w: Window)
    requires Indexes(groups, windows) && w.start != 0
    ensures Indexes(groups, windows + [w])
  {
  }

  predicate Increasing(s: seq<int>) {
    forall i, j :: 0 <= i < j < |s| ==> s[i] < s[j]
  }

  method SortedKeys(keys: set<int>) returns (s: seq<int>)
    ensures Increasing(s) && forall k :: k in keys <==> k in s
  {
    var rest := keys;
    s := [];
    while rest != {}
      invariant rest <= keys && Increasing(s)
      invariant forall k :: k in keys <==> k in rest || k in s
      invariant forall k, i :: k in rest && 0 <= i < |s| ==> s[i] < k
      decreases rest
    {
      var least := Least(rest);
      s := s + [least];
      rest := rest - {least};
    }
  }

  lemma Inhabited(keys: set<int>)
    requires keys != {}
    ensures exists k :: k in keys
  {
    assert (forall k :: k !in keys) ==> keys == {};
  }

  method Least(keys: set<int>) returns (least: int)
    requires keys != {}
    ensures least in keys && forall k :: k in keys ==> least <= k
  {
    Inhabited(keys);
    least :| least in keys;
    var rest := keys - {least};
    while rest != {}
      invariant rest <= keys && least in keys
      invariant forall k :: k in keys && k !in rest ==> least <= k
      decreases rest
    {
      Inhabited(rest);
      var k :| k in rest;
      if k < least {
        least := k;
      }
      rest := rest - {k};
    }
  }

  /** A group that holds exactly the expected modes among the start-zero windows. */
  ghost predicate CompleteGroup(windows: seq<Window>, modes: seq<string>, g: int) {
    && (forall m :: m in modes ==> exists w :: w in windows && w.start == 0 && w.group == g && w.mode == m)
    && (forall w :: w in windows && w.start == 0 && w.group == g ==> w.mode in modes)
  }

  /** The complete groups in order. */
  ghost predicate AllComplete(windows: seq<Window>, modes: seq<string>, complete: seq<int>) {
    Increasing(complete) && forall g :: g in complete <==> CompleteGroup(windows, modes, g)
  }

  /** `count` of them, spread evenly over the list. */
  function Spread(complete: seq<int>, count: nat): (s: seq<int>)
    requires count <= |complete|
    ensures |s| == count
  {
    seq(count, i requires 0 <= i < count => SpreadBelow(i, |complete|, count); complete[i * |complete| / count])
  }

  lemma MulMonotone(a: int, b: int, m: nat)
    requires a <= b
    ensures a * m <= b * m
  {
  }

  /** The quotient is the largest multiple that fits. */
  lemma Quotient(x: nat, m: nat, q: nat)
    requires m >= 1 && q * m <= x < (q + 1) * m
    ensures x / m == q && x % m == x - q * m
  {
    var r := x / m;
    assert r * m <= x < (r + 1) * m;
    if r < q {
      MulMonotone(r + 1, q, m);
      assert false;
    }
    if r > q {
      MulMonotone(q + 1, r, m);
      assert false;
    }
  }

  lemma DivBounds(x: nat, m: nat)
    requires m >= 1
    ensures x / m * m <= x < x / m * m + m
  {
  }

  lemma SpreadBelow(i: nat, n: nat, count: nat)
    requires i < count <= n
    ensures 0 <= i * n / count < n
  {
    DivBounds(i * n, count);
    MulMonotone(i, count - 1, n);
    assert (count - 1) * n == n * count - n;
    if i * n / count >= n {
      MulMonotone(n, i * n / count, count);
      assert false;
    }
  }

  lemma SpreadAbove(i: nat, n: nat, count: nat)
    requires i < count <= n
    ensures i * n / count < (i + 1) * n / count
  {
    DivBounds(i * n, count);
    DivBounds((i + 1) * n, count);
    assert (i + 1) * n == i * n + n;
    if (i + 1) * n / count <= i * n / count {
      MulMonotone((i + 1) * n / count, i * n / count, count);
      assert false;
    }
  }

  /** Distinct groups in increasing order. */
  lemma {:induction false} SpreadIncreases(complete: seq<int>, count: nat, i: nat, j: nat)
    requires Increasing(complete) && i < j < count <= |complete|
    ensures Spread(complete, count)[i] < Spread(complete, count)[j]
  {
    SpreadBelow(j - 1, |complete|, count);
    SpreadBelow(j, |complete|, count);
    SpreadAbove(j - 1, |complete|, count);
    if i < j - 1 {
      SpreadIncreases(complete, count, i, j - 1);
    }
  }

  /** Cutting a list of `n` into `count` stretches whose lengths differ by one at most. */
  ghost predicate CutsEvenly(at: seq<nat>, n: nat, count: nat)
    requires count >= 1
  {
    && |at| == count + 1 && at[0] == 0 && at[count] == n
    && forall i: nat :: i < count ==> n / count <= at[i + 1] - at[i] <= n / count + 1
  }

  lemma StretchLength(i: nat, n: nat, count: nat)
    requires count >= 1
    ensures n / count <= (i + 1) * n / count - i * n / count <= n / count + 1
  {
    var q, a, b := n / count, i * n / count, (i + 1) * n / count;
    DivBounds(n, count);
    DivBounds(i * n, count);
    DivBounds((i + 1) * n, count);
    assert (i + 1) * n == i * n + n;
    assert (a + q) * count == a * count + q * count && (a + q + 2) * count == a * count + q * count + 2 * count;
    if b < a + q {
      MulMonotone(b + 1, a + q, count);
      assert false;
    }
    if b > a + q + 1 {
      MulMonotone(a + q + 2, b, count);
      assert false;
    }
  }

  /** The chosen groups stand at the heads of evenly cut stretches of the list. */
  lemma SpreadIsEven(complete: seq<int>, count: nat)
    requires 1 <= count <= |complete|
    ensures exists at: seq<nat> :: CutsEvenly(at, |complete|, count) && forall i: nat :: i < count ==>
              at[i] < |complete| && Spread(complete, count)[i] == complete[at[i]]
  {
    var at := Cuts(|complete|, count);
    CutsAreEven(|complete|, count);
    forall i: nat | i < count ensures at[i] < |complete| && Spread(complete, count)[i] == complete[at[i]] {
      SpreadBelow(i, |complete|, count);
    }
  }

  function Cuts(n: nat, count: nat): (at: seq<nat>)
    requires count >= 1
    ensures |at| == count + 1 && forall i: nat :: i <= count ==> at[i] == i * n / count
  {
    seq(count + 1, i requires 0 <= i <= count => Cut(i, n, count))
  }

  function Cut(i: nat, n: nat, count: nat): nat
    requires count >= 1
  {
    var whole: nat := i * n;
    whole / count
  }

  lemma CutsAreEven(n: nat, count: nat)
    requires count >= 1
    ensures CutsEvenly(Cuts(n, count), n, count)
  {
    Quotient(count * n, count, n);
    forall i: nat | i < count ensures n / count <= Cuts(n, count)[i + 1] - Cuts(n, count)[i] <= n / count + 1 {
      StretchLength(i, n, count);
    }
  }

  /** The windows of some groups, group by group in mode order. */
  ghost predicate GroupMajor(windows: seq<Window>, modes: seq<string>, groups: seq<int>, out: seq<Window>)
    requires modes != []
  {
    && |out| == |groups| * |modes|
    && forall k: nat :: k < |out| ==>
         && k / |modes| < |groups| && out[k] in windows && out[k].start == 0
         && out[k].group == groups[k / |modes|] && out[k].mode == modes[k % |modes|]
  }

  /** What a selection is: the evenly spread complete groups, as many as fit into the window limit. */
  ghost predicate IsSelection(windows: seq<Window>, modes: seq<string>, maximumWindows: nat, s: Selection)
    requires modes != []
  {
    && (s.Repeated? <==> Repeats(windows))
    && (!Repeats(windows) ==>
          exists complete :: AllComplete(windows, modes, complete) && SelectedFrom(windows, modes, maximumWindows, complete, s))
  }

  ghost predicate SelectedFrom(windows: seq<Window>, modes: seq<string>, maximumWindows: nat, complete: seq<int>,
                               s: Selection)
    requires modes != []
  {
    var limit := maximumWindows / |modes|;
    && (s.TooFew? <==> |complete| < 3 || limit < 3)
    && (s.Chosen? ==>
          && GroupMajor(windows, modes, Spread(complete, Min(|complete|, limit)), s.windows)
          && 3 * |modes| <= |s.windows| <= maximumWindows)
  }

  method SelectCompleteModeGroups(windows: seq<Window>, modes: seq<string>, maximumWindows: nat) returns (s: Selection)
    requires modes != []
    ensures IsSelection(windows, modes, maximumWindows, s)
  {
    hide Indexes, Repeats, AllComplete, GroupMajor, LayOut;
    var groups := GroupWindows(windows);
    if groups.None? {
      return Repeated;
    }
    var complete := CompleteGroups(groups.value, windows, modes);
    var limit := maximumWindows / |modes|;
    if |complete| < 3 || limit < 3 {
      s := TooFew;
      assert SelectedFrom(windows, modes, maximumWindows, complete, s);
      return;
    }
    var chosen := Spread(complete, Min(|complete|, limit));
    forall i | 0 <= i < |chosen| ensures HasModes(groups.value, modes, chosen[i]) {
      SpreadBelow(i, |complete|, |chosen|);
      assert chosen[i] in complete;
    }
    LayOutIsGroupMajor(groups.value, windows, modes, chosen);
    var out := LayOut(groups.value, modes, chosen);
    FitsLimit(|chosen|, |modes|, maximumWindows);
    GroupMajorLength(windows, modes, chosen, out);
    s := Chosen(out);
    assert SelectedFrom(windows, modes, maximumWindows, complete, s);
  }

  lemma GroupMajorLength(windows: seq<Window>, modes: seq<string>, groups: seq<int>, out: seq<Window>)
    requires modes != [] && GroupMajor(windows, modes, groups, out)
    ensures |out| == |groups| * |modes|
  {
  }

  lemma FitsLimit(count: nat, m: nat, maximum: nat)
    requires m >= 1 && 3 <= count <= maximum / m
    ensures 3 * m <= count * m <= maximum
  {
    assert maximum / m * m <= maximum;
    assert count * m <= maximum / m * m;
  }

  method CompleteGroups(groups: Groups, windows: seq<Window>, modes: seq<string>) returns (complete: seq<int>)
    requires Indexes(groups, windows) && modes != []
    ensures AllComplete(windows, modes, complete)
    ensures forall g :: g in complete ==> HasModes(groups, modes, g)
  {
    var keys := SortedKeys(groups.Keys);
    var expected := set m | m in modes;
    complete := [];
    for n := 0 to |keys|
      invariant Increasing(complete)
      invariant forall g :: g in complete ==> g in groups
      invariant forall i :: 0 <= i < |complete| ==> complete[i] in keys[..n]
      invariant forall g :: g in complete <==> g in keys[..n] && g in groups && groups[g].Keys == expected
    {
      assert keys[n] in keys;
      if groups[keys[n]].Keys == expected {
        complete := complete + [keys[n]];
      }
    }
    assert keys[..|keys|] == keys;
    forall g ensures g in complete <==> CompleteGroup(windows, modes, g) {
      CompleteByKeys(groups, windows, modes, g);
    }
    forall g | g in complete ensures HasModes(groups, modes, g) {
      assert forall j :: 0 <= j < |modes| ==> modes[j] in expected;
    }
  }

  lemma CompleteByKeys(groups: Groups, windows: seq<Window>, modes: seq<string>, g: int)
    requires Indexes(groups, windows) && modes != []
    ensures CompleteGroup(windows, modes, g) <==> g in groups && groups[g].Keys == set m | m in modes
  {
    var expected := set m | m in modes;
    if CompleteGroup(windows, modes, g) {
      assert modes[0] in modes;
      assert forall m :: m in groups[g] ==> groups[g][m] in windows;
      assert forall m :: m in expected <==> m in groups[g].Keys;
    } else if g in groups && groups[g].Keys == expected {
      forall m | m in modes ensures exists w :: w in windows && w.start == 0 && w.group == g && w.mode == m {
        assert m in expected;
        assert groups[g][m] in windows;
      }
    }
  }

  /** Group by group, mode by mode. */
  function LayOut(groups: Groups, modes: seq<string>, chosen: seq<int>): seq<Window>
    requires forall i :: 0 <= i < |chosen| ==> HasModes(groups, modes, chosen[i])
  {
    if chosen == [] then []
    else
      var g := chosen[|chosen| - 1];
      assert HasModes(groups, modes, g);
      LayOut(groups, modes, chosen[..|chosen| - 1]) + seq(|modes|, j requires 0 <= j < |modes| => groups[g][modes[j]])
  }

  predicate HasModes(groups: Groups, modes: seq<string>, g: int) {
    g in groups && forall j :: 0 <= j < |modes| ==> modes[j] in groups[g]
  }

  /** `row` holds one group's windows in mode order. */
  ghost predicate IsGroupRow(windows: seq<Window>, modes: seq<string>, g: int, row: seq<Window>) {
    && |row| == |modes|
    && forall j: nat :: j < |modes| ==> row[j] in windows && row[j].start == 0 && row[j].group == g && row[j].mode == modes[j]
  }

  lemma GroupMajorMore(windows: seq<Window>, modes: seq<string>, front: seq<int>, before: seq<Window>, g: int,
                       row: seq<Window>)
    requires modes != [] && GroupMajor(windows, modes, front, before) && IsGroupRow(windows, modes, g, row)
    ensures GroupMajor(windows, modes, front + [g], before + row)
  {
    var m, out := |modes|, before + row;
    assert (|front| + 1) * m == |front| * m + m;
    forall k: nat | k < |out|
      ensures k / m < |front| + 1 && out[k] in windows && out[k].start == 0
      ensures out[k].group == (front + [g])[k / m] && out[k].mode == modes[k % m]
    {
      if k < |before| {
        assert out[k] == before[k];
      } else {
        Position(|front|, k - |before|, m);
        assert out[k] == row[k - |before|];
      }
    }
  }

  lemma {:induction false} LayOutIsGroupMajor(groups: Groups, windows: seq<Window>, modes: seq<string>, chosen: seq<int>)
    requires Indexes(groups, windows) && modes != []
    requires forall i :: 0 <= i < |chosen| ==> HasModes(groups, modes, chosen[i])
    ensures GroupMajor(windows, modes, chosen, LayOut(groups, modes, chosen))
  {
    hide GroupMajor;
    if chosen == [] {
      NoGroups(windows, modes);
    } else {
      var front, g := chosen[..|chosen| - 1], chosen[|chosen| - 1];
      LayOutIsGroupMajor(groups, windows, modes, front);
      assert HasModes(groups, modes, g);
      GroupMajorMore(windows, modes, front, LayOut(groups, modes, front), g,
                     seq(|modes|, j requires 0 <= j < |modes| => groups[g][modes[j]]));
      assert front + [g] == chosen;
    }
  }

  lemma NoGroups(windows: seq<Window>, modes: seq<string>)
    requires modes != []
    ensures GroupMajor(windows, modes, [], [])
  {
  }

  lemma Position(i: nat, j: nat, m: nat)
    requires j < m
    ensures (i * m + j) / m == i && (i * m + j) % m == j
  {
    assert (i + 1) * m == i * m + m;
    Quotient(i * m + j, m, i);
  }

  // ----- the rollout latent permutation -----

  /** The index of mode `j` of group `g`. */
  function Index(g: nat, j: nat, m: nat): nat {
    g * m + j
  }

  function NextMode(j: nat, m: nat): (r: nat)
    requires j < m
    ensures r == if j + 1 == m then 0 else j + 1
  {
    (j + 1) % m
  }

  /** `group_start + (mode_index + 1) % mode_count`, for `groups` groups in turn. */
  function Permutation(groups: nat, m: nat): (p: seq<nat>)
    requires m >= 1
    ensures |p| == groups * m
  {
    if groups == 0 then []
    else
      assert groups * m == (groups - 1) * m + m;
      Permutation(groups - 1, m) + seq(m, j requires 0 <= j < m => Index(groups - 1, NextMode(j, m), m))
  }

  /** Every index belongs to one mode of one group, and to no other. */
  lemma IndexOf(groups: nat, m: nat, k: nat)
    requires m >= 1 && k < groups * m
    ensures k / m < groups && k % m < m && k == Index(k / m, k % m, m)
  {
    DivBounds(k, m);
    if k / m >= groups {
      MulMonotone(groups, k / m, m);
      assert false;
    }
  }

  lemma IndexFits(groups: nat, g: nat, j: nat, m: nat)
    requires g < groups && j < m
    ensures Index(g, j, m) < groups * m
    ensures Index(g, j, m) / m == g && Index(g, j, m) % m == j
  {
    MulMonotone(g + 1, groups, m);
    assert (g + 1) * m == g * m + m;
    Position(g, j, m);
  }

  lemma {:induction false} PermutationAt(groups: nat, m: nat, g: nat, j: nat)
    requires g < groups && j < m
    ensures Index(g, j, m) < groups * m
    ensures Permutation(groups, m)[Index(g, j, m)] == Index(g, NextMode(j, m), m)
  {
    IndexFits(groups, g, j, m);
    assert groups * m == (groups - 1) * m + m;
    if g < groups - 1 {
      PermutationAt(groups - 1, m, g, j);
    }
  }

  /** `t` applications of the permutation; None once an index is out of range. */
  function Applied(groups: nat, m: nat, k: nat, t: nat): Option<nat>
    requires m >= 1
  {
    if t == 0 then Some(k)
    else
      var before := Applied(groups, m, k, t - 1);
      if before.None? || before.value >= groups * m then None else Some(Permutation(groups, m)[before.value])
  }

  /** `t <= m` applications move a window `t` modes on, around its own group. */
  lemma {:induction false} AppliedAt(groups: nat, m: nat, g: nat, j: nat, t: nat)
    requires g < groups && j < m && t <= m
    ensures Applied(groups, m, Index(g, j, m), t) == Some(Index(g, if j + t < m then j + t else j + t - m, m))
  {
    hide Index, Permutation;
    if t > 0 {
      AppliedAt(groups, m, g, j, t - 1);
      PermutationAt(groups, m, g, if j + t - 1 < m then j + t - 1 else j + t - 1 - m);
    }
  }

  /** The permutation stays inside each group, moves every window when there are two modes or more, and returns to
      the identity after as many applications as there are modes. */
  lemma {:induction false} PermutationRotates(groups: nat, m: nat, k: nat)
    requires m >= 1 && k < groups * m
    ensures var p := Permutation(groups, m)[k];
      && p < groups * m && p / m == k / m && p % m == NextMode(k % m, m)
      && (m >= 2 ==> p != k)
    ensures Applied(groups, m, k, m) == Some(k)
  {
    hide Index, Permutation;
    var g, j := k / m, k % m;
    IndexOf(groups, m, k);
    PermutationAt(groups, m, g, j);
    IndexFits(groups, g, NextMode(j, m), m);
    AppliedAt(groups, m, g, j, m);
  }

  /** No two windows share an image. */
  lemma {:induction false} PermutationIsInjective(groups: nat, m: nat, k: nat, l: nat)
    requires m >= 1 && k < groups * m && l < groups * m
    requires Permutation(groups, m)[k] == Permutation(groups, m)[l]
    ensures k == l
  {
    hide Index, Permutation;
    IndexOf(groups, m, k);
    IndexOf(groups, m, l);
    PermutationRotates(groups, m, k);
    PermutationRotates(groups, m, l);
    SameNext(k % m, l % m, m);
  }

  lemma SameNext(i: nat, j: nat, m: nat)
    requires i < m && j < m && NextMode(i, m) == NextMode(j, m)
    ensures i == j
  {
    hide NextMode;
  }

  /** Every window is an image. */
  lemma {:induction false} PermutationIsSurjective(groups: nat, m: nat, k: nat)
    requires m >= 1 && k < groups * m
    ensures exists q: nat :: q < groups * m && Permutation(groups, m)[q] == k
  {
    hide Index, Permutation, NextMode;
    IndexOf(groups, m, k);
    var back := if k % m == 0 then m - 1 else k % m - 1;
    PermutationAt(groups, m, k / m, back);
    assert Permutation(groups, m)[Index(k / m, back, m)] == k;
  }

  /** On a group-major selection the permuted window has the same reset group and the next mode. */
  lemma {:induction false} PermutedWindow(windows: seq<Window>, modes: seq<string>, groups: seq<int>,
                                          out: seq<Window>, k: nat)
    requires modes != [] && GroupMajor(windows, modes, groups, out) && k < |out|
    ensures var p := Permutation(|groups|, |modes|)[k];
      && p < |out| && out[p].group == out[k].group
      && out[k].mode == modes[k % |modes|] && out[p].mode == modes[NextMode(k % |modes|, |modes|)]
  {
    PermutationRotates(|groups|, |modes|, k);
  }
}
