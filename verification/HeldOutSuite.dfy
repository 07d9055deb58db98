/** The fixed held-out suite, shared out over ranks and put together again. */
module HeldOutSuite {

  /** A reset seed and a diffusion seed. */
  type Pair = (int, int)

  /** `suite[rank :: worldSize]`. */
  function Strided<T>(s: seq<T>, rank: nat, worldSize: nat): seq<T>
    requires worldSize >= 1
    decreases |s| - rank
  {
    if rank >= |s| then [] else [s[rank]] + Strided(s, rank + worldSize, worldSize)
  }

  /** The results of ranks `rank` and up, in rank order. `evaluate` is one seeded rollout. */
  function Gathered<R>(suite: seq<Pair>, evaluate: Pair -> R, rank: nat, worldSize: nat): seq<R>
    requires worldSize >= 1 && rank <= worldSize
    decreases worldSize - rank
  {
    if rank == worldSize then [] else Results(Strided(suite, rank, worldSize), evaluate) + Gathered(suite, evaluate, rank + 1, worldSize)
  }

  function Results<R>(pairs: seq<Pair>, evaluate: Pair -> R): (r: seq<R>)
    ensures |r| == |pairs|
  {
    seq(|pairs|, i requires 0 <= i < |pairs| => evaluate(pairs[i]))
  }

  /** The rank a suite index falls to. */
  function Residue(n: nat, w: nat): (r: nat)
    requires w >= 1
    ensures r < w
  {
    if n < w then n else Residue(n - w, w)
  }

  /** A rank's slice grows by the last pair exactly when the pair's index falls to it. */
  lemma {:induction false} StridedSnoc<T>(s: seq<T>, last: T, rank: nat, worldSize: nat)
    requires worldSize >= 1
    ensures Strided(s + [last], rank, worldSize)
         == Strided(s, rank, worldSize) + if rank <= |s| && Residue(|s| - rank, worldSize) == 0 then [last] else []
    decreases |s| - rank
  {
    if rank < |s| {
      StridedSnoc(s, last, rank + worldSize, worldSize);
      assert (s + [last])[rank] == s[rank];
    }
  }

  lemma {:induction false} Owner(n: nat, rank: nat, worldSize: nat)
    requires worldSize >= 1 && rank < worldSize
    ensures (rank <= n && Residue(n - rank, worldSize) == 0) <==> Residue(n, worldSize) == rank
  {
    if n >= worldSize {
      Owner(n - worldSize, rank, worldSize);
    }
  }

  /** One rank's results with one more pair in the suite. */
  lemma {:induction false} ResultsSnoc<R>(suite: seq<Pair>, last: Pair, evaluate: Pair -> R, rank: nat, worldSize: nat)
    requires worldSize >= 1 && rank < worldSize
    ensures Results(Strided(suite + [last], rank, worldSize), evaluate)
         == Results(Strided(suite, rank, worldSize), evaluate) + if Residue(|suite|, worldSize) == rank then [evaluate(last)] else []
  {
    StridedSnoc(suite, last, rank, worldSize);
    Owner(|suite|, rank, worldSize);
    var mine := Strided(suite, rank, worldSize);
    assert Results(mine + [last], evaluate) == Results(mine, evaluate) + [evaluate(last)];
    assert mine + [] == mine;
  }

  lemma {:induction false} GatheredSnoc<R>(suite: seq<Pair>, last: Pair, evaluate: Pair -> R, rank: nat, worldSize: nat)
    requires worldSize >= 1 && rank <= worldSize
    ensures multiset(Gathered(suite + [last], evaluate, rank, worldSize))
         == multiset(Gathered(suite, evaluate, rank, worldSize))
            + if rank <= Residue(|suite|, worldSize) then multiset{evaluate(last)} else multiset{}
    decreases worldSize - rank
  {
    if rank < worldSize {
      hide Strided, Results;
      GatheredSnoc(suite, last, evaluate, rank + 1, worldSize);
      ResultsSnoc(suite, last, evaluate, rank, worldSize);
    }
  }

  /** For every world size the ranks partition the suite: each pair is evaluated by exactly one rank, once. */
  lemma {:induction false} RanksPartition<R>(suite: seq<Pair>, evaluate: Pair -> R, worldSize: nat)
    requires worldSize >= 1
    ensures multiset(Gathered(suite, evaluate, 0, worldSize)) == multiset(Results(suite, evaluate))
  {
    if suite == [] {
      NothingGathered(evaluate, 0, worldSize);
    } else {
      var front, last := suite[..|suite| - 1], suite[|suite| - 1];
      assert front + [last] == suite;
      RanksPartition(front, evaluate, worldSize);
      GatheredSnoc(front, last, evaluate, 0, worldSize);
      assert Results(suite, evaluate) == Results(front, evaluate) + [evaluate(last)];
    }
  }

  lemma {:induction false} NothingGathered<R>(evaluate: Pair -> R, rank: nat, worldSize: nat)
    requires worldSize >= 1 && rank <= worldSize
    ensures Gathered([], evaluate, rank, worldSize) == []
    decreases worldSize - rank
  {
    if rank < worldSize {
      NothingGathered(evaluate, rank + 1, worldSize);
    }
  }

  // ----- the combined list -----

  /** An episode result with the pair it was run for. */
  datatype Episode<R> = Episode(pair: Pair, result: R)

  predicate Below(a: Pair, b: Pair) {
    a.0 < b.0 || (a.0 == b.0 && a.1 < b.1)
  }

  predicate Ordered<R>(s: seq<Episode<R>>) {
    forall i, j :: 0 <= i < j < |s| ==> !Below(s[j].pair, s[i].pair)
  }

  /** `combined.sort(key=...)` of what the ranks sent. */
  ghost predicate IsCombined<R>(combined: seq<Episode<R>>, gathered: seq<Episode<R>>) {
    Ordered(combined) && multiset(combined) == multiset(gathered)
  }

  ghost predicate DistinctPairs<R>(s: seq<Episode<R>>) {
    forall a, b :: a in multiset(s) && b in multiset(s) && a.pair == b.pair ==> a == b
  }

  lemma RestOf<R>(s: seq<Episode<R>>)
    requires s != [] && Ordered(s)
    ensures s == [s[0]] + s[1..]
    ensures multiset(s[1..]) == multiset(s) - multiset{s[0]}
    ensures Ordered(s[1..])
  {
    assert s == [s[0]] + s[1..];
    forall i, j | 0 <= i < j < |s[1..]| ensures !Below(s[1..][j].pair, s[1..][i].pair) {
      assert s[1..][i] == s[i + 1] && s[1..][j] == s[j + 1];
    }
  }

  lemma StillDistinct<R>(s: seq<Episode<R>>)
    requires s != [] && DistinctPairs(s)
    ensures DistinctPairs(s[1..])
  {
    forall e | e in multiset(s[1..]) ensures e in multiset(s) {
      var i :| 0 <= i < |s[1..]| && s[1..][i] == e;
      assert s[i + 1] == e;
    }
  }

  /** Sorting by pair leaves no choice when equal pairs mean equal episodes. */
  lemma {:induction false} SortedIsUnique<R>(a: seq<Episode<R>>, b: seq<Episode<R>>)
    requires Ordered(a) && Ordered(b) && multiset(a) == multiset(b) && DistinctPairs(a)
    ensures a == b
  {
    if a == [] {
      assert |multiset(b)| == 0;
    } else {
      assert b != [] by {
        assert a[0] in multiset(a);
      }
      assert a[0] in multiset(b) && b[0] in multiset(a);
      SameFirst(a, b);
      RestOf(a);
      RestOf(b);
      StillDistinct(a);
      SortedIsUnique(a[1..], b[1..]);
    }
  }

  lemma SameFirst<R>(a: seq<Episode<R>>, b: seq<Episode<R>>)
    requires a != [] && b != [] && Ordered(a) && Ordered(b) && multiset(a) == multiset(b) && DistinctPairs(a)
    requires a[0] in multiset(b) && b[0] in multiset(a)
    ensures a[0] == b[0]
  {
    var i :| 0 <= i < |b| && b[i] == a[0];
    var j :| 0 <= j < |a| && a[j] == b[0];
    assert !Below(a[0].pair, b[0].pair) && !Below(b[0].pair, a[0].pair);
  }

  /** A seeded rollout, tagged with its pair. */
  function Tagged<R>(rollout: Pair -> R): Pair -> Episode<R> {
    (p: Pair) => Episode(p, rollout(p))
  }

  /** The combined episode list does not depend on the world size: it is the single process's list. */
  lemma {:induction false} WorldSizeInvisible<R>(suite: seq<Pair>, rollout: Pair -> R, worldSize: nat,
                                                 combined: seq<Episode<R>>, alone: seq<Episode<R>>)
    requires worldSize >= 1
    requires IsCombined(combined, Gathered(suite, Tagged(rollout), 0, worldSize))
    requires IsCombined(alone, Gathered(suite, Tagged(rollout), 0, 1))
    ensures combined == alone
  {
    RanksPartition(suite, Tagged(rollout), worldSize);
    RanksPartition(suite, Tagged(rollout), 1);
    var all := Results(suite, Tagged(rollout));
    forall e | e in multiset(combined) ensures e == Episode(e.pair, rollout(e.pair)) {
      assert e in multiset(all);
      var i :| 0 <= i < |all| && all[i] == e;
    }
    SortedIsUnique(combined, alone);
  }
}
