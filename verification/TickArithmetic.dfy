/** Control ticks counted in frames, for frames of `p / q` of a control period: when ticks happen, what an elapsed
    count between two of them is, and exactly when it counts them. */
module TickArithmetic {

  // ----- common divisors -----

  predicate CommonDivisor(d: nat, p: nat, q: nat) {
    d > 0 && p % d == 0 && q % d == 0
  }

  ghost predicate Coprime(p: nat, q: nat) {
    forall d: nat :: CommonDivisor(d, p, q) ==> d == 1
  }

  lemma DividesRemainder(a: nat, b: nat, g: nat)
    requires b > 0 && CommonDivisor(g, b, a % b)
    ensures a % g == 0
  {
    var k, r := b / g, (a % b) / g;
    assert b == g * k && a % b == g * r;
    calc {
      a;
      b * (a / b) + a % b;
      g * k * (a / b) + g * r;
      { MulAssociates(g, k, a / b); }
      g * (k * (a / b)) + g * r;
      g * (k * (a / b) + r);
    }
    MultipleDivides(g, k * (a / b) + r);
  }

  lemma MulAssociates(x: int, y: int, z: int)
    ensures x * y * z == x * (y * z)
  {
  }

  lemma MultipleDivides(g: int, k: int)
    requires g > 0
    ensures (g * k) % g == 0 && (k * g) % g == 0
  {
    Quotient(g * k, g, k, 0);
    assert g * k == k * g;
  }

  lemma Quotient(n: int, q: int, k: int, r: int)
    requires q > 0 && n == q * k + r && 0 <= r < q
    ensures n / q == k && n % q == r
  {
    var k' := n / q;
    assert n == q * k' + n % q;
    Grows(q, k + 1, k');
    Grows(q, k' + 1, k);
  }

  lemma Grows(q: int, a: int, b: int)
    requires q >= 0
    ensures a <= b ==> q * a <= q * b
  {
  }

  /** Euclid's algorithm, with the coefficients it leaves. */
  lemma Bezout(a: nat, b: nat) returns (x: int, y: int, g: nat)
    requires a > 0 || b > 0
    ensures CommonDivisor(g, a, b) && x * a + y * b == g
    decreases b
  {
    if b == 0 {
      x, y, g := 1, 0, a;
    } else {
      var x', y';
      x', y', g := Bezout(b, a % b);
      DividesRemainder(a, b, g);
      x, y := y', x' - y' * (a / b);
      calc {
        g;
        x' * b + y' * (a % b);
        { assert a % b == a - b * (a / b); }
        x' * b + y' * (a - b * (a / b));
        x' * b + y' * a - y' * (b * (a / b));
        { MulAssociates(y', a / b, b); }
        y' * a + (x' - y' * (a / b)) * b;
      }
    }
  }

  // ----- ticks and frames -----

  /** The frame on which tick `k` happens: the first one at or after `k` periods, or frame `k` if frames are longer. */
  function FrameOf(p: nat, q: nat, k: nat): nat
    requires p > 0
  {
    if p <= q then (k * q + p - 1) / p else k
  }

  /** How late tick `k` is, in q-ths of a period. */
  function Late(p: nat, q: nat, k: nat): int
    requires p > 0
  {
    FrameOf(p, q, k) * p - k * q
  }

  lemma CeilingRange(n: nat, p: nat)
    requires p > 0
    ensures n <= ((n + p - 1) / p) * p < n + p
  {
    var m := n + p - 1;
    assert m == p * (m / p) + m % p;
    assert p * (m / p) == (m / p) * p;
  }

  lemma LateRange(p: nat, q: nat, k: nat)
    requires p > 0
    ensures p <= q ==> 0 <= Late(p, q, k) < p
    ensures p > q ==> Late(p, q, k) == k * (p - q)
  {
    if p <= q {
      CeilingRange(k * q, p);
    }
  }

  /** The elapsed count between two ticks: their distance in periods, rounded half up. */
  function Elapsed(p: nat, q: nat, from: nat, to: nat): int
    requires p > 0 && q > 0
  {
    (2 * (FrameOf(p, q, to) - FrameOf(p, q, from)) * p + q) / (2 * q)
  }

  lemma SplitQuotient(w: int, k: int, x: int)
    requires w > 0
    ensures (w * k + x) / w == k + x / w
  {
    var d := x / w;
    assert x == w * d + x % w;
    assert w * k + w * d == w * (k + d);
    Quotient(w * k + x, w, k + d, x % w);
  }

  lemma SpreadDelays(a: int, b: int, p: int, q: int, to: int, from: int)
    ensures 2 * (a - b) * p + q == 2 * q * (to - from) + (2 * ((a * p - to * q) - (b * p - from * q)) + q)
  {
    assert (a - b) * p == a * p - b * p;
    assert q * (to - from) == to * q - from * q;
  }

  /** What an elapsed count gets wrong is what the two delays differ by, in whole periods. */
  lemma ElapsedDelays(p: nat, q: nat, from: nat, to: nat)
    requires p > 0 && q > 0
    ensures Elapsed(p, q, from, to) == to - from + (2 * (Late(p, q, to) - Late(p, q, from)) + q) / (2 * q)
  {
    hide FrameOf;
    SpreadDelays(FrameOf(p, q, to), FrameOf(p, q, from), p, q, to, from);
    SplitQuotient(2 * q, to - from, 2 * (Late(p, q, to) - Late(p, q, from)) + q);
  }

  /** `x` in q-ths of a period rounds half up to zero, to more, or to less. */
  lemma Rounds(x: int, q: nat)
    requires q > 0
    ensures (2 * x + q) / (2 * q) == 0 <==> 0 <= 2 * x + q && 2 * x < q
    ensures (2 * x + q) / (2 * q) > 0 <==> 2 * x >= q
    ensures x < q ==> (2 * x + q) / (2 * q) <= 1
    ensures x + q > 0 ==> (2 * x + q) / (2 * q) >= -1
  {
    var n, w := 2 * x + q, 2 * q;
    var k := n / w;
    assert n == w * k + n % w;
    Grows(w, 1, k);
    Grows(w, 2, k);
    Grows(w, k, -1);
    Grows(w, k, -2);
  }

  /** Ticks happen on different frames, in order. */
  lemma FramesInOrder(p: nat, q: nat, from: nat, to: nat)
    requires p > 0 && q > 0
    ensures from < to ==> FrameOf(p, q, from) < FrameOf(p, q, to)
  {
    if from < to && p <= q {
      LateRange(p, q, from);
      LateRange(p, q, to);
      Grows(q, from + 1, to);
      Grows(p, FrameOf(p, q, to), FrameOf(p, q, from));
      assert (from + 1) * q == from * q + q;
    }
  }

  // ----- when elapsed counts are exact -----

  predicate CountIs(p: nat, q: nat, limit: int, from: nat, to: nat)
    requires p > 0 && q > 0
  {
    Elapsed(p, q, from, to) < limit ==> Elapsed(p, q, from, to) == to - from
  }

  /** Every elapsed count below `limit` counts the ticks. */
  ghost predicate CountsTicks(p: nat, q: nat, limit: int)
    requires p > 0 && q > 0
  {
    forall from: nat, to: nat :: from <= to ==> CountIs(p, q, limit, from, to)
  }

  /** How much later, in q-ths of a period, a tick can be than the one `d` ticks before: this much, or `p` less. */
  function Drift(p: nat, q: nat, d: nat): nat
    requires p > 0
  {
    (-(d * q)) % p
  }

  /** No count over `d` ticks goes wrong short of `limit`: none comes out one too many, none one too few. */
  predicate CountFits(p: nat, q: nat, limit: int, d: nat)
    requires p > 0 && q > 0
  {
    if p <= q then
      && (d + 1 < limit ==> 2 * Drift(p, q, d) < q)
      && (Drift(p, q, d) > 0 ==> 2 * (p - Drift(p, q, d)) <= q)
    else (2 * d * p + q) / (2 * q) < limit ==> 2 * d * (p - q) < q
  }

  /** The condition a caller can check: at most `limit` comparisons of whole numbers. */
  predicate CountsFit(p: nat, q: nat, limit: int)
    requires p > 0 && q > 0
  {
    forall d: nat | 1 <= d <= limit :: CountFits(p, q, limit, d)
  }

  lemma ModuloUnique(n: int, p: nat, k: int, r: int)
    requires p > 0 && n == p * k + r && 0 <= r < p
    ensures n % p == r
  {
    Quotient(n, p, k, r);
  }

  /** A delay is what the ticks so far leave of a frame. */
  lemma LateIsDrift(p: nat, q: nat, k: nat)
    requires 0 < p <= q
    ensures Late(p, q, k) == Drift(p, q, k)
  {
    LateRange(p, q, k);
    ModuloUnique(-(k * q), p, 0 - FrameOf(p, q, k), Late(p, q, k));
  }

  /** Over `d` ticks a delay grows by the drift, or falls by what is missing from it to a frame. */
  lemma LateStep(p: nat, q: nat, k: nat, d: nat)
    requires 0 < p <= q
    ensures Late(p, q, k + d) == if Late(p, q, k) + Drift(p, q, d) < p then Late(p, q, k) + Drift(p, q, d)
                                 else Late(p, q, k) + Drift(p, q, d) - p
  {
    hide FrameOf;
    LateRange(p, q, k);
    LateIsDrift(p, q, k + d);
    SumOfResidues(p, q, k, d, FrameOf(p, q, k), Late(p, q, k));
  }

  lemma SumOfResidues(p: nat, q: nat, k: nat, d: nat, a: int, late: int)
    requires p > 0 && a * p - k * q == late && 0 <= late < p
    ensures Drift(p, q, k + d) == if late + Drift(p, q, d) < p then late + Drift(p, q, d) else late + Drift(p, q, d) - p
  {
    var b := (-(d * q)) / p;
    var sum := late + Drift(p, q, d);
    assert -(d * q) == p * b + Drift(p, q, d);
    assert (k + d) * q == k * q + d * q && p * (b - a) == p * b - a * p;
    assert -((k + d) * q) == p * (b - a) + sum;
    if sum < p {
      ModuloUnique(-((k + d) * q), p, b - a, sum);
    } else {
      assert p * (b - a + 1) == p * (b - a) + p;
      ModuloUnique(-((k + d) * q), p, b - a + 1, sum - p);
    }
  }

  /** Which counts over `d` ticks come out one too many and one too few, for short frames. */
  lemma CountErrors(p: nat, q: nat, from: nat, d: nat)
    requires 0 < p <= q
    ensures Late(p, q, from) + Drift(p, q, d) < p ==>
              Elapsed(p, q, from, from + d) == if 2 * Drift(p, q, d) < q then d else d + 1
    ensures Late(p, q, from) + Drift(p, q, d) >= p ==>
              Elapsed(p, q, from, from + d) == if 2 * (p - Drift(p, q, d)) <= q then d else d - 1
  {
    LateStep(p, q, from, d);
    ElapsedDelays(p, q, from, from + d);
    Rounds(Late(p, q, from + d) - Late(p, q, from), q);
  }

  lemma LongElapsedCount(p: nat, q: nat, from: nat, d: nat)
    requires p > q > 0
    ensures Elapsed(p, q, from, from + d) == (2 * d * p + q) / (2 * q)
  {
    assert from + d - from == d;
  }

  lemma ProductOfSum(a: int, b: int, c: int)
    ensures (a + b) * c == a * c + b * c
  {
  }

  /** With long frames every tick is a frame, and a count is never too small. */
  lemma LongElapsed(p: nat, q: nat, from: nat, d: nat)
    requires p > q > 0
    ensures Elapsed(p, q, from, from + d) == (2 * d * p + q) / (2 * q)
    ensures Elapsed(p, q, from, from + d) >= d
    ensures Elapsed(p, q, from, from + d) == d <==> 2 * d * (p - q) < q
  {
    hide Late, Elapsed;
    LongElapsedCount(p, q, from, d);
    ElapsedDelays(p, q, from, from + d);
    LateRange(p, q, from);
    LateRange(p, q, from + d);
    ProductOfSum(from, d, p - q);
    Grows(d, 0, p - q);
    MulAssociates(2, d, p - q);
    Rounds(d * (p - q), q);
  }

  /** Some tick comes as late as any can. */
  lemma LatestTick(p: nat, q: nat) returns (k: nat)
    requires 0 < p <= q && Coprime(p, q)
    ensures Late(p, q, k) == p - 1
  {
    var x, y, g := Bezout(p, q);
    assert g == 1;
    k := InverseOf(p, q, x, y);
    LateIsDrift(p, q, k);
  }

  lemma InverseOf(p: nat, q: nat, x: int, y: int) returns (k: nat)
    requires 0 < p <= q && x * p + y * q == 1
    ensures Drift(p, q, k) == p - 1
  {
    k := y % p;
    var m := y / p;
    assert y == p * m + k;
    calc {
      -(k * q);
      -((y - p * m) * q);
      -(y * q) + p * m * q;
      { MulAssociates(p, m, q); }
      x * p - 1 + p * (m * q);
      p * (x + m * q - 1) + (p - 1);
    }
    ModuloUnique(-(k * q), p, x + m * q - 1, p - 1);
  }

  /** The finite condition is exact. */
  lemma CountsTicksIff(p: nat, q: nat, limit: int)
    requires p > 0 && q > 0 && Coprime(p, q)
    ensures CountsTicks(p, q, limit) <==> CountsFit(p, q, limit)
  {
    hide Coprime, CommonDivisor, Late, Elapsed, Drift;
    if CountsFit(p, q, limit) {
      forall from: nat, to: nat | from <= to ensures CountIs(p, q, limit, from, to) {
        FitsMeansCounts(p, q, limit, from, to - from);
      }
    } else {
      var d: nat :| 1 <= d <= limit && !CountFits(p, q, limit, d);
      var from := Miscount(p, q, limit, d);
      assert !CountIs(p, q, limit, from, from + d);
    }
  }

  lemma FitsMeansCounts(p: nat, q: nat, limit: int, from: nat, d: nat)
    requires p > 0 && q > 0 && CountsFit(p, q, limit)
    ensures CountIs(p, q, limit, from, from + d)
  {
    hide CountIs, CountFits;
    if d == 0 {
      ElapsedNothing(p, q, from);
      CountedRight(p, q, limit, from, d);
    } else {
      assert d <= limit ==> CountFits(p, q, limit, d);
      if p <= q {
        ShortFits(p, q, limit, from, d);
      } else {
        LongFits(p, q, limit, from, d);
      }
    }
  }

  lemma CountedRight(p: nat, q: nat, limit: int, from: nat, d: nat)
    requires p > 0 && q > 0
    requires Elapsed(p, q, from, from + d) < limit ==> Elapsed(p, q, from, from + d) == d
    ensures CountIs(p, q, limit, from, from + d)
  {
    hide Elapsed;
  }

  lemma ShortFits(p: nat, q: nat, limit: int, from: nat, d: nat)
    requires 0 < p <= q && d > 0 && (d <= limit ==> CountFits(p, q, limit, d))
    ensures CountIs(p, q, limit, from, from + d)
  {
    hide Late, Elapsed, Drift, CountIs;
    LateRange(p, q, from);
    CountErrors(p, q, from, d);
    CountedRight(p, q, limit, from, d);
  }

  lemma LongFits(p: nat, q: nat, limit: int, from: nat, d: nat)
    requires p > q > 0 && d > 0 && (d <= limit ==> CountFits(p, q, limit, d))
    ensures CountIs(p, q, limit, from, from + d)
  {
    hide Late, Elapsed, CountIs;
    LongElapsed(p, q, from, d);
    CountedRight(p, q, limit, from, d);
  }

  lemma ElapsedNothing(p: nat, q: nat, from: nat)
    requires p > 0 && q > 0
    ensures Elapsed(p, q, from, from) == 0
  {
    hide FrameOf, Late;
    ElapsedDelays(p, q, from, from);
    Rounds(0, q);
  }

  lemma FirstTick(p: nat, q: nat)
    requires p > 0
    ensures Late(p, q, 0) == 0 && FrameOf(p, q, 0) == 0
  {
    LateRange(p, q, 0);
    if p <= q {
      ModuloUnique(p - 1, p, 0, p - 1);
      Quotient(p - 1, p, 0, p - 1);
    }
  }

  lemma DriftRange(p: nat, q: nat, d: nat)
    requires p > 0
    ensures Drift(p, q, d) < p
  {
  }

  /** A tick from which a count over `d` ticks goes wrong. */
  lemma Miscount(p: nat, q: nat, limit: int, d: nat) returns (from: nat)
    requires p > 0 && q > 0 && Coprime(p, q) && 1 <= d <= limit && !CountFits(p, q, limit, d)
    ensures !CountIs(p, q, limit, from, from + d)
  {
    hide Late, Drift, Elapsed, Coprime;
    from := 0;
    DriftRange(p, q, d);
    if p > q {
      LongElapsed(p, q, 0, d);
    } else {
      if Drift(p, q, d) > 0 && 2 * (p - Drift(p, q, d)) > q {
        from := LatestTick(p, q);
      } else {
        FirstTick(p, q);
      }
      CountErrors(p, q, from, d);
    }
  }

  /** Counted from the first tick an elapsed count is never too small. */
  lemma StaleFromStart(p: nat, q: nat, k: nat)
    requires p > 0 && q > 0
    ensures Elapsed(p, q, 0, k) >= k
  {
    hide FrameOf, Elapsed, Late;
    FirstTick(p, q);
    LateRange(p, q, k);
    Grows(k, 0, p - q);
    ElapsedDelays(p, q, 0, k);
    Rounds(Late(p, q, k), q);
  }

  /** `n * p` ticks later everything is as late as before. */
  lemma LateRepeats(p: nat, q: nat, k: nat, n: nat)
    requires 0 < p <= q
    ensures Late(p, q, k + n * p) == Late(p, q, k)
  {
    LateIsDrift(p, q, k);
    LateIsDrift(p, q, k + n * p);
    assert -((k + n * p) * q) == -(k * q) + p * (-(n * q)) by {
      ProductOfSum(k, n * p, q);
      assert n * p * q == p * (n * q);
    }
    SplitRemainder(p, -(n * q), -(k * q));
  }

  lemma SplitRemainder(w: int, k: int, x: int)
    requires w > 0
    ensures (x + w * k) % w == x % w
  {
    var d := x / w;
    assert x == w * d + x % w;
    assert w * k + w * d == w * (k + d);
    Quotient(x + w * k, w, k + d, x % w);
  }

  /** Counts only depend on how late the first tick is. */
  lemma SameCounts(p: nat, q: nat, a: nat, b: nat, d: nat)
    requires p > 0 && q > 0 && (p <= q ==> Late(p, q, a) == Late(p, q, b))
    ensures Elapsed(p, q, a, a + d) == Elapsed(p, q, b, b + d)
  {
    hide Late, Elapsed, Drift;
    if p <= q {
      CountErrors(p, q, a, d);
      CountErrors(p, q, b, d);
    } else {
      LongElapsed(p, q, a, d);
      LongElapsed(p, q, b, d);
    }
  }

  /** A wrong count happens again, from a tick at or after `limit`. */
  lemma LaterMiscount(p: nat, q: nat, limit: nat) returns (d: nat, from: nat)
    requires p > 0 && q > 0 && Coprime(p, q) && !CountsFit(p, q, limit)
    ensures 1 <= d && limit <= from && !CountIs(p, q, limit, from, from + d)
  {
    hide Late, Elapsed, Drift, Coprime, CountFits;
    d :| 1 <= d <= limit && !CountFits(p, q, limit, d);
    var first := Miscount(p, q, limit, d);
    from := first + limit * p;
    Grows(limit, 1, p);
    if p <= q {
      LateRepeats(p, q, first, limit);
    }
    SameCounts(p, q, first, from, d);
  }

  /** The limit matters: with frames of 101/200 of a period counts over fewer than 32 ticks are exact, although
      ticks come up to half a period late and counts over 50 ticks go wrong. */
  lemma LimitMatters()
    ensures CountsFit(101, 200, 32) && !CountsFit(101, 200, 64)
  {
    forall d: nat | 1 <= d <= 32 ensures CountFits(101, 200, 32, d) {
      ModuloUnique(-(d * 200), 101, -2 * d, 2 * d);
    }
    ModuloUnique(-(50 * 200), 101, -100, 100);
    assert !CountFits(101, 200, 64, 50);
  }
}
