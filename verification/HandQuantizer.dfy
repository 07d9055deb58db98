/** The 8-bit hand report and its bisection inverse, in exact arithmetic. */
module HandQuantizer {
  import opened Rounding

  /** One joint: the policy's command limits and the SDK calibration that quantizes it. */
  datatype Joint = Joint(
    commandLower: real,
    commandUpper: real,
    observationLower: real,
    sdkLower: real,
    sdkUpper: real,
    rawReversed: bool)
  {
    function Range(): real { commandUpper - commandLower }
  }

  /** Policy joint order; a joint without an observation floor keeps its command lower limit there. */
  const JOINTS: seq<Joint> := [
    Joint(0.0, 0.5146, 0.0, 0.0, 0.75, true),
    Joint(0.0, 1.9189, 0.0, 0.0, 1.43, true),
    Joint(0.0, 1.3607, 0.005336078431372549, 0.0, 1.62, true),
    Joint(0.0, 1.3607, 0.005336078431372549, 0.0, 1.62, true),
    Joint(0.0, 1.3607, 0.005336078431372549, 0.0, 1.62, true),
    Joint(0.0, 1.3607, 0.005336078431372549, 0.0, 1.62, true),
    Joint(0.0, 0.2181, 0.0, -0.26, 0.21, false),
    Joint(0.0, 0.2181, 0.0, 0.0, 0.21, false),
    Joint(0.0, 0.3489, 0.0, 0.0, 0.34, false),
    Joint(0.0, 1.1339, 0.0, -0.52, 1.01, true)
  ]

  function Abs(x: real): real { if x < 0.0 then -x else x }

  function Clip(x: real, lower: real, upper: real): real {
    var raised := if x < lower then lower else x;
    if raised > upper then upper else raised
  }

  function ScaleLinear(value: real, srcMin: real, srcMax: real, dstMin: real, dstMax: real): real {
    if Abs(srcMax - srcMin) < 0.000000001 then dstMin
    else (value - srcMin) * (dstMax - dstMin) / (srcMax - srcMin) + dstMin
  }

  /** The byte sent for one commanded joint value. */
  function RawFromCommand(j: Joint, command: real): int {
    var value := Clip(command, j.commandLower, j.commandUpper);
    var ratio := ScaleLinear(value, j.commandLower, j.commandUpper, 0.0, 1.0);
    var sdk := Clip(ScaleLinear(ratio, 0.0, 1.0, j.sdkLower, j.sdkUpper), j.sdkLower, j.sdkUpper);
    var raw := if j.rawReversed then ScaleLinear(sdk, j.sdkLower, j.sdkUpper, 255.0, 0.0)
               else ScaleLinear(sdk, j.sdkLower, j.sdkUpper, 0.0, 255.0);
    RoundHalfEven(Clip(raw, 0.0, 255.0))
  }

  /** The joint value reported back for a byte. */
  function ReportFromRaw(j: Joint, raw: int): real {
    var sdk := if j.rawReversed then ScaleLinear(raw as real, 255.0, 0.0, j.sdkLower, j.sdkUpper)
               else ScaleLinear(raw as real, 0.0, 255.0, j.sdkLower, j.sdkUpper);
    var ratio := ScaleLinear(Clip(sdk, j.sdkLower, j.sdkUpper), j.sdkLower, j.sdkUpper, 0.0, 1.0);
    var value := Clip(ScaleLinear(ratio, 0.0, 1.0, j.commandLower, j.commandUpper), j.commandLower, j.commandUpper);
    if value < j.observationLower then j.observationLower else value
  }

  /** The whole report: shorter vectors are padded with zeros, longer ones are cut. */
  function ReportedHand(command: seq<real>): seq<real> {
    seq(|JOINTS|, i requires 0 <= i < |JOINTS| =>
      ReportFromRaw(JOINTS[i], RawFromCommand(JOINTS[i], if i < |command| then command[i] else 0.0)))
  }

  /** Report of one joint when it alone is commanded. */
  function ReportedAt(joint: nat, command: real): real
    requires joint < |JOINTS|
  {
    ReportedHand(seq(|JOINTS|, i => 0.0)[joint := command])[joint]
  }

  // ----- closed form -----

  predicate Calibrated(j: Joint) {
    && 0.001 <= j.Range()
    && 0.001 <= j.sdkUpper - j.sdkLower
    && j.commandLower <= j.observationLower <= j.commandUpper
  }

  lemma EveryJointCalibrated(joint: nat)
    requires joint < |JOINTS|
    ensures Calibrated(JOINTS[joint])
  {
  }

  /** Fraction of the command range covered by a command. */
  function Fraction(j: Joint, command: real): real
    requires Calibrated(j)
  {
    (Clip(command, j.commandLower, j.commandUpper) - j.commandLower) / j.Range()
  }

  /** Report level 0..255, counted upward in the command whatever the byte's orientation. */
  function Level(j: Joint, command: real): int
    requires Calibrated(j)
  {
    if j.rawReversed then 255 - RoundHalfEven(255.0 - 255.0 * Fraction(j, command))
    else RoundHalfEven(255.0 * Fraction(j, command))
  }

  function LevelReport(j: Joint, level: int): real {
    var value := j.commandLower + level as real * j.Range() / 255.0;
    if value < j.observationLower then j.observationLower else value
  }

  lemma DivCancel(a: real, b: real)
    requires b != 0.0
    ensures a * b / b == a
  {
  }

  lemma FractionBounds(j: Joint, command: real)
    requires Calibrated(j)
    ensures 0.0 <= Fraction(j, command) <= 1.0
    ensures 0 <= Level(j, command) <= 255
  {
    var r := Fraction(j, command);
    var v := Clip(command, j.commandLower, j.commandUpper) - j.commandLower;
    DivCancel(r, j.Range());
    assert r * j.Range() == v;
    assert 0.0 <= v <= j.Range();
    assert 0.0 <= r <= 1.0;
    RoundHalfEvenMonotone(0.0, 255.0 * r);
    RoundHalfEvenMonotone(255.0 * r, 255.0);
    RoundHalfEvenMonotone(255.0 - 255.0 * r, 255.0);
    RoundHalfEvenMonotone(0.0, 255.0 - 255.0 * r);
    Nearest(255.0, 255);
    Nearest(0.0, 0);
  }

  /** `x` and `y` lie at the same fraction `t` of the two intervals: scaling takes one to the other. */
  lemma ScaleAt(t: real, x: real, srcMin: real, srcMax: real, y: real, dstMin: real, dstMax: real)
    requires Abs(srcMax - srcMin) >= 0.001
    requires x == srcMin + t * (srcMax - srcMin) && y == dstMin + t * (dstMax - dstMin)
    ensures ScaleLinear(x, srcMin, srcMax, dstMin, dstMax) == y
  {
    var width, d := srcMax - srcMin, dstMax - dstMin;
    assert (x - srcMin) * d == t * d * width;
    DivCancel(t * d, width);
  }

  lemma MulBounds(t: real, width: real)
    requires 0.0 <= t <= 1.0 && 0.0 <= width
    ensures 0.0 <= t * width <= width
  {
    assert (1.0 - t) * width >= 0.0;
  }

  /** A fraction survives the trip onto an interval and back, and clipping there does nothing. */
  lemma UnitLeg(t: real, x: real, lower: real, upper: real)
    requires 0.0 <= t <= 1.0 && upper - lower >= 0.001 && x == lower + t * (upper - lower)
    ensures lower <= x <= upper
    ensures ScaleLinear(t, 0.0, 1.0, lower, upper) == x
    ensures ScaleLinear(x, lower, upper, 0.0, 1.0) == t
  {
    ScaleAt(t, t, 0.0, 1.0, x, lower, upper);
    ScaleAt(t, x, lower, upper, t, 0.0, 1.0);
    MulBounds(t, upper - lower);
  }

  /** The byte orientation: either way, a fraction and its byte position correspond. */
  lemma ByteLeg(t: real, x: real, lower: real, upper: real)
    requires upper - lower >= 0.001 && x == lower + t * (upper - lower)
    ensures ScaleLinear(x, lower, upper, 0.0, 255.0) == 255.0 * t
    ensures ScaleLinear(x, lower, upper, 255.0, 0.0) == 255.0 - 255.0 * t
    ensures ScaleLinear(255.0 * t, 0.0, 255.0, lower, upper) == x
    ensures ScaleLinear(255.0 - 255.0 * t, 255.0, 0.0, lower, upper) == x
  {
    ScaleAt(t, x, lower, upper, 255.0 * t, 0.0, 255.0);
    ScaleAt(t, x, lower, upper, 255.0 - 255.0 * t, 255.0, 0.0);
    ScaleAt(t, 255.0 * t, 0.0, 255.0, x, lower, upper);
    ScaleAt(t, 255.0 - 255.0 * t, 255.0, 0.0, x, lower, upper);
  }

  lemma RawAtFraction(j: Joint, command: real, r: real)
    requires Calibrated(j) && 0.0 <= r <= 1.0
    requires Clip(command, j.commandLower, j.commandUpper) == j.commandLower + r * (j.commandUpper - j.commandLower)
    ensures RawFromCommand(j, command) == RoundHalfEven(if j.rawReversed then 255.0 - 255.0 * r else 255.0 * r)
  {
    UnitLeg(r, Clip(command, j.commandLower, j.commandUpper), j.commandLower, j.commandUpper);
    var sdk := j.sdkLower + r * (j.sdkUpper - j.sdkLower);
    UnitLeg(r, sdk, j.sdkLower, j.sdkUpper);
    ByteLeg(r, sdk, j.sdkLower, j.sdkUpper);
  }

  lemma RawClosedForm(j: Joint, command: real)
    requires Calibrated(j)
    ensures RawFromCommand(j, command) == if j.rawReversed then 255 - Level(j, command) else Level(j, command)
  {
    hide RoundHalfEven;
    var r := Fraction(j, command);
    FractionBounds(j, command);
    DivCancel(r, j.Range());
    assert Clip(command, j.commandLower, j.commandUpper) == j.commandLower + r * j.Range();
    RawAtFraction(j, command, r);
  }

  lemma ReportClosedForm(j: Joint, level: int)
    requires Calibrated(j) && 0 <= level <= 255
    ensures ReportFromRaw(j, if j.rawReversed then 255 - level else level) == LevelReport(j, level)
  {
    var t := level as real / 255.0;
    var sdk := j.sdkLower + t * (j.sdkUpper - j.sdkLower);
    ByteLeg(t, sdk, j.sdkLower, j.sdkUpper);
    UnitLeg(t, sdk, j.sdkLower, j.sdkUpper);
    UnitLeg(t, j.commandLower + t * j.Range(), j.commandLower, j.commandUpper);
    assert t * j.Range() == level as real * j.Range() / 255.0;
  }

  /** The vector pipeline through bytes is a staircase over `Level`. */
  lemma ReportIsStaircase(joint: nat, command: real)
    requires joint < |JOINTS|
    ensures Calibrated(JOINTS[joint])
    ensures ReportedAt(joint, command) == LevelReport(JOINTS[joint], Level(JOINTS[joint], command))
  {
    EveryJointCalibrated(joint);
    FractionBounds(JOINTS[joint], command);
    RawClosedForm(JOINTS[joint], command);
    ReportClosedForm(JOINTS[joint], Level(JOINTS[joint], command));
  }

  // ----- monotonicity and thresholds -----

  lemma FractionMonotone(j: Joint, low: real, high: real)
    requires Calibrated(j) && low <= high
    ensures Fraction(j, low) <= Fraction(j, high)
  {
    var a := Clip(low, j.commandLower, j.commandUpper) - j.commandLower;
    var b := Clip(high, j.commandLower, j.commandUpper) - j.commandLower;
    DivMonotone(a, b, j.Range());
  }

  lemma DivMonotone(a: real, b: real, d: real)
    requires a <= b && d > 0.0
    ensures a / d <= b / d
  {
    assert b / d - a / d == (b - a) / d;
  }

  lemma LevelMonotone(j: Joint, low: real, high: real)
    requires Calibrated(j) && low <= high
    ensures Level(j, low) <= Level(j, high)
  {
    FractionMonotone(j, low, high);
    var a, b := 255.0 * Fraction(j, low), 255.0 * Fraction(j, high);
    RoundHalfEvenMonotone(a, b);
    RoundHalfEvenMonotone(255.0 - b, 255.0 - a);
  }

  lemma LevelReportMonotone(j: Joint, low: int, high: int)
    requires Calibrated(j) && low <= high
    ensures LevelReport(j, low) <= LevelReport(j, high)
    ensures LevelReport(j, high) <= LevelReport(j, low) + (high - low) as real * j.Range() / 255.0
  {
    var gap := (high - low) as real * j.Range() / 255.0;
    assert gap >= 0.0;
    assert high as real * j.Range() / 255.0 == low as real * j.Range() / 255.0 + gap;
  }

  /** The report never decreases when the command increases. */
  lemma ReportMonotone(joint: nat, low: real, high: real)
    requires joint < |JOINTS| && low <= high
    ensures ReportedAt(joint, low) <= ReportedAt(joint, high)
  {
    var j := JOINTS[joint];
    ReportIsStaircase(joint, low);
    ReportIsStaircase(joint, high);
    LevelMonotone(j, low, high);
    LevelReportMonotone(j, Level(j, low), Level(j, high));
  }

  /** The command at which level `n` starts: half a byte below it. */
  function Threshold(j: Joint, n: int): real {
    j.commandLower + (n as real - 0.5) * j.Range() / 255.0
  }

  /** A command reaches level `n` exactly when it lies above the threshold, or on it with the tie going up. */
  lemma LevelThreshold(j: Joint, n: int, command: real)
    requires Calibrated(j) && 1 <= n <= 255 && j.commandLower <= command <= j.commandUpper
    ensures Level(j, command) >= n <==>
            command > Threshold(j, n) || (command == Threshold(j, n) && (n % 2 == 0 <==> !j.rawReversed))
  {
    var a := 255.0 * Fraction(j, command);
    var offset := command - j.commandLower;
    DivCancel(Fraction(j, command), j.Range());
    assert a * j.Range() == 255.0 * offset;
    var t := (n as real - 0.5) * j.Range();
    assert Threshold(j, n) - j.commandLower == t / 255.0;
    var gap := a - (n as real - 0.5);
    assert gap * j.Range() == 255.0 * offset - t;
    assert command > Threshold(j, n) <==> gap * j.Range() > 0.0;
    assert command == Threshold(j, n) <==> gap * j.Range() == 0.0;
    assert gap * j.Range() > 0.0 <==> gap > 0.0;
    assert gap * j.Range() == 0.0 <==> gap == 0.0;
    LevelAtPosition(j.rawReversed, n, a);
  }

  lemma LevelAtPosition(reversed: bool, n: int, a: real)
    requires 0.0 <= a <= 255.0
    ensures (if reversed then 255 - RoundHalfEven(255.0 - a) else RoundHalfEven(a)) >= n <==>
            a > n as real - 0.5 || (a == n as real - 0.5 && (n % 2 == 0 <==> !reversed))
  {
    if reversed {
      var m := 255 - n;
      assert RoundHalfEven(255.0 - a) <= m <==> 255.0 - a < m as real + 0.5 || (255.0 - a == m as real + 0.5 && m % 2 == 0);
    }
  }

  /** A target has a least command reaching it exactly when its first reaching level starts with a tie that
      rounds up; otherwise the reaching commands have only an infimum, the threshold. */
  lemma LeastCommandExistsIff(j: Joint, n: int)
    requires Calibrated(j) && 1 <= n <= 255
    ensures j.commandLower < Threshold(j, n) < j.commandUpper
    ensures (exists c :: IsLeastReaching(j, n, c)) <==> (n % 2 == 0 <==> !j.rawReversed)
  {
    ThresholdInside(j, n);
    LevelThreshold(j, n, Threshold(j, n));
    if n % 2 == 0 <==> !j.rawReversed {
      forall c | j.commandLower <= c < Threshold(j, n) ensures Level(j, c) < n {
        LevelThreshold(j, n, c);
      }
      assert IsLeastReaching(j, n, Threshold(j, n));
    } else {
      forall c ensures !IsLeastReaching(j, n, c) {
        if j.commandLower <= c <= j.commandUpper && Level(j, c) >= n {
          LevelThreshold(j, n, c);
          var below := (c + Threshold(j, n)) / 2.0;
          LevelThreshold(j, n, below);
          assert j.commandLower <= below < c && Level(j, below) >= n;
        }
      }
    }
  }

  ghost predicate IsLeastReaching(j: Joint, n: int, c: real)
    requires Calibrated(j)
  {
    && j.commandLower <= c <= j.commandUpper
    && Level(j, c) >= n
    && forall lower :: j.commandLower <= lower < c ==> Level(j, lower) < n
  }

  lemma ThresholdInside(j: Joint, n: int)
    requires Calibrated(j) && 1 <= n <= 255
    ensures j.commandLower < Threshold(j, n) < j.commandUpper
  {
    var x := n as real - 0.5;
    var t := x * j.Range();
    assert t > 0.0;
    assert (255.0 - x) * j.Range() > 0.0;
    assert t < 255.0 * j.Range();
    assert Threshold(j, n) == j.commandLower + t / 255.0;
  }

  // ----- bisection -----

  function Halved(width: real, times: nat): real {
    if times == 0 then width else Halved(width, times - 1) / 2.0
  }

  lemma {:induction false} HalvedEighteenTimes(width: real)
    ensures Halved(width, 18) == width / 262144.0
  {
    HalvedSixMore(width, 0);
    HalvedSixMore(width, 6);
    HalvedSixMore(width, 12);
  }

  lemma HalvedSixMore(width: real, times: nat)
    ensures Halved(width, times + 6) == Halved(width, times) / 64.0
  {
    assert Halved(width, times + 2) == Halved(width, times + 1) / 2.0;
    assert Halved(width, times + 4) == Halved(width, times + 3) / 2.0;
    assert Halved(width, times + 6) == Halved(width, times + 5) / 2.0;
  }

  /** The target as the bisection sees it: clipped to the reports at the two command limits. */
  function ClippedTarget(joint: nat, target: real): real
    requires joint < |JOINTS|
  {
    var j := JOINTS[joint];
    Clip(target, ReportedAt(joint, j.commandLower), ReportedAt(joint, j.commandUpper))
  }

  /** Half the width left after eighteen halvings. */
  function Tolerance(j: Joint): real {
    j.Range() / 524288.0
  }

  lemma FractionGap(j: Joint, low: real, high: real)
    requires Calibrated(j)
    requires j.commandLower <= low <= high <= j.commandUpper && high - low <= j.Range() / 262144.0
    ensures 0.0 <= Fraction(j, high) - Fraction(j, low) <= 1.0 / 262144.0
  {
    FractionMonotone(j, low, high);
    var gap := Fraction(j, high) - Fraction(j, low);
    DivCancel(Fraction(j, high), j.Range());
    DivCancel(Fraction(j, low), j.Range());
    assert gap * j.Range() == high - low;
    assert (1.0 / 262144.0 - gap) * j.Range() >= 0.0;
  }

  lemma LevelGap(j: Joint, low: real, high: real)
    requires Calibrated(j)
    requires j.commandLower <= low <= high <= j.commandUpper && high - low <= j.Range() / 262144.0
    ensures Level(j, low) <= Level(j, high) <= Level(j, low) + 1
  {
    FractionGap(j, low, high);
    var a, b := 255.0 * Fraction(j, low), 255.0 * Fraction(j, high);
    RoundHalfEvenClose(a, b);
    RoundHalfEvenClose(255.0 - b, 255.0 - a);
  }

  /** A level reports at most one quantum above the level below it. */
  lemma NextLevelReport(j: Joint, low: int, high: int)
    requires Calibrated(j) && low <= high <= low + 1
    ensures LevelReport(j, high) <= LevelReport(j, low) + j.Range() / 255.0
  {
    LevelReportMonotone(j, low, high);
    assert (high - low) as real * j.Range() == if high == low then 0.0 else j.Range();
  }

  /** Two commands within 1/2^18 of the range report at most one quantum apart. */
  lemma NarrowBracket(joint: nat, low: real, high: real)
    requires joint < |JOINTS|
    requires JOINTS[joint].commandLower <= low <= high <= JOINTS[joint].commandUpper
    requires high - low <= JOINTS[joint].Range() / 262144.0
    ensures ReportedAt(joint, high) <= ReportedAt(joint, low) + JOINTS[joint].Range() / 255.0
  {
    hide Level, LevelReport, ReportedAt;
    var j := JOINTS[joint];
    ReportIsStaircase(joint, low);
    ReportIsStaircase(joint, high);
    LevelGap(j, low, high);
    NextLevelReport(j, Level(j, low), Level(j, high));
  }

  /** What a final bracket of width range/2^18 says about its midpoint. */
  lemma BracketGivesAnswer(joint: nat, lower: real, upper: real, target: real, command: real)
    requires joint < |JOINTS|
    requires JOINTS[joint].commandLower <= lower <= upper <= JOINTS[joint].commandUpper
    requires upper - lower == JOINTS[joint].Range() / 262144.0 && command == 0.5 * (lower + upper)
    requires ReportedAt(joint, lower) <= target <= ReportedAt(joint, upper)
    requires lower != JOINTS[joint].commandLower ==> ReportedAt(joint, lower) < target
    ensures IsInverse(joint, target, command)
  {
    var j := JOINTS[joint];
    ReportMonotone(joint, lower, command);
    ReportMonotone(joint, command, upper);
    NarrowBracket(joint, lower, upper);
    forall c | j.commandLower <= c < command - Tolerance(j) ensures ReportedAt(joint, c) < target {
      ReportMonotone(joint, c, lower);
    }
    forall c | command + Tolerance(j) <= c <= j.commandUpper ensures ReportedAt(joint, c) >= target {
      ReportMonotone(joint, upper, c);
    }
  }

  /** A command inverts a target: nothing more than the tolerance below it reaches the target, everything at
      least the tolerance above it does, and its own report is within one quantum of the target. */
  ghost predicate IsInverse(joint: nat, target: real, command: real)
    requires joint < |JOINTS|
  {
    var j := JOINTS[joint];
    && j.commandLower <= command <= j.commandUpper
    && (forall c :: j.commandLower <= c < command - Tolerance(j) ==> ReportedAt(joint, c) < target)
    && (forall c :: command + Tolerance(j) <= c <= j.commandUpper ==> ReportedAt(joint, c) >= target)
    && Abs(ReportedAt(joint, command) - target) <= j.Range() / 255.0
  }

  /** Inverts the report of one joint by eighteen bisection steps. */
  method ReportedHandValueToCommand(joint: nat, targetValue: real) returns (command: real)
    requires joint < |JOINTS|
    ensures IsInverse(joint, ClippedTarget(joint, targetValue), command)
  {
    var j := JOINTS[joint];
    EveryJointCalibrated(joint);
    var lower, upper := j.commandLower, j.commandUpper;
    var lowReported, highReported := ReportedAt(joint, lower), ReportedAt(joint, upper);
    ReportMonotone(joint, lower, upper);
    if highReported < lowReported {
      lower, upper := upper, lower;
      lowReported, highReported := highReported, lowReported;
    }
    var target := Clip(targetValue, lowReported, highReported);
    for i := 0 to 18
      invariant j.commandLower <= lower <= upper <= j.commandUpper
      invariant upper - lower == Halved(j.Range(), i)
      invariant ReportedAt(joint, lower) <= target <= ReportedAt(joint, upper)
      invariant lower != j.commandLower ==> ReportedAt(joint, lower) < target
    {
      var midpoint := 0.5 * (lower + upper);
      if ReportedAt(joint, midpoint) < target {
        lower := midpoint;
      } else {
        upper := midpoint;
      }
    }
    HalvedEighteenTimes(j.Range());
    command := 0.5 * (lower + upper);
    BracketGivesAnswer(joint, lower, upper, target, command);
  }

  /** Inverts a whole reported hand; missing entries invert the report zero. Commanding the result at once makes
      every joint report within one quantum of its clipped target, because no joint's report sees another. */
  method ReportedHandToCommand(values: seq<real>) returns (command: seq<real>)
    ensures |command| == |JOINTS|
    ensures forall i :: 0 <= i < |JOINTS| ==>
              && IsInverse(i, ClippedTarget(i, if i < |values| then values[i] else 0.0), command[i])
              && Abs(ReportedHand(command)[i] - ClippedTarget(i, if i < |values| then values[i] else 0.0))
                 <= JOINTS[i].Range() / 255.0
  {
    command := [];
    for index := 0 to |JOINTS|
      invariant |command| == index
      invariant forall i :: 0 <= i < index ==>
                  IsInverse(i, ClippedTarget(i, if i < |values| then values[i] else 0.0), command[i])
    {
      var target := if index < |values| then values[index] else 0.0;
      var value := ReportedHandValueToCommand(index, target);
      command := command + [value];
    }
    forall i | 0 <= i < |JOINTS| ensures ReportedHand(command)[i] == ReportedAt(i, command[i]) {
    }
  }

  /** An inverse of a target lies within the tolerance of the threshold of the first level reporting it. */
  lemma InverseTracksThreshold(joint: nat, target: real, command: real, n: int)
    requires joint < |JOINTS| && 1 <= n <= 255
    requires IsInverse(joint, target, command)
    requires Calibrated(JOINTS[joint])
    requires LevelReport(JOINTS[joint], n - 1) < target <= LevelReport(JOINTS[joint], n)
    ensures Abs(command - Threshold(JOINTS[joint], n)) <= Tolerance(JOINTS[joint])
  {
    var j := JOINTS[joint];
    ThresholdInside(j, n);
    var t, w := Threshold(j, n), Tolerance(j);
    var c := if t < command - w then (t + command - w) / 2.0 else (t + command + w) / 2.0;
    if t < command - w || t > command + w {
      LevelThreshold(j, n, c);
      ReportIsStaircase(joint, c);
      if t < command - w {
        LevelReportMonotone(j, n, Level(j, c));
      } else {
        LevelReportMonotone(j, Level(j, c), n - 1);
      }
    }
  }
}
