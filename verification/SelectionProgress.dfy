/** What a selection run that is left alone comes to, whatever other runs have left behind. */
module SelectionProgress {
  import opened SelectionClaim

  /** Run `p` moves `k` times, nothing fails, and nobody else moves. */
  function Alone(n: nat, s: System, p: nat, k: nat): System
    decreases k
  {
    if k == 0 then s else Alone(n, Step(n, s, Move(p, Succeed)), p, k - 1)
  }

  lemma AloneFirst(n: nat, s: System, p: nat, k: nat)
    ensures Alone(n, s, p, 0) == s
    ensures k > 0 ==> Alone(n, s, p, k) == Alone(n, Step(n, s, Move(p, Succeed)), p, k - 1)
  {
    hide Step;
  }

  lemma {:induction false} AloneAdds(n: nat, s: System, p: nat, k: nat, more: nat)
    ensures Alone(n, s, p, k + more) == Alone(n, Alone(n, s, p, k), p, more)
    decreases k
  {
    hide Step, Alone;
    AloneFirst(n, s, p, k);
    AloneFirst(n, s, p, k + more);
    if k > 0 {
      AloneAdds(n, Step(n, s, Move(p, Succeed)), p, k - 1, more);
    }
  }

  lemma {:induction false} OverAlone(n: nat, s: System, p: nat, k: nat)
    requires p < |s.runs| && Over(s.runs[p])
    ensures Alone(n, s, p, k) == s
    decreases k
  {
    if k > 0 {
      OverAlone(n, s, p, k - 1);
    }
  }

  lemma MoveInv(n: nat, s: System, a: Action)
    requires Inv(n, s)
    ensures Inv(n, Step(n, s, a))
  {
    hide RunsFit, DirectoriesFit, ClaimsFit, OpeningsFit, Step;
    StepRuns(n, s, a);
    StepDirectories(n, s, a);
    StepClaims(n, s, a);
    StepOpenings(n, s, a);
  }

  /** Nothing but the run's own directory and its own claim has changed, and nobody else has opened anything. */
  ghost predicate OnlyOwn(before: System, s: System, p: nat, r: Run) {
    && s.runs == before.runs + [r] && p == |before.runs|
    && (forall d: nat :: d != r.directory ==> (d in s.directories <==> d in before.directories))
    && (forall d: nat :: d != r.directory && d in s.directories && d in before.directories ==> s.directories[d] == before.directories[d])
    && (forall c: int :: c != r.claimId ==> (c in s.sentinels <==> c in before.sentinels))
    && (forall c: int :: c != r.claimId && c in s.sentinels && c in before.sentinels ==> s.sentinels[c] == before.sentinels[c])
  }

  /** How an undisturbed run stands in front of its `pc`-th operation. */
  function StandingAt(n: nat, d: nat, c: int, pc: nat): Run {
    Run(d, c, pc, pc > SYNC, pc > OPEN_SENTINEL, if pc == FinalRead(n) + 1 then Returned else Running, false)
  }

  ghost predicate Climbed(n: nat, before: System, s: System, p: nat, d: nat, c: int, pc: nat) {
    && Inv(n, s) && OnlyOwn(before, s, p, StandingAt(n, d, c, pc))
    && (pc <= MKDIR ==> s.directories == before.directories)
    && (pc <= OPEN_SENTINEL ==> s.sentinels == before.sentinels)
    && s.openings == before.openings + if pc > LOAD_VALIDATION then [p] else []
  }

  /** What a run still has to create is not there yet. */
  lemma OwnFilesFree(n: nat, s: System, p: nat)
    requires Inv(n, s) && p < |s.runs| && s.runs[p].mode.Running?
    ensures var op := OpAt(n, s.runs[p].pc);
      !op.Check? && !op.Mkdir? && !op.OpenSentinel? ==> Free(s, s.runs[p], op)
  {
    var op := OpAt(n, s.runs[p].pc);
    assert RunFits(n, s.runs[p]);
    if op.Open? {
      OwnDirectory(n, s, p);
    }
  }

  lemma CheckFirst(n: nat, pc: nat)
    ensures OpAt(n, pc).Check? <==> pc == 0
    ensures OpAt(n, pc).Mkdir? <==> pc == MKDIR
    ensures OpAt(n, pc).Sync? <==> pc == SYNC
    ensures TouchesDirectory(OpAt(n, pc)) ==> pc > MKDIR
  {
  }

  lemma ClimbsOne(n: nat, before: System, s: System, p: nat, d: nat, c: int, pc: nat)
    requires Climbed(n, before, s, p, d, c, pc) && pc <= FinalRead(n)
    requires pc <= MKDIR ==> d !in before.directories
    requires pc == OPEN_SENTINEL ==> c !in before.sentinels
    ensures Climbed(n, before, Step(n, s, Move(p, Succeed)), p, d, c, pc + 1)
  {
    hide Inv, OpAt, Applied, Fresh;
    MoveInv(n, s, Move(p, Succeed));
    OwnFilesFree(n, s, p);
    CheckFirst(n, pc);
    SentinelOps(n, pc);
  }

  lemma {:induction false} Climbs(n: nat, before: System, s: System, p: nat, d: nat, c: int, pc: nat, target: nat)
    requires Climbed(n, before, s, p, d, c, pc) && pc <= target <= FinalRead(n) + 1
    requires d !in before.directories && (target > OPEN_SENTINEL ==> c !in before.sentinels)
    ensures Climbed(n, before, Alone(n, s, p, target - pc), p, d, c, target)
    decreases target - pc
  {
    hide Climbed, Step, Alone, FinalRead;
    AloneFirst(n, s, p, target - pc);
    if pc < target {
      ClimbsOne(n, before, s, p, d, c, pc);
      Climbs(n, before, Step(n, s, Move(p, Succeed)), p, d, c, pc + 1, target);
    }
  }

  lemma Launches(n: nat, before: System, d: nat, c: int)
    requires Inv(n, before)
    ensures Climbed(n, before, Step(n, before, Launch(d, c)), |before.runs|, d, c, 0)
  {
    MoveInv(n, before, Launch(d, c));
  }

  /** The directory of a run that got through. */
  predicate WholeDirectory(dir: Directory, p: nat) {
    dir == Directory(p, Whole(Complete), Whole(p), Whole(p), Whole(p), Whole(p))
  }

  lemma GetsThrough(n: nat, before: System, s: System, p: nat, d: nat, c: int)
    requires Climbed(n, before, s, p, d, c, FinalRead(n) + 1)
    ensures s.runs[p].mode.Returned? && d in s.directories && WholeDirectory(s.directories[d], p)
    ensures c in s.sentinels && s.sentinels[c] == Whole(p) && s.openings == before.openings + [p]
  {
    OwnDirectory(n, s, p);
    assert OwnsClaim(s.runs[p]);
  }

  /** The directory of a run that was refused at the claim. */
  predicate BurnedDirectory(dir: Directory, p: nat) {
    dir == Directory(p, Whole(Burned), Whole(p), Absent, Absent, Absent)
  }

  lemma {:induction false} AloneTwice(n: nat, s: System, p: nat)
    ensures Alone(n, s, p, 2) == Step(n, Step(n, s, Move(p, Succeed)), Move(p, Succeed))
  {
    hide Step, Alone;
    var next := Step(n, s, Move(p, Succeed));
    AloneFirst(n, s, p, 2);
    AloneFirst(n, next, p, 1);
    AloneFirst(n, Step(n, next, Move(p, Succeed)), p, 0);
  }

  /** An exclusive creation of a name that is taken raises, and leaves the files alone. */
  lemma Collides(n: nat, s: System, p: nat)
    requires p < |s.runs| && s.runs[p].mode.Running? && !Free(s, s.runs[p], OpAt(n, s.runs[p].pc))
    ensures var r := s.runs[p];
      Step(n, s, Move(p, Succeed)) == s.(runs := s.runs[p := r.(claimed := r.claimed || OpAt(n, r.pc).OpenSentinel?, mode := Failing)])
  {
    hide OpAt, Free, Effect;
  }

  lemma HandlerRewrites(n: nat, s: System, p: nat)
    requires p < |s.runs| && s.runs[p].mode.Failing? && s.runs[p].created && s.runs[p].directory in s.directories
    ensures var r := s.runs[p];
      Step(n, s, Move(p, Succeed))
        == s.(runs := s.runs[p := r.(mode := Raised, reported := true)],
              directories := s.directories[r.directory := s.directories[r.directory].(status := Whole(if r.claimed then Burned else Error))])
  {
    hide OpAt, Free;
  }

  lemma HandlerPasses(n: nat, s: System, p: nat)
    requires p < |s.runs| && s.runs[p].mode.Failing? && !s.runs[p].created
    ensures Step(n, s, Move(p, Succeed)) == s.(runs := s.runs[p := s.runs[p].(mode := Raised)])
  {
    hide OpAt, Free, Effect;
  }

  /** A run that stands in front of its claim has written its preflight and nothing after it. */
  lemma BeforeClaim(n: nat, s: System, p: nat)
    requires Inv(n, s) && p < |s.runs| && s.runs[p].pc == OPEN_SENTINEL && !s.runs[p].reported
    ensures s.runs[p].directory in s.directories
    ensures s.directories[s.runs[p].directory] == Directory(p, Whole(PreflightComplete), Whole(p), Absent, Absent, Absent)
  {
    OwnDirectory(n, s, p);
    hide RunsFit, DirectoriesFit, ClaimsFit, OpeningsFit;
  }

  lemma {:induction false} Burns(n: nat, before: System, s: System, p: nat, d: nat, c: int)
    requires Climbed(n, before, s, p, d, c, OPEN_SENTINEL) && c in before.sentinels
    ensures var after := Alone(n, s, p, 2);
      && |after.runs| == |before.runs| + 1 && OnlyOwn(before, after, p, after.runs[p]) && after.runs[p].directory == d && after.runs[p].claimId == c
      && after.runs[p].mode.Raised? && d in after.directories && BurnedDirectory(after.directories[d], p)
      && after.sentinels == before.sentinels && after.openings == before.openings
  {
    hide Step, Alone, Inv, OpAt;
    BeforeClaim(n, s, p);
    SentinelOps(n, OPEN_SENTINEL);
    CheckFirst(n, OPEN_SENTINEL);
    Collides(n, s, p);
    HandlerRewrites(n, Step(n, s, Move(p, Succeed)), p);
    AloneTwice(n, s, p);
  }

  lemma {:induction false} Refuses(n: nat, before: System, s: System, p: nat, d: nat, c: int)
    requires Climbed(n, before, s, p, d, c, 0) && d in before.directories
    ensures var after := Alone(n, s, p, 2);
      && |after.runs| == |before.runs| + 1 && OnlyOwn(before, after, p, after.runs[p]) && after.runs[p].directory == d && after.runs[p].claimId == c
      && after.runs[p].mode.Raised?
      && after.directories == before.directories && after.sentinels == before.sentinels && after.openings == before.openings
  {
    hide Step, Alone, Inv, OpAt, FinalRead;
    CheckFirst(n, 0);
    Collides(n, s, p);
    HandlerPasses(n, Step(n, s, Move(p, Succeed)), p);
    AloneTwice(n, s, p);
  }

  /** Moves enough for any undisturbed run. */
  function Enough(n: nat): nat {
    FinalRead(n) + 1
  }

  /** After any interleaving, a further run that is left alone gets through, with every record in place and the held-out
      data opened once, exactly when its directory does not exist and its claim was never begun. A used directory turns it
      away before it changes anything. A used claim burns it: its own directory says so, the sentinel stays the other
      run's, and the held-out data stay closed. */
  lemma {:induction false} LoneRunCompletesIff(n: nat, actions: seq<Action>, d: nat, c: int)
    ensures var s := RunAll(n, Nothing(), actions);
      var p := |s.runs|;
      var after := Alone(n, Step(n, s, Launch(d, c)), p, Enough(n));
      && |after.runs| == p + 1 && OnlyOwn(s, after, p, after.runs[p]) && after.runs[p].directory == d && after.runs[p].claimId == c
      && (after.runs[p].mode.Returned? <==> d !in s.directories && c !in s.sentinels)
      && (after.runs[p].mode.Returned? ==>
            && d in after.directories && WholeDirectory(after.directories[d], p)
            && c in after.sentinels && after.sentinels[c] == Whole(p) && after.openings == s.openings + [p])
      && (!after.runs[p].mode.Returned? ==>
            && after.runs[p].mode.Raised? && after.sentinels == s.sentinels && after.openings == s.openings
            && (if d in s.directories then after.directories == s.directories
                else d in after.directories && BurnedDirectory(after.directories[d], p)))
  {
    hide RunAll, Inv, Step, Alone, OnlyOwn, Climbed, WholeDirectory, BurnedDirectory;
    StartsEmpty(n);
    RunInv(n, Nothing(), actions);
    var s := RunAll(n, Nothing(), actions);
    var p, start := |s.runs|, Step(n, s, Launch(d, c));
    Launches(n, s, d, c);
    if d in s.directories {
      Refuses(n, s, start, p, d, c);
      StaysOver(n, start, p, 2);
    } else if c in s.sentinels {
      Climbs(n, s, start, p, d, c, 0, OPEN_SENTINEL);
      Burns(n, s, Alone(n, start, p, OPEN_SENTINEL), p, d, c);
      AloneAdds(n, start, p, OPEN_SENTINEL, 2);
      StaysOver(n, start, p, OPEN_SENTINEL + 2);
    } else {
      Climbs(n, s, start, p, d, c, 0, Enough(n));
      GetsThrough(n, s, Alone(n, start, p, Enough(n)), p, d, c);
      ClimbedRuns(n, s, Alone(n, start, p, Enough(n)), p, d, c, Enough(n));
    }
  }

  lemma StartsEmpty(n: nat)
    ensures Inv(n, Nothing())
  {
  }

  lemma ClimbedRuns(n: nat, before: System, s: System, p: nat, d: nat, c: int, pc: nat)
    requires Climbed(n, before, s, p, d, c, pc)
    ensures |s.runs| == p + 1 == |before.runs| + 1 && OnlyOwn(before, s, p, s.runs[p])
    ensures s.runs[p].directory == d && s.runs[p].claimId == c
  {
  }

  lemma {:induction false} StaysOver(n: nat, s: System, p: nat, k: nat)
    requires k <= Enough(n) && p < |Alone(n, s, p, k).runs| && Over(Alone(n, s, p, k).runs[p])
    ensures Alone(n, s, p, Enough(n)) == Alone(n, s, p, k)
  {
    hide Alone, Enough, Step;
    AloneAdds(n, s, p, k, Enough(n) - k);
    OverAlone(n, Alone(n, s, p, k), p, Enough(n) - k);
  }
}
