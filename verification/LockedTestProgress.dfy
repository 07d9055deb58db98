/** When an attempt that is left alone gets the locked test done. */
module LockedTestProgress {
  import opened ActionChunks
  import opened LongRunCursor
  import opened LockedTest

  /** Attempt `p` moves `n` times, and nothing else happens: no pause, no death, nobody else. `choice` is what
      validation selects. */
  ghost function Alone(t: Budget, s: System, p: nat, choice: Selection, n: nat): System
    decreases n
  {
    if n == 0 then s else Alone(t, Step(t, s, Run(p, Go(choice))), p, choice, n - 1)
  }

  /** The test is done on a selection: it is committed with every due checkpoint, and the report says so. A passed gate
      has used the claim up for exactly the three evaluations, a failed one has left it alone. */
  ghost predicate Concluded(t: Budget, s: System, p: nat, selection: Selection) {
    var claim := Claim(selection, p);
    && p < |s.attempts| && s.attempts[p].Ended?
    && s.disk.selection == Whole(selection) && AllDue(t, s.disk.checkpoints, TotalSteps(t))
    && s.disk.report == Some(CompleteReport(selection, if selection.gatePassed then Some(claim) else None))
    && s.disk.claim == (if selection.gatePassed then Whole(claim) else Absent)
    && s.evaluations == if selection.gatePassed then [Evaluation(p, claim, 0), Evaluation(p, claim, 1), Evaluation(p, claim, 2)] else []
  }

  ghost predicate Concludes(t: Budget, s: System, p: nat, choice: Selection, selection: Selection) {
    exists n: nat :: Concluded(t, Alone(t, s, p, choice, n), p, selection)
  }

  lemma ConcludesEarlier(t: Budget, s: System, p: nat, choice: Selection, selection: Selection)
    requires Concludes(t, Step(t, s, Run(p, Go(choice))), p, choice, selection)
    ensures Concludes(t, s, p, choice, selection)
  {
    hide Step, Concluded;
    var n: nat :| Concluded(t, Alone(t, Step(t, s, Run(p, Go(choice))), p, choice, n), p, selection);
    assert Alone(t, s, p, choice, n + 1) == Alone(t, Step(t, s, Run(p, Go(choice))), p, choice, n);
  }

  lemma ConcludesNow(t: Budget, s: System, p: nat, choice: Selection, selection: Selection)
    requires Concluded(t, s, p, selection)
    ensures Concludes(t, s, p, choice, selection)
  {
    hide Concluded;
    assert Alone(t, s, p, choice, 0) == s;
  }

  /** Before the claim: nothing has been evaluated. */
  ghost predicate Unclaimed(t: Budget, s: System, p: nat) {
    Inv(t, s) && p < |s.attempts| && s.disk.claim.Absent?
  }

  /** The report of the test is the last move. */
  lemma Reports(t: Budget, s: System, p: nat, choice: Selection, selection: Selection)
    requires Inv(t, s) && p < |s.attempts|
    requires var claim := Claim(selection, p);
      && s.attempts[p] == Reporting(CompleteReport(selection, if selection.gatePassed then Some(claim) else None))
      && s.disk.claim == (if selection.gatePassed then Whole(claim) else Absent)
    ensures Concludes(t, s, p, choice, selection)
  {
    hide AllDue, CheckpointsInOrder, SaveDue;
    var next := Step(t, s, Run(p, Go(choice)));
    assert Fits(t, s.disk, p, s.attempts[p], |s.evaluations|);
    StepInv(t, s, Run(p, Go(choice)));
    FinishedHasAll(t, next);
    assert Concluded(t, next, p, selection);
    ConcludesNow(t, next, p, choice, selection);
    ConcludesEarlier(t, s, p, choice, selection);
  }

  lemma {:induction false} Evaluates(t: Budget, s: System, p: nat, choice: Selection, claim: Claim, done: nat)
    requires Inv(t, s) && p < |s.attempts| && s.attempts[p] == Evaluating(claim, done)
    ensures Concludes(t, s, p, choice, claim.selection)
    decreases TEST_EVALUATIONS - done
  {
    hide AllDue, CheckpointsInOrder, SaveDue, Concludes, SingleOwners, DiskInv;
    assert Fits(t, s.disk, p, s.attempts[p], |s.evaluations|);
    StepInv(t, s, Run(p, Go(choice)));
    if done < TEST_EVALUATIONS {
      Evaluates(t, Step(t, s, Run(p, Go(choice))), p, choice, claim, done + 1);
    } else {
      Reports(t, Step(t, s, Run(p, Go(choice))), p, choice, claim.selection);
    }
    ConcludesEarlier(t, s, p, choice, claim.selection);
  }

  lemma TakesClaim(t: Budget, s: System, p: nat, choice: Selection, selection: Selection)
    requires Unclaimed(t, s, p) && s.attempts[p] == Selected(selection)
    ensures Concludes(t, s, p, choice, selection)
  {
    hide AllDue, CheckpointsInOrder, SaveDue, Concludes, SingleOwners, DiskInv, Fits;
    var push := Run(p, Go(choice));
    StepInv(t, s, push);
    var next := Step(t, s, push);
    if selection.gatePassed {
      StepInv(t, next, push);
      Evaluates(t, Step(t, next, push), p, choice, Claim(selection, p), 0);
      ConcludesEarlier(t, next, p, choice, selection);
    } else {
      Reports(t, next, p, choice, selection);
    }
    ConcludesEarlier(t, s, p, choice, selection);
  }

  lemma Chooses(t: Budget, s: System, p: nat, choice: Selection)
    requires Unclaimed(t, s, p) && s.attempts[p].Choosing? && s.disk.selection.Absent?
    ensures Concludes(t, s, p, choice, choice)
  {
    hide AllDue, CheckpointsInOrder, SaveDue, Concludes, SingleOwners, DiskInv, Fits;
    var push := Run(p, Go(choice));
    StepInv(t, s, push);
    var next := Step(t, s, push);
    StepInv(t, next, push);
    TakesClaim(t, Step(t, next, push), p, choice, choice);
    ConcludesEarlier(t, next, p, choice, choice);
    ConcludesEarlier(t, s, p, choice, choice);
  }

  /** What the test will be done on: the selection on disk, or else what validation selects. */
  function Decided(disk: Disk, choice: Selection): Selection {
    if disk.selection.Whole? then disk.selection.value else choice
  }

  /** No saved step lies ahead, so no save is refused. */
  ghost predicate Ahead(disk: Disk, step: nat) {
    forall c :: c in disk.checkpoints ==> c <= step
  }

  lemma {:induction false} Trains(t: Budget, s: System, p: nat, choice: Selection)
    requires Unclaimed(t, s, p) && s.attempts[p].Stepping? && s.attempts[p].step <= TotalSteps(t)
    requires !s.disk.selection.Partial? && Ahead(s.disk, s.attempts[p].step)
    ensures Concludes(t, s, p, choice, Decided(s.disk, choice))
    decreases TotalSteps(t) - s.attempts[p].step
  {
    hide AllDue, CheckpointsInOrder, SaveDue, Concludes, SingleOwners, DiskInv, Fits, TotalSteps;
    var push := Run(p, Go(choice));
    StepInv(t, s, push);
    var next := Step(t, s, push);
    if s.attempts[p].step < TotalSteps(t) {
      Trains(t, next, p, choice);
    } else if s.disk.selection.Absent? {
      Chooses(t, next, p, choice);
    } else {
      TakesClaim(t, next, p, choice, s.disk.selection.value);
    }
    ConcludesEarlier(t, s, p, choice, Decided(s.disk, choice));
  }

  lemma SavesFirst(t: Budget, s: System, p: nat, choice: Selection)
    requires Unclaimed(t, s, p) && s.attempts[p].FirstSave? && s.disk.checkpoints == {}
    ensures Concludes(t, s, p, choice, choice)
  {
    hide AllDue, CheckpointsInOrder, SaveDue, Concludes, SingleOwners, Fits;
    var push := Run(p, Go(choice));
    StepInv(t, s, push);
    Trains(t, Step(t, s, push), p, choice);
    ConcludesEarlier(t, s, p, choice, choice);
  }

  lemma Loads(t: Budget, s: System, p: nat, choice: Selection)
    requires Unclaimed(t, s, p) && s.attempts[p].Loading? && !s.disk.selection.Partial?
    ensures Concludes(t, s, p, choice, Decided(s.disk, choice))
  {
    hide AllDue, SaveDue, Concludes, SingleOwners, Fits;
    var push := Run(p, Go(choice));
    StepInv(t, s, push);
    var next := Step(t, s, push);
    if s.disk.checkpoints == {} {
      SavesFirst(t, next, p, choice);
    } else {
      Trains(t, next, p, choice);
    }
    ConcludesEarlier(t, s, p, choice, Decided(s.disk, choice));
  }

  /** What a launch of the right kind leads to: fresh where there is no directory yet, resumed where there is one. */
  ghost function Launched(t: Budget, s: System): System {
    Step(t, s, Launch(s.disk.created, false))
  }

  /** Nothing is in the way: no claim was ever begun, and no selection was left half-written. */
  predicate Clear(disk: Disk) {
    disk.claim.Absent? && !disk.selection.Partial?
  }

  lemma ClearConcludes(t: Budget, s: System, choice: Selection)
    requires Inv(t, s) && Clear(s.disk) && !Finished(s.disk)
    ensures Concludes(t, Launched(t, s), |s.attempts|, choice, Decided(s.disk, choice))
  {
    hide AllDue, CheckpointsInOrder, SaveDue, Concludes, DiskInv, SingleOwners, Fits;
    var p := |s.attempts|;
    var push, start := Run(p, Go(choice)), Launched(t, s);
    StepInv(t, s, Launch(s.disk.created, false));
    StepInv(t, start, push);
    var next := Step(t, start, push);
    if s.disk.created {
      StepInv(t, next, push);
      Loads(t, Step(t, next, push), p, choice);
      ConcludesEarlier(t, next, p, choice, Decided(s.disk, choice));
    } else {
      SavesFirst(t, next, p, choice);
    }
    ConcludesEarlier(t, start, p, choice, Decided(s.disk, choice));
  }

  /** The way of an attempt that changes nothing: it stops at the report, at the claim or at the half-written selection. */
  ghost predicate TurnedAway(t: Budget, disk: Disk, at: Position) {
    match at
    case Starting(resume) => resume
    case ReportChecked => true
    case Loading => disk.claim.Absent? && disk.selection.Partial?
    case Stepping(step, _) => disk.claim.Absent? && disk.selection.Partial? && step == TotalSteps(t)
    case Ended => true
    case _ => false
  }

  lemma {:induction false} TurnedAwayStays(t: Budget, s: System, p: nat, choice: Selection, n: nat)
    requires Inv(t, s) && p < |s.attempts| && !Clear(s.disk) && TurnedAway(t, s.disk, s.attempts[p])
    ensures Alone(t, s, p, choice, n).disk == s.disk && Alone(t, s, p, choice, n).evaluations == s.evaluations
    decreases n
  {
    if n > 0 {
      hide Inv, Step, TurnedAway, Clear;
      TurnedAwayStep(t, s, p, choice);
      TurnedAwayStays(t, Step(t, s, Run(p, Go(choice))), p, choice, n - 1);
    }
  }

  lemma TurnedAwayStep(t: Budget, s: System, p: nat, choice: Selection)
    requires Inv(t, s) && p < |s.attempts| && !Clear(s.disk) && TurnedAway(t, s.disk, s.attempts[p])
    ensures var next := Step(t, s, Run(p, Go(choice)));
      && Inv(t, next) && next.disk == s.disk && next.evaluations == s.evaluations
      && p < |next.attempts| && TurnedAway(t, next.disk, next.attempts[p])
  {
    StepInv(t, s, Run(p, Go(choice)));
    if s.attempts[p].Loading? {
      LatestIsTotal(t, s);
    }
    hide Inv;
  }

  lemma {:induction false} EndedStays(t: Budget, s: System, p: nat, choice: Selection, n: nat)
    requires p < |s.attempts| && s.attempts[p].Ended?
    ensures Alone(t, s, p, choice, n) == s
    decreases n
  {
    if n > 0 {
      var next := Step(t, s, Run(p, Go(choice)));
      assert next.attempts == s.attempts;
      EndedStays(t, next, p, choice, n - 1);
    }
  }

  /** A resume of a finished directory returns at once and changes nothing. */
  lemma {:induction false} FinishedReturns(t: Budget, s: System, choice: Selection, n: nat)
    requires Inv(t, s) && Finished(s.disk)
    ensures var after := Alone(t, Launched(t, s), |s.attempts|, choice, n);
      && after.disk == s.disk && after.evaluations == s.evaluations
      && (n > 0 ==> |after.attempts| > |s.attempts| && after.attempts[|s.attempts|].Ended?)
  {
    hide DiskInv, SingleOwners, Fits;
    WasCreated(t, s);
    if n > 0 {
      EndedStays(t, Step(t, Launched(t, s), Run(|s.attempts|, Go(choice))), |s.attempts|, choice, n - 1);
    }
  }

  /** From any state that any interleaving of attempts can reach, a further attempt that is left alone gets the locked
      test done if and only if nothing is in the way: no claim was ever begun, and no selection was left half-written.
      It is then done on the selection on disk, or else on what validation selects. An attempt that something is in the
      way of, or that finds a complete report, changes nothing. */
  lemma {:induction false} LoneAttemptConcludesIff(t: Budget, actions: seq<LockedTest.Action>, choice: Selection)
    ensures var s := RunAll(t, Initial(), actions);
      var start, p := Launched(t, s), |s.attempts|;
      && (!Finished(s.disk) ==> (Concludes(t, start, p, choice, Decided(s.disk, choice)) <==> Clear(s.disk)))
      && (Finished(s.disk) || !Clear(s.disk) ==>
            forall n: nat :: Alone(t, start, p, choice, n).disk == s.disk && Alone(t, start, p, choice, n).evaluations == s.evaluations)
  {
    hide RunAll, Inv, Alone;
    RunInv(t, actions);
    var s := RunAll(t, Initial(), actions);
    if Finished(s.disk) {
      forall n: nat ensures Alone(t, Launched(t, s), |s.attempts|, choice, n).disk == s.disk
                            && Alone(t, Launched(t, s), |s.attempts|, choice, n).evaluations == s.evaluations {
        FinishedReturns(t, s, choice, n);
      }
    } else if Clear(s.disk) {
      ClearConcludes(t, s, choice);
    } else {
      UnclearStarts(t, s);
      forall n: nat ensures Alone(t, Launched(t, s), |s.attempts|, choice, n).disk == s.disk
                            && Alone(t, Launched(t, s), |s.attempts|, choice, n).evaluations == s.evaluations {
        TurnedAwayStays(t, Launched(t, s), |s.attempts|, choice, n);
      }
    }
  }

  lemma UnclearStarts(t: Budget, s: System)
    requires Inv(t, s) && !Clear(s.disk)
    ensures Inv(t, Launched(t, s)) && Launched(t, s).disk == s.disk && Launched(t, s).evaluations == s.evaluations
    ensures Launched(t, s).attempts == s.attempts + [Starting(true)]
  {
    hide DiskInv, SingleOwners, Fits;
    StepInv(t, s, Launch(s.disk.created, false));
  }

  /** Where a pause is noticed: in the training loop, at validation, and after a selection that passed. */
  predicate Pauses(t: Budget, at: Position) {
    (at.Stepping? && at.step < TotalSteps(t)) || at.Choosing? || (at.Selected? && at.selection.gatePassed)
  }

  /** A paused attempt ends with a report that names the selection exactly when there is one to resume with. In the
      training loop it saves the step it stands at; if another attempt has saved that step in the meantime the save is
      refused, and the attempt ends without a report. */
  lemma PauseIsReported(t: Budget, s: System, p: nat, choice: Selection)
    requires Inv(t, s) && p < |s.attempts| && Pauses(t, s.attempts[p])
    ensures var at := s.attempts[p];
      var after := Step(t, Step(t, s, Run(p, Pause)), Run(p, Go(choice)));
      && after.attempts == s.attempts[p := Ended] && after.evaluations == s.evaluations
      && (if at.Stepping? && at.step != at.last && at.step in s.disk.checkpoints then after.disk == s.disk
          else after.disk == s.disk.(checkpoints := s.disk.checkpoints + (if at.Stepping? then {at.step} else {}),
                                     report := Some(PausedReport(if at.Selected? then Some(at.selection) else None))))
  {
    hide AllDue, CheckpointsInOrder, SaveDue;
    assert Fits(t, s.disk, p, s.attempts[p], |s.evaluations|);
    var paused := Step(t, s, Run(p, Pause));
    assert paused.attempts[p := Ended] == s.attempts[p := Ended];
    assert s.attempts[p].Stepping? && s.attempts[p].step == s.attempts[p].last ==> s.disk.checkpoints + {s.attempts[p].step} == s.disk.checkpoints;
  }
}
