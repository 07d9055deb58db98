/** The one-shot locked test: attempts on one output directory, running in any interleaving and dying anywhere. */
module LockedTest {
  import opened ActionChunks
  import opened LongRunCursor

  /** A file created with O_EXCL and then written; a writer that dies in between leaves it partial. */
  datatype File<T> = Absent | Partial | Whole(value: T)

  /** Records stand for their own SHA-256. */
  datatype Selection = Selection(selectedStep: int, gatePassed: bool)
  datatype Claim = Claim(selection: Selection, attempt: nat)

  /** The three things `long-run-report.json` can hold. */
  datatype Report =
    | CorpusReport
    | PausedReport(pausedSelection: Option<Selection>)
    | CompleteReport(selection: Selection, claim: Option<Claim>)

  /** `checkpoints` are the sequence numbers of the completed checkpoints. */
  datatype Disk = Disk(created: bool, checkpoints: set<nat>, selection: File<Selection>, claim: File<Claim>, report: Option<Report>)

  type Budget = t: Training | ValidTraining(t) witness Training(1, 1, 1, 1, 1)

  /** Where an attempt is: in front of its next file access. `Stepping` is the head of the training loop, with the
      steps trained and the step this process last loaded or saved. */
  datatype Position =
    | Collecting
    | Starting(resume: bool)
    | ReportChecked
    | Loading
    | FirstSave
    | Stepping(step: nat, last: nat)
    | Choosing
    | WritingSelection(selection: Selection)
    | Selected(selection: Selection)
    | WritingClaim(claim: Claim)
    | Evaluating(claim: Claim, done: nat)
    | Reporting(report: Report)
    | Ended

  /** `evaluations` is history: the test evaluations so far, each with its attempt, claim and number. */
  datatype Evaluation = Evaluation(attempt: nat, claim: Claim, number: nat)
  datatype System = System(disk: Disk, attempts: seq<Position>, evaluations: seq<Evaluation>)

  /** What the outside decides when an attempt moves: go on (with the selection that validation gives), pause
      for a signal or a spent budget, or die. */
  datatype Push = Go(choice: Selection) | Pause | Die

  datatype Action = Launch(resume: bool, collectOnly: bool) | Run(attempt: nat, push: Push)

  /** Offline test evaluation, temporal control, rollouts. */
  const TEST_EVALUATIONS := 3

  ghost function Latest(checkpoints: set<nat>): (m: nat)
    requires checkpoints != {}
    ensures m in checkpoints && forall c :: c in checkpoints ==> c <= m
  {
    var c :| c in checkpoints;
    if checkpoints == {c} then c
    else
      var rest := Latest(checkpoints - {c});
      assert forall d :: d in checkpoints ==> d == c || d in checkpoints - {c};
      if rest > c then rest else c
  }

  /** Saving a checkpoint that exists is refused, and ends the attempt. */
  function Save(disk: Disk, step: nat, next: Position): (Position, Disk) {
    if step in disk.checkpoints then (Ended, disk)
    else (next, disk.(checkpoints := disk.checkpoints + {step}))
  }

  /** The start checks and the checkpoint an attempt starts from. */
  ghost function Begin(disk: Disk, at: Position): (Position, Disk)
    requires at.Starting? || at.ReportChecked? || at.Loading? || at.FirstSave?
  {
    match at
    case Starting(resume) =>
      if !resume then (FirstSave, disk)
      else if disk.report.Some? && disk.report.value.CompleteReport? then (Ended, disk)
      else (ReportChecked, disk)
    case ReportChecked => (if disk.claim.Absent? then Loading else Ended, disk)
    case Loading =>
      if disk.checkpoints == {} then (FirstSave, disk)
      else (Stepping(Latest(disk.checkpoints), Latest(disk.checkpoints)), disk)
    case FirstSave => Save(disk, 0, Stepping(0, 0))
  }

  /** One round of the training loop; after the last step, the look for a selection. */
  function Train(t: Budget, disk: Disk, step: nat, last: nat, pause: bool): (Position, Disk) {
    if step >= TotalSteps(t) then
      (match disk.selection
       case Absent => (Choosing, disk)
       case Partial => (Ended, disk)
       case Whole(s) => (Selected(s), disk))
    else if pause then
      if step == last then (Reporting(PausedReport(None)), disk) else Save(disk, step, Reporting(PausedReport(None)))
    else if SaveDue(t, step + 1) then Save(disk, step + 1, Stepping(step + 1, step + 1))
    else (Stepping(step + 1, last), disk)
  }

  /** One move of an attempt: its next position and the disk it leaves. */
  ghost function Move(t: Budget, disk: Disk, id: nat, at: Position, push: Push): (Position, Disk) {
    if push.Die? then (Ended, disk)
    else match at
      case Collecting => (Ended, disk.(report := Some(CorpusReport)))
      case Starting(_) => Begin(disk, at)
      case ReportChecked => Begin(disk, at)
      case Loading => Begin(disk, at)
      case FirstSave => Begin(disk, at)
      case Stepping(step, last) => Train(t, disk, step, last, push.Pause?)
      case Choosing =>
        if push.Pause? then (Reporting(PausedReport(None)), disk)
        else if !disk.selection.Absent? then (Ended, disk)
        else (WritingSelection(push.choice), disk.(selection := Partial))
      case WritingSelection(s) => (Selected(s), disk.(selection := Whole(s)))
      case Selected(s) =>
        if !s.gatePassed then (Reporting(CompleteReport(s, None)), disk)
        else if push.Pause? then (Reporting(PausedReport(Some(s))), disk)
        else if !disk.claim.Absent? then (Ended, disk)
        else (WritingClaim(Claim(s, id)), disk.(claim := Partial))
      case WritingClaim(c) => (Evaluating(c, 0), disk.(claim := Whole(c)))
      case Evaluating(c, done) =>
        if done < TEST_EVALUATIONS then (Evaluating(c, done + 1), disk)
        else (Reporting(CompleteReport(c.selection, Some(c))), disk)
      case Reporting(r) => (Ended, disk.(report := Some(r)))
      case Ended => (Ended, disk)
  }

  ghost function Step(t: Budget, s: System, a: Action): System {
    match a
    case Launch(resume, collectOnly) =>
      // a fresh run creates the directory, a resume needs it
      if resume == s.disk.created
      then s.(disk := s.disk.(created := true), attempts := s.attempts + [if collectOnly then Collecting else Starting(resume)])
      else s
    case Run(id, push) =>
      if id >= |s.attempts| then s
      else
        var at := s.attempts[id];
        var (next, disk) := Move(t, s.disk, id, at, push);
        var evaluated := if at.Evaluating? && at.done < TEST_EVALUATIONS && !push.Die? then [Evaluation(id, at.claim, at.done)] else [];
        System(disk, s.attempts[id := next], s.evaluations + evaluated)
  }

  function Initial(): System {
    System(Disk(false, {}, Absent, Absent, None), [], [])
  }

  ghost function RunAll(t: Budget, s: System, actions: seq<Action>): System {
    if actions == [] then s else Step(t, RunAll(t, s, actions[..|actions| - 1]), actions[|actions| - 1])
  }

  // ----- the invariant -----

  ghost predicate AllDue(t: Budget, checkpoints: set<nat>, step: nat) {
    forall d: nat :: d <= step && SaveDue(t, d) ==> d in checkpoints
  }

  /** No checkpoint is missing below an existing one. */
  ghost predicate CheckpointsInOrder(t: Budget, checkpoints: set<nat>) {
    forall c :: c in checkpoints ==> c <= TotalSteps(t) && AllDue(t, checkpoints, c)
  }

  /** A report tells the truth: its selection and claim are the ones on disk, and it is a complete report of a
      passed gate exactly when the claim was used up. */
  ghost predicate ReportFits(disk: Disk, r: Report, evaluations: nat) {
    match r
    case CorpusReport => true
    case PausedReport(s) => s.Some? ==> disk.selection == Whole(s.value)
    case CompleteReport(s, c) =>
      && disk.selection == Whole(s) && (c.Some? <==> s.gatePassed)
      && (c.Some? ==> disk.claim == Whole(c.value) && evaluations == TEST_EVALUATIONS)
  }

  /** What an attempt's position says about the disk and about the test evaluations so far. */
  ghost predicate Fits(t: Budget, disk: Disk, id: nat, at: Position, evaluations: nat) {
    match at
    case Stepping(step, last) =>
      && last <= step <= TotalSteps(t) && last in disk.checkpoints && AllDue(t, disk.checkpoints, step)
      && (step == TotalSteps(t) ==> last == step)
    case Choosing => TotalSteps(t) in disk.checkpoints
    case WritingSelection(_) => disk.selection == Partial
    case Selected(s) => disk.selection == Whole(s)
    case WritingClaim(c) => disk.claim == Partial && disk.selection == Whole(c.selection) && c.attempt == id && c.selection.gatePassed
    case Evaluating(c, done) => disk.claim == Whole(c) && c.attempt == id && c.selection.gatePassed && done == evaluations <= TEST_EVALUATIONS
    case Reporting(r) => ReportFits(disk, r, evaluations)
    case _ => true
  }

  /** Positions that own an exclusively created file. */
  predicate OwnsSelection(at: Position) {
    at.WritingSelection?
  }

  predicate TestedReport(r: Report) {
    r.CompleteReport? && r.claim.Some?
  }

  predicate OwnsClaim(at: Position) {
    at.WritingClaim? || at.Evaluating? || (at.Reporting? && TestedReport(at.report))
  }

  ghost predicate SingleOwners(attempts: seq<Position>) {
    && (forall p, q :: 0 <= p < |attempts| && 0 <= q < |attempts| && OwnsSelection(attempts[p]) && OwnsSelection(attempts[q]) ==> p == q)
    && (forall p, q :: 0 <= p < |attempts| && 0 <= q < |attempts| && OwnsClaim(attempts[p]) && OwnsClaim(attempts[q]) ==> p == q)
  }

  ghost predicate NoClaimOwner(attempts: seq<Position>) {
    forall p :: 0 <= p < |attempts| ==> !OwnsClaim(attempts[p])
  }

  /** Evaluations of one attempt under one claim, in order, each once. */
  ghost predicate InOrder(evaluations: seq<Evaluation>, claim: Claim) {
    && |evaluations| <= TEST_EVALUATIONS
    && forall i :: 0 <= i < |evaluations| ==> evaluations[i] == Evaluation(claim.attempt, claim, i)
  }

  ghost predicate DiskInv(t: Budget, disk: Disk, evaluations: seq<Evaluation>) {
    && CheckpointsInOrder(t, disk.checkpoints)
    && (!disk.selection.Absent? ==> TotalSteps(t) in disk.checkpoints)
    && (!disk.claim.Absent? ==> disk.selection.Whole? && disk.selection.value.gatePassed)
    && (disk.claim.Whole? ==> disk.selection == Whole(disk.claim.value.selection) && InOrder(evaluations, disk.claim.value))
    && (!disk.claim.Whole? ==> evaluations == [])
    && (disk.report.Some? ==> ReportFits(disk, disk.report.value, |evaluations|))
  }

  ghost predicate Inv(t: Budget, s: System) {
    && (!s.disk.created ==> s == Initial())
    && DiskInv(t, s.disk, s.evaluations)
    && (s.disk.claim.Whole? ==> s.disk.claim.value.attempt < |s.attempts|)
    && (s.disk.report.Some? && TestedReport(s.disk.report.value) ==> NoClaimOwner(s.attempts))
    && SingleOwners(s.attempts)
    && forall p :: 0 <= p < |s.attempts| ==> Fits(t, s.disk, p, s.attempts[p], |s.evaluations|)
  }

  // ----- checkpoints -----

  lemma TotalIsDue(t: Budget)
    ensures SaveDue(t, TotalSteps(t)) && SaveDue(t, 0) && TotalSteps(t) > 0
  {
  }

  /** Saving the step an attempt stands at leaves the checkpoints in order. */
  lemma SaveInOrder(t: Budget, checkpoints: set<nat>, step: nat)
    requires CheckpointsInOrder(t, checkpoints) && step <= TotalSteps(t)
    requires forall d: nat :: d < step && SaveDue(t, d) ==> d in checkpoints
    ensures CheckpointsInOrder(t, checkpoints + {step}) && AllDue(t, checkpoints + {step}, step)
  {
  }

  lemma MoreCheckpoints(t: Budget, fewer: set<nat>, more: set<nat>, step: nat)
    requires AllDue(t, fewer, step) && fewer <= more
    ensures AllDue(t, more, step)
  {
  }

  /** What one move of an attempt in order does to the checkpoints, and where it leaves the attempt. */
  lemma MoveCheckpoints(t: Budget, disk: Disk, id: nat, at: Position, push: Push, evaluations: nat)
    requires CheckpointsInOrder(t, disk.checkpoints) && Fits(t, disk, id, at, evaluations)
    ensures var (next, after) := Move(t, disk, id, at, push);
      && disk.checkpoints <= after.checkpoints && CheckpointsInOrder(t, after.checkpoints)
      && (next.Stepping? ==> Fits(t, after, id, next, evaluations))
      && (next.Choosing? ==> TotalSteps(t) in after.checkpoints)
  {
    TotalIsDue(t);
    if at.Stepping? && at.step < TotalSteps(t) {
      if push.Pause? {
        SaveInOrder(t, disk.checkpoints, at.step);
      } else if SaveDue(t, at.step + 1) {
        SaveInOrder(t, disk.checkpoints, at.step + 1);
      }
    } else if at.FirstSave? {
      SaveInOrder(t, disk.checkpoints, 0);
    }
  }

  // ----- every step keeps the invariant -----

  lemma SelfFits(t: Budget, s: System, p: nat, push: Push)
    requires Inv(t, s) && p < |s.attempts|
    ensures var after := Step(t, s, Run(p, push)); Fits(t, after.disk, p, after.attempts[p], |after.evaluations|)
  {
    hide AllDue, CheckpointsInOrder, SaveDue;
    assert Fits(t, s.disk, p, s.attempts[p], |s.evaluations|);
    MoveCheckpoints(t, s.disk, p, s.attempts[p], push, |s.evaluations|);
  }

  /** A move that changes a file owns it, so it cannot upset anyone else. */
  lemma OthersFit(t: Budget, s: System, p: nat, push: Push, q: nat)
    requires Inv(t, s) && p < |s.attempts| && q < |s.attempts| && p != q
    ensures var after := Step(t, s, Run(p, push)); Fits(t, after.disk, q, after.attempts[q], |after.evaluations|)
  {
    hide AllDue, CheckpointsInOrder, SaveDue;
    assert Fits(t, s.disk, p, s.attempts[p], |s.evaluations|);
    assert Fits(t, s.disk, q, s.attempts[q], |s.evaluations|);
    MoveCheckpoints(t, s.disk, p, s.attempts[p], push, |s.evaluations|);
    if s.attempts[q].Stepping? {
      MoreCheckpoints(t, s.disk.checkpoints, Step(t, s, Run(p, push)).disk.checkpoints, s.attempts[q].step);
    }
  }

  lemma MoveDiskInv(t: Budget, s: System, p: nat, push: Push)
    requires Inv(t, s) && p < |s.attempts|
    ensures DiskInv(t, Step(t, s, Run(p, push)).disk, Step(t, s, Run(p, push)).evaluations)
  {
    hide AllDue, CheckpointsInOrder, SaveDue;
    assert Fits(t, s.disk, p, s.attempts[p], |s.evaluations|);
    MoveCheckpoints(t, s.disk, p, s.attempts[p], push, |s.evaluations|);
  }

  lemma MoveClaimant(t: Budget, s: System, p: nat, push: Push)
    requires Inv(t, s) && p < |s.attempts|
    ensures var disk := Step(t, s, Run(p, push)).disk; disk.claim.Whole? ==> disk.claim.value.attempt < |s.attempts|
  {
    hide AllDue, CheckpointsInOrder, SaveDue;
    assert Fits(t, s.disk, p, s.attempts[p], |s.evaluations|);
  }

  lemma MoveOwners(t: Budget, s: System, p: nat, push: Push)
    requires Inv(t, s) && p < |s.attempts|
    ensures SingleOwners(Step(t, s, Run(p, push)).attempts)
  {
    hide AllDue, CheckpointsInOrder, SaveDue;
    assert Fits(t, s.disk, p, s.attempts[p], |s.evaluations|);
    var after := Step(t, s, Run(p, push));
    forall q | 0 <= q < |s.attempts| && q != p && (OwnsSelection(s.attempts[q]) || OwnsClaim(s.attempts[q]))
      ensures OwnsSelection(after.attempts[p]) ==> !OwnsSelection(s.attempts[q])
      ensures OwnsClaim(after.attempts[p]) ==> !OwnsClaim(s.attempts[q])
    {
      assert Fits(t, s.disk, q, s.attempts[q], |s.evaluations|);
    }
  }

  /** Once the test is reported nobody owns the claim any more, and nobody can take it. */
  lemma MoveReported(t: Budget, s: System, p: nat, push: Push)
    requires Inv(t, s) && p < |s.attempts|
    ensures var after := Step(t, s, Run(p, push));
      after.disk.report.Some? && TestedReport(after.disk.report.value) ==> NoClaimOwner(after.attempts)
  {
    hide AllDue, CheckpointsInOrder, SaveDue;
    assert Fits(t, s.disk, p, s.attempts[p], |s.evaluations|);
    var after := Step(t, s, Run(p, push));
    if after.disk.report.Some? && TestedReport(after.disk.report.value) {
      forall q | 0 <= q < |after.attempts| ensures !OwnsClaim(after.attempts[q]) {
        assert q != p ==> after.attempts[q] == s.attempts[q];
      }
    }
  }

  lemma StepInv(t: Budget, s: System, a: Action)
    requires Inv(t, s)
    ensures Inv(t, Step(t, s, a))
  {
    if a.Run? && a.attempt < |s.attempts| {
      hide DiskInv, SingleOwners, Fits, Move, NoClaimOwner;
      var after := Step(t, s, a);
      MoveDiskInv(t, s, a.attempt, a.push);
      MoveClaimant(t, s, a.attempt, a.push);
      MoveOwners(t, s, a.attempt, a.push);
      MoveReported(t, s, a.attempt, a.push);
      forall q | 0 <= q < |after.attempts| ensures Fits(t, after.disk, q, after.attempts[q], |after.evaluations|) {
        if q == a.attempt {
          SelfFits(t, s, q, a.push);
        } else {
          OthersFit(t, s, a.attempt, a.push, q);
        }
      }
      MoveKeepsCreated(t, s.disk, a.attempt, s.attempts[a.attempt], a.push);
    }
  }

  lemma MoveKeepsCreated(t: Budget, disk: Disk, id: nat, at: Position, push: Push)
    ensures Move(t, disk, id, at, push).1.created == disk.created
  {
  }

  lemma InitialInv(t: Budget)
    ensures Inv(t, Initial())
  {
  }

  lemma {:induction false} RunInv(t: Budget, actions: seq<Action>)
    ensures Inv(t, RunAll(t, Initial(), actions))
  {
    InitialInv(t);
    ContinueInv(t, Initial(), actions);
  }

  lemma {:induction false} ContinueInv(t: Budget, s: System, actions: seq<Action>)
    requires Inv(t, s)
    ensures Inv(t, RunAll(t, s, actions)) && |s.attempts| <= |RunAll(t, s, actions).attempts|
  {
    hide Inv, Move;
    if actions != [] {
      ContinueInv(t, s, actions[..|actions| - 1]);
      StepInv(t, RunAll(t, s, actions[..|actions| - 1]), actions[|actions| - 1]);
    }
  }

  // ----- one evaluator, bound to the first committed selection -----

  /** In every run all test evaluations belong to one attempt and one claim, happen at most once each and in
      order, and the claim binds the selection record on disk, which passed the gate. */
  lemma {:induction false} OneEvaluator(t: Budget, actions: seq<Action>)
    ensures var s := RunAll(t, Initial(), actions);
      s.evaluations != [] ==>
        && s.disk.claim.Whole? && s.disk.selection == Whole(s.disk.claim.value.selection) && s.disk.selection.value.gatePassed
        && |s.evaluations| <= TEST_EVALUATIONS
        && forall i :: 0 <= i < |s.evaluations| ==>
             s.evaluations[i] == Evaluation(s.disk.claim.value.attempt, s.disk.claim.value, i)
  {
    hide RunAll, Fits, CheckpointsInOrder;
    RunInv(t, actions);
  }

  lemma CommittedStep(t: Budget, s: System, a: Action)
    requires Inv(t, s)
    ensures var after := Step(t, s, a);
      && (s.disk.selection.Whole? ==> after.disk.selection == s.disk.selection)
      && (s.disk.claim.Whole? ==> after.disk.claim == s.disk.claim)
      && (!s.disk.claim.Absent? ==> !after.disk.claim.Absent?)
      && s.disk.checkpoints <= after.disk.checkpoints
  {
    hide AllDue, CheckpointsInOrder, SaveDue;
    if a.Run? && a.attempt < |s.attempts| {
      assert Fits(t, s.disk, a.attempt, s.attempts[a.attempt], |s.evaluations|);
    }
  }

  /** A committed selection and a committed claim are final, and no checkpoint disappears. */
  lemma {:induction false} CommittedIsFinal(t: Budget, s: System, actions: seq<Action>)
    requires Inv(t, s)
    ensures var after := RunAll(t, s, actions);
      && (s.disk.selection.Whole? ==> after.disk.selection == s.disk.selection)
      && (s.disk.claim.Whole? ==> after.disk.claim == s.disk.claim)
      && (!s.disk.claim.Absent? ==> !after.disk.claim.Absent?)
      && s.disk.checkpoints <= after.disk.checkpoints
  {
    hide Inv, Step;
    if actions != [] {
      CommittedIsFinal(t, s, actions[..|actions| - 1]);
      ContinueInv(t, s, actions[..|actions| - 1]);
      CommittedStep(t, RunAll(t, s, actions[..|actions| - 1]), actions[|actions| - 1]);
    }
  }

  /** Positions that never train, select or evaluate. */
  predicate Turned(at: Position) {
    at == Starting(true) || at.ReportChecked? || at.Collecting? || at.Ended?
  }

  /** Once a claim exists, whole or partial, no attempt launched later ever trains or evaluates: it collects only,
      returns the complete report if there is one, or stops at the claim. */
  lemma {:induction false} LaterAttemptsStop(t: Budget, s: System, actions: seq<Action>, p: nat)
    requires Inv(t, s) && !s.disk.claim.Absent? && |s.attempts| <= p < |RunAll(t, s, actions).attempts|
    ensures Turned(RunAll(t, s, actions).attempts[p])
    ensures forall e :: e in RunAll(t, s, actions).evaluations ==> e.attempt != p
  {
    if actions != [] {
      hide Inv, Step, Turned;
      var before := RunAll(t, s, actions[..|actions| - 1]);
      ContinueInv(t, s, actions[..|actions| - 1]);
      CommittedIsFinal(t, s, actions[..|actions| - 1]);
      if p < |before.attempts| {
        LaterAttemptsStop(t, s, actions[..|actions| - 1], p);
      }
      TurnedStep(t, before, actions[|actions| - 1], p);
    }
  }

  lemma TurnedStep(t: Budget, s: System, a: Action, p: nat)
    requires Inv(t, s) && !s.disk.claim.Absent? && p < |Step(t, s, a).attempts|
    requires p < |s.attempts| ==> Turned(s.attempts[p]) && forall e :: e in s.evaluations ==> e.attempt != p
    ensures Turned(Step(t, s, a).attempts[p])
    ensures forall e :: e in Step(t, s, a).evaluations ==> e.attempt != p
  {
    hide AllDue, CheckpointsInOrder, SaveDue;
    EvaluatorsExist(t, s);
  }

  lemma EvaluatorsExist(t: Budget, s: System)
    requires Inv(t, s)
    ensures forall e :: e in s.evaluations ==> e.attempt < |s.attempts|
  {
  }

  ghost predicate Blocked(s: System) {
    && s.disk.selection.Partial? && s.disk.claim.Absent? && s.evaluations == []
    && forall p :: 0 <= p < |s.attempts| ==> !OwnsSelection(s.attempts[p])
  }

  lemma BlockedStep(t: Budget, s: System, a: Action)
    requires Inv(t, s) && Blocked(s)
    ensures Blocked(Step(t, s, a))
  {
    hide AllDue, CheckpointsInOrder, SaveDue;
    if a.Run? && a.attempt < |s.attempts| {
      assert Fits(t, s.disk, a.attempt, s.attempts[a.attempt], |s.evaluations|);
    }
  }

  /** A selection whose writer died half-way blocks the test for good: no claim, no evaluation, ever. */
  lemma {:induction false} DeadSelectionBlocks(t: Budget, s: System, actions: seq<Action>)
    requires Inv(t, s) && s.disk.selection.Partial? && forall p :: 0 <= p < |s.attempts| ==> !OwnsSelection(s.attempts[p])
    ensures Blocked(RunAll(t, s, actions))
  {
    hide Step, Fits;
    if actions != [] {
      DeadSelectionBlocks(t, s, actions[..|actions| - 1]);
      ContinueInv(t, s, actions[..|actions| - 1]);
      BlockedStep(t, RunAll(t, s, actions[..|actions| - 1]), actions[|actions| - 1]);
    }
  }

  // ----- when a complete report stays -----

  predicate Finished(disk: Disk) {
    disk.report.Some? && disk.report.value.CompleteReport?
  }

  predicate PassedOnDisk(disk: Disk) {
    disk.selection.Whole? && disk.selection.value.gatePassed
  }

  /** Before its next due save, which would be refused, an attempt at `step` comes by a step it could still save. */
  ghost predicate CanSave(t: Budget, checkpoints: set<nat>, step: nat) {
    exists k: nat :: FreeStep(t, checkpoints, step, k)
  }

  ghost predicate FreeStep(t: Budget, checkpoints: set<nat>, step: nat, k: nat) {
    step <= k < TotalSteps(t) && k !in checkpoints && forall d :: step < d <= k ==> !SaveDue(t, d)
  }

  /** With a complete report on disk: an attempt that can still replace it. A collect-only one always does; the
      others can if they are where a pause would still be reported. */
  ghost predicate Threat(t: Budget, disk: Disk, at: Position) {
    match at
    case Collecting => true
    case Loading => PassedOnDisk(disk)
    case Stepping(step, last) =>
      if step == TotalSteps(t) then PassedOnDisk(disk) else step == last || CanSave(t, disk.checkpoints, step)
    case Choosing => true
    case Selected(s) => s.gatePassed
    case Reporting(r) => !r.CompleteReport?
    case _ => false
  }

  ghost predicate NoThreat(t: Budget, s: System) {
    forall p :: 0 <= p < |s.attempts| ==> !Threat(t, s.disk, s.attempts[p])
  }

  ghost predicate Settled(t: Budget, s: System) {
    Inv(t, s) && Finished(s.disk) && NoThreat(t, s)
  }

  predicate NoneCollects(actions: seq<Action>) {
    forall i :: 0 <= i < |actions| && actions[i].Launch? ==> !actions[i].collectOnly
  }

  /** A finished directory holds every due checkpoint, the last one included. */
  lemma FinishedHasAll(t: Budget, s: System)
    requires Inv(t, s) && Finished(s.disk)
    ensures s.disk.selection.Whole? && AllDue(t, s.disk.checkpoints, TotalSteps(t))
    ensures 0 in s.disk.checkpoints && Latest(s.disk.checkpoints) == TotalSteps(t)
    ensures s.disk.claim.Absent? <==> !PassedOnDisk(s.disk)
  {
    TotalIsDue(t);
    assert TotalSteps(t) in s.disk.checkpoints;
  }

  /** An attempt that is no threat and takes a training step in a finished directory does not become one. */
  lemma TrainingEnds(t: Budget, disk: Disk, step: nat, last: nat, pause: bool)
    requires AllDue(t, disk.checkpoints, TotalSteps(t)) && last <= step < TotalSteps(t)
    requires !Threat(t, disk, Stepping(step, last))
    ensures var (next, after) := Train(t, disk, step, last, pause);
      after == disk && !Threat(t, disk, next)
  {
    TotalIsDue(t);
    assert step !in disk.checkpoints ==> FreeStep(t, disk.checkpoints, step, step);
    if !SaveDue(t, step + 1) && CanSave(t, disk.checkpoints, step + 1) {
      var k: nat :| FreeStep(t, disk.checkpoints, step + 1, k);
      assert FreeStep(t, disk.checkpoints, step, k);
    }
  }

  lemma MoveSettled(t: Budget, s: System, p: nat, push: Push)
    requires Settled(t, s) && p < |s.attempts|
    ensures var (next, after) := Move(t, s.disk, p, s.attempts[p], push);
      Finished(after) && !Threat(t, after, next) && after.selection == s.disk.selection && after.checkpoints == s.disk.checkpoints
  {
    hide AllDue, CheckpointsInOrder, SaveDue, CanSave;
    FinishedHasAll(t, s);
    var at := s.attempts[p];
    assert Fits(t, s.disk, p, at, |s.evaluations|);
    if at.Stepping? && at.step < TotalSteps(t) {
      TrainingEnds(t, s.disk, at.step, at.last, push.Pause?);
    }
  }

  lemma ThreatsAlike(t: Budget, before: Disk, after: Disk, at: Position)
    requires before.selection == after.selection && before.checkpoints == after.checkpoints
    ensures Threat(t, before, at) == Threat(t, after, at)
  {
  }

  lemma StepSettled(t: Budget, s: System, a: Action)
    requires Settled(t, s) && (a.Launch? ==> !a.collectOnly)
    ensures Settled(t, Step(t, s, a))
  {
    hide Inv, Move, Threat;
    StepInv(t, s, a);
    var after := Step(t, s, a);
    StartIsNoThreat(t, s.disk);
    if a.Run? && a.attempt < |s.attempts| {
      MoveSettled(t, s, a.attempt, a.push);
    }
    forall q | 0 <= q < |after.attempts| ensures !Threat(t, after.disk, after.attempts[q]) {
      if q < |s.attempts| {
        ThreatsAlike(t, s.disk, after.disk, s.attempts[q]);
      } else {
        ThreatsAlike(t, s.disk, after.disk, after.attempts[q]);
      }
    }
  }

  lemma StartIsNoThreat(t: Budget, disk: Disk)
    ensures !Threat(t, disk, Starting(true)) && !Threat(t, disk, Starting(false))
  {
  }

  lemma {:induction false} SettledStays(t: Budget, s: System, actions: seq<Action>)
    requires Settled(t, s) && NoneCollects(actions)
    ensures Settled(t, RunAll(t, s, actions))
  {
    hide Settled, Step;
    if actions != [] {
      SettledStays(t, s, actions[..|actions| - 1]);
      StepSettled(t, RunAll(t, s, actions[..|actions| - 1]), actions[|actions| - 1]);
    }
  }

  // ----- every threat is real -----

  /** Some continuation of the attempts at hand replaces the report. */
  ghost predicate CanLose(t: Budget, s: System) {
    exists actions :: NoneCollects(actions) && !Finished(RunAll(t, s, actions).disk)
  }

  lemma {:induction false} RunFirst(t: Budget, s: System, a: Action, more: seq<Action>)
    ensures RunAll(t, s, [a] + more) == RunAll(t, Step(t, s, a), more)
  {
    hide Step;
    if more == [] {
      assert ([a] + more)[..0] == [];
      assert RunAll(t, s, []) == s;
    } else {
      assert ([a] + more)[..|more|] == [a] + more[..|more| - 1];
      RunFirst(t, s, a, more[..|more| - 1]);
    }
  }

  lemma LosesOneStepEarlier(t: Budget, s: System, a: Action)
    requires CanLose(t, Step(t, s, a)) && (a.Launch? ==> !a.collectOnly)
    ensures CanLose(t, s)
  {
    hide Step, Finished;
    var more :| NoneCollects(more) && !Finished(RunAll(t, Step(t, s, a), more).disk);
    RunFirst(t, s, a, more);
    assert NoneCollects([a] + more);
  }

  lemma LosesNow(t: Budget, s: System, a: Action)
    requires !Finished(Step(t, s, a).disk) && a.Run?
    ensures CanLose(t, s)
  {
    hide Step, Finished;
    RunFirst(t, s, a, []);
    assert [a] + [] == [a];
    assert NoneCollects([a]);
  }

  const GO := Go(Selection(0, false))

  lemma ReportLoses(t: Budget, s: System, p: nat)
    requires p < |s.attempts|
    requires s.attempts[p].Collecting? || (s.attempts[p].Reporting? && !s.attempts[p].report.CompleteReport?)
    ensures CanLose(t, s)
  {
    hide CanLose;
    LosesNow(t, s, Run(p, GO));
  }

  lemma PauseLoses(t: Budget, s: System, p: nat)
    requires p < |s.attempts|
    requires var at := s.attempts[p];
      || at.Choosing? || (at.Selected? && at.selection.gatePassed)
      || (at.Stepping? && at.step < TotalSteps(t) && (at.step == at.last || at.step !in s.disk.checkpoints))
    ensures CanLose(t, s)
  {
    hide CanLose;
    ReportLoses(t, Step(t, s, Run(p, Pause)), p);
    LosesOneStepEarlier(t, s, Run(p, Pause));
  }

  lemma {:induction false} WalkLoses(t: Budget, s: System, p: nat, k: nat)
    requires p < |s.attempts| && s.attempts[p].Stepping?
    requires FreeStep(t, s.disk.checkpoints, s.attempts[p].step, k)
    ensures CanLose(t, s)
    decreases k - s.attempts[p].step
  {
    hide CanLose;
    if k == s.attempts[p].step {
      PauseLoses(t, s, p);
    } else {
      var next := Step(t, s, Run(p, GO));
      assert next.attempts[p] == Stepping(s.attempts[p].step + 1, s.attempts[p].last) && next.disk == s.disk;
      WalkLoses(t, next, p, k);
      LosesOneStepEarlier(t, s, Run(p, GO));
    }
  }

  lemma LastStepLoses(t: Budget, s: System, p: nat)
    requires p < |s.attempts| && s.attempts[p].Stepping? && s.attempts[p].step >= TotalSteps(t) && PassedOnDisk(s.disk)
    ensures CanLose(t, s)
  {
    hide CanLose;
    PauseLoses(t, Step(t, s, Run(p, GO)), p);
    LosesOneStepEarlier(t, s, Run(p, GO));
  }

  lemma ThreatIsReal(t: Budget, s: System, p: nat)
    requires Inv(t, s) && Finished(s.disk) && p < |s.attempts| && Threat(t, s.disk, s.attempts[p])
    ensures CanLose(t, s)
  {
    hide CanLose, AllDue, CheckpointsInOrder, SaveDue, FreeStep;
    FinishedHasAll(t, s);
    var at := s.attempts[p];
    assert Fits(t, s.disk, p, at, |s.evaluations|);
    match at
    case Collecting => ReportLoses(t, s, p);
    case Reporting(_) => ReportLoses(t, s, p);
    case Loading =>
      LastStepLoses(t, Step(t, s, Run(p, GO)), p);
      LosesOneStepEarlier(t, s, Run(p, GO));
    case Stepping(step, last) =>
      if step == TotalSteps(t) {
        LastStepLoses(t, s, p);
      } else if step == last {
        PauseLoses(t, s, p);
      } else {
        var k: nat :| FreeStep(t, s.disk.checkpoints, step, k);
        WalkLoses(t, s, p, k);
      }
    case _ => PauseLoses(t, s, p);
  }

  /** As long as nobody launches another collect-only attempt, a complete report stays exactly when no attempt at
      hand is a threat; with no other attempt alive it always does. */
  lemma {:induction false} CompleteReportStaysIff(t: Budget, s: System)
    requires Inv(t, s) && Finished(s.disk)
    ensures (forall actions :: NoneCollects(actions) ==> Finished(RunAll(t, s, actions).disk)) <==> NoThreat(t, s)
    ensures (forall p :: 0 <= p < |s.attempts| ==> s.attempts[p].Ended?) ==> NoThreat(t, s)
  {
    hide Inv, RunAll, Threat, Finished;
    EndedIsNoThreat(t, s.disk);
    if p :| 0 <= p < |s.attempts| && Threat(t, s.disk, s.attempts[p]) {
      ThreatIsReal(t, s, p);
    } else {
      forall actions: seq<Action> | NoneCollects(actions) ensures Finished(RunAll(t, s, actions).disk) {
        SettledStays(t, s, actions);
      }
    }
  }

  lemma EndedIsNoThreat(t: Budget, disk: Disk)
    ensures !Threat(t, disk, Ended)
  {
  }

  // ----- collect-only launches -----

  /** A used claim that no attempt owns any more, without the report of its test. */
  ghost predicate TestLost(s: System) {
    !s.disk.claim.Absent? && NoClaimOwner(s.attempts) && !Finished(s.disk)
  }

  lemma TestLostStep(t: Budget, s: System, a: Action)
    requires Inv(t, s) && TestLost(s)
    ensures TestLost(Step(t, s, a))
  {
    hide AllDue, CheckpointsInOrder, SaveDue;
    if a.Run? && a.attempt < |s.attempts| {
      assert Fits(t, s.disk, a.attempt, s.attempts[a.attempt], |s.evaluations|);
    }
  }

  lemma {:induction false} TestStaysLost(t: Budget, s: System, actions: seq<Action>)
    requires Inv(t, s) && TestLost(s)
    ensures TestLost(RunAll(t, s, actions))
  {
    hide Inv, Step, TestLost;
    if actions != [] {
      TestStaysLost(t, s, actions[..|actions| - 1]);
      ContinueInv(t, s, actions[..|actions| - 1]);
      TestLostStep(t, RunAll(t, s, actions[..|actions| - 1]), actions[|actions| - 1]);
    }
  }

  /** The state after a collect-only resume of a finished directory, left to run. */
  ghost function CollectedAgain(t: Budget, s: System): System {
    Step(t, Step(t, s, Launch(true, true)), Run(|s.attempts|, GO))
  }

  lemma CollectingAgain(t: Budget, s: System)
    requires Inv(t, s) && Finished(s.disk)
    ensures var after := CollectedAgain(t, s);
      && Inv(t, after) && after.disk == s.disk.(report := Some(CorpusReport))
      && |after.attempts| == |s.attempts| + 1
      && (PassedOnDisk(s.disk) ==> TestLost(after))
  {
    hide DiskInv, Fits;
    StepInv(t, s, Launch(true, true));
    StepInv(t, Step(t, s, Launch(true, true)), Run(|s.attempts|, GO));
    FinishedHasAll(t, s);
    PassedIsTested(t, s);
  }

  lemma PassedIsTested(t: Budget, s: System)
    requires Inv(t, s) && Finished(s.disk)
    ensures PassedOnDisk(s.disk) ==> NoClaimOwner(s.attempts)
  {
    hide AllDue, CheckpointsInOrder;
  }

  /** A complete report can come back. */
  ghost predicate CanFinish(t: Budget, s: System) {
    exists actions :: Finished(RunAll(t, s, actions).disk)
  }

  lemma FinishedNow(t: Budget, s: System)
    requires Finished(s.disk)
    ensures CanFinish(t, s)
  {
    assert RunAll(t, s, []) == s;
  }

  lemma FinishesOneStepEarlier(t: Budget, s: System, a: Action)
    requires CanFinish(t, Step(t, s, a))
    ensures CanFinish(t, s)
  {
    hide Step, Finished;
    var more :| Finished(RunAll(t, Step(t, s, a), more).disk);
    RunFirst(t, s, a, more);
  }

  /** An attempt that finds the failed selection writes the complete report. */
  lemma SelectedFinishes(t: Budget, s: System, p: nat)
    requires p < |s.attempts| && s.attempts[p].Selected? && !s.attempts[p].selection.gatePassed
    ensures CanFinish(t, s)
  {
    hide CanFinish;
    var go := Run(p, GO);
    var s1 := Step(t, s, go);
    assert s1.attempts[p] == Reporting(CompleteReport(s.attempts[p].selection, None));
    FinishedNow(t, Step(t, s1, go));
    FinishesOneStepEarlier(t, s1, go);
    FinishesOneStepEarlier(t, s, go);
  }

  /** A resume of a finished training run whose selection failed the gate writes the complete report. */
  lemma ResumeFinishes(t: Budget, s: System)
    requires Inv(t, s) && s.disk.created && !Finished(s.disk) && s.disk.claim.Absent?
    requires s.disk.selection.Whole? && !s.disk.selection.value.gatePassed
    ensures CanFinish(t, s)
  {
    hide AllDue, CheckpointsInOrder, SaveDue, CanFinish;
    var p := |s.attempts|;
    LatestIsTotal(t, s);
    var launch, go := Launch(true, false), Run(p, GO);
    var s1 := Step(t, s, launch);
    var s2 := Step(t, s1, go);
    assert s2.attempts[p] == ReportChecked && s2.disk == s.disk;
    var s3 := Step(t, s2, go);
    assert s3.attempts[p] == Loading && s3.disk == s.disk;
    var s4 := Step(t, s3, go);
    assert s4.attempts[p] == Stepping(TotalSteps(t), TotalSteps(t)) && s4.disk == s.disk;
    SelectedFinishes(t, Step(t, s4, go), p);
    FinishesOneStepEarlier(t, s4, go);
    FinishesOneStepEarlier(t, s3, go);
    FinishesOneStepEarlier(t, s2, go);
    FinishesOneStepEarlier(t, s1, go);
    FinishesOneStepEarlier(t, s, launch);
  }

  lemma LatestIsTotal(t: Budget, s: System)
    requires Inv(t, s) && !s.disk.selection.Absent?
    ensures s.disk.checkpoints != {} && Latest(s.disk.checkpoints) == TotalSteps(t)
  {
    assert TotalSteps(t) in s.disk.checkpoints;
  }

  /** A collect-only resume of a finished directory always replaces the complete report, even with no other
      attempt alive; a complete report can come back exactly when the selection had failed the gate. */
  lemma CollectOnlyLosesTheReport(t: Budget, s: System)
    requires Inv(t, s) && Finished(s.disk)
    ensures !Finished(CollectedAgain(t, s).disk)
    ensures CanFinish(t, CollectedAgain(t, s)) <==> !PassedOnDisk(s.disk)
  {
    hide Inv, CollectedAgain, RunAll, CanFinish;
    var after := CollectedAgain(t, s);
    CollectingAgain(t, s);
    FinishedHasAll(t, s);
    if PassedOnDisk(s.disk) {
      NeverFinishes(t, after);
    } else {
      WasCreated(t, s);
      ResumeFinishes(t, after);
    }
  }

  lemma WasCreated(t: Budget, s: System)
    requires Inv(t, s) && Finished(s.disk)
    ensures s.disk.created
  {
  }

  lemma NeverFinishes(t: Budget, s: System)
    requires Inv(t, s) && TestLost(s)
    ensures !CanFinish(t, s)
  {
    hide Inv, RunAll;
    forall actions: seq<Action> ensures !Finished(RunAll(t, s, actions).disk) {
      TestStaysLost(t, s, actions);
    }
  }

  // ----- an overlap that loses the report -----

  /** Attempt 0 has trained `n` steps, attempt 1 has resumed from the first checkpoint and stands there. */
  ghost predicate BothTraining(s: System, n: nat) {
    && s.disk.created && s.disk.selection.Absent? && s.disk.claim.Absent? && s.disk.report.None? && s.evaluations == []
    && |s.attempts| == 2 && s.attempts[0].Stepping? && s.attempts[0].step == n && s.attempts[1] == Stepping(0, 0)
    && 0 in s.disk.checkpoints && forall c :: c in s.disk.checkpoints ==> c <= n
  }

  lemma BothTrain(t: Budget) returns (run: seq<Action>, s: System)
    ensures s == RunAll(t, Initial(), run) && NoneCollects(run) && BothTraining(s, 0)
  {
    hide RunAll;
    assert RunAll(t, Initial(), []) == Initial() by { EmptyRun(t); }
    run, s := Then(t, [], Initial(), Launch(false, false));
    run, s := Then(t, run, s, Run(0, GO));
    run, s := Then(t, run, s, Run(0, GO));
    assert s == System(Disk(true, {0}, Absent, Absent, None), [Stepping(0, 0)], []);
    run, s := Then(t, run, s, Launch(true, false));
    run, s := Then(t, run, s, Run(1, GO));
    run, s := Then(t, run, s, Run(1, GO));
    assert s == System(Disk(true, {0}, Absent, Absent, None), [Stepping(0, 0), Loading], []);
    run, s := Then(t, run, s, Run(1, GO));
  }

  lemma {:induction false} OneTrainsOn(t: Budget, n: nat) returns (run: seq<Action>, s: System)
    requires n <= TotalSteps(t)
    ensures s == RunAll(t, Initial(), run) && NoneCollects(run) && BothTraining(s, n)
  {
    hide RunAll, SaveDue;
    if n == 0 {
      run, s := BothTrain(t);
    } else {
      run, s := OneTrainsOn(t, n - 1);
      run, s := Then(t, run, s, Run(0, GO));
    }
  }

  /** The first attempt selects a checkpoint that passes the gate. */
  lemma FirstSelects(t: Budget, chosen: Selection) returns (run: seq<Action>, s: System)
    ensures s == RunAll(t, Initial(), run) && NoneCollects(run)
    ensures s.attempts == [Selected(chosen), Stepping(0, 0)] && s.disk.claim.Absent? && s.evaluations == []
  {
    hide RunAll, SaveDue, NoneCollects;
    run, s := OneTrainsOn(t, TotalSteps(t));
    run, s := Then(t, run, s, Run(0, Go(chosen)));
    run, s := Then(t, run, s, Run(0, Go(chosen)));
    run, s := Then(t, run, s, Run(0, Go(chosen)));
  }

  lemma FirstEvaluates(t: Budget, chosen: Selection) returns (run: seq<Action>, s: System)
    requires chosen.gatePassed
    ensures s == RunAll(t, Initial(), run) && NoneCollects(run)
    ensures s.attempts == [Evaluating(Claim(chosen, 0), 3), Stepping(0, 0)] && |s.evaluations| == 3
  {
    hide RunAll, SaveDue, NoneCollects, Train, Begin;
    var claim := Claim(chosen, 0);
    run, s := FirstSelects(t, chosen);
    run, s := Then(t, run, s, Run(0, GO));
    run, s := Then(t, run, s, Run(0, GO));
    assert s.attempts == [Evaluating(claim, 0), Stepping(0, 0)] && s.evaluations == [];
    run, s := Then(t, run, s, Run(0, GO));
    run, s := Then(t, run, s, Run(0, GO));
    run, s := Then(t, run, s, Run(0, GO));
  }

  /** The first attempt evaluates the test and reports. */
  lemma FirstFinishes(t: Budget, chosen: Selection) returns (run: seq<Action>, s: System)
    requires chosen.gatePassed
    ensures s == RunAll(t, Initial(), run) && NoneCollects(run)
    ensures s.attempts == [Ended, Stepping(0, 0)] && |s.evaluations| == TEST_EVALUATIONS
    ensures Finished(s.disk) && TestedReport(s.disk.report.value)
  {
    hide RunAll, SaveDue, NoneCollects, Train, Begin;
    run, s := FirstEvaluates(t, chosen);
    run, s := Then(t, run, s, Run(0, GO));
    run, s := Then(t, run, s, Run(0, GO));
  }

  /** With any training budget two overlapping attempts can lose a complete report of an evaluated test: the second
      resumed before there was a claim, is still at the checkpoint it resumed from, and pauses there. */
  lemma OverlappingAttemptsLoseTheReport(t: Budget)
    ensures exists actions, more: seq<Action> ::
      && var s := RunAll(t, Initial(), actions);
      && Finished(s.disk) && TestedReport(s.disk.report.value) && |s.evaluations| == TEST_EVALUATIONS
      && NoneCollects(actions + more) && !Finished(RunAll(t, s, more).disk)
  {
    hide RunAll, Inv;
    var run, s := FirstFinishes(t, Selection(1, true));
    TotalIsDue(t);
    PauseLoses(t, s, 1);
    var more :| NoneCollects(more) && !Finished(RunAll(t, s, more).disk);
    assert NoneCollects(run + more);
  }

  lemma {:induction false} EmptyRun(t: Budget)
    ensures RunAll(t, Initial(), []) == Initial()
  {
  }

  lemma Then(t: Budget, run: seq<Action>, s: System, a: Action) returns (longer: seq<Action>, next: System)
    requires s == RunAll(t, Initial(), run)
    requires NoneCollects(run) && (a.Launch? ==> !a.collectOnly)
    ensures next == RunAll(t, Initial(), longer) == Step(t, s, a)
    ensures NoneCollects(longer)
  {
    longer, next := run + [a], Step(t, s, a);
    assert longer[..|longer| - 1] == run;
  }
}
