/** The one-time validation claim: selection runs that fail, die or race at any step, on any number of output
    directories and claims. */
module SelectionClaim {
  import opened ActionChunks

  /** A record created with O_EXCL and then written. Evidence is identified by the run that wrote it. */
  datatype File<T> = Absent | Partial | Whole(value: T)

  datatype Status = Initialized | PreflightComplete | Claimed | Evaluating | Complete | Burned | Error

  datatype Name = StatusFile | PreflightFile | ClaimFile | SelectionFile | AuditFile

  /** `owner` is history: the run whose mkdir made the directory. */
  datatype Directory = Directory(owner: nat, status: File<Status>, preflight: File<nat>, claim: File<nat>, selection: File<nat>, audit: File<nat>)

  // ----- the program of one run -----

  /** One operation of `_run_selection` that another process or a failure can come between. `SyncFile` is what
      follows a write or a replacement: a raise there leaves the file whole. */
  datatype Op =
    | Check
    | External
    | Mkdir
    | Sync
    | Open(name: Name)
    | Write(name: Name)
    | SyncFile
    | Replace(status: Status)
    | OpenSentinel
    | WriteSentinel
    | LoadValidation
    | ReadStatus

  const MKDIR := 2
  const SYNC := 3
  const WRITE_STATUS := 5
  const WRITE_PREFLIGHT := 9
  const OPEN_SENTINEL := 14
  const VERIFY_RECEIPT := 17
  const WRITE_CLAIM := 19
  const LOAD_VALIDATION := 23
  const EVALUATING := 25

  /** The position just after the last of `n` candidates is evaluated. */
  function Selecting(n: nat): nat { EVALUATING + 3 * n }

  function FinalRead(n: nat): nat { Selecting(n) + 11 }

  /** The operations in order: create, preflight, claim, open held-out data, evaluate `n` candidates, select,
      audit, complete. */
  function OpAt(n: nat, pc: nat): Op {
    if pc < EVALUATING then OpeningOp(pc)
    else if pc < Selecting(n) then
      (if (pc - EVALUATING) % 3 == 1 then Replace(Evaluating) else if (pc - EVALUATING) % 3 == 2 then SyncFile else External)
    else ClosingOp(pc - Selecting(n))
  }

  function OpeningOp(pc: nat): Op {
    if pc == 0 then Check
    else if pc == MKDIR then Mkdir
    else if pc == SYNC then Sync
    else if pc == 4 then Open(StatusFile) else if pc == WRITE_STATUS then Write(StatusFile) else if pc == 6 then SyncFile
    else if pc == 8 then Open(PreflightFile) else if pc == WRITE_PREFLIGHT then Write(PreflightFile) else if pc == 10 then SyncFile
    else if pc == 11 then Replace(PreflightComplete) else if pc == 12 then SyncFile
    else if pc == OPEN_SENTINEL then OpenSentinel else if pc == 15 then WriteSentinel else if pc == 16 then SyncFile
    else if pc == 18 then Open(ClaimFile) else if pc == WRITE_CLAIM then Write(ClaimFile) else if pc == 20 then SyncFile
    else if pc == 21 then Replace(Claimed) else if pc == 22 then SyncFile
    else if pc == LOAD_VALIDATION then LoadValidation
    else External
  }

  function ClosingOp(k: nat): Op {
    if k == 1 then Open(SelectionFile) else if k == 2 then Write(SelectionFile) else if k == 3 then SyncFile
    else if k == 5 then Open(AuditFile) else if k == 6 then Write(AuditFile) else if k == 7 then SyncFile
    else if k == 9 then Replace(Complete) else if k == 10 then SyncFile
    else if k == 11 then ReadStatus
    else External
  }

  /** A run: the directory and claim it was given, how far it got, and how it stands. */
  datatype Mode = Running | Failing | Returned | Raised | Killed
  datatype Run = Run(directory: nat, claimId: int, pc: nat, created: bool, claimed: bool, mode: Mode, reported: bool)

  /** `openings` is history: the runs that opened the held-out shards, in order. */
  datatype System = System(directories: map<nat, Directory>, sentinels: map<int, File<nat>>, runs: seq<Run>, openings: seq<nat>)

  /** How an operation goes, as far as the outside decides it. */
  datatype Event = Succeed | Raise | Kill

  datatype Action = Launch(directory: nat, claimId: int) | Move(run: nat, event: Event)

  function FileNamed(d: Directory, name: Name): File<nat>
    requires name != StatusFile
  {
    match name
    case PreflightFile => d.preflight
    case ClaimFile => d.claim
    case SelectionFile => d.selection
    case AuditFile => d.audit
  }

  function WithFile(d: Directory, name: Name, f: File<nat>): Directory
    requires name != StatusFile
  {
    match name
    case PreflightFile => d.(preflight := f)
    case ClaimFile => d.(claim := f)
    case SelectionFile => d.(selection := f)
    case AuditFile => d.(audit := f)
  }

  /** Whether an exclusive creation finds the name free. */
  predicate Free(s: System, r: Run, op: Op) {
    match op
    case Check => r.directory !in s.directories
    case Mkdir => r.directory !in s.directories
    case Open(name) =>
      r.directory in s.directories
      && (if name == StatusFile then s.directories[r.directory].status == Absent else FileNamed(s.directories[r.directory], name) == Absent)
    case OpenSentinel => r.claimId !in s.sentinels
    case _ => true
  }

  function Fresh(p: nat): Directory {
    Directory(p, Absent, Absent, Absent, Absent, Absent)
  }

  /** What an operation of run `p` does to its directory. */
  function Applied(d: Directory, p: nat, op: Op): Directory {
    match op
    case Open(name) => if name == StatusFile then d.(status := Partial) else WithFile(d, name, Partial)
    case Write(name) => if name == StatusFile then d.(status := Whole(Initialized)) else WithFile(d, name, Whole(p))
    case Replace(status) => d.(status := Whole(status))
    case _ => d
  }

  predicate TouchesDirectory(op: Op) {
    op.Open? || op.Write? || op.Replace?
  }

  /** The files after a successful operation of run `p`. */
  function Effect(s: System, p: nat, op: Op): System
    requires p < |s.runs|
  {
    var r := s.runs[p];
    var d := if r.directory in s.directories then s.directories[r.directory] else Fresh(p);
    if TouchesDirectory(op) then s.(directories := s.directories[r.directory := Applied(d, p, op)])
    else
      match op
      case Mkdir => s.(directories := s.directories[r.directory := Fresh(p)])
      case OpenSentinel => s.(sentinels := s.sentinels[r.claimId := Partial])
      case WriteSentinel => s.(sentinels := s.sentinels[r.claimId := Whole(p)])
      case LoadValidation => s.(openings := s.openings + [p])
      case _ => s
  }

  function FailureStatus(claimed: bool): Status {
    if claimed then Burned else Error
  }

  /** One move: an operation, or the exception handler's replacement of the status. */
  function Step(n: nat, s: System, a: Action): System {
    match a
    case Launch(directory, claimId) => s.(runs := s.runs + [Run(directory, claimId, 0, false, false, Running, false)])
    case Move(p, event) =>
      if p >= |s.runs| then s
      else
        var r := s.runs[p];
        if !r.mode.Running? && !r.mode.Failing? then s
        else if event.Kill? then s.(runs := s.runs[p := r.(mode := Killed)])
        else if r.mode.Failing? then
          (if !r.created || event.Raise? then s.(runs := s.runs[p := r.(mode := Raised)])
           else Effect(s, p, Replace(FailureStatus(r.claimed))).(runs := s.runs[p := r.(mode := Raised, reported := true)]))
        else
          var op := OpAt(n, r.pc);
          var tried := if op.OpenSentinel? then r.(claimed := true) else r;
          if event.Raise? || !Free(s, r, op) then s.(runs := s.runs[p := tried.(mode := Failing)])
          else Effect(s, p, op).(runs := s.runs[p := tried.(pc := r.pc + 1, created := r.created || op.Sync?,
                                                             mode := if r.pc == FinalRead(n) then Returned else Running)])
  }

  function Nothing(): System {
    System(map[], map[], [], [])
  }

  function RunAll(n: nat, s: System, actions: seq<Action>): System {
    if actions == [] then s else Step(n, RunAll(n, s, actions[..|actions| - 1]), actions[|actions| - 1])
  }

  // ----- the files are what their owner's position says -----

  /** An evidence file, from how far its run got. */
  function EvidenceAt(p: nat, pc: nat, written: nat): File<nat> {
    if pc < written then Absent else if pc == written then Partial else Whole(p)
  }

  /** The status a run has written by a position. */
  function StatusAt(n: nat, pc: nat): File<Status> {
    if pc <= 4 then Absent
    else if pc == WRITE_STATUS then Partial
    else if pc <= 11 then Whole(Initialized)
    else if pc <= 21 then Whole(PreflightComplete)
    else if pc <= EVALUATING + 1 then Whole(Claimed)
    else if pc <= Selecting(n) + 9 then Whole(if n == 0 then Claimed else Evaluating)
    else Whole(Complete)
  }

  function DirectoryOf(n: nat, p: nat, r: Run): Directory {
    Directory(p, if r.reported then Whole(FailureStatus(r.claimed)) else StatusAt(n, r.pc),
              EvidenceAt(p, r.pc, WRITE_PREFLIGHT), EvidenceAt(p, r.pc, WRITE_CLAIM),
              EvidenceAt(p, r.pc, Selecting(n) + 2), EvidenceAt(p, r.pc, Selecting(n) + 6))
  }

  /** What a run knows about itself. */
  ghost predicate RunFits(n: nat, r: Run) {
    && r.pc <= FinalRead(n) + 1
    && (r.created <==> r.pc > SYNC)
    && (r.claimed ==> r.pc >= OPEN_SENTINEL)
    && (r.pc > OPEN_SENTINEL ==> r.claimed)
    && (r.pc == OPEN_SENTINEL && r.claimed ==> !r.mode.Running?)
    && (r.mode.Failing? || r.mode.Raised? ==> r.pc <= FinalRead(n) && (r.pc == OPEN_SENTINEL ==> r.claimed))
    && (r.mode.Returned? <==> r.pc == FinalRead(n) + 1)
    && (r.reported ==> r.mode.Raised? && r.created)
  }

  ghost predicate OwnsDirectory(r: Run) { r.pc > MKDIR }
  ghost predicate OwnsClaim(r: Run) { r.pc > OPEN_SENTINEL }

  ghost predicate RunsFit(n: nat, s: System) {
    forall p :: 0 <= p < |s.runs| ==> RunFits(n, s.runs[p])
  }

  /** Every directory is owned by one run, and holds exactly what that run's position says. */
  ghost predicate DirectoriesFit(n: nat, s: System) {
    && (forall d :: d in s.directories ==>
          var p := s.directories[d].owner;
          p < |s.runs| && OwnsDirectory(s.runs[p]) && s.runs[p].directory == d && s.directories[d] == DirectoryOf(n, p, s.runs[p]))
    && (forall p: nat :: p < |s.runs| && OwnsDirectory(s.runs[p]) ==>
          s.runs[p].directory in s.directories && s.directories[s.runs[p].directory].owner == p)
  }

  ghost predicate SameClaim(s: System, p: nat, q: nat)
    requires p < |s.runs| && q < |s.runs|
  {
    OwnsClaim(s.runs[p]) && OwnsClaim(s.runs[q]) && s.runs[p].claimId == s.runs[q].claimId
  }

  /** Every sentinel is owned by one run. */
  ghost predicate ClaimsFit(s: System) {
    && (forall p: nat :: p < |s.runs| && OwnsClaim(s.runs[p]) ==>
          s.runs[p].claimId in s.sentinels && s.sentinels[s.runs[p].claimId] == EvidenceAt(p, s.runs[p].pc, OPEN_SENTINEL + 1))
    && (forall p: nat, q: nat :: p < |s.runs| && q < |s.runs| && SameClaim(s, p, q) ==> p == q)
  }

  ghost predicate OpeningsFit(s: System) {
    && (forall p: nat :: p in s.openings <==> p < |s.runs| && s.runs[p].pc > LOAD_VALIDATION)
    && (forall i, j :: 0 <= i < j < |s.openings| ==> s.openings[i] != s.openings[j])
  }

  ghost predicate Inv(n: nat, s: System) {
    RunsFit(n, s) && DirectoriesFit(n, s) && ClaimsFit(s) && OpeningsFit(s)
  }

  /** Each operation carries the directory from what one position says to what the next says. */
  lemma OperationsFit(n: nat, p: nat, r: Run)
    requires RunFits(n, r) && r.mode.Running? && OwnsDirectory(r)
    ensures DirectoryOf(n, p, r.(pc := r.pc + 1)) == Applied(DirectoryOf(n, p, r), p, OpAt(n, r.pc))
  {
  }

  lemma StepRuns(n: nat, s: System, a: Action)
    requires Inv(n, s)
    ensures RunsFit(n, Step(n, s, a))
  {
    hide DirectoriesFit, ClaimsFit, OpeningsFit, Effect;
    if a.Move? && a.run < |s.runs| {
      assert RunFits(n, s.runs[a.run]);
    }
  }

  /** Rewriting the directory one owns, or a fresh one, to what one's new position says. */
  lemma RewriteOwn(n: nat, s: System, p: nat, r: Run, t: System)
    requires DirectoriesFit(n, s) && p < |s.runs| && r.directory == s.runs[p].directory && OwnsDirectory(r)
    requires OwnsDirectory(s.runs[p]) || r.directory !in s.directories
    requires t.runs == s.runs[p := r] && t.directories == s.directories[r.directory := DirectoryOf(n, p, r)]
    ensures DirectoriesFit(n, t)
  {
    hide DirectoryOf;
    assert DirectoryOf(n, p, r).owner == p by {
      OwnerOf(n, p, r);
    }
  }

  lemma OwnerOf(n: nat, p: nat, r: Run)
    ensures DirectoryOf(n, p, r).owner == p
  {
  }

  /** A move that leaves the directories, and what the run's position says about its own, as they were. */
  lemma LeaveDirectories(n: nat, s: System, p: nat, r: Run, t: System)
    requires DirectoriesFit(n, s) && p < |s.runs| && r.directory == s.runs[p].directory
    requires OwnsDirectory(r) == OwnsDirectory(s.runs[p])
    requires OwnsDirectory(r) ==> DirectoryOf(n, p, r) == DirectoryOf(n, p, s.runs[p])
    requires t.runs == s.runs[p := r] && t.directories == s.directories
    ensures DirectoriesFit(n, t)
  {
    hide DirectoryOf;
  }

  /** The state after run `p`'s operation succeeds, and after it does not. */
  ghost predicate Succeeds(n: nat, s: System, p: nat)
    requires p < |s.runs|
  {
    s.runs[p].mode.Running? && Free(s, s.runs[p], OpAt(n, s.runs[p].pc))
  }

  lemma SuccessDirectories(n: nat, s: System, p: nat)
    requires Inv(n, s) && p < |s.runs| && Succeeds(n, s, p)
    ensures DirectoriesFit(n, Step(n, s, Move(p, Succeed)))
  {
    hide DirectoriesFit, OpAt, DirectoryOf, Applied;
    var r, t := s.runs[p], Step(n, s, Move(p, Succeed));
    assert RunFits(n, r);
    OpsByPosition(n, p, r);
    if OpAt(n, r.pc).Mkdir? {
      RewriteOwn(n, s, p, t.runs[p], t);
    } else if OwnsDirectory(r) {
      OperationsFit(n, p, r);
      PositionOnly(n, p, r.(pc := r.pc + 1), t.runs[p]);
      OwnDirectory(n, s, p);
      assert t.directories == s.directories[r.directory := DirectoryOf(n, p, t.runs[p])] by {
        AppliedOrSame(s, p, OpAt(n, r.pc));
      }
      RewriteOwn(n, s, p, t.runs[p], t);
    } else {
      LeaveDirectories(n, s, p, t.runs[p], t);
    }
  }

  /** Nothing touches a directory before there is one. */
  lemma OpsByPosition(n: nat, p: nat, r: Run)
    ensures !OwnsDirectory(r) ==> !TouchesDirectory(OpAt(n, r.pc)) && (OpAt(n, r.pc).Mkdir? <==> r.pc == MKDIR)
    ensures OwnsDirectory(r) ==> !OpAt(n, r.pc).Mkdir?
    ensures r.pc == MKDIR && !r.reported ==> DirectoryOf(n, p, r.(pc := MKDIR + 1)) == Fresh(p)
    ensures OpAt(n, r.pc).Mkdir? && r.reported == false ==> forall q: Run :: q.pc == MKDIR + 1 && !q.reported ==> DirectoryOf(n, p, q) == Fresh(p)
  {
  }

  lemma PositionOnly(n: nat, p: nat, a: Run, b: Run)
    requires a.pc == b.pc && !a.reported && !b.reported
    ensures DirectoryOf(n, p, a) == DirectoryOf(n, p, b)
  {
  }

  lemma OwnDirectory(n: nat, s: System, p: nat)
    requires DirectoriesFit(n, s) && p < |s.runs| && OwnsDirectory(s.runs[p])
    ensures s.runs[p].directory in s.directories && s.directories[s.runs[p].directory] == DirectoryOf(n, p, s.runs[p])
  {
  }

  lemma AppliedOrSame(s: System, p: nat, op: Op)
    requires p < |s.runs| && s.runs[p].directory in s.directories && !op.Mkdir?
    ensures Effect(s, p, op).directories
         == s.directories[s.runs[p].directory := Applied(s.directories[s.runs[p].directory], p, op)]
  {
  }

  lemma StepDirectories(n: nat, s: System, a: Action)
    requires Inv(n, s)
    ensures DirectoriesFit(n, Step(n, s, a))
  {
    if a.Launch? || a.run >= |s.runs| || (!s.runs[a.run].mode.Running? && !s.runs[a.run].mode.Failing?) {
      return;
    }
    hide DirectoriesFit, OpAt, Applied;
    var p, t := a.run, Step(n, s, a);
    assert RunFits(n, s.runs[p]);
    if a.event.Succeed? && Succeeds(n, s, p) {
      SuccessDirectories(n, s, p);
    } else if a.event.Succeed? && s.runs[p].mode.Failing? && s.runs[p].created {
      OwnDirectory(n, s, p);
      assert t.directories == s.directories[s.runs[p].directory := DirectoryOf(n, p, t.runs[p])] by {
        FailureRewrites(n, s, p);
      }
      RewriteOwn(n, s, p, t.runs[p], t);
    } else {
      LeaveDirectories(n, s, p, t.runs[p], t);
    }
  }

  lemma FailureRewrites(n: nat, s: System, p: nat)
    requires Inv(n, s) && p < |s.runs| && s.runs[p].mode.Failing? && s.runs[p].created
    ensures var t := Step(n, s, Move(p, Succeed));
      t.directories == s.directories[s.runs[p].directory := DirectoryOf(n, p, t.runs[p])]
  {
    assert RunFits(n, s.runs[p]);
    OwnDirectory(n, s, p);
  }

  lemma SentinelOps(n: nat, pc: nat)
    ensures OpAt(n, pc).OpenSentinel? <==> pc == OPEN_SENTINEL
    ensures OpAt(n, pc).WriteSentinel? <==> pc == OPEN_SENTINEL + 1
    ensures OpAt(n, pc).LoadValidation? <==> pc == LOAD_VALIDATION
  {
  }

  /** Moving one run keeps the sentinels owned, if it leaves them alone, takes a free one, or writes its own. */
  lemma MoveClaims(s: System, t: System, p: nat, r: Run)
    requires ClaimsFit(s) && p < |s.runs| && t.runs == s.runs[p := r] && r.claimId == s.runs[p].claimId
    requires
      || (t.sentinels == s.sentinels && r.pc == s.runs[p].pc)
      || (t.sentinels == s.sentinels && r.pc == s.runs[p].pc + 1 && s.runs[p].pc != OPEN_SENTINEL && s.runs[p].pc != OPEN_SENTINEL + 1)
      || (r.claimId !in s.sentinels && t.sentinels == s.sentinels[r.claimId := Partial] && r.pc == OPEN_SENTINEL + 1)
      || (s.runs[p].pc == OPEN_SENTINEL + 1 && t.sentinels == s.sentinels[r.claimId := Whole(p)] && r.pc == OPEN_SENTINEL + 2)
    ensures ClaimsFit(t)
  {
    forall q: nat, q': nat | q < |t.runs| && q' < |t.runs| && SameClaim(t, q, q') ensures q == q' {
      assert OwnsClaim(s.runs[q]) && OwnsClaim(s.runs[q']) ==> SameClaim(s, q, q');
    }
    forall q: nat | q < |t.runs| && OwnsClaim(t.runs[q])
      ensures t.runs[q].claimId in t.sentinels && t.sentinels[t.runs[q].claimId] == EvidenceAt(q, t.runs[q].pc, OPEN_SENTINEL + 1)
    {
      assert OwnsClaim(s.runs[p]) && OwnsClaim(s.runs[q]) && s.runs[p].claimId == s.runs[q].claimId ==> SameClaim(s, p, q);
    }
  }

  lemma StepClaims(n: nat, s: System, a: Action)
    requires Inv(n, s)
    ensures ClaimsFit(Step(n, s, a))
  {
    hide DirectoriesFit, OpeningsFit, RunsFit, Applied, DirectoryOf, OpAt;
    if a.Launch? {
      var t := Step(n, s, a);
      assert forall q: nat, q': nat :: q < |t.runs| && q' < |t.runs| && SameClaim(t, q, q') ==> SameClaim(s, q, q');
    } else if a.run < |s.runs| && (s.runs[a.run].mode.Running? || s.runs[a.run].mode.Failing?) {
      hide ClaimsFit;
      SentinelOps(n, s.runs[a.run].pc);
      MoveClaims(s, Step(n, s, a), a.run, Step(n, s, a).runs[a.run]);
    }
  }

  lemma StepOpenings(n: nat, s: System, a: Action)
    requires Inv(n, s)
    ensures OpeningsFit(Step(n, s, a))
  {
    hide DirectoriesFit, ClaimsFit, Applied, DirectoryOf, OpAt, RunsFit, Free, Fresh;
    if a.Move? && a.run < |s.runs| {
      SentinelOps(n, s.runs[a.run].pc);
      var t := Step(n, s, a);
      if t.openings == s.openings {
        SameOpenings(s, t, a.run);
      } else {
        OneMoreOpening(s, t, a.run);
      }
    }
  }

  lemma SameOpenings(s: System, t: System, p: nat)
    requires OpeningsFit(s) && p < |s.runs| && |t.runs| == |s.runs| && t.runs == s.runs[p := t.runs[p]] && t.openings == s.openings
    requires s.runs[p].pc > LOAD_VALIDATION <==> t.runs[p].pc > LOAD_VALIDATION
    ensures OpeningsFit(t)
  {
  }

  lemma OneMoreOpening(s: System, t: System, p: nat)
    requires OpeningsFit(s) && p < |s.runs| && |t.runs| == |s.runs| && t.runs == s.runs[p := t.runs[p]] && t.openings == s.openings + [p]
    requires s.runs[p].pc == LOAD_VALIDATION && t.runs[p].pc > LOAD_VALIDATION
    ensures OpeningsFit(t)
  {
    assert p !in s.openings;
  }

  lemma {:induction false} RunInv(n: nat, s: System, actions: seq<Action>)
    requires Inv(n, s)
    ensures Inv(n, RunAll(n, s, actions))
  {
    if actions != [] {
      hide RunsFit, DirectoriesFit, ClaimsFit, OpeningsFit, Step;
      var before, last := RunAll(n, s, actions[..|actions| - 1]), actions[|actions| - 1];
      RunInv(n, s, actions[..|actions| - 1]);
      StepRuns(n, before, last);
      StepDirectories(n, before, last);
      StepClaims(n, before, last);
      StepOpenings(n, before, last);
    }
  }

  // ----- what any interleaving leaves on disk -----

  /** The files a run must have put in place before it may open held-out data. */
  ghost predicate ClaimInPlace(s: System, p: nat)
    requires p < |s.runs|
  {
    var r := s.runs[p];
    && r.directory in s.directories && s.directories[r.directory].owner == p
    && s.directories[r.directory].preflight == Whole(p) && s.directories[r.directory].claim == Whole(p)
    && r.claimId in s.sentinels && s.sentinels[r.claimId] == Whole(p)
    && r.pc > VERIFY_RECEIPT
  }

  /** In every interleaving: a run about to open the held-out shards, and any run that has, holds its preflight,
      the durable sentinel, a verified receipt and its claim; and at most one run per claim ever opens them, once. */
  lemma {:induction false} OneOpenerPerClaim(n: nat, actions: seq<Action>)
    ensures var s := RunAll(n, Nothing(), actions);
      && (forall p: nat :: p < |s.runs| && s.runs[p].pc >= LOAD_VALIDATION ==> ClaimInPlace(s, p))
      && (forall i, j :: 0 <= i < |s.openings| && 0 <= j < |s.openings| ==>
            && s.openings[i] < |s.runs| && s.openings[j] < |s.runs| && ClaimInPlace(s, s.openings[i])
            && (s.runs[s.openings[i]].claimId == s.runs[s.openings[j]].claimId ==> i == j))
  {
    hide RunAll, ClaimInPlace;
    RunInv(n, Nothing(), actions);
    OpenersDiffer(n, RunAll(n, Nothing(), actions));
  }

  lemma OpenersDiffer(n: nat, s: System)
    requires Inv(n, s)
    ensures forall p: nat :: p < |s.runs| && s.runs[p].pc >= LOAD_VALIDATION ==> ClaimInPlace(s, p)
    ensures forall i, j :: 0 <= i < |s.openings| && 0 <= j < |s.openings| ==>
              && s.openings[i] < |s.runs| && s.openings[j] < |s.runs| && ClaimInPlace(s, s.openings[i])
              && (s.runs[s.openings[i]].claimId == s.runs[s.openings[j]].claimId ==> i == j)
  {
    hide ClaimInPlace, DirectoriesFit, RunsFit;
    forall p: nat | p < |s.runs| && s.runs[p].pc >= LOAD_VALIDATION ensures ClaimInPlace(s, p) {
      InPlace(n, s, p);
    }
    forall i, j | 0 <= i < |s.openings| && 0 <= j < |s.openings|
      ensures s.openings[i] < |s.runs| && s.openings[j] < |s.runs| && ClaimInPlace(s, s.openings[i])
      ensures s.runs[s.openings[i]].claimId == s.runs[s.openings[j]].claimId ==> i == j
    {
      assert s.openings[i] in s.openings && s.openings[j] in s.openings;
      assert SameClaim(s, s.openings[i], s.openings[j]) ==> s.openings[i] == s.openings[j];
    }
  }

  lemma InPlace(n: nat, s: System, p: nat)
    requires Inv(n, s) && p < |s.runs| && s.runs[p].pc >= LOAD_VALIDATION
    ensures ClaimInPlace(s, p)
  {
    OwnDirectory(n, s, p);
    assert OwnsClaim(s.runs[p]);
  }

  /** A run that got out with an exception and reported it says "burned" exactly when it had reached the call that
      persists the claim, whether or not that call succeeded. */
  lemma {:induction false} BurnedExactlyWhenReached(n: nat, actions: seq<Action>, p: nat)
    requires p < |RunAll(n, Nothing(), actions).runs|
    ensures var s := RunAll(n, Nothing(), actions);
      var r := s.runs[p];
      r.reported ==>
        && r.mode.Raised? && r.directory in s.directories
        && s.directories[r.directory].status == Whole(if r.pc >= OPEN_SENTINEL then Burned else Error)
  {
    RunInv(n, Nothing(), actions);
    var s := RunAll(n, Nothing(), actions);
    assert RunFits(n, s.runs[p]);
    if s.runs[p].reported {
      OwnDirectory(n, s, p);
    }
  }

  /** A status "complete" is never a lie: all four evidence files are whole and written by the one run that owns
      the directory, holds the sentinel and opened the held-out data. */
  lemma {:induction false} CompleteHasEvidence(n: nat, actions: seq<Action>, d: nat)
    requires d in RunAll(n, Nothing(), actions).directories
    ensures var s := RunAll(n, Nothing(), actions);
      var dir := s.directories[d];
      dir.status == Whole(Complete) ==>
        && dir.preflight == dir.claim == dir.selection == dir.audit == Whole(dir.owner)
        && dir.owner < |s.runs| && dir.owner in s.openings && ClaimInPlace(s, dir.owner)
  {
    RunInv(n, Nothing(), actions);
    var s := RunAll(n, Nothing(), actions);
    var p := s.directories[d].owner;
    assert RunFits(n, s.runs[p]);
    if s.directories[d].status == Whole(Complete) {
      assert s.runs[p].pc > LOAD_VALIDATION;
      InPlace(n, s, p);
    }
  }

  /** A status file is partial exactly while its owner is, or ended without reporting, in the one non-atomic write
      that creates it; a raise once that write is done leaves it whole. */
  lemma {:induction false} PartialStatusIff(n: nat, actions: seq<Action>, d: nat)
    requires d in RunAll(n, Nothing(), actions).directories
    ensures var s := RunAll(n, Nothing(), actions);
      var p := s.directories[d].owner;
      && p < |s.runs|
      && (s.directories[d].status.Partial? <==> s.runs[p].pc == WRITE_STATUS && !s.runs[p].reported)
      && (s.directories[d].status.Absent? <==> s.runs[p].pc < WRITE_STATUS && !s.runs[p].reported)
  {
    RunInv(n, Nothing(), actions);
  }

  /** A run whose directory belongs to another run never got past its own mkdir: it has written nothing there. */
  lemma {:induction false} LosersWriteNothing(n: nat, actions: seq<Action>, p: nat)
    requires p < |RunAll(n, Nothing(), actions).runs|
    ensures var s := RunAll(n, Nothing(), actions);
      var r := s.runs[p];
      r.directory in s.directories && s.directories[r.directory].owner != p ==> r.pc <= MKDIR && !r.created && !r.reported
  {
    RunInv(n, Nothing(), actions);
    assert RunFits(n, RunAll(n, Nothing(), actions).runs[p]);
  }

  // ----- what stays -----

  predicate Over(r: Run) {
    r.mode.Returned? || r.mode.Raised? || r.mode.Killed?
  }

  /** A run that is over never moves again; a run keeps its directory and never goes back. */
  lemma {:induction false} OverStays(n: nat, s: System, actions: seq<Action>, p: nat)
    requires p < |s.runs|
    ensures var t := RunAll(n, s, actions);
      && p < |t.runs| && t.runs[p].directory == s.runs[p].directory && t.runs[p].pc >= s.runs[p].pc
      && (Over(s.runs[p]) ==> t.runs[p] == s.runs[p])
  {
    if actions != [] {
      hide Step;
      OverStays(n, s, actions[..|actions| - 1], p);
      StepKeepsRun(n, RunAll(n, s, actions[..|actions| - 1]), actions[|actions| - 1], p);
    }
  }

  lemma StepKeepsRun(n: nat, s: System, a: Action, p: nat)
    requires p < |s.runs|
    ensures var t := Step(n, s, a);
      && p < |t.runs| && t.runs[p].directory == s.runs[p].directory && t.runs[p].pc >= s.runs[p].pc
      && (Over(s.runs[p]) ==> t.runs[p] == s.runs[p])
  {
    hide OpAt, Applied, Free, Effect;
  }

  /** A written evidence file is never changed again. */
  lemma {:induction false} EvidenceIsFinal(n: nat, s: System, actions: seq<Action>, d: nat, name: Name)
    requires Inv(n, s) && d in s.directories && name != StatusFile && FileNamed(s.directories[d], name).Whole?
    ensures var t := RunAll(n, s, actions);
      d in t.directories && FileNamed(t.directories[d], name) == FileNamed(s.directories[d], name)
  {
    RunInv(n, s, actions);
    OverStays(n, s, actions, s.directories[d].owner);
    OwnDirectory(n, RunAll(n, s, actions), s.directories[d].owner);
  }

  ghost predicate IsComplete(s: System, d: nat) {
    d in s.directories && s.directories[d].status == Whole(Complete)
  }

  /** A complete status is permanent exactly when its owner is over. An owner that has still to sync the directory
      or to read the status back can raise there, and its handler then replaces "complete" by "burned". */
  lemma {:induction false} CompleteIsPermanentIff(n: nat, s: System, d: nat)
    requires Inv(n, s) && IsComplete(s, d)
    ensures (forall actions :: IsComplete(RunAll(n, s, actions), d)) <==> Over(s.runs[s.directories[d].owner])
  {
    var p := s.directories[d].owner;
    if Over(s.runs[p]) {
      forall actions: seq<Action> ensures IsComplete(RunAll(n, s, actions), d) {
        RunInv(n, s, actions);
        OverStays(n, s, actions, p);
        OwnDirectory(n, RunAll(n, s, actions), p);
      }
    } else {
      CompleteBurns(n, s, d);
    }
  }

  lemma {:induction false} CompleteBurns(n: nat, s: System, d: nat)
    requires Inv(n, s) && IsComplete(s, d) && !Over(s.runs[s.directories[d].owner])
    ensures exists actions :: !IsComplete(RunAll(n, s, actions), d)
  {
    var p := s.directories[d].owner;
    assert RunFits(n, s.runs[p]);
    var raise, handle := Move(p, Raise), Move(p, Succeed);
    assert [handle][..0] == [] && [raise, handle][..1] == [raise] && [raise][..0] == [];
    if s.runs[p].mode.Failing? {
      assert RunAll(n, s, [handle]) == Step(n, s, handle);
      assert !IsComplete(RunAll(n, s, [handle]), d);
    } else {
      assert RunAll(n, s, [raise, handle]) == Step(n, Step(n, s, raise), handle);
      assert !IsComplete(RunAll(n, s, [raise, handle]), d);
    }
  }

  /** "Every status on disk is a whole record" fails: a run killed inside that first write leaves a partial one. */
  lemma PartialStatusHappens(n: nat)
    ensures exists actions ::
              (var s := RunAll(n, Nothing(), actions);
               |s.runs| == 1 && 0 in s.directories && s.directories[0].status.Partial? && Over(s.runs[0]))
  {
    hide RunAll;
    var a, s := DirectoryMade(n);
    a, s := Then(n, a, s, Move(0, Succeed));
    a, s := Then(n, a, s, Move(0, Succeed));
    assert s == System(map[0 := Fresh(0).(status := Partial)], map[], [Run(0, 7, 5, true, false, Running, false)], []);
    a, s := Then(n, a, s, Move(0, Kill));
    assert s.directories[0].status == Partial && Over(s.runs[0]);
  }

  lemma DirectoryMade(n: nat) returns (a: seq<Action>, s: System)
    ensures s == RunAll(n, Nothing(), a)
    ensures s == System(map[0 := Fresh(0)], map[], [Run(0, 7, 3, false, false, Running, false)], [])
  {
    hide RunAll;
    EmptyRun(n);
    a, s := Then(n, [], Nothing(), Launch(0, 7));
    a, s := Then(n, a, s, Move(0, Succeed));
    a, s := Then(n, a, s, Move(0, Succeed));
    a, s := Then(n, a, s, Move(0, Succeed));
  }

  lemma {:induction false} EmptyRun(n: nat)
    ensures RunAll(n, Nothing(), []) == Nothing()
  {
  }

  lemma Then(n: nat, run: seq<Action>, s: System, a: Action) returns (longer: seq<Action>, next: System)
    requires s == RunAll(n, Nothing(), run)
    ensures next == RunAll(n, Nothing(), longer) == Step(n, s, a)
  {
    longer, next := run + [a], Step(n, s, a);
    assert longer[..|longer| - 1] == run;
  }
}
