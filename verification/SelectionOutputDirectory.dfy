/** One selection run as the program performs it, system call by system call: whatever each call does, the run is
    one of `SelectionClaim`. */
module SelectionOutputDirectory {
  import opened ActionChunks
  import opened SelectionClaim

  function Entry<K, V>(m: map<K, V>, k: K): Option<V> {
    if k in m then Some(m[k]) else None
  }

  lemma LaunchKeepsInv(n: nat, s: System, a: SelectionClaim.Action)
    requires Inv(n, s)
    ensures Inv(n, Step(n, s, a))
  {
    hide RunsFit, DirectoriesFit, ClaimsFit, OpeningsFit, Step;
    assert [a][..0] == [] && RunAll(n, s, []) == s;
    RunInv(n, s, [a]);
  }

  /** `directory` and `sentinel` are what lies at the output path and at the claim's path. `events` says how the
      call at each position goes, `handlerEvent` how the error handler's replacement does; `calls` counts the
      calls. The ghost fields follow the run in the transition system. */
  class SelectionOutput {
    const candidates: nat
    const id: nat
    const path: nat
    const claimId: int
    const events: nat -> Event
    const handlerEvent: Event
    var directory: Option<Directory>
    var sentinel: Option<File<nat>>
    var created: bool
    var claimed: bool
    var calls: nat
    ghost const start: System
    ghost var moves: seq<SelectionClaim.Action>
    ghost var tried: nat
    ghost var system: System

    /** The moves are this run's: one for each call that was tried, going as the outside says, and then at most the
        handler's. */
    ghost predicate OwnMoves()
      reads this
    {
      && tried <= |moves| <= tried + 1
      && forall i :: 0 <= i < |moves| ==> moves[i] == Move(id, if i < tried then events(i) else handlerEvent)
    }

    ghost predicate Valid()
      reads this
    {
      && id < |system.runs| && system.runs[id].directory == path && system.runs[id].claimId == claimId
      && system.runs[id].pc == calls
      && directory == Entry(system.directories, path) && sentinel == Entry(system.sentinels, claimId)
      && system == RunAll(candidates, start, moves) && OwnMoves()
      && (system.runs[id].mode.Running? || system.runs[id].mode.Returned? ==> |moves| == tried == calls)
      && (system.runs[id].mode.Failing? ==> |moves| == tried == calls + 1)
    }

    /** The two flags are the run's, as long as it lives, and a directory it created is there. */
    ghost predicate Flags()
      reads this
      requires Valid()
    {
      && (created ==> directory.Some?)
      && (system.runs[id].mode.Killed? || (created == system.runs[id].created && claimed == system.runs[id].claimed))
    }

    ghost predicate At(pc: nat, mode: Mode)
      reads this
      requires Valid()
    {
      calls == pc && system.runs[id].mode == mode
    }

    /** How a phase ended: at its end, on the way to the handler, or dead. */
    ghost predicate Ended(e: Event, pc: nat)
      reads this
      requires Valid()
    {
      && (e.Succeed? ==> At(pc, Running))
      && (e.Raise? ==> system.runs[id].mode.Failing?)
      && (e.Kill? ==> system.runs[id].mode.Killed?)
    }

    /** A launch beside whatever other runs there are, which are held still while this one runs. */
    constructor (candidates: nat, ghost others: System, id: nat, path: nat, claimId: int, directory: Option<Directory>,
                 sentinel: Option<File<nat>>, events: nat -> Event, handlerEvent: Event)
      requires id == |others.runs| && Inv(candidates, others)
      requires directory == Entry(others.directories, path) && sentinel == Entry(others.sentinels, claimId)
      ensures Valid() && Flags() && At(0, Running) && moves == []
      ensures this.candidates == candidates && this.path == path && this.claimId == claimId
      ensures this.events == events && this.handlerEvent == handlerEvent
      ensures start == Step(candidates, others, Launch(path, claimId)) && Inv(candidates, start) && this.id == id
    {
      this.candidates, this.id, this.path, this.claimId := candidates, id, path, claimId;
      this.events, this.handlerEvent := events, handlerEvent;
      this.directory, this.sentinel, created, claimed, calls := directory, sentinel, false, false, 0;
      start := Step(candidates, others, Launch(path, claimId));
      system := Step(candidates, others, Launch(path, claimId));
      moves, tried := [], 0;
      LaunchKeepsInv(candidates, others, Launch(path, claimId));
    }

    ghost method Follow(handling: bool)
      requires id < |system.runs| && system == RunAll(candidates, start, moves) && OwnMoves() && tried == |moves|
      modifies this`moves, this`tried, this`system
      ensures var event := if handling then handlerEvent else events(old(|moves|));
        && system == Step(candidates, old(system), Move(id, event)) == RunAll(candidates, start, moves) && OwnMoves()
        && moves == old(moves) + [Move(id, event)] && tried == if handling then old(tried) else old(tried) + 1
    {
      var event := if handling then handlerEvent else events(|moves|);
      tried := if handling then tried else tried + 1;
      moves, system := moves + [Move(id, event)], Step(candidates, system, Move(id, event));
      assert moves[..|moves| - 1] == old(moves);
    }

    predicate Available(op: Op)
      reads this
    {
      match op
      case Check => directory.None?
      case Mkdir => directory.None?
      case Open(name) =>
        directory.Some? && (if name == StatusFile then directory.value.status == Absent else FileNamed(directory.value, name) == Absent)
      case OpenSentinel => sentinel.None?
      case _ => true
    }

    /** What a call that succeeds does on disk. */
    method Perform(op: Op)
      requires Valid()
      requires op.Open? || op.Write? || op.Replace? ==> directory.Some?
      modifies this`directory, this`sentinel
      ensures var after := Effect(system, id, op);
        directory == Entry(after.directories, path) && sentinel == Entry(after.sentinels, claimId)
      ensures old(directory).Some? || op.Mkdir? ==> directory.Some?
    {
      match op {
        case Mkdir => directory := Some(Fresh(id));
        case Open(name) =>
          directory := Some(if name == StatusFile then directory.value.(status := Partial) else WithFile(directory.value, name, Partial));
        case Write(name) =>
          directory := Some(if name == StatusFile then directory.value.(status := Whole(Initialized)) else WithFile(directory.value, name, Whole(id)));
        case Replace(status) => directory := Some(directory.value.(status := Whole(status)));
        case OpenSentinel => sentinel := Some(Partial);
        case WriteSentinel => sentinel := Some(Whole(id));
        case _ =>
      }
    }

    lemma AvailableIsFree(op: Op)
      requires Valid()
      ensures Available(op) <==> Free(system, system.runs[id], op)
    {
    }

    /** One call to the system: it goes as the outside says, and an exclusive creation of a name that is taken
        raises. */
    method Do(op: Op) returns (e: Event)
      requires Valid() && At(calls, Running) && op == OpAt(candidates, calls)
      requires op.Open? || op.Write? || op.Replace? ==> directory.Some?
      modifies this`directory, this`sentinel, this`calls, this`moves, this`tried, this`system
      ensures Valid()
      ensures old(directory).Some? || (op.Mkdir? && e.Succeed?) ==> directory.Some?
      ensures e.Succeed? ==> At(old(calls) + 1, if old(calls) == FinalRead(candidates) then Returned else Running)
      ensures e.Raise? ==> At(old(calls), Failing)
      ensures e.Kill? ==> At(old(calls), Killed)
      ensures e == if events(old(calls)).Succeed? && !old(Available(op)) then Raise else events(old(calls))
      ensures e.Succeed? ==> old(Available(op))
      ensures !e.Succeed? ==> directory == old(directory) && sentinel == old(sentinel)
      ensures system.runs[id].created == (old(system.runs[id].created) || (e.Succeed? && op.Sync?))
      ensures system.runs[id].claimed == (old(system.runs[id].claimed) || (!e.Kill? && op.OpenSentinel?))
    {
      hide OpAt, Effect, RunAll, Free;
      e := events(calls);
      AvailableIsFree(op);
      if e.Succeed? && !Available(op) {
        e := Raise;
      }
      if e.Succeed? {
        Perform(op);
      }
      Follow(false);
      if e.Succeed? {
        calls := calls + 1;
      }
    }

    // ----- the output object's methods -----

    /** Nothing but the disk and the position moves. */
    twostate predicate SameFlags()
      reads this
      requires old(Valid()) && Valid()
    {
      created == old(created) && claimed == old(claimed)
      && system.runs[id].created == old(system.runs[id].created) && system.runs[id].claimed == old(system.runs[id].claimed)
      && (old(directory).Some? ==> directory.Some?)
    }

    /** A call that leaves both flags as they are. */
    method Pass(op: Op) returns (e: Event)
      requires Valid() && At(calls, Running) && op == OpAt(candidates, calls) && calls < FinalRead(candidates)
      requires op.Open? || op.Write? || op.Replace? ==> directory.Some?
      requires !op.Sync? && !op.OpenSentinel?
      modifies this`directory, this`sentinel, this`calls, this`moves, this`tried, this`system
      ensures Valid() && Ended(e, old(calls) + 1) && SameFlags()
    {
      hide OpAt, Step, RunAll, FinalRead, Available, OwnMoves;
      e := Do(op);
    }

    method WriteExclusive(name: Name) returns (e: Event)
      requires Valid() && At(calls, Running) && directory.Some? && calls + 3 <= FinalRead(candidates)
      requires OpAt(candidates, calls) == Open(name) && OpAt(candidates, calls + 1) == Write(name) && OpAt(candidates, calls + 2) == SyncFile
      modifies this`directory, this`sentinel, this`calls, this`moves, this`tried, this`system
      ensures Valid() && Ended(e, old(calls) + 3) && SameFlags()
    {
      hide OpAt, Step, RunAll, Selecting, Available, OwnMoves;
      e := Pass(Open(name));
      if e.Succeed? {
        e := Pass(Write(name));
      }
      if e.Succeed? {
        e := Pass(SyncFile);
      }
    }

    method ReplaceStatus(status: Status) returns (e: Event)
      requires Valid() && At(calls, Running) && directory.Some? && calls + 2 <= FinalRead(candidates)
      requires OpAt(candidates, calls) == Replace(status) && OpAt(candidates, calls + 1) == SyncFile
      modifies this`directory, this`sentinel, this`calls, this`moves, this`tried, this`system
      ensures Valid() && Ended(e, old(calls) + 2) && SameFlags()
    {
      hide OpAt, Step, RunAll, Selecting, Available, OwnMoves;
      e := Pass(Replace(status));
      if e.Succeed? {
        e := Pass(SyncFile);
      }
    }

    /** mkdir, sync the parent, and only then count the directory as created and write the first status. */
    method Create() returns (e: Event)
      requires Valid() && Flags() && At(MKDIR, Running) && !created && !claimed
      modifies this`directory, this`sentinel, this`calls, this`moves, this`tried, this`system, this`created
      ensures Valid() && Flags() && Ended(e, 7) && !claimed && (e.Succeed? ==> created)
    {
      hide Step, RunAll, OpAt, Available;
      OpeningOps(MKDIR);
      OpeningOps(4);
      e := Do(Mkdir);
      if !e.Succeed? {
        return;
      }
      e := Do(Sync);
      if !e.Succeed? {
        return;
      }
      created := true;
      e := WriteExclusive(StatusFile);
    }

    /** The flag goes up before the call that persists the claim, so that whatever happens next counts as burned. */
    method PersistClaim() returns (e: Event)
      requires Valid() && Flags() && At(OPEN_SENTINEL, Running) && created && !claimed
      modifies this`directory, this`sentinel, this`calls, this`moves, this`tried, this`system, this`claimed
      ensures Valid() && Flags() && Ended(e, VERIFY_RECEIPT) && claimed
    {
      hide Step, RunAll, OpAt, Available;
      OpeningOps(OPEN_SENTINEL);
      claimed := true;
      e := Do(OpenSentinel);
      if e.Succeed? {
        e := Pass(WriteSentinel);
      }
      if e.Succeed? {
        e := Pass(SyncFile);
      }
    }

    // ----- the run -----

    /** The opening operations do not depend on the number of candidates. */
    lemma OpeningOps(k: nat)
      requires k + 2 < EVALUATING
      ensures OpAt(candidates, k) == OpeningOp(k)
      ensures OpAt(candidates, k + 1) == OpeningOp(k + 1)
      ensures OpAt(candidates, k + 2) == OpeningOp(k + 2)
    {
    }

    method Preflight() returns (e: Event)
      requires Valid() && Flags() && At(0, Running) && !created && !claimed
      modifies this`directory, this`sentinel, this`calls, this`moves, this`tried, this`system, this`created
      ensures Valid() && Flags() && Ended(e, 13) && !claimed && (e.Succeed? ==> created)
      ensures old(directory).Some? ==> !e.Succeed? && !created && directory == old(directory) && sentinel == old(sentinel)
    {
      hide Step, RunAll, OpAt, OwnMoves;
      OpeningOps(0);
      e := Do(Check);
      if !e.Succeed? {
        return;
      }
      e := Do(External);
      if !e.Succeed? {
        return;
      }
      e := Create();
      if !e.Succeed? {
        return;
      }
      e := WritePreflight();
    }

    method WritePreflight() returns (e: Event)
      requires Valid() && Flags() && At(7, Running) && created
      modifies this`directory, this`sentinel, this`calls, this`moves, this`tried, this`system
      ensures Valid() && Flags() && Ended(e, 13)
    {
      hide Step, RunAll, OpAt, Available, OwnMoves;
      OpeningOps(7);
      e := Pass(External);
      if !e.Succeed? {
        return;
      }
      OpeningOps(8);
      e := WriteExclusive(PreflightFile);
      if !e.Succeed? {
        return;
      }
      OpeningOps(11);
      e := ReplaceStatus(PreflightComplete);
    }

    method TakeClaim() returns (e: Event)
      requires Valid() && Flags() && At(13, Running) && created && !claimed
      modifies this`directory, this`sentinel, this`calls, this`moves, this`tried, this`system, this`claimed
      ensures Valid() && Flags() && Ended(e, LOAD_VALIDATION) && (e.Succeed? ==> claimed)
    {
      hide Step, RunAll, OpAt, Available, OwnMoves;
      OpeningOps(13);
      e := Pass(External);
      if !e.Succeed? {
        return;
      }
      e := PersistClaim();
      if !e.Succeed? {
        return;
      }
      e := WriteClaim();
    }

    method WriteClaim() returns (e: Event)
      requires Valid() && Flags() && At(VERIFY_RECEIPT, Running) && created
      modifies this`directory, this`sentinel, this`calls, this`moves, this`tried, this`system
      ensures Valid() && Flags() && Ended(e, LOAD_VALIDATION)
    {
      hide Step, RunAll, OpAt, Available, OwnMoves;
      OpeningOps(17);
      e := Pass(External);
      if !e.Succeed? {
        return;
      }
      OpeningOps(18);
      e := WriteExclusive(ClaimFile);
      if !e.Succeed? {
        return;
      }
      OpeningOps(21);
      e := ReplaceStatus(Claimed);
    }

    lemma CandidateOps(i: nat)
      requires i < candidates
      ensures var pc := EVALUATING + 3 * i;
        OpAt(candidates, pc) == External && OpAt(candidates, pc + 1) == Replace(Evaluating) && OpAt(candidates, pc + 2) == SyncFile
    {
    }

    method OpenValidation() returns (e: Event)
      requires Valid() && Flags() && At(LOAD_VALIDATION, Running)
      modifies this`directory, this`sentinel, this`calls, this`moves, this`tried, this`system
      ensures Valid() && Flags() && Ended(e, EVALUATING)
    {
      hide Step, RunAll, OpAt, Available, OwnMoves;
      OpeningOps(LOAD_VALIDATION - 1);
      e := Pass(LoadValidation);
      if e.Succeed? {
        e := Pass(External);
      }
    }

    method EvaluateCandidates() returns (e: Event)
      requires Valid() && Flags() && At(LOAD_VALIDATION, Running) && created && claimed
      modifies this`directory, this`sentinel, this`calls, this`moves, this`tried, this`system
      ensures Valid() && Flags() && Ended(e, Selecting(candidates))
    {
      hide Step, RunAll, OpAt, Available, OwnMoves;
      e := OpenValidation();
      var i := 0;
      while e.Succeed? && i < candidates
        invariant i <= candidates && Valid() && Flags() && created && claimed && Ended(e, EVALUATING + 3 * i)
        decreases candidates - i
      {
        CandidateOps(i);
        e := EvaluateOne();
        i := i + 1;
      }
    }

    /** Evaluates a candidate and records that it did. */
    method EvaluateOne() returns (e: Event)
      requires Valid() && Flags() && At(calls, Running) && directory.Some? && calls + 3 <= FinalRead(candidates)
      requires OpAt(candidates, calls) == External && OpAt(candidates, calls + 1) == Replace(Evaluating)
      requires OpAt(candidates, calls + 2) == SyncFile
      modifies this`directory, this`sentinel, this`calls, this`moves, this`tried, this`system
      ensures Valid() && Flags() && Ended(e, old(calls) + 3)
    {
      hide Step, RunAll, OpAt, Available, OwnMoves;
      e := Pass(External);
      if e.Succeed? {
        e := ReplaceStatus(Evaluating);
      }
    }

    lemma ClosingOps(k: nat)
      ensures OpAt(candidates, Selecting(candidates) + k) == ClosingOp(k)
      ensures OpAt(candidates, Selecting(candidates) + (k + 1)) == ClosingOp(k + 1)
      ensures OpAt(candidates, Selecting(candidates) + (k + 2)) == ClosingOp(k + 2)
    {
    }

    method SelectAndAudit() returns (e: Event)
      requires Valid() && Flags() && At(Selecting(candidates), Running) && directory.Some?
      modifies this`directory, this`sentinel, this`calls, this`moves, this`tried, this`system
      ensures Valid() && Flags() && Ended(e, Selecting(candidates) + 9) && directory.Some?
    {
      hide Step, RunAll, OpAt, Selecting, Available, OwnMoves;
      ClosingOps(0);
      e := Pass(External);
      if !e.Succeed? {
        return;
      }
      ClosingOps(1);
      e := WriteExclusive(SelectionFile);
      if !e.Succeed? {
        return;
      }
      e := Audit();
    }

    method Audit() returns (e: Event)
      requires Valid() && Flags() && At(Selecting(candidates) + 4, Running) && directory.Some?
      modifies this`directory, this`sentinel, this`calls, this`moves, this`tried, this`system
      ensures Valid() && Flags() && Ended(e, Selecting(candidates) + 9) && directory.Some?
    {
      hide Step, RunAll, OpAt, Selecting, Available, OwnMoves;
      ClosingOps(4);
      e := Pass(External);
      if !e.Succeed? {
        return;
      }
      ClosingOps(5);
      e := WriteExclusive(AuditFile);
      if !e.Succeed? {
        return;
      }
      ClosingOps(8);
      e := Pass(External);
    }

    /** Marks the directory complete and reads the status back. */
    method Finish() returns (e: Event)
      requires Valid() && Flags() && At(Selecting(candidates) + 9, Running) && directory.Some?
      modifies this`directory, this`sentinel, this`calls, this`moves, this`tried, this`system
      ensures Valid() && Flags()
      ensures e.Succeed? ==> At(FinalRead(candidates) + 1, Returned)
      ensures !e.Succeed? ==> Ended(e, 0)
    {
      hide Step, RunAll, OpAt, Selecting, Available, OwnMoves;
      ClosingOps(9);
      e := ReplaceStatus(Complete);
      if e.Succeed? {
        e := Do(ReadStatus);
      }
    }

    /** The error handler: "burned" exactly when the persist call was reached; a path this run did not create is
        never touched, and a replacement that raises is swallowed. */
    method MarkFailed() returns (dead: bool)
      requires Valid() && Flags() && system.runs[id].mode.Failing?
      modifies this`directory, this`moves, this`tried, this`system
      ensures Valid() && system.runs[id].mode == if dead then Killed else Raised
      ensures dead <==> handlerEvent.Kill?
      ensures directory == if created && handlerEvent.Succeed? then Some(old(directory).value.(status := Whole(FailureStatus(claimed))))
                           else old(directory)
    {
      hide OpAt, RunAll, Free;
      if created && handlerEvent.Succeed? {
        directory := Some(directory.value.(status := Whole(FailureStatus(claimed))));
      }
      Follow(true);
      dead := handlerEvent.Kill?;
    }

    /** The body of the run's `try` block. */
    method Select() returns (e: Event)
      requires Valid() && Flags() && At(0, Running) && !created && !claimed
      modifies this`directory, this`sentinel, this`calls, this`moves, this`tried, this`system, this`created, this`claimed
      ensures Valid() && Flags()
      ensures e.Succeed? ==> At(FinalRead(candidates) + 1, Returned)
      ensures !e.Succeed? ==> Ended(e, 0)
      ensures old(directory).Some? ==> !e.Succeed? && !created && directory == old(directory) && sentinel == old(sentinel)
    {
      hide Step, RunAll, OpAt, Selecting, Available, OwnMoves;
      e := Preflight();
      if !e.Succeed? {
        return;
      }
      e := TakeClaim();
      if !e.Succeed? {
        return;
      }
      e := EvaluateCandidates();
      if !e.Succeed? {
        return;
      }
      e := SelectAndAudit();
      if !e.Succeed? {
        return;
      }
      e := Finish();
    }

    /** Everything a returned run left behind. */
    ghost predicate Published()
      reads this
    {
      && directory == Some(Directory(id, Whole(Complete), Whole(id), Whole(id), Whole(id), Whole(id)))
      && sentinel == Some(Whole(id))
    }

    lemma ReturnedHasPublished()
      requires Valid() && Inv(candidates, system) && At(FinalRead(candidates) + 1, Returned)
      ensures Published()
    {
      assert RunFits(candidates, system.runs[id]);
      OwnDirectory(candidates, system, id);
      assert OwnsClaim(system.runs[id]);
    }

    /** One whole selection run. However its calls go, it takes exactly the steps of the transition system; it
        returns with everything published, or raises with the status its flags ask for, or dies; and a path that
        was taken is left alone. */
    method RunSelection() returns (e: Event)
      requires Valid() && Flags() && At(0, Running) && !created && !claimed && Inv(candidates, start)
      modifies this
      ensures Valid() && Inv(candidates, system)
      ensures system.runs[id].mode == if e.Succeed? then Returned else if e.Raise? then Raised else Killed
      ensures e.Succeed? ==> Published()
      ensures e.Raise? && created && handlerEvent.Succeed? ==>
                directory.Some? && directory.value.status == Whole(if claimed then Burned else Error)
      ensures old(directory).Some? ==> !e.Succeed? && directory == old(directory) && sentinel == old(sentinel)
    {
      hide Step, RunAll, OpAt, Selecting, RunsFit, DirectoriesFit, ClaimsFit, OpeningsFit;
      e := Select();
      if e.Raise? {
        var dead := MarkFailed();
        e := if dead then Kill else Raise;
      }
      RunInv(candidates, start, moves);
      if e.Succeed? {
        ReturnedHasPublished();
      }
    }
  }
}
