/** The phases of a long run and the cursor that walks through them. */
module LongRunCursor {
  import opened ActionChunks

  datatype Phase = FutureEncoder | Selector | ConditionalPolicy | NoZPolicy | Complete

  /** Step budgets and the checkpoint cadence. */
  datatype Training = Training(encoderSteps: nat, selectorSteps: nat, conditionalSteps: nat, noZSteps: nat, checkpointEvery: nat)

  predicate ValidTraining(t: Training) {
    && 1 <= t.encoderSteps && 1 <= t.selectorSteps && 1 <= t.conditionalSteps && 1 <= t.checkpointEvery
    && t.conditionalSteps == t.noZSteps
  }

  datatype Cursor = Cursor(encoder: nat, selector: nat, conditional: nat, noZ: nat)

  function GlobalStep(c: Cursor): nat {
    c.encoder + c.selector + c.conditional + c.noZ
  }

  /** The first phase with steps left; None when a phase before it exceeds its budget. */
  function NextPhase(t: Training, c: Cursor): Option<Phase> {
    if c.encoder > t.encoderSteps then None
    else if c.encoder < t.encoderSteps then Some(FutureEncoder)
    else if c.selector > t.selectorSteps then None
    else if c.selector < t.selectorSteps then Some(Selector)
    else if c.conditional > t.conditionalSteps then None
    else if c.conditional < t.conditionalSteps then Some(ConditionalPolicy)
    else if c.noZ > t.noZSteps then None
    else if c.noZ < t.noZSteps then Some(NoZPolicy)
    else Some(Complete)
  }

  function LocalStep(c: Cursor, phase: Phase): nat {
    match phase
    case FutureEncoder => c.encoder
    case Selector => c.selector
    case ConditionalPolicy => c.conditional
    case NoZPolicy => c.noZ
    case Complete => GlobalStep(c)
  }

  /** One more step of a phase. */
  function Bump(c: Cursor, phase: Phase): Cursor {
    match phase
    case FutureEncoder => c.(encoder := c.encoder + 1)
    case Selector => c.(selector := c.selector + 1)
    case ConditionalPolicy => c.(conditional := c.conditional + 1)
    case NoZPolicy => c.(noZ := c.noZ + 1)
    case Complete => c
  }

  /** `LongRunCursor.advance`; None is its refusal of a phase that is not next. */
  function Advance(t: Training, c: Cursor, phase: Phase): Option<Cursor> {
    if phase == Complete || NextPhase(t, c) != Some(phase) then None else Some(Bump(c, phase))
  }

  // ----- where the cursor is after n steps -----

  function TotalSteps(t: Training): nat {
    t.encoderSteps + t.selectorSteps + t.conditionalSteps + t.noZSteps
  }

  function Clamp(n: int, limit: nat): nat {
    if n < 0 then 0 else if n > limit then limit else n
  }

  /** The cursor after `n` steps, phase by phase. */
  function CursorAt(t: Training, n: nat): Cursor {
    Cursor(Clamp(n, t.encoderSteps),
           Clamp(n - t.encoderSteps, t.selectorSteps),
           Clamp(n - t.encoderSteps - t.selectorSteps, t.conditionalSteps),
           Clamp(n - t.encoderSteps - t.selectorSteps - t.conditionalSteps, t.noZSteps))
  }

  /** The last steps of the four phases. */
  predicate Boundary(t: Training, n: nat) {
    || n == t.encoderSteps
    || n == t.encoderSteps + t.selectorSteps
    || n == t.encoderSteps + t.selectorSteps + t.conditionalSteps
    || n == TotalSteps(t)
  }

  /** Steps after which the loop saves: the start, the cadence and the ends of the phases. */
  predicate SaveDue(t: Training, n: nat)
    requires ValidTraining(t)
  {
    n == 0 || n % t.checkpointEvery == 0 || Boundary(t, n)
  }

  /** Advancing walks through exactly these cursors; a step changes the phase exactly at a boundary. */
  lemma CursorWalk(t: Training, n: nat)
    requires ValidTraining(t) && n <= TotalSteps(t)
    ensures GlobalStep(CursorAt(t, n)) == n
    ensures NextPhase(t, CursorAt(t, n)).Some?
    ensures NextPhase(t, CursorAt(t, n)) == Some(Complete) <==> n == TotalSteps(t)
    ensures n < TotalSteps(t) ==>
              var phase := NextPhase(t, CursorAt(t, n)).value;
              && Advance(t, CursorAt(t, n), phase) == Some(CursorAt(t, n + 1))
              && (NextPhase(t, CursorAt(t, n + 1)) != Some(phase) <==> Boundary(t, n + 1))
  {
  }

  /** Nothing after a phase has been trained. */
  ghost predicate NothingAfter(c: Cursor, phase: Phase) {
    && (phase == FutureEncoder ==> c.selector == 0)
    && (phase == FutureEncoder || phase == Selector ==> c.conditional == 0)
    && (phase == FutureEncoder || phase == Selector || phase == ConditionalPolicy ==> c.noZ == 0)
  }

  /** A run reaches exactly the cursors that are not refused and have trained nothing after their phase. */
  lemma CursorReachable(t: Training, c: Cursor)
    requires ValidTraining(t)
    ensures (exists n: nat :: n <= TotalSteps(t) && c == CursorAt(t, n)) <==> NextPhase(t, c).Some? && NothingAfter(c, NextPhase(t, c).value)
  {
    if NextPhase(t, c).Some? && NothingAfter(c, NextPhase(t, c).value) {
      assert c == CursorAt(t, GlobalStep(c));
    }
  }

  lemma CursorStart(t: Training)
    requires ValidTraining(t)
    ensures CursorAt(t, 0) == Cursor(0, 0, 0, 0) && !Boundary(t, 0)
    ensures NextPhase(t, CursorAt(t, 0)) == Some(FutureEncoder)
  {
  }
}
