/** How a timed run ends: what the top-up and a skip leave, and which pauses are recorded. */
module TimedOutcome {
  import opened Common
  import opened TimedLoop
  import opened TimedInvariant
  import opened TimedTheorems

  // ----- the window's two ends -----

  /** The exit point stands at e and nowhere else. */
  predicate ExitAt(points: seq<Mark>, e: nat) {
    e < |points| && points[e].Exit? && forall p: nat | p < |points| && p != e :: !points[p].Exit?
  }

  /** Exactly one exit point. */
  ghost predicate OneExit(points: seq<Mark>) {
    exists e: nat :: ExitAt(points, e)
  }

  /** The entry is the first point and no other; the exit stands exactly in a closed window. */
  ghost predicate Ends(s: St) {
    && (forall p: nat | 0 < p < |s.points| :: s.points[p] != Entry)
    && (s.windowClosed ==> OneExit(s.points))
    && (!s.windowClosed ==> forall p: nat | p < |s.points| :: !s.points[p].Exit?)
  }

  lemma OneExitStays(points: seq<Mark>, m: Mark)
    requires OneExit(points) && !m.Exit?
    ensures OneExit(points + [m])
  {
    var e: nat :| ExitAt(points, e);
    assert ExitAt(points + [m], e);
  }

  lemma FirstExit(points: seq<Mark>, done: nat)
    requires forall p: nat | p < |points| :: !points[p].Exit?
    ensures OneExit(points + [Exit(done)])
  {
    assert ExitAt(points + [Exit(done)], |points|);
  }

  lemma EndsAfterPoint(s: St, after: St, m: Mark)
    requires Ends(s) && !m.Exit? && (m == Entry ==> s.points == [])
    requires after.points == s.points + [m] && after.windowClosed == s.windowClosed
    ensures Ends(after)
  {
    if s.windowClosed { OneExitStays(s.points, m); }
  }

  lemma EndsAfterExit(s: St, done: nat)
    requires Ends(s) && (s.windowOpened && !s.windowClosed ==> |s.points| < s.capacity)
    ensures Ends(TakeExitSample(s, done))
  {
    if s.windowOpened && !s.windowClosed { FirstExit(s.points, done); }
  }

  lemma EndsAfterClose(s: St)
    requires Room(s) && Ends(s) && s.pauseOpen
    ensures Ends(ClosePausePair(s))
  {
    if !s.foldPair { EndsAfterPoint(s, ClosePausePair(s), PauseClose); }
  }

  lemma EndsAtTopUp(r: Run)
    requires Inv(r) && Ends(r.st) && Enabled(r, TopUp)
    ensures Ends(Step(r, TopUp).st)
  {
    var open := OpenWindow(r.st);
    if !r.st.windowOpened { EndsAfterPoint(r.st, open, Entry); }
    if open.pauseOpen { EndsAfterClose(open); }
    EndsAfterExit(if open.pauseOpen then ClosePausePair(open) else open, r.done);
  }

  lemma EndsAtTest(r: Run)
    requires Inv(r) && Ends(r.st) && Allowed(r, Test)
    ensures Ends(Step(r, Test).st)
  {
    if r.cur.live && r.cur.remaining == 0 {
      if r.cur.runRemaining != 0 {
        EndsAfterPoint(r.st, TakeChunkSample(r.st, r.done), Boundary(r.done));
      } else {
        EndsAfterExit(r.st.(loopCompleted := true), r.done);
      }
    }
  }

  lemma EndsStep(r: Run, op: Op)
    requires Inv(r) && Ends(r.st) && Allowed(r, op)
    ensures Ends(Step(r, op).st)
  {
    match op
    case Begin => if !r.st.skipRequested { EndsAfterPoint(r.st, BeginRun(r.st), Entry); }
    case Test => EndsAtTest(r);
    case Pause => if !PauseTiming(r.st).foldPair { EndsAfterPoint(r.st, PauseTiming(r.st), PauseOpen); }
    case Resume => EndsAfterClose(r.st);
    case Skip => EndsAfterExit(r.st.(skipRequested := true), r.done);
    case TopUp => EndsAtTopUp(r);
    case _ =>
  }

  /** A run that has been topped up is closed for good. */
  ghost predicate Closed(r: Run) {
    r.phase == Ended ==> r.st.windowOpened && r.st.windowClosed && !r.st.pauseOpen
  }

  lemma ClosedStep(r: Run, op: Op)
    requires Inv(r) && Closed(r) && Allowed(r, op)
    ensures Closed(Step(r, op))
  {
  }

  // ----- the pauses the recorder has room for -----

  /** The pauses a capacity records besides the window's own points. */
  function PauseRoom(s: St): int {
    (s.capacity - 1 - Total(s)) / 2
  }

  /** In a run of one loop the points taken and owed are the window's and two for each
      recorded pause; the slot is in use only once the pause room is. */
  ghost predicate Ledger(s: St) {
    && (s.windowOpened && s.loopsStarted == 1 ==>
          |s.points| + s.chunkPointsLeft == 1 + Total(s) + 2 * |s.pairs| + (if RawPause(s) then 1 else 0))
    && (s.loopsStarted == 0 ==> s.pairs == [] && s.foldedPairs == 0 && !s.pauseOpen)
    && |s.pairs| + (if RawPause(s) then 1 else 0) <= PauseRoom(s)
    && (s.foldedPairs > 0 || (s.pauseOpen && s.foldPair) ==> |s.pairs| == PauseRoom(s))
  }

  lemma LedgerBegin(r: Run)
    requires Inv(r) && Ledger(r.st) && Allowed(r, Begin)
    ensures Ledger(Step(r, Begin).st)
  {
    OwedTotal(r.st);
  }

  lemma LedgerPauses(r: Run, op: Op)
    requires Inv(r) && Ledger(r.st) && Allowed(r, op) && (op == Pause || op == Resume)
    ensures Ledger(Step(r, op).st)
  {
  }

  lemma LedgerTest(r: Run)
    requires Inv(r) && Ledger(r.st) && Allowed(r, Test)
    ensures Ledger(Step(r, Test).st)
  {
    if r.cur.live && r.cur.remaining == 0 {
      if r.cur.runRemaining != 0 {
        LedgerBoundary(r.st, r.done);
      } else {
        LedgerExit(r.st.(loopCompleted := true), r.done);
      }
    }
  }

  lemma LedgerBoundary(s: St, done: nat)
    requires Ledger(s) && |s.points| < s.capacity && s.chunkPointsLeft >= 1
    ensures Ledger(TakeChunkSample(s, done))
  {
  }

  lemma LedgerExit(s: St, done: nat)
    requires Ledger(s) && (s.windowOpened && !s.windowClosed ==> |s.points| < s.capacity && s.chunkPointsLeft >= 1)
    ensures Ledger(TakeExitSample(s, done))
  {
  }

  lemma LedgerSkip(r: Run)
    requires Inv(r) && Ledger(r.st) && Allowed(r, Skip)
    ensures Ledger(Step(r, Skip).st)
  {
  }

  lemma LedgerTopUp(r: Run)
    requires Inv(r) && Ledger(r.st) && Allowed(r, TopUp)
    ensures Ledger(Step(r, TopUp).st)
  {
  }

  lemma LedgerStep(r: Run, op: Op)
    requires Inv(r) && Ledger(r.st) && Allowed(r, op)
    ensures Ledger(Step(r, op).st)
  {
    match op
    case Begin => LedgerBegin(r);
    case Pause => LedgerPauses(r, op);
    case Resume => LedgerPauses(r, op);
    case Test => LedgerTest(r);
    case Skip => LedgerSkip(r);
    case TopUp => LedgerTopUp(r);
    case _ =>
  }

  // ----- whole runs -----

  lemma {:induction false} OutcomeFrom(r: Run, ops: seq<Op>)
    requires Inv(r) && Ends(r.st) && Closed(r) && Ledger(r.st)
    requires Legal(r, ops) && After(r, ops).st.loopsStarted <= 1
    ensures var e := After(r, ops); Ends(e.st) && Closed(e) && Ledger(e.st)
    decreases |ops|
  {
    if ops != [] {
      LoopsOnlyGrow(Step(r, ops[0]), ops[1..]);
      EndsStep(r, ops[0]);
      ClosedStep(r, ops[0]);
      LedgerStep(r, ops[0]);
      StepInv(r, ops[0]);
      OutcomeFrom(Step(r, ops[0]), ops[1..]);
    }
  }

  lemma Outcome(start: St, ops: seq<Op>, r: Run)
    requires EndsIn(start, ops, r)
    ensures Inv(r) && Ends(r.st) && Closed(r) && Ledger(r.st)
  {
    RunInv(start, ops, r);
    StartInv(start.iterations, start.chunk, start.capacity);
    OutcomeFrom(Start(start), ops);
  }

  /** However a run ended, completed, left by a break, skipped or never begun: after the
      top-up its window is open and closed, no pause stands open, and its points start with
      the one entry and hold exactly one exit. */
  lemma EndedRunIsClosed(start: St, ops: seq<Op>, r: Run)
    requires EndsIn(start, ops, r) && r.phase == Ended
    ensures r.st.windowOpened && r.st.windowClosed && !r.st.pauseOpen
    ensures r.st.points != [] && r.st.points[0] == Entry && forall p: nat | 0 < p < |r.st.points| :: r.st.points[p] != Entry
    ensures OneExit(r.st.points)
  {
    Outcome(start, ops, r);
  }

  /** What the top-up adds: the entry of a window never opened, the close of a pause left
      open, and the exit of a window left open, at the passes done; nothing else moves. */
  lemma TopUpAdds(start: St, ops: seq<Op>, r: Run)
    requires EndsIn(start, ops, r) && Enabled(r, TopUp)
    ensures var s, e := r.st, Step(r, TopUp).st;
            && e.points == (if s.windowOpened then s.points else [Entry])
                           + (if s.pauseOpen && !s.foldPair then [PauseClose] else [])
                           + (if s.windowClosed then [] else [Exit(r.done)])
            && e.pauseCount == s.pauseCount + (if s.pauseOpen then 1 else 0)
            && e.foldedPairs == s.foldedPairs + (if s.pauseOpen && s.foldPair then 1 else 0)
            && |e.pairs| == |s.pairs| + (if s.pauseOpen && !s.foldPair then 1 else 0) && s.pairs <= e.pairs
            && e.skipRequested == s.skipRequested && e.loopCompleted == s.loopCompleted
    ensures Step(r, TopUp).phase == Ended && Step(r, TopUp).done == r.done && Step(r, TopUp).yielded == r.yielded
  {
    Outcome(start, ops, r);
  }

  /** A body that throws is topped up twice: the second top-up finds nothing to do. */
  lemma SecondTopUpChangesNothing(start: St, ops: seq<Op>, r: Run)
    requires EndsIn(start, ops, r) && Enabled(r, TopUp)
    ensures TopUpWindow(Step(r, TopUp).st, r.done) == Step(r, TopUp).st
  {
    Outcome(start, ops, r);
    ClosedStep(r, TopUp);
  }

  /** What a skip adds: the flag, and the exit of a window that stands open. */
  lemma SkipAdds(start: St, ops: seq<Op>, r: Run)
    requires EndsIn(start, ops, r) && Enabled(r, Skip)
    ensures var s, e := r.st, Step(r, Skip).st;
            && e.skipRequested && (e.windowOpened ==> e.windowClosed) && e.windowOpened == s.windowOpened
            && e.points == s.points + (if s.windowOpened && !s.windowClosed then [Exit(r.done)] else [])
            && e.pairs == s.pairs && e.pauseOpen == s.pauseOpen && e.pauseCount == s.pauseCount
    ensures Step(r, Skip) == r.(st := Step(r, Skip).st)
  {
    Outcome(start, ops, r);
  }

  /** No pass is under way and a skip stands. */
  predicate Skipped(r: Run) {
    r.st.skipRequested && (r.phase == Outside || r.phase == Ended || (r.phase == Testing && !r.cur.live && r.cur.remaining == 0))
  }

  /** A loop entered after a skip makes no pass, over any operations that follow. */
  lemma {:induction false} SkippedRunMakesNoPass(r: Run, ops: seq<Op>)
    requires Skipped(r) && Legal(r, ops)
    ensures var e := After(r, ops);
            Skipped(e) && e.done == r.done && e.yielded == r.yielded && e.st.loopsStarted == r.st.loopsStarted
    decreases |ops|
  {
    if ops != [] { SkippedRunMakesNoPass(Step(r, ops[0]), ops[1..]); }
  }

  /** The pauses of a run are recorded for as long as the capacity leaves two points beside
      the window's own, and every later one folds: the recorded ones number the lesser of
      all pauses and the room. */
  lemma PausesRecordedAre(start: St, ops: seq<Op>, r: Run)
    requires EndsIn(start, ops, r) && !r.st.pauseOpen
    ensures var room := (start.capacity - 1 - Total(start)) / 2;
            && |r.st.pairs| == (if r.st.pauseCount < room then r.st.pauseCount else room)
            && r.st.foldedPairs == r.st.pauseCount - |r.st.pairs|
  {
    Outcome(start, ops, r);
    RunInv(start, ops, r);
  }
}
