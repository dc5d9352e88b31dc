/** A run whose body enters its timed loop again: the harness fails such a run when it ends,
    but the loop samples first, into a recorder reserved for one loop. */
module TimedReentry {
  import opened Common
  import opened TimedLoop
  import opened TimedInvariant
  import opened TimedTheorems

  /** The points the loop in progress still takes if it runs to its end. */
  function PointsAhead(r: Run): nat {
    (if r.cur.live then Chunks(r.cur.runRemaining, r.st.chunk) else 0)
    + (if r.st.windowOpened && !r.st.windowClosed then 1 else 0)
  }

  /** The points ahead fit the recorder. */
  predicate FitsAhead(r: Run) {
    |r.st.points| + PointsAhead(r) <= r.st.capacity
  }

  /** At the head of a loop, whatever ran before it: an earlier loop completed or left by a
      break, with any pauses. */
  predicate AtHead(r: Run) {
    && r.phase == Testing && r.cur.live && r.st.windowOpened && !r.st.pauseOpen && !r.st.halted
    && (r.cur.runRemaining > 0 ==> r.cur.refill == r.st.chunk > 0)
    && |r.st.points| <= r.st.capacity && r.st.chunkPointsLeft >= PointsAhead(r)
  }

  /** Entering a loop from any state of an open or closed window owes what that loop takes. */
  lemma ReentryIsAtHead(r: Run)
    requires Enabled(r, Begin) && !r.st.skipRequested && r.st.windowOpened && !r.st.pauseOpen
    requires |r.st.points| <= r.st.capacity && r.st.iterations + r.st.chunk <= WORD
    ensures AtHead(Step(r, Begin)) && Step(r, Begin).st.points == r.st.points
    ensures PointsAhead(Step(r, Begin)) == Total(r.st) - (if r.st.windowClosed then 1 else 0)
  {
    if Chunked(r.st) { CeilingWordIs(r.st.iterations, r.st.chunk); }
  }

  // ----- no body overruns where the points ahead fit -----

  /** What the operations of one loop keep: room for the points ahead and an open pause. */
  ghost predicate Roomy(r: Run) {
    && !r.st.halted && r.st.windowOpened
    && (r.cur.live && r.cur.runRemaining > 0 ==> r.cur.refill == r.st.chunk > 0)
    && |r.st.points| + PointsAhead(r) + (if RawPause(r.st) then 1 else 0) <= r.st.capacity
    && r.st.chunkPointsLeft >= PointsAhead(r)
  }

  lemma RoomyTest(r: Run)
    requires Roomy(r) && Enabled(r, Test)
    ensures Roomy(Step(r, Test))
  {
  }

  lemma RoomyPauses(r: Run, op: Op)
    requires Roomy(r) && Enabled(r, op) && (op == Pause || op == Resume)
    ensures Roomy(Step(r, op))
  {
  }

  lemma RoomyCloses(r: Run, op: Op)
    requires Roomy(r) && Enabled(r, op) && (op == Skip || op == TopUp)
    ensures Roomy(Step(r, op))
  {
  }

  lemma RoomyStep(r: Run, op: Op)
    requires Roomy(r) && Enabled(r, op) && op != Begin
    ensures Roomy(Step(r, op))
  {
    match op
    case Test => RoomyTest(r);
    case Pause => RoomyPauses(r, op);
    case Resume => RoomyPauses(r, op);
    case Skip => RoomyCloses(r, op);
    case TopUp => RoomyCloses(r, op);
    case _ =>
  }

  lemma {:induction false} RoomyRun(r: Run, ops: seq<Op>)
    requires Roomy(r) && Legal(r, ops) && Begin !in ops
    ensures Roomy(After(r, ops))
    decreases |ops|
  {
    if ops != [] {
      assert ops[0] in ops;
      RoomyStep(r, ops[0]);
      RoomyRun(Step(r, ops[0]), ops[1..]);
    }
  }

  // ----- the plain body overruns where they do not -----

  lemma {:induction false} PlainLoopOverrunsIff(r: Run)
    requires AtHead(r)
    ensures PlainLoop(r).st.halted <==> !FitsAhead(r)
    decreases r.cur.remaining + r.cur.runRemaining
  {
    var next := Tested(r);
    if next.phase == InPass && !next.st.halted {
      PlainLoopOverrunsIff(Step(next, Advance));
    }
  }

  /** A loop entered in any state is safe for every body, whatever pauses, skips and breaks
      it makes, exactly when the points ahead of it fit the recorder; where they do not,
      the body that does nothing already meets the hard stop. */
  lemma LoopIsSafeIff(r: Run, ops: seq<Op>)
    requires AtHead(r) && Legal(r, ops) && Begin !in ops
    ensures FitsAhead(r) ==> !After(r, ops).st.halted
    ensures !FitsAhead(r) <==> PlainLoop(r).st.halted
  {
    PlainLoopOverrunsIff(r);
    if FitsAhead(r) { RoomyRun(r, ops); }
  }

  /** So a run with no pauses whose first loop completes and that enters its loop again
      stops the program, instead of failing with the harness's own message, exactly when
      the pause room it reserved is smaller than its boundary count. */
  lemma SecondLoopStopsTheProgramIff(iterations: nat, chunk: nat, room: nat, first: Run)
    requires 0 < chunk < iterations && iterations + chunk <= WORD
    requires first == PlainLoop(Step(Start(Fresh(iterations, chunk, Chunks(iterations, chunk) + 1 + room)), Begin))
    ensures Reserved(Fresh(iterations, chunk, Chunks(iterations, chunk) + 1 + room))
    ensures first.phase == Outside && !first.st.halted && first.st.loopCompleted && !first.st.pauseOpen
    ensures PlainLoop(Step(first, Begin)).st.halted <==> room < Chunks(iterations, chunk) - 1
  {
    FirstLoop(Fresh(iterations, chunk, Chunks(iterations, chunk) + 1 + room));
    ReentryIsAtHead(first);
    PlainLoopOverrunsIff(Step(first, Begin));
  }

  /** A run of two chunks with no pause room, entered twice, meets the hard stop. */
  lemma SecondLoopCanStopTheProgram()
    ensures var first := PlainLoop(Step(Start(Fresh(2, 1, 3)), Begin));
            && first.st.loopCompleted && first.phase == Outside && !first.st.pauseOpen && !first.st.halted
            && PlainLoop(Step(first, Begin)).st.halted
  {
    assert Chunks(2, 1) == 2;
    SecondLoopStopsTheProgramIff(2, 1, 0, PlainLoop(Step(Start(Fresh(2, 1, 3)), Begin)));
  }

  lemma FirstLoop(s: St)
    requires Reserved(s) && s == Fresh(s.iterations, s.chunk, s.capacity)
    ensures var first := PlainLoop(Step(Start(s), Begin));
            && first.phase == Outside && !first.st.halted && first.st.loopCompleted && first.st.windowClosed
            && !first.st.pauseOpen && !first.st.skipRequested && first.st.windowOpened
            && first.st.iterations == s.iterations && first.st.chunk == s.chunk && first.st.capacity == s.capacity
            && |first.st.points| == 1 + Total(s)
  {
    OwedTotal(s);
    StartInv(s.iterations, s.chunk, s.capacity);
    StepInv(Start(s), Begin);
    PlainLoopCompletes(Step(Start(s), Begin));
    PlainLoopKeeps(Step(Start(s), Begin));
  }

  predicate SameSettings(s: St, t: St) {
    && t.iterations == s.iterations && t.chunk == s.chunk && t.capacity == s.capacity
    && t.skipRequested == s.skipRequested && t.pauseOpen == s.pauseOpen
  }

  lemma PointKeeps(s: St, mark: Mark)
    ensures SameSettings(s, Point(s, mark))
  {
  }

  lemma TestedKeeps(r: Run)
    ensures SameSettings(r.st, Tested(r).st)
  {
    if r.cur.remaining == 0 && r.cur.live {
      if r.cur.runRemaining != 0 {
        PointKeeps(r.st, Boundary(r.done));
      } else {
        PointKeeps(r.st.(loopCompleted := true), Exit(r.done));
      }
    }
  }

  lemma {:induction false} PlainLoopKeeps(r: Run)
    requires r.phase == Testing && (r.cur.live ==> !r.st.pauseOpen)
    requires r.cur.live && r.cur.runRemaining > 0 ==> r.cur.refill > 0
    ensures SameSettings(r.st, PlainLoop(r).st)
    decreases r.cur.remaining + r.cur.runRemaining
  {
    if !r.st.halted {
      var next := Tested(r);
      TestedKeeps(r);
      if next.phase == InPass && !next.st.halted { PlainLoopKeeps(Step(next, Advance)); }
    }
  }
}
