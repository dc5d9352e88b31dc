/** `State` and its `Cursor` as the source keeps them: fields changed in place, each method
    tied to the step it stands for, and the loop a benchmark writes around them. */
module TimedState {
  import opened Common
  import opened TimedLoop
  import opened TimedInvariant

  /** Opening the run leaves the chunk cadence alone. */
  lemma OpeningSetsNoCadence(s: St)
    ensures FirstCursor(TimedLoop.OpenRun(s)) == FirstCursor(s)
  {
  }

  class State {
    const iterations: nat
    const capacity: nat
    var chunk: nat
    var chunkPointsLeft: nat
    var skipRequested: bool
    var loopsStarted: nat
    var windowOpened: bool
    var windowClosed: bool
    var loopCompleted: bool
    var pauseOpen: bool
    var foldPair: bool
    var pairs: seq<Ordinals>
    var pauseCount: nat
    var samplesTaken: nat
    var foldPoints: nat
    var foldedPairs: nat
    // the recorder: its committed count, and whether its check ended the program
    var count: nat
    var halted: bool
    // history
    ghost var points: seq<Mark>
    ghost var pausedAt: nat
    ghost var intervals: seq<Ordinals>

    ghost predicate Valid()
      reads this
    {
      count == |points|
    }

    ghost function Value(): St
      reads this
    {
      St(iterations, chunk, capacity, chunkPointsLeft, skipRequested, loopsStarted,
         windowOpened, windowClosed, loopCompleted, pauseOpen, foldPair, pairs, pauseCount,
         samplesTaken, foldPoints, foldedPairs, points, halted, pausedAt, intervals)
    }

    /** A state as a runner hands it over, chunked. */
    constructor (iterations: nat, capacity: nat, chunkIterations: nat)
      ensures Valid() && Value() == Fresh(iterations, chunkIterations, capacity)
    {
      this.iterations, this.capacity := iterations, capacity;
      chunk := if chunkIterations < iterations then chunkIterations else iterations;
      chunkPointsLeft, skipRequested, loopsStarted := 1, false, 0;
      windowOpened, windowClosed, loopCompleted := false, false, false;
      pauseOpen, foldPair, pairs, pauseCount := false, false, [], 0;
      samplesTaken, foldPoints, foldedPairs, count, halted := 0, 0, 0, 0, false;
      points, pausedAt, intervals := [], 0, [];
    }

    /** A recorder sample with the two counts beside it. */
    method SamplePoint(ghost mark: Mark)
      requires Valid()
      modifies this
      ensures Valid() && Value() == Point(old(Value()), mark)
    {
      if count < capacity {
        count := count + 1;
        points := points + [mark];
      } else {
        halted := true;
      }
      samplesTaken := samplesTaken + 1;
      foldPoints := foldPoints + 1;
    }

    method PayOne()
      requires Valid()
      modifies this`chunkPointsLeft
      ensures Value() == old(Value()).(chunkPointsLeft := Owed(old(Value())))
    {
      chunkPointsLeft := if chunkPointsLeft == 0 then WORD - 1 else chunkPointsLeft - 1;
    }

    method OpenWindow()
      requires Valid()
      modifies this
      ensures Valid() && Value() == TimedLoop.OpenWindow(old(Value()))
    {
      if !windowOpened {
        SamplePoint(Entry);
        windowOpened := true;
      }
    }

    method TakeChunkSample(ghost done: nat)
      requires Valid()
      modifies this
      ensures Valid() && Value() == TimedLoop.TakeChunkSample(old(Value()), done)
    {
      SamplePoint(Boundary(done));
      PayOne();
    }

    method TakeExitSample(ghost done: nat)
      requires Valid()
      modifies this
      ensures Valid() && Value() == TimedLoop.TakeExitSample(old(Value()), done)
    {
      if windowOpened && !windowClosed {
        SamplePoint(Exit(done));
        PayOne();
        windowClosed := true;
      }
    }

    method OpenRun() returns (open: bool)
      requires Valid()
      modifies this
      ensures Valid() && open == !old(skipRequested)
      ensures Value() == if open then TimedLoop.OpenRun(old(Value())) else old(Value())
    {
      if skipRequested {
        return false;
      }
      ghost var before := Value();
      loopsStarted := loopsStarted + 1;
      assert Value() == before.(loopsStarted := before.loopsStarted + 1);
      OpenWindow();
      open := true;
    }

    /** The chunk cadence: the first cursor, and the points the window now owes. */
    method Chunk() returns (c: Cursor)
      requires Valid()
      modifies this`chunkPointsLeft
      ensures fresh(c) && c.state == this && c.Value() == FirstCursor(old(Value()))
      ensures Valid() && Value() == WithOwed(old(Value()))
    {
      if chunk != 0 && iterations > chunk {
        c := new Cursor(this, true, chunk, iterations - chunk, chunk);
        chunkPointsLeft := ((iterations + chunk - 1) % WORD) / chunk;
      } else {
        c := new Cursor(this, true, iterations, 0, 0);
        chunkPointsLeft := 1;
      }
    }

    method Begin() returns (c: Cursor)
      requires Valid()
      modifies this
      ensures Valid() && fresh(c) && c.state == this
      ensures Value() == if old(skipRequested) then old(Value()) else BeginRun(old(Value()))
      ensures c.Value() == if old(skipRequested) then NoCursor() else FirstCursor(old(Value()))
    {
      ghost var before := Value();
      var open := OpenRun();
      if open {
        OpeningSetsNoCadence(before);
        c := Chunk();
      } else {
        c := new Cursor(this, false, 0, 0, 0);
      }
    }

    method CloseWindow(ghost done: nat)
      requires Valid() && !pauseOpen
      modifies this
      ensures Valid() && Value() == TimedLoop.CloseWindow(old(Value()), done)
    {
      loopCompleted := true;
      TakeExitSample(done);
    }

    method Skip(ghost done: nat)
      requires Valid()
      modifies this
      ensures Valid() && Value() == SkipRun(old(Value()), done)
    {
      skipRequested := true;
      TakeExitSample(done);
    }

    method PauseTiming()
      requires Valid() && windowOpened && !windowClosed && !pauseOpen
      modifies this
      ensures Valid() && Value() == TimedLoop.PauseTiming(old(Value()))
    {
      if count + 2 + chunkPointsLeft > capacity {
        foldPair := true;
        samplesTaken := samplesTaken + 1;
      } else {
        foldPair := false;
        pausedAt := |points|;
        SamplePoint(PauseOpen);
      }
      pauseOpen := true;
    }

    method ResumeTiming()
      requires Valid() && pauseOpen
      modifies this
      ensures Valid() && Value() == TimedLoop.ClosePausePair(old(Value()))
    {
      ClosePausePair();
    }

    /** The slot takes the pair's closing point and the run's totals take the fold. */
    method CommitFoldPair()
      requires Valid()
      modifies this
      ensures Valid() && Value() == FoldedPair(old(Value()))
    {
      samplesTaken := samplesTaken + 1;
      foldedPairs := foldedPairs + 1;
    }

    method RecordPair()
      requires Valid()
      modifies this
      ensures Valid() && Value() == RecordedPair(old(Value()))
    {
      var last := foldPoints;
      ghost var end: nat := |points|;
      SamplePoint(PauseClose);
      pairs := pairs + [Ordinals(if last == 0 then 0 else last - 1, last)];
      intervals := intervals + [Ordinals(pausedAt, end)];
    }

    method ClosePausePair()
      requires Valid()
      modifies this
      ensures Valid() && Value() == TimedLoop.ClosePausePair(old(Value()))
    {
      if foldPair {
        CommitFoldPair();
      } else {
        RecordPair();
      }
      pauseOpen := false;
      pauseCount := pauseCount + 1;
    }

    method TopUpWindow(ghost done: nat)
      requires Valid()
      modifies this
      ensures Valid() && Value() == TimedLoop.TopUpWindow(old(Value()), done)
    {
      OpenWindow();
      if pauseOpen {
        ClosePausePair();
      }
      TakeExitSample(done);
    }
  }

  class Cursor {
    const state: State
    const live: bool
    const start: nat
    var remaining: nat
    var runRemaining: nat
    var refill: nat

    ghost function Value(): Cur
      reads this
    {
      Cur(live, start, remaining, runRemaining, refill)
    }

    constructor (state: State, live: bool, remaining: nat, runRemaining: nat, refill: nat)
      ensures this.state == state && Value() == Cur(live, remaining + runRemaining, remaining, runRemaining, refill)
    {
      this.state, this.live, this.start := state, live, remaining + runRemaining;
      this.remaining, this.runRemaining, this.refill := remaining, runRemaining, refill;
    }

    /** `operator!=`: the local count, then the chunk boundary, then the end. */
    method More(ghost done: nat) returns (more: bool)
      requires state.Valid()
      requires live && remaining == 0 && runRemaining == 0 ==> !state.pauseOpen
      modifies this, state
      ensures state.Valid()
      ensures forall phase, yielded: seq<int> ::
                var r := Tested(Run(old(state.Value()), old(Value()), phase, done, yielded));
                state.Value() == r.st && Value() == r.cur && more == (r.phase == InPass)
    {
      if remaining != 0 {
        return true;
      }
      if live {
        if runRemaining != 0 {
          state.TakeChunkSample(done);
          var take := if runRemaining < refill then runRemaining else refill;
          remaining, runRemaining := take, runRemaining - take;
          return true;
        }
        state.CloseWindow(done);
      }
      return false;
    }

    /** `operator++`. */
    method Advance()
      requires remaining > 0
      modifies this`remaining
      ensures Value() == old(Value()).(remaining := old(remaining) - 1)
    {
      remaining := remaining - 1;
    }

    /** `operator*`: in a pass of a run, the number of passes done before it. */
    method Index(ghost r: Run) returns (i: int)
      requires Inv(r) && r.phase == InPass && r.cur == Value()
      ensures i == r.done && 0 <= i < r.st.iterations && r.yielded[|r.yielded| - 1] == i
    {
      i := start - runRemaining - remaining;
    }
  }

  /** The points taken and owed: the window's own, and those of the recorded pauses. */
  ghost predicate Balanced(s: St) {
    |s.points| + s.chunkPointsLeft == 1 + Total(s) + 2 * |s.pairs| + (if RawPause(s) then 1 else 0)
  }

  /** A pass in progress, with the state and the cursor at its values. */
  ghost predicate During(r: Run, state: State, yielded: seq<int>)
    reads state
  {
    && state.Valid() && Inv(r) && r.st == state.Value() && r.phase == InPass && r.cur.live
    && r.yielded == yielded && Balanced(r.st)
    && !state.pauseOpen && !state.windowClosed && !state.skipRequested
  }

  lemma PauseBalanced(r: Run)
    requires Inv(r) && r.phase == InPass && r.cur.live && Balanced(r.st)
    requires !r.st.pauseOpen && !r.st.windowClosed
    ensures var after := r.(st := PauseTiming(r.st));
            Inv(after) && Balanced(after.st) && Total(after.st) == Total(r.st)
  {
    StepInv(r, Pause);
    assert Step(r, Pause) == r.(st := PauseTiming(r.st));
  }

  lemma ResumeBalanced(r: Run)
    requires Inv(r) && r.phase == InPass && r.cur.live && Balanced(r.st) && r.st.pauseOpen
    ensures var after := r.(st := ClosePausePair(r.st));
            Inv(after) && Balanced(after.st) && Total(after.st) == Total(r.st)
  {
    StepInv(r, Resume);
    assert Step(r, Resume) == r.(st := ClosePausePair(r.st));
  }

  /** A body that opens and closes `n` pauses. */
  method PauseTimes(state: State, n: nat, ghost r: Run) returns (ghost after: Run)
    requires During(r, state, r.yielded)
    modifies state
    ensures During(after, state, r.yielded) && after.cur == r.cur && after.done == r.done
    ensures Total(after.st) == Total(r.st)
  {
    after := r;
    var left := n;
    while left > 0
      invariant During(after, state, r.yielded) && after.cur == r.cur && after.done == r.done
      invariant Total(after.st) == Total(r.st)
    {
      PauseBalanced(after);
      state.PauseTiming();
      after := after.(st := state.Value());
      ResumeBalanced(after);
      state.ResumeTiming();
      after := after.(st := state.Value());
      left := left - 1;
    }
  }

  /** How many pauses a body opens and closes in the pass of an index. */
  type Body = int -> nat

  /** Between two passes of an unskipped loop, or behind its last. */
  ghost predicate Between(r: Run, state: State, more: bool)
    reads state
  {
    && state.Valid() && Inv(r) && r.st == state.Value() && r.cur.live && Balanced(r.st)
    && !state.pauseOpen && !state.skipRequested
    && (if more then r.phase == Testing && !state.windowClosed
        else r.phase == Outside && r.st.loopCompleted && r.st.chunkPointsLeft == 0)
  }

  lemma TestBalanced(r: Run)
    requires Inv(r) && r.phase == Testing && r.cur.live && Balanced(r.st)
    requires !r.st.pauseOpen && !r.st.skipRequested && !r.st.windowClosed
    ensures var next := Tested(r);
            && Inv(next) && next.cur.live && Balanced(next.st) && Total(next.st) == Total(r.st)
            && !next.st.pauseOpen && !next.st.skipRequested
            && next.cur.remaining + next.cur.runRemaining == r.cur.remaining + r.cur.runRemaining
            && (if next.phase == InPass then !next.st.windowClosed && next.yielded == r.yielded + [next.cur.Index()]
                else next.phase == Outside && next.st.loopCompleted && next.st.chunkPointsLeft == 0
                     && next.yielded == r.yielded)
  {
    assert Tested(r) == Step(r, Test);
    StepInv(r, Test);
  }

  lemma BeginBalanced(s: St)
    requires Reserved(s) && s == Fresh(s.iterations, s.chunk, s.capacity)
    ensures var r := Step(Start(s), Begin);
            Inv(r) && Balanced(r.st) && r.phase == Testing && r.cur.live && !r.st.pauseOpen
            && !r.st.skipRequested && !r.st.windowClosed && Total(r.st) == Total(s)
  {
    OwedTotal(s);
    StartInv(s.iterations, s.chunk, s.capacity);
    StepInv(Start(s), Begin);
  }

  /** One pass: its index, its body, its end. */
  method RunPass(state: State, c: Cursor, pauses: Body, ghost r: Run) returns (i: int, ghost after: Run)
    requires c.state == state && During(r, state, r.yielded) && r.cur == c.Value()
    modifies state, c
    ensures c.Value() == after.cur && Between(after, state, true)
    ensures i == old(c.Value()).Index() && after.yielded == r.yielded && Total(after.st) == Total(r.st)
    ensures c.remaining + c.runRemaining < old(c.remaining + c.runRemaining)
  {
    i := c.Index(r);
    after := PauseTimes(state, pauses(i), r);
    StepInv(after, Advance);
    c.Advance();
    after := Step(after, Advance);
  }

  /** The loop `for (auto _ : state)` around any such body: it ends, makes every pass once
      in order, and the recorder holds the window's points and two for each pair that had
      room. */
  method RunLoop(state: State, pauses: Body) returns (yielded: seq<int>)
    requires state.Valid() && Reserved(state.Value())
    requires state.Value() == Fresh(state.iterations, state.chunk, state.capacity)
    modifies state
    ensures state.Valid() && !state.halted && state.loopCompleted && !state.pauseOpen
    ensures |yielded| == state.iterations && forall k | 0 <= k < |yielded| :: yielded[k] == k
    ensures state.count == 1 + old(Total(state.Value())) + 2 * |state.pairs|
    ensures state.samplesTaken == state.count + 2 * state.foldedPairs
  {
    yielded := [];
    ghost var total := Total(state.Value());
    BeginBalanced(state.Value());
    ghost var r := Step(Start(state.Value()), Begin);
    var c := state.Begin();
    var more := true;
    while more
      invariant c.state == state && fresh(c) && Between(r, state, more) && r.cur == c.Value()
      invariant r.yielded == yielded && Total(r.st) == total
      decreases more, c.remaining + c.runRemaining
    {
      TestBalanced(r);
      more := c.More(r.done);
      r := Tested(r);
      if more {
        var i, after := RunPass(state, c, pauses, r);
        r := after;
        yielded := yielded + [i];
      }
    }
  }
}
