/** What every step of a timed run keeps, for the runs the harness accepts: one loop. */
module TimedInvariant {
  import opened TimedLoop

  predicate RawPause(s: St) {
    s.pauseOpen && !s.foldPair
  }

  function Total(s: St): nat {
    if Chunked(s) then Chunks(s.iterations, s.chunk) else 1
  }

  /** The recorder always has room for what the window and an open pause still owe, and the
      counts of the run add up. */
  ghost predicate Room(s: St) {
    && Reserved(s) && !s.halted && s.foldPoints == |s.points|
    && s.samplesTaken == s.foldPoints + 2 * s.foldedPairs + (if s.pauseOpen && s.foldPair then 1 else 0)
    && s.pauseCount == |s.pairs| + s.foldedPairs
    && (s.windowOpened ==>
          |s.points| + s.chunkPointsLeft + (if RawPause(s) then 1 else 0) <= s.capacity
          && s.points != [] && s.points[0] == Entry
          && (!s.windowClosed ==> s.chunkPointsLeft >= 1) && (s.skipRequested ==> s.windowClosed))
    && (!s.windowOpened ==>
          s.points == [] && !s.pauseOpen && !s.windowClosed && s.chunkPointsLeft == 1
          && s.loopsStarted == 0 && !s.loopCompleted && s.pairs == [] && s.intervals == [])
  }

  /** The cursor's two counts and the passes done split the run; the points still owed are
      the boundaries of the rest and the exit. */
  ghost predicate Counted(r: Run) {
    && r.st.loopsStarted <= 1
    && (r.cur.live ==>
          && r.st.loopsStarted == 1 && r.st.windowOpened
          && r.cur.start == r.st.iterations
          && (r.cur.runRemaining > 0 ==> r.st.chunk > 0 && r.cur.refill == r.st.chunk)
          && r.cur.remaining + r.cur.runRemaining + r.done == r.st.iterations
          && r.st.chunkPointsLeft == Chunks(r.cur.runRemaining, r.st.chunk) + (if r.st.windowClosed then 0 else 1))
    && (!r.cur.live ==>
          r.cur.remaining == 0 && r.cur.runRemaining == 0 && r.phase != InPass
          && (r.st.loopsStarted == 1 ==> r.st.skipRequested))
    && (r.st.loopsStarted == 0 ==>
          !r.cur.live && r.done == 0 && r.yielded == [] && !r.st.loopCompleted
          && (r.st.windowOpened ==> r.phase == Ended))
    && (r.phase == InPass ==> r.cur.remaining > 0)
    && (r.st.windowClosed ==> r.st.skipRequested || r.st.loopCompleted || r.phase == Ended)
  }

  /** The passes yield 0, 1, 2, and on. */
  ghost predicate Yielded(r: Run) {
    && (forall k | 0 <= k < |r.yielded| :: r.yielded[k] == k)
    && (r.phase == InPass ==> |r.yielded| == r.done + 1)
    && (r.phase == Testing && r.cur.live ==> |r.yielded| == r.done)
    && (r.st.loopCompleted && !r.st.skipRequested ==>
          |r.yielded| == r.done == r.st.iterations && r.st.windowClosed && !r.st.pauseOpen
          && r.phase != InPass && r.phase != Testing && r.cur.live)
  }

  // ----- the window's own points -----

  predicate OfWindow(m: Mark) {
    m.Entry? || m.Boundary? || m.Exit?
  }

  function WindowPoints(points: seq<Mark>): seq<Mark>
    decreases |points|
  {
    if points == [] then []
    else
      var rest := WindowPoints(points[..|points| - 1]);
      var last := points[|points| - 1];
      if OfWindow(last) then rest + [last] else rest
  }

  /** The entry and the first `b` boundaries, one each `size` passes. */
  function Grid(b: nat, size: nat): (g: seq<Mark>)
    ensures |g| == b + 1
  {
    if b == 0 then [Entry] else Grid(b - 1, size) + [Boundary(Passes(b, size))]
  }

  /** The boundaries taken so far. */
  function Taken(r: Run): int {
    Total(r.st) - 1 - Chunks(r.cur.runRemaining, r.st.chunk)
  }

  ghost predicate OnGrid(r: Run) {
    && (r.cur.live && !r.st.windowClosed ==>
          && Taken(r) >= 0 && WindowPoints(r.st.points) == Grid(Taken(r), r.st.chunk)
          && (r.cur.runRemaining > 0 ==> r.st.iterations - r.cur.runRemaining == Passes(Taken(r) + 1, r.st.chunk)))
    && (r.st.loopCompleted && !r.st.skipRequested ==>
          WindowPoints(r.st.points) == Grid(Total(r.st) - 1, r.st.chunk) + [Exit(r.st.iterations)]
          && r.st.points != [] && r.st.points[|r.st.points| - 1] == Exit(r.st.iterations))
  }

  // ----- the pauses -----

  /** One recorded pause: it really spans `at.first` to `at.second`, holds only window points
      between, and was written down as the last two points before its close. */
  ghost predicate Interval(points: seq<Mark>, at: Ordinals, written: Ordinals) {
    && at.first < at.second < |points| && points[at.first] == PauseOpen && points[at.second] == PauseClose
    && (forall p | at.first < p < at.second :: OfWindow(points[p]))
    && written == Ordinals(at.second - 1, at.second)
  }

  ghost predicate Known(s: St, p: nat) {
    (RawPause(s) && p == s.pausedAt)
    || exists k: nat :: k < |s.intervals| && (s.intervals[k].first == p || s.intervals[k].second == p)
  }

  ghost predicate Paused(s: St) {
    && |s.intervals| == |s.pairs|
    && (forall k: nat | k < |s.pairs| :: Interval(s.points, s.intervals[k], s.pairs[k]))
    && (forall k: nat, m: nat | k < m < |s.pairs| :: s.intervals[k].second < s.intervals[m].first)
    && (RawPause(s) ==>
          && s.pausedAt < |s.points| && s.points[s.pausedAt] == PauseOpen
          && (forall p | s.pausedAt < p < |s.points| :: OfWindow(s.points[p]))
          && (forall k: nat | k < |s.pairs| :: s.intervals[k].second < s.pausedAt))
    && (forall p: nat | p < |s.points| && !OfWindow(s.points[p]) :: Known(s, p))
  }

  /** The points are the window's and two for each recorded pair. */
  ghost predicate Tallied(s: St) {
    |s.points| == |WindowPoints(s.points)| + 2 * |s.pairs| + (if RawPause(s) then 1 else 0)
  }

  ghost predicate Inv(r: Run) {
    Room(r.st) && Counted(r) && Yielded(r) && OnGrid(r) && Tallied(r.st) && Paused(r.st)
  }

  lemma StartInv(iterations: nat, chunk: nat, capacity: nat)
    requires Reserved(Fresh(iterations, chunk, capacity))
    ensures Inv(Start(Fresh(iterations, chunk, capacity)))
  {
  }

  // ----- one step -----

  lemma OwedTotal(s: St)
    requires Reserved(s)
    ensures PointsOwed(s) == Total(s)
  {
    if Chunked(s) { PointsOwedIsExactIff(s); }
  }

  ghost predicate Allowed(r: Run, op: Op) {
    Enabled(r, op) && Step(r, op).st.loopsStarted <= 1
  }

  lemma BeginKeepsRoom(r: Run)
    requires Room(r.st) && Counted(r) && Allowed(r, Begin)
    ensures Room(Step(r, Begin).st)
  {
    OwedTotal(r.st);
  }

  lemma TestKeepsRoom(r: Run)
    requires Room(r.st) && Counted(r) && Allowed(r, Test)
    ensures Room(Step(r, Test).st)
  {
  }

  lemma PauseKeepsRoom(r: Run)
    requires Room(r.st) && Counted(r) && Allowed(r, Pause)
    ensures Room(Step(r, Pause).st)
  {
  }

  lemma ResumeKeepsRoom(r: Run)
    requires Room(r.st) && Counted(r) && Allowed(r, Resume)
    ensures Room(Step(r, Resume).st)
  {
  }

  lemma SkipKeepsRoom(r: Run)
    requires Room(r.st) && Counted(r) && Allowed(r, Skip)
    ensures Room(Step(r, Skip).st)
  {
  }

  lemma TopUpKeepsRoom(r: Run)
    requires Room(r.st) && Counted(r) && Allowed(r, TopUp)
    ensures Room(Step(r, TopUp).st)
  {
  }

  lemma KeepRoom(r: Run, op: Op)
    requires Room(r.st) && Counted(r) && Allowed(r, op)
    ensures Room(Step(r, op).st)
  {
    match op
    case Begin => BeginKeepsRoom(r);
    case Test => TestKeepsRoom(r);
    case Advance =>
    case Leave =>
    case Pause => PauseKeepsRoom(r);
    case Resume => ResumeKeepsRoom(r);
    case Skip => SkipKeepsRoom(r);
    case TopUp => TopUpKeepsRoom(r);
  }

  lemma BeginKeepsCounted(r: Run)
    requires Room(r.st) && Counted(r) && Allowed(r, Begin)
    ensures Counted(Step(r, Begin))
  {
    OwedTotal(r.st);
  }

  lemma TestKeepsCounted(r: Run)
    requires Room(r.st) && Counted(r) && Allowed(r, Test)
    ensures Counted(Step(r, Test))
  {
  }

  lemma ClosesKeepCounted(r: Run, op: Op)
    requires Room(r.st) && Counted(r) && Allowed(r, op) && (op == Skip || op == TopUp)
    ensures Counted(Step(r, op))
  {
  }

  lemma KeepCounted(r: Run, op: Op)
    requires Room(r.st) && Counted(r) && Allowed(r, op)
    ensures Counted(Step(r, op))
  {
    match op
    case Begin => BeginKeepsCounted(r);
    case Test => TestKeepsCounted(r);
    case Advance =>
    case Leave =>
    case Pause =>
    case Resume =>
    case Skip => ClosesKeepCounted(r, op);
    case TopUp => ClosesKeepCounted(r, op);
  }

  lemma KeepYielded(r: Run, op: Op)
    requires Room(r.st) && Counted(r) && Yielded(r) && Allowed(r, op)
    ensures Yielded(Step(r, op))
  {
    match op
    case Begin =>
    case Test =>
    case TopUp =>
    case _ =>
  }

  lemma WindowGrows(points: seq<Mark>, m: Mark)
    ensures WindowPoints(points + [m]) == if OfWindow(m) then WindowPoints(points) + [m] else WindowPoints(points)
  {
    assert (points + [m])[..|points|] == points;
  }

  lemma BeginOnGrid(r: Run)
    requires Room(r.st) && Counted(r) && Yielded(r) && OnGrid(r) && Allowed(r, Begin)
    ensures OnGrid(Step(r, Begin))
  {
    OwedTotal(r.st);
    WindowGrows([], Entry);
  }

  /** A boundary: one more point of the grid, where the next chunk starts. */
  lemma BoundaryOnGrid(r: Run)
    requires Room(r.st) && Counted(r) && Yielded(r) && OnGrid(r) && Allowed(r, Test)
    requires r.cur.live && r.cur.remaining == 0 && r.cur.runRemaining != 0
    ensures OnGrid(Step(r, Test))
  {
    WindowGrows(r.st.points, Boundary(r.done));
  }

  lemma ExitOnGrid(r: Run)
    requires Room(r.st) && Counted(r) && Yielded(r) && OnGrid(r) && Allowed(r, Test)
    requires r.cur.live && r.cur.remaining == 0 && r.cur.runRemaining == 0
    ensures OnGrid(Step(r, Test))
  {
    WindowGrows(r.st.points, Exit(r.done));
  }

  lemma TestOnGrid(r: Run)
    requires Room(r.st) && Counted(r) && Yielded(r) && OnGrid(r) && Allowed(r, Test)
    ensures OnGrid(Step(r, Test))
  {
    if r.cur.live && r.cur.remaining == 0 {
      if r.cur.runRemaining != 0 { BoundaryOnGrid(r); } else { ExitOnGrid(r); }
    }
  }

  /** A pause and its close leave the window's own points alone. */
  lemma PausesOffGrid(s: St)
    requires Room(s) && s.windowOpened
    ensures !s.pauseOpen ==> WindowPoints(PauseTiming(s).points) == WindowPoints(s.points)
    ensures s.pauseOpen ==> WindowPoints(ClosePausePair(s).points) == WindowPoints(s.points)
  {
    WindowGrows(s.points, PauseOpen);
    WindowGrows(s.points, PauseClose);
  }

  lemma PauseOnGrid(r: Run)
    requires Room(r.st) && Counted(r) && Yielded(r) && OnGrid(r) && Allowed(r, Pause)
    ensures OnGrid(Step(r, Pause))
  {
    PausesOffGrid(r.st);
  }

  lemma ResumeOnGrid(r: Run)
    requires Room(r.st) && Counted(r) && Yielded(r) && OnGrid(r) && Allowed(r, Resume)
    ensures OnGrid(Step(r, Resume))
  {
    PausesOffGrid(r.st);
  }

  lemma SkipOnGrid(r: Run)
    requires Room(r.st) && Counted(r) && Yielded(r) && OnGrid(r) && Allowed(r, Skip)
    ensures OnGrid(Step(r, Skip))
  {
  }

  lemma TopUpOnGrid(r: Run)
    requires Room(r.st) && Counted(r) && Yielded(r) && OnGrid(r) && Allowed(r, TopUp)
    ensures OnGrid(Step(r, TopUp))
  {
  }

  lemma KeepOnGrid(r: Run, op: Op)
    requires Room(r.st) && Counted(r) && Yielded(r) && OnGrid(r) && Allowed(r, op)
    ensures OnGrid(Step(r, op))
  {
    match op
    case Begin => BeginOnGrid(r);
    case Test => TestOnGrid(r);
    case Advance =>
    case Leave =>
    case Pause => PauseOnGrid(r);
    case Resume => ResumeOnGrid(r);
    case Skip => SkipOnGrid(r);
    case TopUp => TopUpOnGrid(r);
  }

  lemma TalliedAfterPoint(s: St, m: Mark)
    requires |s.points| < s.capacity
    ensures |WindowPoints(Point(s, m).points)| == |WindowPoints(s.points)| + (if OfWindow(m) then 1 else 0)
    ensures |Point(s, m).points| == |s.points| + 1
  {
    WindowGrows(s.points, m);
  }

  lemma TalliedAfterClose(s: St)
    requires Room(s) && Tallied(s) && s.pauseOpen
    ensures Tallied(ClosePausePair(s))
  {
    if !s.foldPair { TalliedAfterPoint(s, PauseClose); }
  }

  lemma TalliedAfterExit(s: St, done: nat)
    requires Tallied(s) && (s.windowOpened && !s.windowClosed ==> |s.points| < s.capacity)
    ensures Tallied(TakeExitSample(s, done))
  {
    if s.windowOpened && !s.windowClosed { TalliedAfterPoint(s, Exit(done)); }
  }

  lemma TalliedAtTest(r: Run)
    requires Room(r.st) && Counted(r) && Tallied(r.st) && Allowed(r, Test)
    ensures Tallied(Step(r, Test).st)
  {
    if r.cur.live && r.cur.remaining == 0 {
      if r.cur.runRemaining != 0 {
        TalliedAfterPoint(r.st, Boundary(r.done));
      } else {
        TalliedAfterExit(r.st.(loopCompleted := true), r.done);
      }
    }
  }

  lemma TalliedAtEnd(r: Run)
    requires Room(r.st) && Tallied(r.st) && Enabled(r, TopUp)
    ensures Tallied(Step(r, TopUp).st)
  {
    if !r.st.windowOpened { TalliedAfterPoint(r.st, Entry); }
    var open := OpenWindow(r.st);
    if open.pauseOpen { TalliedAfterClose(open); }
    TalliedAfterExit(if open.pauseOpen then ClosePausePair(open) else open, r.done);
  }

  lemma KeepTallied(r: Run, op: Op)
    requires Room(r.st) && Counted(r) && Tallied(r.st) && Allowed(r, op)
    ensures Tallied(Step(r, op).st)
  {
    match op
    case Begin => if !r.st.skipRequested { TalliedAfterPoint(r.st, Entry); }
    case Test => TalliedAtTest(r);
    case Pause => if |r.st.points| < r.st.capacity { TalliedAfterPoint(r.st, PauseOpen); }
    case Resume => TalliedAfterClose(r.st);
    case Skip => TalliedAfterExit(r.st.(skipRequested := true), r.done);
    case TopUp => TalliedAtEnd(r);
    case _ =>
  }

  lemma PausedAfterWindowPoint(s: St, after: St, m: Mark)
    requires Paused(s) && OfWindow(m) && after.points == s.points + [m]
    requires after.pairs == s.pairs && after.intervals == s.intervals
    requires after.pauseOpen == s.pauseOpen && after.foldPair == s.foldPair && after.pausedAt == s.pausedAt
    ensures Paused(after)
  {
    forall p: nat | p < |after.points| && !OfWindow(after.points[p]) ensures Known(after, p) {
      assert Known(s, p);
    }
  }

  lemma PausedAfterPause(s: St)
    requires Room(s) && Paused(s) && s.windowOpened && !s.windowClosed && !s.pauseOpen
    ensures Paused(PauseTiming(s))
  {
    var after := PauseTiming(s);
    forall p: nat | p < |after.points| && !OfWindow(after.points[p]) ensures Known(after, p) {
      if p < |s.points| { assert Known(s, p); }
    }
  }

  lemma PausedAfterClose(s: St)
    requires Room(s) && Paused(s) && s.pauseOpen
    ensures Paused(ClosePausePair(s))
  {
    var after := ClosePausePair(s);
    if RawPause(s) {
      var n := |s.pairs|;
      assert after.points == s.points + [PauseClose] && after.intervals[n] == Ordinals(s.pausedAt, |s.points|);
      assert Interval(after.points, after.intervals[n], after.pairs[n]);
      forall k: nat | k < n ensures Interval(after.points, after.intervals[k], after.pairs[k]) {
        assert Interval(s.points, s.intervals[k], s.pairs[k]);
      }
    }
    forall p: nat | p < |after.points| && !OfWindow(after.points[p]) ensures Known(after, p) {
      KnownAfterClose(s, p);
    }
  }

  lemma KnownAfterClose(s: St, p: nat)
    requires Room(s) && s.pauseOpen && |s.intervals| == |s.pairs|
    requires (p < |s.points| && Known(s, p)) || (p == |s.points| && RawPause(s))
    ensures Known(ClosePausePair(s), p)
  {
    var after := ClosePausePair(s);
    if RawPause(s) { assert after.intervals[|s.intervals|] == Ordinals(s.pausedAt, |s.points|); }
    if p < |s.points| && !(RawPause(s) && p == s.pausedAt) {
      var k: nat :| k < |s.intervals| && (s.intervals[k].first == p || s.intervals[k].second == p);
      assert after.intervals[k] == s.intervals[k];
    }
  }

  lemma PausedAfterExit(s: St, done: nat)
    requires Paused(s) && (s.windowOpened && !s.windowClosed ==> |s.points| < s.capacity)
    ensures Paused(TakeExitSample(s, done))
  {
    if s.windowOpened && !s.windowClosed { PausedAfterWindowPoint(s, TakeExitSample(s, done), Exit(done)); }
  }

  lemma KeepPausedAtTest(r: Run)
    requires Room(r.st) && Counted(r) && Paused(r.st) && Allowed(r, Test)
    ensures Paused(Step(r, Test).st)
  {
    if r.cur.live && r.cur.remaining == 0 {
      if r.cur.runRemaining != 0 {
        PausedAfterWindowPoint(r.st, TakeChunkSample(r.st, r.done), Boundary(r.done));
      } else {
        PausedAfterExit(r.st.(loopCompleted := true), r.done);
      }
    }
  }

  lemma KeepPaused(r: Run, op: Op)
    requires Room(r.st) && Counted(r) && Paused(r.st) && Allowed(r, op)
    ensures Paused(Step(r, op).st)
  {
    match op
    case Begin => if !r.st.skipRequested { PausedAfterWindowPoint(r.st, BeginRun(r.st), Entry); }
    case Test => KeepPausedAtTest(r);
    case Pause => PausedAfterPause(r.st);
    case Resume => PausedAfterClose(r.st);
    case Skip => PausedAfterExit(r.st.(skipRequested := true), r.done);
    case TopUp => KeepPausedAtEnd(r);
    case _ =>
  }

  lemma KeepPausedAtEnd(r: Run)
    requires Room(r.st) && Paused(r.st) && Enabled(r, TopUp)
    ensures Paused(Step(r, TopUp).st)
  {
    var open := OpenWindow(r.st);
    if !r.st.windowOpened { PausedAfterWindowPoint(r.st, open, Entry); }
    var closed := if open.pauseOpen then ClosePausePair(open) else open;
    if open.pauseOpen { PausedAfterClose(open); }
    PausedAfterExit(closed, r.done);
  }

  lemma StepInv(r: Run, op: Op)
    requires Inv(r) && Allowed(r, op)
    ensures Inv(Step(r, op))
  {
    KeepRoom(r, op);
    KeepCounted(r, op);
    KeepYielded(r, op);
    KeepOnGrid(r, op);
    KeepTallied(r, op);
    KeepPaused(r, op);
  }
}
