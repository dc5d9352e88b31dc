/** What a timed run promises, over every sequence of operations. */
module TimedTheorems {
  import opened Common
  import opened TimedLoop
  import opened TimedInvariant

  /** A second loop is refused by the harness after the run; the promises are for one. */
  lemma {:induction false} LoopsOnlyGrow(r: Run, ops: seq<Op>)
    requires Legal(r, ops)
    ensures After(r, ops).st.loopsStarted >= r.st.loopsStarted
    decreases |ops|
  {
    if ops != [] { LoopsOnlyGrow(Step(r, ops[0]), ops[1..]); }
  }

  lemma {:induction false} RunInvFrom(r: Run, ops: seq<Op>)
    requires Inv(r) && Legal(r, ops) && After(r, ops).st.loopsStarted <= 1
    ensures Inv(After(r, ops))
    decreases |ops|
  {
    if ops != [] {
      LoopsOnlyGrow(Step(r, ops[0]), ops[1..]);
      StepInv(r, ops[0]);
      RunInvFrom(Step(r, ops[0]), ops[1..]);
    }
  }

  /** A run of one loop at most, from a state as a runner hands it over with its points
      reserved, through any operations. */
  ghost predicate EndsIn(start: St, ops: seq<Op>, r: Run) {
    && Reserved(start) && start == Fresh(start.iterations, start.chunk, start.capacity)
    && Legal(Start(start), ops) && After(Start(start), ops) == r && r.st.loopsStarted <= 1
  }

  lemma RunInv(start: St, ops: seq<Op>, r: Run)
    requires EndsIn(start, ops, r)
    ensures Inv(r)
    ensures r.st.iterations == start.iterations && r.st.chunk == start.chunk && r.st.capacity == start.capacity
  {
    StartInv(start.iterations, start.chunk, start.capacity);
    RunInvFrom(Start(start), ops);
    SettingsStay(Start(start), ops);
  }

  /** The hard stop never fires: whatever pauses, skips and breaks a body makes, the
      recorder keeps room for every point the window and an open pause still owe. */
  lemma RoomAlwaysSuffices(start: St, ops: seq<Op>, r: Run)
    requires EndsIn(start, ops, r)
    ensures !r.st.halted && |r.st.points| <= start.capacity
    ensures r.st.windowOpened ==>
              |r.st.points| + r.st.chunkPointsLeft + (if r.st.pauseOpen && !r.st.foldPair then 1 else 0) <= start.capacity
    ensures r.st.samplesTaken
         == |r.st.points| + 2 * r.st.foldedPairs + (if r.st.pauseOpen && r.st.foldPair then 1 else 0)
    ensures r.st.pauseCount == |r.st.pairs| + r.st.foldedPairs
  {
    RunInv(start, ops, r);
  }

  /** A loop that ran out unskipped made exactly its passes, yielding each index once in
      order, and its own points cut the passes into chunks with one shorter last chunk. */
  lemma CompletedLoopIsExact(start: St, ops: seq<Op>, r: Run)
    requires EndsIn(start, ops, r) && r.st.loopCompleted && !r.st.skipRequested
    ensures r.done == |r.yielded| == start.iterations && forall k | 0 <= k < |r.yielded| :: r.yielded[k] == k
    ensures var window := WindowPoints(r.st.points);
            && |window| == 1 + Total(start)
            && window[0] == Entry && window[|window| - 1] == Exit(start.iterations)
            && (forall k | 0 < k < |window| - 1 :: window[k] == Boundary(k * start.chunk))
    ensures Chunked(start) ==> (Total(start) - 1) * start.chunk < start.iterations <= Total(start) * start.chunk
  {
    RunInv(start, ops, r);
    GridAt(Total(start) - 1, start.chunk);
    if Chunked(start) { ChunksBound(start.iterations, start.chunk); }
  }

  lemma {:induction false} GridAt(b: nat, size: nat)
    ensures Grid(b, size)[0] == Entry
    ensures forall k | 0 < k <= b :: Grid(b, size)[k] == Boundary(k * size)
  {
    if b > 0 {
      GridAt(b - 1, size);
      PassesAre(b, size);
    }
  }

  lemma {:induction false} SettingsStay(r: Run, ops: seq<Op>)
    requires Legal(r, ops)
    ensures var s := After(r, ops).st;
            s.iterations == r.st.iterations && s.chunk == r.st.chunk && s.capacity == r.st.capacity
    decreases |ops|
  {
    if ops != [] { SettingsStay(Step(r, ops[0]), ops[1..]); }
  }

  // ----- pauses -----

  /** A recorded pair names the pause it closed exactly when no point was taken while the
      pause stood open. */
  lemma PairNamesItsPauseIff(start: St, ops: seq<Op>, r: Run, k: nat)
    requires EndsIn(start, ops, r) && k < |r.st.pairs|
    ensures |r.st.intervals| == |r.st.pairs|
    ensures r.st.pairs[k] == r.st.intervals[k]
       <==> forall p: nat | r.st.intervals[k].first < p < r.st.intervals[k].second :: p < |r.st.points| && !OfWindow(r.st.points[p])
  {
    RunInv(start, ops, r);
    var s := r.st;
    assert Interval(s.points, s.intervals[k], s.pairs[k]);
    if s.pairs[k] != s.intervals[k] { assert OfWindow(s.points[s.intervals[k].first + 1]); }
  }

  /** Every pause closes before the loop, a skip or the harness takes a point. */
  ghost predicate Tidy(r: Run, ops: seq<Op>)
    requires Legal(r, ops)
    decreases |ops|
  {
    ops == []
    || ((ops[0] == Test || ops[0] == Skip || ops[0] == TopUp ==> !r.st.pauseOpen) && Tidy(Step(r, ops[0]), ops[1..]))
  }

  ghost predicate Adjacent(s: St) {
    && |s.intervals| == |s.pairs| && (forall k | 0 <= k < |s.pairs| :: s.pairs[k] == s.intervals[k])
    && (RawPause(s) ==> s.pausedAt + 1 == |s.points|)
  }

  lemma TidyStep(r: Run, op: Op)
    requires Inv(r) && Allowed(r, op) && Adjacent(r.st)
    requires op == Test || op == Skip || op == TopUp ==> !r.st.pauseOpen
    ensures Adjacent(Step(r, op).st)
  {
  }

  lemma {:induction false} TidyFrom(r: Run, ops: seq<Op>)
    requires Inv(r) && Adjacent(r.st) && Legal(r, ops) && Tidy(r, ops) && After(r, ops).st.loopsStarted <= 1
    ensures Adjacent(After(r, ops).st)
    decreases |ops|
  {
    if ops != [] {
      LoopsOnlyGrow(Step(r, ops[0]), ops[1..]);
      StepInv(r, ops[0]);
      TidyStep(r, ops[0]);
      TidyFrom(Step(r, ops[0]), ops[1..]);
    }
  }

  /** What the harness reads a run's pauses by: each pair is two adjacent points, its own
      open and close; pairs are disjoint and in order; every other point is the window's. */
  ghost predicate PairsSplitPoints(points: seq<Mark>, pairs: seq<Ordinals>) {
    && (forall k: nat | k < |pairs| ::
          && pairs[k].second == pairs[k].first + 1 && pairs[k].second < |points|
          && points[pairs[k].first] == PauseOpen && points[pairs[k].second] == PauseClose)
    && (forall k: nat, m: nat | k < m < |pairs| :: pairs[k].second < pairs[m].first)
    && (forall p: nat | p < |points| :: OfWindow(points[p]) || InPair(pairs, p))
  }

  predicate InPair(pairs: seq<Ordinals>, p: nat) {
    exists k: nat :: k < |pairs| && (pairs[k].first == p || pairs[k].second == p)
  }

  lemma TidyRunsRecordTruePairs(start: St, ops: seq<Op>, r: Run)
    requires EndsIn(start, ops, r) && Tidy(Start(start), ops) && !r.st.pauseOpen
    ensures PairsSplitPoints(r.st.points, r.st.pairs)
  {
    StartInv(start.iterations, start.chunk, start.capacity);
    RunInv(start, ops, r);
    TidyFrom(Start(start), ops);
  }

  const CROSSING: seq<Op> := [Begin, Test, Pause] + ([Advance, Test] + [Resume, Advance, Test])

  /** A pause left open over a chunk boundary: its pair names the boundary as its start, and
      the pause's own first point is in no pair. */
  lemma PauseAcrossABoundaryIsMisrecorded() returns (start: Run, end: Run)
    ensures start == Start(Fresh(2, 1, 5)) && Reserved(start.st)
    ensures Legal(start, CROSSING) && After(start, CROSSING) == end && end.st.loopCompleted
    ensures end.st.points == [Entry, PauseOpen, Boundary(1), PauseClose, Exit(2)]
    ensures end.st.pairs == [Ordinals(2, 3)] && end.st.intervals == [Ordinals(1, 3)]
  {
    var mid := CrossingBegins();
    var crossed := CrossingCrosses(mid);
    end := CrossingCloses(crossed);
    start := Start(Fresh(2, 1, 5));
    assert Chunks(2, 1) == 2 by { assert Chunks(1, 1) == 1; }
    Joined(mid, [Advance, Test], [Resume, Advance, Test], crossed, end);
    Joined(start, [Begin, Test, Pause], [Advance, Test] + [Resume, Advance, Test], mid, end);
  }

  lemma {:induction false} Joined(r: Run, a: seq<Op>, b: seq<Op>, mid: Run, end: Run)
    requires Legal(r, a) && After(r, a) == mid && Legal(mid, b) && After(mid, b) == end
    ensures Legal(r, a + b) && After(r, a + b) == end
    decreases |a|
  {
    if a == [] {
      assert a + b == b;
    } else {
      assert (a + b)[0] == a[0] && (a + b)[1..] == a[1..] + b;
      Joined(Step(r, a[0]), a[1..], b, mid, end);
    }
  }

  lemma Chain(r0: Run, r1: Run, r2: Run, a: Op, b: Op)
    requires Enabled(r0, a) && Step(r0, a) == r1 && Enabled(r1, b) && Step(r1, b) == r2
    ensures Legal(r0, [a, b]) && After(r0, [a, b]) == r2
  {
    assert [a, b][1..] == [b] && [b][1..] == [];
    assert Legal(r2, []) && After(r2, []) == r2;
    assert Legal(r1, [b]) && After(r1, [b]) == r2;
  }

  lemma ChainMore(r0: Run, r1: Run, r2: Run, r3: Run, a: Op, b: Op, c: Op)
    requires Enabled(r0, a) && Step(r0, a) == r1 && Enabled(r1, b) && Step(r1, b) == r2
    requires Enabled(r2, c) && Step(r2, c) == r3
    ensures Legal(r0, [a, b, c]) && After(r0, [a, b, c]) == r3
  {
    Chain(r1, r2, r3, b, c);
    assert [a, b, c][1..] == [b, c];
  }

  /** Two passes in chunks of one, paused in the first. */
  function PausedInFirst(): St {
    PauseTiming(BeginRun(Fresh(2, 1, 5)))
  }

  /** The second pass started, the pause still open. */
  function PausedInSecond(): St {
    TakeChunkSample(PausedInFirst(), 1)
  }

  function Begun(): Run {
    Run(BeginRun(Fresh(2, 1, 5)), Cur(true, 2, 1, 1, 1), Testing, 0, [])
  }

  lemma CrossingBegins() returns (mid: Run)
    ensures mid == Run(PausedInFirst(), Cur(true, 2, 1, 1, 1), InPass, 0, [0])
    ensures Legal(Start(Fresh(2, 1, 5)), [Begin, Test, Pause])
    ensures After(Start(Fresh(2, 1, 5)), [Begin, Test, Pause]) == mid
  {
    mid := Run(PausedInFirst(), Cur(true, 2, 1, 1, 1), InPass, 0, [0]);
    ChainMore(Start(Fresh(2, 1, 5)), Begun(), Begun().(phase := InPass, yielded := [0]), mid, Begin, Test, Pause);
  }

  lemma CrossingRefills(r: Run)
    requires r == Run(PausedInFirst(), Cur(true, 2, 0, 1, 1), Testing, 1, [0])
    ensures Enabled(r, Test) && Step(r, Test) == Run(PausedInSecond(), Cur(true, 2, 1, 0, 1), InPass, 1, [0, 1])
  {
  }

  lemma CrossingAdvances(mid: Run) returns (r: Run)
    requires mid == Run(PausedInFirst(), Cur(true, 2, 1, 1, 1), InPass, 0, [0])
    ensures Enabled(mid, Advance) && Step(mid, Advance) == r
    ensures r == Run(PausedInFirst(), Cur(true, 2, 0, 1, 1), Testing, 1, [0])
  {
    r := Step(mid, Advance);
  }

  lemma CrossingCrosses(mid: Run) returns (crossed: Run)
    requires mid == Run(PausedInFirst(), Cur(true, 2, 1, 1, 1), InPass, 0, [0])
    ensures crossed == Run(PausedInSecond(), Cur(true, 2, 1, 0, 1), InPass, 1, [0, 1])
    ensures Legal(mid, [Advance, Test]) && After(mid, [Advance, Test]) == crossed
  {
    var r1 := CrossingAdvances(mid);
    CrossingRefills(r1);
    crossed := Step(r1, Test);
    Chain(mid, r1, crossed, Advance, Test);
  }

  lemma CrossingResumes(crossed: Run) returns (closed: Run)
    requires crossed == Run(PausedInSecond(), Cur(true, 2, 1, 0, 1), InPass, 1, [0, 1])
    ensures Enabled(crossed, Resume) && Step(crossed, Resume) == closed && closed.phase == InPass
    ensures closed.cur == Cur(true, 2, 1, 0, 1) && closed.done == 1
    ensures var s := closed.st;
            && s.points == [Entry, PauseOpen, Boundary(1), PauseClose] && s.chunkPointsLeft == 1
            && s.pairs == [Ordinals(2, 3)] && s.intervals == [Ordinals(1, 3)]
            && !s.pauseOpen && !s.halted && s.windowOpened && !s.windowClosed && s.capacity == 5
  {
    closed := Step(crossed, Resume);
  }

  lemma CrossingCloses(crossed: Run) returns (end: Run)
    requires crossed == Run(PausedInSecond(), Cur(true, 2, 1, 0, 1), InPass, 1, [0, 1])
    ensures Legal(crossed, [Resume, Advance, Test]) && After(crossed, [Resume, Advance, Test]) == end
    ensures end.st.points == [Entry, PauseOpen, Boundary(1), PauseClose, Exit(2)] && end.st.loopCompleted
    ensures end.st.pairs == [Ordinals(2, 3)] && end.st.intervals == [Ordinals(1, 3)]
  {
    var closed := CrossingResumes(crossed);
    var left := Step(closed, Advance);
    end := CrossingExits(left);
    ChainMore(crossed, closed, left, end, Resume, Advance, Test);
  }

  lemma CrossingExits(left: Run) returns (end: Run)
    requires left.phase == Testing && left.cur == Cur(true, 2, 0, 0, 1) && left.done == 2
    requires var s := left.st;
             && s.points == [Entry, PauseOpen, Boundary(1), PauseClose]
             && !s.pauseOpen && !s.halted && s.windowOpened && !s.windowClosed && s.capacity == 5
    ensures Enabled(left, Test) && Step(left, Test) == end
    ensures end.st.points == [Entry, PauseOpen, Boundary(1), PauseClose, Exit(2)] && end.st.loopCompleted
    ensures end.st.pairs == left.st.pairs && end.st.intervals == left.st.intervals
  {
    end := Step(left, Test);
  }

  // ----- whole loops -----

  /** A loop whose body does nothing, run until it ends or the hard stop ends the program. */
  function PlainLoop(r: Run): Run
    requires r.phase == Testing && (r.cur.live ==> !r.st.pauseOpen)
    requires r.cur.live && r.cur.runRemaining > 0 ==> r.cur.refill > 0
    decreases r.cur.remaining + r.cur.runRemaining
  {
    if r.st.halted then r
    else
      var next := Tested(r);
      if next.phase == InPass && !next.st.halted then PlainLoop(Step(next, Advance)) else next
  }

  /** One comparison of a plain loop: a pass, with the points taken and owed in balance, or
      the end. */
  lemma PlainTest(r: Run)
    requires Inv(r) && r.phase == Testing && r.cur.live && !r.st.pauseOpen
    ensures var next := Tested(r);
            && Inv(next) && !next.st.halted && !next.st.pauseOpen && next.st.iterations == r.st.iterations
            && |next.st.points| + next.st.chunkPointsLeft == |r.st.points| + r.st.chunkPointsLeft
            && (if next.phase == InPass then
                  Enabled(next, Advance) && next.cur.live
                  && next.cur.remaining + next.cur.runRemaining == r.cur.remaining + r.cur.runRemaining
                else
                  next.phase == Outside && next.st.loopCompleted && next.st.chunkPointsLeft == 0
                  && r.cur.remaining + r.cur.runRemaining == 0)
  {
    assert Tested(r) == Step(r, Test);
    StepInv(r, Test);
  }

  /** Every loop ends: from any point of it, the passes left are made and the window is
      closed with a point for each boundary left. */
  lemma {:induction false} PlainLoopCompletes(r: Run)
    requires Inv(r) && r.phase == Testing && r.cur.live && !r.st.pauseOpen
    ensures var end := PlainLoop(r);
            && Inv(end) && end.phase == Outside && end.st.loopCompleted && end.done == r.st.iterations
            && |end.st.points| == |r.st.points| + r.st.chunkPointsLeft
    decreases r.cur.remaining + r.cur.runRemaining
  {
    PlainTest(r);
    var next := Tested(r);
    if next.phase == InPass {
      StepInv(next, Advance);
      PlainLoopCompletes(Step(next, Advance));
    }
  }
}
