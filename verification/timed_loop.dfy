/**
 The timed loop: the cursor that counts a run down in chunks, the sampling window, and
 the pauses that take recorder room or fall to a fold slot.

 Values and steps here; `TimedState` runs them on mutable objects.
 */
module TimedLoop {
  import opened Common
  import opened Bits

  // ----- data -----

  /** Why a point was recorded, with the passes done by then for a point of the window. */
  datatype Mark = Entry | Boundary(done: nat) | Exit(done: nat) | PauseOpen | PauseClose

  /** The ordinals of the two points of one interval. */
  datatype Ordinals = Ordinals(first: nat, second: nat)

  /** The run state. `points` stands for the recorder: its length is the recorder's count.
      `pausedAt` and `paused` intervals are history: the ordinals each recorded pause really
      spans. */
  datatype St = St(
    iterations: nat, chunk: nat, capacity: nat,
    chunkPointsLeft: nat, skipRequested: bool, loopsStarted: nat,
    windowOpened: bool, windowClosed: bool, loopCompleted: bool,
    pauseOpen: bool, foldPair: bool, pairs: seq<Ordinals>, pauseCount: nat,
    samplesTaken: nat, foldPoints: nat, foldedPairs: nat,
    points: seq<Mark>, halted: bool,
    pausedAt: nat, intervals: seq<Ordinals>)

  /** The loop cursor; one that is not live belongs to no run. */
  datatype Cur = Cur(live: bool, start: nat, remaining: nat, runRemaining: nat, refill: nat) {
    /** `operator*`. */
    function Index(): int {
      start - runRemaining - remaining
    }
  }

  datatype Phase = Outside | Testing | InPass | Ended

  /** A run in progress: the state, the cursor, and the passes made so far. */
  datatype Run = Run(st: St, cur: Cur, phase: Phase, done: nat, yielded: seq<int>)

  datatype Op = Begin | Test | Advance | Leave | Pause | Resume | Skip | TopUp

  // ----- the steps of the state -----

  /** The state a runner hands a run: `setChunking` caps the chunk at the run. */
  function Fresh(iterations: nat, chunk: nat, capacity: nat): St {
    St(iterations, if chunk < iterations then chunk else iterations, capacity, 1, false, 0,
       false, false, false, false, false, [], 0, 0, 0, 0, [], false, 0, [])
  }

  /** One recorder sample: past the capacity the always-on check ends the program. */
  function Point(s: St, mark: Mark): St {
    s.(points := if |s.points| < s.capacity then s.points + [mark] else s.points,
       halted := s.halted || |s.points| >= s.capacity,
       samplesTaken := s.samplesTaken + 1, foldPoints := s.foldPoints + 1)
  }

  function Owed(s: St): nat {
    if s.chunkPointsLeft == 0 then WORD - 1 else s.chunkPointsLeft - 1
  }

  function OpenWindow(s: St): St {
    if s.windowOpened then s else Point(s, Entry).(windowOpened := true)
  }

  function TakeChunkSample(s: St, done: nat): St {
    Point(s, Boundary(done)).(chunkPointsLeft := Owed(s))
  }

  function TakeExitSample(s: St, done: nat): St {
    if s.windowOpened && !s.windowClosed
    then Point(s, Exit(done)).(chunkPointsLeft := Owed(s), windowClosed := true)
    else s
  }

  predicate Chunked(s: St) {
    s.chunk != 0 && s.iterations > s.chunk
  }

  /** The ceiling division as 64-bit words compute it: the sum wraps. */
  function CeilingWord(n: nat, size: nat): nat
    requires size >= 1
  {
    ((n + size - 1) % WORD) / size
  }

  /** The points the window owes once it is open: 64-bit arithmetic, then the division. */
  function PointsOwed(s: St): nat {
    if Chunked(s) then CeilingWord(s.iterations, s.chunk) else 1
  }

  function WithOwed(s: St): St {
    s.(chunkPointsLeft := PointsOwed(s))
  }

  /** The entry half of `begin`. */
  function OpenRun(s: St): St {
    OpenWindow(s.(loopsStarted := s.loopsStarted + 1))
  }

  function BeginRun(s: St): St {
    WithOwed(OpenRun(s))
  }

  function PauseTiming(s: St): St {
    if |s.points| + 2 + s.chunkPointsLeft > s.capacity
    then s.(foldPair := true, samplesTaken := s.samplesTaken + 1, pauseOpen := true)
    else Point(s, PauseOpen).(foldPair := false, pauseOpen := true, pausedAt := |s.points|)
  }

  function FoldedPair(s: St): St {
    s.(samplesTaken := s.samplesTaken + 1, foldedPairs := s.foldedPairs + 1)
  }

  /** The ordinals written down are those of the last two points the recorder took. */
  function RecordedPair(s: St): St {
    Point(s, PauseClose).(
      pairs := s.pairs + [Ordinals(if s.foldPoints == 0 then 0 else s.foldPoints - 1, s.foldPoints)],
      intervals := s.intervals + [Ordinals(s.pausedAt, |s.points|)])
  }

  function ClosePausePair(s: St): St {
    (if s.foldPair then FoldedPair(s) else RecordedPair(s)).(pauseOpen := false, pauseCount := s.pauseCount + 1)
  }

  function SkipRun(s: St, done: nat): St {
    TakeExitSample(s.(skipRequested := true), done)
  }

  function CloseWindow(s: St, done: nat): St {
    TakeExitSample(s.(loopCompleted := true), done)
  }

  function TopUpWindow(s: St, done: nat): St {
    var open := OpenWindow(s);
    TakeExitSample(if open.pauseOpen then ClosePausePair(open) else open, done)
  }

  // ----- the steps of the cursor -----

  function NoCursor(): Cur {
    Cur(false, 0, 0, 0, 0)
  }

  function FirstCursor(s: St): Cur {
    if Chunked(s) then Cur(true, s.iterations, s.chunk, s.iterations - s.chunk, s.chunk)
    else Cur(true, s.iterations, s.iterations, 0, 0)
  }

  /** `refillRun`. */
  function Refilled(c: Cur): Cur {
    var take := if c.runRemaining < c.refill then c.runRemaining else c.refill;
    c.(remaining := take, runRemaining := c.runRemaining - take)
  }

  // ----- the steps of a run -----

  /** What the source requires of its callers, with control where the operation stands. */
  predicate Enabled(r: Run, op: Op) {
    && !r.st.halted && r.phase != Ended
    && match op
       case Begin => r.phase == Outside
       case Test => r.phase == Testing
                    && (r.cur.live && r.cur.remaining == 0 && r.cur.runRemaining == 0 ==> !r.st.pauseOpen)
       case Advance => r.phase == InPass && r.cur.remaining > 0
       case Leave => r.phase == InPass
       case Pause => r.st.windowOpened && !r.st.windowClosed && !r.st.pauseOpen
       case Resume => r.st.pauseOpen
       case Skip => true
       case TopUp => r.phase == Outside
  }

  /** The pass a true comparison starts, at the cursor's own index. */
  function Pass(r: Run): Run {
    r.(phase := InPass, yielded := r.yielded + [r.cur.Index()])
  }

  /** `operator!=` at the head of a pass. */
  function Tested(r: Run): Run {
    if r.cur.remaining != 0 then Pass(r)
    else if !r.cur.live then r.(phase := Outside)
    else if r.cur.runRemaining != 0 then
      Pass(r.(st := TakeChunkSample(r.st, r.done), cur := Refilled(r.cur)))
    else r.(st := CloseWindow(r.st, r.done), phase := Outside)
  }

  function Step(r: Run, op: Op): Run
    requires Enabled(r, op)
  {
    match op
    case Begin =>
      if r.st.skipRequested then r.(cur := NoCursor(), phase := Testing)
      else r.(st := BeginRun(r.st), cur := FirstCursor(r.st), phase := Testing)
    case Test => Tested(r)
    case Advance => r.(cur := r.cur.(remaining := r.cur.remaining - 1), done := r.done + 1, phase := Testing)
    case Leave => r.(phase := Outside)
    case Pause => r.(st := PauseTiming(r.st))
    case Resume => r.(st := ClosePausePair(r.st))
    case Skip => r.(st := SkipRun(r.st, r.done))
    case TopUp => r.(st := TopUpWindow(r.st, r.done), phase := Ended)
  }

  function Start(s: St): Run {
    Run(s, NoCursor(), Outside, 0, [])
  }

  ghost predicate Legal(r: Run, ops: seq<Op>)
    decreases |ops|
  {
    ops == [] || (Enabled(r, ops[0]) && Legal(Step(r, ops[0]), ops[1..]))
  }

  ghost function After(r: Run, ops: seq<Op>): Run
    requires Legal(r, ops)
    decreases |ops|
  {
    if ops == [] then r else After(Step(r, ops[0]), ops[1..])
  }

  // ----- chunks -----

  /** The passes `b` whole chunks hold. */
  function Passes(b: int, size: nat): nat
    decreases b
  {
    if b <= 0 then 0 else Passes(b - 1, size) + size
  }

  lemma {:induction false} PassesAre(b: nat, size: nat)
    ensures Passes(b, size) == b * size
  {
    if b > 0 { PassesAre(b - 1, size); }
  }

  /** The chunks of `size` that `n` iterations split into, the last one maybe shorter. */
  function Chunks(n: nat, size: nat): nat
    decreases n
  {
    if n == 0 || size == 0 then 0 else 1 + Chunks(if n < size then 0 else n - size, size)
  }

  lemma NextQuotient(a: int, m: nat)
    requires m > 0
    ensures (a + m) / m == a / m + 1
  {
    assert a == m * (a / m) + a % m;
    Remainder(a + m, m, a / m + 1, a % m);
  }

  /** The ceiling division the source writes counts the chunks. */
  lemma {:induction false} CeilingIsChunks(n: nat, size: nat)
    requires n >= 1 && size >= 1
    ensures (n + size - 1) / size == Chunks(n, size)
    decreases n
  {
    NextQuotient(n - 1, size);
    if n <= size {
      Remainder(n - 1, size, 0, n - 1);
    } else {
      CeilingIsChunks(n - size, size);
    }
  }

  /** A ceiling whose sum fits counts the chunks; one whose sum wraps is zero. */
  lemma CeilingWordIs(n: nat, size: nat)
    requires 1 <= n < WORD && 1 <= size < WORD
    ensures CeilingWord(n, size) == if n + size - 1 < WORD then Chunks(n, size) else 0
  {
    var sum := n + size - 1;
    if sum < WORD {
      CeilingIsChunks(n, size);
    } else {
      Remainder(sum, WORD, 1, sum - WORD);
      Remainder(sum - WORD, size, 0, sum - WORD);
    }
  }

  /** The ceiling division of `begin` counts the chunks exactly when its sum fits 64 bits. */
  lemma PointsOwedIsExactIff(s: St)
    requires Chunked(s) && s.iterations < WORD
    ensures PointsOwed(s) == Chunks(s.iterations, s.chunk) <==> s.iterations + s.chunk - 1 < WORD
  {
    CeilingWordIs(s.iterations, s.chunk);
    ChunksBound(s.iterations, s.chunk);
  }

  /** The largest count in two uneven chunks: none is owed. */
  lemma PointsOwedCanBeZero(s: St)
    requires s.iterations == WORD - 1 && s.chunk == WORD - 2
    ensures PointsOwed(s) == 0 && Chunks(s.iterations, s.chunk) == 2
  {
    CeilingWordIs(s.iterations, s.chunk);
  }

  /** What a runner reserves for a run: the entry and exit points, and the chunk points. */
  predicate Reserved(s: St) {
    && s.iterations < WORD && s.iterations + s.chunk <= WORD
    && s.chunk <= s.iterations
    && s.capacity >= 1 + (if Chunked(s) then Chunks(s.iterations, s.chunk) else 1)
  }

  datatype ChunkPlan = ChunkPlan(chunkIterations: nat, chunkCount: nat, pointCapacity: nat)

  const MAX_CHUNK_POINTS: nat := 32768

  const MAX_PAUSE_SAMPLES: nat := 32768

  /** `chunkPlanFor`: the floor the cost of a sample sets, raised to the ceiling on points.
      None is the division by zero the raised chunk can end in. */
  function ChunkPlanFor(iterations: nat, floor: nat, pauseRoom: nat): Option<ChunkPlan>
    requires 1 <= iterations < WORD && 1 <= floor < WORD && pauseRoom <= MAX_PAUSE_SAMPLES
  {
    var count := CeilingWord(iterations, floor);
    if count <= MAX_CHUNK_POINTS then Some(ChunkPlan(floor, count, count + 1 + pauseRoom))
    else
      var size := CeilingWord(iterations, MAX_CHUNK_POINTS);
      if size == 0 then None
      else
        var raised := CeilingWord(iterations, size);
        Some(ChunkPlan(size, raised, raised + 1 + pauseRoom))
  }

  /** What the header promises of a plan. */
  predicate Promised(iterations: nat, pauseRoom: nat, p: ChunkPlan) {
    && 1 <= p.chunkCount <= MAX_CHUNK_POINTS && p.chunkIterations >= 1
    && p.pointCapacity == p.chunkCount + 1 + pauseRoom
    && (p.chunkCount - 1) * p.chunkIterations < iterations <= p.chunkCount * p.chunkIterations
  }

  /** Every sum of the plan fits 64 bits. */
  predicate SumsFit(iterations: nat, floor: nat) {
    && iterations + floor - 1 < WORD
    && (Chunks(iterations, floor) > MAX_CHUNK_POINTS ==>
          && iterations + MAX_CHUNK_POINTS - 1 < WORD
          && iterations + Chunks(iterations, MAX_CHUNK_POINTS) - 1 < WORD)
  }

  /** The plan is the promised one exactly when every sum fits 64 bits; it then holds the
      floor and counts the chunks. */
  lemma ChunkPlanIsPromisedIff(iterations: nat, floor: nat, pauseRoom: nat)
    requires 1 <= iterations < WORD && 1 <= floor < WORD && pauseRoom <= MAX_PAUSE_SAMPLES
    ensures var p := ChunkPlanFor(iterations, floor, pauseRoom);
            && ((p.Some? && Promised(iterations, pauseRoom, p.value)) <==> SumsFit(iterations, floor))
            && (SumsFit(iterations, floor) ==>
                  p.value.chunkIterations >= floor && p.value.chunkCount == Chunks(iterations, p.value.chunkIterations))
  {
    CeilingWordIs(iterations, floor);
    CeilingWordIs(iterations, MAX_CHUNK_POINTS);
    ChunksBound(iterations, floor);
    var size := Chunks(iterations, MAX_CHUNK_POINTS);
    ChunksUpTo(iterations, MAX_CHUNK_POINTS);
    if Chunks(iterations, floor) > MAX_CHUNK_POINTS {
      RaisedChunkFits(iterations, floor, size);
      CeilingWordIs(iterations, size);
      ChunksBound(iterations, size);
    }
  }

  lemma {:induction false} ChunksUpTo(n: nat, size: nat)
    requires size >= 1
    ensures Chunks(n, size) <= n
    decreases n
  {
    if n > 0 { ChunksUpTo(if n < size then 0 else n - size, size); }
  }

  /** Two counts the interface accepts: one plan divides by zero, the other has no chunk. */
  lemma ChunkPlanBreaksNearTheTop(pauseRoom: nat)
    requires pauseRoom <= MAX_PAUSE_SAMPLES
    ensures ChunkPlanFor(WORD - 1, 1, pauseRoom) == None
    ensures var p := ChunkPlanFor(WORD - MAX_CHUNK_POINTS, 1, pauseRoom);
            p.Some? && p.value.chunkCount == 0
  {
    CeilingWordIs(WORD - 1, 1);
    ChunksBound(WORD - 1, 1);
    CeilingWordIs(WORD - 1, MAX_CHUNK_POINTS);
    var count, size := WORD - MAX_CHUNK_POINTS, WORD / MAX_CHUNK_POINTS;
    CeilingWordIs(count, 1);
    ChunksBound(count, 1);
    Remainder(WORD - 1, MAX_CHUNK_POINTS, size - 1, MAX_CHUNK_POINTS - 1);
    CeilingWordIs(count, size - 1);
  }

  lemma {:induction false} ChunksBound(n: nat, size: nat)
    requires n >= 1 && size >= 1
    ensures (Chunks(n, size) - 1) * size < n <= Chunks(n, size) * size
    decreases n
  {
    var q := Chunks(n, size);
    if n <= size {
      assert q == 1;
    } else {
      ChunksBound(n - size, size);
      assert q * size == (q - 1) * size + size && (q - 1) * size == (q - 2) * size + size;
    }
  }

  /** Chunks large enough for the ceiling on points leave no more chunks than it. */
  lemma RaisedChunkFits(n: nat, floor: nat, size: nat)
    requires n >= 1 && floor >= 1 && Chunks(n, floor) > MAX_CHUNK_POINTS && size == Chunks(n, MAX_CHUNK_POINTS)
    ensures size >= floor && size >= 1 && Chunks(n, size) <= MAX_CHUNK_POINTS
  {
    ChunksBound(n, MAX_CHUNK_POINTS);
    ChunksBound(n, floor);
    ChunksBound(n, size);
    MulMono(MAX_CHUNK_POINTS, Chunks(n, size) - 1, size);
    MulMono(size, floor, MAX_CHUNK_POINTS);
    MulMono(MAX_CHUNK_POINTS, Chunks(n, floor) - 1, floor);
  }
}
