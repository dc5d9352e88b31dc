/**
 The harness reading a run back: `buildChunkValues` finds the chunk boundaries among the
 recorded points and nets the pauses out of each chunk; `nettedFold` nets them out of the
 whole run. Over one leaf column the two conserve every count, modulo 2^64.
 */
module Chunks {
  import opened Common
  import opened Bits
  import opened TimedLoop
  import opened TimedInvariant
  import opened TimedTheorems

  /** The fold of one leaf between two points. */
  function Fold(column: seq<Word>, from: nat, to: nat): Word
    requires from < |column| && to < |column|
  {
    Change(column, from, to) % WORD
  }

  function Change(column: seq<Word>, from: nat, to: nat): int
    requires from < |column| && to < |column|
  {
    var a: int, b: int := column[from], column[to];
    b - a
  }

  predicate PairsInside(pairs: seq<Ordinals>, size: nat) {
    forall k: nat | k < |pairs| :: pairs[k].first < size && pairs[k].second < size
  }

  // ----- the values -----

  /** The ordinals below `upTo` that stand in no pause pair. */
  function BoundariesBelow(pairs: seq<Ordinals>, upTo: nat): (r: seq<nat>)
    ensures forall k | 0 <= k < |r| :: r[k] < upTo
    ensures forall k, m | 0 <= k < m < |r| :: r[k] < r[m]
  {
    if upTo == 0 then []
    else
      var rest := BoundariesBelow(pairs, upTo - 1);
      if InPair(pairs, upTo - 1) then rest else rest + [upTo - 1]
  }

  /** The paused change of the first `n` pairs that start in a window. */
  function PausedIn(column: seq<Word>, pairs: seq<Ordinals>, n: nat, from: nat, to: nat): int
    requires n <= |pairs| && PairsInside(pairs, |column|)
  {
    if n == 0 then 0
    else PausedIn(column, pairs, n - 1, from, to)
         + (if from <= pairs[n - 1].first < to then Change(column, pairs[n - 1].first, pairs[n - 1].second) else 0)
  }

  /** The change over a window, less the pauses that start in it. */
  function Net(column: seq<Word>, pairs: seq<Ordinals>, from: nat, to: nat): int
    requires PairsInside(pairs, |column|) && from < |column| && to < |column|
  {
    Change(column, from, to) - PausedIn(column, pairs, |pairs|, from, to)
  }

  /** What one chunk measured: its window, less the pauses that start in it. */
  function ChunkValue(column: seq<Word>, pairs: seq<Ordinals>, from: nat, to: nat): Word
    requires PairsInside(pairs, |column|) && from < |column| && to < |column|
  {
    Net(column, pairs, from, to) % WORD
  }

  /** What the whole run measured: its span, less every recorded pause. */
  function Netted(column: seq<Word>, pairs: seq<Ordinals>): Word
    requires PairsInside(pairs, |column|) && column != []
  {
    (Change(column, 0, |column| - 1) - PausedIn(column, pairs, |pairs|, 0, |column|)) % WORD
  }

  /** The values of all chunks between the boundaries a run's pairs leave. */
  ghost predicate ValuesOf(column: seq<Word>, pairs: seq<Ordinals>, values: seq<Word>)
    requires PairsInside(pairs, |column|)
  {
    var at := BoundariesBelow(pairs, |column|);
    && |at| == |values| + 1
    && forall c: nat | c < |values| :: values[c] == ChunkValue(column, pairs, at[c], at[c + 1])
  }

  lemma SubtractFold(a: int, b: int)
    ensures (a % WORD - b % WORD) % WORD == (a - b) % WORD
  {
    assert a % WORD - b % WORD == (a - b) + WORD * (b / WORD - a / WORD);
    SameRemainder(a % WORD - b % WORD, a - b, WORD, b / WORD - a / WORD);
  }

  /** The points of one run in a recorder other runs may have filled before and behind. */
  function RunColumn(recorded: seq<Word>, basePoint: nat, size: nat): seq<Word>
    requires basePoint + size <= |recorded|
  {
    recorded[basePoint..basePoint + size]
  }

  method HoldsPausePoint(pairs: seq<Ordinals>, basePoint: nat, ordinal: nat) returns (held: bool)
    requires basePoint <= ordinal
    ensures held == InPair(pairs, ordinal - basePoint)
  {
    for k := 0 to |pairs|
      invariant forall m: nat | m < k :: basePoint + pairs[m].first != ordinal && basePoint + pairs[m].second != ordinal
    {
      if ordinal == basePoint + pairs[k].first || ordinal == basePoint + pairs[k].second {
        return true;
      }
    }
    held := false;
  }

  /** The ordinals of the span that stand in no pause pair. */
  method FindBoundaries(basePoint: nat, size: nat, pairs: seq<Ordinals>) returns (at: seq<nat>)
    ensures |at| == |BoundariesBelow(pairs, size)|
    ensures forall k | 0 <= k < |at| :: at[k] == basePoint + BoundariesBelow(pairs, size)[k]
  {
    at := [];
    for ordinal := basePoint to basePoint + size
      invariant |at| == |BoundariesBelow(pairs, ordinal - basePoint)|
      invariant forall k | 0 <= k < |at| :: at[k] == basePoint + BoundariesBelow(pairs, ordinal - basePoint)[k]
    {
      var held := HoldsPausePoint(pairs, basePoint, ordinal);
      if !held {
        at := at + [ordinal];
      }
    }
  }

  /** One value a chunk, between each two neighbouring boundaries. */
  method ValueChunks(recorded: seq<Word>, basePoint: nat, size: nat, at: seq<nat>,
                     pairs: seq<Ordinals>) returns (values: seq<Word>)
    requires basePoint + size <= |recorded| && PairsInside(pairs, size) && at != []
    requires forall k | 0 <= k < |at| :: basePoint <= at[k] < basePoint + size
    ensures |values| == |at| - 1
    ensures forall c: nat | c < |values| ::
              values[c] == ChunkValue(RunColumn(recorded, basePoint, size), pairs, at[c] - basePoint, at[c + 1] - basePoint)
  {
    ghost var column := RunColumn(recorded, basePoint, size);
    values := [];
    for c := 0 to |at| - 1
      invariant |values| == c
      invariant forall d: nat | d < c :: values[d] == ChunkValue(column, pairs, at[d] - basePoint, at[d + 1] - basePoint)
    {
      var value := NetWindow(recorded, basePoint, pairs, at[c], at[c + 1], size);
      values := values + [value];
    }
  }

  /** `buildChunkValues`. */
  method BuildChunkValues(recorded: seq<Word>, basePoint: nat, chunkCount: nat,
                          pairs: seq<Ordinals>) returns (values: seq<Word>)
    requires basePoint + chunkCount + 1 + 2 * |pairs| <= |recorded| && PairsInside(pairs, chunkCount + 1 + 2 * |pairs|)
    requires |BoundariesBelow(pairs, chunkCount + 1 + 2 * |pairs|)| == chunkCount + 1
    ensures |values| == chunkCount && ValuesOf(RunColumn(recorded, basePoint, chunkCount + 1 + 2 * |pairs|), pairs, values)
  {
    var size := chunkCount + 1 + 2 * |pairs|;
    var at := FindBoundaries(basePoint, size, pairs);
    values := ValueChunks(recorded, basePoint, size, at, pairs);
    forall c: nat | c < |values|
      ensures values[c] == ChunkValue(RunColumn(recorded, basePoint, size), pairs,
                                      BoundariesBelow(pairs, size)[c], BoundariesBelow(pairs, size)[c + 1])
    {
      assert at[c] - basePoint == BoundariesBelow(pairs, size)[c];
    }
  }

  /** The inner loop of a chunk: each pause that starts inside comes off. */
  method NetWindow(recorded: seq<Word>, basePoint: nat, pairs: seq<Ordinals>, from: nat, to: nat, ghost size: nat)
    returns (value: Word)
    requires basePoint + size <= |recorded| && PairsInside(pairs, size)
    requires basePoint <= from < basePoint + size && basePoint <= to < basePoint + size
    ensures value == ChunkValue(RunColumn(recorded, basePoint, size), pairs, from - basePoint, to - basePoint)
  {
    ghost var column, start, end := RunColumn(recorded, basePoint, size), from - basePoint, to - basePoint;
    value := Fold(recorded, from, to);
    for k := 0 to |pairs|
      invariant value == (Change(column, start, end) - PausedIn(column, pairs, k, start, end)) % WORD
    {
      var first, second := basePoint + pairs[k].first, basePoint + pairs[k].second;
      if from <= first < to {
        SubtractFold(Change(column, start, end) - PausedIn(column, pairs, k, start, end),
                     Change(column, pairs[k].first, pairs[k].second));
        value := (value as int - Fold(recorded, first, second) as int) % WORD;
      }
    }
  }

  /** `nettedFold`: the recorded pairs come off the span, then the total of the pauses that
      fell to the fold slot. */
  method NettedFold(recorded: seq<Word>, basePoint: nat, foldPoints: nat, pairs: seq<Ordinals>, foldedTotal: Word)
    returns (value: Word)
    requires foldPoints > 0 && basePoint + foldPoints <= |recorded| && PairsInside(pairs, foldPoints)
    ensures value == (Netted(RunColumn(recorded, basePoint, foldPoints), pairs) - foldedTotal as int) % WORD
  {
    ghost var column := RunColumn(recorded, basePoint, foldPoints);
    value := Fold(recorded, basePoint, basePoint + foldPoints - 1);
    for k := 0 to |pairs|
      invariant value == (Change(column, 0, foldPoints - 1) - PausedIn(column, pairs, k, 0, foldPoints)) % WORD
    {
      var first, second := pairs[k].first, pairs[k].second;
      SubtractFold(Change(column, 0, foldPoints - 1) - PausedIn(column, pairs, k, 0, foldPoints), Change(column, first, second));
      value := (value as int - Fold(recorded, basePoint + first, basePoint + second) as int) % WORD;
    }
    value := (value as int - foldedTotal as int) % WORD;
  }

  // ----- in column differences -----

  /** A value written out, for a run without a recorded pause and for one with one: the
      later reading less the earlier one, less the same of a pause that starts inside,
      modulo 2^64. */
  lemma ValuesAreDifferences(column: seq<Word>, from: nat, to: nat, pause: Ordinals)
    requires from < |column| && to < |column| && pause.first < |column| && pause.second < |column|
    ensures var span := column[to] as int - column[from] as int;
            var paused := column[pause.second] as int - column[pause.first] as int;
            && ChunkValue(column, [], from, to) as int == span % 0x1_0000_0000_0000_0000
            && ChunkValue(column, [pause], from, to) as int
               == (if from <= pause.first < to then span - paused else span) % 0x1_0000_0000_0000_0000
    ensures var span := column[|column| - 1] as int - column[0] as int;
            var paused := column[pause.second] as int - column[pause.first] as int;
            && Netted(column, []) as int == span % 0x1_0000_0000_0000_0000
            && Netted(column, [pause]) as int == (span - paused) % 0x1_0000_0000_0000_0000
  {
    assert PausedIn(column, [pause], 0, from, to) == 0;
    assert PausedIn(column, [pause], 0, 0, |column|) == 0;
  }

  /** The pauses come off one by one, in whatever order they are listed. */
  lemma {:induction false} PausesAddUp(column: seq<Word>, a: seq<Ordinals>, b: seq<Ordinals>, n: nat, from: nat, to: nat)
    requires n <= |b| && PairsInside(a, |column|) && PairsInside(b, |column|)
    ensures PairsInside(a + b, |column|)
    ensures PausedIn(column, a + b, |a| + n, from, to)
         == PausedIn(column, a, |a|, from, to) + PausedIn(column, b, n, from, to)
  {
    if n == 0 {
      PausedOfPrefix(column, a, b, |a|, from, to);
    } else {
      PausesAddUp(column, a, b, n - 1, from, to);
      assert (a + b)[|a| + n - 1] == b[n - 1];
    }
  }

  lemma {:induction false} PausedOfPrefix(column: seq<Word>, a: seq<Ordinals>, b: seq<Ordinals>, n: nat, from: nat, to: nat)
    requires n <= |a| && PairsInside(a, |column|) && PairsInside(b, |column|) && PairsInside(a + b, |column|)
    ensures PausedIn(column, a + b, n, from, to) == PausedIn(column, a, n, from, to)
  {
    if n > 0 {
      PausedOfPrefix(column, a, b, n - 1, from, to);
      assert (a + b)[n - 1] == a[n - 1];
    }
  }

  // ----- conservation -----

  lemma {:induction false} PausedSplits(column: seq<Word>, pairs: seq<Ordinals>, n: nat, from: nat, mid: nat, to: nat)
    requires n <= |pairs| && PairsInside(pairs, |column|) && from <= mid <= to
    ensures PausedIn(column, pairs, n, from, to)
         == PausedIn(column, pairs, n, from, mid) + PausedIn(column, pairs, n, mid, to)
  {
    if n > 0 { PausedSplits(column, pairs, n - 1, from, mid, to); }
  }

  lemma {:induction false} PausedWithin(column: seq<Word>, pairs: seq<Ordinals>, n: nat, to: nat)
    requires n <= |pairs| && PairsInside(pairs, |column|)
    requires forall k: nat | k < |pairs| :: pairs[k].first < to
    ensures PausedIn(column, pairs, n, 0, to) == PausedIn(column, pairs, n, 0, |column|)
  {
    if n > 0 { PausedWithin(column, pairs, n - 1, to); }
  }

  function SumOf(values: seq<Word>, n: nat): int
    requires n <= |values|
  {
    if n == 0 then 0 else SumOf(values, n - 1) + values[n - 1]
  }

  /** The values of the first chunks add up to the netted change up to the next boundary. */
  lemma {:induction false} ChunksAddUp(column: seq<Word>, pairs: seq<Ordinals>, values: seq<Word>, n: nat)
    requires PairsInside(pairs, |column|) && ValuesOf(column, pairs, values) && n <= |values|
    ensures var at := BoundariesBelow(pairs, |column|);
            SumOf(values, n) % WORD == Net(column, pairs, at[0], at[n]) % WORD
  {
    var at := BoundariesBelow(pairs, |column|);
    if n == 0 {
      NothingPaused(column, pairs, |pairs|, at[0]);
    } else {
      ChunksAddUp(column, pairs, values, n - 1);
      PausedSplits(column, pairs, |pairs|, at[0], at[n - 1], at[n]);
      AddRemainder(SumOf(values, n - 1), Net(column, pairs, at[0], at[n - 1]), Net(column, pairs, at[n - 1], at[n]), WORD);
    }
  }

  lemma {:induction false} NothingPaused(column: seq<Word>, pairs: seq<Ordinals>, n: nat, at: nat)
    requires n <= |pairs| && PairsInside(pairs, |column|)
    ensures PausedIn(column, pairs, n, at, at) == 0
  {
    if n > 0 { NothingPaused(column, pairs, n - 1, at); }
  }

  /** The boundaries found are the window's points, in order. */
  lemma {:induction false} BoundariesAreWindow(points: seq<Mark>, pairs: seq<Ordinals>, n: nat)
    requires PairsSplitPoints(points, pairs) && n <= |points|
    ensures var at := BoundariesBelow(pairs, n);
            |at| == |WindowPoints(points[..n])| && forall k | 0 <= k < |at| :: points[at[k]] == WindowPoints(points[..n])[k]
  {
    if n > 0 {
      BoundariesAreWindow(points, pairs, n - 1);
      assert points[..n][..n - 1] == points[..n - 1];
      if InPair(pairs, n - 1) {
        assert !OfWindow(points[n - 1]);
      }
    }
  }

  lemma {:induction false} FirstBoundary(pairs: seq<Ordinals>, n: nat)
    requires n > 0 && !InPair(pairs, 0)
    ensures BoundariesBelow(pairs, n) != [] && BoundariesBelow(pairs, n)[0] == 0
  {
    if n > 1 { FirstBoundary(pairs, n - 1); }
  }

  /** A point of the window stands in no pair. */
  lemma WindowOutsidePairs(points: seq<Mark>, pairs: seq<Ordinals>, p: nat)
    requires PairsSplitPoints(points, pairs) && p < |points| && OfWindow(points[p])
    ensures !InPair(pairs, p)
  {
  }

  /** The recorded points as the harness reads them: boundaries outside every pair, from
      the entry to the exit, one each `size` passes. */
  ghost predicate ReadsBack(points: seq<Mark>, pairs: seq<Ordinals>, total: nat, size: nat) {
    var at := BoundariesBelow(pairs, |points|);
    && |points| == total + 1 + 2 * |pairs| && |at| == total + 1
    && at[0] == 0 && at[total] == |points| - 1
    && points[0] == Entry && points[|points| - 1].Exit?
    && (forall k | 0 < k < total :: points[at[k]] == Boundary(k * size))
  }

  lemma ReadBack(points: seq<Mark>, pairs: seq<Ordinals>, total: nat, size: nat)
    requires PairsSplitPoints(points, pairs) && |points| == |WindowPoints(points)| + 2 * |pairs|
    requires |WindowPoints(points)| == total + 1
    requires forall k | 0 < k < total :: WindowPoints(points)[k] == Boundary(k * size)
    requires points[0] == Entry && points[|points| - 1].Exit?
    ensures ReadsBack(points, pairs, total, size)
  {
    BoundariesAreWindow(points, pairs, |points|);
    assert points[..|points|] == points;
    WindowOutsidePairs(points, pairs, 0);
    WindowOutsidePairs(points, pairs, |points| - 1);
    FirstBoundary(pairs, |points|);
  }

  /** A run with one completed loop, unskipped, whose pauses close in the pass they open. */
  ghost predicate Clean(start: St, ops: seq<Op>, r: Run) {
    EndsIn(start, ops, r) && Tidy(Start(start), ops) && r.st.loopCompleted && !r.st.skipRequested
  }

  lemma CleanEnds(start: St, ops: seq<Op>, r: Run)
    requires Clean(start, ops, r)
    ensures !r.st.pauseOpen && r.st.points != [] && r.st.points[0] == Entry
    ensures r.st.points[|r.st.points| - 1] == Exit(start.iterations)
    ensures |r.st.points| == |WindowPoints(r.st.points)| + 2 * |r.st.pairs|
  {
    RunInv(start, ops, r);
  }

  /** The harness finds exactly the points the loop took for its chunks. */
  lemma CleanRunReadsBack(start: St, ops: seq<Op>, r: Run)
    requires Clean(start, ops, r)
    ensures PairsSplitPoints(r.st.points, r.st.pairs)
    ensures ReadsBack(r.st.points, r.st.pairs, Total(start), start.chunk)
  {
    CleanEnds(start, ops, r);
    CompletedLoopIsExact(start, ops, r);
    TidyRunsRecordTruePairs(start, ops, r);
    ReadBack(r.st.points, r.st.pairs, Total(start), start.chunk);
  }

  lemma ReadBackShares(points: seq<Mark>, pairs: seq<Ordinals>, total: nat, size: nat, column: seq<Word>, values: seq<Word>)
    requires PairsSplitPoints(points, pairs) && ReadsBack(points, pairs, total, size)
    requires |column| == |points| && PairsInside(pairs, |column|) && |values| == total
    requires ValuesOf(column, pairs, values)
    ensures SumOf(values, total) % WORD == Netted(column, pairs)
  {
    ChunksAddUp(column, pairs, values, total);
    WholeIsNetted(points, pairs, column);
  }

  /** Pauses that start before the last point are the same below it and below the end. */
  lemma WholePaused(points: seq<Mark>, pairs: seq<Ordinals>, column: seq<Word>)
    requires PairsSplitPoints(points, pairs) && |column| == |points| > 0 && PairsInside(pairs, |column|)
    ensures PausedIn(column, pairs, |pairs|, 0, |column| - 1) == PausedIn(column, pairs, |pairs|, 0, |column|)
  {
    forall k: nat | k < |pairs| ensures pairs[k].first < |column| - 1 {
      assert pairs[k].second == pairs[k].first + 1;
    }
    PausedWithin(column, pairs, |pairs|, |column| - 1);
  }

  lemma WholeIsNetted(points: seq<Mark>, pairs: seq<Ordinals>, column: seq<Word>)
    requires PairsSplitPoints(points, pairs) && |column| == |points| > 0 && PairsInside(pairs, |column|)
    ensures Net(column, pairs, 0, |column| - 1) % WORD == Netted(column, pairs)
  {
    WholePaused(points, pairs, column);
  }

  lemma SplitPairsInside(points: seq<Mark>, pairs: seq<Ordinals>)
    requires PairsSplitPoints(points, pairs)
    ensures PairsInside(pairs, |points|)
  {
  }

  /** The chunks of a clean run share out the run: over any column of counts, wrapped or
      not, the harness's chunk values exist and add up to what the whole run measured
      outside its pauses. */
  lemma ChunksShareOutTheRun(start: St, ops: seq<Op>, r: Run, column: seq<Word>) returns (values: seq<Word>)
    requires Clean(start, ops, r) && |column| == |r.st.points|
    ensures PairsInside(r.st.pairs, |column|) && column != [] && |values| == Total(start)
    ensures ValuesOf(column, r.st.pairs, values)
    ensures SumOf(values, |values|) % WORD == Netted(column, r.st.pairs)
  {
    CleanRunReadsBack(start, ops, r);
    SplitPairsInside(r.st.points, r.st.pairs);
    var at := BoundariesBelow(r.st.pairs, |column|);
    values := seq(Total(start), c requires 0 <= c < Total(start) => ChunkValue(column, r.st.pairs, at[c], at[c + 1]));
    ReadBackShares(r.st.points, r.st.pairs, Total(start), start.chunk, column, values);
  }
}
