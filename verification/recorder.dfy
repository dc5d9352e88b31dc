/**
 The recorder: committed samples in an arena of `capacity` rows, hard stop or ring, and
 the view a fold reads. Both kinds refine one unbounded log of sampling actions.
 */
module Recorder {
  import opened Common
  import opened Layout
  import opened Table
  import opened Bits

  /** What a fold is given: the buffer, its row count and what the ring forgot. */
  datatype RecorderApi = RecorderApi(plan: Plan, cells: seq<Word>, stride: nat, count: nat, wrapped: bool, dropped: nat)

  /** The row that stores a logical index. */
  function Physical(v: RecorderApi, i: nat): nat
    requires v.stride > 0
  {
    if v.wrapped then (v.dropped % v.stride + i) % v.stride else i
  }

  /** The buffer keeps the newest samples of the log, sample `k` at row `k` modulo the
      stride, and the accounts say how many are gone. */
  ghost predicate Holds(v: RecorderApi, log: seq<Action>) {
    && Tiled(v.plan)
    && (forall action | action in log :: Obliged(v.plan, action) && |Line(action)| == v.plan.ColumnCount())
    && v.count == (if |log| < v.stride then |log| else v.stride)
    && v.dropped == |log| - v.count && v.wrapped == (|log| > v.stride)
    && (forall k: nat, c: nat | v.dropped <= k < |log| && c < v.plan.ColumnCount() ::
          At(v.cells, v.stride, c, k % v.stride) == Line(log[k])[c])
  }

  lemma ModShift(d: nat, i: nat, m: nat)
    requires m > 0
    ensures (d % m + i) % m == (d + i) % m
  {
    var q := (d % m + i) / m;
    assert d + i == m * (d / m + q) + (d % m + i) % m;
    Remainder(d + i, m, d / m + q, (d % m + i) % m);
  }

  lemma ModApart(a: nat, b: nat, m: nat)
    requires a < b < a + m
    ensures a % m != b % m
  {
    var d := b / m - a / m;
    assert b - a == m * d + (b % m - a % m);
    Multiple(m, d);
  }

  /** Logical row `i` of a view is sample number `dropped + i`, in every column. */
  lemma LogicalRowIsSample(v: RecorderApi, log: seq<Action>, i: nat)
    requires Holds(v, log) && i < v.count
    ensures v.dropped + i < |log| && v.dropped == (if |log| > v.stride then |log| - v.stride else 0)
    ensures Physical(v, i) < v.stride && Physical(v, i) == (v.dropped + i) % v.stride
    ensures forall c: nat | c < v.plan.ColumnCount() ::
              At(v.cells, v.stride, c, Physical(v, i)) == Line(log[v.dropped + i])[c]
  {
    ModShift(v.dropped, i, v.stride);
    Remainder(i, v.stride, 0, i);
  }

  class Recorder {
    const plan: Plan
    const columns: array<Word>
    const capacity: nat
    const ring: bool
    var head: nat
    var wrapped: bool
    var dropped: nat
    ghost var log: seq<Action>

    /** `view`. */
    function View(): RecorderApi
      reads this, columns
    {
      RecorderApi(plan, columns[..], capacity, if head < capacity then head else capacity, wrapped, dropped)
    }

    ghost predicate Valid()
      reads this, columns
    {
      && columns.Length == plan.ColumnCount() * capacity
      && head == |log| && (if ring then IsPowerOfTwo(capacity) else |log| <= capacity)
      && Holds(View(), log)
    }

    constructor (plan: Plan, capacity: nat, ring: bool)
      requires Tiled(plan) && (ring ==> IsPowerOfTwo(capacity))
      ensures Valid() && fresh(columns) && log == []
      ensures this.plan == plan && this.capacity == capacity && this.ring == ring
    {
      this.plan, this.capacity, this.ring := plan, capacity, ring;
      columns := new Word[capacity * plan.ColumnCount()](_ => 0);
      head, wrapped, dropped, log := 0, false, 0, [];
      new;
      assert capacity * plan.ColumnCount() == plan.ColumnCount() * capacity;
    }

    /** One sampling action at a row, and the head past it. */
    method SamplePoint(row: nat, action: Action)
      requires row < capacity && columns.Length == plan.ColumnCount() * capacity
      requires Tiled(plan) && Obliged(plan, action)
      modifies this`head, columns
      ensures head == old(head) + 1 && |Line(action)| == plan.ColumnCount()
      ensures forall c: nat, r: nat | r < capacity ::
                At(columns[..], capacity, c, r) ==
                if r == row && c < plan.ColumnCount() then Line(action)[c] else At(old(columns[..]), capacity, c, r)
    {
      SampleRow(plan, columns, capacity, row, action);
      head := head + 1;
    }

    /** `hardStopSampleCore`: the check that holds in every build, then the action. A
        sample that does not fit ends the program; here it is refused and changes nothing. */
    method HardStopSample(action: Action) returns (ok: bool)
      requires Valid() && !ring && Obliged(plan, action)
      modifies this, columns
      ensures Valid() && ok == (old(head) < capacity)
      ensures log == if ok then old(log) + [action] else old(log)
      ensures !ok ==> View() == old(View())
    {
      ok := head < capacity;
      if ok {
        ghost var before := View();
        Remainder(head, capacity, 0, head);
        SamplePoint(head, action);
        log := log + [action];
        AppendHolds(before, View(), old(log), action);
      }
    }

    /** `ringSampleCore`: the masked row, then the accounts. */
    method RingSample(action: Action)
      requires Valid() && ring && Obliged(plan, action)
      modifies this, columns
      ensures Valid() && log == old(log) + [action]
    {
      ghost var before := View();
      Masked(head, capacity);
      SamplePoint(And(head, capacity - 1), action);
      if head > capacity {
        wrapped := true;
        dropped := dropped + 1;
      }
      log := log + [action];
      AppendHolds(before, View(), old(log), action);
    }
  }

  /** Writing the next action at its own row keeps every sample still in the window. */
  lemma AppendHolds(before: RecorderApi, after: RecorderApi, log: seq<Action>, action: Action)
    requires Holds(before, log) && before.stride > 0
    requires after.plan == before.plan && after.stride == before.stride
    requires Obliged(before.plan, action) && |Line(action)| == before.plan.ColumnCount()
    requires forall c: nat, r: nat | r < before.stride ::
               At(after.cells, before.stride, c, r) ==
               if r == |log| % before.stride && c < before.plan.ColumnCount() then Line(action)[c]
               else At(before.cells, before.stride, c, r)
    requires after.count == if |log| + 1 < before.stride then |log| + 1 else before.stride
    requires after.dropped == |log| + 1 - after.count && after.wrapped == (|log| + 1 > before.stride)
    ensures Holds(after, log + [action])
  {
    var more := log + [action];
    forall k: nat, c: nat | after.dropped <= k < |more| && c < after.plan.ColumnCount()
      ensures At(after.cells, after.stride, c, k % after.stride) == Line(more[k])[c]
    {
      if k < |log| { ModApart(k, |log|, after.stride); }
    }
  }

  /** The hard-stop factory: any capacity. */
  method MintHardStop(plan: Plan, capacity: nat) returns (r: Recorder)
    requires Tiled(plan)
    ensures fresh(r) && fresh(r.columns) && r.Valid() && r.log == []
    ensures r.plan == plan && r.capacity == capacity && !r.ring
  {
    r := new Recorder(plan, capacity, false);
  }

  /** The ring factory refuses every capacity but a power of two. */
  method MintRing(plan: Plan, capacity: nat) returns (r: Option<Recorder>)
    requires Tiled(plan)
    ensures r.Some? <==> IsPowerOfTwo(capacity)
    ensures r.Some? ==> fresh(r.value) && fresh(r.value.columns) && r.value.Valid() && r.value.log == []
                        && r.value.plan == plan && r.value.capacity == capacity && r.value.ring
  {
    if capacity == 0 || And(capacity, capacity - 1) != 0 {
      if capacity > 0 { PowerTest(capacity); }
      return None;
    }
    PowerTest(capacity);
    var made := new Recorder(plan, capacity, true);
    r := Some(made);
  }
}
