/** One sampling action: a flat block of columns, the cursor the windows fill it through,
    and the row it leaves. */
module Table {
  import opened Common
  import opened Layout

  // ----- the column block -----

  function Cell(stride: nat, column: nat, row: nat): nat {
    column * stride + row
  }

  lemma CellInside(stride: nat, columns: nat, column: nat, row: nat)
    requires column < columns && row < stride
    ensures Cell(stride, column, row) < columns * stride
  {
    assert column * stride + stride == (column + 1) * stride <= columns * stride;
  }

  /** No two cells of a block share storage. */
  lemma CellsApart(stride: nat, c: nat, r: nat, d: nat, q: nat)
    requires r < stride && q < stride && (c != d || r != q)
    ensures Cell(stride, c, r) != Cell(stride, d, q)
  {
    if c < d {
      assert (c + 1) * stride <= d * stride;
    } else if d < c {
      assert (d + 1) * stride <= c * stride;
    }
  }

  function At(cells: seq<Word>, stride: nat, column: nat, row: nat): Word {
    if Cell(stride, column, row) < |cells| then cells[Cell(stride, column, row)] else 0
  }

  lemma AtAfterWrite(cells: seq<Word>, stride: nat, column: nat, row: nat, value: Word)
    requires row < stride && Cell(stride, column, row) < |cells|
    ensures forall c: nat, r: nat | r < stride ::
              At(cells[Cell(stride, column, row) := value], stride, c, r) ==
              if c == column && r == row then value else At(cells, stride, c, r)
  {
    var after := cells[Cell(stride, column, row) := value];
    forall c: nat, r: nat | r < stride
      ensures At(after, stride, c, r) == if c == column && r == row then value else At(cells, stride, c, r)
    {
      if c != column || r != row { CellsApart(stride, c, r, column, row); }
    }
  }

  /** The write cursor of one sampling action. */
  class PointSink {
    const columns: array<Word>
    const leafCount: nat
    const columnCount: nat
    const stride: nat
    const row: nat
    var index: nat

    ghost predicate Valid()
      reads this
    {
      row < stride && index <= leafCount <= columnCount && columns.Length == columnCount * stride
    }

    constructor (columns: array<Word>, leafCount: nat, columnCount: nat, stride: nat, row: nat)
      requires row < stride && leafCount <= columnCount && columns.Length == columnCount * stride
      ensures Valid() && index == 0
      ensures this.columns == columns && this.leafCount == leafCount && this.columnCount == columnCount
      ensures this.stride == stride && this.row == row
    {
      this.columns, this.leafCount, this.columnCount, this.stride, this.row := columns, leafCount, columnCount, stride, row;
      index := 0;
    }

    /** The next leaf's point, at this action's row; the cursor moves by one column. */
    method Put(value: Word)
      requires Valid() && index < leafCount
      modifies this`index, columns
      ensures Valid() && index == old(index) + 1
      ensures forall c: nat, r: nat | r < stride ::
                At(columns[..], stride, c, r) ==
                if c == old(index) && r == row then value else At(old(columns[..]), stride, c, r)
    {
      CellInside(stride, columnCount, index, row);
      AtAfterWrite(columns[..], stride, index, row, value);
      ghost var after := columns[..][Cell(stride, index, row) := value];
      columns[index * stride + row] := value;
      assert columns[..] == after;
      index := index + 1;
    }

    /** A window's state, in the column the plan named; the cursor stays. */
    method PutDisclosure(column: nat, value: Word)
      requires Valid() && column < columnCount
      modifies columns
      ensures forall c: nat, r: nat | r < stride ::
                At(columns[..], stride, c, r) ==
                if c == column && r == row then value else At(old(columns[..]), stride, c, r)
    {
      CellInside(stride, columnCount, column, row);
      AtAfterWrite(columns[..], stride, column, row, value);
      ghost var after := columns[..][Cell(stride, column, row) := value];
      columns[column * stride + row] := value;
      assert columns[..] == after;
    }
  }

  // ----- what one action reads -----

  /** What one window yields for one action: a point per address it was opened over, in
      order, and the state of the read. */
  datatype Reading = Reading(points: seq<Word>, state: Word)

  type Action = seq<Reading>

  /** Every window meets its obligation: one point per managed leaf. */
  ghost predicate Obliged(plan: Plan, action: Action) {
    |action| == |plan.groups|
    && forall g: nat | g < |action| :: |action[g].points| == plan.groups[g].count
  }

  function Points(action: Action): seq<Word>
    decreases |action|
  {
    if action == [] then [] else Points(action[..|action| - 1]) + action[|action| - 1].points
  }

  function States(action: Action): (s: seq<Word>)
    ensures |s| == |action| && forall g | 0 <= g < |s| :: s[g] == action[g].state
    decreases |action|
  {
    if action == [] then [] else States(action[..|action| - 1]) + [action[|action| - 1].state]
  }

  /** The row an action leaves: every leaf's point in slot order, then every group's state. */
  function Line(action: Action): seq<Word> {
    Points(action) + States(action)
  }

  // ----- the layout and the cursor agree -----

  /** The groups leave no hole: each starts where the last one ended. */
  lemma GroupsAbut(plan: Plan, g: nat)
    requires Tiled(plan) && g < |plan.groups|
    ensures plan.groups[g].offset == if g == 0 then 0 else plan.groups[g - 1].offset + plan.groups[g - 1].count
  {
    var start := if g == 0 then 0 else plan.groups[g - 1].offset + plan.groups[g - 1].count;
    assert Fits(plan.slots, plan.groups[g], |plan.slots| + g);
    if g > 0 { assert Before(plan.groups[g - 1], plan.groups[g]); }
    if start < plan.groups[g].offset {
      assert Covered(plan.groups, start);
      forall h: nat | h < |plan.groups| ensures !Within(plan.groups[h], start) {
        if h > g {
          assert Before(plan.groups[g], plan.groups[h]);
        } else if h + 1 < g {
          assert Before(plan.groups[h], plan.groups[g - 1]);
        }
      }
    }
  }

  lemma LastGroupEnds(plan: Plan)
    requires Tiled(plan)
    ensures |plan.slots| == if plan.groups == [] then 0
                            else plan.groups[|plan.groups| - 1].offset + plan.groups[|plan.groups| - 1].count
  {
    var n := |plan.groups|;
    var end := if n == 0 then 0 else plan.groups[n - 1].offset + plan.groups[n - 1].count;
    if n > 0 { assert Fits(plan.slots, plan.groups[n - 1], |plan.slots| + n - 1); }
    if end < |plan.slots| {
      assert Covered(plan.groups, end);
      forall h: nat | h < |plan.groups| ensures !Within(plan.groups[h], end) {
        if h < n - 1 { assert Before(plan.groups[h], plan.groups[n - 1]); }
      }
    }
  }

  /** The points of the first groups fill exactly the slots before the next group. */
  lemma {:induction false} PointsReach(plan: Plan, action: Action, g: nat)
    requires Tiled(plan) && Obliged(plan, action) && g <= |action|
    ensures |Points(action[..g])| == if g == |plan.groups| then |plan.slots| else plan.groups[g].offset
    decreases g
  {
    if g == |plan.groups| { LastGroupEnds(plan); } else { GroupsAbut(plan, g); }
    if g > 0 {
      PointsReach(plan, action, g - 1);
      assert action[..g][..g - 1] == action[..g - 1];
    }
  }

  lemma {:induction false} PointsPrefix(action: Action, g: nat, h: nat)
    requires g <= h <= |action|
    ensures Points(action[..g]) <= Points(action[..h])
    decreases h
  {
    if g < h {
      PointsPrefix(action, g, h - 1);
      assert action[..h][..h - 1] == action[..h - 1];
    }
  }

  /** A slot's point is its own window's, at its place in that window. */
  lemma PointOfSlot(plan: Plan, action: Action, g: nat, slot: nat)
    requires Tiled(plan) && Obliged(plan, action) && g < |plan.groups| && Within(plan.groups[g], slot)
    ensures slot < |plan.slots| == |Points(action)|
    ensures Line(action)[slot] == action[g].points[slot - plan.groups[g].offset]
    ensures |Line(action)| == plan.ColumnCount() && Line(action)[plan.groups[g].disclosureSlot] == action[g].state
  {
    assert Fits(plan.slots, plan.groups[g], |plan.slots| + g);
    PointsReach(plan, action, g);
    PointsReach(plan, action, |action|);
    PointsPrefix(action, g + 1, |action|);
    assert action[..|action|] == action;
    assert action[..g + 1][..g] == action[..g];
    assert Points(action[..g + 1]) == Points(action[..g]) + action[g].points;
    assert Points(action)[slot] == Points(action[..g + 1])[slot];
  }

  /** A block after one window wrote its points from a column on, and its state. */
  ghost predicate Written(before: seq<Word>, after: seq<Word>, stride: nat, row: nat, start: nat, reading: Reading, column: nat) {
    forall c: nat, r: nat | r < stride ::
      At(after, stride, c, r) ==
      if r == row && start <= c < start + |reading.points| then reading.points[c - start]
      else if r == row && c == column then reading.state
      else At(before, stride, c, r)
  }

  /** One window of an action: its points through the cursor, then its state. */
  method ReadWindow(sink: PointSink, reading: Reading, column: nat)
    requires sink.Valid() && sink.index + |reading.points| <= sink.leafCount <= column < sink.columnCount
    modifies sink`index, sink.columns
    ensures sink.Valid() && sink.index == old(sink.index) + |reading.points|
    ensures Written(old(sink.columns[..]), sink.columns[..], sink.stride, sink.row, old(sink.index), reading, column)
  {
    var k := 0;
    while k < |reading.points|
      invariant 0 <= k <= |reading.points| && sink.Valid() && sink.index == old(sink.index) + k
      invariant forall c: nat, r: nat | r < sink.stride ::
                  At(sink.columns[..], sink.stride, c, r) ==
                  if r == sink.row && old(sink.index) <= c < sink.index then reading.points[c - old(sink.index)]
                  else At(old(sink.columns[..]), sink.stride, c, r)
    {
      sink.Put(reading.points[k]);
      k := k + 1;
    }
    sink.PutDisclosure(column, reading.state);
  }

  /** A block after the first `g` windows of an action. */
  ghost predicate Filled(plan: Plan, before: seq<Word>, now: seq<Word>, stride: nat, row: nat, action: Action, g: nat)
    requires g <= |action|
  {
    var points := Points(action[..g]);
    forall c: nat, r: nat | r < stride ::
      At(now, stride, c, r) ==
      if r == row && c < |points| then points[c]
      else if r == row && |plan.slots| <= c < |plan.slots| + g then action[c - |plan.slots|].state
      else At(before, stride, c, r)
  }

  lemma FilledNext(plan: Plan, before: seq<Word>, mid: seq<Word>, after: seq<Word>, stride: nat, row: nat,
                   action: Action, g: nat)
    requires g < |action| && |Points(action[..g + 1])| <= |plan.slots|
    requires Filled(plan, before, mid, stride, row, action, g)
    requires Written(mid, after, stride, row, |Points(action[..g])|, action[g], |plan.slots| + g)
    ensures Filled(plan, before, after, stride, row, action, g + 1)
  {
    PointsNext(action, g);
  }

  lemma PointsNext(action: Action, g: nat)
    requires g < |action|
    ensures Points(action[..g + 1]) == Points(action[..g]) + action[g].points
  {
    assert action[..g + 1][..g] == action[..g];
  }

  /** `sampleRow`: every group in order through one cursor. The row holds the action's line,
      and no other row of any column changes. */
  method SampleRow(plan: Plan, buffer: array<Word>, stride: nat, row: nat, action: Action)
    requires Tiled(plan) && Obliged(plan, action)
    requires row < stride && buffer.Length == plan.ColumnCount() * stride
    modifies buffer
    ensures |Line(action)| == plan.ColumnCount()
    ensures forall c: nat, r: nat | r < stride ::
              At(buffer[..], stride, c, r) ==
              if r == row && c < plan.ColumnCount() then Line(action)[c] else At(old(buffer[..]), stride, c, r)
  {
    var sink := new PointSink(buffer, plan.LeafCount(), plan.ColumnCount(), stride, row);
    ghost var before := buffer[..];
    var g := 0;
    while g < |plan.groups|
      invariant 0 <= g <= |plan.groups| && sink.Valid() && sink.index == |Points(action[..g])|
      invariant Filled(plan, before, buffer[..], stride, row, action, g)
    {
      PointsReach(plan, action, g);
      PointsReach(plan, action, g + 1);
      PointsNext(action, g);
      assert Fits(plan.slots, plan.groups[g], |plan.slots| + g);
      ghost var mid := buffer[..];
      ReadWindow(sink, action[g], plan.groups[g].disclosureSlot);
      FilledNext(plan, before, mid, buffer[..], stride, row, action, g);
      g := g + 1;
    }
    PointsReach(plan, action, g);
    assert action[..g] == action;
    // the closing check of the source: one point per managed leaf
    assert sink.index == sink.leafCount;
  }
}
