/**
 Folds over recorded columns, and the whole pipeline: an expression built, compiled,
 sampled and folded means what the expression means over the readings.
 */
module Fold {
  import opened Common
  import opened Spine
  import opened Layout
  import opened Table
  import opened Recorder
  import opened Bits

  /** The stored code of the state that says an action measured nothing. */
  /** A state as a disclosure column holds it: the place of its enumerator. */
  function WordOf(a: Availability): Word {
    match a
    case Countable => 0
    case PermissionBlocked => 1
    case NotEncodable => 2
    case Absent => 3
    case ScopeRefused => 4
    case Gap => 5
  }

  const GAP: Word := WordOf(Gap)

  /** A fold of an empty expression, of a window with a gap at an end point, or a value
      with the state its first leaf's window held at the end. */
  datatype Metric<V> = Empty | GapWindow | Folded(value: V, state: Word)

  /** Subtraction of 64-bit counts. */
  function Delta(to: Word, from: Word): Word {
    (to - from) % WORD
  }

  // ----- the fold over columns -----

  /** Every leaf of the expression has a slot in the plan. */
  ghost predicate Resolves<V>(plan: Plan, core: Core<V>) {
    NodesOk(core) && core.leaves != [] && forall l | l in core.leaves :: l.address in plan.byAddress
  }

  function ColumnDeltas(v: RecorderApi, from: nat, to: nat): Deltas {
    a => if a in v.plan.byAddress
         then Delta(At(v.cells, v.stride, v.plan.byAddress[a], to), At(v.cells, v.stride, v.plan.byAddress[a], from))
         else 0
  }

  /** `endPointState`. */
  function EndState(v: RecorderApi, row: nat, address: string): Word
    requires v.plan.groups != [] && address in v.plan.byAddress
  {
    At(v.cells, v.stride, DisclosureSlotFor(v.plan, v.plan.byAddress[address], 0), row)
  }

  /** `windowIsGap`, over the rows of the two end points. */
  predicate WindowIsGap(v: RecorderApi, leaves: seq<LeafCore>, from: nat, to: nat)
    requires v.plan.groups != [] && forall l | l in leaves :: l.address in v.plan.byAddress
  {
    exists l | l in leaves :: EndState(v, from, l.address) == GAP || EndState(v, to, l.address) == GAP
  }

  /** `foldCore`. */
  function FoldCore<V>(ops: Arith<V>, core: Core<V>, v: RecorderApi, i: nat, j: nat): Metric<V>
    requires i < j < v.count <= v.stride && Resolves(v.plan, core) && v.plan.groups != []
  {
    if core.nodes == [] then Empty
    else
      var from, to := Physical(v, i), Physical(v, j);
      if WindowIsGap(v, core.leaves, from, to) then GapWindow
      else Folded(Value(ops, ColumnDeltas(v, from, to), core), EndState(v, to, core.leaves[0].address))
  }

  /** `foldPairsCore`: one fold for each two adjacent points. */
  method FoldPairs<V>(ops: Arith<V>, core: Core<V>, v: RecorderApi) returns (out: seq<Metric<V>>)
    requires 2 <= v.count <= v.stride && Resolves(v.plan, core) && v.plan.groups != []
    ensures |out| == v.count - 1
    ensures forall k: nat | k < |out| :: out[k] == FoldCore(ops, core, v, k, k + 1)
  {
    out := [];
    var k := 0;
    while k + 1 < v.count
      invariant 0 <= k == |out| < v.count
      invariant forall m: nat | m < k :: out[m] == FoldCore(ops, core, v, m, m + 1)
    {
      out := out + [FoldCore(ops, core, v, k, k + 1)];
      k := k + 1;
    }
  }

  // ----- the fold over readings -----

  /** The readings behind one sampling action: a count for every address and a state for
      every provider. */
  datatype Source = Source(count: string -> Word, state: nat -> Word)

  function PointsOf(slots: seq<Pending>, count: string -> Word): (r: seq<Word>)
    ensures |r| == |slots| && forall k | 0 <= k < |r| :: r[k] == count(slots[k].address)
    decreases |slots|
  {
    if slots == [] then [] else PointsOf(slots[..|slots| - 1], count) + [count(slots[|slots| - 1].address)]
  }

  /** Every window reads its own addresses in order, and its provider's state. */
  ghost predicate Reads(plan: Plan, action: Action, source: Source) {
    && |action| == |plan.groups|
    && (forall g: nat | g < |action| ::
          var group := plan.groups[g];
          && group.offset + group.count <= |plan.slots|
          && action[g] == Reading(PointsOf(plan.slots[group.offset..group.offset + group.count], source.count),
                                  source.state(group.provider)))
  }

  lemma GroupReadsSlot(plan: Plan, action: Action, source: Source, g: nat, slot: nat)
    requires Reads(plan, action, source) && g < |plan.groups| && Within(plan.groups[g], slot)
    ensures slot < |plan.slots| && |action[g].points| == plan.groups[g].count
    ensures action[g].points[slot - plan.groups[g].offset] == source.count(plan.slots[slot].address)
    ensures action[g].state == source.state(plan.groups[g].provider)
  {
    var group := plan.groups[g];
    assert action[g].points == PointsOf(plan.slots[group.offset..group.offset + group.count], source.count);
  }

  /** The column of an address holds its own reading, and the column the fold scans for
      holds the state of the provider that owns it. */
  lemma LineReadsSource(plan: Plan, action: Action, source: Source, address: string)
    requires Tiled(plan) && Addressed(plan) && Reads(plan, action, source) && address in plan.byAddress
    ensures var slot := plan.byAddress[address];
            && slot < |plan.slots| && |Line(action)| == plan.ColumnCount()
            && Line(action)[slot] == source.count(address)
            && plan.groups != [] && DisclosureSlotFor(plan, slot, 0) < plan.ColumnCount()
            && Line(action)[DisclosureSlotFor(plan, slot, 0)] == source.state(plan.slots[slot].provider)
  {
    var slot := plan.byAddress[address];
    var g := SlotHasOneOwner(plan, slot);
    GroupReadsSlot(plan, action, source, g, slot);
    PointOfSlot(plan, action, g, slot);
  }

  /** The change of every leaf between two sources, exact modulo 2^64. */
  function SourceDeltas(from: Source, to: Source): Deltas {
    a => Delta(to.count(a), from.count(a))
  }

  /** What a fold of a window owes, said over the readings of its two end points alone. */
  ghost function Owed<V>(ops: Arith<V>, plan: Plan, core: Core<V>, from: Source, to: Source): Metric<V>
    requires Resolves(plan, core) && Addressed(plan) && core.nodes != []
  {
    if exists l :: l in core.leaves && GapAt(plan, l.address, from, to) then GapWindow
    else Folded(Value(ops, SourceDeltas(from, to), core), to.state(OwnerOf(plan, core.leaves[0].address)))
  }

  function OwnerOf(plan: Plan, address: string): nat
    requires address in plan.byAddress && plan.byAddress[address] < |plan.slots|
  {
    plan.slots[plan.byAddress[address]].provider
  }

  predicate GapAt(plan: Plan, address: string, from: Source, to: Source) {
    address in plan.byAddress && plan.byAddress[address] < |plan.slots|
    && GapBy(OwnerOf(plan, address), from, to)
  }

  /** A provider disclosed a gap at an end of the window. */
  predicate GapBy(provider: nat, from: Source, to: Source) {
    from.state(provider) == WordOf(Gap) || to.state(provider) == WordOf(Gap)
  }

  /** Every committed sample read one source. */
  ghost predicate Sampled(plan: Plan, log: seq<Action>, sources: seq<Source>) {
    |sources| == |log| && forall k: nat | k < |log| :: Reads(plan, log[k], sources[k])
  }

  lemma {:induction false} EvalDependsOnLeaves<V>(ops: Arith<V>, d: Deltas, e: Deltas, core: Core<V>, i: nat)
    requires NodesOk(core) && i < |core.nodes|
    requires forall l | l in core.leaves :: d(l.address) == e(l.address)
    ensures Eval(ops, d, core, i) == Eval(ops, e, core, i)
    decreases i
  {
    var node := core.nodes[i];
    assert NodeOk(node, i, |core.leaves|);
    if node.kind == 0 {
      assert core.leaves[node.leaf] in core.leaves;
    } else {
      if 0 <= node.left { EvalDependsOnLeaves(ops, d, e, core, node.left); }
      if 0 <= node.right { EvalDependsOnLeaves(ops, d, e, core, node.right); }
    }
  }

  /** One leaf of a window: its change and both its states, read from the columns, are
      those of the samples the two logical points stand for. */
  lemma LeafFolds(v: RecorderApi, log: seq<Action>, sources: seq<Source>, i: nat, address: string)
    requires Holds(v, log) && Addressed(v.plan) && Sampled(v.plan, log, sources)
    requires i < v.count && address in v.plan.byAddress
    ensures v.plan.groups != [] && v.dropped + i < |sources| && v.stride > 0 && v.plan.byAddress[address] < |v.plan.slots|
    ensures At(v.cells, v.stride, v.plan.byAddress[address], Physical(v, i)) == sources[v.dropped + i].count(address)
    ensures EndState(v, Physical(v, i), address) == sources[v.dropped + i].state(OwnerOf(v.plan, address))
  {
    LogicalRowIsSample(v, log, i);
    LineReadsSource(v.plan, log[v.dropped + i], sources[v.dropped + i], address);
  }

  /** The columns of one address at two rows hold the readings of two sources. */
  ghost predicate Agrees(v: RecorderApi, address: string, from: nat, to: nat, first: Source, last: Source)
    requires v.plan.groups != [] && address in v.plan.byAddress && v.plan.byAddress[address] < |v.plan.slots|
  {
    && ColumnDeltas(v, from, to)(address) == SourceDeltas(first, last)(address)
    && EndState(v, from, address) == first.state(OwnerOf(v.plan, address))
    && EndState(v, to, address) == last.state(OwnerOf(v.plan, address))
  }

  lemma LeafAgrees(v: RecorderApi, log: seq<Action>, sources: seq<Source>, i: nat, j: nat, address: string)
    requires Holds(v, log) && Addressed(v.plan) && Sampled(v.plan, log, sources)
    requires i < j < v.count && address in v.plan.byAddress
    ensures v.plan.groups != [] && v.dropped + j < |sources| && v.stride > 0 && v.plan.byAddress[address] < |v.plan.slots|
    ensures Agrees(v, address, Physical(v, i), Physical(v, j), sources[v.dropped + i], sources[v.dropped + j])
  {
    LeafFolds(v, log, sources, i, address);
    LeafFolds(v, log, sources, j, address);
  }

  lemma AgreeingFold<V>(ops: Arith<V>, core: Core<V>, v: RecorderApi, i: nat, j: nat, first: Source, last: Source)
    requires i < j < v.count <= v.stride && Addressed(v.plan) && v.plan.groups != []
    requires Resolves(v.plan, core) && core.nodes != []
    requires forall l | l in core.leaves :: Agrees(v, l.address, Physical(v, i), Physical(v, j), first, last)
    ensures FoldCore(ops, core, v, i, j) == Owed(ops, v.plan, core, first, last)
  {
    var from, to := Physical(v, i), Physical(v, j);
    assert core.leaves[0] in core.leaves;
    forall l | l in core.leaves
      ensures GapAt(v.plan, l.address, first, last)
          <==> EndState(v, from, l.address) == GAP || EndState(v, to, l.address) == GAP
    {
      assert Agrees(v, l.address, from, to, first, last);
    }
    EvalDependsOnLeaves(ops, ColumnDeltas(v, from, to), SourceDeltas(first, last), core, |core.nodes| - 1);
  }

  /** A fold reads the columns as the log: wrapped or not, logical points `i` and `j` are
      the samples `dropped + i` and `dropped + j`, and nothing between them matters. */
  lemma FoldIsOwed<V>(ops: Arith<V>, core: Core<V>, v: RecorderApi, log: seq<Action>, sources: seq<Source>,
                      i: nat, j: nat, first: Source, last: Source)
    requires Holds(v, log) && Addressed(v.plan) && Sampled(v.plan, log, sources)
    requires i < j < v.count && Resolves(v.plan, core) && core.nodes != []
    requires v.dropped + j < |sources| && first == sources[v.dropped + i] && last == sources[v.dropped + j]
    ensures v.plan.groups != [] && v.count <= v.stride
    ensures FoldCore(ops, core, v, i, j) == Owed(ops, v.plan, core, first, last)
  {
    assert core.leaves[0] in core.leaves;
    LeafAgrees(v, log, sources, i, j, core.leaves[0].address);
    forall l | l in core.leaves ensures Agrees(v, l.address, Physical(v, i), Physical(v, j), first, last) {
      LeafAgrees(v, log, sources, i, j, l.address);
    }
    AgreeingFold(ops, core, v, i, j, first, last);
  }

  // ----- end to end -----

  /** The owner the catalog names for an address. */
  function Provider(cat: Catalog, address: string): nat
    requires Lookup(cat, address).Some?
  {
    Lookup(cat, address).value.provider
  }

  lemma UsedResolves<V>(cat: Catalog, kind: TargetKind, exprs: seq<Core<V>>, opens: Opener, core: Core<V>)
    requires CatalogOk(cat) && Compiled(cat, kind, exprs, opens).Ok? && core in exprs && NodesOk(core)
    ensures var plan := Compiled(cat, kind, exprs, opens).value;
            && Tiled(plan) && Addressed(plan) && Resolves(plan, core)
            && (forall l | l in core.leaves ::
                  Lookup(cat, l.address).Some? && OwnerOf(plan, l.address) == Provider(cat, l.address))
  {
    var plan := Compiled(cat, kind, exprs, opens).value;
    CompiledOk(cat, kind, exprs, opens);
    assert PendingOk(cat, kind, []);
    GatherOk(cat, kind, exprs, []);
    forall l | l in core.leaves
      ensures l.address in plan.byAddress
      ensures Lookup(cat, l.address).Some? && OwnerOf(plan, l.address) == Provider(cat, l.address)
    {
      assert l.address in AddressesOf(core.leaves);
      assert Uses(exprs, l.address);
      assert plan.slots[plan.byAddress[l.address]] in plan.slots;
    }
  }

  /** The changes between two readings: the later count less the earlier, modulo 2^64. */
  ghost predicate ChangesBetween(deltas: Deltas, from: Source, to: Source) {
    forall a :: deltas(a) == (to.count(a) as int - from.count(a) as int) % 0x1_0000_0000_0000_0000
  }

  lemma ChangesAreDeltas(deltas: Deltas, from: Source, to: Source)
    requires ChangesBetween(deltas, from, to)
    ensures forall a :: deltas(a) == SourceDeltas(from, to)(a)
  {
  }

  /** The pipeline keeps meaning. Build any expressions, compile them against any catalog,
      sample any providers into either recorder, and fold any two retained points: the
      fold is a gap exactly when a provider of one of the expression's own leaves
      disclosed one at either point, and otherwise it is the expression's meaning over
      each leaf's change modulo 2^64, with the state the provider of the first leaf the
      expression names disclosed at the later point. */
  lemma EndToEnd<V>(ops: Arith<V>, cat: Catalog, kind: TargetKind, exprs: seq<Core<V>>, opens: Opener, e: Expr<V>,
                    v: RecorderApi, log: seq<Action>, sources: seq<Source>, i: nat, j: nat, deltas: Deltas)
    requires CatalogOk(cat) && Compiled(cat, kind, exprs, opens) == Ok(v.plan)
    requires Build(ops, e) in exprs
    requires Holds(v, log) && Sampled(v.plan, log, sources) && i < j < v.count
    requires v.dropped + j < |sources| ==> ChangesBetween(deltas, sources[v.dropped + i], sources[v.dropped + j])
    ensures forall a | a in Addresses(e) :: Lookup(cat, a).Some?
    ensures FirstAddress(e).Some? && FirstAddress(e).value in Addresses(e)
    ensures Resolves(v.plan, Build(ops, e)) && v.plan.groups != [] && v.count <= v.stride && v.dropped + j < |sources|
    ensures var from, to := sources[v.dropped + i], sources[v.dropped + j];
            var folded := FoldCore(ops, Build(ops, e), v, i, j);
            && (folded == GapWindow <==>
                  exists a :: a in Addresses(e) && GapBy(Provider(cat, a), from, to))
            && (folded != GapWindow ==>
                  && folded.Folded? && folded.value == Meaning(ops, deltas, e)
                  && folded.state == to.state(Provider(cat, FirstAddress(e).value)))
  {
    var core := Build(ops, e);
    BuildLeaves(ops, e);
    BuildStarts(ops, e);
    UsedResolves(cat, kind, exprs, opens, core);
    var from, to := sources[v.dropped + i], sources[v.dropped + j];
    FoldIsOwed(ops, core, v, log, sources, i, j, from, to);
    BuildPreservesMeaning(ops, SourceDeltas(from, to), e);
    ChangesAreDeltas(deltas, from, to);
    MeaningIsPointwise(ops, deltas, SourceDeltas(from, to), e);
    assert core.leaves[0] in core.leaves;
    forall a | a in Addresses(e) ensures exists l :: l in core.leaves && l.address == a {
      assert a in AddressesOf(core.leaves);
    }
    forall l | l in core.leaves ensures l.address in Addresses(e) {
      assert l.address in AddressesOf(core.leaves);
    }
  }

  // ----- adjacent deltas -----

  function SumOfDeltas(points: seq<Word>, first: nat, last: nat): nat
    requires first <= last < |points|
  {
    if last == first then 0 else SumOfDeltas(points, first, last - 1) + Delta(points[last], points[last - 1])
  }

  /** Adjacent changes telescope modulo 2^64, however often the count wrapped. */
  lemma {:induction false} DeltasTelescope(points: seq<Word>, first: nat, last: nat)
    requires first <= last < |points|
    ensures SumOfDeltas(points, first, last) % WORD == (points[last] as int - points[first] as int) % WORD
    decreases last
  {
    if first < last {
      DeltasTelescope(points, first, last - 1);
      var start: int, before: int, end: int := points[first], points[last - 1], points[last];
      AddRemainder(SumOfDeltas(points, first, last - 1), before - start, end - before, WORD);
    }
  }
}
