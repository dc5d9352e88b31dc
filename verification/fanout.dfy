/** Fan-out: one exemplar expression re-homed under every selected object, compiled as one
    plan and folded object by object. */
module Fanout {
  import opened Common
  import opened Spine
  import opened Layout
  import opened Table
  import opened Recorder
  import opened Fold

  datatype FanoutError = NoExemplarLeaves | EmptySelection | SpansSeveral | NullObject | Repeats(path: string)
                       | Refuses(error: CompileError)

  /** The compiled plan and the selected objects' paths, in selection order. */
  datatype FanoutPlan = FanoutPlan(inner: Plan, paths: seq<string>)

  /** The objects a caller selects: the path of each, or none for a null pointer. */
  type Selection = seq<Option<string>>

  /** `instantiateCore`: the same nodes over the leaves of another object. */
  function Instantiated<V>(core: Core<V>, path: string): Core<V> {
    core.(leaves := Rehomed(core.leaves, path))
  }

  function Rehomed(leaves: seq<LeafCore>, path: string): (r: seq<LeafCore>)
    ensures |r| == |leaves|
    ensures forall k | 0 <= k < |r| :: r[k] == leaves[k].(address := path + "/" + leaves[k].name)
  {
    seq(|leaves|, k requires 0 <= k < |leaves| => leaves[k].(address := path + "/" + leaves[k].name))
  }

  function ObjectOf(address: string): string {
    SplitAddress(address).0
  }

  predicate Under(address: string, prefix: string) {
    prefix + "/" <= address
  }

  /** `exemplarPrefix`: the first leaf's object where every leaf lies under it, else empty. */
  function ExemplarPrefix(leaves: seq<LeafCore>): string
    requires leaves != []
  {
    var prefix := ObjectOf(leaves[0].address);
    if forall k | 0 <= k < |leaves| :: Under(leaves[k].address, prefix) then prefix else ""
  }

  function Instances<V>(core: Core<V>, paths: seq<string>): (r: seq<Core<V>>)
    ensures |r| == |paths| && forall k | 0 <= k < |r| :: r[k] == Instantiated(core, paths[k])
  {
    seq(|paths|, k requires 0 <= k < |paths| => Instantiated(core, paths[k]))
  }

  /** The first selected object that is null or repeats an earlier path. */
  function FirstFault(selection: Selection, n: nat): Option<FanoutError>
    requires n <= |selection|
    decreases |selection| - n
  {
    if n == |selection| then None
    else if selection[n].None? then Some(NullObject)
    else if selection[n] in selection[..n] then Some(Repeats(selection[n].value))
    else FirstFault(selection, n + 1)
  }

  function PathsOf(selection: Selection): (r: seq<string>)
    requires forall k | 0 <= k < |selection| :: selection[k].Some?
    ensures |r| == |selection| && forall k | 0 <= k < |r| :: selection[k] == Some(r[k])
  {
    seq(|selection|, k requires 0 <= k < |selection| => selection[k].value)
  }

  lemma FaultlessIsSelected(selection: Selection, n: nat)
    requires n <= |selection| && FirstFault(selection, n).None?
    ensures forall k | n <= k < |selection| :: selection[k].Some?
    ensures forall j, k | 0 <= j < k < |selection| && n <= k :: selection[j] != selection[k]
    decreases |selection| - n
  {
    if n < |selection| {
      FaultlessIsSelected(selection, n + 1);
      forall j | 0 <= j < n ensures selection[j] != selection[n] {
        assert selection[j] == selection[..n][j];
      }
    }
  }

  function Fanned<V>(cat: Catalog, kind: TargetKind, exemplar: Core<V>, selection: Selection, opens: Opener)
    : Result<FanoutPlan, FanoutError>
  {
    if exemplar.leaves == [] then Err(NoExemplarLeaves)
    else if selection == [] then Err(EmptySelection)
    else if ExemplarPrefix(exemplar.leaves) == "" then Err(SpansSeveral)
    else
      match FirstFault(selection, 0)
      case Some(fault) => Err(fault)
      case None =>
        FaultlessIsSelected(selection, 0);
        match Compiled(cat, kind, Instances(exemplar, PathsOf(selection)), opens)
        case Err(e) => Err(Refuses(e))
        case Ok(plan) => Ok(FanoutPlan(plan, PathsOf(selection)))
  }

  /** `exemplarPrefix`, leaf by leaf. */
  method FindPrefix(leaves: seq<LeafCore>) returns (prefix: string)
    requires leaves != []
    ensures prefix == ExemplarPrefix(leaves)
  {
    prefix := ObjectOf(leaves[0].address);
    for k := 0 to |leaves|
      invariant forall j | 0 <= j < k :: Under(leaves[j].address, prefix)
    {
      if !(prefix + "/" <= leaves[k].address) {
        assert !Under(leaves[k].address, prefix);
        return "";
      }
    }
  }

  /** `compileFanoutCore`. */
  method CompileFanout<V>(cat: Catalog, kind: TargetKind, exemplar: Core<V>, selection: Selection, opens: Opener)
    returns (r: Result<FanoutPlan, FanoutError>)
    ensures r == Fanned(cat, kind, exemplar, selection, opens)
  {
    if exemplar.leaves == [] {
      return Err(NoExemplarLeaves);
    }
    if selection == [] {
      return Err(EmptySelection);
    }
    var prefix := FindPrefix(exemplar.leaves);
    if prefix == "" {
      return Err(SpansSeveral);
    }
    var paths: seq<string> := [];
    var instances: seq<Core<V>> := [];
    for n := 0 to |selection|
      invariant |paths| == n && forall k | 0 <= k < n :: selection[k] == Some(paths[k])
      invariant instances == Instances(exemplar, paths)
      invariant FirstFault(selection, 0) == FirstFault(selection, n)
    {
      if selection[n].None? {
        return Err(NullObject);
      }
      var path := selection[n].value;
      SeenIff(selection[..n], paths, path);
      if path in paths {
        return Err(Repeats(path));
      }
      paths := paths + [path];
      instances := instances + [Instantiated(exemplar, path)];
    }
    assert paths == PathsOf(selection);
    match Compiled(cat, kind, instances, opens) {
      case Err(e) => r := Err(Refuses(e));
      case Ok(plan) => r := Ok(FanoutPlan(plan, paths));
    }
  }

  lemma SeenIff(selection: Selection, paths: seq<string>, path: string)
    requires |paths| == |selection| && forall k | 0 <= k < |paths| :: selection[k] == Some(paths[k])
    ensures path in paths <==> Some(path) in selection
  {
    forall k | 0 <= k < |paths| ensures paths[k] == path <==> selection[k] == Some(path) {}
    if path in paths {
      var k :| 0 <= k < |paths| && paths[k] == path;
      assert selection[k] in selection;
    }
  }

  /** Object `n` is the first that is null or repeats an earlier one. */
  predicate FaultyAt(selection: Selection, n: nat, fault: FanoutError) {
    && n < |selection|
    && (forall m | 0 <= m < n :: selection[m].Some? && selection[m] !in selection[..m])
    && (if selection[n].None? then fault == NullObject
        else selection[n] in selection[..n] && fault == Repeats(selection[n].value))
  }

  lemma FirstFaultIs(selection: Selection, n: nat)
    requires n <= |selection| && forall m | 0 <= m < n :: selection[m].Some? && selection[m] !in selection[..m]
    ensures FirstFault(selection, n).None? ==>
              forall m | 0 <= m < |selection| :: selection[m].Some? && selection[m] !in selection[..m]
    ensures FirstFault(selection, n).Some? ==> exists k: nat :: FaultyAt(selection, k, FirstFault(selection, n).value)
    decreases |selection| - n
  {
    if n < |selection| {
      if selection[n].None? {
        assert FaultyAt(selection, n, NullObject);
      } else if selection[n] in selection[..n] {
        assert FaultyAt(selection, n, Repeats(selection[n].value));
      } else {
        FirstFaultIs(selection, n + 1);
      }
    }
  }

  predicate Selects(selection: Selection, paths: seq<string>) {
    |paths| == |selection| && forall k | 0 <= k < |paths| :: selection[k] == Some(paths[k])
  }

  /** The compile's own answer, handed on with the paths. */
  function Carried(compiled: Result<Plan, CompileError>, paths: seq<string>): Result<FanoutPlan, FanoutError> {
    match compiled
    case Err(e) => Err(Refuses(e))
    case Ok(plan) => Ok(FanoutPlan(plan, paths))
  }

  /** What every fan-out compile answers: the exemplar's leaves, the selection, the common
      object, then the first null or repeated object, then what compiling the instances
      answers. */
  lemma FanoutOutcome<V>(cat: Catalog, kind: TargetKind, exemplar: Core<V>, selection: Selection, opens: Opener)
    ensures var out := Fanned(cat, kind, exemplar, selection, opens);
            if exemplar.leaves == [] then out == Err(NoExemplarLeaves)
            else if selection == [] then out == Err(EmptySelection)
            else if ExemplarPrefix(exemplar.leaves) == "" then out == Err(SpansSeveral)
            else if exists m :: 0 <= m < |selection| && (selection[m].None? || selection[m] in selection[..m]) then
              out.Err? && exists n: nat :: FaultyAt(selection, n, out.error)
            else
              exists paths :: Selects(selection, paths)
                              && out == Carried(Compiled(cat, kind, Instances(exemplar, paths), opens), paths)
  {
    if exemplar.leaves != [] && selection != [] && ExemplarPrefix(exemplar.leaves) != "" {
      FirstFaultIs(selection, 0);
      match FirstFault(selection, 0) {
        case Some(fault) =>
          var n: nat :| FaultyAt(selection, n, fault);
          assert selection[n].None? || selection[n] in selection[..n];
          assert Fanned(cat, kind, exemplar, selection, opens) == Err(fault);
        case None =>
          FaultlessIsSelected(selection, 0);
          var paths := PathsOf(selection);
          assert Selects(selection, paths);
      }
    }
  }

  // ----- what an instance means -----

  /** The changes of the exemplar's leaves, read from another object. */
  function RehomedDelta(deltas: Deltas, leaves: seq<LeafCore>, path: string, address: string): nat {
    var k := IndexOf(leaves, address);
    if k < |leaves| then deltas(path + "/" + leaves[k].name) else 0
  }

  function RehomedDeltas(deltas: Deltas, leaves: seq<LeafCore>, path: string): Deltas {
    address => RehomedDelta(deltas, leaves, path, address)
  }

  /** An instance evaluates as the exemplar over the other object's changes. */
  lemma {:induction false} InstanceMeans<V>(ops: Arith<V>, deltas: Deltas, core: Core<V>, path: string, i: nat)
    requires WellFormed(core) && i < |core.nodes|
    ensures NodesOk(Instantiated(core, path))
    ensures Eval(ops, deltas, Instantiated(core, path), i) == Eval(ops, RehomedDeltas(deltas, core.leaves, path), core, i)
    decreases i
  {
    var node := core.nodes[i];
    assert NodeOk(node, i, |core.leaves|);
    if node.kind != 0 {
      if 0 <= node.left { InstanceMeans(ops, deltas, core, path, node.left); }
      if 0 <= node.right { InstanceMeans(ops, deltas, core, path, node.right); }
    }
  }

  /** `fanoutFoldCore`: one row a path, over the whole recorded window. */
  method FoldFanout<V>(ops: Arith<V>, core: Core<V>, paths: seq<string>, v: RecorderApi) returns (out: seq<Metric<V>>)
    requires 2 <= v.count <= v.stride && v.plan.groups != []
    requires forall k | 0 <= k < |paths| :: Resolves(v.plan, Instantiated(core, paths[k]))
    ensures |out| == |paths|
    ensures forall k | 0 <= k < |out| :: out[k] == FoldCore(ops, Instantiated(core, paths[k]), v, 0, v.count - 1)
  {
    out := [];
    for n := 0 to |paths|
      invariant |out| == n
      invariant forall k | 0 <= k < n :: out[k] == FoldCore(ops, Instantiated(core, paths[k]), v, 0, v.count - 1)
    {
      out := out + [FoldCore(ops, Instantiated(core, paths[n]), v, 0, v.count - 1)];
    }
  }

  lemma InstanceValue<V>(ops: Arith<V>, deltas: Deltas, exemplar: Core<V>, path: string)
    requires WellFormed(exemplar) && exemplar.nodes != []
    ensures NodesOk(Instantiated(exemplar, path))
    ensures Value(ops, deltas, Instantiated(exemplar, path)) == Value(ops, RehomedDeltas(deltas, exemplar.leaves, path), exemplar)
  {
    InstanceMeans(ops, deltas, exemplar, path, |exemplar.nodes| - 1);
  }

  lemma InstanceNodesOk<V>(exemplar: Core<V>, path: string)
    requires WellFormed(exemplar)
    ensures NodesOk(Instantiated(exemplar, path))
  {
    forall i: nat | i < |exemplar.nodes| ensures NodeOk(exemplar.nodes[i], i, |exemplar.leaves|) {}
  }

  /** A compiled fan-out lists the selected objects, each once, and its plan reads every
      exemplar leaf under each of them through the provider the catalog names. */
  lemma InstanceResolves<V>(cat: Catalog, kind: TargetKind, exemplar: Core<V>, selection: Selection, opens: Opener,
                            fan: FanoutPlan, k: nat)
    requires CatalogOk(cat) && WellFormed(exemplar) && exemplar.nodes != []
    requires Fanned(cat, kind, exemplar, selection, opens) == Ok(fan) && k < |selection|
    ensures |fan.paths| == |selection| && selection[k] == Some(fan.paths[k])
    ensures forall j | 0 <= j < k :: fan.paths[j] != fan.paths[k]
    ensures var instance := Instantiated(exemplar, fan.paths[k]);
            && Tiled(fan.inner) && Addressed(fan.inner) && Resolves(fan.inner, instance)
            && (forall l | l in instance.leaves ::
                  Lookup(cat, l.address).Some? && OwnerOf(fan.inner, l.address) == Provider(cat, l.address))
  {
    FaultlessIsSelected(selection, 0);
    var paths := PathsOf(selection);
    forall j | 0 <= j < k ensures paths[j] != paths[k] {
      assert selection[j] != selection[k];
    }
    var instance := Instances(exemplar, paths)[k];
    InstanceNodesOk(exemplar, paths[k]);
    assert instance in Instances(exemplar, paths);
    UsedResolves(cat, kind, Instances(exemplar, paths), opens, instance);
  }

  /** The leaf `l` as the object at `path` carries it. */
  function AddressUnder(path: string, l: LeafCore): string {
    path + "/" + l.name
  }

  /** What one row says: a gap exactly when a provider of an exemplar leaf under the
      object disclosed one, else the exemplar's value over the object's changes. */
  ghost predicate RowMeans<V>(ops: Arith<V>, cat: Catalog, exemplar: Core<V>, path: string, from: Source,
                              to: Source, row: Metric<V>)
    requires WellFormed(exemplar) && exemplar.nodes != []
    requires forall l | l in exemplar.leaves :: Lookup(cat, AddressUnder(path, l)).Some?
  {
    && (row == GapWindow <==> exists l :: l in exemplar.leaves && GapBy(Provider(cat, AddressUnder(path, l)), from, to))
    && (row != GapWindow ==>
          row.Folded? && row.value == Value(ops, RehomedDeltas(SourceDeltas(from, to), exemplar.leaves, path), exemplar))
  }

  /** What an instance owes is what its row says. */
  lemma OwedRow<V>(ops: Arith<V>, cat: Catalog, exemplar: Core<V>, path: string, plan: Plan, from: Source, to: Source)
    requires WellFormed(exemplar) && exemplar.nodes != [] && Addressed(plan) && Resolves(plan, Instantiated(exemplar, path))
    requires forall l | l in exemplar.leaves :: Lookup(cat, AddressUnder(path, l)).Some?
    requires forall l | l in Instantiated(exemplar, path).leaves ::
               Lookup(cat, l.address).Some? && OwnerOf(plan, l.address) == Provider(cat, l.address)
    ensures RowMeans(ops, cat, exemplar, path, from, to, Owed(ops, plan, Instantiated(exemplar, path), from, to))
  {
    var instance := Instantiated(exemplar, path);
    InstanceValue(ops, SourceDeltas(from, to), exemplar, path);
    forall l | l in exemplar.leaves && GapBy(Provider(cat, AddressUnder(path, l)), from, to)
      ensures exists m :: m in instance.leaves && GapAt(plan, m.address, from, to)
    {
      LeafRehomed(exemplar.leaves, path, l);
    }
    forall m | m in instance.leaves && GapAt(plan, m.address, from, to)
      ensures exists l :: l in exemplar.leaves && GapBy(Provider(cat, AddressUnder(path, l)), from, to)
    {
      var n :| 0 <= n < |instance.leaves| && instance.leaves[n] == m;
      assert exemplar.leaves[n] in exemplar.leaves;
    }
  }

  lemma LeafRehomed(leaves: seq<LeafCore>, path: string, l: LeafCore)
    requires l in leaves
    ensures l.(address := AddressUnder(path, l)) in Rehomed(leaves, path)
  {
    var n :| 0 <= n < |leaves| && leaves[n] == l;
    assert Rehomed(leaves, path)[n] in Rehomed(leaves, path);
  }

  /** The fan-out keeps meaning. Compile an exemplar over any selection, sample any
      providers, fold a window, as `fanoutFoldCore` does with the whole one: the row of
      each selected object is a gap exactly when a provider of one of the exemplar's
      leaves under that object disclosed one at an end point, and otherwise it is the
      exemplar's value over that object's changes. */
  lemma FanoutEndToEnd<V>(ops: Arith<V>, cat: Catalog, kind: TargetKind, exemplar: Core<V>, selection: Selection, opens: Opener,
                          fan: FanoutPlan, v: RecorderApi, log: seq<Action>, sources: seq<Source>, k: nat, i: nat, j: nat)
    requires CatalogOk(cat) && WellFormed(exemplar) && exemplar.nodes != []
    requires Fanned(cat, kind, exemplar, selection, opens) == Ok(fan) && v.plan == fan.inner
    requires Holds(v, log) && Sampled(v.plan, log, sources) && i < j < v.count && k < |selection|
    ensures |fan.paths| == |selection| && selection[k] == Some(fan.paths[k])
    ensures forall l | l in exemplar.leaves :: Lookup(cat, AddressUnder(fan.paths[k], l)).Some?
    ensures v.plan.groups != [] && v.count <= v.stride && v.dropped + j < |sources|
    ensures Resolves(v.plan, Instantiated(exemplar, fan.paths[k]))
    ensures RowMeans(ops, cat, exemplar, fan.paths[k], sources[v.dropped + i], sources[v.dropped + j],
                     FoldCore(ops, Instantiated(exemplar, fan.paths[k]), v, i, j))
  {
    InstanceResolves(cat, kind, exemplar, selection, opens, fan, k);
    var path := fan.paths[k];
    FoldIsOwed(ops, Instantiated(exemplar, path), v, log, sources, i, j, sources[v.dropped + i], sources[v.dropped + j]);
    forall l | l in exemplar.leaves ensures Lookup(cat, AddressUnder(path, l)).Some? {
      LeafRehomed(exemplar.leaves, path, l);
    }
    OwedRow(ops, cat, exemplar, path, v.plan, sources[v.dropped + i], sources[v.dropped + j]);
  }

  // ----- which exemplars are let through -----

  /** A leaf as resolution makes it: its object's path, a separator, and a name with none. */
  predicate Proper(leaf: LeafCore) {
    Slashless(leaf.name) && leaf.address == ObjectOf(leaf.address) + "/" + leaf.name
  }

  /** The exemplar passes exactly when its first leaf's object has a path and every other
      leaf's object is that one or lies below it in the tree: nested objects pass too. */
  lemma ExemplarPassesIff(leaves: seq<LeafCore>)
    requires leaves != [] && forall k | 0 <= k < |leaves| :: Proper(leaves[k])
    ensures var prefix := ObjectOf(leaves[0].address);
            ExemplarPrefix(leaves) != "" <==>
            prefix != "" && forall k | 0 <= k < |leaves| ::
              ObjectOf(leaves[k].address) == prefix || Under(ObjectOf(leaves[k].address), prefix)
  {
    var prefix := ObjectOf(leaves[0].address);
    forall k | 0 <= k < |leaves|
      ensures Under(leaves[k].address, prefix)
         <==> ObjectOf(leaves[k].address) == prefix || Under(ObjectOf(leaves[k].address), prefix)
    {
    }
  }

  lemma NestedUnder()
    ensures ObjectOf("a/x") == "a" && Under("a/x", "a") && Under("a/b/x", "a") && "a/x" != "a/b/x"
  {
    LastSlashOf("a", "x");
    assert "a/x" == "a" + "/" + "x" && "a/x"[..1] == "a";
    assert "a" + "/" == "a/" && "a/" <= "a/x" && "a/" <= "a/b/x";
    assert |"a/x"| != |"a/b/x"|;
  }

  /** Two leaves of one name in nested objects pass as one object's, and every instance
      reads one address for both: their difference folds to a value less itself. */
  lemma NestedExemplarCollapses<V>(ops: Arith<V>, deltas: Deltas, path: string)
    ensures var core := Core([LeafCore("a/x", "x"), LeafCore("a/b/x", "x")],
                             [ExprNode(0, -1, -1, 0, ops.one), ExprNode(0, -1, -1, 1, ops.one), ExprNode(2, 0, 1, -1, ops.one)]);
            && WellFormed(core) && ExemplarPrefix(core.leaves) == "a" && NodesOk(Instantiated(core, path))
            && var v := ops.ofCount(deltas(path + "/" + "x"));
               Value(ops, deltas, Instantiated(core, path)) == ops.sub(v, v)
  {
    var core := Core([LeafCore("a/x", "x"), LeafCore("a/b/x", "x")],
                     [ExprNode(0, -1, -1, 0, ops.one), ExprNode(0, -1, -1, 1, ops.one), ExprNode(2, 0, 1, -1, ops.one)]);
    NestedUnder();
    assert core.leaves[0].address == "a/x" && core.leaves[1].address == "a/b/x";
  }

}
