/**
 The expression spine: index-based nodes over leaves deduplicated by address, the
 operators that build it, and the evaluator a fold runs over it.

 The arithmetic is a parameter: every result holds for any operations on any type,
 so no law of floating point is used.
 */
module Spine {
  import opened Common

  // ----- data -----

  /** A resolved leaf; the address is its identity. */
  datatype LeafCore = LeafCore(address: string, name: string)

  /** Kinds: 0 leaf, 1 add, 2 subtract, 3 divide, 4 scale, literal or product,
      5 minimum, 6 maximum. An index below zero stands for no operand. */
  datatype ExprNode<V> = ExprNode(kind: nat, left: int, right: int, leaf: int, scale: V)

  datatype Core<V> = Core(leaves: seq<LeafCore>, nodes: seq<ExprNode<V>>) {
    /** The index of the root: the last node. */
    function Root(): int {
      |nodes| - 1
    }
  }

  /** The operations a fold computes with. */
  datatype Arith<!V> = Arith(
    ofCount: nat -> V,
    one: V,
    add: (V, V) -> V,
    sub: (V, V) -> V,
    div: (V, V) -> V,
    mul: (V, V) -> V,
    min: (V, V) -> V,
    max: (V, V) -> V)

  // ----- well-formed spines -----

  /** Operands index below their parent, and leaves index into the leaf list. */
  predicate NodeOk<V>(node: ExprNode<V>, index: nat, leafCount: nat) {
    && node.leaf < leafCount
    && (if node.kind == 0 then 0 <= node.leaf
        else if node.kind == 4 then node.left < index && node.right < index
        else 0 <= node.left < index && 0 <= node.right < index)
  }

  predicate NodesOk<V>(core: Core<V>) {
    forall i: nat | i < |core.nodes| :: NodeOk(core.nodes[i], i, |core.leaves|)
  }

  predicate Distinct(leaves: seq<LeafCore>) {
    forall i, j | 0 <= i < j < |leaves| :: leaves[i].address != leaves[j].address
  }

  ghost predicate WellFormed<V>(core: Core<V>) {
    NodesOk(core) && Distinct(core.leaves)
  }

  // ----- the evaluator -----

  type Deltas = string -> nat

  /** `eval`: one node over the leaf deltas of a window. */
  function Eval<V>(ops: Arith<V>, deltas: Deltas, core: Core<V>, index: nat): V
    requires NodesOk(core) && index < |core.nodes|
    decreases index
  {
    var node := core.nodes[index];
    assert NodeOk(node, index, |core.leaves|);
    if node.kind == 0 then ops.ofCount(deltas(core.leaves[node.leaf].address))
    else if node.kind == 4 then
      if node.left < 0 then node.scale
      else
        var left := Eval(ops, deltas, core, node.left);
        if node.right < 0 then ops.mul(node.scale, left)
        else ops.mul(ops.mul(node.scale, left), Eval(ops, deltas, core, node.right))
    else Apply(ops, node.kind, Eval(ops, deltas, core, node.left), Eval(ops, deltas, core, node.right))
  }

  /** The binary kinds; every kind the switch does not name divides. */
  function Apply<V>(ops: Arith<V>, kind: nat, left: V, right: V): V {
    match kind
    case 1 => ops.add(left, right)
    case 2 => ops.sub(left, right)
    case 5 => ops.min(left, right)
    case 6 => ops.max(left, right)
    case _ => ops.div(left, right)
  }

  // ----- leaves -----

  /** The first position carrying the address, or the length. */
  function IndexOf(leaves: seq<LeafCore>, address: string): (i: nat)
    ensures i <= |leaves|
    ensures i < |leaves| ==> leaves[i].address == address
    ensures forall j | 0 <= j < i :: leaves[j].address != address
  {
    if leaves == [] then 0
    else if leaves[0].address == address then 0
    else
      var rest := IndexOf(leaves[1..], address);
      assert forall j | 0 < j <= rest && j < |leaves| :: leaves[j] == leaves[1..][j - 1];
      rest + 1
  }

  function WithLeaf(leaves: seq<LeafCore>, leaf: LeafCore): seq<LeafCore> {
    if IndexOf(leaves, leaf.address) < |leaves| then leaves else leaves + [leaf]
  }

  function WithLeaves(leaves: seq<LeafCore>, more: seq<LeafCore>): seq<LeafCore>
    decreases |more|
  {
    if more == [] then leaves
    else WithLeaf(WithLeaves(leaves, more[..|more| - 1]), more[|more| - 1])
  }

  /** Merging leaves keeps the earlier ones in place, finds every merged address, and
      adds nothing else; distinct addresses stay distinct. */
  lemma {:induction false} WithLeavesMerges(leaves: seq<LeafCore>, more: seq<LeafCore>)
    ensures leaves <= WithLeaves(leaves, more)
    ensures Distinct(leaves) ==> Distinct(WithLeaves(leaves, more))
    ensures forall k | 0 <= k < |more| :: IndexOf(WithLeaves(leaves, more), more[k].address) < |WithLeaves(leaves, more)|
    ensures forall l | l in WithLeaves(leaves, more) :: l in leaves || l in more
    decreases |more|
  {
    if more != [] {
      var front := more[..|more| - 1];
      WithLeavesMerges(leaves, front);
      var before := WithLeaves(leaves, front);
      var after := WithLeaves(leaves, more);
      forall k | 0 <= k < |more| ensures IndexOf(after, more[k].address) < |after| {
        if k < |front| {
          assert front[k] == more[k];
          var i := IndexOf(before, more[k].address);
          assert after[i].address == more[k].address;
        } else if IndexOf(before, more[k].address) == |before| {
          assert after[|before|].address == more[k].address;
        }
      }
    }
  }

  // ----- splicing -----

  /** A source node in the destination's indices. */
  function Shifted<V>(node: ExprNode<V>, base: nat, source: seq<LeafCore>, merged: seq<LeafCore>): ExprNode<V>
    requires node.leaf < |source|
  {
    node.(left := if node.left >= 0 then node.left + base else node.left,
          right := if node.right >= 0 then node.right + base else node.right,
          leaf := if node.leaf >= 0 then IndexOf(merged, source[node.leaf].address) else node.leaf)
  }

  function ShiftedAll<V>(nodes: seq<ExprNode<V>>, base: nat, source: seq<LeafCore>, merged: seq<LeafCore>)
    : (r: seq<ExprNode<V>>)
    requires forall n | n in nodes :: n.leaf < |source|
    ensures |r| == |nodes|
    ensures forall i | 0 <= i < |nodes| :: r[i] == Shifted(nodes[i], base, source, merged)
    decreases |nodes|
  {
    if nodes == [] then []
    else ShiftedAll(nodes[..|nodes| - 1], base, source, merged) + [Shifted(nodes[|nodes| - 1], base, source, merged)]
  }

  /** `splice`: the whole source behind the destination's nodes, its leaves merged. */
  function Spliced<V>(dst: Core<V>, src: Core<V>): Core<V>
    requires NodesOk(src)
  {
    var merged := WithLeaves(dst.leaves, src.leaves);
    Core(merged, dst.nodes + ShiftedAll(src.nodes, |dst.nodes|, src.leaves, merged))
  }

  lemma SpliceWellFormed<V>(dst: Core<V>, src: Core<V>)
    requires WellFormed(dst) && NodesOk(src)
    ensures WellFormed(Spliced(dst, src))
    ensures |Spliced(dst, src).nodes| == |dst.nodes| + |src.nodes|
    ensures dst.leaves <= Spliced(dst, src).leaves && dst.nodes <= Spliced(dst, src).nodes
  {
    var out := Spliced(dst, src);
    WithLeavesMerges(dst.leaves, src.leaves);
    forall i: nat | i < |out.nodes| ensures NodeOk(out.nodes[i], i, |out.leaves|) {
      if i < |dst.nodes| {
        assert NodeOk(dst.nodes[i], i, |dst.leaves|);
      } else {
        assert NodeOk(src.nodes[i - |dst.nodes|], i - |dst.nodes|, |src.leaves|);
      }
    }
  }

  /** Extending a spine leaves every earlier node's value alone. */
  lemma {:induction false} EvalExtends<V>(ops: Arith<V>, deltas: Deltas, core: Core<V>, longer: Core<V>, i: nat)
    requires NodesOk(core) && NodesOk(longer) && core.leaves <= longer.leaves && core.nodes <= longer.nodes
    requires i < |core.nodes|
    ensures Eval(ops, deltas, longer, i) == Eval(ops, deltas, core, i)
    decreases i
  {
    var node := core.nodes[i];
    assert NodeOk(node, i, |core.leaves|);
    assert longer.nodes[i] == node;
    if node.kind != 0 {
      if 0 <= node.left { EvalExtends(ops, deltas, core, longer, node.left); }
      if 0 <= node.right { EvalExtends(ops, deltas, core, longer, node.right); }
    }
  }

  /** A spliced node evaluates as it did in its source, whatever leaves the two share. */
  lemma {:induction false} EvalSpliced<V>(ops: Arith<V>, deltas: Deltas, dst: Core<V>, src: Core<V>, i: nat)
    requires WellFormed(dst) && NodesOk(src) && i < |src.nodes|
    ensures NodesOk(Spliced(dst, src)) && |dst.nodes| + i < |Spliced(dst, src).nodes|
    ensures Eval(ops, deltas, Spliced(dst, src), |dst.nodes| + i) == Eval(ops, deltas, src, i)
    decreases i
  {
    SpliceWellFormed(dst, src);
    WithLeavesMerges(dst.leaves, src.leaves);
    var node := src.nodes[i];
    assert NodeOk(node, i, |src.leaves|);
    assert Spliced(dst, src).nodes[|dst.nodes| + i]
        == Shifted(node, |dst.nodes|, src.leaves, WithLeaves(dst.leaves, src.leaves));
    if node.kind != 0 {
      if 0 <= node.left { EvalSpliced(ops, deltas, dst, src, node.left); }
      if 0 <= node.right { EvalSpliced(ops, deltas, dst, src, node.right); }
    }
  }

  // ----- the operators -----

  function WithNode<V>(core: Core<V>, node: ExprNode<V>): Core<V> {
    core.(nodes := core.nodes + [node])
  }

  function OfLeaf<V>(ops: Arith<V>, leaf: LeafCore): Core<V> {
    Core([leaf], [ExprNode(0, -1, -1, 0, ops.one)])
  }

  function OfLiteral<V>(value: V): Core<V> {
    Core([], [ExprNode(4, -1, -1, -1, value)])
  }

  function Scaled<V>(k: V, e: Core<V>): Core<V> {
    WithNode(e, ExprNode(4, e.Root(), -1, -1, k))
  }

  /** `a op b` of every binary operator but division: the left operand copied, the
      right one spliced, one node over both roots. */
  function Combined<V>(ops: Arith<V>, kind: nat, a: Core<V>, b: Core<V>): Core<V>
    requires NodesOk(b)
  {
    var right := |a.nodes| + b.Root();
    WithNode(Spliced(a, b), ExprNode(kind, a.Root(), right, -1, ops.one))
  }

  /** `a / b`: both operands spliced into an empty spine. */
  function Divided<V>(ops: Arith<V>, a: Core<V>, b: Core<V>): Core<V>
    requires NodesOk(a) && NodesOk(b)
  {
    var merged := Spliced(Core([], []), a);
    var right := |merged.nodes| + b.Root();
    WithNode(Spliced(merged, b), ExprNode(3, a.Root(), right, -1, ops.one))
  }

  /** The value of a whole spine. */
  function Value<V>(ops: Arith<V>, deltas: Deltas, core: Core<V>): V
    requires NodesOk(core) && core.nodes != []
  {
    Eval(ops, deltas, core, core.Root())
  }

  /** A binary operator as it is written. */
  datatype Operator = Plus | Minus | Over | Times | Least | Greatest

  /** `spineKind`: the node kind each operator writes. */
  function KindOf(op: Operator): nat {
    match op
    case Plus => 1
    case Minus => 2
    case Over => 3
    case Times => 4
    case Least => 5
    case Greatest => 6
  }

  /** What a binary node evaluates to, kind by kind: a product carries the neutral factor,
      and a kind the switch does not name divides. */
  lemma CombinedMeans<V>(ops: Arith<V>, deltas: Deltas, kind: nat, a: Core<V>, b: Core<V>)
    requires WellFormed(a) && NodesOk(b) && a.nodes != [] && b.nodes != [] && kind != 0
    ensures WellFormed(Combined(ops, kind, a, b)) && Combined(ops, kind, a, b).nodes != []
    ensures var left, right, out := Value(ops, deltas, a), Value(ops, deltas, b), Value(ops, deltas, Combined(ops, kind, a, b));
            && (kind == 1 ==> out == ops.add(left, right))
            && (kind == 2 ==> out == ops.sub(left, right))
            && (kind == 3 || kind > 6 ==> out == ops.div(left, right))
            && (kind == 4 ==> out == ops.mul(ops.mul(ops.one, left), right))
            && (kind == 5 ==> out == ops.min(left, right))
            && (kind == 6 ==> out == ops.max(left, right))
  {
    var both := Spliced(a, b);
    var out := Combined(ops, kind, a, b);
    SpliceWellFormed(a, b);
    EvalExtends(ops, deltas, a, both, a.Root());
    EvalSpliced(ops, deltas, a, b, b.Root());
    EvalExtends(ops, deltas, both, out, a.Root());
    EvalExtends(ops, deltas, both, out, |a.nodes| + b.Root());
  }

  lemma ScaledMeans<V>(ops: Arith<V>, deltas: Deltas, k: V, e: Core<V>)
    requires WellFormed(e) && e.nodes != []
    ensures WellFormed(Scaled(k, e))
    ensures Value(ops, deltas, Scaled(k, e)) == ops.mul(k, Value(ops, deltas, e))
  {
    EvalExtends(ops, deltas, e, Scaled(k, e), e.Root());
  }

  /** Splicing into an empty spine copies: the two ways the operators start agree. */
  lemma SpliceIntoEmpty<V>(e: Core<V>)
    requires WellFormed(e)
    ensures Spliced(Core([], []), e) == e
  {
    LeavesFromEmpty(e.leaves);
    var out := Spliced(Core([], []), e);
    forall i: nat | i < |e.nodes| ensures out.nodes[i] == e.nodes[i] {
      assert NodeOk(e.nodes[i], i, |e.leaves|);
    }
    assert out.nodes == e.nodes;
  }

  lemma {:induction false} LeavesFromEmpty(leaves: seq<LeafCore>)
    requires Distinct(leaves)
    ensures WithLeaves([], leaves) == leaves
    decreases |leaves|
  {
    if leaves != [] {
      var front := leaves[..|leaves| - 1];
      LeavesFromEmpty(front);
      forall i | 0 <= i < |front| ensures front[i].address != leaves[|leaves| - 1].address {
        assert front[i] == leaves[i];
      }
    }
  }

  lemma DividedMeans<V>(ops: Arith<V>, deltas: Deltas, a: Core<V>, b: Core<V>)
    requires WellFormed(a) && NodesOk(b) && a.nodes != [] && b.nodes != []
    ensures Divided(ops, a, b) == Combined(ops, 3, a, b)
    ensures WellFormed(Divided(ops, a, b))
    ensures Value(ops, deltas, Divided(ops, a, b)) == ops.div(Value(ops, deltas, a), Value(ops, deltas, b))
  {
    SpliceIntoEmpty(a);
    CombinedMeans(ops, deltas, 3, a, b);
  }

  // ----- empty operands -----

  /** An operator keeps a spine well formed exactly when its left operand holds a node. */
  lemma CombinedWellFormedIff<V>(ops: Arith<V>, kind: nat, a: Core<V>, b: Core<V>)
    requires WellFormed(a) && WellFormed(b) && kind != 0 && kind != 4
    ensures WellFormed(Combined(ops, kind, a, b)) <==> a.nodes != []
  {
    var out := Combined(ops, kind, a, b);
    SpliceWellFormed(a, b);
    if a.nodes == [] {
      var last: nat := |out.nodes| - 1;
      assert !NodeOk(out.nodes[last], last, |out.leaves|);
    }
  }

  /** A sum with an empty left operand and one leaf: its left child is no node. */
  lemma EmptyLeftHasNoNode<V>(ops: Arith<V>, leaf: LeafCore)
    ensures var out := Combined(ops, 1, Core([], []), OfLeaf(ops, leaf));
            |out.nodes| == 2 && out.nodes[1].kind == 1 && out.nodes[1].left == -1 && !NodesOk(out)
  {
  }

  /** An empty right operand is not refused: the left operand stands in for it. */
  lemma EmptyRightRepeatsLeft<V>(ops: Arith<V>, deltas: Deltas, kind: nat, a: Core<V>)
    requires WellFormed(a) && a.nodes != [] && kind != 0 && kind != 4
    ensures var out := Combined(ops, kind, a, Core([], []));
            && WellFormed(out)
            && var left, value := Value(ops, deltas, a), Value(ops, deltas, out);
               && (kind == 1 ==> value == ops.add(left, left))
               && (kind == 2 ==> value == ops.sub(left, left))
               && (kind == 3 || kind > 6 ==> value == ops.div(left, left))
               && (kind == 5 ==> value == ops.min(left, left))
               && (kind == 6 ==> value == ops.max(left, left))
  {
    var none := Core([], []);
    CombinedWellFormedIff(ops, kind, a, none);
    EvalExtends(ops, deltas, a, Combined(ops, kind, a, none), a.Root());
  }

  // ----- expressions as they are written -----

  /** A composition as a caller or a formula spells it. */
  datatype Expr<V> =
    | Leaf(leaf: LeafCore)
    | Literal(value: V)
    | Scale(k: V, operand: Expr<V>)
    | Binary(op: Operator, left: Expr<V>, right: Expr<V>)
    | Quotient(left: Expr<V>, right: Expr<V>)

  /** The direct meaning of an expression over leaf deltas. */
  function Meaning<V>(ops: Arith<V>, deltas: Deltas, e: Expr<V>): V {
    match e
    case Leaf(leaf) => ops.ofCount(deltas(leaf.address))
    case Literal(v) => v
    case Scale(k, a) => ops.mul(k, Meaning(ops, deltas, a))
    case Binary(Plus, a, b) => ops.add(Meaning(ops, deltas, a), Meaning(ops, deltas, b))
    case Binary(Minus, a, b) => ops.sub(Meaning(ops, deltas, a), Meaning(ops, deltas, b))
    case Binary(Over, a, b) => ops.div(Meaning(ops, deltas, a), Meaning(ops, deltas, b))
    case Binary(Times, a, b) => ops.mul(ops.mul(ops.one, Meaning(ops, deltas, a)), Meaning(ops, deltas, b))
    case Binary(Least, a, b) => ops.min(Meaning(ops, deltas, a), Meaning(ops, deltas, b))
    case Binary(Greatest, a, b) => ops.max(Meaning(ops, deltas, a), Meaning(ops, deltas, b))
    case Quotient(a, b) => ops.div(Meaning(ops, deltas, a), Meaning(ops, deltas, b))
  }

  function Addresses<V>(e: Expr<V>): set<string> {
    match e
    case Leaf(leaf) => {leaf.address}
    case Literal(_) => {}
    case Scale(_, a) => Addresses(a)
    case Binary(_, a, b) => Addresses(a) + Addresses(b)
    case Quotient(a, b) => Addresses(a) + Addresses(b)
  }

  /** The spine the operators build for an expression. */
  function Build<V>(ops: Arith<V>, e: Expr<V>): (core: Core<V>)
    ensures WellFormed(core) && core.nodes != []
  {
    match e
    case Leaf(leaf) => OfLeaf(ops, leaf)
    case Literal(v) => OfLiteral(v)
    case Scale(k, a) =>
      var core := Build(ops, a);
      Scaled(k, core)
    case Binary(op, a, b) =>
      var left, right := Build(ops, a), Build(ops, b);
      CombinedMeans(ops, s => 0, KindOf(op), left, right);
      Combined(ops, KindOf(op), left, right)
    case Quotient(a, b) =>
      var left, right := Build(ops, a), Build(ops, b);
      DividedMeans(ops, s => 0, left, right);
      Divided(ops, left, right)
  }

  /** Building preserves meaning: the spine of any expression evaluates to the
      expression, over any arithmetic and any deltas. */
  lemma {:induction false} BuildPreservesMeaning<V>(ops: Arith<V>, deltas: Deltas, e: Expr<V>)
    ensures Value(ops, deltas, Build(ops, e)) == Meaning(ops, deltas, e)
  {
    match e
    case Leaf(_) =>
    case Literal(_) =>
    case Scale(k, a) =>
      BuildPreservesMeaning(ops, deltas, a);
      ScaledMeans(ops, deltas, k, Build(ops, a));
    case Binary(op, a, b) =>
      BuildPreservesMeaning(ops, deltas, a);
      BuildPreservesMeaning(ops, deltas, b);
      CombinedMeans(ops, deltas, KindOf(op), Build(ops, a), Build(ops, b));
    case Quotient(a, b) =>
      BuildPreservesMeaning(ops, deltas, a);
      BuildPreservesMeaning(ops, deltas, b);
      DividedMeans(ops, deltas, Build(ops, a), Build(ops, b));
  }

  function AddressesOf(leaves: seq<LeafCore>): set<string> {
    set l | l in leaves :: l.address
  }

  lemma MergedAddresses(leaves: seq<LeafCore>, more: seq<LeafCore>)
    ensures AddressesOf(WithLeaves(leaves, more)) == AddressesOf(leaves) + AddressesOf(more)
  {
    var all := WithLeaves(leaves, more);
    WithLeavesMerges(leaves, more);
    forall a | a in AddressesOf(leaves) + AddressesOf(more) ensures a in AddressesOf(all) {
      if a in AddressesOf(leaves) {
        var i :| 0 <= i < |leaves| && leaves[i].address == a;
        assert all[i] in all;
      } else {
        var k :| 0 <= k < |more| && more[k].address == a;
        assert all[IndexOf(all, a)] in all;
      }
    }
  }

  /** The spine's leaves are exactly the expression's, each address once. */
  lemma {:induction false} BuildLeaves<V>(ops: Arith<V>, e: Expr<V>)
    ensures AddressesOf(Build(ops, e).leaves) == Addresses(e) && Distinct(Build(ops, e).leaves)
  {
    match e
    case Leaf(_) =>
    case Literal(_) =>
    case Scale(_, a) => BuildLeaves(ops, a);
    case Binary(_, a, b) =>
      BuildLeaves(ops, a);
      BuildLeaves(ops, b);
      MergedAddresses(Build(ops, a).leaves, Build(ops, b).leaves);
    case Quotient(a, b) =>
      BuildLeaves(ops, a);
      BuildLeaves(ops, b);
      SpliceIntoEmpty(Build(ops, a));
      MergedAddresses(Build(ops, a).leaves, Build(ops, b).leaves);
  }

  /** The first leaf an expression names, if it names one. */
  function FirstAddress<V>(e: Expr<V>): Option<string> {
    match e
    case Leaf(leaf) => Some(leaf.address)
    case Literal(_) => None
    case Scale(_, a) => FirstAddress(a)
    case Binary(_, a, b) => if FirstAddress(a).Some? then FirstAddress(a) else FirstAddress(b)
    case Quotient(a, b) => if FirstAddress(a).Some? then FirstAddress(a) else FirstAddress(b)
  }

  ghost predicate StartsWith(leaves: seq<LeafCore>, first: Option<string>) {
    if first.Some? then leaves != [] && leaves[0].address == first.value else leaves == []
  }

  lemma MergedStart(leaves: seq<LeafCore>, more: seq<LeafCore>, first: Option<string>, second: Option<string>)
    requires StartsWith(leaves, first) && StartsWith(more, second) && Distinct(more)
    ensures StartsWith(WithLeaves(leaves, more), if first.Some? then first else second)
  {
    WithLeavesMerges(leaves, more);
    if first.None? { LeavesFromEmpty(more); }
  }

  /** The spine's first leaf is the first the expression names. */
  lemma {:induction false} BuildStarts<V>(ops: Arith<V>, e: Expr<V>)
    ensures StartsWith(Build(ops, e).leaves, FirstAddress(e))
  {
    match e
    case Leaf(_) =>
    case Literal(_) =>
    case Scale(_, a) => BuildStarts(ops, a);
    case Binary(_, a, b) =>
      BuildStarts(ops, a);
      BuildStarts(ops, b);
      MergedStart(Build(ops, a).leaves, Build(ops, b).leaves, FirstAddress(a), FirstAddress(b));
    case Quotient(a, b) =>
      BuildStarts(ops, a);
      BuildStarts(ops, b);
      SpliceIntoEmpty(Build(ops, a));
      MergedStart(Build(ops, a).leaves, Build(ops, b).leaves, FirstAddress(a), FirstAddress(b));
  }

  /** The meaning reads nothing but the change of each address. */
  lemma {:induction false} MeaningIsPointwise<V>(ops: Arith<V>, d: Deltas, f: Deltas, e: Expr<V>)
    requires forall a | a in Addresses(e) :: d(a) == f(a)
    ensures Meaning(ops, d, e) == Meaning(ops, f, e)
  {
    match e
    case Leaf(_) =>
    case Literal(_) =>
    case Scale(_, a) => MeaningIsPointwise(ops, d, f, a);
    case Binary(_, a, b) =>
      MeaningIsPointwise(ops, d, f, a);
      MeaningIsPointwise(ops, d, f, b);
    case Quotient(a, b) =>
      MeaningIsPointwise(ops, d, f, a);
      MeaningIsPointwise(ops, d, f, b);
  }
}
