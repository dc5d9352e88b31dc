/** `ExprCore` as the source keeps it: two vectors grown in place, and the operators
    over it. Every method is tied to the value it stands for in `Spine`. */
module SpineBuild {
  import opened Spine

  class ExprCore<V> {
    var leaves: seq<LeafCore>
    var nodes: seq<ExprNode<V>>

    function Contents(): Core<V>
      reads this
    {
      Core(leaves, nodes)
    }

    constructor ()
      ensures Contents() == Core([], [])
    {
      leaves, nodes := [], [];
    }

    constructor Copy(value: Core<V>)
      ensures Contents() == value
    {
      leaves, nodes := value.leaves, value.nodes;
    }

    /** The index of the leaf's address, found or appended. */
    method AddLeaf(leaf: LeafCore) returns (index: int)
      modifies this`leaves
      ensures leaves == WithLeaf(old(leaves), leaf)
      ensures index == IndexOf(leaves, leaf.address) && index < |leaves|
    {
      var i := 0;
      while i < |leaves|
        invariant 0 <= i <= |leaves| && leaves == old(leaves)
        invariant forall j | 0 <= j < i :: leaves[j].address != leaf.address
      {
        if leaves[i].address == leaf.address {
          return i;
        }
        i := i + 1;
      }
      leaves := leaves + [leaf];
      index := |leaves| - 1;
      assert leaves[index] == leaf;
    }

    method AddNode(node: ExprNode<V>) returns (index: int)
      modifies this`nodes
      ensures nodes == old(nodes) + [node] && index == |nodes| - 1
    {
      nodes := nodes + [node];
      index := |nodes| - 1;
    }

    method ScaleAll(k: V)
      modifies this`nodes
      ensures Contents() == Scaled(k, old(Contents()))
    {
      var _ := AddNode(ExprNode(4, |nodes| - 1, -1, -1, k));
    }
  }

  /** The first loop of `splice`. The remap of a source leaf is read when it is merged; a
      merged address never moves, so the remap still stands at the end. */
  method MergeLeaves<V>(dst: ExprCore<V>, source: seq<LeafCore>) returns (remap: seq<int>)
    modifies dst`leaves
    ensures dst.leaves == WithLeaves(old(dst.leaves), source) && |remap| == |source|
    ensures forall j | 0 <= j < |source| :: remap[j] == IndexOf(dst.leaves, source[j].address)
  {
    remap := [];
    var i := 0;
    while i < |source|
      invariant 0 <= i <= |source| && |remap| == i
      invariant dst.leaves == WithLeaves(old(dst.leaves), source[..i])
      invariant forall j | 0 <= j < i ::
                  remap[j] == IndexOf(dst.leaves, source[j].address) && remap[j] < |dst.leaves|
    {
      ghost var before := dst.leaves;
      var at := dst.AddLeaf(source[i]);
      remap := remap + [at];
      assert source[..i + 1][..i] == source[..i];
      forall j | 0 <= j < i ensures IndexOf(dst.leaves, source[j].address) == remap[j] {
        IndexStays(before, dst.leaves, source[j].address);
      }
      i := i + 1;
    }
    assert source[..i] == source;
  }

  /** A node with its indices carried over. */
  function Moved<V>(node: ExprNode<V>, base: nat, remap: seq<int>): ExprNode<V>
    requires node.leaf < |remap|
  {
    node.(left := if node.left >= 0 then node.left + base else node.left,
          right := if node.right >= 0 then node.right + base else node.right,
          leaf := if node.leaf >= 0 then remap[node.leaf] else node.leaf)
  }

  /** `splice`: the merged leaves, then every node in the destination's indices. */
  method Splice<V>(dst: ExprCore<V>, src: Core<V>) returns (root: int)
    requires NodesOk(src)
    modifies dst
    ensures dst.Contents() == Spliced(old(dst.Contents()), src)
    ensures root == |old(dst.nodes)| + src.Root()
  {
    var base := |dst.nodes|;
    var remap := MergeLeaves(dst, src.leaves);
    ghost var merged := dst.leaves;
    var n := 0;
    while n < |src.nodes|
      invariant 0 <= n <= |src.nodes| && dst.leaves == merged
      invariant dst.nodes == old(dst.nodes) + ShiftedAll(src.nodes[..n], base, src.leaves, merged)
    {
      var _ := dst.AddNode(Moved(src.nodes[n], base, remap));
      n := n + 1;
    }
    assert src.nodes[..n] == src.nodes;
    root := base + src.Root();
  }

  lemma IndexStays(leaves: seq<LeafCore>, longer: seq<LeafCore>, address: string)
    requires leaves <= longer && IndexOf(leaves, address) < |leaves|
    ensures IndexOf(longer, address) == IndexOf(leaves, address)
  {
    var i := IndexOf(leaves, address);
    assert longer[i] == leaves[i];
    forall j | 0 <= j < i ensures longer[j].address != address {
      assert longer[j] == leaves[j];
    }
  }

  /** A binary node as every operator but division builds it: a copy of the left operand,
      the right one spliced behind it. */
  method Combine<V>(ops: Arith<V>, kind: nat, a: Core<V>, b: Core<V>) returns (out: ExprCore<V>)
    requires NodesOk(b)
    ensures fresh(out) && out.Contents() == Combined(ops, kind, a, b)
  {
    out := new ExprCore.Copy(a);
    var left := a.Root();
    var right := Splice(out, b);
    var _ := out.AddNode(ExprNode(kind, left, right, -1, ops.one));
  }

  /** `operator+`: the sum of its operands over every window. */
  method Add<V>(ops: Arith<V>, a: Core<V>, b: Core<V>) returns (out: ExprCore<V>)
    requires WellFormed(a) && WellFormed(b) && a.nodes != [] && b.nodes != []
    ensures fresh(out) && WellFormed(out.Contents()) && out.Contents().nodes != []
    ensures forall deltas: Deltas ::
              Value(ops, deltas, out.Contents()) == ops.add(Value(ops, deltas, a), Value(ops, deltas, b))
  {
    out := Combine(ops, 1, a, b);
    CombinedMeans(ops, s => 0, 1, a, b);
    forall deltas: Deltas { CombinedMeans(ops, deltas, 1, a, b); }
  }

  /** `operator-`: the difference of its operands over every window. */
  method Subtract<V>(ops: Arith<V>, a: Core<V>, b: Core<V>) returns (out: ExprCore<V>)
    requires WellFormed(a) && WellFormed(b) && a.nodes != [] && b.nodes != []
    ensures fresh(out) && WellFormed(out.Contents()) && out.Contents().nodes != []
    ensures forall deltas: Deltas ::
              Value(ops, deltas, out.Contents()) == ops.sub(Value(ops, deltas, a), Value(ops, deltas, b))
  {
    out := Combine(ops, 2, a, b);
    CombinedMeans(ops, s => 0, 2, a, b);
    forall deltas: Deltas { CombinedMeans(ops, deltas, 2, a, b); }
  }

  /** `operator/`: both operands spliced into an empty spine. */
  method Divide<V>(ops: Arith<V>, a: Core<V>, b: Core<V>) returns (out: ExprCore<V>)
    requires NodesOk(a) && NodesOk(b)
    ensures fresh(out) && out.Contents() == Divided(ops, a, b)
  {
    out := new ExprCore();
    var left := Splice(out, a);
    var right := Splice(out, b);
    var _ := out.AddNode(ExprNode(3, left, right, -1, ops.one));
  }

  /** `operator*` by a scalar: one scale node over the copied operand. */
  method Multiply<V>(k: V, e: Core<V>) returns (out: ExprCore<V>)
    ensures fresh(out) && out.Contents() == Scaled(k, e)
  {
    out := new ExprCore.Copy(e);
    out.ScaleAll(k);
  }
}
