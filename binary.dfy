/**
 * `ProcessTreeToBinaryConverter`: rewrite a process tree so that no block has more than
 * two children. A block with children c1, c2, ..., cn (n > 2) keeps c1 and gets as its
 * second child a new block of the same operator (an exclusive choice for loops and
 * unknown operators) named after it with "_binary" appended, holding the non-null
 * children c2 ... cn; the rewrite then descends into the children, the new block
 * included, so that block is split again when it is still too wide.
 */
module Binary {
  /** The block types of a process tree; `Other` stands for any block type not listed. */
  datatype BlockKind = Seq | And | Xor | Or | Def | PlaceHolder | XorLoop | DefLoop | Other

  /** A node: null, a leaf (task or silent step) or a block with its children in order. */
  datatype PNode = Null | Leaf(name: string) | Block(kind: BlockKind, name: string, children: seq<PNode>)

  function Size(n: PNode): (s: nat)
    ensures s >= 1
  {
    match n
    case Null => 1
    case Leaf(_) => 1
    case Block(_, _, cs) => 1 + SizeAll(cs)
  }

  function SizeAll(cs: seq<PNode>): nat {
    if cs == [] then 0 else Size(cs[0]) + SizeAll(cs[1..])
  }

  /** The type `createBlockOfSameType` gives the new block. */
  function RightKind(kind: BlockKind): (r: BlockKind)
    ensures r != XorLoop && r != DefLoop && r != Other
    ensures kind !in {XorLoop, DefLoop, Other} ==> r == kind
  {
    match kind
    case XorLoop => Xor
    case DefLoop => Xor
    case Seq => Seq
    case And => And
    case Xor => Xor
    case Or => Or
    case Def => Def
    case PlaceHolder => PlaceHolder
    case Other => Xor
  }

  /** `createBlockOfSameType(block)`: an empty block of the new type, named after the
      original with "_binary" appended. */
  function CreateBlockOfSameType(kind: BlockKind, name: string): (b: PNode)
    ensures b.Block? && b.children == [] && b.kind == RightKind(kind)
    ensures |b.name| == |name| + 7 && b.name[..|name|] == name && b.name[|name|..] == "_binary"
  {
    Block(RightKind(kind), name + "_binary", [])
  }

  /** The children of a list that are not null, in order. */
  function Present(cs: seq<PNode>): (r: seq<PNode>)
    ensures Null !in r
    ensures forall c :: c in r <==> c in cs && c != Null
    ensures SizeAll(r) <= SizeAll(cs)
    ensures LeavesAll(r) == LeavesAll(cs)
  {
    if cs == [] then []
    else if cs[0] == Null then Present(cs[1..])
    else [cs[0]] + Present(cs[1..])
  }

  /** The names of the leaves, left to right. */
  function Leaves(n: PNode): seq<string> {
    match n
    case Null => []
    case Leaf(name) => [name]
    case Block(_, _, cs) => LeavesAll(cs)
  }

  function LeavesAll(cs: seq<PNode>): seq<string> {
    if cs == [] then [] else Leaves(cs[0]) + LeavesAll(cs[1..])
  }

  /** `processTreeToBinaryProcessTree(node)`, on the subtree below the node. A wide block
      whose first child is null is left as it is and not descended into. */
  function Convert(n: PNode): PNode
    decreases Size(n), 0
  {
    match n
    case Null => n
    case Leaf(_) => n
    case Block(kind, name, cs) =>
      if |cs| > 2 then
        if cs[0] == Null then n
        else
          var right := Block(RightKind(kind), name + "_binary", Present(cs[1..]));
          assert Size(right) < Size(n) by {
            assert SizeAll(cs) == Size(cs[0]) + SizeAll(cs[1..]);
          }
          Block(kind, name, [Convert(cs[0]), Convert(right)])
      else Block(kind, name, ConvertAll(cs))
  }

  /** The descent into each child; a null child stays null. */
  function ConvertAll(cs: seq<PNode>): (r: seq<PNode>)
    ensures |r| == |cs|
    decreases SizeAll(cs), 1
  {
    if cs == [] then [] else [Convert(cs[0])] + ConvertAll(cs[1..])
  }

  /** No block has more than two children, except blocks with a null first child, which
      the conversion leaves untouched (with all below them). */
  ghost predicate Settled(n: PNode) {
    match n
    case Null => true
    case Leaf(_) => true
    case Block(_, _, cs) =>
      if |cs| > 2 then cs[0] == Null
      else forall i :: 0 <= i < |cs| ==> Settled(cs[i])
  }

  /** No block has more than two children. */
  ghost predicate IsBinary(n: PNode) {
    match n
    case Null => true
    case Leaf(_) => true
    case Block(_, _, cs) => |cs| <= 2 && forall i :: 0 <= i < |cs| ==> IsBinary(cs[i])
  }

  /** No block with more than two children has a null first child. */
  ghost predicate NoNullHead(n: PNode) {
    match n
    case Null => true
    case Leaf(_) => true
    case Block(_, _, cs) => (|cs| > 2 ==> cs[0] != Null) && forall i :: 0 <= i < |cs| ==> NoNullHead(cs[i])
  }

  /** One level of the conversion. Null and leaves are left alone; a block of at most two
      children keeps its type, name and number of children, each converted; a wide block
      with a null first child is left alone; any other wide block keeps its type and name
      and gets exactly two children: its old first child, converted, and a new block of
      the type `RightKind` chooses, named with "_binary" appended, holding the other
      non-null children in their order, converted in turn. */
  lemma ConvertStep(n: PNode)
    ensures n.Null? || n.Leaf? ==> Convert(n) == n
    ensures n.Block? && |n.children| <= 2 ==>
      Convert(n).Block? && Convert(n).kind == n.kind && Convert(n).name == n.name &&
      |Convert(n).children| == |n.children| &&
      forall i :: 0 <= i < |n.children| ==> Convert(n).children[i] == Convert(n.children[i])
    ensures n.Block? && |n.children| > 2 && n.children[0] == Null ==> Convert(n) == n
    ensures n.Block? && |n.children| > 2 && n.children[0] != Null ==>
      Convert(n).Block? && Convert(n).kind == n.kind && Convert(n).name == n.name &&
      Convert(n).children ==
        [Convert(n.children[0]), Convert(Block(RightKind(n.kind), n.name + "_binary", Present(n.children[1..])))]
  {
    if n.Block? && |n.children| <= 2 {
      forall i | 0 <= i < |n.children| ensures ConvertAll(n.children)[i] == Convert(n.children[i]) {
        ConvertAllAt(n.children, i);
      }
    }
  }

  /** After the conversion every block is binary or was left untouched. */
  lemma {:induction false} ConvertSettles(n: PNode)
    ensures Settled(Convert(n))
    decreases Size(n)
  {
    match n
    case Null =>
    case Leaf(_) =>
    case Block(kind, name, cs) =>
      if |cs| > 2 {
        if cs[0] != Null {
          var right := Block(RightKind(kind), name + "_binary", Present(cs[1..]));
          assert SizeAll(cs) == Size(cs[0]) + SizeAll(cs[1..]);
          ConvertSettles(cs[0]);
          ConvertSettles(right);
        }
      } else {
        var r := ConvertAll(cs);
        forall i | 0 <= i < |r| ensures Settled(r[i]) {
          ConvertAllAt(cs, i);
          SizeAllAt(cs, i);
          ConvertSettles(cs[i]);
        }
      }
  }

  /** Without null first children in wide blocks, the result is a binary tree. */
  lemma {:induction false} ConvertBinary(n: PNode)
    requires NoNullHead(n)
    ensures IsBinary(Convert(n))
    decreases Size(n)
  {
    match n
    case Null =>
    case Leaf(_) =>
    case Block(kind, name, cs) =>
      if |cs| > 2 {
        var right := Block(RightKind(kind), name + "_binary", Present(cs[1..]));
        assert SizeAll(cs) == Size(cs[0]) + SizeAll(cs[1..]);
        PresentNoNullHead(kind, name, cs);
        ConvertBinary(cs[0]);
        ConvertBinary(right);
      } else {
        var r := ConvertAll(cs);
        forall i | 0 <= i < |r| ensures IsBinary(r[i]) {
          ConvertAllAt(cs, i);
          SizeAllAt(cs, i);
          ConvertBinary(cs[i]);
        }
      }
  }

  /** The new block of a split holds children of the split block, so it inherits the
      absence of null first children below them. */
  lemma PresentNoNullHead(kind: BlockKind, name: string, cs: seq<PNode>)
    requires |cs| > 0
    requires forall i :: 0 <= i < |cs| ==> NoNullHead(cs[i])
    ensures NoNullHead(Block(RightKind(kind), name + "_binary", Present(cs[1..])))
  {
    var rs := Present(cs[1..]);
    forall i | 0 <= i < |rs| ensures NoNullHead(rs[i]) {
      assert rs[i] in cs[1..];
      var j :| 0 <= j < |cs[1..]| && cs[1..][j] == rs[i];
      assert cs[j + 1] == rs[i];
    }
  }

  /** The conversion keeps the leaves and their left-to-right order: a split only regroups
      the children, and the children it drops are null. */
  lemma {:induction false} ConvertKeepsLeaves(n: PNode)
    ensures Leaves(Convert(n)) == Leaves(n)
    decreases Size(n), 0
  {
    match n
    case Null =>
    case Leaf(_) =>
    case Block(kind, name, cs) =>
      if |cs| > 2 {
        if cs[0] != Null {
          var right := Block(RightKind(kind), name + "_binary", Present(cs[1..]));
          assert SizeAll(cs) == Size(cs[0]) + SizeAll(cs[1..]);
          ConvertKeepsLeaves(cs[0]);
          ConvertKeepsLeaves(right);
          var l, rr := Convert(cs[0]), Convert(right);
          assert LeavesAll([l, rr]) == Leaves(l) + LeavesAll([rr]) by {
            assert [l, rr][1..] == [rr];
          }
          assert LeavesAll([rr]) == Leaves(rr) by {
            assert [rr][1..] == [];
          }
        }
      } else {
        ConvertAllKeepsLeaves(cs);
      }
  }

  lemma {:induction false} ConvertAllKeepsLeaves(cs: seq<PNode>)
    ensures LeavesAll(ConvertAll(cs)) == LeavesAll(cs)
    decreases SizeAll(cs), 1
  {
    if cs != [] {
      ConvertKeepsLeaves(cs[0]);
      ConvertAllKeepsLeaves(cs[1..]);
      var r := ConvertAll(cs);
      assert r[1..] == ConvertAll(cs[1..]);
    }
  }

  /** A settled tree is a fixed point of the conversion. */
  lemma {:induction false} SettledFixed(n: PNode)
    requires Settled(n)
    ensures Convert(n) == n
    decreases Size(n), 0
  {
    match n
    case Null =>
    case Leaf(_) =>
    case Block(kind, name, cs) =>
      if |cs| <= 2 {
        SettledAllFixed(cs);
      }
  }

  lemma {:induction false} SettledAllFixed(cs: seq<PNode>)
    requires forall i :: 0 <= i < |cs| ==> Settled(cs[i])
    ensures ConvertAll(cs) == cs
    decreases SizeAll(cs), 1
  {
    if cs != [] {
      SettledFixed(cs[0]);
      SettledAllFixed(cs[1..]);
      assert cs == [cs[0]] + cs[1..];
    }
  }

  /** Converting twice is the same as converting once. */
  lemma ConvertIdempotent(n: PNode)
    ensures Convert(Convert(n)) == Convert(n)
  {
    ConvertSettles(n);
    SettledFixed(Convert(n));
  }

  lemma ConvertAllAt(cs: seq<PNode>, i: nat)
    requires i < |cs|
    ensures ConvertAll(cs)[i] == Convert(cs[i])
    decreases i
  {
    if i > 0 {
      ConvertAllAt(cs[1..], i - 1);
    }
  }

  lemma SizeAllAt(cs: seq<PNode>, i: nat)
    requires i < |cs|
    ensures Size(cs[i]) <= SizeAll(cs)
    decreases i
  {
    if i > 0 {
      SizeAllAt(cs[1..], i - 1);
    }
  }

  /** A process tree: its root node, possibly null. */
  class ProcessTree {
    var root: PNode

    constructor (root: PNode)
      ensures this.root == root
    {
      this.root := root;
    }

    /** `processTreeToBinaryProcessTree(tree)`: the tree is rewritten in place and
        returned; a null root is left alone. */
    method ToBinary() returns (r: ProcessTree)
      modifies this
      ensures r == this
      ensures root == Convert(old(root))
      ensures old(root) == Null ==> root == Null
      ensures Settled(root) && Leaves(root) == Leaves(old(root))
      ensures NoNullHead(old(root)) ==> IsBinary(root)
    {
      var n := root;
      ConvertSettles(n);
      ConvertKeepsLeaves(n);
      if NoNullHead(n) {
        ConvertBinary(n);
      }
      root := Convert(n);
      r := this;
    }
  }
}
