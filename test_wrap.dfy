/**
 * `wrapWithStartEnd` of `MkAbstractionTest`: a new process tree whose root is a sequence
 * of a start marker and a second sequence, which holds the original root followed by an
 * end marker. Both markers are tasks labelled "-", and both sequences are unnamed.
 */
module StartEnd {
  import opened Binary

  const MARKER: string := "-"

  /** The root of the wrapped tree. */
  function Wrapped(root: PNode): (w: PNode)
    ensures w.Block? && w.kind == Seq && |w.children| == 2 && w.children[0] == Leaf(MARKER)
    ensures w.children[1].Block? && w.children[1].kind == Seq && w.children[1].children == [root, Leaf(MARKER)]
  {
    Block(Seq, "", [Leaf(MARKER), Block(Seq, "", [root, Leaf(MARKER)])])
  }

  /** The wrapped tree runs the markers around the original's leaves. */
  lemma WrappedLeaves(root: PNode)
    ensures Leaves(Wrapped(root)) == [MARKER] + Leaves(root) + [MARKER]
  {
    var inner := Block(Seq, "", [root, Leaf(MARKER)]);
    assert LeavesAll([root, Leaf(MARKER)]) == Leaves(root) + LeavesAll([Leaf(MARKER)]) by {
      assert [root, Leaf(MARKER)][1..] == [Leaf(MARKER)];
    }
    assert LeavesAll([Leaf(MARKER)]) == [MARKER] by {
      assert [Leaf(MARKER)][1..] == [];
    }
    assert LeavesAll([Leaf(MARKER), inner]) == [MARKER] + LeavesAll([inner]) by {
      assert [Leaf(MARKER), inner][1..] == [inner];
    }
    assert LeavesAll([inner]) == Leaves(inner) by {
      assert [inner][1..] == [];
    }
  }

  /** Both new blocks have two children, so wrapping and the binary conversion commute. */
  lemma WrappedConvert(root: PNode)
    ensures Convert(Wrapped(root)) == Wrapped(Convert(root))
  {
    var inner := Block(Seq, "", [root, Leaf(MARKER)]);
    ConvertStep(inner);
    ConvertStep(Wrapped(root));
    ConvertStep(Leaf(MARKER));
    var ci := Convert(inner);
    assert ci.children == [Convert(root), Leaf(MARKER)];
    assert ci == Block(Seq, "", [Convert(root), Leaf(MARKER)]);
    var cw := Convert(Wrapped(root));
    assert cw.children == [Leaf(MARKER), ci];
  }

  /** Wrapping keeps a binary tree binary. */
  lemma WrappedBinary(root: PNode)
    requires IsBinary(root)
    ensures IsBinary(Wrapped(root))
  {
    var inner := Block(Seq, "", [root, Leaf(MARKER)]);
    assert IsBinary(Leaf(MARKER));
    assert forall i :: 0 <= i < 2 ==> IsBinary(inner.children[i]);
    assert forall i :: 0 <= i < 2 ==> IsBinary(Wrapped(root).children[i]);
  }

  /** `wrapWithStartEnd(originalTree)`: a new tree over the original root, which becomes the
      first child of the inner sequence (the source also gives that shared node its new parent). */
  method WrapWithStartEnd(originalTree: ProcessTree) returns (newTree: ProcessTree)
    ensures fresh(newTree)
    ensures newTree.root == Wrapped(originalTree.root)
  {
    var plusNode := Leaf(MARKER);
    var minusNode := Leaf(MARKER);
    var innerSeq := Block(Seq, "", [originalTree.root, minusNode]);
    var outerSeq := Block(Seq, "", [plusNode, innerSeq]);
    newTree := new ProcessTree(outerSeq);
  }
}
