/**
 * `computeMk`: the bottom-up translation of a process tree into its k-bounded Markovian
 * automaton. A leaf becomes the automaton of `mkLeafNode`; an operator node first
 * translates its first and its second child (in that order) and then combines the two
 * automata with the construction of its operator.
 */
module Compile {
  import opened Wrappers
  import opened Automata
  import Leaf
  import Window
  import WindowLanguage
  import WindowAutomaton
  import Splice
  import Product

  /** The operators of an EfficientTree node. */
  datatype Operator = Xor | Sequence | Concurrent | Interleaved | Loop | Or

  /** A node of a process tree: an activity (by its activity index), a silent step, or an
      operator over its children. */
  datatype Tree = Activity(id: int) | Tau | Node(op: Operator, children: seq<Tree>)

  /** Every operator node that `computeMk` reaches has the two children it reads. */
  ghost predicate HasOperands(t: Tree) {
    match t
    case Node(_, cs) => |cs| >= 2 && HasOperands(cs[0]) && HasOperands(cs[1])
    case _ => true
  }

  /** Every activity that `computeMk` reaches has a character. */
  ghost predicate Mapped(ids: map<int, Sym>, t: Tree) {
    match t
    case Activity(id) => id in ids
    case Tau => true
    case Node(_, cs) => |cs| >= 2 && Mapped(ids, cs[0]) && Mapped(ids, cs[1])
  }

  /** Every operator that `computeMk` reaches is one it can translate. */
  ghost predicate Known(t: Tree) {
    match t
    case Node(op, cs) =>
      op in {Xor, Sequence, Concurrent, Loop} && |cs| >= 2 && Known(cs[0]) && Known(cs[1])
    case _ => true
  }

  /** `computeMk` reaches a node whose translation looks up an accepting state. */
  ghost predicate HasSplice(t: Tree) {
    match t
    case Node(op, cs) => |cs| >= 2 && (op == Sequence || op == Loop || HasSplice(cs[0]) || HasSplice(cs[1]))
    case _ => false
  }

  /** `computeMk` reaches a loop node. */
  ghost predicate HasLoop(t: Tree) {
    match t
    case Node(op, cs) => |cs| >= 2 && (op == Loop || HasLoop(cs[0]) || HasLoop(cs[1]))
    case _ => false
  }

  /** Only choices and parallel compositions above the leaves. */
  ghost predicate Simple(t: Tree) {
    match t
    case Node(op, cs) => (op == Xor || op == Concurrent) && |cs| >= 2 && Simple(cs[0]) && Simple(cs[1])
    case _ => true
  }

  /** Only choices above the leaves. */
  ghost predicate Choices(t: Tree) {
    match t
    case Node(op, cs) => op == Xor && |cs| >= 2 && Choices(cs[0]) && Choices(cs[1])
    case _ => true
  }

  /** The words of a leaf labelled `letter`: a silent step is the empty trace "+-"; an
      activity gives, for k = 2, its start window "+a" and its end window "a-", and, for
      k > 2, the whole trace "+a-". For k < 2 there is none. */
  ghost predicate LeafWords(letter: Sym, k: nat, w: seq<Sym>) {
    if letter == TAU then 2 <= k && w == [PLUS, MINUS]
    else if k == 2 then w == [PLUS, letter] || w == [letter, MINUS]
    else 2 < k && w == [PLUS, letter, MINUS]
  }

  /** The words of a tree made only of choices: those of either translated child. */
  ghost predicate ChoiceWords(ids: map<int, Sym>, t: Tree, k: nat, w: seq<Sym>) {
    match t
    case Activity(id) => id in ids && LeafWords(ids[id], k, w)
    case Tau => LeafWords(TAU, k, w)
    case Node(_, cs) => |cs| >= 2 && (ChoiceWords(ids, cs[0], k, w) || ChoiceWords(ids, cs[1], k, w))
  }

  /** A window of the k-bounded abstraction: at most k characters, and not empty unless
      k is 0. */
  predicate Bounded(k: nat, w: seq<Sym>) {
    |w| <= k && (0 < k ==> w != [])
  }

  /** The language of `mkLeafNode`, case by case. */
  lemma LeafLanguage(letter: Sym, k: nat, w: seq<Sym>)
    ensures Accepts(Leaf.MkLeafNode(letter, k), w) <==> LeafWords(letter, k, w)
  {
    if k < 2 {
      Leaf.EmptyLeafLanguage(letter, k, w);
    } else if letter == TAU {
      Leaf.TauLeafLanguage(k, w);
    } else if k == 2 {
      Leaf.PairLeafLanguage(letter, w);
    } else {
      Leaf.TraceLeafLanguage(letter, k, w);
    }
  }

  /** A leaf accepts only k-bounded windows. */
  lemma LeafBounded(letter: Sym, k: nat, w: seq<Sym>)
    requires Accepts(Leaf.MkLeafNode(letter, k), w)
    ensures Bounded(k, w) && 2 <= |w|
  {
    LeafLanguage(letter, k, w);
  }

  /** The result of the projection `computeMkAbstraction` is a well-formed automaton whose
      words are k-bounded. */
  lemma ProjectionBounded(a: Automaton, k: nat, m: Automaton, owner: seq<Window.Pes>)
    requires Valid(a) && Window.IsProjection(a, k, m, owner)
    ensures Valid(m)
    ensures forall w :: Accepts(m, w) ==> Bounded(k, w)
  {
    forall q, t | 0 <= q < |m.states| && t in m.states[q].transitions
      ensures t.dest < |m.states| && t.min <= t.max
    {
      WindowLanguage.EdgeAppends(a, k, m, owner, q, t);
    }
    forall w: seq<Sym> | Accepts(m, w) ensures Bounded(k, w) {
      WindowLanguage.ProjectionSound(a, k, m, owner, w);
    }
  }

  /** `computeMk(tree, node, k)`. An activity without a character makes the unboxing of
      `IDsToChar.get(...)` throw; an operator other than sequence, choice, parallel and
      loop throws once both children are translated. */
  method ComputeMk(ids: map<int, Sym>, t: Tree, k: nat) returns (r: Result<Automaton>)
    requires HasOperands(t)
    ensures r.Ok? ==> Valid(r.value) && Mapped(ids, t) && Known(t)
    ensures r.Ok? ==> forall w :: Accepts(r.value, w) ==> Bounded(k, w)
    ensures Mapped(ids, t) && Simple(t) ==> r.Ok?
    ensures r.Ok? && Choices(t) ==> forall w :: Accepts(r.value, w) <==> ChoiceWords(ids, t, k, w)
    ensures r.Err? ==>
      (r.error == NullPointer && (!Mapped(ids, t) || HasLoop(t))) ||
      (r.error == NoSuchElement && HasSplice(t)) ||
      (r.error == UnsupportedOperation && !Known(t))
    decreases t
  {
    match t
    case Activity(id) =>
      if id !in ids {
        return Err(NullPointer);
      }
      r := Ok(Leaf.MkLeafNode(ids[id], k));
      forall w: seq<Sym> ensures Accepts(r.value, w) <==> ChoiceWords(ids, t, k, w) {
        LeafLanguage(ids[id], k, w);
      }
    case Tau =>
      r := Ok(Leaf.MkLeafNode(TAU, k));
      forall w: seq<Sym> ensures Accepts(r.value, w) <==> ChoiceWords(ids, t, k, w) {
        LeafLanguage(TAU, k, w);
      }
    case Node(op, cs) =>
      var left := ComputeMk(ids, cs[0], k);
      if left.Err? {
        return Err(left.error);
      }
      var right := ComputeMk(ids, cs[1], k);
      if right.Err? {
        return Err(right.error);
      }
      r := Combine(op, left.value, right.value, k);
      if op == Xor {
        forall w: seq<Sym> ensures Accepts(r.value, w) <==> Accepts(left.value, w) || Accepts(right.value, w) {
          UnionLanguage(left.value, right.value, w);
        }
      }
  }

  /** The construction of one operator node from the automata of its two children:
      `mkSequence`, `mkExclusive`, `mkParallel` or `mkLoop`, and an
      UnsupportedOperationException for any other operator. */
  method Combine(op: Operator, a: Automaton, b: Automaton, k: nat) returns (r: Result<Automaton>)
    requires Valid(a) && Valid(b)
    requires forall w :: Accepts(a, w) ==> Bounded(k, w)
    requires forall w :: Accepts(b, w) ==> Bounded(k, w)
    ensures r.Ok? ==> Valid(r.value) && op in {Xor, Sequence, Concurrent, Loop}
    ensures r.Ok? ==> forall w :: Accepts(r.value, w) ==> Bounded(k, w)
    ensures op == Xor ==> r == Ok(Union(a, b))
    ensures op == Concurrent ==> r.Ok?
    ensures r.Err? ==>
      (r.error == NullPointer && op == Loop) ||
      (r.error == NoSuchElement && (op == Sequence || op == Loop)) ||
      (r.error == UnsupportedOperation && op !in {Xor, Sequence, Concurrent, Loop})
  {
    match op
    case Sequence =>
      var s, qfA, qaMinus, spliced, owner := Splice.MkSequence(a, b, k);
      r := s;
      if r.Ok? {
        ProjectionBounded(spliced, k, r.value, owner);
      }
    case Xor =>
      r := Ok(Union(a, b));
      forall w: seq<Sym> | Accepts(r.value, w) ensures Bounded(k, w) {
        UnionLanguage(a, b, w);
      }
    case Concurrent =>
      var p, alphabet, P, owner := Product.MkParallel(a, b, k);
      r := Ok(p);
    case Loop =>
      var s, qfA, qfB, qaMinus, qbMinus, arenas, spliced, owner := Splice.MkLoop(a, b, k);
      r := s;
      if r.Ok? {
        ProjectionBounded(spliced, k, r.value, owner);
      }
    case _ =>
      r := Err(UnsupportedOperation);
  }
}
