/**
 * `mkLeafNode`: the automaton of a single activity (or of a silent step) of the process tree,
 * already cut to its windows: '+' marks the start of a trace and '-' its end.
 */
module Leaf {
  import opened Automata

  /** What a state with the given transitions accepts, one state shape at a time. */
  lemma AcceptingSink(a: Automaton, q: nat, w: seq<Sym>)
    requires q < |a.states| && a.states[q] == State(true, [])
    ensures AcceptsFrom(a, q, w) <==> w == []
  {
  }

  lemma DeadEnd(a: Automaton, q: nat, w: seq<Sym>)
    requires q < |a.states| && a.states[q] == State(false, [])
    ensures !AcceptsFrom(a, q, w)
  {
  }

  lemma OneEdge(a: Automaton, q: nat, c: Sym, d: nat, w: seq<Sym>)
    requires q < |a.states| && a.states[q] == State(false, [Single(c, d)])
    ensures AcceptsFrom(a, q, w) <==> w != [] && w[0] == c && AcceptsFrom(a, d, w[1..])
  {
    if w != [] && w[0] == c && AcceptsFrom(a, d, w[1..]) {
      assert Single(c, d) in a.states[q].transitions;
    }
  }

  lemma TwoEdges(a: Automaton, q: nat, c1: Sym, d1: nat, c2: Sym, d2: nat, w: seq<Sym>)
    requires q < |a.states| && a.states[q] == State(false, [Single(c1, d1), Single(c2, d2)])
    ensures AcceptsFrom(a, q, w) <==>
      w != [] && ((w[0] == c1 && AcceptsFrom(a, d1, w[1..])) || (w[0] == c2 && AcceptsFrom(a, d2, w[1..])))
  {
    if w != [] && w[0] == c1 && AcceptsFrom(a, d1, w[1..]) {
      assert Single(c1, d1) in a.states[q].transitions;
    }
    if w != [] && w[0] == c2 && AcceptsFrom(a, d2, w[1..]) {
      assert Single(c2, d2) in a.states[q].transitions;
    }
  }

  /**
   * `mkLeafNode(letter, k)` (:65-94). States 0, 1 and 2 are q0, q1 and the accepting qf;
   * state 3 is q2 where the Java code creates it.
   */
  function MkLeafNode(letter: Sym, k: nat): (r: Automaton)
    ensures Valid(r) && r.initial == 0 && 3 <= |r.states|
  {
    if letter == TAU && k >= 2 then
      Automaton([State(false, [Single(PLUS, 1)]), State(false, [Single(MINUS, 2)]), State(true, [])], 0)
    else if k == 2 then
      Automaton([State(false, [Single(PLUS, 1), Single(letter, 3)]), State(false, [Single(letter, 2)]),
                 State(true, []), State(false, [Single(MINUS, 2)])], 0)
    else if k > 2 then
      Automaton([State(false, [Single(PLUS, 1)]), State(false, [Single(letter, 3)]),
                 State(true, []), State(false, [Single(MINUS, 2)])], 0)
    else
      Automaton([State(false, []), State(false, []), State(true, [])], 0)
  }

  /** A silent step, for k >= 2, accepts exactly the empty trace "+-". */
  lemma TauLeafLanguage(k: nat, w: seq<Sym>)
    requires 2 <= k
    ensures Accepts(MkLeafNode(TAU, k), w) <==> w == [PLUS, MINUS]
  {
    var r := MkLeafNode(TAU, k);
    OneEdge(r, 0, PLUS, 1, w);
    if w != [] {
      OneEdge(r, 1, MINUS, 2, w[1..]);
      if w[1..] != [] {
        AcceptingSink(r, 2, w[1..][1..]);
      }
    }
  }

  /** For k = 2 an activity leaf accepts exactly its two windows "+a" and "a-". */
  lemma PairLeafLanguage(letter: Sym, w: seq<Sym>)
    requires letter != TAU
    ensures Accepts(MkLeafNode(letter, 2), w) <==> w == [PLUS, letter] || w == [letter, MINUS]
  {
    var r := MkLeafNode(letter, 2);
    TwoEdges(r, 0, PLUS, 1, letter, 3, w);
    if w != [] {
      OneEdge(r, 1, letter, 2, w[1..]);
      OneEdge(r, 3, MINUS, 2, w[1..]);
      if w[1..] != [] {
        AcceptingSink(r, 2, w[1..][1..]);
      }
    }
  }

  /** For k > 2 an activity leaf accepts exactly the whole trace "+a-". */
  lemma TraceLeafLanguage(letter: Sym, k: nat, w: seq<Sym>)
    requires letter != TAU && 2 < k
    ensures Accepts(MkLeafNode(letter, k), w) <==> w == [PLUS, letter, MINUS]
  {
    var r := MkLeafNode(letter, k);
    OneEdge(r, 0, PLUS, 1, w);
    if w != [] {
      OneEdge(r, 1, letter, 3, w[1..]);
      if w[1..] != [] {
        OneEdge(r, 3, MINUS, 2, w[1..][1..]);
        if w[1..][1..] != [] {
          AcceptingSink(r, 2, w[1..][1..][1..]);
        }
      }
    }
  }

  /** Below k = 2 no leaf accepts anything: the initial state has no transitions. */
  lemma EmptyLeafLanguage(letter: Sym, k: nat, w: seq<Sym>)
    requires k < 2
    ensures !Accepts(MkLeafNode(letter, k), w)
  {
    DeadEnd(MkLeafNode(letter, k), 0, w);
  }
}
