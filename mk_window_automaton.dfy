/**
 * `createMKAutomaton(alphabet, k)`: the automaton of all k-windows over an alphabet, the
 * third component of the `mkParallel` product. A window either starts a trace ('+' and
 * then letters, possibly ended by '-' when the trace is shorter than the window) or lies
 * inside one (k letters, or k - 1 letters and the '-' that ends the trace).
 *
 * The source spells out the automaton for k = 2, 3, 4 and 5 separately; all four share one
 * shape, which is built here for those k. Besides the start state q0 and the accepting qf
 * it has a '+' chain (the source's q1, q3, q5, q7), whose every state may end the trace
 * with '-', and a letter chain (the source's q2, q4, q6, q8), where only the last state
 * may read '-'. Here qf is state 1, the '+' chain is states 2..k and the letter chain is
 * states k+1..2k-1.
 */
module WindowAutomaton {
  import opened Automata
  import Leaf

  /** One transition on each letter, all into d. */
  function LetterEdges(letters: seq<Sym>, d: nat): (r: seq<Transition>)
    ensures forall t :: t in r <==> t.min in letters && t == Single(t.min, d)
  {
    var r := seq(|letters|, i requires 0 <= i < |letters| => Single(letters[i], d));
    assert forall i :: 0 <= i < |letters| ==> r[i] == Single(letters[i], d);
    r
  }

  /** The windows of length k start in the '+' chain from state 2 and in the letter chain
      from state k + 1. */
  function ShapeState(letters: seq<Sym>, k: nat, q: nat): State
    requires 2 <= k && q < 2 * k
  {
    if q == 0 then State(false, [Single(PLUS, 2)] + LetterEdges(letters, k + 1))
    else if q == 1 then State(true, [])
    else if q <= k then State(false, [Single(MINUS, 1)] + LetterEdges(letters, if q == k then 1 else q + 1))
    else if q == 2 * k - 1 then State(false, [Single(MINUS, 1)] + LetterEdges(letters, 1))
    else State(false, LetterEdges(letters, q + 1))
  }

  /** The automaton `createMKAutomaton` builds from an enumeration of the alphabet: for
      k outside 2..5 only q0 and qf, with no transition at all. */
  function WindowShape(letters: seq<Sym>, k: nat): (r: Automaton)
    ensures Valid(r) && r.initial == 0
    ensures |r.states| == if 2 <= k <= 5 then 2 * k else 2
  {
    if 2 <= k <= 5 then
      var r := Automaton(seq(2 * k, q requires 0 <= q < 2 * k => ShapeState(letters, k, q)), 0);
      assert forall q :: 0 <= q < 2 * k ==> r.states[q] == ShapeState(letters, k, q);
      r
    else
      Automaton([State(false, []), State(true, [])], 0)
  }

  /** `createMKAutomaton(alphabet, k)`: the alphabet is enumerated (`for (char c : alphabet)`)
      and the window automaton built over it. */
  method CreateMkAutomaton(alphabet: set<Sym>, k: nat) returns (r: Automaton)
    ensures Valid(r) && r.initial == 0
    ensures PLUS !in alphabet && MINUS !in alphabet ==>
      forall w :: Accepts(r, w) <==> 2 <= k <= 5 && WindowWord(alphabet, k, w)
    ensures ReadsAll(r, alphabet)
  {
    var letters: seq<Sym> := [];
    var rest := alphabet;
    while rest != {}
      invariant rest <= alphabet
      invariant forall c :: c in letters <==> c in alphabet - rest
      decreases |rest|
    {
      var c :| c in rest;
      letters := letters + [c];
      rest := rest - {c};
    }
    assert alphabet - rest == alphabet;
    r := WindowShape(letters, k);
    if 2 <= k <= 5 {
      ShapeReadsAll(letters, alphabet, k);
    }
    if PLUS !in alphabet && MINUS !in alphabet {
      forall w ensures Accepts(r, w) <==> 2 <= k <= 5 && WindowWord(alphabet, k, w) {
        if 2 <= k <= 5 {
          WindowShapeLanguage(letters, alphabet, k, w);
        } else {
          Leaf.DeadEnd(r, 0, w);
        }
      }
    }
  }

  /** Every state that neither accepts nor is a dead end reads every letter of A. */
  ghost predicate ReadsAll(r: Automaton, A: set<Sym>) {
    forall q, c :: 0 <= q < |r.states| && c in A && !r.states[q].accept && r.states[q].transitions != [] ==>
      exists t :: t in r.states[q].transitions && Covers(t, c)
  }

  lemma ShapeReadsAll(letters: seq<Sym>, A: set<Sym>, k: nat)
    requires 2 <= k <= 5 && forall c :: c in letters <==> c in A
    ensures ReadsAll(WindowShape(letters, k), A)
  {
    var r := WindowShape(letters, k);
    forall q, c | 0 <= q < |r.states| && c in A && !r.states[q].accept
      ensures exists t :: t in r.states[q].transitions && Covers(t, c)
    {
      assert r.states[q] == ShapeState(letters, k, q);
      var d := if q == 0 then k + 1 else if q < k then q + 1 else if q == k then 1
               else if q == 2 * k - 1 then 1 else q + 1;
      assert Single(c, d) in LetterEdges(letters, d);
      assert Single(c, d) in r.states[q].transitions;
    }
  }

  // ---------------------------------------------------------------------------------------
  // The language

  ghost predicate Letters(A: set<Sym>, u: seq<Sym>) {
    forall i :: 0 <= i < |u| ==> u[i] in A
  }

  /** A word of at most n characters that ends the trace: letters, then '-'. */
  ghost predicate EndsTrace(A: set<Sym>, x: seq<Sym>, n: nat) {
    1 <= |x| <= n && x[|x| - 1] == MINUS && Letters(A, x[..|x| - 1])
  }

  /** A window of length k over the letters A of traces framed by '+' and '-': a whole
      trace shorter than k, a trace start, k letters inside a trace, or a trace end. */
  ghost predicate WindowWord(A: set<Sym>, k: nat, w: seq<Sym>) {
    2 <= |w| <= k &&
    ((w[0] == PLUS && w[|w| - 1] == MINUS && Letters(A, w[1..|w| - 1])) ||
     (|w| == k && w[0] == PLUS && Letters(A, w[1..])) ||
     (|w| == k && Letters(A, w)) ||
     (|w| == k && w[|w| - 1] == MINUS && Letters(A, w[..|w| - 1])))
  }

  /** A state with one optional extra transition (on e into d2) and one transition per
      letter into d. */
  lemma ChainStep(r: Automaton, q: nat, letters: seq<Sym>, d: nat, extra: bool, e: Sym, d2: nat, x: seq<Sym>)
    requires q < |r.states|
    requires r.states[q] == State(false, (if extra then [Single(e, d2)] else []) + LetterEdges(letters, d))
    ensures AcceptsFrom(r, q, x) <==>
      x != [] && ((x[0] in letters && AcceptsFrom(r, d, x[1..])) || (extra && x[0] == e && AcceptsFrom(r, d2, x[1..])))
  {
    var ts := r.states[q].transitions;
    if x != [] && x[0] in letters && AcceptsFrom(r, d, x[1..]) {
      assert Single(x[0], d) in ts;
    }
    if x != [] && extra && x[0] == e && AcceptsFrom(r, d2, x[1..]) {
      assert Single(e, d2) in ts;
    }
  }

  /** The '+' chain: from state q (2 <= q <= k) the rest of a trace start is read. */
  lemma {:induction false} PlusChain(letters: seq<Sym>, A: set<Sym>, k: nat, q: nat, x: seq<Sym>)
    requires 2 <= k <= 5 && 2 <= q <= k && MINUS !in A && forall c :: c in letters <==> c in A
    ensures AcceptsFrom(WindowShape(letters, k), q, x) <==>
      EndsTrace(A, x, k - q + 1) || (|x| == k - q + 1 && Letters(A, x))
    decreases k - q
  {
    var r := WindowShape(letters, k);
    var next := if q == k then 1 else q + 1;
    ChainStep(r, q, letters, next, true, MINUS, 1, x);
    if x != [] {
      Leaf.AcceptingSink(r, 1, x[1..]);
      if q < k {
        PlusChain(letters, A, k, q + 1, x[1..]);
      }
      PlusWordStep(A, k, q, x);
    }
  }

  /** The words of the '+' chain from q, by their first letter. */
  lemma PlusWordStep(A: set<Sym>, k: nat, q: nat, x: seq<Sym>)
    requires 2 <= q <= k && MINUS !in A && x != []
    ensures EndsTrace(A, x, k - q + 1) || (|x| == k - q + 1 && Letters(A, x)) <==>
      (x[0] in A && (if q < k then EndsTrace(A, x[1..], k - q) || (|x[1..]| == k - q && Letters(A, x[1..]))
                     else x[1..] == [])) ||
      (x[0] == MINUS && x[1..] == [])
  {
    LettersCons(A, x);
    if |x| >= 2 {
      assert x[1..][..|x[1..]| - 1] == x[..|x| - 1][1..];
      LettersCons(A, x[..|x| - 1]);
    }
  }

  /** The letter chain: from state q (k < q < 2k) the rest of a window inside a trace is read. */
  lemma {:induction false} LetterChain(letters: seq<Sym>, A: set<Sym>, k: nat, q: nat, x: seq<Sym>)
    requires 2 <= k <= 5 && k < q < 2 * k && MINUS !in A && forall c :: c in letters <==> c in A
    ensures AcceptsFrom(WindowShape(letters, k), q, x) <==>
      |x| == 2 * k - q && (Letters(A, x) || EndsTrace(A, x, 2 * k - q))
    decreases 2 * k - q
  {
    var r := WindowShape(letters, k);
    if q == 2 * k - 1 {
      ChainStep(r, q, letters, 1, true, MINUS, 1, x);
      if x != [] {
        Leaf.AcceptingSink(r, 1, x[1..]);
      }
    } else {
      ChainStep(r, q, letters, q + 1, false, MINUS, 1, x);
      if x != [] {
        LetterChain(letters, A, k, q + 1, x[1..]);
        LettersCons(A, x);
        if |x| >= 2 {
          assert x[1..][..|x[1..]| - 1] == x[..|x| - 1][1..];
          LettersCons(A, x[..|x| - 1]);
        }
      }
    }
  }

  lemma LettersCons(A: set<Sym>, x: seq<Sym>)
    requires x != []
    ensures Letters(A, x) <==> x[0] in A && Letters(A, x[1..])
  {
    if x[0] in A && Letters(A, x[1..]) {
      forall i | 0 <= i < |x| ensures x[i] in A {
        if i > 0 {
          assert x[i] == x[1..][i - 1];
        }
      }
    }
  }

  /** For 2 <= k <= 5 the automaton accepts exactly the k-windows over its letters. */
  lemma WindowShapeLanguage(letters: seq<Sym>, A: set<Sym>, k: nat, w: seq<Sym>)
    requires 2 <= k <= 5 && PLUS !in A && MINUS !in A && forall c :: c in letters <==> c in A
    ensures Accepts(WindowShape(letters, k), w) <==> WindowWord(A, k, w)
  {
    var r := WindowShape(letters, k);
    ChainStep(r, 0, letters, k + 1, true, PLUS, 2, w);
    if w != [] {
      var x := w[1..];
      PlusChain(letters, A, k, 2, x);
      LetterChain(letters, A, k, k + 1, x);
      LettersCons(A, w);
      if |w| >= 2 {
        assert x[..|x| - 1] == w[1..|w| - 1];
        assert x[..|x| - 1] == w[..|w| - 1][1..];
        LettersCons(A, w[..|w| - 1]);
      }
    }
  }

  /** Every accepted window has 2 to k characters, '+' at most first and '-' at most last. */
  lemma WindowWordShape(A: set<Sym>, k: nat, w: seq<Sym>)
    requires WindowWord(A, k, w) && PLUS !in A && MINUS !in A
    ensures 2 <= |w| <= k
    ensures forall i :: 0 < i < |w| ==> w[i] != PLUS
    ensures forall i :: 0 <= i < |w| - 1 ==> w[i] != MINUS
  {
    forall i | 0 < i < |w| - 1 ensures w[i] in A {
      if w[0] == PLUS && w[|w| - 1] == MINUS && Letters(A, w[1..|w| - 1]) {
        assert w[i] == w[1..|w| - 1][i - 1];
      } else if |w| == k && w[0] == PLUS && Letters(A, w[1..]) {
        assert w[i] == w[1..][i - 1];
      } else if |w| == k && Letters(A, w) {
      } else {
        assert w[i] == w[..|w| - 1][i];
      }
    }
    if w[0] != PLUS {
      assert w[0] in A by {
        if |w| == k && Letters(A, w) {
        } else {
          assert w[0] == w[..|w| - 1][0];
        }
      }
    }
  }

  /** For k = 2 the windows are "+-", and "+c", "cd" and "c-" for letters c and d. */
  lemma PairWindows(A: set<Sym>, w: seq<Sym>)
    ensures WindowWord(A, 2, w) <==>
      w == [PLUS, MINUS] ||
      (|w| == 2 && ((w[0] == PLUS && w[1] in A) || (w[0] in A && w[1] in A) || (w[0] in A && w[1] == MINUS)))
  {
    if |w| == 2 {
      assert w[1..|w| - 1] == [];
      assert w[1..] == [w[1]];
      assert w[..|w| - 1] == [w[0]];
      assert w == [w[0], w[1]];
    }
  }
}
