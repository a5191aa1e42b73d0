/**
 * `mkParallel(a, b, k)`: the k-window abstraction of the parallel composition of two
 * subtrees. Both operands become all-substrings automata, the window automaton is built
 * over their joint alphabet, and the product of the three is explored breadth first from
 * the triple of start states. A triple whose window component accepts is a leaf. Any other
 * triple moves on every letter one of the operands can read: each of the three steps when
 * it can and stays put when it cannot, and the markers '+' and '-' are taken only when all
 * three can step on them.
 *
 * The source determinizes the all-substrings automata before the product; here they stay
 * nondeterministic, a state of the source's operand is a set of their states and its step
 * is the subset step, which is what determinize computes.
 */
module Product {
  import opened Wrappers
  import opened Automata
  import Substrings
  import Window
  import WindowAutomaton

  /** A state of the product (the source's `Triple`): a state of each operand, as a set of
      states, and a state of the window automaton. */
  datatype Triple = Triple(a: set<nat>, m: nat, b: set<nat>)

  /** The automata of the product: the two operands and the window automaton between them. */
  datatype Parts = Parts(sa: Automaton, mk: Automaton, sb: Automaton)

  ghost predicate PartsValid(P: Parts) {
    Valid(P.sa) && Valid(P.mk) && Valid(P.sb)
  }

  /** Some state of S has a transition on c. */
  ghost predicate StepsOn(A: Automaton, S: set<nat>, c: Sym) {
    exists q :: q in S && q < |A.states| && Substrings.Offers(A.states[q].transitions, c)
  }

  /** `State.step(c)` on a state of the determinized operand: where the states of S go on c,
      empty when the source's step returns null. */
  function SubsetStep(A: Automaton, S: set<nat>, c: Sym): (r: set<nat>)
    requires Valid(A)
    ensures r <= Below(|A.states|)
    ensures r != {} <==> StepsOn(A, S, c)
  {
    var r := set q, t | q in S && q < |A.states| && t in A.states[q].transitions && Covers(t, c) :: t.dest;
    StepsOnWitness(A, S, c, r);
    r
  }

  lemma StepsOnWitness(A: Automaton, S: set<nat>, c: Sym, r: set<nat>)
    requires forall d :: d in r <==>
      exists q, t :: q in S && q < |A.states| && t in A.states[q].transitions && Covers(t, c) && t.dest == d
    ensures r != {} <==> StepsOn(A, S, c)
  {
    if r != {} {
      var d :| d in r;
      var q, t :| q in S && q < |A.states| && t in A.states[q].transitions && Covers(t, c) && t.dest == d;
      assert Substrings.Offers(A.states[q].transitions, c);
    }
    if StepsOn(A, S, c) {
      var q :| q in S && q < |A.states| && Substrings.Offers(A.states[q].transitions, c);
      var t :| t in A.states[q].transitions && Covers(t, c);
      assert t.dest in r;
    }
  }

  /** The subset step follows the transitions: d is reached from S on c exactly when some
      state of S has a one-letter path on c to d. */
  lemma SubsetStepPaths(A: Automaton, S: set<nat>, c: Sym, d: nat)
    requires Valid(A)
    ensures d in SubsetStep(A, S, c) <==> exists q :: q in S && Path(A, q, [c], d)
  {
    if d in SubsetStep(A, S, c) {
      var q, t :| q in S && q < |A.states| && t in A.states[q].transitions && Covers(t, c) && t.dest == d;
      assert Path(A, d, [c][1..], d);
      assert Path(A, q, [c], d);
    }
    if exists q :: q in S && Path(A, q, [c], d) {
      var q :| q in S && Path(A, q, [c], d);
      var t :| t in A.states[q].transitions && Covers(t, [c][0]) && Path(A, t.dest, [c][1..], d);
      assert t.dest == d;
    }
  }

  /** `stepIfPossible` on an operand. */
  function OperandStep(A: Automaton, S: set<nat>, c: Sym): set<nat>
    requires Valid(A)
  {
    var r := SubsetStep(A, S, c);
    if r != {} then r else S
  }

  /** `stepIfPossible` on the window automaton. */
  function WindowStep(mk: Automaton, m: nat, c: Sym): (r: nat)
    requires Valid(mk) && m < |mk.states|
    ensures r < |mk.states|
  {
    match Step(mk, m, c)
    case Some(d) => d
    case None => m
  }

  /** The components of t are states of their automata. */
  ghost predicate TripleOk(P: Parts, t: Triple) {
    t.a <= Below(|P.sa.states|) && t.m < |P.mk.states| && t.b <= Below(|P.sb.states|)
  }

  /** The triple of start states. */
  function Initial(P: Parts): (r: Triple)
    requires PartsValid(P)
    ensures TripleOk(P, r)
  {
    Triple({P.sa.initial}, P.mk.initial, {P.sb.initial})
  }

  /** The window component of t accepts: t is a leaf of the product. */
  predicate WindowAccepts(P: Parts, t: Triple)
    requires TripleOk(P, t)
  {
    P.mk.states[t.m].accept
  }

  /** `getRelevantLetters(stateA, stateB)`: the letters one of the operands can read. */
  predicate Relevant(P: Parts, t: Triple, c: Sym)
    requires PartsValid(P)
  {
    SubsetStep(P.sa, t.a, c) != {} || SubsetStep(P.sb, t.b, c) != {}
  }

  /** The letters a non-leaf triple moves on: the relevant ones, the markers only when all
      three automata can step on them. */
  predicate Allowed(P: Parts, t: Triple, c: Sym)
    requires PartsValid(P) && TripleOk(P, t)
  {
    Relevant(P, t, c) &&
    ((c == PLUS || c == MINUS) ==>
       SubsetStep(P.sa, t.a, c) != {} && SubsetStep(P.sb, t.b, c) != {} && Step(P.mk, t.m, c).Some?)
  }

  /** The triple t moves to on c. */
  function Next(P: Parts, t: Triple, c: Sym): (r: Triple)
    requires PartsValid(P) && TripleOk(P, t)
    ensures TripleOk(P, r)
  {
    Triple(OperandStep(P.sa, t.a, c), WindowStep(P.mk, t.m, c), OperandStep(P.sb, t.b, c))
  }

  /** The words the product accepts from t: letters it moves on until a leaf. */
  ghost predicate ProductAccepts(P: Parts, t: Triple, w: seq<Sym>)
    decreases |w|
  {
    PartsValid(P) && TripleOk(P, t) &&
    if w == [] then WindowAccepts(P, t)
    else !WindowAccepts(P, t) && Allowed(P, t, w[0]) && ProductAccepts(P, Next(P, t, w[0]), w[1..])
  }

  // ---------------------------------------------------------------------------------------
  // The product automaton

  /** An edge e out of product state i: a single letter the triple of i moves on, into the
      state of the next triple. */
  ghost predicate EdgeOk(P: Parts, owner: seq<Triple>, i: nat, e: Transition)
    requires i < |owner|
  {
    e.min == e.max && e.dest < |owner| && PartsValid(P) && TripleOk(P, owner[i]) &&
    !WindowAccepts(P, owner[i]) && Allowed(P, owner[i], e.min) && owner[e.dest] == Next(P, owner[i], e.min)
  }

  /** State i has an edge on c into the state of t. */
  ghost predicate HasEdge(states: seq<State>, owner: seq<Triple>, i: nat, c: Sym, t: Triple)
    requires i < |states|
  {
    exists d :: 0 <= d < |owner| && owner[d] == t && Single(c, d) in states[i].transitions
  }

  /** Every non-leaf triple has an edge on each letter it moves on. */
  ghost predicate Complete(P: Parts, states: seq<State>, owner: seq<Triple>) {
    |states| == |owner| && PartsValid(P) &&
    forall i, c :: 0 <= i < |owner| && TripleOk(P, owner[i]) && !WindowAccepts(P, owner[i]) && Allowed(P, owner[i], c) ==>
      HasEdge(states, owner, i, c, Next(P, owner[i], c))
  }

  /** Distinct states stand for distinct triples. */
  ghost predicate Distinct(owner: seq<Triple>) {
    forall i, j :: 0 <= i < j < |owner| ==> owner[i] != owner[j]
  }

  /** A state accepts exactly when the window component of its triple does. */
  ghost predicate FlagsMatch(P: Parts, states: seq<State>, owner: seq<Triple>) {
    |states| == |owner| &&
    forall i :: 0 <= i < |owner| ==> TripleOk(P, owner[i]) && states[i].accept == WindowAccepts(P, owner[i])
  }

  /** Every edge is a move of its triple. */
  ghost predicate EdgesOk(P: Parts, states: seq<State>, owner: seq<Triple>) {
    |states| == |owner| &&
    forall i, e :: 0 <= i < |states| && e in states[i].transitions ==> EdgeOk(P, owner, i, e)
  }

  /**
   * p is the product of P, its state i standing for the triple owner[i]: distinct states
   * stand for distinct triples, the start state for the triple of start states, a state
   * accepts when its window component does, every edge is a move of its triple and every
   * move of a non-leaf triple is an edge.
   */
  ghost predicate IsProduct(P: Parts, p: Automaton, owner: seq<Triple>) {
    PartsValid(P) && |p.states| == |owner| && 0 < |owner| && p.initial == 0 && owner[0] == Initial(P) &&
    Distinct(owner) && FlagsMatch(P, p.states, owner) && EdgesOk(P, p.states, owner) && Complete(P, p.states, owner)
  }

  /** The product accepts from state i exactly the words its triple accepts. */
  lemma ProductLanguage(P: Parts, p: Automaton, owner: seq<Triple>, i: nat, w: seq<Sym>)
    requires IsProduct(P, p, owner) && i < |owner|
    ensures AcceptsFrom(p, i, w) <==> ProductAccepts(P, owner[i], w)
  {
    if AcceptsFrom(p, i, w) {
      ProductSound(P, p, owner, i, w);
    }
    if ProductAccepts(P, owner[i], w) {
      ProductComplete(P, p, owner, i, w);
    }
  }

  /** A run of the product spells moves of the triples until a leaf. */
  lemma {:induction false} ProductSound(P: Parts, p: Automaton, owner: seq<Triple>, i: nat, w: seq<Sym>)
    requires PartsValid(P) && FlagsMatch(P, p.states, owner) && EdgesOk(P, p.states, owner)
    requires i < |owner| && AcceptsFrom(p, i, w)
    ensures ProductAccepts(P, owner[i], w)
    decreases |w|
  {
    if w != [] {
      var e :| e in p.states[i].transitions && Covers(e, w[0]) && AcceptsFrom(p, e.dest, w[1..]);
      assert EdgeOk(P, owner, i, e);
      ProductSound(P, p, owner, e.dest, w[1..]);
      AcceptsStep(P, owner[i], e.min, w, owner[e.dest]);
    }
  }

  /** A move on the first letter followed by a word accepted from the next triple. */
  lemma AcceptsStep(P: Parts, t: Triple, c: Sym, w: seq<Sym>, t2: Triple)
    requires PartsValid(P) && TripleOk(P, t) && !WindowAccepts(P, t) && Allowed(P, t, c)
    requires t2 == Next(P, t, c) && w != [] && w[0] == c && ProductAccepts(P, t2, w[1..])
    ensures ProductAccepts(P, t, w)
  {
  }

  /** Moves of the triples until a leaf are a run of the product. */
  lemma {:induction false} ProductComplete(P: Parts, p: Automaton, owner: seq<Triple>, i: nat, w: seq<Sym>)
    requires FlagsMatch(P, p.states, owner) && Complete(P, p.states, owner)
    requires i < |owner| && ProductAccepts(P, owner[i], w)
    ensures AcceptsFrom(p, i, w)
    decreases |w|
  {
    if w != [] {
      assert HasEdge(p.states, owner, i, w[0], Next(P, owner[i], w[0]));
      var d :| 0 <= d < |owner| && owner[d] == Next(P, owner[i], w[0]) && Single(w[0], d) in p.states[i].transitions;
      ProductComplete(P, p, owner, d, w[1..]);
      AcceptsFromStep(p, i, Single(w[0], d), w);
    }
  }

  /** The product is deterministic: no two edges of a state share a letter. */
  lemma ProductDeterministic(P: Parts, p: Automaton, owner: seq<Triple>, i: nat, e1: Transition, e2: Transition)
    requires IsProduct(P, p, owner) && i < |owner|
    requires e1 in p.states[i].transitions && e2 in p.states[i].transitions && e1.min == e2.min
    ensures e1.dest == e2.dest
  {
    assert EdgeOk(P, owner, i, e1) && EdgeOk(P, owner, i, e2);
    assert owner[e1.dest] == owner[e2.dest];
  }

  // ---------------------------------------------------------------------------------------
  // What the product accepts

  /** Every state of the operand components is reachable in its automaton. */
  ghost predicate Reached(P: Parts, t: Triple) {
    (forall q :: q in t.a ==> Reachable(P.sa, q)) && (forall q :: q in t.b ==> Reachable(P.sb, q))
  }

  lemma SubsetStepReached(A: Automaton, S: set<nat>, c: Sym)
    requires Valid(A) && forall q :: q in S ==> Reachable(A, q)
    ensures forall d :: d in SubsetStep(A, S, c) ==> Reachable(A, d)
  {
    forall d | d in SubsetStep(A, S, c) ensures Reachable(A, d) {
      var q, t :| q in S && q < |A.states| && t in A.states[q].transitions && Covers(t, c) && t.dest == d;
      ReachableStep(A, q, t);
    }
  }

  lemma NextReached(P: Parts, t: Triple, c: Sym)
    requires PartsValid(P) && TripleOk(P, t) && Reached(P, t)
    ensures Reached(P, Next(P, t, c))
  {
    SubsetStepReached(P.sa, t.a, c);
    SubsetStepReached(P.sb, t.b, c);
  }

  /** A letter other than a marker that a reached triple moves on is in the joint alphabet. */
  lemma AllowedInAlphabet(P: Parts, A: set<Sym>, t: Triple, c: Sym)
    requires PartsValid(P) && TripleOk(P, t) && Reached(P, t) && Allowed(P, t, c) && c != PLUS && c != MINUS
    requires forall x :: Substrings.InAlphabet(P.sa, x) || Substrings.InAlphabet(P.sb, x) ==> x in A
    ensures c in A
  {
    if SubsetStep(P.sa, t.a, c) != {} {
      var q: nat :| q in t.a && q < |P.sa.states| && Substrings.Offers(P.sa.states[q].transitions, c);
      assert Substrings.InAlphabet(P.sa, c);
    } else {
      var q: nat :| q in t.b && q < |P.sb.states| && Substrings.Offers(P.sb.states[q].transitions, c);
      assert Substrings.InAlphabet(P.sb, c);
    }
  }

  /** A window state that neither accepts nor moves keeps the product from accepting. */
  lemma {:induction false} WindowStuck(P: Parts, t: Triple, w: seq<Sym>)
    requires PartsValid(P) && TripleOk(P, t) && !WindowAccepts(P, t) && P.mk.states[t.m].transitions == []
    ensures !ProductAccepts(P, t, w)
    decreases |w|
  {
    if w != [] {
      assert Step(P.mk, t.m, w[0]).None?;
      WindowStuck(P, Next(P, t, w[0]), w[1..]);
    }
  }

  /**
   * Every word the product accepts from a reached triple is accepted by the window
   * automaton from the triple's window state: on each letter the window component steps,
   * since it reads every letter of the joint alphabet and the markers are taken only when
   * it can step on them.
   */
  lemma {:induction false} ProductInWindow(P: Parts, A: set<Sym>, t: Triple, w: seq<Sym>)
    requires ProductAccepts(P, t, w) && Reached(P, t) && WindowAutomaton.ReadsAll(P.mk, A)
    requires forall x :: Substrings.InAlphabet(P.sa, x) || Substrings.InAlphabet(P.sb, x) ==> x in A
    ensures AcceptsFrom(P.mk, t.m, w)
    decreases |w|
  {
    if w != [] {
      var c := w[0];
      if P.mk.states[t.m].transitions == [] {
        WindowStuck(P, t, w);
        assert false;
      }
      if c != PLUS && c != MINUS {
        AllowedInAlphabet(P, A, t, c);
        assert exists x :: x in P.mk.states[t.m].transitions && Covers(x, c);
      }
      NextReached(P, t, c);
      ProductInWindow(P, A, Next(P, t, c), w[1..]);
      WindowAdvance(P.mk, t.m, c, w);
    }
  }

  /** A step of the window automaton on the first letter followed by an accepted rest. */
  lemma WindowAdvance(mk: Automaton, m: nat, c: Sym, w: seq<Sym>)
    requires Valid(mk) && m < |mk.states| && Step(mk, m, c).Some?
    requires w != [] && w[0] == c && AcceptsFrom(mk, WindowStep(mk, m, c), w[1..])
    ensures AcceptsFrom(mk, m, w)
  {
    var d := Step(mk, m, c).value;
    var x :| x in mk.states[m].transitions && Covers(x, [c][0]) && Path(mk, x.dest, [c][1..], d);
    AcceptsFromStep(mk, m, x, w);
  }

  // ---------------------------------------------------------------------------------------
  // getRelevantLetters

  /** The loop over the characters of each transition of ts (the source's inner loops). */
  method AddRanges(ts: seq<Transition>, r: set<Sym>) returns (r2: set<Sym>)
    ensures forall c :: c in r2 <==> c in r || Substrings.Offers(ts, c)
  {
    r2 := r;
    var i := 0;
    while i < |ts|
      invariant i <= |ts|
      invariant forall c :: c in r2 <==> c in r || Substrings.Offers(ts[..i], c)
    {
      var t := ts[i];
      var c: int := t.min as int;
      while c <= t.max as int
        invariant t.min as int <= c && (c == t.min as int || c <= t.max as int + 1)
        invariant forall d :: d in r2 <==> d in r || Substrings.Offers(ts[..i], d) || (t.min <= d && (d as int) < c)
      {
        r2 := r2 + {c as Sym};
        c := c + 1;
      }
      Substrings.OffersSnoc(ts, i);
      i := i + 1;
    }
    assert ts[..i] == ts;
  }

  /** The letters on the transitions of the states of S, added to r. */
  method AddStateLetters(A: Automaton, S: set<nat>, r: set<Sym>) returns (r2: set<Sym>)
    requires S <= Below(|A.states|)
    ensures forall c :: c in r2 <==> c in r || StepsOn(A, S, c)
  {
    r2 := r;
    var rest := S;
    ghost var done: set<nat> := {};
    while rest != {}
      invariant done + rest == S
      invariant forall c :: c in r2 <==> c in r || StepsOn(A, done, c)
      decreases |rest|
    {
      var q :| q in rest;
      ghost var r1 := r2;
      r2 := AddRanges(A.states[q].transitions, r2);
      StepsOnAdd(A, done, q, r, r1, r2);
      done := done + {q};
      rest := rest - {q};
    }
  }

  lemma StepsOnAdd(A: Automaton, done: set<nat>, q: nat, r: set<Sym>, r1: set<Sym>, r2: set<Sym>)
    requires q < |A.states|
    requires forall c :: c in r1 <==> c in r || StepsOn(A, done, c)
    requires forall c :: c in r2 <==> c in r1 || Substrings.Offers(A.states[q].transitions, c)
    ensures forall c :: c in r2 <==> c in r || StepsOn(A, done + {q}, c)
  {
    forall c | StepsOn(A, done + {q}, c) ensures c in r2 {
      var x :| x in done + {q} && x < |A.states| && Substrings.Offers(A.states[x].transitions, c);
      if x != q {
        assert StepsOn(A, done, c);
      }
    }
  }

  /** `getRelevantLetters(stateA, stateB)`: the letters on the transitions of either state. */
  method GetRelevantLetters(P: Parts, t: Triple) returns (letters: set<Sym>)
    requires PartsValid(P) && TripleOk(P, t)
    ensures forall c :: c in letters <==> Relevant(P, t, c)
  {
    letters := AddStateLetters(P.sa, t.a, {});
    letters := AddStateLetters(P.sb, t.b, letters);
  }

  // ---------------------------------------------------------------------------------------
  // The worklist of mkParallel

  /** Every triple the worklist can meet: a finite set, so the worklist terminates. */
  ghost function Universe(P: Parts): (u: set<Triple>)
    ensures forall t :: TripleOk(P, t) ==> t in u
  {
    set x: set<nat>, m: nat, y: set<nat> | x <= Below(|P.sa.states|) && m < |P.mk.states| && y <= Below(|P.sb.states|)
      :: Triple(x, m, y)
  }

  /** The tables of the worklist: stateMap and owner are inverse, and the queue holds the
      latest triples in the order they were made. */
  ghost predicate Tables(memo: map<Triple, nat>, states: seq<State>, queue: seq<Triple>, owner: seq<Triple>) {
    |owner| == |states| && |queue| <= |owner| &&
    (forall i :: 0 <= i < |owner| ==> owner[i] in memo && memo[owner[i]] == i) &&
    (forall t :: t in memo ==> memo[t] < |owner| && owner[memo[t]] == t) &&
    queue == owner[|owner| - |queue|..]
  }

  /** The invariant of the worklist. */
  ghost predicate Core(P: Parts, memo: map<Triple, nat>, states: seq<State>, queue: seq<Triple>, owner: seq<Triple>) {
    Tables(memo, states, queue, owner) && PartsValid(P) &&
    0 < |owner| && owner[0] == Initial(P) &&
    (forall t :: t in memo ==> TripleOk(P, t)) &&
    FlagsOk(P, states, owner, |owner| - |queue|) &&
    EdgesOk(P, states, owner)
  }

  /** The first h triples are taken off the queue and carry their accept flags; the others
      still have bare states. */
  ghost predicate FlagsOk(P: Parts, states: seq<State>, owner: seq<Triple>, h: nat) {
    |states| == |owner| && h <= |owner| &&
    (forall i :: h <= i < |owner| ==> states[i] == State(false, [])) &&
    (forall i :: 0 <= i < h ==> TripleOk(P, owner[i]) && states[i].accept == WindowAccepts(P, owner[i]))
  }

  /** The move of triple j on c is in place. */
  ghost predicate EdgeDone(P: Parts, memo: map<Triple, nat>, states: seq<State>, owner: seq<Triple>, j: nat, c: Sym)
    requires j < |owner|
  {
    j < |states| && PartsValid(P) && TripleOk(P, owner[j]) &&
    Next(P, owner[j], c) in memo && Single(c, memo[Next(P, owner[j], c)]) in states[j].transitions
  }

  /** What a later step keeps of an earlier one: keys, their states, flags and edges. */
  ghost predicate Grows(memo: map<Triple, nat>, states: seq<State>, owner: seq<Triple>,
                        memo2: map<Triple, nat>, states2: seq<State>, owner2: seq<Triple>)
  {
    (forall t :: t in memo ==> t in memo2 && memo2[t] == memo[t]) &&
    |states| <= |states2| && |owner| <= |owner2| && owner2[..|owner|] == owner &&
    (forall i :: 0 <= i < |states| ==> states2[i].accept == states[i].accept) &&
    (forall i, e :: 0 <= i < |states| && e in states[i].transitions ==> e in states2[i].transitions)
  }

  lemma EdgeDoneGrows(P: Parts, memo: map<Triple, nat>, states: seq<State>, owner: seq<Triple>,
                      memo2: map<Triple, nat>, states2: seq<State>, owner2: seq<Triple>, j: nat, c: Sym)
    requires j < |owner| && EdgeDone(P, memo, states, owner, j, c)
    requires Grows(memo, states, owner, memo2, states2, owner2)
    ensures j < |owner2| && EdgeDone(P, memo2, states2, owner2, j, c)
  {
    assert owner2[j] == owner2[..|owner|][j];
  }

  lemma GrowsTrans(memo: map<Triple, nat>, states: seq<State>, owner: seq<Triple>,
                   memo2: map<Triple, nat>, states2: seq<State>, owner2: seq<Triple>,
                   memo3: map<Triple, nat>, states3: seq<State>, owner3: seq<Triple>)
    requires Grows(memo, states, owner, memo2, states2, owner2)
    requires Grows(memo2, states2, owner2, memo3, states3, owner3)
    ensures Grows(memo, states, owner, memo3, states3, owner3)
  {
    assert owner3[..|owner|] == owner3[..|owner2|][..|owner|];
  }

  /** Creating the state of a new triple keeps the invariant. */
  lemma AppendKeeps(P: Parts, memo: map<Triple, nat>, states: seq<State>, queue: seq<Triple>, owner: seq<Triple>, t: Triple)
    requires Core(P, memo, states, queue, owner) && t !in memo && TripleOk(P, t)
    ensures Core(P, memo[t := |owner|], states + [State(false, [])], queue + [t], owner + [t])
    ensures Grows(memo, states, owner, memo[t := |owner|], states + [State(false, [])], owner + [t])
  {
    var owner2, states2 := owner + [t], states + [State(false, [])];
    assert queue + [t] == owner2[|owner2| - |queue| - 1..];
    forall i | 0 <= i < |owner2| ensures owner2[i] in memo[t := |owner|] && memo[t := |owner|][owner2[i]] == i {
      if i < |owner| { assert owner2[i] == owner[i]; }
    }
    assert owner2[..|owner|] == owner;
    FlagsAppend(P, states, owner, |owner| - |queue|, t);
    EdgesAppend(P, states, owner, t);
  }

  lemma FlagsAppend(P: Parts, states: seq<State>, owner: seq<Triple>, h: nat, t: Triple)
    requires FlagsOk(P, states, owner, h)
    ensures FlagsOk(P, states + [State(false, [])], owner + [t], h)
  {
    var owner2, states2 := owner + [t], states + [State(false, [])];
    forall i | 0 <= i < h ensures TripleOk(P, owner2[i]) && states2[i].accept == WindowAccepts(P, owner2[i]) {
      assert owner2[i] == owner[i] && states2[i] == states[i];
    }
  }

  lemma EdgesAppend(P: Parts, states: seq<State>, owner: seq<Triple>, t: Triple)
    requires EdgesOk(P, states, owner)
    ensures EdgesOk(P, states + [State(false, [])], owner + [t])
  {
    var owner2, states2 := owner + [t], states + [State(false, [])];
    forall i, e | 0 <= i < |states2| && e in states2[i].transitions ensures EdgeOk(P, owner2, i, e) {
      assert states2[i] == states[i];
      assert EdgeOk(P, owner, i, e);
      assert owner2[i] == owner[i] && owner2[e.dest] == owner[e.dest];
    }
  }

  /** `stateMap.get(nextTriple)`, creating and enqueueing a fresh state when the triple is new. */
  method Lookup(P: Parts, t: Triple, memo: map<Triple, nat>, states: seq<State>, queue: seq<Triple>,
                ghost owner: seq<Triple>)
    returns (d: nat, memo2: map<Triple, nat>, states2: seq<State>, queue2: seq<Triple>, ghost owner2: seq<Triple>)
    requires Core(P, memo, states, queue, owner) && TripleOk(P, t)
    ensures Core(P, memo2, states2, queue2, owner2)
    ensures Grows(memo, states, owner, memo2, states2, owner2)
    ensures t in memo2 && d == memo2[t] && d < |owner2| && owner2[d] == t
    ensures |owner2| - |queue2| == |owner| - |queue|
    ensures memo.Keys <= memo2.Keys <= memo.Keys + {t}
    ensures memo2.Keys == memo.Keys ==> queue2 == queue
  {
    memo2, states2, queue2, owner2 := memo, states, queue, owner;
    if t in memo {
      d := memo[t];
    } else {
      AppendKeeps(P, memo, states, queue, owner, t);
      d := |states|;
      memo2 := memo[t := d];
      states2 := states + [State(false, [])];
      queue2 := queue + [t];
      owner2 := owner + [t];
    }
  }

  /** Adding a sound edge to a state already taken off the queue keeps the invariant. */
  lemma WithEdgeKeeps(P: Parts, memo: map<Triple, nat>, states: seq<State>, queue: seq<Triple>, owner: seq<Triple>,
                      i: nat, e: Transition)
    requires Core(P, memo, states, queue, owner)
    requires i < |owner| - |queue| && EdgeOk(P, owner, i, e)
    ensures Core(P, memo, WithEdge(states, i, e), queue, owner)
    ensures Grows(memo, states, owner, memo, WithEdge(states, i, e), owner)
  {
    var states2 := WithEdge(states, i, e);
    forall j, e' | 0 <= j < |states2| && e' in states2[j].transitions ensures EdgeOk(P, owner, j, e') {
      if j != i || e' != e { assert e' in states[j].transitions; }
    }
    assert owner[..|owner|] == owner;
  }

  /** One pass of the letter loop that is not skipped: the edge on c from triple j to the
      state of its next triple, created if new. */
  method Connect(P: Parts, cur: Triple, j: nat, c: Sym, memo: map<Triple, nat>, states: seq<State>, queue: seq<Triple>,
                 ghost owner: seq<Triple>)
    returns (memo2: map<Triple, nat>, states2: seq<State>, queue2: seq<Triple>, ghost owner2: seq<Triple>)
    requires Core(P, memo, states, queue, owner) && j < |owner| - |queue| && owner[j] == cur
    requires TripleOk(P, cur) && !WindowAccepts(P, cur) && Allowed(P, cur, c)
    ensures Core(P, memo2, states2, queue2, owner2)
    ensures Grows(memo, states, owner, memo2, states2, owner2)
    ensures |owner2| - |queue2| == |owner| - |queue|
    ensures j < |owner2| && EdgeDone(P, memo2, states2, owner2, j, c)
    ensures memo.Keys <= memo2.Keys && (memo2.Keys == memo.Keys ==> queue2 == queue)
  {
    var next := Next(P, cur, c);
    var d;
    d, memo2, states2, queue2, owner2 := Lookup(P, next, memo, states, queue, owner);
    ghost var memo1, states1, owner1 := memo2, states2, owner2;
    assert owner2[j] == owner[j] by { assert owner2[..|owner|] == owner; }
    WithEdgeKeeps(P, memo2, states2, queue2, owner2, j, Single(c, d));
    states2 := WithEdge(states2, j, Single(c, d));
    GrowsTrans(memo, states, owner, memo1, states1, owner1, memo2, states2, owner2);
  }

  /** Triple i, once taken off the queue, has all its edges unless it is a leaf. */
  ghost predicate Expanded(P: Parts, memo: map<Triple, nat>, states: seq<State>, owner: seq<Triple>, i: nat)
    requires i < |owner|
  {
    PartsValid(P) && TripleOk(P, owner[i]) &&
    (!WindowAccepts(P, owner[i]) ==>
       forall c :: Allowed(P, owner[i], c) ==> EdgeDone(P, memo, states, owner, i, c))
  }

  ghost predicate AllExpanded(P: Parts, memo: map<Triple, nat>, states: seq<State>, owner: seq<Triple>, h: nat) {
    h <= |owner| && forall i :: 0 <= i < h ==> Expanded(P, memo, states, owner, i)
  }

  lemma AllExpandedGrows(P: Parts, memo: map<Triple, nat>, states: seq<State>, owner: seq<Triple>,
                         memo2: map<Triple, nat>, states2: seq<State>, owner2: seq<Triple>, h: nat)
    requires AllExpanded(P, memo, states, owner, h) && Grows(memo, states, owner, memo2, states2, owner2)
    ensures AllExpanded(P, memo2, states2, owner2, h)
  {
    forall i | 0 <= i < h ensures Expanded(P, memo2, states2, owner2, i) {
      assert owner2[i] == owner[i] by { assert owner2[..|owner|] == owner; }
      assert Expanded(P, memo, states, owner, i);
      forall c | !WindowAccepts(P, owner[i]) && Allowed(P, owner[i], c) ensures EdgeDone(P, memo2, states2, owner2, i, c) {
        EdgeDoneGrows(P, memo, states, owner, memo2, states2, owner2, i, c);
      }
    }
  }

  /** The loop over the relevant letters of the current triple: every letter it moves on
      gets its edge, the markers that not all three automata can read are skipped. */
  method Expand(P: Parts, cur: Triple, j: nat, memo: map<Triple, nat>, states: seq<State>, queue: seq<Triple>,
                ghost owner: seq<Triple>)
    returns (memo2: map<Triple, nat>, states2: seq<State>, queue2: seq<Triple>, ghost owner2: seq<Triple>)
    requires Core(P, memo, states, queue, owner)
    requires j < |owner| - |queue| && owner[j] == cur && TripleOk(P, cur) && !WindowAccepts(P, cur)
    ensures Core(P, memo2, states2, queue2, owner2)
    ensures Grows(memo, states, owner, memo2, states2, owner2)
    ensures |owner2| - |queue2| == |owner| - |queue|
    ensures j < |owner2| && Expanded(P, memo2, states2, owner2, j)
    ensures memo.Keys <= memo2.Keys && (memo2.Keys == memo.Keys ==> queue2 == queue)
  {
    memo2, states2, queue2, owner2 := memo, states, queue, owner;
    assert owner[..|owner|] == owner;
    var letters := GetRelevantLetters(P, cur);
    var rest := letters;
    ghost var done: set<Sym> := {};
    while rest != {}
      invariant done + rest == letters
      invariant LettersDone(P, cur, j, memo, states, queue, owner, memo2, states2, queue2, owner2, done)
      decreases |rest|
    {
      var c :| c in rest;
      memo2, states2, queue2, owner2 := NextLetter(P, cur, j, memo, states, queue, owner, memo2, states2, queue2, owner2, done, c);
      done := done + {c};
      rest := rest - {c};
    }
    assert owner2[j] == cur by { assert owner2[..|owner|] == owner; }
  }

  /** The invariant of the letter loop: the tables have grown from the ones before the loop
      and every letter done that the current triple moves on has its edge. */
  ghost predicate LettersDone(P: Parts, cur: Triple, j: nat,
                              memo: map<Triple, nat>, states: seq<State>, queue: seq<Triple>, owner: seq<Triple>,
                              memo2: map<Triple, nat>, states2: seq<State>, queue2: seq<Triple>, owner2: seq<Triple>,
                              done: set<Sym>)
  {
    j < |owner| - |queue| && owner[j] == cur && TripleOk(P, cur) && !WindowAccepts(P, cur) &&
    Core(P, memo2, states2, queue2, owner2) &&
    Grows(memo, states, owner, memo2, states2, owner2) &&
    |owner2| - |queue2| == |owner| - |queue| &&
    (forall c :: c in done && Allowed(P, cur, c) ==> EdgeDone(P, memo2, states2, owner2, j, c)) &&
    memo.Keys <= memo2.Keys && (memo2.Keys == memo.Keys ==> queue2 == queue)
  }

  /** One pass of the letter loop keeps its invariant. */
  method NextLetter(P: Parts, cur: Triple, j: nat,
                    ghost memo: map<Triple, nat>, ghost states: seq<State>, ghost queue: seq<Triple>, ghost owner: seq<Triple>,
                    memo1: map<Triple, nat>, states1: seq<State>, queue1: seq<Triple>, ghost owner1: seq<Triple>,
                    ghost done: set<Sym>, c: Sym)
    returns (memo2: map<Triple, nat>, states2: seq<State>, queue2: seq<Triple>, ghost owner2: seq<Triple>)
    requires LettersDone(P, cur, j, memo, states, queue, owner, memo1, states1, queue1, owner1, done)
    requires Relevant(P, cur, c)
    ensures LettersDone(P, cur, j, memo, states, queue, owner, memo2, states2, queue2, owner2, done + {c})
  {
    assert owner1[j] == cur by { assert owner1[..|owner|] == owner; }
    memo2, states2, queue2, owner2 := MoveOn(P, cur, j, c, memo1, states1, queue1, owner1);
    LetterStep(P, memo, states, queue, owner, memo1, states1, queue1, owner1, memo2, states2, queue2, owner2, j, done, c);
  }

  lemma AllExpandedNext(P: Parts, memo: map<Triple, nat>, states: seq<State>, owner: seq<Triple>, h: nat)
    requires AllExpanded(P, memo, states, owner, h) && h < |owner| && Expanded(P, memo, states, owner, h)
    ensures AllExpanded(P, memo, states, owner, h + 1)
  {
  }

  /** One pass of the letter loop: a marker that not all three automata can read is
      skipped, any other letter gets its edge. */
  method MoveOn(P: Parts, cur: Triple, j: nat, c: Sym, memo: map<Triple, nat>, states: seq<State>, queue: seq<Triple>,
                ghost owner: seq<Triple>)
    returns (memo2: map<Triple, nat>, states2: seq<State>, queue2: seq<Triple>, ghost owner2: seq<Triple>)
    requires Core(P, memo, states, queue, owner) && j < |owner| - |queue| && owner[j] == cur
    requires TripleOk(P, cur) && !WindowAccepts(P, cur) && Relevant(P, cur, c)
    ensures Core(P, memo2, states2, queue2, owner2)
    ensures Grows(memo, states, owner, memo2, states2, owner2)
    ensures |owner2| - |queue2| == |owner| - |queue|
    ensures j < |owner2| && (Allowed(P, cur, c) ==> EdgeDone(P, memo2, states2, owner2, j, c))
    ensures memo.Keys <= memo2.Keys && (memo2.Keys == memo.Keys ==> queue2 == queue)
  {
    if (c == PLUS || c == MINUS) &&
       (SubsetStep(P.sa, cur.a, c) == {} || SubsetStep(P.sb, cur.b, c) == {} || Step(P.mk, cur.m, c).None?) {
      memo2, states2, queue2, owner2 := memo, states, queue, owner;
      assert owner[..|owner|] == owner;
    } else {
      memo2, states2, queue2, owner2 := Connect(P, cur, j, c, memo, states, queue, owner);
    }
  }

  /** One letter more: the edges made so far survive the latest one. */
  lemma LetterStep(P: Parts, memo: map<Triple, nat>, states: seq<State>, queue: seq<Triple>, owner: seq<Triple>,
                   memo1: map<Triple, nat>, states1: seq<State>, queue1: seq<Triple>, owner1: seq<Triple>,
                   memo2: map<Triple, nat>, states2: seq<State>, queue2: seq<Triple>, owner2: seq<Triple>,
                   j: nat, done: set<Sym>, c: Sym)
    requires j < |owner| && j < |owner1| && owner1[j] == owner[j] && PartsValid(P) && TripleOk(P, owner[j])
    requires Grows(memo, states, owner, memo1, states1, owner1)
    requires Grows(memo1, states1, owner1, memo2, states2, owner2)
    requires forall x :: x in done && Allowed(P, owner[j], x) ==> EdgeDone(P, memo1, states1, owner1, j, x)
    requires j < |owner2| && (Allowed(P, owner[j], c) ==> EdgeDone(P, memo2, states2, owner2, j, c))
    requires memo.Keys <= memo1.Keys && (memo1.Keys == memo.Keys ==> queue1 == queue)
    requires memo1.Keys <= memo2.Keys && (memo2.Keys == memo1.Keys ==> queue2 == queue1)
    ensures Grows(memo, states, owner, memo2, states2, owner2)
    ensures forall x :: x in done + {c} && Allowed(P, owner[j], x) ==> EdgeDone(P, memo2, states2, owner2, j, x)
    ensures memo.Keys <= memo2.Keys && (memo2.Keys == memo.Keys ==> queue2 == queue)
  {
    GrowsTrans(memo, states, owner, memo1, states1, owner1, memo2, states2, owner2);
    forall x | x in done && Allowed(P, owner[j], x) ensures EdgeDone(P, memo2, states2, owner2, j, x) {
      EdgeDoneGrows(P, memo1, states1, owner1, memo2, states2, owner2, j, x);
    }
  }

  /** The tables right after the initial triple is put in place. */
  lemma InitialCore(P: Parts)
    requires PartsValid(P)
    ensures Core(P, map[Initial(P) := 0], [State(false, [])], [Initial(P)], [Initial(P)])
    ensures AllExpanded(P, map[Initial(P) := 0], [State(false, [])], [Initial(P)], 0)
  {
  }

  /** Taking the head of the queue off and setting its accept flag. */
  lemma PopKeeps(P: Parts, memo: map<Triple, nat>, states: seq<State>, queue: seq<Triple>, owner: seq<Triple>,
                 states2: seq<State>)
    requires Core(P, memo, states, queue, owner) && queue != []
    requires AllExpanded(P, memo, states, owner, |owner| - |queue|)
    requires TripleOk(P, queue[0])
    requires states2 == states[|owner| - |queue| := State(WindowAccepts(P, queue[0]), states[|owner| - |queue|].transitions)]
    ensures owner[|owner| - |queue|] == queue[0] && memo[queue[0]] == |owner| - |queue|
    ensures Core(P, memo, states2, queue[1..], owner)
    ensures AllExpanded(P, memo, states2, owner, |owner| - |queue|)
    ensures WindowAccepts(P, queue[0]) ==> AllExpanded(P, memo, states2, owner, |owner| - |queue| + 1)
  {
    var h := |owner| - |queue|;
    assert owner[h] == queue[0];
    assert states[h] == State(false, []);
    forall i | 0 <= i < h ensures Expanded(P, memo, states2, owner, i) {
      assert Expanded(P, memo, states, owner, i);
      assert states2[i] == states[i];
    }
    assert queue[1..] == owner[h + 1..];
    forall i, e | 0 <= i < |states2| && e in states2[i].transitions ensures EdgeOk(P, owner, i, e) {
      assert e in states[i].transitions;
    }
  }

  /** When the queue is empty, the tables are the product. */
  lemma FinalProduct(P: Parts, memo: map<Triple, nat>, states: seq<State>, owner: seq<Triple>)
    requires Core(P, memo, states, [], owner) && AllExpanded(P, memo, states, owner, |owner|)
    ensures IsProduct(P, Automaton(states, 0), owner)
  {
    forall i, j | 0 <= i < j < |owner| ensures owner[i] != owner[j] {
      assert memo[owner[i]] == i && memo[owner[j]] == j;
    }
    forall i, c | 0 <= i < |owner| && TripleOk(P, owner[i]) && !WindowAccepts(P, owner[i]) && Allowed(P, owner[i], c)
      ensures HasEdge(states, owner, i, c, Next(P, owner[i], c))
    {
      assert Expanded(P, memo, states, owner, i);
      var d := memo[Next(P, owner[i], c)];
      assert owner[d] == Next(P, owner[i], c);
    }
  }

  /** One round of the worklist: the head of the queue is taken off, marked accepting or
      expanded. Either a new triple is met or the queue gets shorter. */
  method ProcessHead(P: Parts, memo: map<Triple, nat>, states: seq<State>, queue: seq<Triple>, ghost owner: seq<Triple>)
    returns (memo2: map<Triple, nat>, states2: seq<State>, queue2: seq<Triple>, ghost owner2: seq<Triple>)
    requires Core(P, memo, states, queue, owner) && queue != []
    requires AllExpanded(P, memo, states, owner, |owner| - |queue|)
    ensures Core(P, memo2, states2, queue2, owner2)
    ensures AllExpanded(P, memo2, states2, owner2, |owner2| - |queue2|)
    ensures memo2.Keys == memo.Keys || |Universe(P) - memo2.Keys| < |Universe(P) - memo.Keys|
    ensures memo2.Keys == memo.Keys ==> |queue2| < |queue|
  {
    var current := queue[0];
    assert current in memo;
    var j := memo[current];
    var accept := P.mk.states[current.m].accept;
    memo2, states2, queue2, owner2 := memo, states[j := State(accept, states[j].transitions)], queue[1..], owner;
    PopKeeps(P, memo, states, queue, owner, states2);
    if !accept {
      ghost var states1 := states2;
      memo2, states2, queue2, owner2 := Expand(P, current, j, memo2, states2, queue2, owner2);
      AllExpandedGrows(P, memo, states1, owner, memo2, states2, owner2, j);
      AllExpandedNext(P, memo2, states2, owner2, j);
    } else {
      assert WindowAccepts(P, queue[0]);
    }
    if memo2.Keys != memo.Keys {
      ShrinkingDifference(Universe(P), memo.Keys, memo2.Keys);
    }
  }

  /** The main loop, from the initial triple until the queue is empty. */
  method RunWorklist(P: Parts) returns (memo: map<Triple, nat>, states: seq<State>, ghost owner: seq<Triple>)
    requires PartsValid(P)
    ensures Core(P, memo, states, [], owner)
    ensures AllExpanded(P, memo, states, owner, |owner|)
  {
    var initialTriple := Initial(P);
    memo := map[initialTriple := 0];
    states := [State(false, [])];
    var queue := [initialTriple];
    owner := [initialTriple];
    InitialCore(P);
    while queue != []
      invariant Core(P, memo, states, queue, owner)
      invariant AllExpanded(P, memo, states, owner, |owner| - |queue|)
      decreases |Universe(P) - memo.Keys|, |queue|
    {
      memo, states, queue, owner := ProcessHead(P, memo, states, queue, owner);
    }
  }

  /** Steps 3 and 4 of `mkParallel`: the product of the operands and the window automaton,
      explored from the triple of start states. */
  method BuildProduct(P: Parts) returns (p: Automaton, ghost owner: seq<Triple>)
    requires PartsValid(P)
    ensures IsProduct(P, p, owner)
  {
    var memo, states;
    memo, states, owner := RunWorklist(P);
    p := Automaton(states, 0);
    FinalProduct(P, memo, states, owner);
  }

  /** A product is a valid automaton. */
  lemma ProductValid(P: Parts, p: Automaton, owner: seq<Triple>)
    requires IsProduct(P, p, owner)
    ensures Valid(p)
  {
    forall q, e | 0 <= q < |p.states| && e in p.states[q].transitions ensures e.dest < |p.states| && e.min <= e.max {
      assert EdgeOk(P, owner, q, e);
    }
  }

  /**
   * `mkParallel(a, b, k)` (the final determinize and minimize keep the language): the
   * product of the all-substrings automata of a and b and the window automaton over their
   * joint alphabet. It accepts exactly the words its start triple accepts by moves until a
   * leaf, and every such word is a k-window over the letters of a and b.
   */
  method MkParallel(a: Automaton, b: Automaton, k: nat)
    returns (r: Automaton, ghost alphabet: set<Sym>, ghost P: Parts, ghost owner: seq<Triple>)
    requires Valid(a) && Valid(b)
    ensures Valid(r) && IsProduct(P, r, owner)
    ensures forall c :: c in alphabet <==> Substrings.InAlphabet(a, c) || Substrings.InAlphabet(b, c)
    ensures forall w :: Accepts(P.sa, w) <==> Window.IsWindow(a, w)
    ensures forall w :: Accepts(P.sb, w) <==> Window.IsWindow(b, w)
    ensures forall w :: Accepts(P.mk, w) <==> 2 <= k <= 5 && WindowAutomaton.WindowWord(alphabet, k, w)
    ensures forall w :: Accepts(r, w) <==> ProductAccepts(P, Initial(P), w)
    ensures forall w :: Accepts(r, w) ==> 2 <= k <= 5 && WindowAutomaton.WindowWord(alphabet, k, w)
  {
    var sa := Substrings.ComputeAllSubstringsAutomaton(a);
    var sb := Substrings.ComputeAllSubstringsAutomaton(b);
    var alphabetA := Substrings.GetAlphabet(sa);
    var alphabetB := Substrings.GetAlphabet(sb);
    var letters := alphabetA + alphabetB;
    alphabet := letters;
    var mk := WindowAutomaton.CreateMkAutomaton(letters, k);
    var parts := Parts(sa, mk, sb);
    P := parts;
    r, owner := BuildProduct(parts);
    ProductValid(P, r, owner);
    assert PLUS !in letters && MINUS !in letters;
    forall w ensures Accepts(r, w) <==> ProductAccepts(P, Initial(P), w) {
      ProductLanguage(P, r, owner, 0, w);
    }
    forall w | Accepts(r, w) ensures 2 <= k <= 5 && WindowAutomaton.WindowWord(alphabet, k, w) {
      ParallelWindow(P, r, owner, alphabet, k, w);
    }
  }

  /** A word the product accepts is accepted by its window automaton. */
  lemma ParallelWindow(P: Parts, r: Automaton, owner: seq<Triple>, A: set<Sym>, k: nat, w: seq<Sym>)
    requires IsProduct(P, r, owner) && Accepts(r, w) && WindowAutomaton.ReadsAll(P.mk, A)
    requires forall x :: Substrings.InAlphabet(P.sa, x) || Substrings.InAlphabet(P.sb, x) ==> x in A
    requires forall v :: Accepts(P.mk, v) <==> 2 <= k <= 5 && WindowAutomaton.WindowWord(A, k, v)
    ensures 2 <= k <= 5 && WindowAutomaton.WindowWord(A, k, w)
  {
    ProductLanguage(P, r, owner, 0, w);
    StartReached(P);
    ProductInWindow(P, A, Initial(P), w);
    assert Accepts(P.mk, w);
  }

  lemma StartReached(P: Parts)
    requires PartsValid(P)
    ensures Reached(P, Initial(P))
  {
    assert Path(P.sa, P.sa.initial, [], P.sa.initial);
    assert Path(P.sb, P.sb.initial, [], P.sb.initial);
  }
}
