/**
 * `computeAllSubstringsAutomaton(a)` and `getAlphabet(a)`, the preparation of the operands
 * of `mkParallel`. The all-substrings automaton makes every state of a accepting and
 * enters a fresh start state with epsilon moves to every state: it accepts exactly the
 * words that label a path between reachable states of a.
 */
module Substrings {
  import opened Automata
  import Epsilons
  import Window

  /** r keeps the states of a with their transitions, every reachable one accepting, plus
      one more state. */
  ghost predicate MarkedCopy(a: Automaton, r: Automaton) {
    |r.states| == |a.states| + 1 &&
    forall q :: 0 <= q < |a.states| ==>
      r.states[q].transitions == a.states[q].transitions && (Reachable(a, q) ==> r.states[q].accept)
  }

  /** From a reachable state, the marked copy accepts along every path of a. */
  lemma {:induction false} MarkedPathAccepts(a: Automaton, r: Automaton, d: nat, x: seq<Sym>, q: nat)
    requires Valid(a) && MarkedCopy(a, r) && Reachable(a, d) && Path(a, d, x, q)
    ensures AcceptsFrom(r, d, x)
    decreases |x|
  {
    Epsilons.ReachableBelow(a, d);
    if x != [] {
      var t :| t in a.states[d].transitions && Covers(t, x[0]) && Path(a, t.dest, x[1..], q);
      ReachableStep(a, d, t);
      MarkedPathAccepts(a, r, t.dest, x[1..], q);
      assert t in r.states[d].transitions;
    }
  }

  /** What the marked copy accepts from a reachable state labels a path of a, ending in q. */
  lemma {:induction false} MarkedAcceptsPath(a: Automaton, r: Automaton, d: nat, x: seq<Sym>) returns (q: nat)
    requires Valid(a) && MarkedCopy(a, r) && Reachable(a, d) && AcceptsFrom(r, d, x)
    ensures Path(a, d, x, q)
    decreases |x|
  {
    Epsilons.ReachableBelow(a, d);
    if x == [] {
      q := d;
    } else {
      var t :| t in r.states[d].transitions && Covers(t, x[0]) && AcceptsFrom(r, t.dest, x[1..]);
      assert t in a.states[d].transitions;
      ReachableStep(a, d, t);
      q := MarkedAcceptsPath(a, r, t.dest, x[1..]);
    }
  }

  /** The start state of r accepts and holds the transitions of every reachable state of a:
      r accepts exactly the windows of a. */
  lemma SubstringLanguage(a: Automaton, r: Automaton, reach: set<nat>, w: seq<Sym>)
    requires Valid(a) && MarkedCopy(a, r) && r.initial == |a.states| && TakesOver(a, reach, r.states[r.initial])
    requires forall q :: q in reach <==> Reachable(a, q)
    ensures Accepts(r, w) <==> Window.IsWindow(a, w)
  {
    if w == [] {
      assert Path(a, a.initial, [], a.initial);
      assert Reachable(a, a.initial);
    } else {
      if Accepts(r, w) {
        var t :| t in r.states[r.initial].transitions && Covers(t, w[0]) && AcceptsFrom(r, t.dest, w[1..]);
        var s :| s in reach && s < |a.states| && t in a.states[s].transitions;
        ReachableStep(a, s, t);
        var q := MarkedAcceptsPath(a, r, t.dest, w[1..]);
        assert Path(a, s, w, q);
      }
      if Window.IsWindow(a, w) {
        var s: nat, q: nat :| Reachable(a, s) && Path(a, s, w, q);
        var t :| t in a.states[s].transitions && Covers(t, w[0]) && Path(a, t.dest, w[1..], q);
        Epsilons.ReachableBelow(a, s);
        ReachableStep(a, s, t);
        MarkedPathAccepts(a, r, t.dest, w[1..], q);
        assert s in reach && t in r.states[r.initial].transitions;
      }
    }
  }

  /** `computeAllSubstringsAutomaton(a)` (the final determinize keeps the language): every
      reachable state is made accepting and gets an epsilon move from the new start state. */
  method ComputeAllSubstringsAutomaton(a: Automaton) returns (r: Automaton)
    requires Valid(a)
    ensures Valid(r) && r.initial == |a.states| && |r.states| == |a.states| + 1
    ensures forall w :: Accepts(r, w) <==> Window.IsWindow(a, w)
    ensures forall c :: InAlphabet(r, c) <==> InAlphabet(a, c)
  {
    var n := |a.states|;
    var reach := GetStates(a);
    forall q | q in reach ensures q < n {
      Epsilons.ReachableBelow(a, q);
    }
    var states, pairs := MarkReachable(a, reach);
    r := AbsorbReachable(a, reach, states, pairs);
    forall w ensures Accepts(r, w) <==> Window.IsWindow(a, w) {
      SubstringLanguage(a, r, reach, w);
    }
    forall c ensures InAlphabet(r, c) <==> InAlphabet(a, c) {
      SubstringAlphabet(a, r, reach, c);
    }
  }

  /** The states of a that r reaches are the reachable states of a. */
  lemma ReachedInA(a: Automaton, r: Automaton, reach: set<nat>, q: nat)
    requires Valid(a) && MarkedCopy(a, r) && r.initial == |a.states| && TakesOver(a, reach, r.states[r.initial])
    requires forall q :: q in reach <==> Reachable(a, q)
    requires Reachable(r, q) && q < |a.states|
    ensures q in reach
  {
    var n := |a.states|;
    var C := reach + {n};
    forall x, t | x in C && x < |r.states| && t in r.states[x].transitions ensures t.dest in C {
      if x == n {
        var s :| s in reach && s < n && t in a.states[s].transitions;
        ReachableStep(a, s, t);
      } else {
        Epsilons.ReachableBelow(a, x);
        ReachableStep(a, x, t);
      }
    }
    var w :| Path(r, r.initial, w, q);
    ClosedReach(r, C, n, w, q);
  }

  /** r and a use the same letters: the start state of r offers those of every reachable
      state of a, and the other states of r are reachable states of a. */
  lemma SubstringAlphabet(a: Automaton, r: Automaton, reach: set<nat>, c: Sym)
    requires Valid(a) && MarkedCopy(a, r) && r.initial == |a.states| && TakesOver(a, reach, r.states[r.initial])
    requires forall q :: q in reach <==> Reachable(a, q)
    ensures InAlphabet(r, c) <==> InAlphabet(a, c)
  {
    var n := |a.states|;
    if InAlphabet(a, c) {
      var q: nat :| Reachable(a, q) && q < n && Offers(a.states[q].transitions, c);
      var t :| t in a.states[q].transitions && Covers(t, c);
      assert t in r.states[n].transitions;
      assert Path(r, n, [], n);
      assert Offers(r.states[n].transitions, c);
    }
    if InAlphabet(r, c) {
      var q: nat :| Reachable(r, q) && q < |r.states| && Offers(r.states[q].transitions, c);
      var t :| t in r.states[q].transitions && Covers(t, c);
      if q == n {
        var s :| s in reach && s < n && t in a.states[s].transitions;
        assert Offers(a.states[s].transitions, c);
      } else {
        ReachedInA(a, r, reach, q);
        assert Offers(a.states[q].transitions, c);
      }
    }
  }

  /** `addEpsilons` on the marked states, then the new state made initial. */
  method AbsorbReachable(a: Automaton, reach: set<nat>, states: seq<State>, pairs: seq<(nat, nat)>) returns (r: Automaton)
    requires Valid(a) && (forall q :: q in reach <==> Reachable(a, q)) && reach <= Below(|a.states|)
    requires |states| == |a.states| + 1 && states[|a.states|] == State(false, [])
    requires forall q :: 0 <= q < |a.states| ==> states[q].transitions == a.states[q].transitions
    requires forall q :: 0 <= q < |a.states| ==> (states[q].accept <==> a.states[q].accept || q in reach)
    requires PairsTo(pairs, |a.states|, reach) && Epsilons.PairsIn(|states|, pairs)
    ensures Valid(r) && r.initial == |a.states| && MarkedCopy(a, r) && TakesOver(a, reach, r.states[r.initial])
  {
    var n := |a.states|;
    var marked := Automaton(states, a.initial);
    assert Valid(marked);
    var r0 := AddStartEpsilons(marked, pairs, n);
    r := Automaton(r0.states, n);
    Reinitial(r0, n);
    KeptBelow(a, reach, marked, r0);
    assert a.initial in reach by {
      assert Path(a, a.initial, [], a.initial);
    }
    StartAbsorbs(a, reach, marked, pairs, r0.states[n]);
  }

  /** addEpsilons on the marked copy, where every pair leaves the new state n: the states
      below n keep their form and n absorbs its closure. */
  method AddStartEpsilons(marked: Automaton, pairs: seq<(nat, nat)>, n: nat) returns (r0: Automaton)
    requires Valid(marked) && |marked.states| == n + 1 && Epsilons.PairsIn(n + 1, pairs)
    requires forall i :: 0 <= i < |pairs| ==> pairs[i].0 == n
    ensures Valid(r0) && |r0.states| == n + 1
    ensures forall q :: 0 <= q < n ==> r0.states[q] == marked.states[q]
    ensures Epsilons.Absorbed(marked, Epsilons.Closure(n + 1, pairs, n), n, r0.states[n])
  {
    r0 := Epsilons.AddEpsilons(marked, pairs);
    forall q | 0 <= q < n ensures r0.states[q] == marked.states[q] {
      assert Epsilons.NoPairFrom(pairs, q);
    }
  }

  /** The loop over `getStates()`: every reachable state is made accepting and paired with
      the new state n. */
  method MarkReachable(a: Automaton, reach: set<nat>) returns (states: seq<State>, pairs: seq<(nat, nat)>)
    requires reach <= Below(|a.states|)
    ensures |states| == |a.states| + 1 && states[|a.states|] == State(false, [])
    ensures forall q :: 0 <= q < |a.states| ==> states[q].transitions == a.states[q].transitions
    ensures forall q :: 0 <= q < |a.states| ==> (states[q].accept <==> a.states[q].accept || q in reach)
    ensures PairsTo(pairs, |a.states|, reach) && Epsilons.PairsIn(|states|, pairs)
  {
    var n := |a.states|;
    states := a.states + [State(false, [])];
    pairs := [];
    var rest := reach;
    ghost var done: set<nat> := {};
    while rest != {}
      invariant done + rest == reach
      invariant MarkedUpTo(a, done, states, pairs)
      decreases |rest|
    {
      var s :| s in rest;
      states, pairs := MarkOne(a, done, states, pairs, s);
      done := done + {s};
      rest := rest - {s};
    }
    MarkedAll(a, reach, states, pairs);
  }

  /** One round of the marking loop: s is made accepting and paired with the new state. */
  method MarkOne(a: Automaton, ghost done: set<nat>, states: seq<State>, pairs: seq<(nat, nat)>, s: nat)
    returns (states2: seq<State>, pairs2: seq<(nat, nat)>)
    requires MarkedUpTo(a, done, states, pairs) && s < |a.states|
    ensures MarkedUpTo(a, done + {s}, states2, pairs2)
  {
    states2 := states[s := State(true, states[s].transitions)];
    PairsToSnoc(pairs, |a.states|, done, s);
    pairs2 := pairs + [(|a.states|, s)];
  }

  lemma MarkedAll(a: Automaton, reach: set<nat>, states: seq<State>, pairs: seq<(nat, nat)>)
    requires MarkedUpTo(a, reach, states, pairs) && reach <= Below(|a.states|)
    ensures |states| == |a.states| + 1 && states[|a.states|] == State(false, [])
    ensures forall q :: 0 <= q < |a.states| ==> states[q].transitions == a.states[q].transitions
    ensures forall q :: 0 <= q < |a.states| ==> (states[q].accept <==> a.states[q].accept || q in reach)
    ensures PairsTo(pairs, |a.states|, reach) && Epsilons.PairsIn(|states|, pairs)
  {
    forall i | 0 <= i < |pairs| ensures pairs[i].1 < |a.states| {
      assert pairs[i].1 in reach;
    }
  }

  /** The invariant of the marking loop: the states of done are marked and paired with n. */
  ghost predicate MarkedUpTo(a: Automaton, done: set<nat>, states: seq<State>, pairs: seq<(nat, nat)>) {
    |states| == |a.states| + 1 && states[|a.states|] == State(false, []) &&
    (forall q :: 0 <= q < |a.states| ==> states[q].transitions == a.states[q].transitions) &&
    (forall q :: 0 <= q < |a.states| ==> (states[q].accept <==> a.states[q].accept || q in done)) &&
    PairsTo(pairs, |a.states|, done)
  }

  lemma Reinitial(r0: Automaton, i: nat)
    requires Valid(r0) && i < |r0.states|
    ensures Valid(Automaton(r0.states, i))
  {
  }

  /** The states of a keep their marked form. */
  lemma KeptBelow(a: Automaton, reach: set<nat>, marked: Automaton, r0: Automaton)
    requires Valid(a) && (forall q :: q in reach <==> Reachable(a, q))
    requires |marked.states| == |a.states| + 1 && |r0.states| == |marked.states|
    requires forall q :: 0 <= q < |a.states| ==> marked.states[q].transitions == a.states[q].transitions
    requires forall q :: 0 <= q < |a.states| ==> (marked.states[q].accept <==> a.states[q].accept || q in reach)
    requires forall q :: 0 <= q < |a.states| ==> r0.states[q] == marked.states[q]
    ensures MarkedCopy(a, Automaton(r0.states, |a.states|))
  {
  }

  /** The pairs lead from p to exactly the states of targets. */
  ghost predicate PairsTo(pairs: seq<(nat, nat)>, p: nat, targets: set<nat>) {
    (forall i :: 0 <= i < |pairs| ==> pairs[i].0 == p && pairs[i].1 in targets) &&
    (forall s :: s in targets ==> exists i :: 0 <= i < |pairs| && pairs[i].1 == s)
  }

  lemma PairsToSnoc(pairs: seq<(nat, nat)>, p: nat, targets: set<nat>, s: nat)
    requires PairsTo(pairs, p, targets)
    ensures PairsTo(pairs + [(p, s)], p, targets + {s})
  {
    var pairs2 := pairs + [(p, s)];
    forall x | x in targets + {s} ensures exists i :: 0 <= i < |pairs2| && pairs2[i].1 == x {
      if x == s {
        assert pairs2[|pairs|].1 == s;
      } else {
        var i :| 0 <= i < |pairs| && pairs[i].1 == x;
        assert pairs2[i] == pairs[i];
      }
    }
  }

  /** s accepts and holds exactly the transitions of the states of reach. */
  ghost predicate TakesOver(a: Automaton, reach: set<nat>, s: State) {
    s.accept &&
    (forall t :: t in s.transitions ==> exists q :: q in reach && q < |a.states| && t in a.states[q].transitions) &&
    (forall q, t :: q in reach && q < |a.states| && t in a.states[q].transitions ==> t in s.transitions)
  }

  /** What addEpsilons makes of the new start state: it accepts and holds the transitions of
      every reachable state. */
  lemma StartAbsorbs(a: Automaton, reach: set<nat>, marked: Automaton, pairs: seq<(nat, nat)>, s: State)
    requires a.initial in reach && reach <= Below(|a.states|)
    requires |marked.states| == |a.states| + 1 && marked.states[|a.states|] == State(false, [])
    requires forall q :: 0 <= q < |a.states| ==> marked.states[q].transitions == a.states[q].transitions
    requires forall q :: q in reach ==> q < |marked.states| && marked.states[q].accept
    requires PairsTo(pairs, |a.states|, reach)
    requires Epsilons.Absorbed(marked, Epsilons.Closure(|a.states| + 1, pairs, |a.states|), |a.states|, s)
    ensures TakesOver(a, reach, s)
  {
    StartClosure(a, reach, pairs);
    AbsorbsReach(a, reach, marked, s);
  }

  /** A state that absorbs the reachable states of the marked copy takes them over. */
  lemma AbsorbsReach(a: Automaton, reach: set<nat>, marked: Automaton, s: State)
    requires a.initial in reach && reach <= Below(|a.states|)
    requires |marked.states| == |a.states| + 1 && marked.states[|a.states|] == State(false, [])
    requires forall q :: 0 <= q < |a.states| ==> marked.states[q].transitions == a.states[q].transitions
    requires forall q :: q in reach ==> q < |marked.states| && marked.states[q].accept
    requires Epsilons.Absorbed(marked, reach, |a.states|, s)
    ensures TakesOver(a, reach, s)
  {
    var n := |a.states|;
    assert marked.states[a.initial].accept;
    forall t | t in s.transitions
      ensures exists q :: q in reach && q < n && t in a.states[q].transitions
    {
      assert t !in marked.states[n].transitions;
      var q: nat :| q in reach && q < n + 1 && t in marked.states[q].transitions;
    }
    forall q, t | q in reach && q < n && t in a.states[q].transitions
      ensures t in s.transitions
    {
      assert t in marked.states[q].transitions;
    }
  }

  /** The closure of the new start state is the set of reachable states. */
  lemma StartClosure(a: Automaton, reach: set<nat>, pairs: seq<(nat, nat)>)
    requires reach <= Below(|a.states|) && PairsTo(pairs, |a.states|, reach)
    ensures Epsilons.Closure(|a.states| + 1, pairs, |a.states|) == reach
  {
    var n := |a.states|;
    assert Epsilons.PairsIn(n + 1, pairs);
    forall x: nat ensures x in Epsilons.Closure(n + 1, pairs, n) <==> x in reach {
      Epsilons.StarPairs(n + 1, pairs, n, x);
    }
  }

  // ---------------------------------------------------------------------------------------
  // getAlphabet

  /** Some transition of ts is on c. */
  predicate Offers(ts: seq<Transition>, c: Sym) {
    exists t :: t in ts && Covers(t, c)
  }

  /** c is an ordinary letter (not a trace marker) on a transition of a reachable state. */
  ghost predicate InAlphabet(a: Automaton, c: Sym) {
    c != PLUS && c != MINUS &&
    exists q: nat :: Reachable(a, q) && q < |a.states| && Offers(a.states[q].transitions, c)
  }

  /** `getAlphabet(a)`: every character on a transition of a (reachable) state, '+' and '-' left out. */
  method GetAlphabet(a: Automaton) returns (r: set<Sym>)
    requires Valid(a)
    ensures forall c :: c in r <==> InAlphabet(a, c)
    ensures PLUS !in r && MINUS !in r
  {
    var reach := GetStates(a);
    r := {};
    var rest := reach;
    while rest != {}
      invariant rest <= reach
      invariant forall c :: c in r <==> LetterOf(a, reach - rest, c)
      decreases |rest|
    {
      var q :| q in rest;
      Epsilons.ReachableBelow(a, q);
      ghost var r0 := r;
      r := AddLetters(a.states[q].transitions, r);
      LetterOfAdd(a, reach - rest, q, r0, r);
      assert reach - (rest - {q}) == (reach - rest) + {q};
      rest := rest - {q};
    }
    assert reach - rest == reach;
  }

  /** c is an ordinary letter on a transition of a state of qs. */
  ghost predicate LetterOf(a: Automaton, qs: set<nat>, c: Sym) {
    c != PLUS && c != MINUS && exists q: nat :: q in qs && q < |a.states| && Offers(a.states[q].transitions, c)
  }

  lemma LetterOfAdd(a: Automaton, qs: set<nat>, q: nat, r0: set<Sym>, r: set<Sym>)
    requires q < |a.states| && forall c :: c in r0 <==> LetterOf(a, qs, c)
    requires forall c :: c in r <==> c in r0 || (c != PLUS && c != MINUS && Offers(a.states[q].transitions, c))
    ensures forall c :: c in r <==> LetterOf(a, qs + {q}, c)
  {
    forall c | LetterOf(a, qs + {q}, c) ensures c in r {
      var x: nat :| x in qs + {q} && x < |a.states| && Offers(a.states[x].transitions, c);
      if x != q {
        assert LetterOf(a, qs, c);
      }
    }
  }

  /** The loops over the transitions of one state and over the characters of each. */
  method AddLetters(ts: seq<Transition>, r: set<Sym>) returns (r2: set<Sym>)
    ensures forall c :: c in r2 <==> c in r || (c != PLUS && c != MINUS && Offers(ts, c))
  {
    r2 := r;
    var i := 0;
    while i < |ts|
      invariant i <= |ts|
      invariant forall c :: c in r2 <==> c in r || (c != PLUS && c != MINUS && Offers(ts[..i], c))
    {
      var t := ts[i];
      var c: int := t.min as int;
      while c <= t.max as int
        invariant t.min as int <= c && (c == t.min as int || c <= t.max as int + 1)
        invariant forall d :: d in r2 <==>
          (d in r || (d != PLUS && d != MINUS && (Offers(ts[..i], d) || (t.min <= d && (d as int) < c))))
      {
        if c as Sym != PLUS && c as Sym != MINUS {
          r2 := r2 + {c as Sym};
        }
        c := c + 1;
      }
      OffersSnoc(ts, i);
      i := i + 1;
    }
    assert ts[..i] == ts;
  }

  lemma OffersSnoc(ts: seq<Transition>, i: nat)
    requires i < |ts|
    ensures forall c :: Offers(ts[..i + 1], c) <==> Offers(ts[..i], c) || Covers(ts[i], c)
  {
    assert ts[..i + 1] == ts[..i] + [ts[i]];
    forall c | Offers(ts[..i + 1], c) && !Covers(ts[i], c) ensures Offers(ts[..i], c) {
      var t :| t in ts[..i + 1] && Covers(t, c);
    }
    forall c | Covers(ts[i], c) ensures Offers(ts[..i + 1], c) {
      assert ts[i] in ts[..i + 1];
    }
  }
}
