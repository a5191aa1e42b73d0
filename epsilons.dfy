/**
 * `Automaton.addEpsilons(pairs)` of the dk.brics library: every pair (p, q) is an epsilon
 * move from p to q. The library closes the pairs transitively and then lets each p take
 * over the transitions and the accept flag of every state it reaches by epsilon moves.
 */
module Epsilons {
  import opened Automata

  /** The pair list seen as moves between states: one move (on the unused label 0) per pair. */
  function PairEdges(pairs: seq<(nat, nat)>, p: nat): (r: seq<Transition>)
    ensures forall t :: t in r <==> exists i :: 0 <= i < |pairs| && pairs[i].0 == p && t == Single(0, pairs[i].1)
  {
    if pairs == [] then []
    else
      var rest := PairEdges(pairs[1..], p);
      assert forall i :: 1 <= i < |pairs| ==> pairs[i] == pairs[1..][i - 1];
      if pairs[0].0 == p then [Single(0, pairs[0].1)] + rest else rest
  }

  /** The states 0..n-1 linked by the pairs, entered at `start`. */
  function PairGraph(n: nat, pairs: seq<(nat, nat)>, start: nat): (g: Automaton)
    ensures |g.states| == n && g.initial == start
  {
    Automaton(seq(n, p requires 0 <= p < n => State(false, PairEdges(pairs, p))), start)
  }

  ghost predicate PairsIn(n: nat, pairs: seq<(nat, nat)>) {
    forall i :: 0 <= i < |pairs| ==> pairs[i].0 < n && pairs[i].1 < n
  }

  lemma PairGraphValid(n: nat, pairs: seq<(nat, nat)>, start: nat)
    requires PairsIn(n, pairs) && start < n
    ensures Valid(PairGraph(n, pairs, start))
  {
    var g := PairGraph(n, pairs, start);
    forall q, t | 0 <= q < n && t in g.states[q].transitions ensures t.dest < n && t.min <= t.max {
      var i :| 0 <= i < |pairs| && pairs[i].0 == q && t == Single(0, pairs[i].1);
    }
  }

  /** q is reached from p by one or more epsilon moves. */
  ghost predicate EpsReach(n: nat, pairs: seq<(nat, nat)>, p: nat, q: nat) {
    exists i :: 0 <= i < |pairs| && pairs[i].0 == p && Reachable(PairGraph(n, pairs, pairs[i].1), q)
  }

  /** The states below n that p reaches by one or more epsilon moves. */
  ghost function Closure(n: nat, pairs: seq<(nat, nat)>, p: nat): set<nat> {
    set q: nat | q < n && EpsReach(n, pairs, p, q)
  }

  /** State s is state p of a after it took over the states of targets. */
  ghost predicate Absorbed(a: Automaton, targets: set<nat>, p: nat, s: State)
    requires p < |a.states|
  {
    var n := |a.states|;
    (s.accept <==> a.states[p].accept || exists q: nat :: q in targets && q < n && a.states[q].accept) &&
    (forall t :: t in s.transitions <==>
       t in a.states[p].transitions || exists q: nat :: q in targets && q < n && t in a.states[q].transitions)
  }

  /** No pair leaves p. */
  predicate NoPairFrom(pairs: seq<(nat, nat)>, p: nat) {
    forall i :: 0 <= i < |pairs| ==> pairs[i].0 != p
  }

  /** The states p reaches by one or more epsilon moves: the closure the library computes. */
  method EpsTargets(n: nat, pairs: seq<(nat, nat)>, p: nat) returns (r: set<nat>)
    requires PairsIn(n, pairs)
    ensures r == Closure(n, pairs, p)
    ensures NoPairFrom(pairs, p) ==> r == {}
  {
    r := {};
    var i := 0;
    while i < |pairs|
      invariant i <= |pairs|
      invariant NoPairFrom(pairs, p) ==> r == {}
      invariant forall q: nat :: q in r <==>
        q < n && (exists j :: 0 <= j < i && pairs[j].0 == p && Reachable(PairGraph(n, pairs, pairs[j].1), q))
    {
      if pairs[i].0 == p {
        PairGraphValid(n, pairs, pairs[i].1);
        var g := GetStates(PairGraph(n, pairs, pairs[i].1));
        forall q | q in g ensures q < n {
          ReachableBelow(PairGraph(n, pairs, pairs[i].1), q);
        }
        r := r + g;
      }
      i := i + 1;
    }
    assert forall q: nat :: q in r <==> q in Closure(n, pairs, p);
  }

  lemma ReachableBelow(a: Automaton, q: nat)
    requires Valid(a) && Reachable(a, q)
    ensures q < |a.states|
  {
    var w :| Path(a, a.initial, w, q);
    PathEnd(a, a.initial, w, q);
  }

  /** State p of a after `addEpsilon` of every state in targets, one at a time. */
  method AbsorbAll(a: Automaton, p: nat, targets: set<nat>) returns (s: State)
    requires Valid(a) && p < |a.states| && forall q :: q in targets ==> q < |a.states|
    ensures Absorbed(a, targets, p, s)
    ensures targets == {} ==> s == a.states[p]
  {
    s := a.states[p];
    var rest := targets;
    while rest != {}
      invariant rest <= targets
      invariant targets == {} ==> s == a.states[p]
      invariant Absorbed(a, targets - rest, p, s)
      decreases |rest|
    {
      var q :| q in rest;
      s := State(s.accept || a.states[q].accept, AddAll(s.transitions, a.states[q].transitions));
      rest := rest - {q};
    }
  }

  /** `addEpsilons(pairs)`: every state absorbs its epsilon closure. */
  method AddEpsilons(a: Automaton, pairs: seq<(nat, nat)>) returns (r: Automaton)
    requires Valid(a) && PairsIn(|a.states|, pairs)
    ensures Valid(r) && |r.states| == |a.states| && r.initial == a.initial
    ensures forall p :: 0 <= p < |a.states| ==> Absorbed(a, Closure(|a.states|, pairs, p), p, r.states[p])
    ensures forall p :: 0 <= p < |a.states| && NoPairFrom(pairs, p) ==> r.states[p] == a.states[p]
  {
    var states: seq<State> := [];
    while |states| < |a.states|
      invariant |states| <= |a.states| && AbsorbedUpTo(a, pairs, states)
      decreases |a.states| - |states|
    {
      states := AbsorbNext(a, pairs, states);
    }
    r := Automaton(states, a.initial);
  }

  /** The invariant of the loop of addEpsilons: the first |states| states have absorbed their closures. */
  ghost predicate AbsorbedUpTo(a: Automaton, pairs: seq<(nat, nat)>, states: seq<State>) {
    var n := |a.states|;
    |states| <= n &&
    (forall p :: 0 <= p < |states| ==> Absorbed(a, Closure(n, pairs, p), p, states[p])) &&
    (forall p :: 0 <= p < |states| && NoPairFrom(pairs, p) ==> states[p] == a.states[p]) &&
    (forall p, t :: 0 <= p < |states| && t in states[p].transitions ==> t.dest < n && t.min <= t.max)
  }

  /** One round of the loop of addEpsilons: the next state absorbs its closure. */
  method AbsorbNext(a: Automaton, pairs: seq<(nat, nat)>, states: seq<State>) returns (states2: seq<State>)
    requires Valid(a) && PairsIn(|a.states|, pairs)
    requires AbsorbedUpTo(a, pairs, states) && |states| < |a.states|
    ensures AbsorbedUpTo(a, pairs, states2) && |states2| == |states| + 1
  {
    var n := |a.states|;
    var p := |states|;
    var targets := EpsTargets(n, pairs, p);
    var s := AbsorbAll(a, p, targets);
    AbsorbedValid(a, targets, p, s);
    AbsorbedSnoc(a, pairs, states, s);
    states2 := states + [s];
  }

  lemma AbsorbedSnoc(a: Automaton, pairs: seq<(nat, nat)>, states: seq<State>, s: State)
    requires AbsorbedUpTo(a, pairs, states) && |states| < |a.states|
    requires Absorbed(a, Closure(|a.states|, pairs, |states|), |states|, s)
    requires NoPairFrom(pairs, |states|) ==> s == a.states[|states|]
    requires forall t :: t in s.transitions ==> t.dest < |a.states| && t.min <= t.max
    ensures AbsorbedUpTo(a, pairs, states + [s])
  {
    var states2 := states + [s];
    assert forall p :: 0 <= p < |states| ==> states2[p] == states[p];
  }

  /** A state of a valid automaton that absorbs states of it has well-formed transitions. */
  lemma AbsorbedValid(a: Automaton, targets: set<nat>, p: nat, s: State)
    requires Valid(a) && p < |a.states| && Absorbed(a, targets, p, s)
    ensures forall t :: t in s.transitions ==> t.dest < |a.states| && t.min <= t.max
  {
    forall t | t in s.transitions ensures t.dest < |a.states| && t.min <= t.max {
      if t !in a.states[p].transitions {
        var q: nat :| q in targets && q < |a.states| && t in a.states[q].transitions;
      }
    }
  }

  /** With the single pair (p, q), p != q, the closure of p is {q}: p absorbs q alone. */
  lemma SinglePair(n: nat, p: nat, q: nat)
    requires p < n && q < n && p != q
    ensures Closure(n, [(p, q)], p) == {q}
  {
    forall x: nat ensures x in Closure(n, [(p, q)], p) <==> x == q {
      StarPairs(n, [(p, q)], p, x);
      assert [(p, q)][0].1 == q;
    }
  }

  /** When every pair leaves p for some other state, the closure of p is the set of pair targets. */
  lemma StarPairs(n: nat, pairs: seq<(nat, nat)>, p: nat, x: nat)
    requires PairsIn(n, pairs) && forall i :: 0 <= i < |pairs| ==> pairs[i].0 == p && pairs[i].1 != p
    ensures x in Closure(n, pairs, p) <==> exists i :: 0 <= i < |pairs| && pairs[i].1 == x
  {
    forall i | 0 <= i < |pairs| && Reachable(PairGraph(n, pairs, pairs[i].1), x) ensures x == pairs[i].1 {
      var s := pairs[i].1;
      var g := PairGraph(n, pairs, s);
      assert forall t :: t !in g.states[s].transitions;
      var w :| Path(g, s, w, x);
      assert w == [];
    }
    forall i | 0 <= i < |pairs| && pairs[i].1 == x ensures Reachable(PairGraph(n, pairs, pairs[i].1), x) {
      assert Path(PairGraph(n, pairs, x), x, [], x);
    }
  }
}
