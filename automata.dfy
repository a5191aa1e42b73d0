/**
 * Finite automata over Java characters, in the shape the dk.brics library gives them:
 * states hold transitions labelled with a character range and lead to another state.
 * An automaton is an arena: a sequence of states addressed by index, plus an initial index.
 */
module Automata {
  import opened Wrappers

  /** A Java `char`: one UTF-16 code unit. */
  newtype Sym = x: int | 0 <= x < 0x1_0000

  const PLUS: Sym := 0x2B      // '+', the start-of-trace marker
  const MINUS: Sym := 0x2D     // '-', the end-of-trace marker
  const TAU: Sym := 0x3C4      // 'τ', the silent step
  const LETTER_A: Sym := 0x61  // 'a', the first activity character

  /** A transition on every character of [min, max] into state `dest`. */
  datatype Transition = Transition(min: Sym, max: Sym, dest: nat)

  /** A state: its accept flag and its transition set (kept free of duplicates). */
  datatype State = State(accept: bool, transitions: seq<Transition>)

  datatype Automaton = Automaton(states: seq<State>, initial: nat)

  predicate Covers(t: Transition, c: Sym) {
    t.min <= c <= t.max
  }

  /** `new Transition(c, dest)`: a transition on the single character c. */
  function Single(c: Sym, dest: nat): Transition {
    Transition(c, c, dest)
  }

  /** The initial state exists, every transition leads to a state and no range is empty
      (the library's Transition constructor orders min and max). */
  ghost predicate Valid(a: Automaton) {
    a.initial < |a.states| &&
    forall q, t :: 0 <= q < |a.states| && t in a.states[q].transitions ==>
      t.dest < |a.states| && t.min <= t.max
  }

  function Trans(a: Automaton, q: nat): seq<Transition>
    requires q < |a.states|
  {
    a.states[q].transitions
  }

  /** The word w leads from state p to state q. */
  ghost predicate Path(a: Automaton, p: nat, w: seq<Sym>, q: nat)
    decreases |w|
  {
    p < |a.states| &&
    if w == [] then p == q
    else exists t :: t in a.states[p].transitions && Covers(t, w[0]) && Path(a, t.dest, w[1..], q)
  }

  /** Some run on w from state q ends in an accepting state. */
  ghost predicate AcceptsFrom(a: Automaton, q: nat, w: seq<Sym>)
    decreases |w|
  {
    q < |a.states| &&
    if w == [] then a.states[q].accept
    else exists t :: t in a.states[q].transitions && Covers(t, w[0]) && AcceptsFrom(a, t.dest, w[1..])
  }

  ghost predicate Accepts(a: Automaton, w: seq<Sym>) {
    AcceptsFrom(a, a.initial, w)
  }

  /** A state reached from the initial state by some word (the library's getStates()). */
  ghost predicate Reachable(a: Automaton, q: nat) {
    exists w: seq<Sym> :: Path(a, a.initial, w, q)
  }

  lemma {:induction false} PathConcat(a: Automaton, p: nat, u: seq<Sym>, q: nat, v: seq<Sym>, r: nat)
    requires Path(a, p, u, q) && Path(a, q, v, r)
    ensures Path(a, p, u + v, r)
    decreases |u|
  {
    if u == [] {
      assert u + v == v;
    } else {
      var t :| t in a.states[p].transitions && Covers(t, u[0]) && Path(a, t.dest, u[1..], q);
      PathConcat(a, t.dest, u[1..], q, v, r);
      assert (u + v)[0] == u[0] && (u + v)[1..] == u[1..] + v;
    }
  }

  lemma {:induction false} PathEnd(a: Automaton, p: nat, w: seq<Sym>, q: nat)
    requires Valid(a) && Path(a, p, w, q)
    ensures q < |a.states|
    decreases |w|
  {
    if w != [] {
      var t :| t in a.states[p].transitions && Covers(t, w[0]) && Path(a, t.dest, w[1..], q);
      PathEnd(a, t.dest, w[1..], q);
    }
  }

  /** A transition taken at the end of a path extends the path by one character. */
  lemma PathStep(a: Automaton, p: nat, u: seq<Sym>, q: nat, t: Transition, c: Sym)
    requires Valid(a) && Path(a, p, u, q) && q < |a.states| && t in a.states[q].transitions && Covers(t, c)
    ensures Path(a, p, u + [c], t.dest)
  {
    assert t.dest < |a.states|;
    assert Path(a, t.dest, [], t.dest);
    assert Path(a, q, [c], t.dest) by { assert [c][0] == c && [c][1..] == []; }
    PathConcat(a, p, u, q, [c], t.dest);
  }

  /** A path on u + v passes through some state after u. */
  lemma {:induction false} PathSplit(a: Automaton, p: nat, u: seq<Sym>, v: seq<Sym>, r: nat) returns (q: nat)
    requires Path(a, p, u + v, r)
    ensures Path(a, p, u, q) && Path(a, q, v, r)
    decreases |u|
  {
    if u == [] {
      assert u + v == v;
      q := p;
    } else {
      assert (u + v)[0] == u[0] && (u + v)[1..] == u[1..] + v;
      var t :| t in a.states[p].transitions && Covers(t, u[0]) && Path(a, t.dest, u[1..] + v, r);
      q := PathSplit(a, t.dest, u[1..], v, r);
    }
  }

  /** Accepting from p is following a path from p to an accepting state. */
  lemma {:induction false} AcceptsFromPath(a: Automaton, p: nat, w: seq<Sym>)
    ensures AcceptsFrom(a, p, w) <==> exists q: nat :: Path(a, p, w, q) && q < |a.states| && a.states[q].accept
    decreases |w|
  {
    if w == [] {
      if AcceptsFrom(a, p, w) { assert Path(a, p, w, p); }
    } else {
      if AcceptsFrom(a, p, w) {
        var t :| t in a.states[p].transitions && Covers(t, w[0]) && AcceptsFrom(a, t.dest, w[1..]);
        AcceptsFromPath(a, t.dest, w[1..]);
        var q: nat :| Path(a, t.dest, w[1..], q) && q < |a.states| && a.states[q].accept;
        assert Path(a, p, w, q);
      }
      if exists q: nat :: Path(a, p, w, q) && q < |a.states| && a.states[q].accept {
        var q: nat :| Path(a, p, w, q) && q < |a.states| && a.states[q].accept;
        var t :| t in a.states[p].transitions && Covers(t, w[0]) && Path(a, t.dest, w[1..], q);
        AcceptsFromPath(a, t.dest, w[1..]);
      }
    }
  }

  /** A path followed by an accepting run is an accepting run. */
  lemma PathThenAccepts(a: Automaton, p: nat, x: seq<Sym>, q: nat, y: seq<Sym>)
    requires Path(a, p, x, q) && AcceptsFrom(a, q, y)
    ensures AcceptsFrom(a, p, x + y)
  {
    AcceptsFromPath(a, q, y);
    var f: nat :| Path(a, q, y, f) && f < |a.states| && a.states[f].accept;
    PathConcat(a, p, x, q, y, f);
    AcceptsFromPath(a, p, x + y);
  }

  // ---------------------------------------------------------------------------------------
  // Transition-set edits of State: addTransition, step, removeIf

  /** `State.addTransition`: the transition set gains t (a set, so an existing t is kept once). */
  function AddTransition(ts: seq<Transition>, t: Transition): (r: seq<Transition>)
    ensures forall u :: u in r <==> u in ts || u == t
  {
    if t in ts then ts else ts + [t]
  }

  /** Adds every transition of us to ts, one `addTransition` at a time. */
  function AddAll(ts: seq<Transition>, us: seq<Transition>): (r: seq<Transition>)
    ensures forall u :: u in r <==> u in ts || u in us
    decreases |us|
  {
    if us == [] then ts else AddAll(AddTransition(ts, us[0]), us[1..])
  }

  /** `states[i].addTransition(e)` on state i of an arena. */
  function WithEdge(states: seq<State>, i: nat, e: Transition): (r: seq<State>)
    requires i < |states|
    ensures |r| == |states| && r[i].accept == states[i].accept
    ensures forall e' :: e' in r[i].transitions <==> e' in states[i].transitions || e' == e
    ensures forall j :: 0 <= j < |states| && j != i ==> r[j] == states[j]
  {
    states[i := State(states[i].accept, AddTransition(states[i].transitions, e))]
  }

  /** `Collection.removeIf`: the transitions that do not satisfy p, in their order. */
  function RemoveIf(ts: seq<Transition>, p: Transition -> bool): (r: seq<Transition>)
    ensures forall u :: u in r <==> u in ts && !p(u)
    ensures |r| <= |ts|
  {
    if ts == [] then []
    else if p(ts[0]) then RemoveIf(ts[1..], p)
    else [ts[0]] + RemoveIf(ts[1..], p)
  }

  /** The destination of the first transition of ts that covers c, or null. */
  function FirstCovering(ts: seq<Transition>, c: Sym): (r: Option<nat>)
    ensures r.None? <==> forall t :: t in ts ==> !Covers(t, c)
    ensures r.Some? ==> exists t :: t in ts && Covers(t, c) && t.dest == r.value
  {
    if ts == [] then None
    else if Covers(ts[0], c) then Some(ts[0].dest)
    else FirstCovering(ts[1..], c)
  }

  /** `State.step(c)`: the library looks the character up among the transitions and
      returns the first destination found (the unique one on a deterministic automaton). */
  function Step(a: Automaton, q: nat, c: Sym): (r: Option<nat>)
    requires Valid(a) && q < |a.states|
    ensures r.Some? ==> r.value < |a.states| && Path(a, q, [c], r.value)
    ensures r.None? <==> forall t :: t in a.states[q].transitions ==> !Covers(t, c)
  {
    var r := FirstCovering(a.states[q].transitions, c);
    if r.Some? then
      var t :| t in a.states[q].transitions && Covers(t, c) && t.dest == r.value;
      assert Path(a, t.dest, [c][1..], t.dest);
      r
    else r
  }

  // ---------------------------------------------------------------------------------------
  // Placing one arena inside another

  function ShiftT(t: Transition, d: nat): Transition {
    Transition(t.min, t.max, t.dest + d)
  }

  function ShiftTs(ts: seq<Transition>, d: nat): (r: seq<Transition>)
    ensures |r| == |ts| && forall i {:trigger r[i]} :: 0 <= i < |ts| ==> r[i] == ShiftT(ts[i], d)
  {
    seq(|ts|, i requires 0 <= i < |ts| => ShiftT(ts[i], d))
  }

  function ShiftState(s: State, d: nat): State {
    State(s.accept, ShiftTs(s.transitions, d))
  }

  /** A transition of a renumbered state is a renumbered transition of the state. */
  lemma ShiftedFrom(s: State, d: nat, t: Transition) returns (t0: Transition)
    requires t in ShiftState(s, d).transitions
    ensures t0 in s.transitions && t == ShiftT(t0, d)
  {
    var ts := ShiftState(s, d).transitions;
    var i :| 0 <= i < |ts| && ts[i] == t;
    t0 := s.transitions[i];
  }

  /** Renumbering keeps every transition of a state. */
  lemma ShiftedIn(s: State, d: nat, t0: Transition)
    requires t0 in s.transitions
    ensures ShiftT(t0, d) in ShiftState(s, d).transitions
  {
    var i :| 0 <= i < |s.transitions| && s.transitions[i] == t0;
    assert ShiftState(s, d).transitions[i] == ShiftT(t0, d);
  }

  /** The states of an automaton renumbered by d, to be appended after d other states. */
  function ShiftStates(ss: seq<State>, d: nat): (r: seq<State>)
    ensures |r| == |ss| && forall i {:trigger r[i]} :: 0 <= i < |ss| ==> r[i] == ShiftState(ss[i], d)
  {
    seq(|ss|, i requires 0 <= i < |ss| => ShiftState(ss[i], d))
  }

  lemma ShiftZero(s: State)
    ensures ShiftState(s, 0) == s
  {
    assert ShiftTs(s.transitions, 0) == s.transitions;
  }

  /** `small` sits inside `big` from index off on, renumbered by off. */
  ghost predicate EmbeddedAt(big: Automaton, small: Automaton, off: nat) {
    off + |small.states| <= |big.states| &&
    big.states[off..off + |small.states|] == ShiftStates(small.states, off)
  }

  /** A state of an embedded automaton accepts the same words in the larger arena. */
  lemma EmbeddedAccepts(big: Automaton, small: Automaton, off: nat, q: nat, d: nat, w: seq<Sym>)
    requires Valid(small) && q < |small.states| && EmbeddedAt(big, small, off) && d == off + q
    ensures AcceptsFrom(big, d, w) <==> AcceptsFrom(small, q, w)
    decreases |w|
  {
    EmbeddedAcceptsBack(big, small, off, q, w);
    EmbeddedAcceptsFwd(big, small, off, q, w);
  }

  lemma {:induction false} EmbeddedAcceptsFwd(big: Automaton, small: Automaton, off: nat, q: nat, w: seq<Sym>)
    requires Valid(small) && q < |small.states| && EmbeddedAt(big, small, off)
    ensures AcceptsFrom(small, q, w) ==> AcceptsFrom(big, off + q, w)
    decreases |w|
  {
    var ts := small.states[q].transitions;
    var bts := big.states[off + q].transitions;
    assert big.states[off + q] == big.states[off..off + |small.states|][q];
    if w != [] && AcceptsFrom(small, q, w) {
        var t :| t in ts && Covers(t, w[0]) && AcceptsFrom(small, t.dest, w[1..]);
        var i :| 0 <= i < |ts| && ts[i] == t;
        EmbeddedAcceptsFwd(big, small, off, t.dest, w[1..]);
        assert bts[i] in bts && Covers(bts[i], w[0]) && AcceptsFrom(big, bts[i].dest, w[1..]);
    }
  }

  lemma {:induction false} EmbeddedAcceptsBack(big: Automaton, small: Automaton, off: nat, q: nat, w: seq<Sym>)
    requires Valid(small) && q < |small.states| && EmbeddedAt(big, small, off)
    ensures AcceptsFrom(big, off + q, w) ==> AcceptsFrom(small, q, w)
    decreases |w|
  {
    var ts := small.states[q].transitions;
    var bts := big.states[off + q].transitions;
    assert big.states[off + q] == big.states[off..off + |small.states|][q];
    if w != [] && AcceptsFrom(big, off + q, w) {
        var u :| u in bts && Covers(u, w[0]) && AcceptsFrom(big, u.dest, w[1..]);
        var i :| 0 <= i < |bts| && bts[i] == u;
        assert ts[i] in ts && bts == ShiftTs(ts, off);
        assert u == ShiftT(ts[i], off);
        assert u.dest == off + ts[i].dest;
        EmbeddedAcceptsBack(big, small, off, ts[i].dest, w[1..]);
        assert Covers(ts[i], w[0]) && AcceptsFrom(small, ts[i].dest, w[1..]);
    }
  }

  /** The states of a followed by those of b renumbered past a (b's initial state is then
      `|a.states| + b.initial`); this is how the library's object graphs of two automata
      become one once a state of a gains transitions into b. */
  function Juxtapose(a: Automaton, b: Automaton): (s: seq<State>)
    ensures |s| == |a.states| + |b.states|
  {
    a.states + ShiftStates(b.states, |a.states|)
  }

  lemma JuxtaposeEmbeds(a: Automaton, b: Automaton, extra: seq<State>, init: nat)
    ensures EmbeddedAt(Automaton(Juxtapose(a, b) + extra, init), a, 0)
    ensures EmbeddedAt(Automaton(Juxtapose(a, b) + extra, init), b, |a.states|)
  {
    var ss := Juxtapose(a, b) + extra;
    var n := |a.states|;
    forall p | 0 <= p < n ensures ss[p] == ShiftState(a.states[p], 0) {
      ShiftZero(a.states[p]);
    }
    assert ss[0..n] == ShiftStates(a.states, 0);
    assert ss[n..n + |b.states|] == ShiftStates(b.states, n);
  }

  lemma JuxtaposeValid(a: Automaton, b: Automaton, q: nat, t: Transition)
    requires Valid(a) && Valid(b) && q < |a.states| + |b.states|
    requires t in Juxtapose(a, b)[q].transitions
    ensures t.dest < |a.states| + |b.states| && t.min <= t.max
  {
    if q >= |a.states| {
      var p := q - |a.states|;
      var ts := b.states[p].transitions;
      var i :| 0 <= i < |ts| && Juxtapose(a, b)[q].transitions[i] == t;
      assert ts[i] in ts;
    }
  }

  // ---------------------------------------------------------------------------------------
  // BasicOperations.union

  /** The fresh initial state of a union: epsilon moves into both initial states copy
      their transitions and their accept flags. */
  function UnionInit(a: Automaton, b: Automaton): State
    requires Valid(a) && Valid(b)
  {
    State(a.states[a.initial].accept || b.states[b.initial].accept,
          AddAll(a.states[a.initial].transitions, ShiftTs(b.states[b.initial].transitions, |a.states|)))
  }

  /** `BasicOperations.union(a, b)`: b's states are appended after a's and a fresh
      initial state is added last. */
  function Union(a: Automaton, b: Automaton): (u: Automaton)
    requires Valid(a) && Valid(b)
    ensures Valid(u)
    ensures u.initial == |a.states| + |b.states| && |u.states| == u.initial + 1
  {
    UnionValid(a, b);
    Automaton(Juxtapose(a, b) + [UnionInit(a, b)], |a.states| + |b.states|)
  }

  lemma UnionValid(a: Automaton, b: Automaton)
    requires Valid(a) && Valid(b)
    ensures Valid(Automaton(Juxtapose(a, b) + [UnionInit(a, b)], |a.states| + |b.states|))
  {
    var n := |a.states|;
    var ss := Juxtapose(a, b) + [UnionInit(a, b)];
    forall q, t | 0 <= q < |ss| && t in ss[q].transitions
      ensures t.dest < |ss| && t.min <= t.max
    {
      if q < n + |b.states| {
        JuxtaposeValid(a, b, q, t);
      } else if t !in a.states[a.initial].transitions {
        var ts := b.states[b.initial].transitions;
        var i :| 0 <= i < |ts| && ShiftTs(ts, n)[i] == t;
        assert ts[i] in ts;
      }
    }
  }

  /** The union accepts exactly the words accepted by a or by b. */
  lemma UnionLanguage(a: Automaton, b: Automaton, w: seq<Sym>)
    requires Valid(a) && Valid(b)
    ensures Accepts(Union(a, b), w) <==> Accepts(a, w) || Accepts(b, w)
  {
    UnionSound(a, b, w);
    UnionComplete(a, b, w);
  }

  lemma UnionSound(a: Automaton, b: Automaton, w: seq<Sym>)
    requires Valid(a) && Valid(b)
    ensures Accepts(Union(a, b), w) ==> Accepts(a, w) || Accepts(b, w)
  {
    var n := |a.states|;
    var u := Union(a, b);
    JuxtaposeEmbeds(a, b, [UnionInit(a, b)], u.initial);
    assert u.states[u.initial] == UnionInit(a, b);
    if w != [] && Accepts(u, w) {
      var ta := a.states[a.initial].transitions;
      var tb := b.states[b.initial].transitions;
      var t :| t in u.states[u.initial].transitions && Covers(t, w[0]) && AcceptsFrom(u, t.dest, w[1..]);
      if t in ta {
        EmbeddedAccepts(u, a, 0, t.dest, t.dest, w[1..]);
        assert AcceptsFrom(a, t.dest, w[1..]);
      } else {
        var i :| 0 <= i < |tb| && ShiftTs(tb, n)[i] == t;
        assert tb[i] in tb;
        EmbeddedAccepts(u, b, n, tb[i].dest, t.dest, w[1..]);
        assert Covers(tb[i], w[0]) && AcceptsFrom(b, tb[i].dest, w[1..]);
      }
    }
  }

  lemma UnionComplete(a: Automaton, b: Automaton, w: seq<Sym>)
    requires Valid(a) && Valid(b)
    ensures Accepts(a, w) || Accepts(b, w) ==> Accepts(Union(a, b), w)
  {
    if w != [] {
      if Accepts(a, w) {
        UnionCompleteA(a, b, w);
      } else if Accepts(b, w) {
        UnionCompleteB(a, b, w);
      }
    }
  }

  lemma AcceptsFromStep(x: Automaton, q: nat, t: Transition, w: seq<Sym>)
    requires q < |x.states| && w != [] && t in x.states[q].transitions
    requires Covers(t, w[0]) && AcceptsFrom(x, t.dest, w[1..])
    ensures AcceptsFrom(x, q, w)
  {
  }

  /** A move of the fresh initial state followed by an accepting run is an accepting run of the union. */
  lemma UnionInitStep(a: Automaton, b: Automaton, w: seq<Sym>, t: Transition)
    requires Valid(a) && Valid(b) && w != []
    requires t in UnionInit(a, b).transitions && Covers(t, w[0]) && AcceptsFrom(Union(a, b), t.dest, w[1..])
    ensures Accepts(Union(a, b), w)
  {
    var u := Union(a, b);
    assert u.states[u.initial] == UnionInit(a, b);
    AcceptsFromStep(u, u.initial, t, w);
  }

  lemma UnionCompleteA(a: Automaton, b: Automaton, w: seq<Sym>)
    requires Valid(a) && Valid(b) && w != [] && Accepts(a, w)
    ensures Accepts(Union(a, b), w)
  {
    var t :| t in a.states[a.initial].transitions && Covers(t, w[0]) && AcceptsFrom(a, t.dest, w[1..]);
    JuxtaposeEmbeds(a, b, [UnionInit(a, b)], |a.states| + |b.states|);
    EmbeddedAccepts(Union(a, b), a, 0, t.dest, t.dest, w[1..]);
    UnionInitStep(a, b, w, t);
  }

  lemma UnionCompleteB(a: Automaton, b: Automaton, w: seq<Sym>)
    requires Valid(a) && Valid(b) && w != [] && Accepts(b, w)
    ensures Accepts(Union(a, b), w)
  {
    var n := |a.states|;
    var tb := b.states[b.initial].transitions;
    var t :| t in tb && Covers(t, w[0]) && AcceptsFrom(b, t.dest, w[1..]);
    ShiftTsIn(tb, n, t);
    JuxtaposeEmbeds(a, b, [UnionInit(a, b)], n + |b.states|);
    var st := ShiftT(t, n);
    EmbeddedAccepts(Union(a, b), b, n, t.dest, st.dest, w[1..]);
    UnionInitStep(a, b, w, st);
  }

  lemma ShiftTsIn(ts: seq<Transition>, d: nat, t: Transition)
    requires t in ts
    ensures ShiftT(t, d) in ShiftTs(ts, d)
  {
    var i :| 0 <= i < |ts| && ts[i] == t;
    assert ShiftTs(ts, d)[i] == ShiftT(t, d);
  }

  // ---------------------------------------------------------------------------------------
  // Automaton.getStates

  /** The state indexes below n. */
  function Below(n: nat): (r: set<nat>)
    ensures forall q: nat :: q in r <==> q < n
  {
    if n == 0 then {} else Below(n - 1) + {n - 1}
  }

  /** Removing more of a finite universe leaves less of it. */
  lemma ShrinkingDifference<T>(u: set<T>, x: set<T>, y: set<T>)
    requires x < y <= u
    ensures |u - y| < |u - x|
  {
    assert u - x == (u - y) + (y - x);
    assert (u - y) * (y - x) == {};
    var e :| e in y - x;
    assert |y - x| >= 1 by { assert {e} <= y - x; assert |(y - x) - {e}| + 1 == |y - x|; }
  }

  /** Every transition out of a state of r leads into r. */
  ghost predicate Closed(a: Automaton, r: set<nat>, done: set<nat>) {
    forall q, t :: q in done && q < |a.states| && t in a.states[q].transitions ==> t.dest in r
  }

  /** A set that holds p and is closed under transitions holds every state reached from p. */
  lemma {:induction false} ClosedReach(a: Automaton, r: set<nat>, p: nat, w: seq<Sym>, q: nat)
    requires Closed(a, r, r) && p in r && Path(a, p, w, q)
    ensures q in r
    decreases |w|
  {
    if w != [] {
      var t :| t in a.states[p].transitions && Covers(t, w[0]) && Path(a, t.dest, w[1..], q);
      ClosedReach(a, r, t.dest, w[1..], q);
    }
  }

  /** `Automaton.getStates()`: the states reachable from the initial state, found by a
      worklist that visits each state once. */
  method GetStates(a: Automaton) returns (r: set<nat>)
    requires Valid(a)
    ensures forall q :: q in r <==> Reachable(a, q)
  {
    r := {a.initial};
    var work := [a.initial];
    ghost var done: set<nat> := {};
    assert Path(a, a.initial, [], a.initial);
    while work != []
      invariant r <= Below(|a.states|) && a.initial in r
      invariant forall q :: q in r ==> Reachable(a, q)
      invariant forall q :: q in work ==> q in r
      invariant forall q :: q in r ==> q in done || q in work
      invariant done <= r && Closed(a, r, done)
      decreases |Below(|a.states|) - r|, |work|
    {
      ghost var r0 := r;
      var q := work[0];
      r, work := VisitSuccessors(a, q, r, work[1..], done);
      done := done + {q};
      if r != r0 {
        ShrinkingDifference(Below(|a.states|), r0, r);
      }
    }
    forall q | Reachable(a, q) ensures q in r {
      var w :| Path(a, a.initial, w, q);
      ClosedReach(a, r, a.initial, w, q);
    }
  }

  /** The inner loop of the worklist: the unseen successors of q are marked and queued. */
  method VisitSuccessors(a: Automaton, q: nat, r: set<nat>, work: seq<nat>, ghost done: set<nat>)
    returns (r2: set<nat>, work2: seq<nat>)
    requires Valid(a) && q in r && r <= Below(|a.states|)
    requires forall x :: x in r ==> Reachable(a, x)
    requires forall x :: x in work ==> x in r
    requires done <= r && Closed(a, r, done)
    ensures r <= r2 <= Below(|a.states|)
    ensures forall x :: x in r2 ==> Reachable(a, x)
    ensures forall x :: x in work2 ==> x in r2
    ensures forall x :: x in r2 ==> x in r || x in work2
    ensures forall x :: x in work ==> x in work2
    ensures Closed(a, r2, done + {q})
    ensures r2 == r ==> work2 == work
  {
    r2, work2 := r, work;
    var ts := a.states[q].transitions;
    var i := 0;
    while i < |ts|
      invariant i <= |ts| && r <= r2 <= Below(|a.states|)
      invariant forall x :: x in r2 ==> Reachable(a, x)
      invariant forall x :: x in work2 ==> x in r2
      invariant forall x :: x in r2 ==> x in r || x in work2
      invariant forall x :: x in work ==> x in work2
      invariant Closed(a, r2, done)
      invariant forall j :: 0 <= j < i ==> ts[j].dest in r2
      invariant r2 == r ==> work2 == work
    {
      var d := ts[i].dest;
      if d !in r2 {
        assert ts[i] in ts;
        ReachableStep(a, q, ts[i]);
        r2 := r2 + {d};
        work2 := work2 + [d];
      }
      i := i + 1;
    }
    forall x, t | x in done + {q} && x < |a.states| && t in a.states[x].transitions ensures t.dest in r2 {
      if x == q {
        var j :| 0 <= j < |ts| && ts[j] == t;
      }
    }
  }

  lemma ReachableStep(a: Automaton, q: nat, t: Transition)
    requires Valid(a) && Reachable(a, q) && q < |a.states| && t in a.states[q].transitions
    ensures Reachable(a, t.dest)
  {
    var w :| Path(a, a.initial, w, q);
    var c := t.min;
    PathStep(a, a.initial, w, q, t, c);
  }
}
