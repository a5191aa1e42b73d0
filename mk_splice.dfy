/**
 * `mkSequence` and `mkLoop`: the automata of the two children of a sequence or loop node
 * are joined by editing transition sets in place. The '-' (end of trace) moves of one child
 * are replaced by the moves that follow the '+' (start of trace) of the other, the start
 * state takes over the other child's start, and the result is cut to its k-windows.
 *
 * The two automata become one arena: a's states, then b's renumbered past them.
 */
module Splice {
  import opened Wrappers
  import opened Automata
  import Epsilons
  import Window

  /** Every transition of the arena leads to one of its states and has a non-empty range. */
  ghost predicate Linked(ss: seq<State>) {
    forall q, t :: 0 <= q < |ss| && t in ss[q].transitions ==> t.dest < |ss| && t.min <= t.max
  }

  lemma LinkedValid(ss: seq<State>, init: nat)
    requires Linked(ss) && init < |ss|
    ensures Valid(Automaton(ss, init))
  {
  }

  /** Replacing state q by one whose transitions come from states q and p keeps the arena linked. */
  lemma LinkedUpdate(ss: seq<State>, q: nat, p: nat, s: State)
    requires Linked(ss) && q < |ss| && p < |ss|
    requires forall t :: t in s.transitions ==> t in ss[q].transitions || t in ss[p].transitions
    ensures Linked(ss[q := s])
  {
  }

  lemma ValidLinked(a: Automaton)
    requires Valid(a)
    ensures Linked(a.states)
  {
  }

  /** A state that `getAcceptStates()` lists: reachable and accepting. */
  ghost predicate AcceptingIn(a: Automaton, q: nat) {
    Reachable(a, q) && q < |a.states| && a.states[q].accept
  }

  /** State s has some transition into d. */
  ghost predicate LeadsTo(a: Automaton, s: nat, d: nat) {
    s < |a.states| && exists t :: t in a.states[s].transitions && t.dest == d
  }

  /** A transition whose range starts at '-' and that enters qf. */
  predicate MinusInto(t: Transition, qf: nat) {
    t.dest == qf && t.min == MINUS
  }

  /** A transition whose range starts at '+' and that enters `target` (never, when it is null). */
  predicate PlusInto(t: Transition, target: Option<nat>) {
    target == Some(t.dest) && t.min == PLUS
  }

  /** State q has a '-' transition into qf. */
  ghost predicate HasMinusInto(a: Automaton, q: nat, qf: nat) {
    q < |a.states| && exists t :: t in a.states[q].transitions && MinusInto(t, qf)
  }

  // ---------------------------------------------------------------------------------------
  // Automaton.getAcceptStates and findQMinusSet

  /** `Automaton.getAcceptStates()`: the accepting states among those reachable. */
  method GetAcceptStates(a: Automaton) returns (r: set<nat>)
    requires Valid(a)
    ensures forall q :: q in r <==> AcceptingIn(a, q)
  {
    var all := GetStates(a);
    r := set q | q in all && q < |a.states| && a.states[q].accept;
  }

  /** The reverse map holds, for every destination, exactly its sources in done. */
  ghost predicate ReverseOf(a: Automaton, reverse: map<nat, set<nat>>, done: set<nat>) {
    (forall d, s :: d in reverse && s in reverse[d] ==> s in done && LeadsTo(a, s, d)) &&
    (forall s, d :: s in done && LeadsTo(a, s, d) ==> d in reverse && s in reverse[d])
  }

  /** Registers s as a source of each of its destinations (`computeIfAbsent(...).add(s)`). */
  method AddSources(a: Automaton, s: nat, reverse: map<nat, set<nat>>, ghost done: set<nat>)
    returns (reverse2: map<nat, set<nat>>)
    requires s < |a.states| && ReverseOf(a, reverse, done)
    ensures ReverseOf(a, reverse2, done + {s})
  {
    reverse2 := reverse;
    var ts := a.states[s].transitions;
    var i := 0;
    while i < |ts|
      invariant i <= |ts|
      invariant forall d, x :: d in reverse2 && x in reverse2[d] ==> x in done + {s} && LeadsTo(a, x, d)
      invariant forall x, d :: x in done && LeadsTo(a, x, d) ==> d in reverse2 && x in reverse2[d]
      invariant forall j :: 0 <= j < i ==> ts[j].dest in reverse2 && s in reverse2[ts[j].dest]
    {
      var d := ts[i].dest;
      assert ts[i] in ts;
      var sources := if d in reverse2 then reverse2[d] else {};
      reverse2 := reverse2[d := sources + {s}];
      i := i + 1;
    }
    forall d | LeadsTo(a, s, d) ensures d in reverse2 && s in reverse2[d] {
      var t :| t in ts && t.dest == d;
      var j :| 0 <= j < |ts| && ts[j] == t;
    }
  }

  /** Whether state s has a '-' transition into qf, transition by transition. */
  method FindMinusInto(a: Automaton, s: nat, qf: nat) returns (found: bool)
    requires s < |a.states|
    ensures found <==> HasMinusInto(a, s, qf)
  {
    found := false;
    var ts := a.states[s].transitions;
    var i := 0;
    while i < |ts|
      invariant i <= |ts|
      invariant found <==> exists j :: 0 <= j < i && MinusInto(ts[j], qf)
    {
      if MinusInto(ts[i], qf) {
        found := true;
      }
      i := i + 1;
    }
    if HasMinusInto(a, s, qf) {
      var t :| t in ts && MinusInto(t, qf);
      var j :| 0 <= j < |ts| && ts[j] == t;
    }
  }

  /** `findQMinusSet(a, qf)`: a reverse map over the reachable states gives the predecessors
      of qf; those with a transition into qf whose range starts at '-' are kept. */
  method FindQMinusSet(a: Automaton, qf: nat) returns (r: set<nat>)
    requires Valid(a)
    ensures forall q :: q in r <==> Reachable(a, q) && HasMinusInto(a, q, qf)
  {
    var all := GetStates(a);
    forall q | q in all ensures q < |a.states| {
      Epsilons.ReachableBelow(a, q);
    }
    var reverse := ReverseMap(a, all);
    var toFinal := if qf in reverse then reverse[qf] else {};
    assert forall q :: q in toFinal ==> q in all;
    r := {};
    var left := toFinal;
    while left != {}
      invariant left <= toFinal
      invariant forall q :: q in r <==> q in toFinal - left && HasMinusInto(a, q, qf)
      decreases |left|
    {
      var s :| s in left;
      var found := FindMinusInto(a, s, qf);
      if found {
        r := r + {s};
      }
      left := left - {s};
    }
    forall q: nat | Reachable(a, q) && HasMinusInto(a, q, qf) ensures q in toFinal {
      var t :| t in a.states[q].transitions && MinusInto(t, qf);
      assert LeadsTo(a, q, qf);
    }
  }

  /** The reverse map of `findQMinusSet`: destination to sources, over the states of all. */
  method ReverseMap(a: Automaton, all: set<nat>) returns (reverse: map<nat, set<nat>>)
    requires forall q :: q in all ==> q < |a.states|
    ensures ReverseOf(a, reverse, all)
  {
    reverse := map[];
    var rest := all;
    while rest != {}
      invariant rest <= all
      invariant ReverseOf(a, reverse, all - rest)
      decreases |rest|
    {
      var s :| s in rest;
      reverse := AddSources(a, s, reverse, all - rest);
      assert all - rest + {s} == all - (rest - {s});
      rest := rest - {s};
    }
    assert all - rest == all;
  }

  // ---------------------------------------------------------------------------------------
  // In-place edits of transition sets

  /** `redirectInitialTransitions(q0A, q0B, qbPlus)`: q0A gains every transition of q0B
      except those into qbPlus (all of them when qbPlus is null); nothing else changes. */
  method RedirectInitialTransitions(states: seq<State>, q0A: nat, q0B: nat, qbPlus: Option<nat>)
    returns (states2: seq<State>)
    requires q0A < |states| && q0B < |states|
    ensures |states2| == |states| && states2[q0A].accept == states[q0A].accept
    ensures forall t :: t in states2[q0A].transitions <==>
      t in states[q0A].transitions || (t in states[q0B].transitions && qbPlus != Some(t.dest))
    ensures forall q :: 0 <= q < |states| && q != q0A ==> states2[q] == states[q]
    ensures Linked(states) ==> Linked(states2)
  {
    var ts := states[q0B].transitions;
    var gained := states[q0A].transitions;
    var i := 0;
    while i < |ts|
      invariant i <= |ts|
      invariant forall t :: t in gained <==>
        t in states[q0A].transitions || (t in ts[..i] && qbPlus != Some(t.dest))
    {
      if qbPlus != Some(ts[i].dest) {
        gained := AddTransition(gained, Transition(ts[i].min, ts[i].max, ts[i].dest));
      }
      assert ts[..i + 1] == ts[..i] + [ts[i]];
      i := i + 1;
    }
    assert ts[..i] == ts;
    states2 := states[q0A := State(states[q0A].accept, gained)];
  }

  /** One state after `removeIf` of its '-' transitions into qf. */
  function DropMinus(s: State, qf: nat): (r: State)
    ensures r.accept == s.accept
    ensures forall t :: t in r.transitions <==> t in s.transitions && !MinusInto(t, qf)
  {
    State(s.accept, RemoveIf(s.transitions, t => MinusInto(t, qf)))
  }

  /** `removeIf` on the transitions of each state of Q: its '-' transitions into qf go. */
  method DropMinusInto(states: seq<State>, Q: set<nat>, qf: nat) returns (states2: seq<State>)
    requires forall q :: q in Q ==> q < |states|
    ensures MinusDropped(states, Q, qf, states2)
    ensures Linked(states) ==> Linked(states2)
  {
    states2 := states;
    var left := Q;
    while left != {}
      invariant left <= Q && |states2| == |states|
      invariant forall q :: 0 <= q < |states| && (q !in Q || q in left) ==> states2[q] == states[q]
      invariant forall q :: q in Q - left ==> states2[q] == DropMinus(states[q], qf)
      invariant Linked(states) ==> Linked(states2)
      decreases |left|
    {
      var q :| q in left;
      if Linked(states) {
        LinkedUpdate(states2, q, q, DropMinus(states2[q], qf));
      }
      states2 := states2[q := DropMinus(states2[q], qf)];
      left := left - {q};
    }
  }

  /** One state of step 3: it takes over the transitions of plus, then drops its '-'
      transitions into qf. */
  function ContinueMinus(s: State, plus: State, qf: nat): (r: State)
    ensures r.accept == s.accept
    ensures forall t :: t in r.transitions <==>
      (t in s.transitions || t in plus.transitions) && !MinusInto(t, qf)
  {
    State(s.accept, RemoveIf(AddAll(s.transitions, plus.transitions), t => MinusInto(t, qf)))
  }

  /** Step 3 of `mkSequence`: each state of Q takes over the transitions of `plus` (the state
      b enters on '+') and then drops its '-' transitions into qf. */
  method ContinueAfterMinus(states: seq<State>, Q: set<nat>, plus: nat, qf: nat) returns (states2: seq<State>)
    requires plus < |states| && plus !in Q && forall q :: q in Q ==> q < |states|
    ensures |states2| == |states|
    ensures forall q :: 0 <= q < |states| && q !in Q ==> states2[q] == states[q]
    ensures forall q :: q in Q ==> states2[q].accept == states[q].accept
    ensures forall q, t :: q in Q ==>
      (t in states2[q].transitions <==>
         (t in states[q].transitions || t in states[plus].transitions) && !MinusInto(t, qf))
    ensures Linked(states) ==> Linked(states2)
  {
    states2 := states;
    var left := Q;
    while left != {}
      invariant left <= Q && |states2| == |states|
      invariant forall q :: 0 <= q < |states| && (q !in Q || q in left) ==> states2[q] == states[q]
      invariant forall q :: q in Q - left ==> states2[q] == ContinueMinus(states[q], states[plus], qf)
      invariant Linked(states) ==> Linked(states2)
      decreases |left|
    {
      var q :| q in left;
      if Linked(states) {
        LinkedUpdate(states2, q, plus, ContinueMinus(states2[q], states2[plus], qf));
      }
      states2 := states2[q := ContinueMinus(states2[q], states2[plus], qf)];
      left := left - {q};
    }
  }

  /** `q.getTransitions().removeIf(t -> t.getDest().equals(target) && t.getMin() == '+')`. */
  function DropPlusInto(states: seq<State>, q: nat, target: Option<nat>): (states2: seq<State>)
    requires q < |states|
    ensures |states2| == |states| && states2[q].accept == states[q].accept
    ensures forall t :: t in states2[q].transitions <==> t in states[q].transitions && !PlusInto(t, target)
    ensures forall p :: 0 <= p < |states| && p != q ==> states2[p] == states[p]
    ensures Linked(states) ==> Linked(states2)
  {
    states[q := State(states[q].accept, RemoveIf(states[q].transitions, t => PlusInto(t, target)))]
  }

  /** `q.getTransitions().clear()`. */
  function ClearTransitions(states: seq<State>, q: nat): (states2: seq<State>)
    requires q < |states|
    ensures |states2| == |states| && states2[q] == State(states[q].accept, [])
    ensures forall p :: 0 <= p < |states| && p != q ==> states2[p] == states[p]
    ensures Linked(states) ==> Linked(states2)
  {
    states[q := State(states[q].accept, [])]
  }

  // ---------------------------------------------------------------------------------------
  // Joining the two arenas

  /** The arena of a followed by b's states renumbered past a, entered at a's start. */
  function Joined(a: Automaton, b: Automaton): (j: Automaton)
    requires Valid(a) && Valid(b)
    ensures Valid(j) && j.initial == a.initial && |j.states| == |a.states| + |b.states|
  {
    var j := Automaton(Juxtapose(a, b), a.initial);
    forall q, t | 0 <= q < |j.states| && t in j.states[q].transitions
      ensures t.dest < |j.states| && t.min <= t.max
    {
      JuxtaposeValid(a, b, q, t);
    }
    j
  }

  /** b's states keep to b's part of the arena: their transitions never enter a's states. */
  lemma JoinedStaysInB(a: Automaton, b: Automaton, q: nat, t: Transition)
    requires Valid(a) && Valid(b) && |a.states| <= q < |a.states| + |b.states|
    requires t in Joined(a, b).states[q].transitions
    ensures t.dest >= |a.states|
  {
    var ts := b.states[q - |a.states|].transitions;
    var i :| 0 <= i < |Joined(a, b).states[q].transitions| && Joined(a, b).states[q].transitions[i] == t;
    assert ts[i] in ts;
  }

  /** Step 1 of both splices, `a.addEpsilons([(q0A, q0B)])`: a's start state takes over
      b's start state (its transitions and its accept flag) and no other state changes. */
  method AbsorbStart(a: Automaton, b: Automaton) returns (j: Automaton)
    requires Valid(a) && Valid(b)
    ensures Valid(j) && j.initial == a.initial && |j.states| == |a.states| + |b.states|
    ensures forall q :: 0 <= q < |j.states| && q != a.initial ==> j.states[q] == Joined(a, b).states[q]
    ensures j.states[a.initial].accept <==> a.states[a.initial].accept || b.states[b.initial].accept
    ensures forall t :: t in j.states[a.initial].transitions <==>
      t in a.states[a.initial].transitions || t in Joined(a, b).states[|a.states| + b.initial].transitions
  {
    var joined := Joined(a, b);
    var n := |joined.states|;
    var q0A, q0B := a.initial, |a.states| + b.initial;
    j := Epsilons.AddEpsilons(joined, [(q0A, q0B)]);
    Epsilons.SinglePair(n, q0A, q0B);
    assert Epsilons.Absorbed(joined, {q0B}, q0A, j.states[q0A]);
    assert joined.states[q0A] == a.states[q0A];
    assert joined.states[q0B] == ShiftState(b.states[b.initial], |a.states|);
    assert b.states[b.initial].accept == joined.states[q0B].accept;
  }

  /** The arena after step 1, as `AbsorbStart` leaves it. */
  ghost predicate StartAbsorbed(a: Automaton, b: Automaton, j: Automaton)
    requires Valid(a) && Valid(b)
  {
    var J := Joined(a, b).states;
    Valid(j) && j.initial == a.initial && |j.states| == |J| &&
    (forall q :: 0 <= q < |j.states| && q != a.initial ==> j.states[q] == J[q]) &&
    (j.states[a.initial].accept <==> a.states[a.initial].accept || b.states[b.initial].accept) &&
    (forall t :: t in j.states[a.initial].transitions <==>
       t in a.states[a.initial].transitions || t in J[|a.states| + b.initial].transitions)
  }

  /** The joined arena holds a's states, then b's renumbered past them. */
  lemma JoinedStates(a: Automaton, b: Automaton, q: nat)
    requires Valid(a) && Valid(b) && q < |a.states| + |b.states|
    ensures q < |a.states| ==> Joined(a, b).states[q] == a.states[q]
    ensures q >= |a.states| ==> Joined(a, b).states[q] == ShiftState(b.states[q - |a.states|], |a.states|)
  {
  }

  /** A move of the arena after step 1 that lands in a's part is a move of a. */
  lemma AbsorbedOwn(a: Automaton, b: Automaton, j: Automaton, p: nat, t: Transition)
    requires Valid(a) && Valid(b) && StartAbsorbed(a, b, j) && p < |j.states|
    requires t in j.states[p].transitions && t.dest < |a.states|
    ensures p < |a.states| && t in a.states[p].transitions
  {
    if p >= |a.states| {
      JoinedStaysInB(a, b, p, t);
      assert false;
    }
    JoinedStates(a, b, p);
    if p == a.initial && t !in a.states[p].transitions {
      assert false;
    }
  }

  /** A path of the arena after step 1 that ends in a's part is a path of a. */
  lemma {:induction false} AbsorbedPathBack(a: Automaton, b: Automaton, j: Automaton, p: nat, w: seq<Sym>, q: nat)
    requires Valid(a) && Valid(b) && StartAbsorbed(a, b, j) && Path(j, p, w, q) && q < |a.states|
    ensures p < |a.states| && Path(a, p, w, q)
    decreases |w|
  {
    if w != [] {
      var t :| t in j.states[p].transitions && Covers(t, w[0]) && Path(j, t.dest, w[1..], q);
      AbsorbedPathBack(a, b, j, t.dest, w[1..], q);
      AbsorbedOwn(a, b, j, p, t);
    }
  }

  /** Every path of a is a path of the arena after step 1. */
  lemma {:induction false} AbsorbedPathFwd(a: Automaton, b: Automaton, j: Automaton, p: nat, w: seq<Sym>, q: nat)
    requires Valid(a) && Valid(b) && StartAbsorbed(a, b, j) && Path(a, p, w, q)
    ensures Path(j, p, w, q)
    decreases |w|
  {
    if w != [] {
      var t :| t in a.states[p].transitions && Covers(t, w[0]) && Path(a, t.dest, w[1..], q);
      AbsorbedPathFwd(a, b, j, t.dest, w[1..], q);
      JoinedStates(a, b, p);
      assert t in j.states[p].transitions;
    }
  }

  /** On the arena after step 1, `findQMinusSet` for a state qf of a finds the reachable
      states of a with a '-' move into qf: b's states never lead back into a's. */
  lemma AbsorbedQMinus(a: Automaton, b: Automaton, j: Automaton, qf: nat, q: nat)
    requires Valid(a) && Valid(b) && StartAbsorbed(a, b, j) && qf < |a.states|
    ensures Reachable(j, q) && HasMinusInto(j, q, qf) <==> Reachable(a, q) && HasMinusInto(a, q, qf)
  {
    if Reachable(j, q) && HasMinusInto(j, q, qf) {
      var t :| t in j.states[q].transitions && MinusInto(t, qf);
      AbsorbedOwn(a, b, j, q, t);
      var w :| Path(j, j.initial, w, q);
      AbsorbedPathBack(a, b, j, j.initial, w, q);
    }
    if Reachable(a, q) && HasMinusInto(a, q, qf) {
      var w :| Path(a, a.initial, w, q);
      AbsorbedPathFwd(a, b, j, a.initial, w, q);
      PathEnd(a, a.initial, w, q);
      var t :| t in a.states[q].transitions && MinusInto(t, qf);
      JoinedStates(a, b, q);
      assert t in j.states[q].transitions;
    }
  }

  // ---------------------------------------------------------------------------------------
  // The shape of the operands

  /** No transition enters the initial state. */
  ghost predicate FreshStart(a: Automaton) {
    forall q, t {:trigger t in a.states[q].transitions} :: 0 <= q < |a.states| && t in a.states[q].transitions ==> t.dest != a.initial
  }

  /**
   * The shape of the minimal deterministic automaton of a k-window language, which is what
   * the source hands to `mkSequence` and `mkLoop` (the leaves are built in it, every other
   * operand comes out of `determinize` and `minimize`): no move into the start, the markers
   * on transitions of their own, '+' read only at the start and into one state, and one
   * reachable accepting state, without transitions.
   */
  ghost predicate Normal(a: Automaton) {
    Valid(a) && FreshStart(a) && MarkersAlone(a) && PlusAtStart(a) && OneSink(a)
  }

  /** A transition that reads '+' or '-' reads nothing else. */
  ghost predicate MarkersAlone(a: Automaton) {
    forall q, t {:trigger t in a.states[q].transitions} ::
      0 <= q < |a.states| && t in a.states[q].transitions && (Covers(t, PLUS) || Covers(t, MINUS)) ==>
      t.min == t.max
  }

  /** Only the start reads '+', and all its '+' moves enter one state. */
  ghost predicate PlusAtStart(a: Automaton) {
    a.initial < |a.states| &&
    (forall q, t {:trigger t in a.states[q].transitions} ::
       0 <= q < |a.states| && q != a.initial && t in a.states[q].transitions ==> !Covers(t, PLUS)) &&
    (forall t, u {:trigger t in a.states[a.initial].transitions, u in a.states[a.initial].transitions} ::
       t in a.states[a.initial].transitions && u in a.states[a.initial].transitions && Covers(t, PLUS) && Covers(u, PLUS)
       ==> t.dest == u.dest)
  }

  /** One reachable state accepts, and it has no transitions. */
  ghost predicate OneSink(a: Automaton) {
    (forall p: nat, q: nat :: AcceptingIn(a, p) && AcceptingIn(a, q) ==> p == q) &&
    (forall p: nat :: AcceptingIn(a, p) ==> a.states[p].transitions == [])
  }

  // ---------------------------------------------------------------------------------------
  // mkSequence and mkLoop

  /** `q0B.step('+')`, renumbered into the joined arena: the state b enters on '+'. */
  function PlusSuccessor(a: Automaton, b: Automaton): (r: Option<nat>)
    requires Valid(a) && Valid(b)
    ensures r.Some? ==>
      |a.states| <= r.value < |a.states| + |b.states| && Path(b, b.initial, [PLUS], r.value - |a.states|)
    ensures r.None? <==> forall t :: t in b.states[b.initial].transitions ==> !Covers(t, PLUS)
  {
    var s := Step(b, b.initial, PLUS);
    if s.Some? then Some(|a.states| + s.value) else None
  }

  /** State q takes part in step 3 of `mkSequence`: it is in `QaMinus` and qbPlus exists. */
  predicate Continues(Q: set<nat>, qbPlus: Option<nat>, q: nat) {
    q in Q && qbPlus.Some?
  }

  /**
   * The arena `mkSequence` leaves before `removeDeadTransitions`, state by state, over the
   * joined arena J of a and b (q0A = a's start, q0B = b's start renumbered, Q = `QaMinus`):
   *  - q0A accepts when either start does, and keeps a's moves, gains q0B's, and gains
   *    qbPlus's when it continues; it drops the '-' moves into qfA when it continues, the
   *    '+' moves into qbPlus always, and then gets back q0B's moves that do not enter qbPlus;
   *  - q0B keeps its accept flag and has no transitions;
   *  - every other state of Q, when qbPlus exists, also takes qbPlus's moves and drops its
   *    '-' moves into qfA;
   *  - every other state is J's.
   */
  ghost predicate SequenceSpliced(a: Automaton, b: Automaton, qfA: nat, qbPlus: Option<nat>, Q: set<nat>, ss: seq<State>)
    requires Valid(a) && Valid(b)
    requires qbPlus.Some? ==> qbPlus.value < |a.states| + |b.states|
  {
    |ss| == |a.states| + |b.states| && StartSpliced(a, b, qfA, qbPlus, Q, ss) && RestSpliced(a, b, qfA, qbPlus, Q, ss)
  }

  /** What `SequenceSpliced` says of q0A. */
  ghost predicate StartSpliced(a: Automaton, b: Automaton, qfA: nat, qbPlus: Option<nat>, Q: set<nat>, ss: seq<State>)
    requires Valid(a) && Valid(b)
    requires qbPlus.Some? ==> qbPlus.value < |a.states| + |b.states|
    requires |ss| == |a.states| + |b.states|
  {
    var J := Joined(a, b).states;
    var q0A, q0B := a.initial, |a.states| + b.initial;
    (ss[q0A].accept <==> a.states[q0A].accept || b.states[b.initial].accept) &&
    forall t {:trigger t in ss[q0A].transitions} :: t in ss[q0A].transitions <==>
      ((t in a.states[q0A].transitions || t in J[q0B].transitions ||
        (Continues(Q, qbPlus, q0A) && t in J[qbPlus.value].transitions)) &&
       !(Continues(Q, qbPlus, q0A) && MinusInto(t, qfA)) && !PlusInto(t, qbPlus)) ||
      (t in J[q0B].transitions && qbPlus != Some(t.dest))
  }

  /** What `SequenceSpliced` says of the states other than q0A. */
  ghost predicate RestSpliced(a: Automaton, b: Automaton, qfA: nat, qbPlus: Option<nat>, Q: set<nat>, ss: seq<State>)
    requires Valid(a) && Valid(b)
    requires qbPlus.Some? ==> qbPlus.value < |a.states| + |b.states|
    requires |ss| == |a.states| + |b.states|
  {
    var J := Joined(a, b).states;
    var q0A, q0B := a.initial, |a.states| + b.initial;
    ss[q0B] == State(J[q0B].accept, []) &&
    (forall q :: 0 <= q < |ss| && q != q0A && q != q0B && Continues(Q, qbPlus, q) ==>
       ss[q].accept == J[q].accept) &&
    (forall q, t {:trigger t in ss[q].transitions} :: 0 <= q < |ss| && q != q0A && q != q0B && Continues(Q, qbPlus, q) ==>
       (t in ss[q].transitions <==>
          (t in J[q].transitions || t in J[qbPlus.value].transitions) && !MinusInto(t, qfA))) &&
    (forall q :: 0 <= q < |ss| && q != q0A && q != q0B && !Continues(Q, qbPlus, q) ==> ss[q] == J[q])
  }

  /** `mkSequence(a, b, k)`. An automaton a without a reachable accepting state makes
      `getAcceptStates().iterator().next()` throw. Otherwise qfA is one of a's reachable
      accepting states, `QaMinus` the reachable states of a with a '-' move into it, the
      spliced arena is the one `SequenceSpliced` describes, and the result is its k-window
      projection. */
  method MkSequence(a: Automaton, b: Automaton, k: nat)
    returns (r: Result<Automaton>, qfA: nat, qaMinus: set<nat>, ghost spliced: Automaton,
             ghost owner: seq<Window.Pes>)
    requires Valid(a) && Valid(b)
    ensures r.Err? <==> forall q :: !AcceptingIn(a, q)
    ensures r.Err? ==> r.error == NoSuchElement
    ensures r.Ok? ==> AcceptingIn(a, qfA)
    ensures r.Ok? ==> forall q :: q in qaMinus <==> Reachable(a, q) && HasMinusInto(a, q, qfA)
    ensures r.Ok? ==> Valid(spliced) && spliced.initial == a.initial
    ensures r.Ok? ==> SequenceSpliced(a, b, qfA, PlusSuccessor(a, b), qaMinus, spliced.states)
    ensures r.Ok? ==> Window.IsProjection(spliced, k, r.value, owner)
  {
    spliced, owner, qfA, qaMinus := a, [], 0, {};
    var q0A := a.initial;
    var qbPlus := PlusSuccessor(a, b);
    var accepting := GetAcceptStates(a);
    if accepting == {} {
      return Err(NoSuchElement), qfA, qaMinus, spliced, owner;
    }
    qfA :| qfA in accepting;
    var states;
    states, qaMinus := SequenceSplice(a, b, qfA, qbPlus);
    LinkedValid(states, q0A);
    var joined := Automaton(states, q0A);
    spliced := joined;
    var m;
    m, owner := Window.ComputeMkAbstraction(joined, k);
    r := Ok(m);
  }

  /** Steps 1 to 6 of `mkSequence`, before the projection: q0A absorbs q0B; the '-'
      predecessors of qfA continue as qbPlus does; q0A drops its '+' moves into qbPlus and
      takes over q0B's other moves; q0B loses its transitions. */
  method SequenceSplice(a: Automaton, b: Automaton, qfA: nat, qbPlus: Option<nat>)
    returns (states: seq<State>, qaMinus: set<nat>)
    requires Valid(a) && Valid(b) && qfA < |a.states|
    requires qbPlus.Some? ==> |a.states| <= qbPlus.value < |a.states| + |b.states|
    ensures forall q :: q in qaMinus <==> Reachable(a, q) && HasMinusInto(a, q, qfA)
    ensures Linked(states) && SequenceSpliced(a, b, qfA, qbPlus, qaMinus, states)
  {
    var n := |a.states|;
    var q0A, q0B := a.initial, n + b.initial;
    var step1 := AbsorbStart(a, b);
    assert StartAbsorbed(a, b, step1);
    ValidLinked(step1);
    qaMinus := FindQMinusSet(step1, qfA);
    forall q ensures q in qaMinus <==> Reachable(a, q) && HasMinusInto(a, q, qfA) {
      AbsorbedQMinus(a, b, step1, qfA, q);
    }
    forall q | q in qaMinus ensures q < n {
      Epsilons.ReachableBelow(a, q);
    }
    states := SpliceAfterStart(a, b, qfA, qbPlus, qaMinus, step1.states);
  }

  /** Steps 3 to 6 of `mkSequence`, on the arena s1 that step 1 left. */
  method SpliceAfterStart(a: Automaton, b: Automaton, qfA: nat, qbPlus: Option<nat>, Q: set<nat>, s1: seq<State>)
    returns (states: seq<State>)
    requires Valid(a) && Valid(b) && qfA < |a.states|
    requires qbPlus.Some? ==> |a.states| <= qbPlus.value < |a.states| + |b.states|
    requires forall q :: q in Q ==> q < |a.states|
    requires StartAbsorbed(a, b, Automaton(s1, a.initial)) && Linked(s1)
    ensures Linked(states) && SequenceSpliced(a, b, qfA, qbPlus, Q, states)
  {
    var q0A, q0B := a.initial, |a.states| + b.initial;
    states := s1;
    if qbPlus.Some? {
      PlusNotMinus(a, b, Automaton(s1, a.initial), qbPlus.value, qfA);
      states := ContinueAfterMinus(states, Q, qbPlus.value, qfA);
      assert Step3Taken(qfA, qbPlus, Q, s1, states);
    }
    ghost var s3 := states;
    states := RedirectStart(states, q0A, q0B, qbPlus);
    assert StepsTaken(a, b, qfA, qbPlus, Q, s1, s3, states);
    StepsStart(a, b, qfA, qbPlus, Q, s1, s3, states);
    StepsRest(a, b, qfA, qbPlus, Q, s1, s3, states);
  }

  /** What steps 3 to 6 of `mkSequence` leave after one another, from s1 to s6. */
  ghost predicate StepsTaken(a: Automaton, b: Automaton, qfA: nat, qbPlus: Option<nat>, Q: set<nat>,
                             s1: seq<State>, s3: seq<State>, s6: seq<State>)
    requires Valid(a) && Valid(b)
    requires qbPlus.Some? ==> |a.states| <= qbPlus.value < |a.states| + |b.states|
  {
    var q0A, q0B := a.initial, |a.states| + b.initial;
    StartAbsorbed(a, b, Automaton(s1, a.initial)) &&
    (forall q :: q in Q ==> q < |a.states|) &&
    Step3Taken(qfA, qbPlus, Q, s1, s3) &&
    StartRedirected(q0A, q0B, qbPlus, s3, s6)
  }

  /** Step 3 of `mkSequence` took s1 to s3. */
  ghost predicate Step3Taken(qfA: nat, qbPlus: Option<nat>, Q: set<nat>, s1: seq<State>, s3: seq<State>) {
    (qbPlus.None? ==> s3 == s1) &&
    (qbPlus.Some? ==>
      qbPlus.value < |s1| && |s3| == |s1| &&
      (forall q :: 0 <= q < |s1| && q !in Q ==> s3[q] == s1[q]) &&
      (forall q :: q in Q ==> q < |s1| && s3[q].accept == s1[q].accept) &&
      (forall q, t {:trigger t in s3[q].transitions} :: q in Q && q < |s1| ==>
         (t in s3[q].transitions <==> (t in s1[q].transitions || t in s1[qbPlus.value].transitions) && !MinusInto(t, qfA))))
  }

  /** The steps leave q0A as `SequenceSpliced` says. */
  lemma StepsStart(a: Automaton, b: Automaton, qfA: nat, qbPlus: Option<nat>, Q: set<nat>,
                   s1: seq<State>, s3: seq<State>, s6: seq<State>)
    requires Valid(a) && Valid(b) && qfA < |a.states|
    requires qbPlus.Some? ==> |a.states| <= qbPlus.value < |a.states| + |b.states|
    requires StepsTaken(a, b, qfA, qbPlus, Q, s1, s3, s6)
    ensures |s6| == |a.states| + |b.states| && StartSpliced(a, b, qfA, qbPlus, Q, s6)
  {
    var J := Joined(a, b).states;
    var q0A, q0B := a.initial, |a.states| + b.initial;
    assert s3[q0B] == s1[q0B] == J[q0B];
    if qbPlus.Some? {
      assert s1[qbPlus.value] == J[qbPlus.value];
    }
    forall t
      ensures t in s3[q0A].transitions <==>
        (t in a.states[q0A].transitions || t in J[q0B].transitions ||
         (Continues(Q, qbPlus, q0A) && t in J[qbPlus.value].transitions)) &&
        !(Continues(Q, qbPlus, q0A) && MinusInto(t, qfA))
    {
    }
  }

  /** The steps leave every other state as `SequenceSpliced` says. */
  lemma StepsRest(a: Automaton, b: Automaton, qfA: nat, qbPlus: Option<nat>, Q: set<nat>,
                  s1: seq<State>, s3: seq<State>, s6: seq<State>)
    requires Valid(a) && Valid(b) && qfA < |a.states|
    requires qbPlus.Some? ==> |a.states| <= qbPlus.value < |a.states| + |b.states|
    requires StepsTaken(a, b, qfA, qbPlus, Q, s1, s3, s6)
    ensures |s6| == |a.states| + |b.states| && RestSpliced(a, b, qfA, qbPlus, Q, s6)
  {
    var J := Joined(a, b).states;
    var q0A, q0B := a.initial, |a.states| + b.initial;
    forall q | 0 <= q < |s6| && q != q0A && q != q0B
      ensures s6[q] == s3[q] && s1[q] == J[q]
    {
    }
    assert s6[q0B] == State(J[q0B].accept, []) by {
      assert s3[q0B] == s1[q0B];
    }
    if qbPlus.Some? {
      var plus := qbPlus.value;
      assert s1[plus] == J[plus];
      forall q, t | 0 <= q < |s6| && q != q0A && q != q0B && Continues(Q, qbPlus, q)
        ensures s6[q].accept == J[q].accept
        ensures t in s6[q].transitions <==>
          (t in J[q].transitions || t in J[plus].transitions) && !MinusInto(t, qfA)
      {
      }
    }
  }

  /** A state of b has no transition into a state of a, so it has no '-' move into qf. */
  lemma PlusNotMinus(a: Automaton, b: Automaton, j: Automaton, plus: nat, qf: nat)
    requires Valid(a) && Valid(b) && qf < |a.states|
    requires |a.states| <= plus < |a.states| + |b.states| && |j.states| == |a.states| + |b.states|
    requires j.states[plus] == Joined(a, b).states[plus]
    ensures !HasMinusInto(j, plus, qf)
  {
    forall t | t in j.states[plus].transitions ensures !MinusInto(t, qf) {
      JoinedStaysInB(a, b, plus, t);
    }
  }

  /** The epsilon pairs of `mkLoop` for one set of states: each is paired with `target`;
      a null target is the NullPointerException that `addEpsilons` raises on it. */
  method PairWith(Q: set<nat>, target: Option<nat>) returns (pairs: seq<(nat, nat)>, npe: bool)
    ensures npe <==> Q != {} && target.None?
    ensures forall i :: 0 <= i < |pairs| ==> pairs[i].0 in Q && Some(pairs[i].1) == target
    ensures forall q :: q in Q && target.Some? ==> (q, target.value) in pairs
  {
    pairs, npe := [], false;
    var left := Q;
    while left != {}
      invariant left <= Q
      invariant npe <==> left != Q && target.None?
      invariant forall i :: 0 <= i < |pairs| ==> pairs[i].0 in Q && Some(pairs[i].1) == target
      invariant forall q :: q in Q - left && target.Some? ==> (q, target.value) in pairs
      decreases |left|
    {
      var s :| s in left;
      if target.Some? {
        pairs := pairs + [(s, target.value)];
      } else {
        npe := true;
      }
      left := left - {s};
    }
  }

  /** `mkLoop(a, b, k)`. Either automaton without a reachable accepting state throws
      NoSuchElement. The '-' predecessors of a's accepting state are paired with the state b
      enters on '+', and those of b's accepting state (which drop their '-' moves into it)
      with the state a enters on '+'; a null partner for a non-empty set throws
      NullPointerException inside `addEpsilons`. Otherwise the spliced arena is cut to its
      k-windows. */
  method MkLoop(a: Automaton, b: Automaton, k: nat)
    returns (r: Result<Automaton>, ghost qfA: nat, ghost qfB: nat, ghost qaMinus: set<nat>, ghost qbMinus: set<nat>,
             ghost arenas: LoopArenas, ghost spliced: Automaton, ghost owner: seq<Window.Pes>)
    requires Valid(a) && Valid(b)
    ensures r == Err(NoSuchElement) <==> (forall q :: !AcceptingIn(a, q)) || (forall q :: !AcceptingIn(b, q))
    ensures r != Err(NoSuchElement) ==> AcceptingIn(a, qfA) && AcceptingIn(b, qfB) && StartAbsorbed(a, b, arenas.absorbed)
    ensures r != Err(NoSuchElement) ==> forall q ::
      q in qaMinus <==> Reachable(arenas.absorbed, q) && HasMinusInto(arenas.absorbed, q, qfA)
    ensures r != Err(NoSuchElement) ==> forall q ::
      q in qbMinus <==> Reachable(arenas.absorbed, q) && HasMinusInto(arenas.absorbed, q, |a.states| + qfB)
    ensures r == Err(NullPointer) <==>
      (exists q :: AcceptingIn(a, q)) && (exists q :: AcceptingIn(b, q)) &&
      ((qaMinus != {} && Step(b, b.initial, PLUS).None?) || (qbMinus != {} && Step(a, a.initial, PLUS).None?))
    ensures r.Err? ==> r.error == NoSuchElement || r.error == NullPointer
    ensures r.Ok? ==> LoopPairs(qaMinus, qbMinus, Step(a, a.initial, PLUS), PlusSuccessor(a, b), arenas.pairs)
    ensures r.Ok? ==>
      |spliced.states| == |a.states| + |b.states| &&
      LoopSpliced(a, b, |a.states| + qfB, qbMinus, PlusSuccessor(a, b), arenas, spliced.states)
    ensures r.Ok? ==> Valid(spliced) && spliced.initial == a.initial
    ensures r.Ok? ==> spliced.states[|a.states| + b.initial].transitions == []
    ensures r.Ok? ==> Window.IsProjection(spliced, k, r.value, owner)
  {
    qfA, qfB, qaMinus, qbMinus, spliced, owner := 0, 0, {}, {}, a, [];
    arenas := LoopArenas(a, [], [], []);
    var acceptingA := GetAcceptStates(a);
    if acceptingA == {} {
      return Err(NoSuchElement), qfA, qfB, qaMinus, qbMinus, arenas, spliced, owner;
    }
    var qfA0 :| qfA0 in acceptingA;
    qfA := qfA0;
    var acceptingB := GetAcceptStates(b);
    if acceptingB == {} {
      return Err(NoSuchElement), qfA, qfB, qaMinus, qbMinus, arenas, spliced, owner;
    }
    var qfB0 :| qfB0 in acceptingB;
    qfB := qfB0;
    r, qaMinus, qbMinus, arenas, spliced, owner := LoopFrom(a, b, k, qfA0, qfB0);
  }

  /** `mkLoop(a, b, k)` once its accepting states qfA of a and qfB of b are chosen. */
  method LoopFrom(a: Automaton, b: Automaton, k: nat, qfA: nat, qfB: nat)
    returns (r: Result<Automaton>, qaMinus: set<nat>, qbMinus: set<nat>,
             ghost arenas: LoopArenas, ghost spliced: Automaton, ghost owner: seq<Window.Pes>)
    requires Valid(a) && Valid(b) && qfA < |a.states| && qfB < |b.states|
    ensures StartAbsorbed(a, b, arenas.absorbed)
    ensures forall q :: q in qaMinus <==> Reachable(arenas.absorbed, q) && HasMinusInto(arenas.absorbed, q, qfA)
    ensures forall q :: q in qbMinus <==> Reachable(arenas.absorbed, q) && HasMinusInto(arenas.absorbed, q, |a.states| + qfB)
    ensures r.Err? ==> r.error == NullPointer
    ensures r.Err? <==>
      (qaMinus != {} && Step(b, b.initial, PLUS).None?) || (qbMinus != {} && Step(a, a.initial, PLUS).None?)
    ensures r.Ok? ==> LoopPairs(qaMinus, qbMinus, Step(a, a.initial, PLUS), PlusSuccessor(a, b), arenas.pairs)
    ensures r.Ok? ==>
      |spliced.states| == |a.states| + |b.states| &&
      LoopSpliced(a, b, |a.states| + qfB, qbMinus, PlusSuccessor(a, b), arenas, spliced.states)
    ensures r.Ok? ==> Valid(spliced) && spliced.initial == a.initial
    ensures r.Ok? ==> spliced.states[|a.states| + b.initial].transitions == []
    ensures r.Ok? ==> Window.IsProjection(spliced, k, r.value, owner)
  {
    var n := |a.states|;
    var states, npe;
    states, npe, qaMinus, qbMinus, arenas := LoopSplice(a, b, qfA, n + qfB, Step(a, a.initial, PLUS), PlusSuccessor(a, b));
    spliced, owner := a, [];
    if npe {
      return Err(NullPointer), qaMinus, qbMinus, arenas, spliced, owner;
    }
    LinkedValid(states, a.initial);
    var joined := Automaton(states, a.initial);
    spliced := joined;
    var m;
    m, owner := Window.ComputeMkAbstraction(joined, k);
    r := Ok(m);
  }


  /** The end of step 3 of `mkLoop` (`addEpsilons` on the pairs), then steps 4 to 6. */
  method EpsilonsThenRedirect(dropped: seq<State>, q0A: nat, q0B: nat, pairs: seq<(nat, nat)>, qBPlus: Option<nat>)
    returns (states: seq<State>, ghost eps: seq<State>)
    requires Linked(dropped) && q0A < |dropped| && q0B < |dropped| && q0A != q0B && Epsilons.PairsIn(|dropped|, pairs)
    ensures ClosuresAbsorbed(dropped, q0A, pairs, eps)
    ensures StartRedirected(q0A, q0B, qBPlus, eps, states)
    ensures Linked(states)
  {
    LinkedValid(dropped, q0A);
    var step2 := Epsilons.AddEpsilons(Automaton(dropped, q0A), pairs);
    eps := step2.states;
    ValidLinked(step2);
    states := RedirectStart(step2.states, q0A, q0B, qBPlus);
  }

  /** The epsilon pairs of `mkLoop`: the '-' predecessors of qfA paired with qBPlus, those
      of qfB with qAPlus, and no other pair. */
  ghost predicate LoopPairs(qaMinus: set<nat>, qbMinus: set<nat>, qAPlus: Option<nat>, qBPlus: Option<nat>,
                            pairs: seq<(nat, nat)>) {
    (forall i :: 0 <= i < |pairs| ==>
       (pairs[i].0 in qaMinus && Some(pairs[i].1) == qBPlus) || (pairs[i].0 in qbMinus && Some(pairs[i].1) == qAPlus)) &&
    (forall q :: q in qaMinus && qBPlus.Some? ==> (q, qBPlus.value) in pairs) &&
    (forall q :: q in qbMinus && qAPlus.Some? ==> (q, qAPlus.value) in pairs)
  }

  /** Step 3 of `mkLoop` on the arena after step 1: the states of Q drop their '-' moves
      into qf and no other state changes. */
  ghost predicate MinusDropped(states: seq<State>, Q: set<nat>, qf: nat, dropped: seq<State>) {
    |dropped| == |states| &&
    (forall q :: 0 <= q < |states| && q !in Q ==> dropped[q] == states[q]) &&
    (forall q :: q in Q ==> q < |states| && dropped[q].accept == states[q].accept) &&
    (forall q, t {:trigger t in dropped[q].transitions} :: q in Q ==>
       (t in dropped[q].transitions <==> t in states[q].transitions && !MinusInto(t, qf)))
  }

  /** Steps 4 to 6 of both splices, on the arena eps that the earlier steps left: q0A
      drops its '+' moves into qBPlus and takes over q0B's moves except those into qBPlus,
      q0B loses its moves, and no other state changes. */
  ghost predicate StartRedirected(q0A: nat, q0B: nat, qBPlus: Option<nat>, eps: seq<State>, ss: seq<State>) {
    q0A < |eps| && q0B < |eps| && q0A != q0B && |ss| == |eps| &&
    ss[q0A].accept == eps[q0A].accept &&
    (forall t {:trigger t in ss[q0A].transitions} :: t in ss[q0A].transitions <==>
       (t in eps[q0A].transitions && !PlusInto(t, qBPlus)) || (t in eps[q0B].transitions && qBPlus != Some(t.dest))) &&
    ss[q0B] == State(eps[q0B].accept, []) &&
    (forall q :: 0 <= q < |ss| && q != q0A && q != q0B ==> ss[q] == eps[q])
  }

  /** The arenas `mkLoop` passes through: the one after step 1, the one after the '-' moves
      of QbMinus are dropped, the epsilon pairs of step 3 and the arena `addEpsilons` leaves. */
  datatype LoopArenas = LoopArenas(absorbed: Automaton, dropped: seq<State>, pairs: seq<(nat, nat)>, eps: seq<State>)

  /**
   * The arena ss `mkLoop` leaves before the projection, from the arena A.absorbed after step
   * 1: the states of QbMinus drop their '-' moves into qfB (A.dropped), every state absorbs
   * its epsilon closure under the pairs (A.eps), and steps 4 to 6 redirect q0A.
   */
  ghost predicate LoopSpliced(a: Automaton, b: Automaton, qfB: nat, QbMinus: set<nat>, qBPlus: Option<nat>,
                              A: LoopArenas, ss: seq<State>)
    requires Valid(a) && Valid(b)
  {
    MinusDropped(A.absorbed.states, QbMinus, qfB, A.dropped) &&
    Epsilons.PairsIn(|A.dropped|, A.pairs) && ClosuresAbsorbed(A.dropped, a.initial, A.pairs, A.eps) &&
    StartRedirected(a.initial, |a.states| + b.initial, qBPlus, A.eps, ss)
  }

  /** `addEpsilons(pairs)` took the arena states to eps: every state absorbed its closure. */
  ghost predicate ClosuresAbsorbed(states: seq<State>, initial: nat, pairs: seq<(nat, nat)>, eps: seq<State>) {
    |eps| == |states| &&
    forall p :: 0 <= p < |states| ==>
      Epsilons.Absorbed(Automaton(states, initial), Epsilons.Closure(|states|, pairs, p), p, eps[p])
  }

  /** Step 3 of `mkLoop`: the epsilon pairs of both '-' predecessor sets; a null
      partner for a non-empty set is the NullPointerException of `addEpsilons`. */
  method LoopEpsilonPairs(qaMinus: set<nat>, qbMinus: set<nat>, qAPlus: Option<nat>, qBPlus: Option<nat>, n: nat)
    returns (pairs: seq<(nat, nat)>, npe: bool)
    requires (forall q :: q in qaMinus ==> q < n) && (forall q :: q in qbMinus ==> q < n)
    requires qAPlus.Some? ==> qAPlus.value < n
    requires qBPlus.Some? ==> qBPlus.value < n
    ensures npe <==> (qaMinus != {} && qBPlus.None?) || (qbMinus != {} && qAPlus.None?)
    ensures LoopPairs(qaMinus, qbMinus, qAPlus, qBPlus, pairs) && Epsilons.PairsIn(n, pairs)
  {
    var pairsA, npeA := PairWith(qaMinus, qBPlus);
    var pairsB, npeB := PairWith(qbMinus, qAPlus);
    npe := npeA || npeB;
    pairs := pairsA + pairsB;
    forall i | 0 <= i < |pairs|
      ensures pairs[i].0 < n && pairs[i].1 < n
      ensures (pairs[i].0 in qaMinus && Some(pairs[i].1) == qBPlus) || (pairs[i].0 in qbMinus && Some(pairs[i].1) == qAPlus)
    {
      if i < |pairsA| {
        assert pairs[i] == pairsA[i];
      } else {
        assert pairs[i] == pairsB[i - |pairsA|];
      }
    }
    forall q | q in qaMinus && qBPlus.Some? ensures (q, qBPlus.value) in pairs {
      assert (q, qBPlus.value) in pairsA;
    }
    forall q | q in qbMinus && qAPlus.Some? ensures (q, qAPlus.value) in pairs {
      assert (q, qAPlus.value) in pairsB;
    }
  }

  /** Steps 4 to 6 of both splices: q0A drops its '+' moves into qBPlus and takes over
      q0B's other moves, then q0B loses its transitions. */
  method RedirectStart(eps: seq<State>, q0A: nat, q0B: nat, qBPlus: Option<nat>) returns (states: seq<State>)
    requires q0A < |eps| && q0B < |eps| && q0A != q0B
    ensures StartRedirected(q0A, q0B, qBPlus, eps, states)
    ensures Linked(eps) ==> Linked(states)
  {
    states := DropPlusInto(eps, q0A, qBPlus);
    states := RedirectInitialTransitions(states, q0A, q0B, qBPlus);
    states := ClearTransitions(states, q0B);
  }

  /** Steps 1 and 2 of `mkLoop`: q0A absorbs q0B, then the reachable '-' predecessors of
      qfA and of qfB are collected. */
  method LoopSets(a: Automaton, b: Automaton, qfA: nat, qfB: nat)
    returns (step1: Automaton, qaMinus: set<nat>, qbMinus: set<nat>)
    requires Valid(a) && Valid(b)
    ensures StartAbsorbed(a, b, step1) && Linked(step1.states)
    ensures forall q :: q in qaMinus <==> Reachable(step1, q) && HasMinusInto(step1, q, qfA)
    ensures forall q :: q in qbMinus <==> Reachable(step1, q) && HasMinusInto(step1, q, qfB)
    ensures (forall q :: q in qaMinus ==> q < |step1.states|) && (forall q :: q in qbMinus ==> q < |step1.states|)
  {
    step1 := AbsorbStart(a, b);
    ValidLinked(step1);
    qaMinus := FindQMinusSet(step1, qfA);
    qbMinus := FindQMinusSet(step1, qfB);
    forall q | q in qaMinus + qbMinus ensures q < |step1.states| {
      Epsilons.ReachableBelow(step1, q);
    }
  }

  /** Steps 1 to 6 of `mkLoop`, before the projection. After q0A absorbs q0B, the '-'
      predecessors of qfA are paired with qBPlus and those of qfB with qAPlus, the latter
      dropping their '-' moves into qfB; `addEpsilons` applies the pairs (and raises the
      NullPointerException of a null partner); q0A drops its '+' moves into qBPlus, takes
      over q0B's other moves, and q0B loses its transitions. */
  method LoopSplice(a: Automaton, b: Automaton, qfA: nat, qfB: nat, qAPlus: Option<nat>, qBPlus: Option<nat>)
    returns (states: seq<State>, npe: bool, qaMinus: set<nat>, qbMinus: set<nat>, ghost arenas: LoopArenas)
    requires Valid(a) && Valid(b) && qfA < |a.states| + |b.states| && qfB < |a.states| + |b.states|
    requires qAPlus.Some? ==> qAPlus.value < |a.states| + |b.states|
    requires qBPlus.Some? ==> qBPlus.value < |a.states| + |b.states|
    ensures StartAbsorbed(a, b, arenas.absorbed)
    ensures forall q :: q in qaMinus <==> Reachable(arenas.absorbed, q) && HasMinusInto(arenas.absorbed, q, qfA)
    ensures forall q :: q in qbMinus <==> Reachable(arenas.absorbed, q) && HasMinusInto(arenas.absorbed, q, qfB)
    ensures npe <==> (qaMinus != {} && qBPlus.None?) || (qbMinus != {} && qAPlus.None?)
    ensures !npe ==> LoopPairs(qaMinus, qbMinus, qAPlus, qBPlus, arenas.pairs)
    ensures !npe ==> |states| == |a.states| + |b.states| && LoopSpliced(a, b, qfB, qbMinus, qBPlus, arenas, states)
    ensures !npe ==> Linked(states) && states[|a.states| + b.initial].transitions == []
  {
    var q0A, q0B := a.initial, |a.states| + b.initial;
    var step1;
    step1, qaMinus, qbMinus := LoopSets(a, b, qfA, qfB);
    var allPairs;
    allPairs, npe := LoopEpsilonPairs(qaMinus, qbMinus, qAPlus, qBPlus, |step1.states|);
    states, arenas := step1.states, LoopArenas(step1, [], [], []);
    if npe {
      return;
    }
    states, arenas := DropThenEpsilons(a, b, step1, qbMinus, qfB, allPairs, qBPlus);
  }

  /** Step 3 of `mkLoop` from the removal of the '-' moves into qfB, then steps 4 to 6. */
  method DropThenEpsilons(a: Automaton, b: Automaton, step1: Automaton, Q: set<nat>, qfB: nat,
                          pairs: seq<(nat, nat)>, qBPlus: Option<nat>)
    returns (states: seq<State>, ghost arenas: LoopArenas)
    requires Valid(a) && Valid(b) && Linked(step1.states) && |step1.states| == |a.states| + |b.states|
    requires (forall q :: q in Q ==> q < |step1.states|) && Epsilons.PairsIn(|step1.states|, pairs)
    ensures arenas.absorbed == step1 && arenas.pairs == pairs
    ensures |states| == |a.states| + |b.states| && LoopSpliced(a, b, qfB, Q, qBPlus, arenas, states)
    ensures Linked(states) && states[|a.states| + b.initial].transitions == []
  {
    var dropped := DropMinusInto(step1.states, Q, qfB);
    ghost var eps;
    states, eps := EpsilonsThenRedirect(dropped, a.initial, |a.states| + b.initial, pairs, qBPlus);
    arenas := LoopArenas(step1, dropped, pairs, eps);
  }
}
