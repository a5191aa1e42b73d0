/**
 * The language of the k-window projection built by `computeMkAbstraction`.
 *
 * Every edge of the projection appends its character to the memory of the PES it leaves
 * (a restart leaves the start state, whose memory is empty), so the word read from the start
 * state is the memory of the PES reached. Hence the projection accepts only k-windows of
 * the original automaton and, below k characters, words the original automaton accepts.
 * Conversely, for k >= 2 every k-window of a reachable state is accepted.
 */
module WindowLanguage {
  import opened Automata
  import opened Window

  /** An edge of the projection is on one character c and leads to the PES whose memory
      is the memory of its source followed by c. */
  lemma EdgeAppends(a: Automaton, k: nat, m: Automaton, owner: seq<Pes>, i: nat, e: Transition)
    requires IsProjection(a, k, m, owner) && i < |owner| && e in m.states[i].transitions
    ensures e.min == e.max && e.dest < |owner| && owner[e.dest].memory == owner[i].memory + [e.min]
  {
    assert EdgeOk(a, k, owner, i, e);
    var c, p := e.min, owner[e.dest];
    if !PesAccepting(a, k, owner[i]) && IsContMove(a, k, owner[i], c, p) {
      assert WellFormed(a, k, owner[i]);
      UpdateMemoryAppends(owner[i].memory, c, k);
    } else {
      assert i == 0 && owner[0].memory == [];
      var s :| s in owner && IsRestartMove(a, k, s, c, p);
    }
  }

  /** Every edge appends its character to the memory. */
  ghost predicate EdgesAppend(m: Automaton, owner: seq<Pes>) {
    |m.states| == |owner| &&
    forall i, e :: 0 <= i < |owner| && e in m.states[i].transitions ==>
      e.min == e.max && e.dest < |owner| && owner[e.dest].memory == owner[i].memory + [e.min]
  }

  lemma ProjectionEdgesAppend(a: Automaton, k: nat, m: Automaton, owner: seq<Pes>)
    requires IsProjection(a, k, m, owner)
    ensures EdgesAppend(m, owner)
  {
    forall i, e | 0 <= i < |owner| && e in m.states[i].transitions
      ensures e.min == e.max && e.dest < |owner| && owner[e.dest].memory == owner[i].memory + [e.min]
    {
      EdgeAppends(a, k, m, owner, i, e);
    }
  }

  /** A word read from state i leads to a PES whose memory is i's memory followed by the word. */
  lemma {:induction false} PathMemory(m: Automaton, owner: seq<Pes>, i: nat, w: seq<Sym>, d: nat)
    requires EdgesAppend(m, owner) && i < |owner| && Path(m, i, w, d)
    ensures d < |owner| && owner[d].memory == owner[i].memory + w
    decreases |w|
  {
    if w != [] {
      var e :| e in m.states[i].transitions && Covers(e, w[0]) && Path(m, e.dest, w[1..], d);
      EdgeMemory(m, owner, i, e);
      PathMemory(m, owner, e.dest, w[1..], d);
      ConsAppend(owner[i].memory, e.min, w);
    }
  }

  lemma EdgeMemory(m: Automaton, owner: seq<Pes>, i: nat, e: Transition)
    requires EdgesAppend(m, owner) && i < |owner| && e in m.states[i].transitions
    ensures e.min == e.max && e.dest < |owner| && owner[e.dest].memory == owner[i].memory + [e.min]
  {
  }

  lemma ConsAppend(x: seq<Sym>, c: Sym, w: seq<Sym>)
    requires w != [] && w[0] == c
    ensures (x + [c]) + w[1..] == x + w
  {
    assert [w[0]] + w[1..] == w;
  }

  /** The projection accepts only windows of length k of the original automaton, and shorter
      non-empty words that the original automaton accepts from its initial state. */
  lemma ProjectionSound(a: Automaton, k: nat, m: Automaton, owner: seq<Pes>, w: seq<Sym>)
    requires Valid(a) && IsProjection(a, k, m, owner) && Accepts(m, w)
    ensures (|w| == k && IsWindow(a, w)) || (0 < |w| < k && Accepts(a, w))
  {
    ProjectionEdgesAppend(a, k, m, owner);
    AcceptedMemory(m, owner, w);
    var d :| 0 <= d < |owner| && m.states[d].accept && owner[d].memory == w;
    ProjectionAccepting(a, k, m, owner, d);
  }

  /** In an automaton whose edges append their symbol to the memory of the state they
      leave, an accepted word is the memory of an accepting state. */
  lemma AcceptedMemory(m: Automaton, owner: seq<Pes>, w: seq<Sym>)
    requires EdgesAppend(m, owner) && m.initial == 0 && |m.states| == |owner| && 0 < |owner|
    requires owner[0].memory == [] && Accepts(m, w)
    ensures exists d :: 0 <= d < |owner| && m.states[d].accept && owner[d].memory == w
  {
    AcceptsFromPath(m, m.initial, w);
    var d: nat :| Path(m, 0, w, d) && d < |m.states| && m.states[d].accept;
    PathMemory(m, owner, 0, w, d);
    assert owner[d].memory == w;
  }

  /** An accepting state of the projection stands for a k-window or an accepted shorter
      word. */
  lemma ProjectionAccepting(a: Automaton, k: nat, m: Automaton, owner: seq<Pes>, d: nat)
    requires Valid(a) && IsProjection(a, k, m, owner) && d < |owner| && d < |m.states| && m.states[d].accept
    ensures (|owner[d].memory| == k && IsWindow(a, owner[d].memory)) ||
            (0 < |owner[d].memory| < k && Accepts(a, owner[d].memory))
  {
    ProjectionState(a, k, m, owner, d);
    AcceptingPesSound(a, k, owner[d]);
  }

  lemma ProjectionState(a: Automaton, k: nat, m: Automaton, owner: seq<Pes>, d: nat)
    requires IsProjection(a, k, m, owner) && d < |owner|
    ensures WellFormed(a, k, owner[d]) && PesSound(a, owner[d])
    ensures m.states[d].accept == PesAccepting(a, k, owner[d])
  {
  }

  /** An accepting PES stands for a k-window, or for a shorter word the original automaton
      accepts from its initial state. */
  lemma AcceptingPesSound(a: Automaton, k: nat, p: Pes)
    requires Valid(a) && WellFormed(a, k, p) && PesSound(a, p) && PesAccepting(a, k, p)
    ensures (|p.memory| == k && IsWindow(a, p.memory)) || (0 < |p.memory| < k && Accepts(a, p.memory))
  {
    var w := p.memory;
    if |w| == k {
      if p.fromInitial {
        assert Path(a, a.initial, [], a.initial);
        assert Reachable(a, a.initial) && Path(a, a.initial, w, p.orig);
      } else {
        var s: nat :| Reachable(a, s) && Path(a, s, w, p.orig);
      }
    } else {
      assert Path(a, a.initial, w, p.orig) && a.states[p.orig].accept;
      AcceptsFromPath(a, a.initial, w);
    }
  }

  /** A PES with a non-empty memory, off the initial path, whose memory and the word x
      together hold k characters, accepts x when x labels a path of the original automaton. */
  lemma {:induction false} ContinueRun(a: Automaton, k: nat, m: Automaton, owner: seq<Pes>, d: nat, x: seq<Sym>, q: nat)
    requires Valid(a) && IsProjection(a, k, m, owner) && d < |owner|
    requires !owner[d].fromInitial && owner[d].memory != [] && |owner[d].memory| + |x| == k
    requires Path(a, owner[d].orig, x, q)
    ensures AcceptsFrom(m, d, x)
    decreases |x|
  {
    assert WellFormed(a, k, owner[d]);
    if x != [] {
      var c := x[0];
      var t :| t in a.states[owner[d].orig].transitions && Covers(t, c) && Path(a, t.dest, x[1..], q);
      assert Complete(a, k, m.states, owner);
      assert HasEdge(m.states, owner, d, c, ContPes(owner[d], t, c, k));
      var d2 :| 0 <= d2 < |owner| && owner[d2] == ContPes(owner[d], t, c, k) && Single(c, d2) in m.states[d].transitions;
      UpdateMemoryAppends(owner[d].memory, c, k);
      ContinueRun(a, k, m, owner, d2, x[1..], q);
      assert Covers(Single(c, d2), x[0]);
    }
  }

  /** For k >= 2 every state reached from a state that a non-accepting PES stands for is
      itself stood for by a non-accepting PES: the restart edges reach it. */
  lemma {:induction false} RestartsReach(a: Automaton, k: nat, m: Automaton, owner: seq<Pes>, i: nat, u: seq<Sym>, q: nat)
    requires Valid(a) && IsProjection(a, k, m, owner) && 2 <= k
    requires i < |owner| && !PesAccepting(a, k, owner[i]) && Path(a, owner[i].orig, u, q)
    ensures exists j :: 0 <= j < |owner| && owner[j].orig == q && !PesAccepting(a, k, owner[j])
    decreases |u|
  {
    if u == [] {
      assert owner[i].orig == q;
    } else {
      var c := u[0];
      assert WellFormed(a, k, owner[i]);
      var t :| t in a.states[owner[i].orig].transitions && Covers(t, c) && Path(a, t.dest, u[1..], q);
      assert Complete(a, k, m.states, owner);
      assert HasEdge(m.states, owner, 0, c, RestartPes(t, c));
      var j :| 0 <= j < |owner| && owner[j] == RestartPes(t, c) && Single(c, j) in m.states[0].transitions;
      assert WellFormed(a, k, owner[j]);
      RestartsReach(a, k, m, owner, j, u[1..], q);
    }
  }

  /** For k >= 2 the projection accepts every window of length k of the original automaton. */
  lemma ProjectionWindows(a: Automaton, k: nat, m: Automaton, owner: seq<Pes>, w: seq<Sym>)
    requires Valid(a) && IsProjection(a, k, m, owner) && 2 <= k
    requires |w| == k && IsWindow(a, w)
    ensures Accepts(m, w)
  {
    var s: nat, q: nat :| Reachable(a, s) && Path(a, s, w, q);
    var u: seq<Sym> :| Path(a, a.initial, u, s);
    assert WellFormed(a, k, owner[0]);
    RestartsReach(a, k, m, owner, 0, u, s);
    var i :| 0 <= i < |owner| && owner[i].orig == s && !PesAccepting(a, k, owner[i]);
    var c := w[0];
    assert WellFormed(a, k, owner[i]);
    var t :| t in a.states[s].transitions && Covers(t, c) && Path(a, t.dest, w[1..], q);
    assert Complete(a, k, m.states, owner);
    assert HasEdge(m.states, owner, 0, c, RestartPes(t, c));
    var d :| 0 <= d < |owner| && owner[d] == RestartPes(t, c) && Single(c, d) in m.states[0].transitions;
    ContinueRun(a, k, m, owner, d, w[1..], q);
    assert Covers(Single(c, d), w[0]);
  }
}
