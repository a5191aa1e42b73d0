/**
 * The k-window projection of `MarkovianAutomatonAbstraction.computeMkAbstraction`.
 *
 * A state of the projection is a PES (original state, memory, fromInitial): the memory is
 * the word read since the projection state was entered from its start, and fromInitial
 * says whether that word is read from the initial state of the original automaton.
 * A PES is accepting once its memory holds k characters, or when it is on the initial path
 * and the original state accepts. Every move on c from an expanded PES also gives the
 * start state a "restart" move on c, into a PES whose memory is just c.
 */
module Window {
  import opened Automata

  // ---------------------------------------------------------------------------------------
  // updateMemory

  /** `updateMemory(m, c, k)`: the memory after reading c, holding at most k characters. */
  function UpdateMemory(mem: seq<Sym>, c: Sym, k: nat): (r: seq<Sym>)
    ensures |r| == if |mem| + 1 <= k then |mem| + 1 else k
    ensures IsSuffix(r, mem + [c])
  {
    var combined := mem + [c];
    if |combined| <= k then combined else combined[|combined| - k..]
  }

  predicate IsSuffix(s: seq<Sym>, t: seq<Sym>) {
    |s| <= |t| && t[|t| - |s|..] == s
  }

  /** Below the bound nothing is dropped: the memory just grows by c. */
  lemma UpdateMemoryAppends(mem: seq<Sym>, c: Sym, k: nat)
    requires |mem| < k
    ensures UpdateMemory(mem, c, k) == mem + [c]
  {
  }

  /** The memory after reading w from the empty memory, one `updateMemory` per character. */
  function MemoryAfter(w: seq<Sym>, k: nat): seq<Sym>
    decreases |w|
  {
    if w == [] then [] else UpdateMemory(MemoryAfter(w[..|w| - 1], k), w[|w| - 1], k)
  }

  /** Reading a whole word one character at a time leaves its last min(|w|, k) characters. */
  lemma {:induction false} MemoryAfterIsWindow(w: seq<Sym>, k: nat)
    ensures MemoryAfter(w, k) == w[|w| - Min(|w|, k)..]
    decreases |w|
  {
    if w != [] {
      var u := w[..|w| - 1];
      var c := w[|w| - 1];
      MemoryAfterIsWindow(u, k);
      var m := MemoryAfter(u, k);
      assert MemoryAfter(w, k) == UpdateMemory(m, c, k);
      assert w == u + [c];
      if |u| < k {
        assert m == u;
        UpdateMemoryAppends(u, c, k);
        assert w[|w| - Min(|w|, k)..] == w;
      } else {
        assert m == u[|u| - k..];
        WindowStep(u, c, k);
        assert UpdateMemory(m, c, k) == (m + [c])[1..];
        assert w[|w| - Min(|w|, k)..] == (u + [c])[|u| + 1 - k..];
      }
    }
  }

  /** Sliding a window of k characters over one more character. */
  lemma WindowStep(u: seq<Sym>, c: Sym, k: nat)
    requires k <= |u|
    ensures (u[|u| - k..] + [c])[1..] == (u + [c])[|u| + 1 - k..]
  {
  }

  function Min(x: nat, y: nat): nat {
    if x <= y then x else y
  }

  // ---------------------------------------------------------------------------------------
  // Projection states

  /** The Java class PES: a state of the original automaton, a memory and the initial-path flag. */
  datatype Pes = Pes(orig: nat, memory: seq<Sym>, fromInitial: bool)

  function InitialPes(a: Automaton): Pes {
    Pes(a.initial, [], true)
  }

  /** The acceptance test of the worklist (:344-345). */
  predicate PesAccepting(a: Automaton, k: nat, p: Pes)
    requires p.orig < |a.states|
  {
    |p.memory| == k || (p.fromInitial && |p.memory| > 0 && a.states[p.orig].accept)
  }

  /** The PES that continues the current path on c along t. */
  function ContPes(p: Pes, t: Transition, c: Sym, k: nat): Pes {
    Pes(t.dest, UpdateMemory(p.memory, c, k), p.fromInitial)
  }

  /** The PES the start state moves to on c along t: a window that begins with c. */
  function RestartPes(t: Transition, c: Sym): Pes {
    Pes(t.dest, [c], false)
  }

  ghost predicate WellFormed(a: Automaton, k: nat, p: Pes) {
    p.orig < |a.states| && |p.memory| <= k
  }

  /** What a PES stands for: its memory labels a path of the original automaton into its
      state, from the initial state when fromInitial holds, else from some reachable state. */
  ghost predicate PesSound(a: Automaton, p: Pes) {
    if p.fromInitial then Path(a, a.initial, p.memory, p.orig)
    else p.memory != [] && exists s: nat :: Reachable(a, s) && Path(a, s, p.memory, p.orig)
  }

  /** The word w labels a path of a that starts in a reachable state. */
  ghost predicate IsWindow(a: Automaton, w: seq<Sym>) {
    exists s: nat, q: nat :: Reachable(a, s) && Path(a, s, w, q)
  }

  lemma PesReachable(a: Automaton, p: Pes)
    requires PesSound(a, p)
    ensures Reachable(a, p.orig)
  {
    if p.fromInitial {
      assert Path(a, a.initial, p.memory, p.orig);
    } else {
      var s: nat :| Reachable(a, s) && Path(a, s, p.memory, p.orig);
      var u: seq<Sym> :| Path(a, a.initial, u, s);
      PathConcat(a, a.initial, u, s, p.memory, p.orig);
    }
  }

  lemma ContSound(a: Automaton, k: nat, p: Pes, t: Transition, c: Sym)
    requires Valid(a) && WellFormed(a, k, p) && |p.memory| < k && PesSound(a, p)
    requires t in a.states[p.orig].transitions && Covers(t, c)
    ensures WellFormed(a, k, ContPes(p, t, c, k)) && PesSound(a, ContPes(p, t, c, k))
  {
    UpdateMemoryAppends(p.memory, c, k);
    if p.fromInitial {
      PathStep(a, a.initial, p.memory, p.orig, t, c);
    } else {
      var s: nat :| Reachable(a, s) && Path(a, s, p.memory, p.orig);
      PathStep(a, s, p.memory, p.orig, t, c);
    }
  }

  lemma RestartSound(a: Automaton, k: nat, p: Pes, t: Transition, c: Sym)
    requires Valid(a) && WellFormed(a, k, p) && 0 < k && PesSound(a, p)
    requires t in a.states[p.orig].transitions && Covers(t, c)
    ensures WellFormed(a, k, RestartPes(t, c)) && PesSound(a, RestartPes(t, c))
  {
    PesReachable(a, p);
    PathStep(a, p.orig, [], p.orig, t, c);
    assert [] + [c] == [c];
  }

  // ---------------------------------------------------------------------------------------
  // The edges of the projection

  /** p2 is where p goes on c along some transition of its original state. */
  ghost predicate IsContMove(a: Automaton, k: nat, p: Pes, c: Sym, p2: Pes) {
    p.orig < |a.states| &&
    exists t :: t in a.states[p.orig].transitions && Covers(t, c) && p2 == ContPes(p, t, c, k)
  }

  /** p2 is the restart target on c of the expanded PES s. */
  ghost predicate IsRestartMove(a: Automaton, k: nat, s: Pes, c: Sym, p2: Pes) {
    s.orig < |a.states| && !PesAccepting(a, k, s) &&
    exists t :: t in a.states[s.orig].transitions && Covers(t, c) && p2 == RestartPes(t, c)
  }

  /** An edge e out of projection state i: a single character, into a known PES, either the
      continuation of a non-accepting PES or (from the start state) a restart. */
  ghost predicate EdgeOk(a: Automaton, k: nat, owner: seq<Pes>, i: nat, e: Transition)
    requires i < |owner|
  {
    e.min == e.max && e.dest < |owner| && EdgeTo(a, k, owner, i, e.min, owner[e.dest])
  }

  ghost predicate EdgeTo(a: Automaton, k: nat, owner: seq<Pes>, i: nat, c: Sym, p: Pes)
    requires i < |owner|
  {
    owner[i].orig < |a.states| &&
    ((!PesAccepting(a, k, owner[i]) && IsContMove(a, k, owner[i], c, p)) ||
     (i == 0 && exists s :: s in owner && IsRestartMove(a, k, s, c, p)))
  }

  lemma EdgeToGrows(a: Automaton, k: nat, owner: seq<Pes>, owner2: seq<Pes>, i: nat, c: Sym, p: Pes)
    requires i < |owner| <= |owner2| && owner2[..|owner|] == owner && EdgeTo(a, k, owner, i, c, p)
    ensures EdgeTo(a, k, owner2, i, c, p)
  {
    assert owner2[i] == owner[i];
    if !(!PesAccepting(a, k, owner[i]) && IsContMove(a, k, owner[i], c, p)) {
      var s :| s in owner && IsRestartMove(a, k, s, c, p);
      assert s in owner2 by {
        var x :| 0 <= x < |owner| && owner[x] == s;
        assert owner2[x] == s;
      }
    }
  }

  /**
   * m is the k-window projection of a, its state i standing for the PES owner[i]:
   * distinct states stand for distinct PESs, the start state for (initial, "", true);
   * the accept flags follow the acceptance test; every edge is a continuation or a restart;
   * and every non-accepting PES has all its continuation edges and gives the start state
   * all its restart edges.
   */
  ghost predicate IsProjection(a: Automaton, k: nat, m: Automaton, owner: seq<Pes>) {
    |m.states| == |owner| && 0 < |owner| && m.initial == 0 && owner[0] == InitialPes(a) &&
    (forall i, j :: 0 <= i < j < |owner| ==> owner[i] != owner[j]) &&
    (forall i :: 0 <= i < |owner| ==> WellFormed(a, k, owner[i]) && PesSound(a, owner[i])) &&
    (forall i :: 0 <= i < |owner| ==> m.states[i].accept == PesAccepting(a, k, owner[i])) &&
    (forall i, e :: 0 <= i < |owner| && e in m.states[i].transitions ==> EdgeOk(a, k, owner, i, e)) &&
    Complete(a, k, m.states, owner)
  }

  /** Every non-accepting PES has all its continuation edges and gives the start state all its
      restart edges. */
  ghost predicate Complete(a: Automaton, k: nat, states: seq<State>, owner: seq<Pes>) {
    |states| == |owner| && 0 < |owner| &&
    forall i, t, c ::
      (0 <= i < |owner| && owner[i].orig < |a.states| && !PesAccepting(a, k, owner[i]) &&
       t in a.states[owner[i].orig].transitions && Covers(t, c)) ==>
        HasEdge(states, owner, i, c, ContPes(owner[i], t, c, k)) &&
        HasEdge(states, owner, 0, c, RestartPes(t, c))
  }

  /** State i has an edge on c into the state of p. */
  ghost predicate HasEdge(states: seq<State>, owner: seq<Pes>, i: nat, c: Sym, p: Pes)
    requires i < |states|
  {
    exists d :: 0 <= d < |owner| && owner[d] == p && Single(c, d) in states[i].transitions
  }

  // ---------------------------------------------------------------------------------------
  // The worklist of computeMkAbstraction

  /** All words of length at most n. */
  ghost function Words(n: nat): (r: set<seq<Sym>>)
    ensures forall w: seq<Sym> :: |w| <= n ==> w in r
  {
    if n == 0 then {[]} else
    var prev := Words(n - 1);
    var r := {[]} + set w, c: Sym | w in prev :: [c] + w;
    assert forall w: seq<Sym> :: |w| <= n ==> w in r by {
      forall w: seq<Sym> | |w| <= n ensures w in r {
        if w != [] { assert w == [w[0]] + w[1..]; }
      }
    }
    r
  }

  /** Every PES the worklist can meet: a finite set, so the worklist terminates. */
  ghost function Universe(a: Automaton, k: nat): (u: set<Pes>)
    ensures forall p :: WellFormed(a, k, p) ==> p in u
  {
    set q: nat, m, b: bool | q < |a.states| && m in Words(k) :: Pes(q, m, b)
  }

  /** The tables of the worklist: pesToState and owner are inverse, visited is the set of
      keys of pesToState, and the queue holds the latest PESs in the order they were made. */
  ghost predicate Tables(memo: map<Pes, nat>, states: seq<State>, queue: seq<Pes>, visited: set<Pes>, owner: seq<Pes>) {
    |owner| == |states| && |queue| <= |owner| &&
    (forall i :: 0 <= i < |owner| ==> owner[i] in memo && memo[owner[i]] == i) &&
    (forall p :: p in memo ==> memo[p] < |owner| && owner[memo[p]] == p) &&
    visited == memo.Keys &&
    queue == owner[|owner| - |queue|..]
  }

  /** The invariant of the worklist, h being the number of PESs taken off the queue. */
  ghost predicate Core(a: Automaton, k: nat, memo: map<Pes, nat>, states: seq<State>, queue: seq<Pes>,
                       visited: set<Pes>, owner: seq<Pes>)
  {
    Tables(memo, states, queue, visited, owner) &&
    0 < |owner| && owner[0] == InitialPes(a) &&
    KeysOk(a, k, memo) &&
    FlagsOk(a, k, states, owner, |owner| - |queue|) &&
    EdgesOk(a, k, states, owner)
  }

  /** Every PES met so far is well formed and sound. */
  ghost predicate KeysOk(a: Automaton, k: nat, memo: map<Pes, nat>) {
    forall p :: p in memo ==> WellFormed(a, k, p) && PesSound(a, p)
  }

  /** The first h PESs are taken off the queue and carry their accept flags; the others
      still have bare states. */
  ghost predicate FlagsOk(a: Automaton, k: nat, states: seq<State>, owner: seq<Pes>, h: nat) {
    |states| == |owner| && h <= |owner| &&
    (forall i :: h <= i < |owner| ==> states[i] == State(false, [])) &&
    (forall i :: 0 <= i < h ==> owner[i].orig < |a.states| && states[i].accept == PesAccepting(a, k, owner[i]))
  }

  ghost predicate EdgesOk(a: Automaton, k: nat, states: seq<State>, owner: seq<Pes>) {
    |states| == |owner| &&
    forall i, e :: 0 <= i < |states| && e in states[i].transitions ==> EdgeOk(a, k, owner, i, e)
  }

  /** The moves of PES j on c along t are in place: both target PESs have states, and the
      edges from j and from the start state are there. */
  ghost predicate MoveDone(k: nat, memo: map<Pes, nat>, states: seq<State>, owner: seq<Pes>,
                           j: nat, t: Transition, c: Sym)
    requires j < |owner| && 0 < |states|
  {
    j < |states| &&
    ContPes(owner[j], t, c, k) in memo && Single(c, memo[ContPes(owner[j], t, c, k)]) in states[j].transitions &&
    RestartPes(t, c) in memo && Single(c, memo[RestartPes(t, c)]) in states[0].transitions
  }

  /** What a later step keeps of an earlier one: keys, their states, flags and edges. */
  ghost predicate Grows(memo: map<Pes, nat>, states: seq<State>, owner: seq<Pes>,
                        memo2: map<Pes, nat>, states2: seq<State>, owner2: seq<Pes>)
  {
    (forall p :: p in memo ==> p in memo2 && memo2[p] == memo[p]) &&
    |states| <= |states2| && |owner| <= |owner2| && owner2[..|owner|] == owner &&
    (forall i :: 0 <= i < |states| ==> states2[i].accept == states[i].accept) &&
    (forall i, e :: 0 <= i < |states| && e in states[i].transitions ==> e in states2[i].transitions)
  }

  lemma MoveDoneGrows(k: nat, memo: map<Pes, nat>, states: seq<State>, owner: seq<Pes>,
                      memo2: map<Pes, nat>, states2: seq<State>, owner2: seq<Pes>,
                      j: nat, t: Transition, c: Sym)
    requires j < |owner| && 0 < |states| && MoveDone(k, memo, states, owner, j, t, c)
    requires Grows(memo, states, owner, memo2, states2, owner2)
    ensures j < |owner2| && 0 < |states2| && MoveDone(k, memo2, states2, owner2, j, t, c)
  {
    assert owner2[j] == owner2[..|owner|][j];
  }

  lemma GrowsTrans(memo: map<Pes, nat>, states: seq<State>, owner: seq<Pes>,
                   memo2: map<Pes, nat>, states2: seq<State>, owner2: seq<Pes>,
                   memo3: map<Pes, nat>, states3: seq<State>, owner3: seq<Pes>)
    requires Grows(memo, states, owner, memo2, states2, owner2)
    requires Grows(memo2, states2, owner2, memo3, states3, owner3)
    ensures Grows(memo, states, owner, memo3, states3, owner3)
  {
    assert owner3[..|owner|] == owner3[..|owner2|][..|owner|];
  }

  /** Creating the state of a new PES keeps the invariant. */
  lemma AppendKeeps(a: Automaton, k: nat, memo: map<Pes, nat>, states: seq<State>, queue: seq<Pes>,
                    visited: set<Pes>, owner: seq<Pes>, p: Pes)
    requires Core(a, k, memo, states, queue, visited, owner)
    requires p !in memo && WellFormed(a, k, p) && PesSound(a, p)
    ensures Core(a, k, memo[p := |owner|], states + [State(false, [])], queue + [p], visited + {p}, owner + [p])
    ensures Grows(memo, states, owner, memo[p := |owner|], states + [State(false, [])], owner + [p])
  {
    TablesAppend(memo, states, queue, visited, owner, p);
    FlagsAppend(a, k, states, owner, |owner| - |queue|, p);
    EdgesAppend(a, k, states, owner, p);
    assert (owner + [p])[..|owner|] == owner;
  }

  lemma TablesAppend(memo: map<Pes, nat>, states: seq<State>, queue: seq<Pes>, visited: set<Pes>, owner: seq<Pes>, p: Pes)
    requires Tables(memo, states, queue, visited, owner) && p !in memo
    ensures Tables(memo[p := |owner|], states + [State(false, [])], queue + [p], visited + {p}, owner + [p])
  {
    var owner2 := owner + [p];
    assert queue + [p] == owner2[|owner2| - |queue| - 1..];
    forall i | 0 <= i < |owner2| ensures owner2[i] in memo[p := |owner|] && memo[p := |owner|][owner2[i]] == i {
      if i < |owner| { assert owner2[i] == owner[i]; }
    }
  }

  lemma FlagsAppend(a: Automaton, k: nat, states: seq<State>, owner: seq<Pes>, h: nat, p: Pes)
    requires FlagsOk(a, k, states, owner, h)
    ensures FlagsOk(a, k, states + [State(false, [])], owner + [p], h)
  {
    var owner2, states2 := owner + [p], states + [State(false, [])];
    forall i | 0 <= i < h ensures owner2[i].orig < |a.states| && states2[i].accept == PesAccepting(a, k, owner2[i]) {
      assert owner2[i] == owner[i] && states2[i] == states[i];
    }
  }

  lemma EdgesAppend(a: Automaton, k: nat, states: seq<State>, owner: seq<Pes>, p: Pes)
    requires EdgesOk(a, k, states, owner)
    ensures EdgesOk(a, k, states + [State(false, [])], owner + [p])
  {
    var owner2, states2 := owner + [p], states + [State(false, [])];
    forall i, e | 0 <= i < |states2| && e in states2[i].transitions
      ensures EdgeOk(a, k, owner2, i, e)
    {
      assert states2[i] == states[i];
      assert EdgeOk(a, k, owner, i, e);
      assert owner2[..|owner|] == owner;
      EdgeToGrows(a, k, owner, owner2, i, e.min, owner[e.dest]);
    }
  }

  /** `pesToState.get(p)`, creating and enqueueing a fresh state when p is new (:357-365). */
  method Lookup(a: Automaton, k: nat, p: Pes, memo: map<Pes, nat>, states: seq<State>, queue: seq<Pes>,
                visited: set<Pes>, ghost owner: seq<Pes>)
    returns (d: nat, memo2: map<Pes, nat>, states2: seq<State>, queue2: seq<Pes>, visited2: set<Pes>,
             ghost owner2: seq<Pes>)
    requires Core(a, k, memo, states, queue, visited, owner)
    requires WellFormed(a, k, p) && PesSound(a, p)
    ensures Core(a, k, memo2, states2, queue2, visited2, owner2)
    ensures Grows(memo, states, owner, memo2, states2, owner2)
    ensures p in memo2 && d == memo2[p] && d < |owner2| && owner2[d] == p
    ensures |owner2| - |queue2| == |owner| - |queue|
    ensures memo.Keys <= memo2.Keys <= memo.Keys + {p}
    ensures memo2.Keys == memo.Keys ==> queue2 == queue
  {
    memo2, states2, queue2, visited2, owner2 := memo, states, queue, visited, owner;
    if p in memo {
      d := memo[p];
    } else {
      AppendKeeps(a, k, memo, states, queue, visited, owner, p);
      d := |states|;
      memo2 := memo[p := d];
      states2 := states + [State(false, [])];
      owner2 := owner + [p];
      if p !in visited {
        queue2 := queue + [p];
        visited2 := visited + {p};
      }
    }
  }

  /** Adding a sound edge to a state already taken off the queue keeps the invariant. */
  lemma WithEdgeKeeps(a: Automaton, k: nat, memo: map<Pes, nat>, states: seq<State>, queue: seq<Pes>,
                      visited: set<Pes>, owner: seq<Pes>, i: nat, e: Transition)
    requires Core(a, k, memo, states, queue, visited, owner)
    requires i < |owner| - |queue| && EdgeOk(a, k, owner, i, e)
    ensures Core(a, k, memo, WithEdge(states, i, e), queue, visited, owner)
    ensures Grows(memo, states, owner, memo, WithEdge(states, i, e), owner)
  {
    var states2 := WithEdge(states, i, e);
    forall j, e' | 0 <= j < |states2| && e' in states2[j].transitions
      ensures EdgeOk(a, k, owner, j, e')
    {
      if j != i || e' != e { assert e' in states[j].transitions; }
    }
  }

  /** Looks up (or creates) the state of p and adds the edge on c from state i to it. */
  method Connect(a: Automaton, k: nat, i: nat, c: Sym, p: Pes, memo: map<Pes, nat>, states: seq<State>,
                 queue: seq<Pes>, visited: set<Pes>, ghost owner: seq<Pes>)
    returns (memo2: map<Pes, nat>, states2: seq<State>, queue2: seq<Pes>, visited2: set<Pes>,
             ghost owner2: seq<Pes>)
    requires Core(a, k, memo, states, queue, visited, owner)
    requires WellFormed(a, k, p) && PesSound(a, p)
    requires i < |owner| - |queue| && EdgeTo(a, k, owner, i, c, p)
    ensures Core(a, k, memo2, states2, queue2, visited2, owner2)
    ensures Grows(memo, states, owner, memo2, states2, owner2)
    ensures |owner2| - |queue2| == |owner| - |queue|
    ensures p in memo2 && Single(c, memo2[p]) in states2[i].transitions
    ensures memo.Keys <= memo2.Keys && (memo2.Keys == memo.Keys ==> queue2 == queue)
  {
    var d;
    d, memo2, states2, queue2, visited2, owner2 := Lookup(a, k, p, memo, states, queue, visited, owner);
    ghost var memo1, states1, owner1 := memo2, states2, owner2;
    EdgeToGrows(a, k, owner, owner2, i, c, p);
    WithEdgeKeeps(a, k, memo2, states2, queue2, visited2, owner2, i, Single(c, d));
    states2 := WithEdge(states2, i, Single(c, d));
    GrowsTrans(memo, states, owner, memo1, states1, owner1, memo2, states2, owner2);
  }

  /** The two halves of a move together: what the first lookup put in place survives the second. */
  lemma MoveFinish(k: nat, memo: map<Pes, nat>, states: seq<State>, queue: seq<Pes>, owner: seq<Pes>,
                   memo1: map<Pes, nat>, states1: seq<State>, queue1: seq<Pes>, owner1: seq<Pes>,
                   memo2: map<Pes, nat>, states2: seq<State>, queue2: seq<Pes>, owner2: seq<Pes>,
                   j: nat, t: Transition, c: Sym)
    requires Grows(memo, states, owner, memo1, states1, owner1)
    requires Grows(memo1, states1, owner1, memo2, states2, owner2)
    requires j < |owner| == |states| && j < |states1|
    requires ContPes(owner[j], t, c, k) in memo1 && Single(c, memo1[ContPes(owner[j], t, c, k)]) in states1[j].transitions
    requires RestartPes(t, c) in memo2 && 0 < |states2| && Single(c, memo2[RestartPes(t, c)]) in states2[0].transitions
    requires memo.Keys <= memo1.Keys && (memo1.Keys == memo.Keys ==> queue1 == queue)
    requires memo1.Keys <= memo2.Keys && (memo2.Keys == memo1.Keys ==> queue2 == queue1)
    ensures Grows(memo, states, owner, memo2, states2, owner2)
    ensures j < |owner2| && MoveDone(k, memo2, states2, owner2, j, t, c)
    ensures memo.Keys <= memo2.Keys && (memo2.Keys == memo.Keys ==> queue2 == queue)
  {
    GrowsTrans(memo, states, owner, memo1, states1, owner1, memo2, states2, owner2);
    assert owner2[j] == owner[j] by { assert owner2[..|owner|] == owner; }
  }

  /** One pass of the innermost loop body (:352-379): the continuation on c and the restart on c. */
  method Move(a: Automaton, k: nat, cur: Pes, j: nat, t: Transition, c: Sym, memo: map<Pes, nat>, states: seq<State>,
              queue: seq<Pes>, visited: set<Pes>, ghost owner: seq<Pes>)
    returns (memo2: map<Pes, nat>, states2: seq<State>, queue2: seq<Pes>, visited2: set<Pes>,
             ghost owner2: seq<Pes>)
    requires Valid(a) && Core(a, k, memo, states, queue, visited, owner)
    requires j < |owner| - |queue| && owner[j] == cur && cur.orig < |a.states| && !PesAccepting(a, k, cur)
    requires t in a.states[cur.orig].transitions && Covers(t, c)
    ensures Core(a, k, memo2, states2, queue2, visited2, owner2)
    ensures Grows(memo, states, owner, memo2, states2, owner2)
    ensures |owner2| - |queue2| == |owner| - |queue|
    ensures MoveDone(k, memo2, states2, owner2, j, t, c)
    ensures memo.Keys <= memo2.Keys && (memo2.Keys == memo.Keys ==> queue2 == queue)
  {
    assert cur in memo;
    ContSound(a, k, cur, t, c);
    RestartSound(a, k, cur, t, c);
    var nextPes := ContPes(cur, t, c, k);
    assert IsContMove(a, k, cur, c, nextPes);
    memo2, states2, queue2, visited2, owner2 := Connect(a, k, j, c, nextPes, memo, states, queue, visited, owner);
    ghost var memo1, states1, queue1, owner1 := memo2, states2, queue2, owner2;
    var restartPes := RestartPes(t, c);
    assert IsRestartMove(a, k, cur, c, restartPes);
    assert owner2[0] == owner[0] && cur in owner2 by { assert owner2[..|owner|] == owner; }
    memo2, states2, queue2, visited2, owner2 := Connect(a, k, 0, c, restartPes, memo2, states2, queue2, visited2, owner2);
    MoveFinish(k, memo, states, queue, owner, memo1, states1, queue1, owner1, memo2, states2, queue2, owner2, j, t, c);
  }

  /** The inner loop over the characters of t (:353): every character of t makes its move. */
  method MoveRange(a: Automaton, k: nat, cur: Pes, j: nat, t: Transition, memo: map<Pes, nat>, states: seq<State>,
                   queue: seq<Pes>, visited: set<Pes>, ghost owner: seq<Pes>)
    returns (memo2: map<Pes, nat>, states2: seq<State>, queue2: seq<Pes>, visited2: set<Pes>,
             ghost owner2: seq<Pes>)
    requires Valid(a) && Core(a, k, memo, states, queue, visited, owner)
    requires j < |owner| - |queue| && owner[j] == cur && cur.orig < |a.states| && !PesAccepting(a, k, cur)
    requires t in a.states[cur.orig].transitions
    ensures Core(a, k, memo2, states2, queue2, visited2, owner2)
    ensures Grows(memo, states, owner, memo2, states2, owner2)
    ensures |owner2| - |queue2| == |owner| - |queue|
    ensures forall c: Sym :: Covers(t, c) ==> MoveDone(k, memo2, states2, owner2, j, t, c)
    ensures memo.Keys <= memo2.Keys && (memo2.Keys == memo.Keys ==> queue2 == queue)
  {
    memo2, states2, queue2, visited2, owner2 := memo, states, queue, visited, owner;
    assert owner[..|owner|] == owner;
    var c: int := t.min as int;
    while c <= t.max as int
      invariant t.min as int <= c <= t.max as int + 1
      invariant Core(a, k, memo2, states2, queue2, visited2, owner2)
      invariant Grows(memo, states, owner, memo2, states2, owner2)
      invariant |owner2| - |queue2| == |owner| - |queue|
      invariant forall d: Sym :: Covers(t, d) && d as int < c ==> MoveDone(k, memo2, states2, owner2, j, t, d)
      invariant memo.Keys <= memo2.Keys && (memo2.Keys == memo.Keys ==> queue2 == queue)
    {
      ghost var memo1, states1, queue1, owner1 := memo2, states2, queue2, owner2;
      assert owner2[j] == cur by { assert owner2[..|owner|] == owner; }
      memo2, states2, queue2, visited2, owner2 := Move(a, k, cur, j, t, c as Sym, memo2, states2, queue2, visited2, owner2);
      RangeStep(k, memo, states, queue, owner, memo1, states1, queue1, owner1, memo2, states2, queue2, owner2, j, t, c);
      c := c + 1;
    }
  }

  /** One character more of the range: the moves made so far survive the latest one. */
  lemma RangeStep(k: nat, memo: map<Pes, nat>, states: seq<State>, queue: seq<Pes>, owner: seq<Pes>,
                  memo1: map<Pes, nat>, states1: seq<State>, queue1: seq<Pes>, owner1: seq<Pes>,
                  memo2: map<Pes, nat>, states2: seq<State>, queue2: seq<Pes>, owner2: seq<Pes>,
                  j: nat, t: Transition, c: int)
    requires j < |owner1| && 0 < |states1| && 0 <= c < 0x1_0000
    requires Grows(memo, states, owner, memo1, states1, owner1)
    requires Grows(memo1, states1, owner1, memo2, states2, owner2)
    requires forall d: Sym :: Covers(t, d) && d as int < c ==> MoveDone(k, memo1, states1, owner1, j, t, d)
    requires MoveDone(k, memo2, states2, owner2, j, t, c as Sym)
    requires memo.Keys <= memo1.Keys && (memo1.Keys == memo.Keys ==> queue1 == queue)
    requires memo1.Keys <= memo2.Keys && (memo2.Keys == memo1.Keys ==> queue2 == queue1)
    ensures Grows(memo, states, owner, memo2, states2, owner2)
    ensures forall d: Sym :: Covers(t, d) && d as int < c + 1 ==> MoveDone(k, memo2, states2, owner2, j, t, d)
    ensures memo.Keys <= memo2.Keys && (memo2.Keys == memo.Keys ==> queue2 == queue)
  {
    GrowsTrans(memo, states, owner, memo1, states1, owner1, memo2, states2, owner2);
    forall d: Sym | Covers(t, d) && d as int < c + 1 ensures MoveDone(k, memo2, states2, owner2, j, t, d) {
      if d as int < c {
        MoveDoneGrows(k, memo1, states1, owner1, memo2, states2, owner2, j, t, d);
      }
    }
  }

  /** PES i, once taken off the queue, has made all its moves unless it is accepting. */
  ghost predicate Expanded(a: Automaton, k: nat, memo: map<Pes, nat>, states: seq<State>, owner: seq<Pes>, i: nat)
    requires i < |owner| && 0 < |states|
  {
    owner[i].orig < |a.states| &&
    (!PesAccepting(a, k, owner[i]) ==>
       forall t, c :: t in a.states[owner[i].orig].transitions && Covers(t, c) ==>
         MoveDone(k, memo, states, owner, i, t, c))
  }

  ghost predicate AllExpanded(a: Automaton, k: nat, memo: map<Pes, nat>, states: seq<State>, owner: seq<Pes>, h: nat) {
    h <= |owner| && 0 < |states| &&
    forall i :: 0 <= i < h ==> Expanded(a, k, memo, states, owner, i)
  }

  lemma AllExpandedGrows(a: Automaton, k: nat, memo: map<Pes, nat>, states: seq<State>, owner: seq<Pes>,
                         memo2: map<Pes, nat>, states2: seq<State>, owner2: seq<Pes>, h: nat)
    requires AllExpanded(a, k, memo, states, owner, h) && Grows(memo, states, owner, memo2, states2, owner2)
    ensures AllExpanded(a, k, memo2, states2, owner2, h)
  {
    forall i | 0 <= i < h ensures Expanded(a, k, memo2, states2, owner2, i) {
      assert owner2[i] == owner[i] by { assert owner2[..|owner|] == owner; }
      assert Expanded(a, k, memo, states, owner, i);
      forall t, c | !PesAccepting(a, k, owner[i]) && t in a.states[owner[i].orig].transitions && Covers(t, c)
        ensures MoveDone(k, memo2, states2, owner2, i, t, c)
      {
        MoveDoneGrows(k, memo, states, owner, memo2, states2, owner2, i, t, c);
      }
    }
  }

  /** The loop over the transitions of the current PES (:352): all its moves are made. */
  method Expand(a: Automaton, k: nat, cur: Pes, j: nat, memo: map<Pes, nat>, states: seq<State>,
                queue: seq<Pes>, visited: set<Pes>, ghost owner: seq<Pes>)
    returns (memo2: map<Pes, nat>, states2: seq<State>, queue2: seq<Pes>, visited2: set<Pes>,
             ghost owner2: seq<Pes>)
    requires Valid(a) && Core(a, k, memo, states, queue, visited, owner)
    requires j < |owner| - |queue| && owner[j] == cur && cur.orig < |a.states| && !PesAccepting(a, k, cur)
    ensures Core(a, k, memo2, states2, queue2, visited2, owner2)
    ensures Grows(memo, states, owner, memo2, states2, owner2)
    ensures |owner2| - |queue2| == |owner| - |queue|
    ensures j < |owner2| && Expanded(a, k, memo2, states2, owner2, j)
    ensures memo.Keys <= memo2.Keys && (memo2.Keys == memo.Keys ==> queue2 == queue)
  {
    memo2, states2, queue2, visited2, owner2 := memo, states, queue, visited, owner;
    assert owner[..|owner|] == owner;
    var ts := a.states[cur.orig].transitions;
    var i := 0;
    while i < |ts|
      invariant i <= |ts|
      invariant Core(a, k, memo2, states2, queue2, visited2, owner2)
      invariant Grows(memo, states, owner, memo2, states2, owner2)
      invariant |owner2| - |queue2| == |owner| - |queue|
      invariant forall t, c :: t in ts[..i] && Covers(t, c) ==> MoveDone(k, memo2, states2, owner2, j, t, c)
      invariant memo.Keys <= memo2.Keys && (memo2.Keys == memo.Keys ==> queue2 == queue)
    {
      ghost var memo1, states1, queue1, owner1 := memo2, states2, queue2, owner2;
      assert owner2[j] == cur by { assert owner2[..|owner|] == owner; }
      memo2, states2, queue2, visited2, owner2 := MoveRange(a, k, cur, j, ts[i], memo2, states2, queue2, visited2, owner2);
      TransitionStep(k, memo, states, queue, owner, memo1, states1, queue1, owner1, memo2, states2, queue2, owner2, j, ts, i);
      i := i + 1;
    }
    assert ts[..|ts|] == ts;
    assert owner2[j] == cur by { assert owner2[..|owner|] == owner; }
  }

  /** One transition more: the moves made so far survive those of the latest one. */
  lemma TransitionStep(k: nat, memo: map<Pes, nat>, states: seq<State>, queue: seq<Pes>, owner: seq<Pes>,
                       memo1: map<Pes, nat>, states1: seq<State>, queue1: seq<Pes>, owner1: seq<Pes>,
                       memo2: map<Pes, nat>, states2: seq<State>, queue2: seq<Pes>, owner2: seq<Pes>,
                       j: nat, ts: seq<Transition>, i: nat)
    requires j < |owner1| && 0 < |states1| && i < |ts|
    requires Grows(memo, states, owner, memo1, states1, owner1)
    requires Grows(memo1, states1, owner1, memo2, states2, owner2)
    requires forall t, c :: t in ts[..i] && Covers(t, c) ==> MoveDone(k, memo1, states1, owner1, j, t, c)
    requires forall c: Sym :: Covers(ts[i], c) ==> MoveDone(k, memo2, states2, owner2, j, ts[i], c)
    requires memo.Keys <= memo1.Keys && (memo1.Keys == memo.Keys ==> queue1 == queue)
    requires memo1.Keys <= memo2.Keys && (memo2.Keys == memo1.Keys ==> queue2 == queue1)
    ensures Grows(memo, states, owner, memo2, states2, owner2)
    ensures forall t, c :: t in ts[..i + 1] && Covers(t, c) ==> MoveDone(k, memo2, states2, owner2, j, t, c)
    ensures memo.Keys <= memo2.Keys && (memo2.Keys == memo.Keys ==> queue2 == queue)
  {
    GrowsTrans(memo, states, owner, memo1, states1, owner1, memo2, states2, owner2);
    assert ts[..i + 1] == ts[..i] + [ts[i]];
    forall t, c | t in ts[..i + 1] && Covers(t, c) ensures MoveDone(k, memo2, states2, owner2, j, t, c) {
      if t in ts[..i] {
        MoveDoneGrows(k, memo1, states1, owner1, memo2, states2, owner2, j, t, c);
      }
    }
  }

  /** The tables right after the initial PES is put in place (:329-335). */
  lemma InitialCore(a: Automaton, k: nat)
    requires Valid(a)
    ensures Core(a, k, map[InitialPes(a) := 0], [State(false, [])], [InitialPes(a)], {InitialPes(a)}, [InitialPes(a)])
    ensures AllExpanded(a, k, map[InitialPes(a) := 0], [State(false, [])], [InitialPes(a)], 0)
  {
    assert Path(a, a.initial, [], a.initial);
  }

  /** Taking the head of the queue off and setting its accept flag (:337-347). */
  lemma PopKeeps(a: Automaton, k: nat, memo: map<Pes, nat>, states: seq<State>, queue: seq<Pes>,
                 visited: set<Pes>, owner: seq<Pes>, states2: seq<State>)
    requires Core(a, k, memo, states, queue, visited, owner) && queue != []
    requires AllExpanded(a, k, memo, states, owner, |owner| - |queue|)
    requires queue[0].orig < |a.states|
    requires states2 == states[|owner| - |queue| := State(PesAccepting(a, k, queue[0]), states[|owner| - |queue|].transitions)]
    ensures owner[|owner| - |queue|] == queue[0] && memo[queue[0]] == |owner| - |queue|
    ensures Core(a, k, memo, states2, queue[1..], visited, owner)
    ensures AllExpanded(a, k, memo, states2, owner, |owner| - |queue|)
    ensures PesAccepting(a, k, queue[0]) ==> AllExpanded(a, k, memo, states2, owner, |owner| - |queue| + 1)
  {
    var h := |owner| - |queue|;
    assert owner[h] == queue[0];
    assert states[h] == State(false, []);
    forall i | 0 <= i < h ensures Expanded(a, k, memo, states2, owner, i) {
      assert Expanded(a, k, memo, states, owner, i);
      assert states2[i] == states[i] && states2[0].transitions == states[0].transitions;
    }
    assert queue[1..] == owner[h + 1..];
    forall i, e | 0 <= i < |states2| && e in states2[i].transitions ensures EdgeOk(a, k, owner, i, e) {
      assert e in states[i].transitions;
    }
  }

  /** When the queue is empty, the tables are the projection. */
  lemma FinalProjection(a: Automaton, k: nat, memo: map<Pes, nat>, states: seq<State>, visited: set<Pes>, owner: seq<Pes>)
    requires Core(a, k, memo, states, [], visited, owner) && AllExpanded(a, k, memo, states, owner, |owner|)
    ensures IsProjection(a, k, Automaton(states, 0), owner)
  {
    var m := Automaton(states, 0);
    FinalComplete(a, k, memo, states, visited, owner);
    forall i | 0 <= i < |owner| ensures WellFormed(a, k, owner[i]) && PesSound(a, owner[i]) {
      assert owner[i] in memo;
    }
    forall i, j | 0 <= i < j < |owner| ensures owner[i] != owner[j] {
      assert memo[owner[i]] == i && memo[owner[j]] == j;
    }
    assert forall i :: 0 <= i < |owner| ==> m.states[i].accept == PesAccepting(a, k, owner[i]);
    assert forall i, e :: 0 <= i < |owner| && e in m.states[i].transitions ==> EdgeOk(a, k, owner, i, e);
  }

  lemma FinalComplete(a: Automaton, k: nat, memo: map<Pes, nat>, states: seq<State>, visited: set<Pes>, owner: seq<Pes>)
    requires Core(a, k, memo, states, [], visited, owner) && AllExpanded(a, k, memo, states, owner, |owner|)
    ensures Complete(a, k, states, owner)
  {
    forall i, t, c | 0 <= i < |owner| && owner[i].orig < |a.states| && !PesAccepting(a, k, owner[i]) &&
                     t in a.states[owner[i].orig].transitions && Covers(t, c)
      ensures HasEdge(states, owner, i, c, ContPes(owner[i], t, c, k)) && HasEdge(states, owner, 0, c, RestartPes(t, c))
    {
      assert Expanded(a, k, memo, states, owner, i);
      assert MoveDone(k, memo, states, owner, i, t, c);
      var d1 := memo[ContPes(owner[i], t, c, k)];
      var d2 := memo[RestartPes(t, c)];
      assert owner[d1] == ContPes(owner[i], t, c, k) && Single(c, d1) in states[i].transitions;
      assert owner[d2] == RestartPes(t, c) && Single(c, d2) in states[0].transitions;
    }
  }

  /** One round of the worklist (:337-380): the head of the queue is taken off, marked
      accepting or expanded. Either a new PES is met or the queue gets shorter. */
  method ProcessHead(a: Automaton, k: nat, memo: map<Pes, nat>, states: seq<State>, queue: seq<Pes>,
                     visited: set<Pes>, ghost owner: seq<Pes>)
    returns (memo2: map<Pes, nat>, states2: seq<State>, queue2: seq<Pes>, visited2: set<Pes>,
             ghost owner2: seq<Pes>)
    requires Valid(a) && Core(a, k, memo, states, queue, visited, owner) && queue != []
    requires AllExpanded(a, k, memo, states, owner, |owner| - |queue|)
    ensures Core(a, k, memo2, states2, queue2, visited2, owner2)
    ensures AllExpanded(a, k, memo2, states2, owner2, |owner2| - |queue2|)
    ensures memo2.Keys == memo.Keys || |Universe(a, k) - memo2.Keys| < |Universe(a, k) - memo.Keys|
    ensures memo2.Keys == memo.Keys ==> |queue2| < |queue|
  {
    var current := queue[0];
    assert current in memo;
    var j := memo[current];
    assert j == |owner| - |queue|;
    var accept := |current.memory| == k ||
                  (current.fromInitial && |current.memory| > 0 && a.states[current.orig].accept);
    assert accept == PesAccepting(a, k, current);
    memo2, states2, queue2, visited2, owner2 := memo, states[j := State(accept, states[j].transitions)], queue[1..], visited, owner;
    PopKeeps(a, k, memo, states, queue, visited, owner, states2);
    if !accept {
      ghost var states1 := states2;
      memo2, states2, queue2, visited2, owner2 := Expand(a, k, current, j, memo2, states2, queue2, visited2, owner2);
      ExpandedNext(a, k, memo, states1, owner, memo2, states2, owner2, j);
    }
    UniverseShrinks(a, k, memo, memo2);
  }

  /** Expanding PES j, after all PESs before it, leaves the first j + 1 expanded. */
  lemma ExpandedNext(a: Automaton, k: nat, memo: map<Pes, nat>, states: seq<State>, owner: seq<Pes>,
                     memo2: map<Pes, nat>, states2: seq<State>, owner2: seq<Pes>, j: nat)
    requires AllExpanded(a, k, memo, states, owner, j) && Grows(memo, states, owner, memo2, states2, owner2)
    requires j < |owner2| && Expanded(a, k, memo2, states2, owner2, j)
    ensures AllExpanded(a, k, memo2, states2, owner2, j + 1)
  {
    AllExpandedGrows(a, k, memo, states, owner, memo2, states2, owner2, j);
  }

  /** Meeting a new PES leaves fewer PESs of the universe to meet. */
  lemma UniverseShrinks(a: Automaton, k: nat, memo: map<Pes, nat>, memo2: map<Pes, nat>)
    requires memo.Keys <= memo2.Keys && KeysOk(a, k, memo2)
    ensures memo2.Keys == memo.Keys || |Universe(a, k) - memo2.Keys| < |Universe(a, k) - memo.Keys|
  {
    if memo2.Keys != memo.Keys {
      ShrinkingDifference(Universe(a, k), memo.Keys, memo2.Keys);
    }
  }

  /**
   * `computeMkAbstraction(automaton, k)` (:296-388), up to the final determinize and minimize:
   * the breadth-first construction of the k-window projection.
   */
  method ComputeMkAbstraction(a: Automaton, k: nat) returns (m: Automaton, ghost owner: seq<Pes>)
    requires Valid(a)
    ensures IsProjection(a, k, m, owner)
  {
    var memo, states, visited;
    memo, states, visited, owner := RunWorklist(a, k);
    m := Automaton(states, 0);
    FinalProjection(a, k, memo, states, visited, owner);
  }

  /** The main loop (:337-380), from the initial PES until the queue is empty. */
  method RunWorklist(a: Automaton, k: nat)
    returns (memo: map<Pes, nat>, states: seq<State>, visited: set<Pes>, ghost owner: seq<Pes>)
    requires Valid(a)
    ensures Core(a, k, memo, states, [], visited, owner)
    ensures AllExpanded(a, k, memo, states, owner, |owner|)
  {
    var initialPes := InitialPes(a);
    memo := map[initialPes := 0];
    states := [State(false, [])];
    var queue := [initialPes];
    visited := {initialPes};
    owner := [initialPes];
    InitialCore(a, k);
    while queue != []
      invariant Core(a, k, memo, states, queue, visited, owner)
      invariant AllExpanded(a, k, memo, states, owner, |owner| - |queue|)
      decreases |Universe(a, k) - memo.Keys|, |queue|
    {
      memo, states, queue, visited, owner := ProcessHead(a, k, memo, states, queue, visited, owner);
    }
  }
}
