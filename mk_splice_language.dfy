/**
 * The language of the arena `mkSequence` splices, before its k-window projection.
 *
 * For operands in the shape of the library's minimal automata (`Splice.Normal`), the
 * spliced arena accepts exactly:
 *  - the words of a, except those ending in the '-' into qfA when b can start with '+'
 *    (the splice replaces that move by b's continuation);
 *  - the words of b that do not start with '+' (q0B's '+' move is dropped);
 *  - every word that a reads up to its '-' and b continues after its '+'.
 */
module SpliceLanguage {
  import opened Wrappers
  import opened Automata
  import opened Splice
  import Epsilons
  import Leaf

  /** s is the arena `mkSequence` splices out of a and b for qfA and `QaMinus` = Q, which
      lies in a's part. */
  ghost predicate Spliced(a: Automaton, b: Automaton, qfA: nat, Q: set<nat>, s: Automaton) {
    Valid(a) && Valid(b) && Valid(s) && s.initial == a.initial && qfA < |a.states| &&
    (forall q :: q in Q ==> q < |a.states|) &&
    SequenceSpliced(a, b, qfA, PlusSuccessor(a, b), Q, s.states)
  }

  /** The operands are in the shape of the library's minimal automata, qfA is a's accepting
      state and Q the reachable states of a with a '-' move into it. */
  ghost predicate Shape(a: Automaton, b: Automaton, qfA: nat, Q: set<nat>) {
    Normal(a) && Normal(b) && AcceptingIn(a, qfA) && QMinus(a, qfA, Q)
  }

  /** What the soundness and completeness proofs use of a's shape. */
  ghost predicate AShape(a: Automaton, qfA: nat, Q: set<nat>) {
    Valid(a) && FreshStart(a) && MarkersAlone(a) && OneSink(a) && AcceptingIn(a, qfA) && QMinus(a, qfA, Q)
  }

  /** What the soundness and completeness proofs use of b's shape. */
  ghost predicate BShape(b: Automaton) {
    Valid(b) && FreshStart(b) && MarkersAlone(b) && PlusAtStart(b)
  }

  /** Q is `QaMinus`: the reachable states of a with a '-' move into qfA. */
  ghost predicate QMinus(a: Automaton, qfA: nat, Q: set<nat>) {
    forall q :: q in Q <==> Reachable(a, q) && HasMinusInto(a, q, qfA)
  }

  /** s is the arena `MkSequence` splices out of a and b with its choice of qfA and
      `QaMinus`, for operands in the shape of the library's minimal automata. */
  ghost predicate SequenceSetup(a: Automaton, b: Automaton, qfA: nat, Q: set<nat>, s: Automaton) {
    Shape(a, b, qfA, Q) && Spliced(a, b, qfA, Q, s)
  }

  /** The moves and accepting states of the spliced arena s, part by part. */
  ghost predicate Moves(a: Automaton, b: Automaton, qfA: nat, Q: set<nat>, s: Automaton)
    requires Valid(a) && Valid(b)
  {
    Valid(s) && s.initial == a.initial && |s.states| == |a.states| + |b.states| && qfA < |a.states| &&
    AMoves(a, b, qfA, Q, s) && Jumps(a, b, Q, s) && AAccepts(a, b, s) && BPart(a, b, s)
  }

  /** Within a's part, s has a's moves, but for the '-' moves into qfA of continuing states. */
  ghost predicate AMoves(a: Automaton, b: Automaton, qfA: nat, Q: set<nat>, s: Automaton)
    requires Valid(a) && Valid(b)
  {
    var n, P := |a.states|, PlusSuccessor(a, b);
    n <= |s.states| &&
    (forall p, t {:trigger t in s.states[p].transitions} :: 0 <= p < n && t in s.states[p].transitions && t.dest < n ==>
       t in a.states[p].transitions && !(Continues(Q, P, p) && MinusInto(t, qfA))) &&
    (forall p, t {:trigger t in a.states[p].transitions} ::
       0 <= p < n && t in a.states[p].transitions && !(Continues(Q, P, p) && MinusInto(t, qfA)) ==>
       t in s.states[p].transitions)
  }

  /** Out of a's part, s moves as qbPlus does from continuing states, and as q0B does, but
      for '+', from q0A. */
  ghost predicate Jumps(a: Automaton, b: Automaton, Q: set<nat>, s: Automaton)
    requires Valid(a) && Valid(b)
  {
    var n, P := |a.states|, PlusSuccessor(a, b);
    n <= |s.states| && a.initial < n &&
    (forall p, t {:trigger t in s.states[p].transitions} :: 0 <= p < n && t in s.states[p].transitions && t.dest >= n ==>
       (Continues(Q, P, p) && t in ShiftState(b.states[P.value - n], n).transitions) ||
       (p == a.initial && t in ShiftState(b.states[b.initial], n).transitions && !Covers(t, PLUS))) &&
    (forall p, t0 {:trigger ShiftT(t0, n) in s.states[p].transitions} ::
       0 <= p < n && Continues(Q, P, p) && t0 in b.states[P.value - n].transitions ==>
       ShiftT(t0, n) in s.states[p].transitions) &&
    (forall t0 {:trigger ShiftT(t0, n) in s.states[a.initial].transitions} ::
       t0 in b.states[b.initial].transitions && !Covers(t0, PLUS) ==>
       ShiftT(t0, n) in s.states[a.initial].transitions)
  }

  /** In a's part, q0A accepts when either start does, and every other state as a's does. */
  ghost predicate AAccepts(a: Automaton, b: Automaton, s: Automaton)
    requires Valid(a) && Valid(b)
  {
    |a.states| <= |s.states| &&
    (s.states[a.initial].accept <==> a.states[a.initial].accept || b.states[b.initial].accept) &&
    (forall p :: 0 <= p < |a.states| && p != a.initial ==> s.states[p].accept == a.states[p].accept)
  }

  /** b's part of s, but for q0B, is b's. */
  ghost predicate BPart(a: Automaton, b: Automaton, s: Automaton) {
    |s.states| == |a.states| + |b.states| &&
    forall q :: 0 <= q < |b.states| && q != b.initial ==> s.states[|a.states| + q] == ShiftState(b.states[q], |a.states|)
  }

  /** The first i letters of w, then '-', are a word of a, and '+', then the rest of w, is a
      word of b. */
  ghost predicate Joins(a: Automaton, b: Automaton, w: seq<Sym>, i: nat)
    requires i <= |w|
  {
    Accepts(a, w[..i] + [MINUS]) && Accepts(b, [PLUS] + w[i..])
  }

  /** The words the spliced arena accepts. */
  ghost predicate SequenceWord(a: Automaton, b: Automaton, w: seq<Sym>)
    requires Valid(a) && Valid(b)
  {
    (Accepts(a, w) && (PlusSuccessor(a, b).Some? && w != [] ==> w[|w| - 1] != MINUS)) ||
    (Accepts(b, w) && (w != [] ==> w[0] != PLUS)) ||
    exists i :: 0 <= i < |w| && Joins(a, b, w, i)
  }

  // ---------------------------------------------------------------------------------------
  // The moves of the spliced arena

  /** A state of b's part other than q0B is as the joined arena has it. */
  lemma BStateKept(a: Automaton, b: Automaton, qfA: nat, Q: set<nat>, s: Automaton, q: nat)
    requires Spliced(a, b, qfA, Q, s) && q < |b.states| && q != b.initial
    ensures s.states[|a.states| + q] == ShiftState(b.states[q], |a.states|)
  {
    JoinedStates(a, b, |a.states| + q);
  }

  /** A move of the spliced arena between states of a's part is a move of a that the splice
      did not drop. */
  lemma AMove(a: Automaton, b: Automaton, qfA: nat, Q: set<nat>, s: Automaton, p: nat, t: Transition)
    requires Spliced(a, b, qfA, Q, s) && p < |a.states|
    requires t in s.states[p].transitions && t.dest < |a.states|
    ensures t in a.states[p].transitions && !(Continues(Q, PlusSuccessor(a, b), p) && MinusInto(t, qfA))
  {
    var n := |a.states|;
    var P := PlusSuccessor(a, b);
    JoinedStates(a, b, p);
    if t in Joined(a, b).states[n + b.initial].transitions {
      JoinedStaysInB(a, b, n + b.initial, t);
    }
    if P.Some? && t in Joined(a, b).states[P.value].transitions {
      JoinedStaysInB(a, b, P.value, t);
    }
  }

  /** The splice keeps every move of a except the '-' moves into qfA of continuing states. */
  lemma AMoveKept(a: Automaton, b: Automaton, qfA: nat, Q: set<nat>, s: Automaton, p: nat, t: Transition)
    requires Spliced(a, b, qfA, Q, s) && p < |a.states|
    requires t in a.states[p].transitions && !(Continues(Q, PlusSuccessor(a, b), p) && MinusInto(t, qfA))
    ensures t in s.states[p].transitions
  {
    JoinedStates(a, b, p);
  }

  /** A move of the spliced arena from a's part into b's part is a continuation of qbPlus
      from a continuing state, or one of q0B's moves taken over by q0A. */
  lemma JumpMove(a: Automaton, b: Automaton, qfA: nat, Q: set<nat>, s: Automaton, p: nat, t: Transition)
    requires Spliced(a, b, qfA, Q, s) && p < |a.states|
    requires t in s.states[p].transitions && t.dest >= |a.states|
    ensures (Continues(Q, PlusSuccessor(a, b), p) && t in Joined(a, b).states[PlusSuccessor(a, b).value].transitions) ||
            (p == a.initial && t in Joined(a, b).states[|a.states| + b.initial].transitions)
  {
    JoinedStates(a, b, p);
  }

  /** q0B's moves that q0A takes over read no '+'. */
  lemma StartBMove(a: Automaton, b: Automaton, qfA: nat, Q: set<nat>, s: Automaton, t: Transition)
    returns (t0: Transition)
    requires Spliced(a, b, qfA, Q, s) && BShape(b)
    requires t in Joined(a, b).states[|a.states| + b.initial].transitions && t in s.states[a.initial].transitions
    requires !(Continues(Q, PlusSuccessor(a, b), a.initial) && t in Joined(a, b).states[PlusSuccessor(a, b).value].transitions)
    ensures t0 in b.states[b.initial].transitions && t == ShiftT(t0, |a.states|) && !Covers(t0, PLUS)
  {
    var n := |a.states|;
    JoinedStates(a, b, n + b.initial);
    t0 := ShiftedFrom(b.states[b.initial], n, t);
    StartPlus(a, b, t0);
  }

  /** A '+' move of b's start reads '+' alone and enters qbPlus. */
  lemma StartPlus(a: Automaton, b: Automaton, t0: Transition)
    requires Valid(a) && BShape(b) && t0 in b.states[b.initial].transitions
    ensures Covers(t0, PLUS) ==> t0.min == PLUS && PlusSuccessor(a, b) == Some(|a.states| + t0.dest)
  {
    if Covers(t0, PLUS) {
      assert Path(b, t0.dest, [PLUS][1..], t0.dest);
      PlusTarget(a, b, t0.dest);
    }
  }

  /** q0A takes over every move of q0B that does not read '+'. */
  lemma StartBKept(a: Automaton, b: Automaton, qfA: nat, Q: set<nat>, s: Automaton, t0: Transition)
    requires Spliced(a, b, qfA, Q, s)
    requires t0 in b.states[b.initial].transitions && !Covers(t0, PLUS)
    ensures ShiftT(t0, |a.states|) in s.states[a.initial].transitions
  {
    var n := |a.states|;
    var P := PlusSuccessor(a, b);
    JoinedStates(a, b, n + b.initial);
    ShiftedIn(b.states[b.initial], n, t0);
    var t := ShiftT(t0, n);
    assert t in Joined(a, b).states[n + b.initial].transitions;
    assert !PlusInto(t, P) && !MinusInto(t, qfA);
  }

  /** b's '+' successor is not b's start. */
  lemma PlusSuccessorFresh(a: Automaton, b: Automaton)
    requires Valid(a) && Valid(b) && FreshStart(b) && PlusSuccessor(a, b).Some?
    ensures PlusSuccessor(a, b).value - |a.states| != b.initial
  {
    var pb := PlusSuccessor(a, b).value - |a.states|;
    var t1 :| t1 in b.states[b.initial].transitions && Covers(t1, PLUS) && Path(b, t1.dest, [PLUS][1..], pb);
  }

  /** A continuing state of a takes over every move of qbPlus. */
  lemma JumpKept(a: Automaton, b: Automaton, qfA: nat, Q: set<nat>, s: Automaton, p: nat, t0: Transition)
    requires Spliced(a, b, qfA, Q, s) && BShape(b) && Continues(Q, PlusSuccessor(a, b), p)
    requires t0 in b.states[PlusSuccessor(a, b).value - |a.states|].transitions
    ensures ShiftT(t0, |a.states|) in s.states[p].transitions
  {
    var n := |a.states|;
    var pb := PlusSuccessor(a, b).value - n;
    PlusSuccessorFresh(a, b);
    JoinedStates(a, b, n + pb);
    ShiftedIn(b.states[pb], n, t0);
    assert !Covers(t0, PLUS);
    if p == a.initial {
      JumpKeptStart(a, b, qfA, Q, s, t0);
    } else {
      JumpKeptRest(a, b, qfA, Q, s, p, t0);
    }
  }

  lemma JumpKeptStart(a: Automaton, b: Automaton, qfA: nat, Q: set<nat>, s: Automaton, t0: Transition)
    requires Valid(a) && Valid(b) && qfA < |a.states| && |s.states| == |a.states| + |b.states|
    requires StartSpliced(a, b, qfA, PlusSuccessor(a, b), Q, s.states) && Continues(Q, PlusSuccessor(a, b), a.initial)
    requires ShiftT(t0, |a.states|) in Joined(a, b).states[PlusSuccessor(a, b).value].transitions && !Covers(t0, PLUS)
    ensures ShiftT(t0, |a.states|) in s.states[a.initial].transitions
  {
    var t := ShiftT(t0, |a.states|);
    assert !MinusInto(t, qfA) && !PlusInto(t, PlusSuccessor(a, b));
  }

  lemma JumpKeptRest(a: Automaton, b: Automaton, qfA: nat, Q: set<nat>, s: Automaton, p: nat, t0: Transition)
    requires Valid(a) && Valid(b) && qfA < |a.states| && |s.states| == |a.states| + |b.states|
    requires RestSpliced(a, b, qfA, PlusSuccessor(a, b), Q, s.states)
    requires p < |a.states| && p != a.initial && Continues(Q, PlusSuccessor(a, b), p)
    requires ShiftT(t0, |a.states|) in Joined(a, b).states[PlusSuccessor(a, b).value].transitions
    ensures ShiftT(t0, |a.states|) in s.states[p].transitions
  {
    var t := ShiftT(t0, |a.states|);
    assert !MinusInto(t, qfA);
  }

  /** The splice moves state by state, as `Moves` collects them. */
  lemma SplicedMoves(a: Automaton, b: Automaton, qfA: nat, Q: set<nat>, s: Automaton)
    requires Spliced(a, b, qfA, Q, s) && BShape(b)
    ensures Moves(a, b, qfA, Q, s)
  {
    SplicedAMoves(a, b, qfA, Q, s);
    SplicedJumps(a, b, qfA, Q, s);
    SplicedAccepts(a, b, qfA, Q, s);
    SplicedBPart(a, b, qfA, Q, s);
  }

  lemma SplicedAMoves(a: Automaton, b: Automaton, qfA: nat, Q: set<nat>, s: Automaton)
    requires Spliced(a, b, qfA, Q, s)
    ensures AMoves(a, b, qfA, Q, s)
  {
    var n, P := |a.states|, PlusSuccessor(a, b);
    forall p, t | 0 <= p < n && t in s.states[p].transitions && t.dest < n
      ensures t in a.states[p].transitions && !(Continues(Q, P, p) && MinusInto(t, qfA))
    {
      AMove(a, b, qfA, Q, s, p, t);
    }
    forall p, t | 0 <= p < n && t in a.states[p].transitions && !(Continues(Q, P, p) && MinusInto(t, qfA))
      ensures t in s.states[p].transitions
    {
      AMoveKept(a, b, qfA, Q, s, p, t);
    }
  }

  lemma SplicedJumps(a: Automaton, b: Automaton, qfA: nat, Q: set<nat>, s: Automaton)
    requires Spliced(a, b, qfA, Q, s) && BShape(b)
    ensures Jumps(a, b, Q, s)
  {
    SplicedJumpsOut(a, b, qfA, Q, s);
    SplicedContinues(a, b, qfA, Q, s);
    SplicedStart(a, b, qfA, Q, s);
  }

  lemma SplicedJumpsOut(a: Automaton, b: Automaton, qfA: nat, Q: set<nat>, s: Automaton)
    requires Spliced(a, b, qfA, Q, s) && BShape(b)
    ensures forall p, t {:trigger t in s.states[p].transitions} ::
      0 <= p < |a.states| && t in s.states[p].transitions && t.dest >= |a.states| ==>
      var n, P := |a.states|, PlusSuccessor(a, b);
      (Continues(Q, P, p) && t in ShiftState(b.states[P.value - n], n).transitions) ||
      (p == a.initial && t in ShiftState(b.states[b.initial], n).transitions && !Covers(t, PLUS))
  {
    var n, P := |a.states|, PlusSuccessor(a, b);
    forall p, t | 0 <= p < n && t in s.states[p].transitions && t.dest >= n
      ensures (Continues(Q, P, p) && t in ShiftState(b.states[P.value - n], n).transitions) ||
              (p == a.initial && t in ShiftState(b.states[b.initial], n).transitions && !Covers(t, PLUS))
    {
      JumpOutOf(a, b, qfA, Q, s, p, t);
    }
  }

  lemma JumpOutOf(a: Automaton, b: Automaton, qfA: nat, Q: set<nat>, s: Automaton, p: nat, t: Transition)
    requires Spliced(a, b, qfA, Q, s) && BShape(b) && p < |a.states|
    requires t in s.states[p].transitions && t.dest >= |a.states|
    ensures var n, P := |a.states|, PlusSuccessor(a, b);
      (Continues(Q, P, p) && t in ShiftState(b.states[P.value - n], n).transitions) ||
      (p == a.initial && t in ShiftState(b.states[b.initial], n).transitions && !Covers(t, PLUS))
  {
    if p == a.initial {
      JumpOutStart(a, b, qfA, Q, s, t);
    } else {
      JumpOutRest(a, b, qfA, Q, s, p, t);
    }
  }

  /** q0A leaves a's part on qbPlus's moves, when it continues, or on q0B's moves but for '+'. */
  lemma JumpOutStart(a: Automaton, b: Automaton, qfA: nat, Q: set<nat>, s: Automaton, t: Transition)
    requires Valid(a) && BShape(b) && |s.states| == |a.states| + |b.states|
    requires StartSpliced(a, b, qfA, PlusSuccessor(a, b), Q, s.states)
    requires t in s.states[a.initial].transitions && t.dest >= |a.states|
    ensures var n, P := |a.states|, PlusSuccessor(a, b);
      (Continues(Q, P, a.initial) && t in ShiftState(b.states[P.value - n], n).transitions) ||
      (t in ShiftState(b.states[b.initial], n).transitions && !Covers(t, PLUS))
  {
    var n, P := |a.states|, PlusSuccessor(a, b);
    JoinedStates(a, b, n + b.initial);
    if P.Some? {
      JoinedStates(a, b, P.value);
    }
    assert t !in a.states[a.initial].transitions;
    if Continues(Q, P, a.initial) && t in Joined(a, b).states[P.value].transitions {
      assert t in ShiftState(b.states[P.value - n], n).transitions;
    } else {
      assert t in Joined(a, b).states[n + b.initial].transitions && (!PlusInto(t, P) || P != Some(t.dest));
      var t0 := ShiftedFrom(b.states[b.initial], n, t);
      StartPlus(a, b, t0);
      NotPlusInto(t, t0, P, n);
    }
  }

  /** A renumbered move t0 that would read '+' into the '+' successor P is a `PlusInto` move. */
  lemma NotPlusInto(t: Transition, t0: Transition, P: Option<nat>, n: nat)
    requires t == ShiftT(t0, n) && (Covers(t0, PLUS) ==> t0.min == PLUS && P == Some(n + t0.dest))
    requires !PlusInto(t, P) || P != Some(t.dest)
    ensures !Covers(t, PLUS)
  {
  }

  /** Any other state of a's part leaves it only on qbPlus's moves, and only if it continues. */
  lemma JumpOutRest(a: Automaton, b: Automaton, qfA: nat, Q: set<nat>, s: Automaton, p: nat, t: Transition)
    requires Valid(a) && Valid(b) && |s.states| == |a.states| + |b.states|
    requires RestSpliced(a, b, qfA, PlusSuccessor(a, b), Q, s.states)
    requires p < |a.states| && p != a.initial && t in s.states[p].transitions && t.dest >= |a.states|
    ensures var n, P := |a.states|, PlusSuccessor(a, b);
      Continues(Q, P, p) && t in ShiftState(b.states[P.value - n], n).transitions
  {
    var n, P := |a.states|, PlusSuccessor(a, b);
    JoinedStates(a, b, p);
    if P.Some? {
      JoinedStates(a, b, P.value);
    }
  }

  lemma SplicedContinues(a: Automaton, b: Automaton, qfA: nat, Q: set<nat>, s: Automaton)
    requires Spliced(a, b, qfA, Q, s) && BShape(b)
    ensures forall p, t0 {:trigger ShiftT(t0, |a.states|) in s.states[p].transitions} ::
      (0 <= p < |a.states| && Continues(Q, PlusSuccessor(a, b), p) &&
       t0 in b.states[PlusSuccessor(a, b).value - |a.states|].transitions) ==>
      ShiftT(t0, |a.states|) in s.states[p].transitions
  {
    var n, P := |a.states|, PlusSuccessor(a, b);
    forall p, t0 | 0 <= p < n && Continues(Q, P, p) && t0 in b.states[P.value - n].transitions
      ensures ShiftT(t0, n) in s.states[p].transitions
    {
      JumpKept(a, b, qfA, Q, s, p, t0);
    }
  }

  lemma SplicedStart(a: Automaton, b: Automaton, qfA: nat, Q: set<nat>, s: Automaton)
    requires Spliced(a, b, qfA, Q, s)
    ensures forall t0 {:trigger ShiftT(t0, |a.states|) in s.states[a.initial].transitions} ::
      t0 in b.states[b.initial].transitions && !Covers(t0, PLUS) ==>
      ShiftT(t0, |a.states|) in s.states[a.initial].transitions
  {
    forall t0 | t0 in b.states[b.initial].transitions && !Covers(t0, PLUS)
      ensures ShiftT(t0, |a.states|) in s.states[a.initial].transitions
    {
      StartBKept(a, b, qfA, Q, s, t0);
    }
  }

  lemma SplicedAccepts(a: Automaton, b: Automaton, qfA: nat, Q: set<nat>, s: Automaton)
    requires Spliced(a, b, qfA, Q, s)
    ensures AAccepts(a, b, s)
  {
    forall p | 0 <= p < |a.states| && p != a.initial
      ensures s.states[p].accept == a.states[p].accept
    {
      JoinedStates(a, b, p);
    }
  }

  lemma SplicedBPart(a: Automaton, b: Automaton, qfA: nat, Q: set<nat>, s: Automaton)
    requires Spliced(a, b, qfA, Q, s)
    ensures BPart(a, b, s)
  {
    forall q | 0 <= q < |b.states| && q != b.initial
      ensures s.states[|a.states| + q] == ShiftState(b.states[q], |a.states|)
    {
      BStateKept(a, b, qfA, Q, s, q);
    }
  }

  // ---------------------------------------------------------------------------------------
  // b's part of the arena

  /** A run of the spliced arena in b's part, away from q0B, is a run of b. */
  lemma {:induction false} BSound(a: Automaton, b: Automaton, s: Automaton, q: nat, v: seq<Sym>)
    requires Valid(b) && BPart(a, b, s) && FreshStart(b)
    requires q < |b.states| && q != b.initial && AcceptsFrom(s, |a.states| + q, v)
    ensures AcceptsFrom(b, q, v)
    decreases |v|
  {
    var n := |a.states|;
    if v != [] {
      var t :| t in s.states[n + q].transitions && Covers(t, v[0]) && AcceptsFrom(s, t.dest, v[1..]);
      var t0 := ShiftedFrom(b.states[q], n, t);
      BSound(a, b, s, t0.dest, v[1..]);
    }
  }

  /** A path of b away from its start is a path of the spliced arena in b's part. */
  lemma {:induction false} BPathKept(a: Automaton, b: Automaton, s: Automaton, q: nat, v: seq<Sym>, f: nat)
    requires Valid(b) && BPart(a, b, s) && FreshStart(b)
    requires q < |b.states| && q != b.initial && Path(b, q, v, f)
    ensures f != b.initial && Path(s, |a.states| + q, v, |a.states| + f)
    decreases |v|
  {
    var n := |a.states|;
    if v != [] {
      var t0 :| t0 in b.states[q].transitions && Covers(t0, v[0]) && Path(b, t0.dest, v[1..], f);
      BPathKept(a, b, s, t0.dest, v[1..], f);
      ShiftedIn(b.states[q], n, t0);
      assert ShiftT(t0, n) in s.states[n + q].transitions;
    }
  }

  // ---------------------------------------------------------------------------------------
  // Soundness

  /** A run of the spliced arena from a reachable state p of a's part reads a word of a
      (i = |w|), or a word of a up to its '-' and then b's continuation after its '+'
      (i < |w|), or, from q0A, a word of b that does not start with '+' (viaB). */
  lemma {:induction false} ASound(a: Automaton, b: Automaton, qfA: nat, Q: set<nat>, s: Automaton, p: nat, w: seq<Sym>)
    returns (i: nat, viaB: bool)
    requires AShape(a, qfA, Q) && Valid(b) && FreshStart(b) && Moves(a, b, qfA, Q, s)
    requires p < |a.states| && Reachable(a, p) && AcceptsFrom(s, p, w)
    ensures i <= |w|
    ensures viaB ==> p == a.initial && Accepts(b, w) && (w != [] ==> w[0] != PLUS)
    ensures !viaB && i == |w| ==>
      AcceptsFrom(a, p, w) && (PlusSuccessor(a, b).Some? && w != [] ==> w[|w| - 1] != MINUS)
    ensures !viaB && i < |w| ==> AcceptsFrom(a, p, w[..i] + [MINUS]) && Accepts(b, [PLUS] + w[i..])
    decreases |w|
  {
    var n := |a.states|;
    var P := PlusSuccessor(a, b);
    if w == [] {
      i := 0;
      viaB := p == a.initial && !a.states[p].accept;
      return;
    }
    var t := FirstMove(s, p, w);
    if t.dest < n {
      OwnMove(a, b, qfA, Q, s, p, t);
      ReachableStep(a, p, t);
      var i', viaB' := ASound(a, b, qfA, Q, s, t.dest, w[1..]);
      OwnStep(a, b, qfA, Q, p, t, w, i');
      i, viaB := i' + 1, false;
    } else {
      var jump := JumpOut(a, b, Q, s, p, t);
      if jump {
        i, viaB := 0, false;
        assert HasMinusInto(a, p, qfA);
        JumpSound(a, b, qfA, s, p, t, w);
        assert w[..0] + [MINUS] == [MINUS] && w[0..] == w;
      } else {
        i, viaB := 0, true;
        StartSound(a, b, s, t, w);
      }
    }
  }

  /** The first move of an accepting run. */
  lemma FirstMove(s: Automaton, p: nat, w: seq<Sym>) returns (t: Transition)
    requires AcceptsFrom(s, p, w) && w != []
    ensures p < |s.states| && t in s.states[p].transitions && Covers(t, w[0]) && AcceptsFrom(s, t.dest, w[1..])
  {
    t :| t in s.states[p].transitions && Covers(t, w[0]) && AcceptsFrom(s, t.dest, w[1..]);
  }

  /** A move of the spliced arena within a's part is a kept move of a. */
  lemma OwnMove(a: Automaton, b: Automaton, qfA: nat, Q: set<nat>, s: Automaton, p: nat, t: Transition)
    requires Valid(a) && Valid(b) && AMoves(a, b, qfA, Q, s) && p < |a.states|
    requires t in s.states[p].transitions && t.dest < |a.states|
    ensures t in a.states[p].transitions && !(Continues(Q, PlusSuccessor(a, b), p) && MinusInto(t, qfA))
  {
  }

  /** A move of the spliced arena out of a's part is one of qbPlus's moves from a continuing
      state (jump), or one of q0B's moves but for '+' from q0A. */
  lemma JumpOut(a: Automaton, b: Automaton, Q: set<nat>, s: Automaton, p: nat, t: Transition) returns (jump: bool)
    requires Valid(a) && Valid(b) && Jumps(a, b, Q, s) && p < |a.states|
    requires t in s.states[p].transitions && t.dest >= |a.states|
    ensures jump ==>
      Continues(Q, PlusSuccessor(a, b), p) &&
      t in ShiftState(b.states[PlusSuccessor(a, b).value - |a.states|], |a.states|).transitions
    ensures !jump ==>
      p == a.initial && t in ShiftState(b.states[b.initial], |a.states|).transitions && !Covers(t, PLUS)
  {
    var P := PlusSuccessor(a, b);
    jump := Continues(Q, P, p) && t in ShiftState(b.states[P.value - |a.states|], |a.states|).transitions;
  }

  /** A run that leaves q0A on one of q0B's moves but for '+' reads a word of b that does not
      start with '+'. */
  lemma StartSound(a: Automaton, b: Automaton, s: Automaton, t: Transition, w: seq<Sym>)
    requires Valid(b) && FreshStart(b) && BPart(a, b, s) && w != []
    requires t in ShiftState(b.states[b.initial], |a.states|).transitions && !Covers(t, PLUS)
    requires Covers(t, w[0]) && AcceptsFrom(s, t.dest, w[1..])
    ensures Accepts(b, w) && w[0] != PLUS
  {
    var t0 := ShiftedFrom(b.states[b.initial], |a.states|, t);
    BSound(a, b, s, t0.dest, w[1..]);
  }

  /** A move t of a from p, followed by what `ASound` finds after it, is what `ASound` finds
      from p, one letter later. */
  lemma OwnStep(a: Automaton, b: Automaton, qfA: nat, Q: set<nat>, p: nat, t: Transition, w: seq<Sym>, i': nat)
    requires AShape(a, qfA, Q) && Valid(b) && p < |a.states| && Reachable(a, p) && w != []
    requires t in a.states[p].transitions && !(Continues(Q, PlusSuccessor(a, b), p) && MinusInto(t, qfA))
    requires Covers(t, w[0]) && i' <= |w| - 1
    requires i' == |w| - 1 ==>
      AcceptsFrom(a, t.dest, w[1..]) && (PlusSuccessor(a, b).Some? && w[1..] != [] ==> w[1..][|w[1..]| - 1] != MINUS)
    requires i' < |w| - 1 ==> AcceptsFrom(a, t.dest, w[1..][..i'] + [MINUS]) && Accepts(b, [PLUS] + w[1..][i'..])
    ensures i' + 1 == |w| ==>
      AcceptsFrom(a, p, w) && (PlusSuccessor(a, b).Some? ==> w[|w| - 1] != MINUS)
    ensures i' + 1 < |w| ==> AcceptsFrom(a, p, w[..i' + 1] + [MINUS]) && Accepts(b, [PLUS] + w[i' + 1..])
  {
    var i := i' + 1;
    if i' == |w| - 1 {
      assert AcceptsFrom(a, p, w);
      if w[1..] == [] {
        if PlusSuccessor(a, b).Some? {
          LastMinusKept(a, b, qfA, Q, p, t, w[0]);
        }
      } else {
        assert w[1..][|w[1..]| - 1] == w[|w| - 1];
      }
    } else {
      assert (w[..i] + [MINUS])[0] == w[0] && (w[..i] + [MINUS])[1..] == w[1..][..i'] + [MINUS];
      assert w[i..] == w[1..][i'..];
    }
  }

  /** A state of a that keeps its move t into an accepting state does not read '-' on it
      when b can start with '+': that '-' move into qfA went. */
  lemma LastMinusKept(a: Automaton, b: Automaton, qfA: nat, Q: set<nat>, p: nat, t: Transition, c: Sym)
    requires AShape(a, qfA, Q) && Valid(b) && PlusSuccessor(a, b).Some? && Reachable(a, p) && p < |a.states|
    requires t in a.states[p].transitions && !(Continues(Q, PlusSuccessor(a, b), p) && MinusInto(t, qfA))
    requires a.states[t.dest].accept && Covers(t, c)
    ensures c != MINUS
  {
    ReachableStep(a, p, t);
    if c == MINUS {
      assert AcceptingIn(a, t.dest);
      assert MinusInto(t, qfA);
      assert false;
    }
  }

  /** A run that leaves a continuing state p of a on one of qbPlus's moves reads a word that
      b continues after its '+', and p reads '-' into qfA. */
  lemma JumpSound(a: Automaton, b: Automaton, qfA: nat, s: Automaton, p: nat, t: Transition, w: seq<Sym>)
    requires Valid(a) && qfA < |a.states| && a.states[qfA].accept && HasMinusInto(a, p, qfA)
    requires Valid(b) && FreshStart(b) && BPart(a, b, s) && w != [] && PlusSuccessor(a, b).Some?
    requires t in ShiftState(b.states[PlusSuccessor(a, b).value - |a.states|], |a.states|).transitions
    requires Covers(t, w[0]) && AcceptsFrom(s, t.dest, w[1..])
    ensures AcceptsFrom(a, p, [MINUS]) && Accepts(b, [PLUS] + w)
  {
    var n := |a.states|;
    var pb := PlusSuccessor(a, b).value - n;
    PlusSuccessorFresh(a, b);
    var t0 := ShiftedFrom(b.states[pb], n, t);
    BSound(a, b, s, t0.dest, w[1..]);
    assert AcceptsFrom(b, pb, w);
    PathThenAccepts(b, b.initial, [PLUS], pb, w);
    MinusAccepted(a, qfA, p);
  }

  /** A state with a '-' move into an accepting state accepts "-". */
  lemma MinusAccepted(a: Automaton, qfA: nat, p: nat)
    requires Valid(a) && qfA < |a.states| && a.states[qfA].accept && HasMinusInto(a, p, qfA)
    ensures AcceptsFrom(a, p, [MINUS])
  {
    var u :| u in a.states[p].transitions && MinusInto(u, qfA);
    AcceptsFromStep(a, p, u, [MINUS]);
  }

  /** Every word the spliced arena accepts is a sequence word. */
  lemma SequenceSound(a: Automaton, b: Automaton, qfA: nat, Q: set<nat>, s: Automaton, w: seq<Sym>)
    requires AShape(a, qfA, Q) && Valid(b) && FreshStart(b) && Moves(a, b, qfA, Q, s) && Accepts(s, w)
    ensures SequenceWord(a, b, w)
  {
    assert Path(a, a.initial, [], a.initial);
    var i, viaB := ASound(a, b, qfA, Q, s, a.initial, w);
    if !viaB && i < |w| {
      assert Joins(a, b, w, i);
    }
  }

  // ---------------------------------------------------------------------------------------
  // Completeness

  /** A path of a from a reachable state is a path of the spliced arena, unless it ends with
      the '-' into qfA that a continuation replaced. */
  lemma {:induction false} APathKept(a: Automaton, b: Automaton, qfA: nat, Q: set<nat>, s: Automaton, p: nat, u: seq<Sym>, q: nat)
    requires AShape(a, qfA, Q) && Valid(b) && Moves(a, b, qfA, Q, s) && Reachable(a, p) && Path(a, p, u, q)
    requires PlusSuccessor(a, b).Some? && u != [] && q == qfA ==> u[|u| - 1] != MINUS
    ensures Path(s, p, u, q)
    decreases |u|
  {
    if u != [] {
      var t :| t in a.states[p].transitions && Covers(t, u[0]) && Path(a, t.dest, u[1..], q);
      ReachableStep(a, p, t);
      if Continues(Q, PlusSuccessor(a, b), p) && MinusInto(t, qfA) && u[1..] != [] {
        assert false;
      }
      if u[1..] != [] {
        assert u[1..][|u[1..]| - 1] == u[|u| - 1];
      }
      APathKept(a, b, qfA, Q, s, t.dest, u[1..], q);
    }
  }

  /** A word of a is accepted, unless b's continuation replaced the '-' it ends with. */
  lemma AComplete(a: Automaton, b: Automaton, qfA: nat, Q: set<nat>, s: Automaton, w: seq<Sym>)
    requires AShape(a, qfA, Q) && Valid(b) && Moves(a, b, qfA, Q, s) && Accepts(a, w)
    requires PlusSuccessor(a, b).Some? && w != [] ==> w[|w| - 1] != MINUS
    ensures Accepts(s, w)
  {
    AcceptsFromPath(a, a.initial, w);
    var f: nat :| Path(a, a.initial, w, f) && f < |a.states| && a.states[f].accept;
    assert Path(a, a.initial, [], a.initial);
    APathKept(a, b, qfA, Q, s, a.initial, w, f);
    AcceptsFromPath(s, a.initial, w);
  }

  /** A word of b that does not start with '+' is accepted. */
  lemma BComplete(a: Automaton, b: Automaton, qfA: nat, Q: set<nat>, s: Automaton, w: seq<Sym>)
    requires Valid(a) && BShape(b) && s.initial == a.initial && Jumps(a, b, Q, s) && AAccepts(a, b, s) && BPart(a, b, s)
    requires Accepts(b, w) && (w != [] ==> w[0] != PLUS)
    ensures Accepts(s, w)
  {
    if w != [] {
      AcceptsFromPath(b, b.initial, w);
      var f: nat :| Path(b, b.initial, w, f) && f < |b.states| && b.states[f].accept;
      var t0 :| t0 in b.states[b.initial].transitions && Covers(t0, w[0]) && Path(b, t0.dest, w[1..], f);
      NotPlus(b, t0, w[0]);
      StartKept(a, b, Q, s, t0);
      var g := ShiftedTail(a, b, s, a.initial, t0, w, f);
      AcceptsFromPath(s, a.initial, w);
    }
  }

  /** A move of b's start on a letter other than '+' does not read '+'. */
  lemma NotPlus(b: Automaton, t0: Transition, c: Sym)
    requires Valid(b) && MarkersAlone(b) && t0 in b.states[b.initial].transitions && Covers(t0, c) && c != PLUS
    ensures !Covers(t0, PLUS)
  {
  }

  /** q0B's moves but for '+' are q0A's. */
  lemma StartKept(a: Automaton, b: Automaton, Q: set<nat>, s: Automaton, t0: Transition)
    requires Valid(a) && Valid(b) && Jumps(a, b, Q, s)
    requires t0 in b.states[b.initial].transitions && !Covers(t0, PLUS)
    ensures ShiftT(t0, |a.states|) in s.states[a.initial].transitions
  {
  }

  /** qbPlus's moves are those of every continuing state. */
  lemma ContinueKept(a: Automaton, b: Automaton, Q: set<nat>, s: Automaton, q: nat, t0: Transition)
    requires Valid(a) && Valid(b) && Jumps(a, b, Q, s) && q < |a.states| && Continues(Q, PlusSuccessor(a, b), q)
    requires t0 in b.states[PlusSuccessor(a, b).value - |a.states|].transitions
    ensures ShiftT(t0, |a.states|) in s.states[q].transitions
  {
  }

  /** A renumbered move of b into b's part, then a path of b away from its start, is a path
      of the spliced arena into an accepting state. */
  lemma ShiftedTail(a: Automaton, b: Automaton, s: Automaton, q: nat, t0: Transition, x: seq<Sym>, g: nat)
    returns (g': nat)
    requires Valid(b) && FreshStart(b) && BPart(a, b, s) && q < |s.states|
    requires ShiftT(t0, |a.states|) in s.states[q].transitions
    requires x != [] && Covers(t0, x[0]) && t0.dest != b.initial && t0.dest < |b.states|
    requires Path(b, t0.dest, x[1..], g) && g < |b.states| && b.states[g].accept
    ensures Path(s, q, x, g') && g' < |s.states| && s.states[g'].accept
  {
    var n := |a.states|;
    BPathKept(a, b, s, t0.dest, x[1..], g);
    g' := n + g;
    assert Path(s, ShiftT(t0, n).dest, x[1..], g');
  }

  /** A word that a reads up to its '-' and b continues after its '+' is accepted. */
  lemma JoinComplete(a: Automaton, b: Automaton, qfA: nat, Q: set<nat>, s: Automaton, w: seq<Sym>, i: nat)
    requires AShape(a, qfA, Q) && BShape(b) && Moves(a, b, qfA, Q, s) && i < |w| && Joins(a, b, w, i)
    ensures Accepts(s, w)
  {
    var q := JoinHead(a, b, qfA, Q, s, w, i);
    var pb, t0, g := JoinTail(a, b, w, i);
    JoinRest(a, b, Q, s, q, t0, w, i, g);
  }

  /** The spliced arena reads the first i letters of a joined word as a does, into a state
      of Q. */
  lemma JoinHead(a: Automaton, b: Automaton, qfA: nat, Q: set<nat>, s: Automaton, w: seq<Sym>, i: nat)
    returns (q: nat)
    requires AShape(a, qfA, Q) && Valid(b) && Moves(a, b, qfA, Q, s) && i < |w| && Accepts(a, w[..i] + [MINUS])
    ensures q in Q && q < |a.states| && Path(s, a.initial, w[..i], q)
  {
    q := JoinPoint(a, qfA, Q, w, i);
    assert Path(a, a.initial, [], a.initial);
    APathKept(a, b, qfA, Q, s, a.initial, w[..i], q);
  }

  /** From a continuing state reached on the first i letters, the spliced arena reads the
      rest of a joined word as b does after its '+': on t0 out of qbPlus, then into g. */
  lemma JoinRest(a: Automaton, b: Automaton, Q: set<nat>, s: Automaton, q: nat, t0: Transition, w: seq<Sym>, i: nat, g: nat)
    requires Valid(a) && Valid(b) && FreshStart(b) && s.initial == a.initial && Jumps(a, b, Q, s) && BPart(a, b, s)
    requires q < |a.states| && Continues(Q, PlusSuccessor(a, b), q) && i < |w| && Path(s, a.initial, w[..i], q)
    requires t0 in b.states[PlusSuccessor(a, b).value - |a.states|].transitions && Covers(t0, w[i]) && t0.dest != b.initial
    requires Path(b, t0.dest, w[i + 1..], g) && g < |b.states| && b.states[g].accept
    ensures Accepts(s, w)
  {
    assert w[..i] + w[i..] == w;
    ContinueKept(a, b, Q, s, q, t0);
    assert w[i..][0] == w[i] && w[i..][1..] == w[i + 1..];
    var g' := ShiftedTail(a, b, s, q, t0, w[i..], g);
    PathConcat(s, a.initial, w[..i], q, w[i..], g');
    AcceptsFromPath(s, a.initial, w);
  }

  /** a's side of a joined word: a reads its first i letters into a state of Q. */
  lemma JoinPoint(a: Automaton, qfA: nat, Q: set<nat>, w: seq<Sym>, i: nat)
    returns (q: nat)
    requires AShape(a, qfA, Q) && i < |w| && Accepts(a, w[..i] + [MINUS])
    ensures q in Q && q != qfA && Path(a, a.initial, w[..i], q)
  {
    AcceptsFromPath(a, a.initial, w[..i] + [MINUS]);
    var f: nat :| Path(a, a.initial, w[..i] + [MINUS], f) && f < |a.states| && a.states[f].accept;
    q := PathSplit(a, a.initial, w[..i], [MINUS], f);
    var t :| t in a.states[q].transitions && Covers(t, MINUS) && Path(a, t.dest, [MINUS][1..], f);
    assert Reachable(a, q);
    ReachableStep(a, q, t);
    assert AcceptingIn(a, f);
    assert MinusInto(t, qfA);
  }

  /** b's '+' moves enter qbPlus. */
  lemma PlusTarget(a: Automaton, b: Automaton, m: nat)
    requires Valid(a) && Valid(b) && PlusAtStart(b) && Path(b, b.initial, [PLUS], m)
    ensures PlusSuccessor(a, b).Some? && m == PlusSuccessor(a, b).value - |a.states|
  {
    var t1 :| t1 in b.states[b.initial].transitions && Covers(t1, PLUS) && Path(b, t1.dest, [PLUS][1..], m);
    var pb := PlusSuccessor(a, b).value - |a.states|;
    var t2 :| t2 in b.states[b.initial].transitions && Covers(t2, PLUS) && Path(b, t2.dest, [PLUS][1..], pb);
  }

  /** b's side of a joined word: b reads the rest of w from qbPlus into an accepting state g. */
  lemma JoinTail(a: Automaton, b: Automaton, w: seq<Sym>, i: nat)
    returns (pb: nat, t0: Transition, g: nat)
    requires Valid(a) && BShape(b) && i < |w| && Accepts(b, [PLUS] + w[i..])
    ensures PlusSuccessor(a, b).Some? && pb == PlusSuccessor(a, b).value - |a.states| && pb != b.initial
    ensures t0 in b.states[pb].transitions && Covers(t0, w[i]) && t0.dest != b.initial
    ensures Path(b, t0.dest, w[i + 1..], g) && g < |b.states| && b.states[g].accept
  {
    var x := w[i..];
    AcceptsFromPath(b, b.initial, [PLUS] + x);
    var g': nat :| Path(b, b.initial, [PLUS] + x, g') && g' < |b.states| && b.states[g'].accept;
    g := g';
    pb := PathSplit(b, b.initial, [PLUS], x, g);
    PlusTarget(a, b, pb);
    PlusSuccessorFresh(a, b);
    assert x[0] == w[i] && x[1..] == w[i + 1..];
    t0 :| t0 in b.states[pb].transitions && Covers(t0, x[0]) && Path(b, t0.dest, x[1..], g);
  }

  /** The spliced arena accepts exactly the sequence words of its operands. */
  lemma SequenceLanguage(a: Automaton, b: Automaton, qfA: nat, Q: set<nat>, s: Automaton, w: seq<Sym>)
    requires SequenceSetup(a, b, qfA, Q, s)
    ensures Accepts(s, w) <==> SequenceWord(a, b, w)
  {
    SplicedMoves(a, b, qfA, Q, s);
    assert AShape(a, qfA, Q) && BShape(b);
    if Accepts(s, w) {
      SequenceSound(a, b, qfA, Q, s, w);
    }
    if SequenceWord(a, b, w) {
      if Accepts(a, w) && (PlusSuccessor(a, b).Some? && w != [] ==> w[|w| - 1] != MINUS) {
        AComplete(a, b, qfA, Q, s, w);
      } else if Accepts(b, w) && (w != [] ==> w[0] != PLUS) {
        BComplete(a, b, qfA, Q, s, w);
      } else {
        var i :| 0 <= i < |w| && Joins(a, b, w, i);
        JoinComplete(a, b, qfA, Q, s, w, i);
      }
    }
  }

  /** A leaf automaton is in the shape the language proof needs, for any letter other than
      the markers: `mkLeafNode` builds it minimal. */
  lemma LeafNormal(letter: Sym, k: nat)
    requires letter != PLUS && letter != MINUS
    ensures Normal(Leaf.MkLeafNode(letter, k))
  {
    LeafMoves(letter, k);
    LeafSink(letter, k);
  }

  /** Only a leaf's start reads '+', into one state, no move enters the start, and every
      move reads a single character. */
  lemma LeafMoves(letter: Sym, k: nat)
    requires letter != PLUS && letter != MINUS
    ensures FreshStart(Leaf.MkLeafNode(letter, k)) && MarkersAlone(Leaf.MkLeafNode(letter, k))
    ensures PlusAtStart(Leaf.MkLeafNode(letter, k))
  {
    var r := Leaf.MkLeafNode(letter, k);
    assert forall q :: 0 < q < |r.states| ==> forall t :: t in r.states[q].transitions ==> !Covers(t, PLUS) && t.dest != 0;
  }

  /** A leaf's one accepting state, state 2, has no transitions. */
  lemma LeafSink(letter: Sym, k: nat)
    ensures OneSink(Leaf.MkLeafNode(letter, k))
  {
    var r := Leaf.MkLeafNode(letter, k);
    forall p: nat | AcceptingIn(r, p) ensures p == 2 {
    }
  }
}
