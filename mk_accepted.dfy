/**
 * `getAcceptedStrings` and its helper `explore`: a depth-first walk from the initial state
 * that never enters a state already on the current path. Each time it stands on an
 * accepting state it counts the word spelled so far; it then tries every character of
 * every transition. The words it counts are therefore the words of the simple paths
 * (no state repeated) from the initial state into an accepting state.
 */
module AcceptedStrings {
  import opened Automata

  /** Some simple path from q that avoids the states in `avoid` spells u and ends in an
      accepting state. */
  ghost predicate SimpleAccepts(a: Automaton, q: nat, avoid: set<nat>, u: seq<Sym>)
    decreases |u|
  {
    q < |a.states| && q !in avoid &&
    if u == [] then a.states[q].accept
    else exists t :: t in a.states[q].transitions && Covers(t, u[0]) && SimpleAccepts(a, t.dest, avoid + {q}, u[1..])
  }

  /** w starts with `current`. */
  ghost predicate Prefixed(current: seq<Sym>, w: seq<Sym>) {
    |current| <= |w| && w[..|current|] == current
  }

  /** w is the word `current` followed by a word of a simple accepting path from q. */
  ghost predicate Found(a: Automaton, q: nat, avoid: set<nat>, current: seq<Sym>, w: seq<Sym>) {
    Prefixed(current, w) && SimpleAccepts(a, q, avoid, w[|current|..])
  }

  /** The words u that the scan of the transitions ts of a state has already counted when
      it stands at character c of transition i: those through a transition before i, and
      those through transition i on a character below c. */
  ghost predicate Scanned(a: Automaton, ts: seq<Transition>, i: nat, c: int, avoid: set<nat>, u: seq<Sym>) {
    u != [] &&
    ((exists j :: 0 <= j < i && j < |ts| && Covers(ts[j], u[0]) && SimpleAccepts(a, ts[j].dest, avoid, u[1..])) ||
     (i < |ts| && ts[i].min as int <= u[0] as int < c && SimpleAccepts(a, ts[i].dest, avoid, u[1..])))
  }

  /** A word counted by a simple path is accepted. */
  lemma {:induction false} SimpleSound(a: Automaton, q: nat, avoid: set<nat>, u: seq<Sym>)
    requires SimpleAccepts(a, q, avoid, u)
    ensures AcceptsFrom(a, q, u)
    decreases |u|
  {
    if u != [] {
      var t :| t in a.states[q].transitions && Covers(t, u[0]) && SimpleAccepts(a, t.dest, avoid + {q}, u[1..]);
      SimpleSound(a, t.dest, avoid + {q}, u[1..]);
    }
  }

  /** A simple path never revisits a state: its word is shorter than the states left. */
  lemma {:induction false} SimpleBounded(a: Automaton, q: nat, avoid: set<nat>, u: seq<Sym>)
    requires avoid <= Below(|a.states|) && SimpleAccepts(a, q, avoid, u)
    ensures |u| < |Below(|a.states|) - avoid|
    decreases |u|
  {
    var n := Below(|a.states|);
    ShrinkingDifference(n, avoid, avoid + {q});
    if u != [] {
      var t :| t in a.states[q].transitions && Covers(t, u[0]) && SimpleAccepts(a, t.dest, avoid + {q}, u[1..]);
      SimpleBounded(a, t.dest, avoid + {q}, u[1..]);
    }
  }

  /** `getAcceptedStrings()`: the map from each counted word to the number of times it
      was counted. */
  method GetAcceptedStrings(a: Automaton) returns (counts: map<seq<Sym>, int>)
    requires Valid(a)
    ensures forall w :: w in counts <==> SimpleAccepts(a, a.initial, {}, w)
    ensures forall w :: w in counts ==> counts[w] >= 1
  {
    counts := Explore(a, a.initial, [], map[], {});
    forall w: seq<Sym> ensures Found(a, a.initial, {}, [], w) <==> SimpleAccepts(a, a.initial, {}, w) {
      assert w[..0] == [] && w[0..] == w;
    }
  }

  /** `explore(state, current, traceCounts, visitedStates)`. The visited set is the current
      path: the Java code adds the state on entry and removes it on exit. */
  method Explore(a: Automaton, q: nat, current: seq<Sym>, counts: map<seq<Sym>, int>, visited: set<nat>)
    returns (counts2: map<seq<Sym>, int>)
    requires Valid(a) && q < |a.states| && visited <= Below(|a.states|)
    requires forall w :: w in counts ==> counts[w] >= 1
    ensures forall w :: w in counts2 <==> w in counts || Found(a, q, visited, current, w)
    ensures forall w :: w in counts ==> counts2[w] >= counts[w]
    ensures forall w :: w in counts2 ==> counts2[w] >= 1
    decreases |Below(|a.states|) - visited|, 0
  {
    if q in visited {
      return counts;
    }
    var inner := visited + {q};
    ShrinkingDifference(Below(|a.states|), visited, inner);
    counts2 := counts;
    if a.states[q].accept {
      var before := if current in counts2 then counts2[current] else 0;
      counts2 := counts2[current := before + 1];
    }
    ghost var counts1 := counts2;
    var ts := a.states[q].transitions;
    for i := 0 to |ts|
      invariant Counted(a, ts, i, 0, inner, current, counts1, counts2)
    {
      counts2 := ScanTransition(a, ts, i, inner, current, counts1, counts2);
    }
    forall w: seq<Sym> ensures Found(a, q, visited, current, w) <==>
                     (w == current && a.states[q].accept) || (Prefixed(current, w) && Scanned(a, ts, |ts|, 0, inner, w[|current|..])) {
      ScanDone(a, q, visited, current, w);
    }
  }

  /** The map after the scan has reached character c of transition i: it holds the words
      it held before the scan and those counted so far, and no count went down. */
  ghost predicate Counted(a: Automaton, ts: seq<Transition>, i: nat, c: int, avoid: set<nat>, current: seq<Sym>,
                          counts1: map<seq<Sym>, int>, counts2: map<seq<Sym>, int>)
  {
    (forall w :: w in counts2 <==> w in counts1 || (Prefixed(current, w) && Scanned(a, ts, i, c, avoid, w[|current|..]))) &&
    (forall w :: w in counts1 ==> counts2[w] >= counts1[w]) &&
    (forall w :: w in counts2 ==> counts2[w] >= 1)
  }

  /** The loop over the characters of transition i. */
  method ScanTransition(a: Automaton, ts: seq<Transition>, i: nat, inner: set<nat>, current: seq<Sym>,
                        ghost counts1: map<seq<Sym>, int>, counts2: map<seq<Sym>, int>)
    returns (counts3: map<seq<Sym>, int>)
    requires Valid(a) && i < |ts| && ts[i].dest < |a.states| && ts[i].min <= ts[i].max && inner <= Below(|a.states|)
    requires Counted(a, ts, i, 0, inner, current, counts1, counts2)
    ensures Counted(a, ts, i + 1, 0, inner, current, counts1, counts3)
    decreases |Below(|a.states|) - inner|, 2
  {
    counts3 := counts2;
    var c: int := ts[i].min as int;
    while c <= ts[i].max as int
      invariant ts[i].min as int <= c <= ts[i].max as int + 1
      invariant Counted(a, ts, i, c, inner, current, counts1, counts3)
    {
      counts3 := ScanChar(a, ts, i, c as Sym, inner, current, counts1, counts3);
      c := c + 1;
    }
    forall w: seq<Sym> | Prefixed(current, w)
      ensures Scanned(a, ts, i, c, inner, w[|current|..]) <==> Scanned(a, ts, i + 1, 0, inner, w[|current|..])
    {
      ScanNext(a, ts, i, inner, w[|current|..]);
    }
  }

  /** One character of transition i: the words of the paths through it are added. */
  method ScanChar(a: Automaton, ts: seq<Transition>, i: nat, c: Sym, inner: set<nat>, current: seq<Sym>,
                  ghost counts1: map<seq<Sym>, int>, counts2: map<seq<Sym>, int>)
    returns (counts3: map<seq<Sym>, int>)
    requires Valid(a) && i < |ts| && ts[i].dest < |a.states| && ts[i].min <= c <= ts[i].max && inner <= Below(|a.states|)
    requires Counted(a, ts, i, c as int, inner, current, counts1, counts2)
    ensures Counted(a, ts, i, c as int + 1, inner, current, counts1, counts3)
    decreases |Below(|a.states|) - inner|, 1
  {
    counts3 := Explore(a, ts[i].dest, current + [c], counts2, inner);
    forall w: seq<Sym> ensures (Prefixed(current, w) && Scanned(a, ts, i, c as int + 1, inner, w[|current|..])) <==>
                               (Prefixed(current, w) && Scanned(a, ts, i, c as int, inner, w[|current|..])) ||
                               Found(a, ts[i].dest, inner, current + [c], w) {
      ScanStep(a, ts, i, c, inner, current, w);
    }
  }

  /** One more character of transition i: the words counted through it. */
  lemma ScanStep(a: Automaton, ts: seq<Transition>, i: nat, c: Sym, avoid: set<nat>, current: seq<Sym>, w: seq<Sym>)
    requires i < |ts| && ts[i].min <= c <= ts[i].max
    ensures (Prefixed(current, w) && Scanned(a, ts, i, c as int + 1, avoid, w[|current|..])) <==>
            (Prefixed(current, w) && Scanned(a, ts, i, c as int, avoid, w[|current|..])) ||
            Found(a, ts[i].dest, avoid, current + [c], w)
  {
    var n := |current|;
    if Found(a, ts[i].dest, avoid, current + [c], w) {
      assert w[..n] == w[..n + 1][..n];
      assert w[n..][1..] == w[n + 1..];
    }
    if Prefixed(current, w) && |w| > n && w[n] == c {
      assert w[..n + 1] == current + [c];
      assert w[n..][1..] == w[n + 1..];
    }
  }

  /** Past the last character of transition i the scan moves to transition i + 1. */
  lemma ScanNext(a: Automaton, ts: seq<Transition>, i: nat, avoid: set<nat>, u: seq<Sym>)
    requires i < |ts|
    ensures Scanned(a, ts, i, ts[i].max as int + 1, avoid, u) <==> Scanned(a, ts, i + 1, 0, avoid, u)
  {
  }

  /** Once every transition is scanned, the words counted are those of simple accepting
      paths through q. */
  lemma ScanDone(a: Automaton, q: nat, visited: set<nat>, current: seq<Sym>, w: seq<Sym>)
    requires q < |a.states| && q !in visited
    ensures Found(a, q, visited, current, w) <==>
            (w == current && a.states[q].accept) ||
            (Prefixed(current, w) && Scanned(a, a.states[q].transitions, |a.states[q].transitions|, 0, visited + {q}, w[|current|..]))
  {
    var ts := a.states[q].transitions;
    if Prefixed(current, w) && w[|current|..] != [] {
      var u := w[|current|..];
      if SimpleAccepts(a, q, visited, u) {
        var t :| t in ts && Covers(t, u[0]) && SimpleAccepts(a, t.dest, visited + {q}, u[1..]);
        var j :| 0 <= j < |ts| && ts[j] == t;
      }
    }
    if w == current {
      assert w[|current|..] == [];
    }
  }
}
