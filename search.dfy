/**
 * The bookkeeping that the iterated and the repeated local search share: the accuracy
 * triple of a model, the outcome of evaluating a neighbour, the collection of a
 * neighbourhood by mutating copies of the current directly-follows graph, and the
 * acceptance of the completed evaluations. Graphs (G) and models (M) are opaque; the
 * miner, the evaluator threads and the mismatch sources are given as their answers.
 */
module LocalSearch {
  import opened Wrappers

  /** `currentAccuracy`: fitness, precision and F-score (slots 0, 1 and 2). */
  datatype Accuracy = Accuracy(fitness: real, precision: real, fscore: real)

  /** What an evaluator thread returns: the accuracy and the model it scored. */
  datatype Evaluated<M> = Evaluated(acc: Accuracy, model: M)

  /** The fate of one neighbour: its model could not be mined (`getBPMN`/`getTree`
      threw), its evaluation had not finished after the wait (and is cancelled), or it
      finished. */
  datatype Outcome<M> = Discarded | Unfinished | Done(result: Evaluated<M>)

  /** One call to the miner followed by an evaluation: it failed (an exception or a
      timeout), the miner returned no graph, or the evaluation finished in time. */
  datatype Attempt<G, M> = Failed | NoGraph | Finished(graph: G, result: Evaluated<M>)

  /** A mutation of a graph copy on a subtrace (`enhance` or `reduce`): the copy after the
      call, and null on failure or the string the call returns on success. */
  type Mutation<!G> = (G, string) -> (G, Option<string>)

  /** What the environment answers during one round of the main loop. */
  datatype RoundInput<!G, M> = RoundInput(
    logMismatches: seq<string>,      // staLog.nextMismatch() until it returns null
    processMismatches: seq<string>,  // staProcess.nextMismatch() until it returns null
    enhance: Mutation<G>,
    reduce: Mutation<G>,
    outcomes: seq<Outcome<M>>,       // one per neighbour, in iteration order
    reevaluation: Option<Evaluated<M>>)  // the best model scored at a raised order; null on a timeout

  /** An attempt that ends a retry loop: a finished evaluation, or, where the loop gives
      up on a null graph (`restart` of the repeated search), a null graph. */
  predicate Settles<G, M>(a: Attempt<G, M>, nullStops: bool) {
    a.Finished? || (nullStops && a.NoGraph?)
  }

  /** The index of the attempt that ends a retry loop over `attempts`, or |attempts|
      when none does. */
  function FirstSettled<G, M>(attempts: seq<Attempt<G, M>>, nullStops: bool): (i: nat)
    ensures i <= |attempts|
    ensures i < |attempts| ==> Settles(attempts[i], nullStops)
    ensures forall j :: 0 <= j < i ==> !Settles(attempts[j], nullStops)
  {
    if attempts == [] then 0
    else if Settles(attempts[0], nullStops) then 0
    else 1 + FirstSettled(attempts[1..], nullStops)
  }

  /** The recorded best F-scores strictly increase. */
  predicate Increasing(s: seq<real>) {
    forall i, j :: 0 <= i < j < |s| ==> s[i] < s[j]
  }

  /** The F-score of the current model after the acceptance loop, starting from f. */
  function Best<M>(f: real, outcomes: seq<Outcome<M>>): (b: real)
    ensures f <= b
    ensures forall i :: 0 <= i < |outcomes| && outcomes[i].Done? ==> outcomes[i].result.acc.fscore <= b
    ensures b == f || exists i :: 0 <= i < |outcomes| && outcomes[i].Done? && outcomes[i].result.acc.fscore == b
  {
    if outcomes == [] then f
    else
      var b := Best(f, outcomes[..|outcomes| - 1]);
      var o := outcomes[|outcomes| - 1];
      if o.Done? && o.result.acc.fscore >= b then o.result.acc.fscore else b
  }

  /** Some completed evaluation reaches F-score f. */
  ghost predicate Reaches<M>(outcomes: seq<Outcome<M>>, f: real) {
    exists i :: 0 <= i < |outcomes| && outcomes[i].Done? && outcomes[i].result.acc.fscore >= f
  }

  /** The acceptance loop: every finished evaluation whose F-score is at least the current
      one replaces the current accuracy, graph and model; unfinished ones are ignored.
      The F-score it ends with is the best of the current one and the finished ones, so
      it never goes down and does not depend on the order of the finished evaluations. */
  method Accept<G, M>(acc: Accuracy, graph: G, model: M, neighbours: seq<G>, outcomes: seq<Outcome<M>>)
    returns (acc2: Accuracy, graph2: G, model2: M, improved: bool)
    requires |outcomes| == |neighbours|
    ensures acc2.fscore == Best(acc.fscore, outcomes)
    ensures improved <==> Reaches(outcomes, acc.fscore)
    ensures !improved ==> acc2 == acc && graph2 == graph && model2 == model
    ensures improved ==> exists i :: 0 <= i < |outcomes| && outcomes[i] == Done(Evaluated(acc2, model2)) && neighbours[i] == graph2
  {
    acc2, graph2, model2, improved := acc, graph, model, false;
    for i := 0 to |outcomes|
      invariant acc2.fscore == Best(acc.fscore, outcomes[..i])
      invariant improved <==> Reaches(outcomes[..i], acc.fscore)
      invariant !improved ==> acc2 == acc && graph2 == graph && model2 == model
      invariant improved ==> exists j :: 0 <= j < i && outcomes[j] == Done(Evaluated(acc2, model2)) && neighbours[j] == graph2
    {
      assert outcomes[..i + 1][..i] == outcomes[..i];
      var o := outcomes[i];
      if o.Done? && o.result.acc.fscore >= acc2.fscore {
        acc2, graph2, model2, improved := o.result.acc, neighbours[i], o.result.model, true;
        assert outcomes[..i + 1][i] == o;
      } else if improved {
        assert Reaches(outcomes[..i + 1], acc.fscore) by {
          var j :| 0 <= j < i && outcomes[..i][j].Done? && outcomes[..i][j].result.acc.fscore >= acc.fscore;
          assert outcomes[..i + 1][j] == outcomes[..i][j];
        }
      } else {
        ReachesStep(outcomes, i, acc.fscore);
      }
    }
    assert outcomes[..|outcomes|] == outcomes;
  }

  lemma ReachesStep<M>(outcomes: seq<Outcome<M>>, i: nat, f: real)
    requires i < |outcomes| && !Reaches(outcomes[..i], f)
    requires !(outcomes[i].Done? && outcomes[i].result.acc.fscore >= f)
    ensures !Reaches(outcomes[..i + 1], f)
  {
    var s := outcomes[..i + 1];
    forall j | 0 <= j < |s| ensures !(s[j].Done? && s[j].result.acc.fscore >= f) {
      if j < i {
        assert s[j] == outcomes[..i][j];
      }
    }
  }

  /** The answer of the next call to `nextMismatch()`: the source's next string, or null
      once it is exhausted. */
  method NextMismatch(mismatches: seq<string>, pos: nat) returns (s: Option<string>, pos2: nat)
    requires pos <= |mismatches|
    ensures pos < |mismatches| ==> s == Some(mismatches[pos]) && pos2 == pos + 1
    ensures pos == |mismatches| ==> s == None && pos2 == pos
  {
    if pos < |mismatches| {
      s, pos2 := Some(mismatches[pos]), pos + 1;
    } else {
      s, pos2 := None, pos;
    }
  }

  /** The graph a copy of t becomes after the mutations of fs, tried one after another. */
  function Applied<G>(mutate: Mutation<G>, t: G, fs: seq<string>): (r: G)
    ensures fs == [] ==> r == t
    decreases |fs|
  {
    if fs == [] then t else Applied(mutate, mutate(t, fs[0]).0, fs[1..])
  }

  /** Every mutation of fs, tried one after another on a copy of t, fails. */
  predicate AllFailed<G>(mutate: Mutation<G>, t: G, fs: seq<string>)
    decreases |fs|
  {
    fs == [] || (mutate(t, fs[0]).1.None? && AllFailed(mutate, mutate(t, fs[0]).0, fs[1..]))
  }

  /** Trying one more mutation s after fs applies it to the graph fs left, and the tries
      still all fail when s does. */
  lemma {:induction false} AppliedSnoc<G>(mutate: Mutation<G>, t: G, fs: seq<string>, s: string)
    ensures Applied(mutate, t, fs + [s]) == mutate(Applied(mutate, t, fs), s).0
    ensures AllFailed(mutate, t, fs) && mutate(Applied(mutate, t, fs), s).1.None? ==> AllFailed(mutate, t, fs + [s])
    decreases |fs|
  {
    if fs != [] {
      assert (fs + [s])[0] == fs[0] && (fs + [s])[1..] == fs[1..] + [s];
      AppliedSnoc(mutate, mutate(t, fs[0]).0, fs[1..], s);
    } else {
      assert [s][1..] == [];
    }
  }

  /** g is a neighbour of current: a copy of current on which some mutations failed and
      then one succeeded. */
  ghost predicate MutantOf<G(!new)>(mutate: Mutation<G>, current: G, g: G) {
    exists fs, s :: AllFailed(mutate, current, fs) &&
      mutate(Applied(mutate, current, fs), s).1.Some? && mutate(Applied(mutate, current, fs), s).0 == g
  }

  /** The neighbourhood loop: starting from a copy of the current graph, each subtrace of
      the mismatch source is tried on the copy; a successful mutation adds the copy to the
      neighbours and starts again from a fresh copy, with the string the mutation returned;
      a failed one moves to the next subtrace. An empty subtrace is replaced by the next
      one. The loop stops once the neighbourhood is full or the source is exhausted. */
  method CollectNeighbours<G(!new)>(current: G, mismatches: seq<string>, mutate: Mutation<G>, neighbourhood: nat)
    returns (neighbours: seq<G>, used: nat)
    ensures |neighbours| <= neighbourhood && used <= |mismatches|
    ensures |neighbours| < neighbourhood ==> used == |mismatches|
    ensures forall g :: g in neighbours ==> MutantOf(mutate, current, g)
  {
    neighbours, used := [], 0;
    var subtrace;
    subtrace, used := NextMismatch(mismatches, used);
    var tmp := current;
    ghost var failed: seq<string> := [];
    while |neighbours| != neighbourhood && subtrace.Some?
      invariant |neighbours| <= neighbourhood && used <= |mismatches|
      invariant subtrace.None? ==> used == |mismatches|
      invariant AllFailed(mutate, current, failed) && tmp == Applied(mutate, current, failed)
      invariant forall g :: g in neighbours ==> MutantOf(mutate, current, g)
      decreases neighbourhood - |neighbours|, |mismatches| - used, if subtrace.Some? then 1 else 0
    {
      if subtrace.value == [] {
        subtrace, used := NextMismatch(mismatches, used);
        if subtrace.None? {
          break;
        }
      }
      var s := subtrace.value;
      var (g, rest) := mutate(tmp, s);
      AppliedSnoc(mutate, current, failed, s);
      if rest.None? {
        tmp, failed := g, failed + [s];
        subtrace, used := NextMismatch(mismatches, used);
      } else {
        assert mutate(Applied(mutate, current, failed), s).0 == g;
        neighbours := neighbours + [g];
        tmp, failed := current, [];
        subtrace := rest;
      }
    }
  }

  /** The round chooses `enhance` on the log's mismatches when precision exceeds fitness,
      and `reduce` on the process's mismatches otherwise. */
  method Neighbourhood<G(!new), M>(acc: Accuracy, current: G, input: RoundInput<G, M>, neighbourhood: nat)
    returns (neighbours: seq<G>)
    ensures |neighbours| <= neighbourhood
    ensures acc.precision > acc.fitness ==> forall g :: g in neighbours ==> MutantOf(input.enhance, current, g)
    ensures acc.precision <= acc.fitness ==> forall g :: g in neighbours ==> MutantOf(input.reduce, current, g)
  {
    var used;
    if acc.precision > acc.fitness {
      neighbours, used := CollectNeighbours(current, input.logMismatches, input.enhance, neighbourhood);
    } else {
      neighbours, used := CollectNeighbours(current, input.processMismatches, input.reduce, neighbourhood);
    }
  }

  /** The outcome of each neighbour, in order; a neighbour the environment says nothing
      about had not finished. */
  function OutcomesFor<G, M>(neighbours: seq<G>, input: RoundInput<G, M>): (os: seq<Outcome<M>>)
    ensures |os| == |neighbours|
    ensures forall i :: 0 <= i < |os| ==> os[i] == if i < |input.outcomes| then input.outcomes[i] else Unfinished
  {
    seq(|neighbours|, i requires 0 <= i < |neighbours| => if i < |input.outcomes| then input.outcomes[i] else Unfinished)
  }

  /** `safeName`: the model name with every '/', '\' and '.' replaced by '_'. */
  function SafeName(name: string): (r: string)
    ensures |r| == |name|
    ensures forall i :: 0 <= i < |r| ==> r[i] == (if name[i] in {'/', '\\', '.'} then '_' else name[i])
  {
    if name == [] then []
    else SafeName(name[..|name| - 1]) + [if name[|name| - 1] in {'/', '\\', '.'} then '_' else name[|name| - 1]]
  }
}
