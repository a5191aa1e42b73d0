/**
 * `RepeatedLocalSearch`: the same hill climbing as the iterated search, but a stuck
 * search restarts the miner from scratch instead of perturbing the current graph, and
 * after `MAX_ITERATIONS_BEFORE_RAISE` rounds without a new best the order k of the
 * abstraction is raised (up to `MAX_K`) and the best model becomes the current one again,
 * scored at the new order. The BPMN and the tree variants differ only in the model type M.
 */
module RepeatedSearch {
  import opened Wrappers
  import opened LocalSearch

  /** `maxIterationsBeforeRaise` */
  const MAX_ITERATIONS_BEFORE_RAISE: nat := 10
  /** `maxK` */
  const MAX_K: int := 5

  class RepeatedLocalSearch<G(!new), M> {
    var currentAccuracy: Accuracy
    var currentSDFG: Option<G>
    var currentModel: Option<M>
    var bestSDFG: Option<G>
    var bestModel: Option<M>
    var bestFitness: seq<real>
    var bestPrecision: seq<real>
    var bestScores: seq<real>
    var hits: seq<int>
    var restarts: nat
    var noImprovementCounter: nat
    /** The answers the miner proxy and the evaluator will give to `restart`, in order. */
    var pending: seq<Attempt<G, M>>

    /** The best lists grow together and the best F-scores strictly increase; a current
        graph always comes with its model. */
    ghost predicate Valid()
      reads this
    {
      |bestFitness| == |bestPrecision| == |bestScores| == |hits| >= 1 &&
      Increasing(bestScores) &&
      (currentSDFG.Some? ==> currentModel.Some?)
    }

    /** `new RepeatedLocalSearch(proxy)`: nothing current and nothing best yet. */
    constructor (pending: seq<Attempt<G, M>>)
      ensures this.pending == pending
      ensures currentSDFG == None && currentModel == None && bestSDFG == None && bestModel == None
      ensures bestFitness == bestPrecision == bestScores == [] && hits == []
      ensures restarts == 0 && noImprovementCounter == 0
    {
      currentAccuracy := Accuracy(0.0, 0.0, 0.0);
      currentSDFG, currentModel, bestSDFG, bestModel := None, None, None, None;
      bestFitness, bestPrecision, bestScores, hits := [], [], [], [];
      restarts, noImprovementCounter := 0, 0;
      this.pending := pending;
    }

    /** One call of `restart`, counted whatever its outcome: a null graph from the miner
        becomes the current graph and ends the retries; a finished evaluation replaces the
        current accuracy, graph and model; a failure or a timeout asks for another try. */
    method RestartOnce() returns (settled: bool)
      requires pending != []
      modifies this
      ensures pending == old(pending)[1..] && restarts == old(restarts) + 1
      ensures settled == Settles(old(pending)[0], true)
      ensures old(pending)[0].Finished? ==>
        currentAccuracy == old(pending)[0].result.acc && currentSDFG == Some(old(pending)[0].graph) &&
        currentModel == Some(old(pending)[0].result.model)
      ensures old(pending)[0].NoGraph? ==>
        currentSDFG == None && currentAccuracy == old(currentAccuracy) && currentModel == old(currentModel)
      ensures old(pending)[0].Failed? ==>
        currentAccuracy == old(currentAccuracy) && currentSDFG == old(currentSDFG) && currentModel == old(currentModel)
      ensures bestSDFG == old(bestSDFG) && bestModel == old(bestModel) && bestFitness == old(bestFitness) &&
              bestPrecision == old(bestPrecision) && bestScores == old(bestScores) && hits == old(hits) &&
              noImprovementCounter == old(noImprovementCounter)
    {
      restarts := restarts + 1;
      var a := pending[0];
      pending := pending[1..];
      match a
      case NoGraph =>
        currentSDFG := None;
        settled := true;
      case Finished(graph, result) =>
        currentAccuracy, currentSDFG, currentModel := result.acc, Some(graph), Some(result.model);
        settled := true;
      case Failed =>
        settled := false;
    }

    /** `restart`: it calls itself again after a failure or a timeout, so it ends at the
        first null graph or finished evaluation. */
    method Restart() returns (stalled: bool)
      modifies this
      ensures var i := FirstSettled(old(pending), true);
        stalled == (i == |old(pending)|) &&
        pending == (if stalled then [] else old(pending)[i + 1..]) &&
        restarts == old(restarts) + (if stalled then i else i + 1) &&
        (!stalled && old(pending)[i].Finished? ==>
           currentAccuracy == old(pending)[i].result.acc && currentSDFG == Some(old(pending)[i].graph) &&
           currentModel == Some(old(pending)[i].result.model)) &&
        (!stalled && old(pending)[i].NoGraph? ==>
           currentSDFG == None && currentAccuracy == old(currentAccuracy) && currentModel == old(currentModel)) &&
        (stalled ==> currentAccuracy == old(currentAccuracy) && currentSDFG == old(currentSDFG) &&
                     currentModel == old(currentModel))
      ensures bestSDFG == old(bestSDFG) && bestModel == old(bestModel) && bestFitness == old(bestFitness) &&
              bestPrecision == old(bestPrecision) && bestScores == old(bestScores) && hits == old(hits) &&
              noImprovementCounter == old(noImprovementCounter)
    {
      ghost var attempts := pending;
      ghost var i := FirstSettled(attempts, true);
      ghost var n := 0;
      while pending != []
        invariant n <= i && n <= |attempts| && pending == attempts[n..]
        invariant restarts == old(restarts) + n
        invariant currentAccuracy == old(currentAccuracy) && currentSDFG == old(currentSDFG) && currentModel == old(currentModel)
        invariant bestSDFG == old(bestSDFG) && bestModel == old(bestModel) && bestFitness == old(bestFitness) &&
                  bestPrecision == old(bestPrecision) && bestScores == old(bestScores) && hits == old(hits) &&
                  noImprovementCounter == old(noImprovementCounter)
        decreases |pending|
      {
        var settled := RestartOnce();
        if settled {
          return false;
        }
        n := n + 1;
      }
      return true;
    }

    /** The head of the loop: a current F-score above the last best one is recorded, with
        its iteration, and the current graph and model become the best ones. */
    method Record(iteration: int)
      requires Valid()
      modifies this
      ensures Valid()
      ensures var improved := currentAccuracy.fscore > old(bestScores[|bestScores| - 1]);
        (improved ==> bestFitness == old(bestFitness) + [currentAccuracy.fitness] &&
                      bestPrecision == old(bestPrecision) + [currentAccuracy.precision] &&
                      bestScores == old(bestScores) + [currentAccuracy.fscore] &&
                      hits == old(hits) + [iteration] &&
                      bestSDFG == currentSDFG && bestModel == currentModel && noImprovementCounter == 0) &&
        (!improved ==> bestFitness == old(bestFitness) && bestPrecision == old(bestPrecision) &&
                       bestScores == old(bestScores) && hits == old(hits) &&
                       bestSDFG == old(bestSDFG) && bestModel == old(bestModel) &&
                       noImprovementCounter == old(noImprovementCounter) + 1)
      ensures currentAccuracy == old(currentAccuracy) && currentSDFG == old(currentSDFG) &&
              currentModel == old(currentModel) && pending == old(pending) && restarts == old(restarts)
    {
      if currentAccuracy.fscore > bestScores[|bestScores| - 1] {
        bestFitness := bestFitness + [currentAccuracy.fitness];
        bestPrecision := bestPrecision + [currentAccuracy.precision];
        bestScores := bestScores + [currentAccuracy.fscore];
        hits := hits + [iteration];
        bestSDFG, bestModel := currentSDFG, currentModel;
        noImprovementCounter := 0;
      } else {
        noImprovementCounter := noImprovementCounter + 1;
      }
    }

    /** After the order is raised: the best model, scored at the new order, becomes the
        current one again, with the best graph, and the stall counter starts over. */
    method Reevaluate(result: Evaluated<M>)
      requires Valid()
      modifies this
      ensures Valid()
      ensures currentAccuracy == result.acc && currentModel == Some(result.model) && currentSDFG == old(bestSDFG)
      ensures noImprovementCounter == 0
      ensures bestSDFG == old(bestSDFG) && bestModel == old(bestModel) && bestFitness == old(bestFitness) &&
              bestPrecision == old(bestPrecision) && bestScores == old(bestScores) && hits == old(hits) &&
              pending == old(pending) && restarts == old(restarts)
    {
      currentAccuracy, currentModel, currentSDFG := result.acc, Some(result.model), bestSDFG;
      noImprovementCounter := 0;
    }

    /** The body of one round after the head and the raise: the neighbourhood, its
        evaluation, the move and the restart. `icounter` counts the rounds in a row
        without a move; it is not reset when the neighbourhood is empty. */
    method Round(input: RoundInput<G, M>, order: int, neighbourhood: nat, icounter: int)
      returns (icounter2: int, neighbours: seq<G>, improved: bool, stalled: bool)
      requires Valid() && currentSDFG.Some?
      modifies this
      ensures Valid()
      ensures |neighbours| <= neighbourhood
      ensures improved ==>
        neighbours != [] && icounter2 == 0 &&
        Reaches(OutcomesFor(neighbours, input), old(currentAccuracy.fscore)) &&
        currentAccuracy.fscore == Best(old(currentAccuracy.fscore), OutcomesFor(neighbours, input)) &&
        pending == old(pending) && restarts == old(restarts) && !stalled
      ensures neighbours != [] && !improved ==> !Reaches(OutcomesFor(neighbours, input), old(currentAccuracy.fscore))
      ensures neighbours != [] && !improved && icounter + 1 != order ==>
        icounter2 == icounter + 1 && currentAccuracy == old(currentAccuracy) && currentSDFG == old(currentSDFG) &&
        currentModel == old(currentModel) && pending == old(pending) && restarts == old(restarts) && !stalled
      ensures neighbours != [] && !improved && icounter + 1 == order ==> icounter2 == 0
      ensures neighbours == [] ==> icounter2 == icounter && !improved
      ensures (neighbours == [] || (!improved && icounter + 1 == order)) ==>
        var i := FirstSettled(old(pending), true);
        stalled == (i == |old(pending)|) &&
        restarts == old(restarts) + (if stalled then i else i + 1) &&
        (!stalled && old(pending)[i].Finished? ==> currentSDFG == Some(old(pending)[i].graph) &&
                                                   currentAccuracy == old(pending)[i].result.acc) &&
        (!stalled && old(pending)[i].NoGraph? ==> currentSDFG == None)
      ensures bestSDFG == old(bestSDFG) && bestModel == old(bestModel) && bestFitness == old(bestFitness) &&
              bestPrecision == old(bestPrecision) && bestScores == old(bestScores) && hits == old(hits) &&
              noImprovementCounter == old(noImprovementCounter)
    {
      neighbours := Neighbourhood(currentAccuracy, currentSDFG.value, input, neighbourhood);
      if neighbours == [] {
        stalled := Restart();
        return icounter, neighbours, false, stalled;
      }
      var outcomes := OutcomesFor(neighbours, input);
      var acc, graph, model;
      acc, graph, model, improved := Accept(currentAccuracy, currentSDFG.value, currentModel.value, neighbours, outcomes);
      currentAccuracy, currentSDFG, currentModel := acc, Some(graph), Some(model);
      icounter2, stalled := if improved then 0 else icounter, false;
      if !improved {
        icounter2 := icounter + 1;
        if icounter2 == order {
          icounter2 := 0;
          stalled := Restart();
        }
      }
    }

    /** One pass of the main loop's body: the head, the raise of the order once the
        search has stalled for `MAX_ITERATIONS_BEFORE_RAISE` rounds below `MAX_K`, and the
        round. A re-evaluation that times out throws; the handler restarts and the pass
        ends without counting an iteration. */
    method Iteration(input: RoundInput<G, M>, order: int, neighbourhood: nat, icounter: int, iterations: nat)
      returns (order2: int, icounter2: int, counted: bool, stalled: bool)
      requires Valid() && currentSDFG.Some? && bestSDFG.Some?
      modifies this
      ensures Valid() && (bestSDFG.Some? || currentSDFG.None?)
      ensures |bestScores| <= old(|bestScores|) + 1 && bestScores[0] == old(bestScores[0]) && hits[0] == old(hits[0])
      ensures var raise := old(currentAccuracy.fscore) <= old(bestScores[|bestScores| - 1]) &&
                           old(noImprovementCounter) + 1 >= MAX_ITERATIONS_BEFORE_RAISE && order < MAX_K;
        order2 == (if raise then order + 1 else order)
      ensures !counted ==> order2 == order + 1 && input.reevaluation.None? && |bestScores| == old(|bestScores|)
    {
      Record(iterations);
      order2, icounter2, counted := order, icounter, true;
      if noImprovementCounter >= MAX_ITERATIONS_BEFORE_RAISE && order < MAX_K {
        order2 := order + 1;
        if input.reevaluation.None? {
          stalled := Restart();
          return order2, icounter2, false, stalled;
        }
        Reevaluate(input.reevaluation.value);
      }
      var neighbours, improved;
      icounter2, neighbours, improved, stalled := Round(input, order2, neighbourhood, icounter);
    }

    /** `searchOptimalSolution` / `searchOptimalTree`: restart, record the start as the
        first best, then run rounds while the time lasts (one element of `rounds` per
        round), fewer than `maxit` iterations have run and there is a current graph. A
        round whose re-evaluation at a raised order times out ends in the exception
        handler, which restarts, without counting an iteration. The result is the best
        model recorded and the order reached. The search also ends when the answers for
        a retry loop run out, where the original keeps retrying. */
    method SearchOptimalSolution(order: int, maxit: int, neighbourhood: nat, rounds: seq<RoundInput<G, M>>)
      returns (best: Option<M>, iterations: nat, finalOrder: int)
      requires currentSDFG.Some? ==> currentModel.Some?
      modifies this
      ensures Valid()
      ensures best == bestModel
      ensures iterations <= |rounds| && (iterations <= maxit || iterations == 0)
      ensures |bestScores| <= iterations + 1
      ensures order <= finalOrder && (finalOrder <= MAX_K || finalOrder == order)
      ensures var i := old(FirstSettled(pending, true));
        i < |old(pending)| && old(pending)[i].Finished? ==> bestScores[0] == old(pending)[i].result.acc.fscore && hits[0] == 0
    {
      restarts := 0;
      iterations := 0;
      finalOrder := order;
      var icounter := 0;
      var stalled := Restart();
      bestFitness, bestPrecision, bestScores := [currentAccuracy.fitness], [currentAccuracy.precision], [currentAccuracy.fscore];
      hits := [0];
      bestSDFG, bestModel := currentSDFG, currentModel;
      ghost var first := currentAccuracy.fscore;
      var r := 0;
      while r < |rounds| && iterations < maxit && currentSDFG.Some? && !stalled
        invariant Valid() && iterations <= r <= |rounds| && (iterations <= maxit || iterations == 0)
        invariant |bestScores| <= iterations + 1
        invariant bestScores[0] == first && hits[0] == 0
        invariant bestSDFG.Some? || currentSDFG.None?
        invariant order <= finalOrder && (finalOrder <= MAX_K || finalOrder == order)
        decreases |rounds| - r
      {
        var counted;
        finalOrder, icounter, counted, stalled := Iteration(rounds[r], finalOrder, neighbourhood, icounter, iterations);
        r := r + 1;
        if counted {
          iterations := iterations + 1;
        }
      }
      best := bestModel;
    }
  }
}
