/**
 * `IteratedLocalSearch`: hill climbing over directly-follows graphs. Each round records a
 * new best model when the current one beats it, explores a neighbourhood of the current
 * graph, moves to the best finished neighbour that is at least as good, and perturbs the
 * current graph when the neighbourhood is empty or after `order` rounds in a row without
 * a move. `searchOptimalSolution` (BPMN models) and `searchOptimalTree` (process trees)
 * differ only in the model type, which is the type parameter M here.
 */
module IteratedSearch {
  import opened Wrappers
  import opened LocalSearch

  class IteratedLocalSearch<G(!new), M> {
    var currentAccuracy: Accuracy
    var currentSDFG: Option<G>
    var currentModel: Option<M>
    var bestSDFG: Option<G>
    var bestModel: Option<M>
    var bestFitness: seq<real>
    var bestPrecision: seq<real>
    var bestScores: seq<real>
    var hits: seq<int>
    var perturbations: nat
    var noImprovementCounter: nat
    /** The answers the miner proxy and the evaluator will give to `start` and
        `perturb`, in order. */
    var pending: seq<Attempt<G, M>>

    /** The best lists grow together and the best F-scores strictly increase; a current
        graph always comes with its model. */
    ghost predicate Valid()
      reads this
    {
      |bestFitness| == |bestPrecision| == |bestScores| == |hits| >= 1 &&
      Increasing(bestScores) &&
      (currentSDFG.Some? ==> currentModel.Some?)
    }

    /** `new IteratedLocalSearch(proxy)`: nothing current and nothing best yet. */
    constructor (pending: seq<Attempt<G, M>>)
      ensures this.pending == pending
      ensures currentSDFG == None && currentModel == None && bestSDFG == None && bestModel == None
      ensures bestFitness == bestPrecision == bestScores == [] && hits == []
      ensures perturbations == 0 && noImprovementCounter == 0
    {
      currentAccuracy := Accuracy(0.0, 0.0, 0.0);
      currentSDFG, currentModel, bestSDFG, bestModel := None, None, None, None;
      bestFitness, bestPrecision, bestScores, hits := [], [], [], [];
      perturbations, noImprovementCounter := 0, 0;
      this.pending := pending;
    }

    /** `start`: restart the miner and evaluate, again and again until an evaluation
        finishes in time. A null graph makes `getBPMN` throw, which is one more retry. */
    method Start() returns (stalled: bool)
      modifies this
      ensures var i := FirstSettled(old(pending), false);
        stalled == (i == |old(pending)|) &&
        pending == (if stalled then [] else old(pending)[i + 1..]) &&
        (!stalled ==> currentAccuracy == old(pending)[i].result.acc &&
                      currentSDFG == Some(old(pending)[i].graph) &&
                      currentModel == Some(old(pending)[i].result.model)) &&
        (stalled ==> currentAccuracy == old(currentAccuracy) && currentSDFG == old(currentSDFG) &&
                     currentModel == old(currentModel))
      ensures bestSDFG == old(bestSDFG) && bestModel == old(bestModel) && bestFitness == old(bestFitness) &&
              bestPrecision == old(bestPrecision) && bestScores == old(bestScores) && hits == old(hits) &&
              perturbations == old(perturbations) && noImprovementCounter == old(noImprovementCounter)
    {
      ghost var i := FirstSettled(pending, false);
      var n := 0;
      while n < |pending| && !pending[n].Finished?
        invariant n <= i
        decreases |pending| - n
      {
        n := n + 1;
      }
      if n == |pending| {
        pending := [];
        return true;
      }
      var a := pending[n];
      currentAccuracy, currentSDFG, currentModel := a.result.acc, Some(a.graph), Some(a.result.model);
      pending := pending[n + 1..];
      stalled := false;
    }

    /** `perturb`: one perturbation of the current graph, counted whether or not it
        succeeds; a finished evaluation replaces the current accuracy, graph and model. */
    method Perturb() returns (done: bool)
      requires pending != []
      modifies this
      ensures pending == old(pending)[1..] && perturbations == old(perturbations) + 1
      ensures done == old(pending)[0].Finished?
      ensures done ==> currentAccuracy == old(pending)[0].result.acc &&
                       currentSDFG == Some(old(pending)[0].graph) &&
                       currentModel == Some(old(pending)[0].result.model)
      ensures !done ==> currentAccuracy == old(currentAccuracy) && currentSDFG == old(currentSDFG) &&
                        currentModel == old(currentModel)
      ensures bestSDFG == old(bestSDFG) && bestModel == old(bestModel) && bestFitness == old(bestFitness) &&
              bestPrecision == old(bestPrecision) && bestScores == old(bestScores) && hits == old(hits) &&
              noImprovementCounter == old(noImprovementCounter)
    {
      perturbations := perturbations + 1;
      var a := pending[0];
      pending := pending[1..];
      if a.Finished? {
        currentAccuracy, currentSDFG, currentModel := a.result.acc, Some(a.graph), Some(a.result.model);
        done := true;
      } else {
        done := false;
      }
    }

    /** `while (!perturb(slog, order)) ;`: perturb until one perturbation succeeds. */
    method PerturbUntilDone() returns (stalled: bool)
      modifies this
      ensures var i := FirstSettled(old(pending), false);
        stalled == (i == |old(pending)|) &&
        pending == (if stalled then [] else old(pending)[i + 1..]) &&
        perturbations == old(perturbations) + (if stalled then i else i + 1) &&
        (!stalled ==> currentAccuracy == old(pending)[i].result.acc &&
                      currentSDFG == Some(old(pending)[i].graph) &&
                      currentModel == Some(old(pending)[i].result.model)) &&
        (stalled ==> currentAccuracy == old(currentAccuracy) && currentSDFG == old(currentSDFG) &&
                     currentModel == old(currentModel))
      ensures bestSDFG == old(bestSDFG) && bestModel == old(bestModel) && bestFitness == old(bestFitness) &&
              bestPrecision == old(bestPrecision) && bestScores == old(bestScores) && hits == old(hits) &&
              noImprovementCounter == old(noImprovementCounter)
    {
      ghost var attempts := pending;
      ghost var i := FirstSettled(attempts, false);
      ghost var n := 0;
      while pending != []
        invariant n <= i && n <= |attempts| && pending == attempts[n..]
        invariant perturbations == old(perturbations) + n
        invariant currentAccuracy == old(currentAccuracy) && currentSDFG == old(currentSDFG) && currentModel == old(currentModel)
        invariant bestSDFG == old(bestSDFG) && bestModel == old(bestModel) && bestFitness == old(bestFitness) &&
                  bestPrecision == old(bestPrecision) && bestScores == old(bestScores) && hits == old(hits) &&
                  noImprovementCounter == old(noImprovementCounter)
        decreases |pending|
      {
        var done := Perturb();
        if done {
          return false;
        }
        n := n + 1;
      }
      return true;
    }

    /** The head of the loop: a current F-score above the last best one is recorded, with
        its iteration, and the current graph and model become the best ones. */
    method Record(iteration: int)
      requires Valid()
      modifies this
      ensures Valid()
      ensures var improved := currentAccuracy.fscore > old(bestScores[|bestScores| - 1]);
        (improved ==> bestFitness == old(bestFitness) + [currentAccuracy.fitness] &&
                      bestPrecision == old(bestPrecision) + [currentAccuracy.precision] &&
                      bestScores == old(bestScores) + [currentAccuracy.fscore] &&
                      hits == old(hits) + [iteration] &&
                      bestSDFG == currentSDFG && bestModel == currentModel && noImprovementCounter == 0) &&
        (!improved ==> bestFitness == old(bestFitness) && bestPrecision == old(bestPrecision) &&
                       bestScores == old(bestScores) && hits == old(hits) &&
                       bestSDFG == old(bestSDFG) && bestModel == old(bestModel) &&
                       noImprovementCounter == old(noImprovementCounter) + 1)
      ensures currentAccuracy == old(currentAccuracy) && currentSDFG == old(currentSDFG) &&
              currentModel == old(currentModel) && pending == old(pending) && perturbations == old(perturbations)
      ensures |bestScores| <= old(|bestScores|) + 1 && bestScores[0] == old(bestScores[0]) && hits[0] == old(hits[0])
    {
      if currentAccuracy.fscore > bestScores[|bestScores| - 1] {
        bestFitness := bestFitness + [currentAccuracy.fitness];
        bestPrecision := bestPrecision + [currentAccuracy.precision];
        bestScores := bestScores + [currentAccuracy.fscore];
        hits := hits + [iteration];
        bestSDFG, bestModel := currentSDFG, currentModel;
        noImprovementCounter := 0;
      } else {
        noImprovementCounter := noImprovementCounter + 1;
      }
    }

    /** The body of one round after the head: the neighbourhood, its evaluation, the move
        and the perturbation. `icounter` counts the rounds in a row without a move; it is
        not reset when the neighbourhood is empty. */
    method Round(input: RoundInput<G, M>, order: int, neighbourhood: nat, icounter: int)
      returns (icounter2: int, neighbours: seq<G>, improved: bool, stalled: bool)
      requires Valid() && currentSDFG.Some?
      modifies this
      ensures Valid()
      ensures |neighbours| <= neighbourhood
      ensures improved ==>
        neighbours != [] && icounter2 == 0 &&
        Reaches(OutcomesFor(neighbours, input), old(currentAccuracy.fscore)) &&
        currentAccuracy.fscore == Best(old(currentAccuracy.fscore), OutcomesFor(neighbours, input)) &&
        pending == old(pending) && perturbations == old(perturbations) && !stalled
      ensures neighbours != [] && !improved ==> !Reaches(OutcomesFor(neighbours, input), old(currentAccuracy.fscore))
      ensures neighbours != [] && !improved && icounter + 1 != order ==>
        icounter2 == icounter + 1 && currentAccuracy == old(currentAccuracy) && currentSDFG == old(currentSDFG) &&
        currentModel == old(currentModel) && pending == old(pending) && perturbations == old(perturbations) && !stalled
      ensures neighbours != [] && !improved && icounter + 1 == order ==> icounter2 == 0
      ensures neighbours == [] ==> icounter2 == icounter && !improved
      ensures (neighbours == [] || (!improved && icounter + 1 == order)) ==>
        var i := FirstSettled(old(pending), false);
        stalled == (i == |old(pending)|) &&
        perturbations == old(perturbations) + (if stalled then i else i + 1) &&
        (!stalled ==> currentSDFG == Some(old(pending)[i].graph) && currentAccuracy == old(pending)[i].result.acc)
      ensures bestSDFG == old(bestSDFG) && bestModel == old(bestModel) && bestFitness == old(bestFitness) &&
              bestPrecision == old(bestPrecision) && bestScores == old(bestScores) && hits == old(hits) &&
              noImprovementCounter == old(noImprovementCounter)
    {
      neighbours := Neighbourhood(currentAccuracy, currentSDFG.value, input, neighbourhood);
      if neighbours == [] {
        stalled := PerturbUntilDone();
        return icounter, neighbours, false, stalled;
      }
      var outcomes := OutcomesFor(neighbours, input);
      var acc, graph, model;
      acc, graph, model, improved := Accept(currentAccuracy, currentSDFG.value, currentModel.value, neighbours, outcomes);
      currentAccuracy, currentSDFG, currentModel := acc, Some(graph), Some(model);
      icounter2, stalled := if improved then 0 else icounter, false;
      if !improved {
        icounter2 := icounter + 1;
        if icounter2 == order {
          icounter2 := 0;
          stalled := PerturbUntilDone();
        }
      }
    }

    /** `searchOptimalSolution` / `searchOptimalTree`: start, record the start as the first
        best, then run rounds while the time lasts (one element of `rounds` per round),
        fewer than `maxit` rounds have run and there is a current graph. The result is the
        best model recorded. The search also ends when the answers for a retry loop run
        out, where the original keeps retrying. */
    method SearchOptimalSolution(order: int, maxit: int, neighbourhood: nat, rounds: seq<RoundInput<G, M>>)
      returns (best: Option<M>, iterations: nat)
      requires currentSDFG.Some? ==> currentModel.Some?
      modifies this
      ensures Valid()
      ensures best == bestModel
      ensures iterations <= |rounds| && (iterations <= maxit || iterations == 0)
      ensures |bestScores| <= iterations + 1
      ensures var i := old(FirstSettled(pending, false));
        i < |old(pending)| ==> bestScores[0] == old(pending)[i].result.acc.fscore && hits[0] == 0
    {
      perturbations := 0;
      iterations := 0;
      var icounter := 0;
      var stalled := Start();
      bestFitness, bestPrecision, bestScores := [currentAccuracy.fitness], [currentAccuracy.precision], [currentAccuracy.fscore];
      hits := [0];
      bestSDFG, bestModel := currentSDFG, currentModel;
      ghost var first := currentAccuracy.fscore;
      while iterations < |rounds| && iterations < maxit && currentSDFG.Some? && !stalled
        invariant Valid() && iterations <= |rounds| && (iterations <= maxit || iterations == 0)
        invariant |bestScores| <= iterations + 1
        invariant bestScores[0] == first && hits[0] == 0
        decreases |rounds| - iterations
      {
        Record(iterations);
        var input := rounds[iterations];
        iterations := iterations + 1;
        var neighbours, improved;
        icounter, neighbours, improved, stalled := Round(input, order, neighbourhood, icounter);
      }
      best := bestModel;
    }
  }
}
