/**
 * `MarkovianBasedEvaluator.call`: score one model against the log's k-order abstraction.
 * The model's behaviour is abstracted (from the tree's Mk automaton when a tree is set,
 * else from the BPMN diagram), the listed differences are removed from it, and fitness,
 * precision and their F-score are computed. Every exception or error ends in an all-zero
 * score. The abstraction builders and the two measures belong to classes outside this
 * model and are given as their answers.
 */
module Evaluator {
  import opened Wrappers

  /** An entry of the `Object[]` that `call` returns. */
  datatype Slot<S, T, B> = Real(value: real) | Process(abstraction: S) | TreeModel(tree: T) | BpmnModel(bpmn: B) | Elapsed(ms: int) | Null

  /** The F-score of a fitness and a precision: their harmonic mean, and 0 when both are 0. */
  function FScore(fitness: real, precision: real): (r: real)
    ensures fitness + precision == 0.0 ==> r == 0.0
    ensures fitness + precision != 0.0 ==> r * (fitness + precision) == 2.0 * fitness * precision
  {
    if fitness + precision == 0.0 then 0.0 else (2.0 * fitness * precision) / (fitness + precision)
  }

  /** The F-score does not depend on which measure comes first. */
  lemma FScoreSymmetric(f: real, p: real)
    ensures FScore(f, p) == FScore(p, f)
  {
    assert f + p == p + f && 2.0 * f * p == 2.0 * p * f;
  }

  lemma ProductNonNegative(a: real, b: real)
    requires 0.0 <= a && 0.0 <= b
    ensures 0.0 <= a * b
  {
  }

  lemma CancelPositive(a: real, b: real, s: real)
    requires 0.0 < s && a * s <= b * s
    ensures a <= b
  {
    assert (b - a) * s == b * s - a * s;
  }

  /** For non-negative measures the F-score lies between the smaller and the larger. */
  lemma FScoreBetween(f: real, p: real)
    requires 0.0 <= f && 0.0 <= p
    ensures (if f <= p then f else p) <= FScore(f, p) <= (if f <= p then p else f)
  {
    if f + p != 0.0 {
      var r := FScore(f, p);
      var lo, hi := if f <= p then f else p, if f <= p then p else f;
      assert lo * (f + p) <= 2.0 * f * p by {
        assert lo * (f + p) == 2.0 * f * p - (hi - lo) * lo;
        ProductNonNegative(hi - lo, lo);
      }
      assert 2.0 * f * p <= hi * (f + p) by {
        assert hi * (f + p) == 2.0 * f * p + (hi - lo) * hi;
        ProductNonNegative(hi - lo, hi);
      }
      var s := f + p;
      assert r * s == 2.0 * f * p;
      assert lo * s <= r * s && r * s <= hi * s;
      CancelPositive(lo, r, s);
      CancelPositive(r, hi, s);
    }
  }

  /** Measures in [0, 1] give an F-score in [0, 1]; two perfect measures give 1. */
  lemma FScoreUnit(f: real, p: real)
    requires 0.0 <= f <= 1.0 && 0.0 <= p <= 1.0
    ensures 0.0 <= FScore(f, p) <= 1.0
    ensures f == 1.0 && p == 1.0 ==> FScore(f, p) == 1.0
  {
    FScoreBetween(f, p);
  }

  /** For non-negative measures the F-score is 0 exactly when one of them is 0. */
  lemma FScoreZero(f: real, p: real)
    requires 0.0 <= f && 0.0 <= p
    ensures FScore(f, p) == 0.0 <==> f == 0.0 || p == 0.0
  {
    if f + p != 0.0 && FScore(f, p) == 0.0 {
      assert 2.0 * f * p == 0.0;
    }
  }

  /** The abstraction of the process behaviour: the tree wins over the BPMN diagram, and
      with neither the evaluator throws an IllegalStateException. Err when the builder
      throws; None when it returns null. */
  function Behaviour<S, T, B>(tree: Option<T>, bpmn: Option<B>, ofTree: Result<Option<S>>, ofBpmn: Result<Option<S>>): (r: Result<Option<S>>)
    ensures tree.Some? ==> r == ofTree
    ensures tree.None? && bpmn.Some? ==> r == ofBpmn
    ensures tree.None? && bpmn.None? ==> r == Err(IllegalState)
  {
    if tree.Some? then ofTree else if bpmn.Some? then ofBpmn else Err(IllegalState)
  }

  /** `results[4]`: the tree when one is set, otherwise the BPMN diagram (possibly null). */
  function ModelSlot<S, T, B>(tree: Option<T>, bpmn: Option<B>): (slot: Slot<S, T, B>)
    ensures slot.TreeModel? <==> tree.Some?
    ensures slot.TreeModel? ==> slot.tree == tree.value
    ensures slot.BpmnModel? ==> bpmn.Some? && slot.bpmn == bpmn.value
    ensures slot == Null <==> tree.None? && bpmn.None?
  {
    if tree.Some? then TreeModel(tree.value) else if bpmn.Some? then BpmnModel(bpmn.value) else Null
  }

  /** The abstraction after `removeUnusedSubtraces` of each difference, in order. */
  function Removed<S>(s: S, differences: seq<string>, remove: (S, string) -> S): S {
    if differences == [] then s
    else remove(Removed(s, differences[..|differences| - 1], remove), differences[|differences| - 1])
  }

  /** The abstraction once every difference is removed: removing a difference from a
      null abstraction throws a NullPointerException. */
  function Processed<S>(behaviour: Result<Option<S>>, differences: Option<seq<string>>, remove: (S, string) -> S): (r: Result<Option<S>>)
    ensures behaviour.Err? ==> r == behaviour
    ensures behaviour.Ok? && behaviour.value.Some? ==> r.Ok? && r.value.Some?
  {
    if behaviour.Err? then behaviour
    else
      var diffs := if differences.Some? then differences.value else [];
      if behaviour.value.None? then (if diffs == [] then Ok(None) else Err(NullPointer))
      else Ok(Some(Removed(behaviour.value.value, diffs, remove)))
  }

  /** The array `call` returns. */
  function Evaluation<S, T, B>(tree: Option<T>, bpmn: Option<B>, differences: Option<seq<string>>,
                               ofTree: Result<Option<S>>, ofBpmn: Result<Option<S>>, remove: (S, string) -> S,
                               fitnessOf: S -> real, precisionOf: S -> real, elapsed: int): seq<Slot<S, T, B>>
  {
    var processed := Processed(Behaviour(tree, bpmn, ofTree, ofBpmn), differences, remove);
    if processed.Err? then [Real(0.0), Real(0.0), Real(0.0), Null, ModelSlot(tree, bpmn), Elapsed(elapsed)]
    else if processed.value.None? then [Real(0.0), Real(0.0), Real(0.0), Null, ModelSlot(tree, bpmn)]
    else
      var s := processed.value.value;
      var f, p := fitnessOf(s), precisionOf(s);
      [Real(f), Real(p), Real(FScore(f, p)), Process(s), ModelSlot(tree, bpmn), Elapsed(elapsed)]
  }

  /** Whatever happens, the result holds three scores in the first three slots, the
      model in slot 4, and the third score is the F-score of the first two. An exception
      or a null abstraction zeroes the scores; only a null abstraction with no
      differences to remove leaves out the elapsed time. With neither a tree nor a
      BPMN diagram nothing is scored. */
  lemma EvaluationShape<S, T, B>(tree: Option<T>, bpmn: Option<B>, differences: Option<seq<string>>,
                                 ofTree: Result<Option<S>>, ofBpmn: Result<Option<S>>, remove: (S, string) -> S,
                                 fitnessOf: S -> real, precisionOf: S -> real, elapsed: int)
    ensures var r := Evaluation(tree, bpmn, differences, ofTree, ofBpmn, remove, fitnessOf, precisionOf, elapsed);
      var behaviour := Behaviour(tree, bpmn, ofTree, ofBpmn);
      (|r| == 5 <==> behaviour == Ok(None) && (differences.None? || differences.value == [])) &&
      (|r| == 5 || |r| == 6) && (|r| == 6 ==> r[5] == Elapsed(elapsed)) &&
      r[0].Real? && r[1].Real? && r[2] == Real(FScore(r[0].value, r[1].value)) &&
      r[4] == ModelSlot(tree, bpmn) &&
      (r[3] == Null <==> !(behaviour.Ok? && behaviour.value.Some?)) &&
      (r[3] == Null ==> r[0] == r[1] == r[2] == Real(0.0)) &&
      (tree.None? && bpmn.None? ==> r == [Real(0.0), Real(0.0), Real(0.0), Null, Null, Elapsed(elapsed)])
  {
  }

  /** The loop over the differences of `call`. */
  method RemoveDifferences<S>(behaviour: Result<Option<S>>, differences: Option<seq<string>>, remove: (S, string) -> S)
    returns (r: Result<Option<S>>)
    ensures r == Processed(behaviour, differences, remove)
  {
    if behaviour.Err? || differences.None? {
      return behaviour;
    }
    var diffs := differences.value;
    var staProcess := behaviour.value;
    for i := 0 to |diffs|
      invariant staProcess.None? <==> behaviour.value.None?
      invariant staProcess.None? ==> i == 0
      invariant staProcess.Some? ==> staProcess == Some(Removed(behaviour.value.value, diffs[..i], remove))
    {
      if staProcess.None? {
        return Err(NullPointer);
      }
      assert diffs[..i + 1][..i] == diffs[..i];
      staProcess := Some(remove(staProcess.value, diffs[i]));
    }
    assert diffs[..|diffs|] == diffs;
    r := Ok(staProcess);
  }

  /** `call()`. The clock readings are given as the elapsed time. */
  method Call<S, T, B>(tree: Option<T>, bpmn: Option<B>, differences: Option<seq<string>>,
                       ofTree: Result<Option<S>>, ofBpmn: Result<Option<S>>, remove: (S, string) -> S,
                       fitnessOf: S -> real, precisionOf: S -> real, elapsed: int)
    returns (results: array<Slot<S, T, B>>)
    ensures fresh(results)
    ensures results[..] == Evaluation(tree, bpmn, differences, ofTree, ofBpmn, remove, fitnessOf, precisionOf, elapsed)
  {
    var staProcess := RemoveDifferences(Behaviour(tree, bpmn, ofTree, ofBpmn), differences, remove);
    if staProcess.Ok? && staProcess.value.None? {
      results := new Slot<S, T, B>[5](_ => Null);
      results[0], results[1], results[2], results[3], results[4] := Real(0.0), Real(0.0), Real(0.0), Null, ModelSlot(tree, bpmn);
      return;
    }
    results := new Slot<S, T, B>[6](_ => Null);
    if staProcess.Err? {
      results[0], results[1], results[2] := Real(0.0), Real(0.0), Real(0.0);
      results[3] := Null;
    } else {
      var fitness := fitnessOf(staProcess.value.value);
      var precision := precisionOf(staProcess.value.value);
      results[0], results[1], results[2] := Real(fitness), Real(precision), Real(FScore(fitness, precision));
      results[3] := Process(staProcess.value.value);
    }
    results[4] := ModelSlot(tree, bpmn);
    results[5] := Elapsed(elapsed);
  }
}
