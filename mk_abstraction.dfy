/**
 * `MarkovianAutomatonAbstraction`: the object that holds the activity-to-character
 * mappings and the Mk automaton of a process tree. Its two label mappings run over the
 * tree's activity table; its constructors fill a mapping and then compile the tree.
 */
module Abstraction {
  import opened Wrappers
  import opened Automata
  import opened Labels
  import Compile

  /** The parts of an EfficientTree the abstraction reads: the activity names by index
      (null for an unused index), the reverse table, and the root node. */
  datatype EfficientTree = EfficientTree(int2activity: seq<Option<string>>, activity2int: map<string, int>, root: Compile.Tree)

  /** The reverse table of the tree maps every name back to its index. */
  ghost predicate Indexed(tree: EfficientTree) {
    forall i :: 0 <= i < |tree.int2activity| && tree.int2activity[i].Some? ==>
      tree.int2activity[i].value in tree.activity2int && tree.activity2int[tree.int2activity[i].value] == i
  }

  // One round of initializeLabelMapping's loop

  lemma InitializeTake(acts: seq<Option<string>>, i: nat, ids: map<int, Sym>, chars: map<Sym, int>)
    requires i < |acts| && acts[i].Some? && InitializedUpTo(acts, i, ids, chars)
    ensures i !in ids
    ensures InitializedUpTo(acts, i + 1, ids[i := CharAt(Named(acts[..i]))], chars[CharAt(Named(acts[..i])) := i])
  {
    var c := CharAt(Named(acts[..i]));
    var ids2, chars2 := ids[i := c], chars[c := i];
    forall j | j in ids2 ensures ids2[j] in chars2 && j <= chars2[ids2[j]] {
      if j != i && ids[j] != c {
        assert chars2[ids2[j]] == chars[ids[j]];
      }
    }
  }

  lemma InitializeSkip(acts: seq<Option<string>>, i: nat, ids: map<int, Sym>, chars: map<Sym, int>)
    requires i < |acts| && acts[i].None? && InitializedUpTo(acts, i, ids, chars)
    ensures InitializedUpTo(acts, i + 1, ids, chars)
  {
  }

  // One round of matchIDsTree's loop

  lemma MatchTake(acts: seq<Option<string>>, logIds: map<string, int>, tid: nat, ids: map<int, Sym>, chars: map<Sym, int>, next: Sym)
    requires tid < |acts| && Hit(acts, logIds, tid) && MatchedUpTo(acts, logIds, tid, ids, chars)
    requires next == CharAt(Min(Hits(acts[..tid], logIds), CHARS)) && next !in chars
    ensures tid !in ids
    ensures MatchedUpTo(acts, logIds, tid + 1, ids[tid := next], chars[next := logIds[acts[tid].value]])
    ensures Next(next) == CharAt(Min(Hits(acts[..tid + 1], logIds), CHARS))
  {
    var n := Hits(acts[..tid], logIds);
    HandedAgain(n);
    HandedStep(n);
    HitsStep(acts, logIds, tid);
    NextCharAt(n);
    var ids2, chars2 := ids[tid := next], chars[next := logIds[acts[tid].value]];
    forall x | x in ids2 ensures ids2[x] == CharAt(Hits(acts[..x], logIds)) && ids2[x] in chars2 &&
                                 chars2[ids2[x]] == logIds[acts[x].value] {
      if x != tid {
        assert ids[x] in chars;
      }
    }
  }

  lemma MatchSkip(acts: seq<Option<string>>, logIds: map<string, int>, tid: nat, ids: map<int, Sym>, chars: map<Sym, int>)
    requires tid < |acts| && MatchedUpTo(acts, logIds, tid, ids, chars)
    requires !Hit(acts, logIds, tid) || CharAt(Min(Hits(acts[..tid], logIds), CHARS)) in chars
    ensures MatchedUpTo(acts, logIds, tid + 1, ids, chars)
    ensures CharAt(Min(Hits(acts[..tid], logIds), CHARS)) == CharAt(Min(Hits(acts[..tid + 1], logIds), CHARS))
  {
    var n := Hits(acts[..tid], logIds);
    HandedAgain(n);
    HandedStep(n);
    HitsStep(acts, logIds, tid);
  }

  /** After the loop, '-' goes to the artificial marker unless a matched name took it. */
  lemma MatchFinish(acts: seq<Option<string>>, logIds: map<string, int>, ids: map<int, Sym>, chars: map<Sym, int>)
    requires MatchedUpTo(acts, logIds, |acts|, ids, chars)
    ensures MINUS in chars ==> Matched(acts, logIds, ids, chars)
    ensures MINUS !in chars ==> Matched(acts, logIds, ids[ARTIFICIAL_MARKER := MINUS], chars[MINUS := ARTIFICIAL_MARKER])
  {
    assert acts[..|acts|] == acts;
    var n := Hits(acts, logIds);
    if MINUS !in chars {
      var ids2, chars2 := ids[ARTIFICIAL_MARKER := MINUS], chars[MINUS := ARTIFICIAL_MARKER];
      forall x | x in ids2 && x != ARTIFICIAL_MARKER
        ensures ids2[x] == CharAt(Hits(acts[..x], logIds)) && ids2[x] in chars2 && chars2[ids2[x]] == logIds[acts[x].value]
      {
        assert ids[x] in chars;
      }
    }
  }

  class MarkovianAutomatonAbstraction {
    var idsToChar: map<int, Sym>
    var charToIds: map<Sym, int>
    /** Null until a constructor compiles the tree. */
    var automaton: Option<Automaton>

    /** The field initialisers: two empty maps and no automaton. */
    constructor Empty()
      ensures idsToChar == map[] && charToIds == map[] && automaton == None
    {
      idsToChar := map[];
      charToIds := map[];
      automaton := None;
    }

    /** `initializeLabelMapping(tree)`: every non-null activity name gets the next
        character, in index order. */
    method InitializeLabelMapping(acts: seq<Option<string>>)
      modifies this
      ensures Initialized(acts, idsToChar, charToIds)
      ensures automaton == old(automaton)
    {
      var ids: map<int, Sym> := map[];
      var chars: map<Sym, int> := map[];
      var next := LETTER_A;
      for i := 0 to |acts|
        invariant InitializedUpTo(acts, i, ids, chars)
        invariant next == CharAt(Named(acts[..i]))
        modifies {}
      {
        NamedStep(acts, i);
        if acts[i].Some? && i !in ids {
          InitializeTake(acts, i, ids, chars);
          NextCharAt(Named(acts[..i]));
          var c := next;
          next := Next(next);
          ids := ids[i := c];
          chars := chars[c := i];
        } else {
          InitializeSkip(acts, i, ids, chars);
        }
      }
      idsToChar, charToIds := ids, chars;
    }

    /** `matchIDsTree(tree, log)`: the tree's names that the log knows get the next
        character, which maps to the log's id of the name; the counter stops once it
        reaches a character in use. The end marker '-' then maps to `artificialMarker`
        unless it is in use. */
    method MatchIDsTree(tree: EfficientTree, logIds: map<string, int>)
      requires Indexed(tree)
      modifies this
      ensures Matched(tree.int2activity, logIds, idsToChar, charToIds)
      ensures automaton == old(automaton)
    {
      var chars: map<Sym, int> := map[];
      var ids: map<int, Sym> := map[];
      var next := LETTER_A;
      var acts := tree.int2activity;
      for tid := 0 to |acts|
        invariant MatchedUpTo(acts, logIds, tid, ids, chars)
        invariant next == CharAt(Min(Hits(acts[..tid], logIds), CHARS))
        modifies {}
      {
        var name := acts[tid];
        if name.Some? && name.value in logIds && next !in chars {
          MatchTake(acts, logIds, tid, ids, chars, next);
          var id := tree.activity2int[name.value];
          assert id == tid;
          chars := chars[next := logIds[name.value]];
          ids := ids[id := next];
          next := Next(next);
        } else {
          MatchSkip(acts, logIds, tid, ids, chars);
        }
      }
      MatchFinish(acts, logIds, ids, chars);
      if MINUS !in chars {
        chars := chars[MINUS := ARTIFICIAL_MARKER];
        ids := ids[ARTIFICIAL_MARKER := MINUS];
      }
      idsToChar, charToIds := ids, chars;
    }

    /** `MarkovianAutomatonAbstraction(tree, k, log)`: the log-model constructor aligns the
        tree's activities with the log's, then compiles the tree; an exception of
        `computeMk` leaves no object. */
    static method FromLog(tree: EfficientTree, k: nat, logIds: map<string, int>) returns (r: Result<MarkovianAutomatonAbstraction>)
      requires Indexed(tree) && Compile.HasOperands(tree.root)
      ensures r.Ok? ==> fresh(r.value) && r.value.automaton.Some? && Valid(r.value.automaton.value)
      ensures r.Ok? ==> Matched(tree.int2activity, logIds, r.value.idsToChar, r.value.charToIds)
      ensures r.Ok? ==> forall w :: Accepts(r.value.automaton.value, w) ==> Compile.Bounded(k, w)
      ensures r.Err? ==> r.error in {NullPointer, NoSuchElement, UnsupportedOperation}
    {
      var x := new MarkovianAutomatonAbstraction.Empty();
      x.MatchIDsTree(tree, logIds);
      var m := Compile.ComputeMk(x.idsToChar, tree.root, k);
      if m.Err? {
        return Err(m.error);
      }
      x.automaton := Some(m.value);
      r := Ok(x);
    }

    /** `MarkovianAutomatonAbstraction(tree, k)`: the model-model constructor numbers the
        tree's own activities, then compiles the tree. */
    static method FromTree(tree: EfficientTree, k: nat) returns (r: Result<MarkovianAutomatonAbstraction>)
      requires Compile.HasOperands(tree.root)
      ensures r.Ok? ==> fresh(r.value) && r.value.automaton.Some? && Valid(r.value.automaton.value)
      ensures r.Ok? ==> Initialized(tree.int2activity, r.value.idsToChar, r.value.charToIds)
      ensures r.Ok? ==> forall w :: Accepts(r.value.automaton.value, w) ==> Compile.Bounded(k, w)
      ensures r.Err? ==> r.error in {NullPointer, NoSuchElement, UnsupportedOperation}
    {
      var x := new MarkovianAutomatonAbstraction.Empty();
      x.InitializeLabelMapping(tree.int2activity);
      var m := Compile.ComputeMk(x.idsToChar, tree.root, k);
      if m.Err? {
        return Err(m.error);
      }
      x.automaton := Some(m.value);
      r := Ok(x);
    }
  }
}
