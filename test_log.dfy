/**
 * `createDummySimpleLog` of `MkAbstractionTest`: the visible transitions of a Petri net
 * get activity ids 1, 2, 3, ... in the order their labels are first seen, recorded in the
 * two static maps `label2id` and `id2label`, which every later call shares.
 */
module LabelIds {
  /** A transition of the Petri net: its label and whether it is invisible. */
  datatype Transition = Transition(name: string, invisible: bool)

  /** The log handed to the reference abstraction: no traces, and the two maps. */
  datatype SimpleLog = SimpleLog(traces: map<string, int>, events: map<int, string>, reverse: map<string, int>)

  /** The labels of the visible transitions, in order. */
  function Visible(ts: seq<Transition>): (labels: seq<string>)
    ensures |labels| <= |ts|
    ensures forall l :: l in labels <==> exists i :: 0 <= i < |ts| && !ts[i].invisible && ts[i].name == l
  {
    if ts == [] then []
    else
      var rest := Visible(ts[1..]);
      assert forall i :: 1 <= i < |ts| ==> ts[i] == ts[1..][i - 1];
      if ts[0].invisible then rest else [ts[0].name] + rest
  }

  /** The labels not yet known, each once, in the order they are first seen. */
  function Fresh(labels: seq<string>, known: set<string>): (novel: seq<string>)
    ensures forall l :: l in novel <==> l in labels && l !in known
    ensures forall i, j :: 0 <= i < j < |novel| ==> novel[i] != novel[j]
  {
    if labels == [] then []
    else if labels[0] in known then Fresh(labels[1..], known)
    else [labels[0]] + Fresh(labels[1..], known + {labels[0]})
  }

  /** The maps after registering `labels` with ids counted up from `id`, and the counter
      after them. */
  function Assign(label2id: map<string, int>, id2label: map<int, string>, labels: seq<string>, id: int)
    : (r: (map<string, int>, map<int, string>, int))
    decreases |labels|
  {
    if labels == [] then (label2id, id2label, id)
    else if labels[0] in label2id then Assign(label2id, id2label, labels[1..], id)
    else Assign(label2id[labels[0] := id], id2label[id := labels[0]], labels[1..], id + 1)
  }

  /** Registering counts the counter up by the number of new labels and adds exactly them
      to `label2id`, leaving every known label's id alone. */
  lemma {:induction false} AssignLabels(label2id: map<string, int>, id2label: map<int, string>, labels: seq<string>, id: int)
    decreases |labels|
    ensures var (l2i, _, next) := Assign(label2id, id2label, labels, id);
      var novel := Fresh(labels, label2id.Keys);
      next == id + |novel| &&
      l2i.Keys == label2id.Keys + (set l | l in novel) &&
      (forall l :: l in label2id ==> l2i[l] == label2id[l])
  {
    if labels != [] {
      if labels[0] in label2id {
        AssignLabels(label2id, id2label, labels[1..], id);
      } else {
        var l := labels[0];
        AssignLabels(label2id[l := id], id2label[id := l], labels[1..], id + 1);
        assert label2id[l := id].Keys == label2id.Keys + {l};
        var novel := Fresh(labels, label2id.Keys);
        assert novel == [l] + Fresh(labels[1..], label2id.Keys + {l});
      }
    }
  }

  /** Registering gives the i-th new label the id `id + i` in both maps. */
  lemma {:induction false} AssignNovel(label2id: map<string, int>, id2label: map<int, string>, labels: seq<string>, id: int)
    decreases |labels|
    ensures var (l2i, i2l, _) := Assign(label2id, id2label, labels, id);
      var novel := Fresh(labels, label2id.Keys);
      forall i :: 0 <= i < |novel| ==>
        novel[i] in l2i && l2i[novel[i]] == id + i && id + i in i2l && i2l[id + i] == novel[i]
  {
    if labels != [] {
      var (l2i, i2l, _) := Assign(label2id, id2label, labels, id);
      var novel := Fresh(labels, label2id.Keys);
      if labels[0] in label2id {
        AssignNovel(label2id, id2label, labels[1..], id);
        AssignSkip(label2id, id2label, labels, id);
      } else {
        var l := labels[0];
        var l2i1, i2l1 := label2id[l := id], id2label[id := l];
        var rest := Fresh(labels[1..], label2id.Keys + {l});
        AssignNovel(l2i1, i2l1, labels[1..], id + 1);
        AssignLabels(l2i1, i2l1, labels[1..], id + 1);
        AssignIds(l2i1, i2l1, labels[1..], id + 1);
        assert l2i1.Keys == label2id.Keys + {l};
        assert novel == [l] + rest;
        forall i | 0 <= i < |novel|
          ensures novel[i] in l2i && l2i[novel[i]] == id + i && id + i in i2l && i2l[id + i] == novel[i]
        {
          if i > 0 {
            assert novel[i] == rest[i - 1];
          }
        }
      }
    }
  }

  /** A label already known is skipped. */
  lemma AssignSkip(label2id: map<string, int>, id2label: map<int, string>, labels: seq<string>, id: int)
    requires labels != [] && labels[0] in label2id
    ensures Assign(label2id, id2label, labels, id) == Assign(label2id, id2label, labels[1..], id)
    ensures Fresh(labels, label2id.Keys) == Fresh(labels[1..], label2id.Keys)
  {
  }

  /** Registering writes the ids from `id` up to the new counter into `id2label`, whatever
      it held for them, and leaves its other entries alone. */
  lemma {:induction false} AssignIds(label2id: map<string, int>, id2label: map<int, string>, labels: seq<string>, id: int)
    decreases |labels|
    ensures var (_, i2l, next) := Assign(label2id, id2label, labels, id);
      id <= next &&
      (forall k :: k in i2l <==> k in id2label || id <= k < next) &&
      (forall k :: k in id2label && !(id <= k < next) ==> i2l[k] == id2label[k])
  {
    if labels != [] {
      if labels[0] in label2id {
        AssignIds(label2id, id2label, labels[1..], id);
      } else {
        AssignIds(label2id[labels[0] := id], id2label[id := labels[0]], labels[1..], id + 1);
      }
    }
  }

  /** Registering gives the new labels consecutive ids from `id` on, in the order they are
      first seen, leaves every known label's id alone, and writes the new ids into
      `id2label` whatever it held for them. */
  lemma AssignSpec(label2id: map<string, int>, id2label: map<int, string>, labels: seq<string>, id: int)
    ensures var (l2i, i2l, next) := Assign(label2id, id2label, labels, id);
      var novel := Fresh(labels, label2id.Keys);
      next == id + |novel| &&
      l2i.Keys == label2id.Keys + (set l | l in novel) &&
      (forall l :: l in label2id ==> l2i[l] == label2id[l]) &&
      (forall i :: 0 <= i < |novel| ==> l2i[novel[i]] == id + i && id + i in i2l && i2l[id + i] == novel[i]) &&
      (forall k :: k in i2l <==> k in id2label || id <= k < next) &&
      (forall k :: k in id2label && !(id <= k < next) ==> i2l[k] == id2label[k])
  {
    AssignLabels(label2id, id2label, labels, id);
    AssignNovel(label2id, id2label, labels, id);
    AssignIds(label2id, id2label, labels, id);
  }

  /** The two maps are inverse bijections between the registered labels and the ids
      1 .. next - 1. */
  ghost predicate Numbered(label2id: map<string, int>, id2label: map<int, string>, next: int) {
    next >= 1 &&
    (forall l :: l in label2id ==> 1 <= label2id[l] < next && label2id[l] in id2label && id2label[label2id[l]] == l) &&
    (forall k :: k in id2label <==> 1 <= k < next) &&
    (forall k :: k in id2label ==> id2label[k] in label2id && label2id[id2label[k]] == k)
  }

  /** Counting on from the next unused id keeps the maps inverse. */
  lemma AssignNumbered(label2id: map<string, int>, id2label: map<int, string>, labels: seq<string>, next: int)
    requires Numbered(label2id, id2label, next)
    ensures var (l2i, i2l, next2) := Assign(label2id, id2label, labels, next);
      Numbered(l2i, i2l, next2)
  {
    AssignSpec(label2id, id2label, labels, next);
    var (l2i, i2l, next2) := Assign(label2id, id2label, labels, next);
    var novel := Fresh(labels, label2id.Keys);
    forall k | k in i2l ensures i2l[k] in l2i && l2i[i2l[k]] == k {
      if k < next {
        assert i2l[k] == id2label[k];
      } else {
        assert i2l[k] == novel[k - next];
      }
    }
    forall l | l in l2i ensures 1 <= l2i[l] < next2 && l2i[l] in i2l && i2l[l2i[l]] == l {
      if l !in label2id {
        var i :| 0 <= i < |novel| && novel[i] == l;
      }
    }
  }

  /** A novel start registers the labels as 1, 2, 3, ... in first-seen order, with inverse
      maps. */
  lemma AssignFromEmpty(labels: seq<string>)
    ensures var (l2i, i2l, next) := Assign(map[], map[], labels, 1);
      var novel := Fresh(labels, {});
      (forall l :: l in l2i <==> l in labels) &&
      Numbered(l2i, i2l, next) && next == |novel| + 1 &&
      (forall i :: 0 <= i < |novel| ==> novel[i] in l2i && l2i[novel[i]] == i + 1 && i + 1 in i2l && i2l[i + 1] == novel[i])
  {
    var empty: map<string, int> := map[];
    assert empty.Keys == {};
    AssignSpec(empty, map[], labels, 1);
    AssignNumbered(map[], map[], labels, 1);
  }

  /** The static maps, and the counter the corrected registration keeps beside them. */
  class Registry {
    var label2id: map<string, int>
    var id2label: map<int, string>
    var nextId: int

    ghost predicate Valid()
      reads this
    {
      Numbered(label2id, id2label, nextId)
    }

    constructor ()
      ensures Valid() && label2id == map[] && id2label == map[] && nextId == 1
    {
      label2id, id2label, nextId := map[], map[], 1;
    }

    /** `createDummySimpleLog(net)` as written: the id counter starts at 1 on every call,
        although the maps keep the labels of earlier calls. */
    method CreateDummySimpleLog(transitions: seq<Transition>) returns (log: SimpleLog)
      modifies this
      ensures (label2id, id2label) == (Assign(old(label2id), old(id2label), Visible(transitions), 1).0,
                                       Assign(old(label2id), old(id2label), Visible(transitions), 1).1)
      ensures nextId == old(nextId)
      ensures log == SimpleLog(map[], id2label, label2id)
    {
      var id := 1;
      ghost var l2i0, i2l0 := label2id, id2label;
      for i := 0 to |transitions|
        invariant Assign(l2i0, i2l0, Visible(transitions), 1) ==
                  Assign(label2id, id2label, Visible(transitions[i..]), id)
        invariant nextId == old(nextId)
      {
        var t := transitions[i];
        assert transitions[i..][1..] == transitions[i + 1..];
        if !t.invisible {
          var name := t.name;
          if name !in label2id {
            label2id := label2id[name := id];
            id2label := id2label[id := name];
            id := id + 1;
          }
        }
      }
      assert transitions[|transitions|..] == [];
      log := SimpleLog(map[], id2label, label2id);
    }

    /** `createDummySimpleLog(net)` with the counter kept beside the maps, so that ids stay
        unique across calls. */
    method CreateDummySimpleLogCorrected(transitions: seq<Transition>) returns (log: SimpleLog)
      requires Valid()
      modifies this
      ensures Valid()
      ensures (label2id, id2label, nextId) == Assign(old(label2id), old(id2label), Visible(transitions), old(nextId))
      ensures log == SimpleLog(map[], id2label, label2id)
    {
      var id := nextId;
      ghost var l2i0, i2l0 := label2id, id2label;
      AssignNumbered(l2i0, i2l0, Visible(transitions), id);
      for i := 0 to |transitions|
        invariant Assign(l2i0, i2l0, Visible(transitions), old(nextId)) ==
                  Assign(label2id, id2label, Visible(transitions[i..]), id)
      {
        var t := transitions[i];
        assert transitions[i..][1..] == transitions[i + 1..];
        if !t.invisible {
          var name := t.name;
          if name !in label2id {
            label2id := label2id[name := id];
            id2label := id2label[id := name];
            id := id + 1;
          }
        }
      }
      assert transitions[|transitions|..] == [];
      nextId := id;
      log := SimpleLog(map[], id2label, label2id);
    }
  }

  /** With the counter restarting at 1, a second call that meets a new label gives it the
      id of a label from the first call: "a" registered first, then "c" on its own, both
      get id 1 and `id2label` forgets "a". */
  lemma RestartedCounterCollides()
    ensures var (l2i, i2l, _) := Assign(map[], map[], ["a"], 1);
      var (l2i2, i2l2, _) := Assign(l2i, i2l, ["c"], 1);
      l2i2["a"] == l2i2["c"] == 1 && i2l2[1] == "c" && !Numbered(l2i2, i2l2, 2)
  {
    var (l2i, i2l, _) := Assign(map[], map[], ["a"], 1);
    assert l2i == map["a" := 1] && i2l == map[1 := "a"];
    var (l2i2, i2l2, _) := Assign(l2i, i2l, ["c"], 1);
    assert l2i2 == map["a" := 1, "c" := 1];
    assert i2l2[1] == "c" && i2l2[l2i2["a"]] != "a";
  }
}
