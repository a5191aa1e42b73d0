/**
 * `mkAutomatonToSubtraceAbstraction` of `MkAbstractionTest`: each string the Mk automaton
 * accepts becomes a subtrace of activity ids. A leading '+' (the start marker) is written
 * as '-'; each character is mapped to the id of the first registered label that starts
 * with it; a string ending in '-' gets `Subtrace.INIT` appended; and each subtrace is
 * added to the abstraction with count 1.
 */
module SubtraceText {
  import opened Wrappers
  import IdText
  import LabelIds

  /** An `addSubtrace(subtrace, count)` call. */
  datatype Entry = Entry(subtrace: seq<int>, count: int)

  /** The trace with a leading '+' written as '-'. */
  function Rewrite(trace: string): (r: string)
    ensures |r| == |trace|
    ensures r != [] ==> r[1..] == trace[1..] && r[0] != '+' && (r[0] == trace[0] || (trace[0] == '+' && r[0] == '-'))
  {
    if |trace| > 0 && trace[0] == '+' then "-" + trace[1..] else trace
  }

  /** The first label, in the key order of `label2id`, that starts with c. Reaching an
      empty label first throws from `charAt(0)`; finding none leaves a null label, whose
      id lookup throws when unboxed. */
  function LabelFor(keys: seq<string>, c: char): (r: Result<string>)
    ensures r.Ok? ==>
      exists i :: 0 <= i < |keys| && keys[i] == r.value && r.value != [] && r.value[0] == c &&
        (forall j :: 0 <= j < i ==> keys[j] != [] && keys[j][0] != c)
    ensures r == Err(NullPointer) <==> forall k :: k in keys ==> k != [] && k[0] != c
    ensures r.Err? ==> r == Err(NullPointer) || r == Err(StringIndexOutOfBounds)
  {
    if keys == [] then Err(NullPointer)
    else if keys[0] == [] then
      assert keys[0] in keys;
      Err(StringIndexOutOfBounds)
    else if keys[0][0] == c then Ok(keys[0])
    else
      var r := LabelFor(keys[1..], c);
      assert forall j :: 1 <= j < |keys| ==> keys[j] == keys[1..][j - 1];
      assert forall k :: k in keys <==> k == keys[0] || k in keys[1..];
      r
  }

  /** The id a character is mapped to. */
  function IdFor(keys: seq<string>, label2id: map<string, int>, c: char): Result<int>
    requires forall k :: k in keys ==> k in label2id
  {
    match LabelFor(keys, c)
    case Err(e) => Err(e)
    case Ok(name) => Ok(label2id[name])
  }

  /** The ids of the characters, left to right; the first character without an id ends it. */
  function Ids(keys: seq<string>, label2id: map<string, int>, t: string): Result<seq<int>>
    requires forall k :: k in keys ==> k in label2id
  {
    if t == [] then Ok([])
    else
      match Ids(keys, label2id, t[..|t| - 1])
      case Err(e) => Err(e)
      case Ok(ids) =>
        match IdFor(keys, label2id, t[|t| - 1])
        case Err(e) => Err(e)
        case Ok(id) => Ok(ids + [id])
  }

  /** The subtrace of one accepted string. */
  function SubtraceOf(keys: seq<string>, label2id: map<string, int>, trace: string, init: int): Result<seq<int>>
    requires forall k :: k in keys ==> k in label2id
  {
    var t := Rewrite(trace);
    match Ids(keys, label2id, t)
    case Err(e) => Err(e)
    case Ok(ids) => Ok(if |t| > 0 && t[|t| - 1] == '-' then ids + [init] else ids)
  }

  /** The subtraces added to the abstraction, in the order of the accepted strings; the
      first string that throws ends the call. */
  function AbstractionOf(keys: seq<string>, label2id: map<string, int>, traces: seq<string>, init: int): Result<seq<Entry>>
    requires forall k :: k in keys ==> k in label2id
  {
    if traces == [] then Ok([])
    else
      match AbstractionOf(keys, label2id, traces[..|traces| - 1], init)
      case Err(e) => Err(e)
      case Ok(entries) =>
        match SubtraceOf(keys, label2id, traces[|traces| - 1], init)
        case Err(e) => Err(e)
        case Ok(st) => Ok(entries + [Entry(st, 1)])
  }

  /** The ids found for a string: one per character, each the id of a label that starts
      with that character; the call fails exactly when some character has no id. */
  lemma {:induction false} IdsSpec(keys: seq<string>, label2id: map<string, int>, t: string)
    requires forall k :: k in keys ==> k in label2id
    ensures Ids(keys, label2id, t).Ok? <==> forall i :: 0 <= i < |t| ==> IdFor(keys, label2id, t[i]).Ok?
    ensures Ids(keys, label2id, t).Ok? ==>
      |Ids(keys, label2id, t).value| == |t| &&
      forall i :: 0 <= i < |t| ==> Ids(keys, label2id, t).value[i] == IdFor(keys, label2id, t[i]).value
  {
    if t != [] {
      var init := t[..|t| - 1];
      IdsSpec(keys, label2id, init);
      assert forall i :: 0 <= i < |init| ==> init[i] == t[i];
    }
  }

  /** A subtrace holds one id per character of the rewritten string, each the id of a
      registered label starting with that character, followed by INIT exactly when the
      rewritten string ends with '-'. */
  lemma SubtraceShape(keys: seq<string>, label2id: map<string, int>, trace: string, init: int)
    requires forall k :: k in keys ==> k in label2id
    ensures var r := SubtraceOf(keys, label2id, trace, init);
      var t := Rewrite(trace);
      var marked := |t| > 0 && t[|t| - 1] == '-';
      (r.Ok? <==> forall i :: 0 <= i < |t| ==> IdFor(keys, label2id, t[i]).Ok?) &&
      (r.Ok? ==>
        |r.value| == |t| + (if marked then 1 else 0) && (marked ==> r.value[|t|] == init) &&
        forall i :: 0 <= i < |t| ==> exists name :: name in keys && name != [] && name[0] == t[i] && r.value[i] == label2id[name])
  {
    var t := Rewrite(trace);
    IdsSpec(keys, label2id, t);
    var r := SubtraceOf(keys, label2id, trace, init);
    if r.Ok? {
      forall i | 0 <= i < |t|
        ensures exists name :: name in keys && name != [] && name[0] == t[i] && r.value[i] == label2id[name]
      {
        var name := LabelFor(keys, t[i]).value;
        assert r.value[i] == Ids(keys, label2id, t).value[i];
      }
    }
  }

  /** The characters of an abstraction's subtraces map back to their labels' first
      characters: with the maps `createDummySimpleLog` keeps inverse, converting the
      ':'-separated ids of a subtrace (without INIT) gives back the rewritten string. */
  lemma RoundTrip(keys: seq<string>, label2id: map<string, int>, id2label: map<int, string>, next: int, trace: string, init: int)
    requires LabelIds.Numbered(label2id, id2label, next) && next <= IdText.INT_MAX + 1
    requires forall k :: k in keys ==> k in label2id
    requires SubtraceOf(keys, label2id, trace, init).Ok?
    ensures var st := SubtraceOf(keys, label2id, trace, init).value;
      |trace| <= |st| &&
      (forall i :: 0 <= i < |trace| ==> 1 <= st[i] <= IdText.INT_MAX) &&
      IdText.Converted(id2label, IdText.IdString(seq(|trace|, i requires 0 <= i < |trace| && 1 <= st[i] => st[i] as nat))) == Rewrite(trace)
  {
    var t := Rewrite(trace);
    var st := SubtraceOf(keys, label2id, trace, init).value;
    SubtraceShape(keys, label2id, trace, init);
    IdsSpec(keys, label2id, t);
    forall i | 0 <= i < |trace| ensures 1 <= st[i] <= IdText.INT_MAX && st[i] in id2label && id2label[st[i]] != [] && id2label[st[i]][0] == t[i] {
      var name := LabelFor(keys, t[i]).value;
      assert st[i] == label2id[name];
    }
    var ids: seq<nat> := seq(|trace|, i requires 0 <= i < |trace| && 1 <= st[i] => st[i] as nat);
    IdText.IdStringConverted(id2label, ids);
    HeadsAre(id2label, ids, t);
  }

  lemma {:induction false} HeadsAre(id2label: map<int, string>, ids: seq<nat>, t: string)
    requires |ids| == |t|
    requires forall i :: 0 <= i < |ids| ==> ids[i] in id2label && id2label[ids[i]] != [] && id2label[ids[i]][0] == t[i]
    ensures IdText.Heads(id2label, ids) == t
  {
    if ids != [] {
      var n := |ids| - 1;
      HeadsAre(id2label, ids[..n], t[..n]);
      assert t == t[..n] + [t[n]];
    }
  }

  /** The inner loop: the subtrace of one accepted string. */
  method Subtrace(keys: seq<string>, label2id: map<string, int>, trace: string, init: int) returns (r: Result<seq<int>>)
    requires forall k :: k in keys ==> k in label2id
    ensures r == SubtraceOf(keys, label2id, trace, init)
  {
    var t := trace;
    if |t| > 0 && t[0] == '+' {
      t := "-" + t[1..];
    }
    assert t == Rewrite(trace);
    var subtrace: seq<int> := [];
    for i := 0 to |t|
      invariant Ids(keys, label2id, t[..i]) == Ok(subtrace)
    {
      var matched := LabelFor(keys, t[i]);
      if matched.Err? {
        ErrPropagates(keys, label2id, t, i);
        return Err(matched.error);
      }
      IdsSnoc(keys, label2id, t, i);
      subtrace := subtrace + [label2id[matched.value]];
    }
    assert t[..|t|] == t;
    if |t| > 0 && t[|t| - 1] == '-' {
      subtrace := subtrace + [init];
    }
    r := Ok(subtrace);
  }

  /** One more character with an id extends the ids by its id. */
  lemma IdsSnoc(keys: seq<string>, label2id: map<string, int>, t: string, i: nat)
    requires forall k :: k in keys ==> k in label2id
    requires i < |t| && Ids(keys, label2id, t[..i]).Ok? && LabelFor(keys, t[i]).Ok?
    ensures Ids(keys, label2id, t[..i + 1]) ==
            Ok(Ids(keys, label2id, t[..i]).value + [label2id[LabelFor(keys, t[i]).value]])
  {
    assert t[..i + 1][..i] == t[..i];
  }

  /** A character without an id fails the whole string with its exception. */
  lemma {:induction false} ErrPropagates(keys: seq<string>, label2id: map<string, int>, t: string, i: nat)
    requires forall k :: k in keys ==> k in label2id
    requires i < |t| && Ids(keys, label2id, t[..i]).Ok? && LabelFor(keys, t[i]).Err?
    ensures Ids(keys, label2id, t) == Err(LabelFor(keys, t[i]).error)
    decreases |t| - i
  {
    if i + 1 == |t| {
      assert t[..|t| - 1] == t[..i];
    } else {
      assert t[..|t| - 1][..i] == t[..i] && t[..|t| - 1][i] == t[i];
      ErrPropagates(keys, label2id, t[..|t| - 1], i);
    }
  }

  /** `mkAutomatonToSubtraceAbstraction(acceptedStrings, order)`, with the accepted
      strings in iteration order. */
  method MkAutomatonToSubtraceAbstraction(keys: seq<string>, label2id: map<string, int>, acceptedStrings: seq<string>, init: int)
    returns (r: Result<seq<Entry>>)
    requires forall k :: k in keys ==> k in label2id
    ensures r == AbstractionOf(keys, label2id, acceptedStrings, init)
    ensures r.Ok? ==> |r.value| == |acceptedStrings| && forall i :: 0 <= i < |r.value| ==> r.value[i].count == 1
  {
    var abstraction: seq<Entry> := [];
    for i := 0 to |acceptedStrings|
      invariant AbstractionOf(keys, label2id, acceptedStrings[..i], init) == Ok(abstraction)
      invariant |abstraction| == i && forall j :: 0 <= j < i ==> abstraction[j].count == 1
    {
      assert acceptedStrings[..i + 1][..i] == acceptedStrings[..i];
      var subtrace := Subtrace(keys, label2id, acceptedStrings[i], init);
      if subtrace.Err? {
        AbstractionErr(keys, label2id, acceptedStrings, init, i);
        return Err(subtrace.error);
      }
      abstraction := abstraction + [Entry(subtrace.value, 1)];
    }
    assert acceptedStrings[..|acceptedStrings|] == acceptedStrings;
    r := Ok(abstraction);
  }

  /** A string that throws ends the whole call with its exception. */
  lemma {:induction false} AbstractionErr(keys: seq<string>, label2id: map<string, int>, traces: seq<string>, init: int, i: nat)
    requires forall k :: k in keys ==> k in label2id
    requires i < |traces| && AbstractionOf(keys, label2id, traces[..i], init).Ok?
    requires SubtraceOf(keys, label2id, traces[i], init).Err?
    ensures AbstractionOf(keys, label2id, traces, init) == Err(SubtraceOf(keys, label2id, traces[i], init).error)
    decreases |traces| - i
  {
    if i + 1 == |traces| {
      assert traces[..|traces| - 1] == traces[..i];
    } else {
      assert traces[..|traces| - 1][..i] == traces[..i] && traces[..|traces| - 1][i] == traces[i];
      AbstractionErr(keys, label2id, traces[..|traces| - 1], init, i);
    }
  }
}
