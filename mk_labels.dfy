/**
 * The characters that stand for activities. Both label mappings hand out characters from
 * 'a' upwards with a Java `char` counter (`nextChar++`), which wraps from 0xFFFF to 0.
 * The n-th character handed out is therefore CharAt(n).
 */
module Labels {
  import opened Wrappers
  import opened Automata

  /** `artificialMarker`: the activity id given to the end marker '-'. */
  const ARTIFICIAL_MARKER: int := 10000

  /** The number of characters a Java `char` can take. */
  const CHARS: nat := 0x1_0000

  /** The character the counter holds after n increments from 'a'. */
  function CharAt(n: nat): (c: Sym)
    ensures c as int == (LETTER_A as int + n) % CHARS
  {
    ((LETTER_A as int + n) % CHARS) as Sym
  }

  /** `c++` on a Java `char`. */
  function Next(c: Sym): (d: Sym)
    ensures d as int == (c as int + 1) % CHARS
  {
    if c == 0xFFFF then 0 else c + 1
  }

  function Min(x: nat, y: nat): nat {
    if x <= y then x else y
  }

  /** Incrementing the counter moves on to the next character. */
  lemma NextCharAt(n: nat)
    ensures Next(CharAt(n)) == CharAt(n + 1)
  {
  }

  /** Characters handed out fewer than 0x10000 increments apart are distinct. */
  lemma CharAtInjective(m: nat, n: nat)
    requires m < CHARS && n < CHARS && CharAt(m) == CharAt(n)
    ensures m == n
  {
  }

  /** The characters handed out by the first n matches, once the counter has stopped at
      a character already in use. */
  function Handed(n: nat): set<Sym> {
    set m | 0 <= m < Min(n, CHARS) :: CharAt(m)
  }

  /** The counter stands on a character already handed out exactly when every character
      has been handed out. */
  lemma HandedAgain(n: nat)
    ensures CharAt(Min(n, CHARS)) in Handed(n) <==> n >= CHARS
  {
    if n >= CHARS {
      assert CharAt(CHARS) == CharAt(0);
    } else if CharAt(n) in Handed(n) {
      var m :| 0 <= m < n && CharAt(m) == CharAt(n);
      CharAtInjective(m, n);
    }
  }

  lemma HandedStep(n: nat)
    ensures n < CHARS ==> Handed(n + 1) == Handed(n) + {CharAt(n)}
    ensures n >= CHARS ==> Handed(n + 1) == Handed(n)
  {
    if n < CHARS {
      forall c | c in Handed(n + 1) ensures c in Handed(n) + {CharAt(n)} {
        var m :| 0 <= m < n + 1 && CharAt(m) == c;
        if m < n {
          assert c in Handed(n);
        }
      }
    }
  }

  /** '-' is among the characters handed out exactly when more than 65484 labels were
      matched: it is the 65485th character from 'a' once the counter wraps. */
  lemma MinusHanded(n: nat)
    ensures MINUS in Handed(n) <==> n > 65484
  {
    if n > 65484 {
      assert CharAt(65484) == MINUS;
    } else {
      forall m | 0 <= m < Min(n, CHARS) ensures CharAt(m) != MINUS {
      }
    }
  }

  // initializeLabelMapping

  /** The number of non-null activity names in s. */
  function Named(s: seq<Option<string>>): (n: nat)
    ensures n <= |s|
  {
    if s == [] then 0 else Named(s[..|s| - 1]) + (if s[|s| - 1].Some? then 1 else 0)
  }

  lemma NamedStep(s: seq<Option<string>>, i: nat)
    requires i < |s|
    ensures Named(s[..i + 1]) == Named(s[..i]) + (if s[i].Some? then 1 else 0)
  {
    assert s[..i + 1][..i] == s[..i];
  }

  lemma {:induction false} NamedGrows(s: seq<Option<string>>, i: nat, j: nat)
    requires i < j <= |s| && s[i].Some?
    ensures Named(s[..i]) < Named(s[..j])
    decreases j - i
  {
    NamedStep(s, j - 1);
    if i < j - 1 {
      NamedGrows(s, i, j - 1);
    }
  }

  /** The mapping after the first i names: each non-null name i gets the character handed
      out for it, and `CharToIDs` maps each character in use back to the last index that
      received it. */
  ghost predicate InitializedUpTo(acts: seq<Option<string>>, i: nat, ids: map<int, Sym>, chars: map<Sym, int>)
    requires i <= |acts|
  {
    (forall j :: j in ids <==> 0 <= j < i && acts[j].Some?) &&
    (forall j :: 0 <= j < i && acts[j].Some? ==> ids[j] == CharAt(Named(acts[..j]))) &&
    (forall c :: c in chars ==> chars[c] in ids && ids[chars[c]] == c) &&
    (forall j :: j in ids ==> ids[j] in chars && j <= chars[ids[j]])
  }

  ghost predicate Initialized(acts: seq<Option<string>>, ids: map<int, Sym>, chars: map<Sym, int>) {
    InitializedUpTo(acts, |acts|, ids, chars)
  }

  /** With at most 0x10000 names no character is handed out twice, so `CharToIDs` is the
      inverse of `IDsToChar`. */
  lemma InitializedInverse(acts: seq<Option<string>>, ids: map<int, Sym>, chars: map<Sym, int>, j: int)
    requires Initialized(acts, ids, chars) && Named(acts) <= CHARS && j in ids
    ensures ids[j] in chars && chars[ids[j]] == j
  {
    var j' := chars[ids[j]];
    if j < j' {
      NamedGrows(acts, j, j');
      NamedGrows(acts, j', |acts|);
      assert acts[..|acts|] == acts;
      CharAtInjective(Named(acts[..j]), Named(acts[..j']));
    }
  }

  // matchIDsTree

  /** The log knows the name of activity index i. A null name is not a key of the log's
      reverse map. */
  predicate Hit(acts: seq<Option<string>>, logIds: map<string, int>, i: nat)
    requires i < |acts|
  {
    acts[i].Some? && acts[i].value in logIds
  }

  /** The number of names in s that the log knows. */
  function Hits(s: seq<Option<string>>, logIds: map<string, int>): (n: nat)
    ensures n <= |s|
  {
    if s == [] then 0 else Hits(s[..|s| - 1], logIds) + (if Hit(s, logIds, |s| - 1) then 1 else 0)
  }

  lemma HitsStep(s: seq<Option<string>>, logIds: map<string, int>, i: nat)
    requires i < |s|
    ensures Hits(s[..i + 1], logIds) == Hits(s[..i], logIds) + (if Hit(s, logIds, i) then 1 else 0)
  {
    assert s[..i + 1][..i] == s[..i];
  }

  lemma {:induction false} HitsGrow(s: seq<Option<string>>, logIds: map<string, int>, i: nat, j: nat)
    requires i < j <= |s| && Hit(s, logIds, i)
    ensures Hits(s[..i], logIds) < Hits(s[..j], logIds)
    decreases j - i
  {
    HitsStep(s, logIds, j - 1);
    if i < j - 1 {
      HitsGrow(s, logIds, i, j - 1);
    }
  }

  /** A matched index: the log knows its name and a fresh character was left for it. */
  ghost predicate Given(acts: seq<Option<string>>, logIds: map<string, int>, x: int)
  {
    0 <= x < |acts| && Hit(acts, logIds, x) && Hits(acts[..x], logIds) < CHARS
  }

  /** The mapping after the first n names: the x-th name, when matched, gets the character
      of its rank among the matched names, and that character maps to the log's id of the
      name; the characters in use are those handed out. */
  ghost predicate MatchedUpTo(acts: seq<Option<string>>, logIds: map<string, int>, n: nat,
                              ids: map<int, Sym>, chars: map<Sym, int>)
    requires n <= |acts|
  {
    (forall x :: x in ids <==> Given(acts, logIds, x) && x < n) &&
    (forall x :: x in ids ==> ids[x] == CharAt(Hits(acts[..x], logIds)) && ids[x] in chars &&
                              chars[ids[x]] == logIds[acts[x].value]) &&
    chars.Keys == Handed(Hits(acts[..n], logIds))
  }

  /** The mapping `matchIDsTree` leaves: the matched names as above, except that when '-'
      is still free it maps to the artificial marker and the marker's id maps to '-'. */
  ghost predicate Matched(acts: seq<Option<string>>, logIds: map<string, int>, ids: map<int, Sym>, chars: map<Sym, int>) {
    var n := Hits(acts, logIds);
    var marked := MINUS !in Handed(n);
    (forall x :: x in ids <==> Given(acts, logIds, x) || (marked && x == ARTIFICIAL_MARKER)) &&
    (forall x :: x in ids && !(marked && x == ARTIFICIAL_MARKER) ==>
                 ids[x] == CharAt(Hits(acts[..x], logIds)) && ids[x] in chars && chars[ids[x]] == logIds[acts[x].value]) &&
    chars.Keys == Handed(n) + {MINUS} &&
    (marked ==> chars[MINUS] == ARTIFICIAL_MARKER && ids[ARTIFICIAL_MARKER] == MINUS)
  }

  /** Different matched activities get different characters. */
  lemma MatchedInjective(acts: seq<Option<string>>, logIds: map<string, int>, ids: map<int, Sym>, chars: map<Sym, int>, x: int, y: int)
    requires Matched(acts, logIds, ids, chars)
    requires Given(acts, logIds, x) && Given(acts, logIds, y) && x < y
    ensures ids[x] != ids[y]
  {
    var n := Hits(acts, logIds);
    assert acts[..|acts|] == acts;
    HitsGrow(acts, logIds, x, y);
    HitsGrow(acts, logIds, y, |acts|);
    if MINUS !in Handed(n) && (x == ARTIFICIAL_MARKER || y == ARTIFICIAL_MARKER) {
      // the marker's character is '-', which no matched index received
      var z := if x == ARTIFICIAL_MARKER then y else x;
      HitsGrow(acts, logIds, z, |acts|);
      assert CharAt(Hits(acts[..z], logIds)) in Handed(n);
    } else if ids[x] == ids[y] {
      CharAtInjective(Hits(acts[..x], logIds), Hits(acts[..y], logIds));
    }
  }

  /** While at most 65484 names are matched, '-' is still free afterwards and the end
      marker is registered both ways. */
  lemma MatchedMarker(acts: seq<Option<string>>, logIds: map<string, int>, ids: map<int, Sym>, chars: map<Sym, int>)
    requires Matched(acts, logIds, ids, chars) && Hits(acts, logIds) <= 65484
    ensures chars[MINUS] == ARTIFICIAL_MARKER && ids[ARTIFICIAL_MARKER] == MINUS
  {
    MinusHanded(Hits(acts, logIds));
  }
}
