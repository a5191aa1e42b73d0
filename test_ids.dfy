/**
 * The text form of subtraces in `MkAbstractionTest`: activity ids written in decimal and
 * separated by ':', and `convertIDsToLabels`, which turns such strings back into the
 * first characters of the activity labels.
 */
module IdText {
  import opened Wrappers

  const INT_MIN: int := -0x8000_0000
  const INT_MAX: int := 0x7FFF_FFFF

  predicate IsDigit(c: char) {
    '0' <= c <= '9'
  }

  /** The value of a string of decimal digits. */
  function DigitsValue(s: string): (v: nat)
    requires forall i :: 0 <= i < |s| ==> IsDigit(s[i])
  {
    if s == [] then 0
    else
      assert IsDigit(s[|s| - 1]);
      10 * DigitsValue(s[..|s| - 1]) + (s[|s| - 1] as int - '0' as int)
  }

  /** `Integer.parseInt(token)`: an optional sign followed by at least one decimal digit,
      with a value in the 32-bit range; anything else throws a NumberFormatException. */
  function ParseInt(t: string): (r: Result<int>)
    ensures r.Ok? ==> INT_MIN <= r.value <= INT_MAX
    ensures t == [] || t == "-" || t == "+" ==> r == Err(NumberFormat)
    ensures r.Err? ==> r == Err(NumberFormat)
  {
    if t == [] then Err(NumberFormat)
    else
      var negative := t[0] == '-';
      var digits := if t[0] == '-' || t[0] == '+' then t[1..] else t;
      if digits == [] || exists i :: 0 <= i < |digits| && !IsDigit(digits[i]) then Err(NumberFormat)
      else
        var v: int := if negative then -(DigitsValue(digits) as int) else DigitsValue(digits);
        if v < INT_MIN || INT_MAX < v then Err(NumberFormat) else Ok(v)
  }

  /** The decimal form of a natural number, without leading zeros. */
  function Decimal(n: nat): (s: string)
    ensures s != [] && forall i :: 0 <= i < |s| ==> IsDigit(s[i])
    ensures ':' !in s
    ensures DigitsValue(s) == n
  {
    if n < 10 then ['0' + n as char]
    else
      var s := Decimal(n / 10) + ['0' + (n % 10) as char];
      assert s[..|s| - 1] == Decimal(n / 10);
      s
  }

  /** Printing and parsing agree on the ids an int can hold. */
  lemma ParseDecimal(n: nat)
    requires n <= INT_MAX
    ensures ParseInt(Decimal(n)) == Ok(n)
  {
    var d := Decimal(n);
    assert d[0] != '-' && d[0] != '+';
  }

  /** `s.split(":")`: the pieces between the separators, empty ones included. */
  function Split(s: string): (parts: seq<string>)
    ensures |parts| >= 1
    ensures forall i :: 0 <= i < |parts| ==> ':' !in parts[i]
  {
    if s == [] then [""]
    else if s[0] == ':' then [""] + Split(s[1..])
    else
      var rest := Split(s[1..]);
      [[s[0]] + rest[0]] + rest[1..]
  }

  /** The tokens joined with ':' in between. */
  function Join(tokens: seq<string>): string {
    if tokens == [] then ""
    else if |tokens| == 1 then tokens[0]
    else tokens[0] + [':'] + Join(tokens[1..])
  }

  lemma {:induction false} SplitToken(t: string)
    requires ':' !in t
    ensures Split(t) == [t]
  {
    if t != [] {
      SplitToken(t[1..]);
      assert [t[0]] + t[1..] == t;
    }
  }

  lemma {:induction false} SplitCons(t: string, s: string)
    requires ':' !in t
    ensures Split(t + [':'] + s) == [t] + Split(s)
  {
    if t == [] {
      assert t + [':'] + s == [':'] + s;
      assert ([':'] + s)[1..] == s;
    } else {
      SplitCons(t[1..], s);
      var w := t + [':'] + s;
      assert w[0] == t[0] && w[1..] == t[1..] + [':'] + s;
      assert [t[0]] + t[1..] == t;
    }
  }

  /** Splitting undoes joining, for tokens without ':'. */
  lemma {:induction false} SplitJoin(tokens: seq<string>)
    requires |tokens| >= 1
    requires forall i :: 0 <= i < |tokens| ==> ':' !in tokens[i]
    ensures Split(Join(tokens)) == tokens
  {
    if |tokens| == 1 {
      SplitToken(tokens[0]);
    } else {
      SplitJoin(tokens[1..]);
      SplitCons(tokens[0], Join(tokens[1..]));
      assert tokens == [tokens[0]] + tokens[1..];
    }
  }

  /** What one token contributes: the first character of its id's label, and nothing for
      an empty token, a token that is not a number, or an id with no or an empty label. */
  function TokenChar(id2label: map<int, string>, token: string): (r: string)
    ensures |r| <= 1
    ensures |r| == 1 <==> token != [] && ParseInt(token).Ok? && ParseInt(token).value in id2label && id2label[ParseInt(token).value] != []
    ensures |r| == 1 ==> r[0] == id2label[ParseInt(token).value][0]
  {
    if token == [] then []
    else
      match ParseInt(token)
      case Err(_) => []
      case Ok(id) => if id in id2label && id2label[id] != [] then [id2label[id][0]] else []
  }

  /** The characters of a list of tokens, in order. */
  function TokensChars(id2label: map<int, string>, tokens: seq<string>): string {
    if tokens == [] then [] else TokensChars(id2label, tokens[..|tokens| - 1]) + TokenChar(id2label, tokens[|tokens| - 1])
  }

  /** The string one id string is turned into. */
  function Converted(id2label: map<int, string>, s: string): string {
    TokensChars(id2label, Split(s))
  }

  /** `convertIDsToLabels(referenceStrings)`: one string per non-empty input, in order. */
  function ConvertedAll(id2label: map<int, string>, strings: seq<string>): seq<string> {
    if strings == [] then []
    else
      var init := ConvertedAll(id2label, strings[..|strings| - 1]);
      var s := strings[|strings| - 1];
      if s == [] then init else init + [Converted(id2label, s)]
  }

  /** The number of non-empty strings. */
  function NonEmpty(strings: seq<string>): nat {
    if strings == [] then 0 else NonEmpty(strings[..|strings| - 1]) + (if strings[|strings| - 1] == [] then 0 else 1)
  }

  /** The labels' first characters. */
  ghost predicate IsLabelHead(id2label: map<int, string>, c: char) {
    exists id :: id in id2label && id2label[id] != [] && id2label[id][0] == c
  }

  /** Every character produced is the first character of some label, and there are at
      most as many characters as tokens. */
  lemma {:induction false} TokensCharsFromLabels(id2label: map<int, string>, tokens: seq<string>)
    ensures |TokensChars(id2label, tokens)| <= |tokens|
    ensures forall i :: 0 <= i < |TokensChars(id2label, tokens)| ==> IsLabelHead(id2label, TokensChars(id2label, tokens)[i])
  {
    if tokens != [] {
      var init := tokens[..|tokens| - 1];
      TokensCharsFromLabels(id2label, init);
      var t := TokenChar(id2label, tokens[|tokens| - 1]);
      if |t| == 1 {
        assert IsLabelHead(id2label, t[0]) by {
          var id := ParseInt(tokens[|tokens| - 1]).value;
          assert id in id2label && id2label[id] != [] && id2label[id][0] == t[0];
        }
      }
    }
  }

  /** The result has one string per non-empty input, each made only of labels' first
      characters and no longer than the input's tokens. */
  lemma {:induction false} ConvertedAllShape(id2label: map<int, string>, strings: seq<string>)
    ensures |ConvertedAll(id2label, strings)| == NonEmpty(strings)
    ensures forall k, i :: 0 <= k < |ConvertedAll(id2label, strings)| && 0 <= i < |ConvertedAll(id2label, strings)[k]| ==>
      IsLabelHead(id2label, ConvertedAll(id2label, strings)[k][i])
  {
    if strings != [] {
      var init := strings[..|strings| - 1];
      ConvertedAllShape(id2label, init);
      var s := strings[|strings| - 1];
      if s != [] {
        TokensCharsFromLabels(id2label, Split(s));
      }
    }
  }

  /** Order is kept: each output is the conversion of the matching non-empty input. */
  lemma {:induction false} ConvertedAllOrder(id2label: map<int, string>, strings: seq<string>, ne: seq<string>)
    requires ne == Filter(strings)
    ensures ConvertedAll(id2label, strings) == seq(|ne|, k requires 0 <= k < |ne| => Converted(id2label, ne[k]))
  {
    if strings != [] {
      ConvertedAllOrder(id2label, strings[..|strings| - 1], Filter(strings[..|strings| - 1]));
    }
  }

  /** The non-empty strings, in order. */
  function Filter(strings: seq<string>): (ne: seq<string>)
    ensures [] !in ne
    ensures |ne| == NonEmpty(strings)
  {
    if strings == [] then []
    else
      var init := Filter(strings[..|strings| - 1]);
      if strings[|strings| - 1] == [] then init else init + [strings[|strings| - 1]]
  }

  /** The inner loop of `convertIDsToLabels`: the characters of one string. */
  method ConvertOne(id2label: map<int, string>, s: string) returns (sb: string)
    ensures sb == Converted(id2label, s)
  {
    var parts := Split(s);
    sb := [];
    for i := 0 to |parts|
      invariant sb == TokensChars(id2label, parts[..i])
    {
      assert parts[..i + 1][..i] == parts[..i];
      var token := parts[i];
      if token == [] {
        continue;
      }
      var parsed := ParseInt(token);
      if parsed.Ok? {
        var id := parsed.value;
        if id in id2label && id2label[id] != [] {
          sb := sb + [id2label[id][0]];
        }
      }
    }
    assert parts[..|parts|] == parts;
  }

  /** `convertIDsToLabels(referenceStrings)`. */
  method ConvertIDsToLabels(id2label: map<int, string>, referenceStrings: seq<string>) returns (result: seq<string>)
    ensures result == ConvertedAll(id2label, referenceStrings)
  {
    result := [];
    for k := 0 to |referenceStrings|
      invariant result == ConvertedAll(id2label, referenceStrings[..k])
    {
      assert referenceStrings[..k + 1][..k] == referenceStrings[..k];
      var s := referenceStrings[k];
      if s == [] {
        continue;
      }
      var sb := ConvertOne(id2label, s);
      result := result + [sb];
    }
    assert referenceStrings[..|referenceStrings|] == referenceStrings;
  }

  /** The ':'-separated decimal form of a list of ids. */
  function IdString(ids: seq<nat>): string {
    Join(seq(|ids|, i requires 0 <= i < |ids| => Decimal(ids[i])))
  }

  /** The first characters of the labels of a list of ids, in order. */
  function Heads(id2label: map<int, string>, ids: seq<nat>): string
    requires forall i :: 0 <= i < |ids| ==> ids[i] in id2label && id2label[ids[i]] != []
  {
    if ids == [] then [] else Heads(id2label, ids[..|ids| - 1]) + [id2label[ids[|ids| - 1]][0]]
  }

  /** Converting the text form of ids with non-empty labels gives back the first
      characters of their labels, one per id, in order. */
  lemma IdStringConverted(id2label: map<int, string>, ids: seq<nat>)
    requires forall i :: 0 <= i < |ids| ==> ids[i] <= INT_MAX && ids[i] in id2label && id2label[ids[i]] != []
    ensures Converted(id2label, IdString(ids)) == Heads(id2label, ids)
  {
    var tokens := seq(|ids|, i requires 0 <= i < |ids| => Decimal(ids[i]));
    if ids == [] {
      assert Split("") == [""];
      assert TokensChars(id2label, [""]) == TokensChars(id2label, []) + TokenChar(id2label, "");
    } else {
      SplitJoin(tokens);
      TokensHeads(id2label, ids, tokens);
    }
  }

  lemma {:induction false} TokensHeads(id2label: map<int, string>, ids: seq<nat>, tokens: seq<string>)
    requires forall i :: 0 <= i < |ids| ==> ids[i] <= INT_MAX && ids[i] in id2label && id2label[ids[i]] != []
    requires tokens == seq(|ids|, i requires 0 <= i < |ids| => Decimal(ids[i]))
    ensures TokensChars(id2label, tokens) == Heads(id2label, ids)
  {
    if ids != [] {
      var n := |ids| - 1;
      TokensHeads(id2label, ids[..n], tokens[..n]);
      ParseDecimal(ids[n]);
    }
  }
}
