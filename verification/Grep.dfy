/**
  grep's matcher. Patterns and texts are C strings given by their characters, so that reading
  one past the end finds the terminator.
 */
module Grep {

  const NUL := '\0'

  function At(s: string, k: nat): (c: char)
  {
    if k < |s| then s[k] else NUL
  }

  predicate CString(s: string)
  {
    NUL !in s
  }

  // ---------------------------------------------------------------- what a pattern means

  /** One occurrence of a character, any number of them, or the end of the text. */
  datatype Item = One(c: char) | Star(c: char) | End

  /** How a pattern reads: a star belongs to the character before it, and '$' is special only at the end. */
  function Items(re: string): (r: seq<Item>)
  {
    if re == "" then []
    else if At(re, 1) == '*' then [Star(re[0])] + Items(re[2..])
    else if re == "$" then [End]
    else [One(re[0])] + Items(re[1..])
  }

  /** '.' stands for any character. */
  predicate Fits(c: char, x: char)
  {
    c == '.' || c == x
  }

  predicate AllFit(c: char, w: string)
  {
    forall k :: 0 <= k < |w| ==> Fits(c, w[k])
  }

  predicate Covers(i: Item, w: string)
  {
    match i
    case One(c) => |w| == 1 && Fits(c, w[0])
    case Star(c) => AllFit(c, w)
    case End => w == ""
  }

  function Concat(ws: seq<string>): (s: string)
  {
    if ws == [] then "" else ws[0] + Concat(ws[1..])
  }

  /** The words ws cover the items one by one and make up a prefix of the text, all of it if the last item is End. */
  ghost predicate Decomposes(items: seq<Item>, text: string, ws: seq<string>)
  {
    && |ws| == |items|
    && (forall k :: 0 <= k < |items| ==> Covers(items[k], ws[k]))
    && Concat(ws) <= text
    && (items != [] && items[|items| - 1] == End ==> Concat(ws) == text)
  }

  ghost predicate MatchesHere(items: seq<Item>, text: string)
  {
    exists ws :: Decomposes(items, text, ws)
  }

  /** A pattern matches at the beginning after '^', and otherwise at some place. */
  ghost predicate Matches(re: string, text: string)
  {
    if At(re, 0) == '^' then MatchesHere(Items(re[1..]), text)
    else exists k :: 0 <= k <= |text| && MatchesHere(Items(re), text[k..])
  }

  // ---------------------------------------------------------------- items one by one

  lemma {:induction false} EmptyMatches(text: string)
    ensures MatchesHere([], text)
  {
    assert Decomposes([], text, []);
  }

  /** A first word and a decomposition of what follows it. */
  lemma {:induction false} Cons(i: Item, items: seq<Item>, w: string, text: string)
    requires i != End || (items == [] && text == "")
    requires Covers(i, w) && MatchesHere(items, text)
    ensures MatchesHere([i] + items, w + text)
  {
    var ws :| Decomposes(items, text, ws);
    assert ([w] + ws)[1..] == ws;
    assert Concat([w] + ws) == w + Concat(ws);
    assert w + Concat(ws) <= w + text;
    assert Decomposes([i] + items, w + text, [w] + ws);
  }

  /** And the other way round. */
  lemma {:induction false} Uncons(i: Item, items: seq<Item>, text: string) returns (w: string)
    requires MatchesHere([i] + items, text)
    ensures w <= text && Covers(i, w) && MatchesHere(items, text[|w|..])
    ensures i == End && items == [] ==> text == ""
  {
    var ws :| Decomposes([i] + items, text, ws);
    w := ws[0];
    assert Covers(([i] + items)[0], ws[0]);
    var rest := text[|w|..];
    assert Concat(ws) == w + Concat(ws[1..]);
    assert text == w + rest;
    assert Concat(ws[1..]) <= rest by {
      assert Concat(ws)[|w|..] == Concat(ws[1..]);
    }
    forall k | 0 <= k < |items|
      ensures Covers(items[k], ws[1..][k])
    {
      assert Covers(([i] + items)[k + 1], ws[k + 1]);
    }
    assert Decomposes(items, rest, ws[1..]);
    if i == End && items == [] {
      assert ws == [w];
      assert Concat(ws[1..]) == "";
    }
  }

  lemma {:induction false} OneStep(c: char, items: seq<Item>, text: string)
    ensures MatchesHere([One(c)] + items, text) <==> text != "" && (c == '.' || c == text[0]) && MatchesHere(items, text[1..])
  {
    if text != "" && Fits(c, text[0]) && MatchesHere(items, text[1..]) {
      Cons(One(c), items, [text[0]], text[1..]);
      assert [text[0]] + text[1..] == text;
    }
    if MatchesHere([One(c)] + items, text) {
      var w := Uncons(One(c), items, text);
    }
  }

  lemma {:induction false} StarStep(c: char, items: seq<Item>, text: string)
    ensures MatchesHere([Star(c)] + items, text) <==> exists k :: 0 <= k <= |text| && AllFit(c, text[..k]) && MatchesHere(items, text[k..])
    ensures forall k :: 0 <= k <= |text| ==> (AllFit(c, text[..k]) <==> forall j :: 0 <= j < k ==> c == '.' || text[j] == c)
  {
    if k :| 0 <= k <= |text| && AllFit(c, text[..k]) && MatchesHere(items, text[k..]) {
      Cons(Star(c), items, text[..k], text[k..]);
      assert text[..k] + text[k..] == text;
    }
    if MatchesHere([Star(c)] + items, text) {
      var w := Uncons(Star(c), items, text);
      assert text[..|w|] == w;
    }
  }

  lemma {:induction false} EndStep(text: string)
    ensures MatchesHere([End], text) <==> text == ""
  {
    if text == "" {
      EmptyMatches("");
      Cons(End, [], "", "");
      assert [End] + [] == [End] && "" + "" == "";
    }
    if MatchesHere([End], text) {
      assert [End] == [End] + [];
      var w := Uncons(End, [], text);
    }
  }

  // ---------------------------------------------------------------- patterns as strings

  function Written(i: Item): (s: string)
  {
    match i
    case One(c) => [c]
    case Star(c) => [c, '*']
    case End => "$"
  }

  function Pattern(items: seq<Item>): (s: string)
  {
    if items == [] then "" else Written(items[0]) + Pattern(items[1..])
  }

  /** A list that is written as it reads: no star after a single character, '$' as a character not last, End only last. */
  ghost predicate Readable(items: seq<Item>)
  {
    && (forall k :: 0 <= k < |items| - 1 ==> items[k] != End && (items[k].One? ==> Written(items[k + 1])[0] != '*'))
    && (items != [] ==> items[|items| - 1] != One('$'))
  }

  /** Every pattern is the writing of the items it reads as, */
  lemma {:induction false} PatternOfItems(re: string)
    ensures Pattern(Items(re)) == re && Readable(Items(re))
    decreases |re|
  {
    if re != "" {
      var n := if At(re, 1) == '*' then 2 else 1;
      PatternOfItems(re[n..]);
      var i, rest := Items(re)[0], Items(re[n..]);
      assert Items(re) == [i] + rest && Items(re)[1..] == rest;
      assert re == re[..n] + re[n..] && Written(i) == re[..n];
      if rest != [] {
        assert Pattern(rest) == Written(rest[0]) + Pattern(rest[1..]);
        assert re[n] == Written(rest[0])[0];
      }
      ReadableCons(i, rest);
    }
  }

  lemma {:induction false} ReadableCons(i: Item, rest: seq<Item>)
    requires Readable(rest)
    requires rest == [] ==> i != One('$')
    requires rest != [] ==> i != End && (i.One? ==> Written(rest[0])[0] != '*')
    ensures Readable([i] + rest)
  {
    var items := [i] + rest;
    forall k | 0 <= k < |items| - 1
      ensures items[k] != End && (items[k].One? ==> Written(items[k + 1])[0] != '*')
    {
      if k > 0 {
        assert items[k] == rest[k - 1] && items[k + 1] == rest[k];
      }
    }
  }

  /** and every readable list of items is what its writing reads as. */
  lemma {:induction false} ItemsOfPattern(items: seq<Item>)
    requires Readable(items)
    ensures Items(Pattern(items)) == items
    decreases |items|
  {
    if items != [] {
      var i, rest := items[0], items[1..];
      var re, tail := Pattern(items), Pattern(rest);
      forall k | 0 <= k < |rest|
        ensures rest[k] == items[k + 1]
      {
      }
      ItemsOfPattern(rest);
      if rest != [] {
        assert tail[0] == Written(rest[0])[0];
      }
      assert re[|Written(i)|..] == tail;
    }
  }

  /** '^' first anchors the rest of a pattern; any other pattern may match anywhere. */
  lemma {:induction false} Anchored(re: string, text: string)
    ensures Matches("^" + re, text) <==> MatchesHere(Items(re), text)
    ensures re == "" || re[0] != '^' ==> (Matches(re, text) <==> exists k :: 0 <= k <= |text| && MatchesHere(Items(re), text[k..]))
  {
    assert ("^" + re)[1..] == re;
  }

  // ---------------------------------------------------------------- the matcher

  /** match: 1 exactly when some part of the text decomposes as the pattern says. */
  method Match(re: string, text: string) returns (r: bool)
    requires CString(re) && CString(text)
    ensures r <==> Matches(re, text)
  {
    if At(re, 0) == '^' {
      r := MatchHere(re[1..], text);
      return;
    }
    var k := 0;
    while true
      invariant 0 <= k <= |text|
      invariant forall j :: 0 <= j < k ==> !MatchesHere(Items(re), text[j..])
      decreases |text| - k
    {
      r := MatchHere(re, text[k..]);
      if r {
        return true;
      }
      if At(text, k) == NUL {
        break;
      }
      k := k + 1;
    }
    return false;
  }

  /** matchhere: the pattern at the beginning of the text. */
  method MatchHere(re: string, text: string) returns (r: bool)
    requires CString(re) && CString(text)
    ensures r <==> MatchesHere(Items(re), text)
    decreases |re|, 0
  {
    if At(re, 0) == NUL {
      EmptyMatches(text);
      return true;
    }
    if At(re, 1) == '*' {
      StarStep(re[0], Items(re[2..]), text);
      r := MatchStar(re[0], re[2..], text);
      return;
    }
    if At(re, 0) == '$' && At(re, 1) == NUL {
      assert re == "$";
      EndStep(text);
      return At(text, 0) == NUL;
    }
    OneStep(re[0], Items(re[1..]), text);
    if At(text, 0) != NUL && (At(re, 0) == '.' || At(re, 0) == At(text, 0)) {
      r := MatchHere(re[1..], text[1..]);
      return;
    }
    return false;
  }

  /** matchstar: zero or more c, then the pattern. */
  method MatchStar(c: char, re: string, text: string) returns (r: bool)
    requires CString(re) && CString(text)
    ensures r <==> exists k :: 0 <= k <= |text| && AllFit(c, text[..k]) && MatchesHere(Items(re), text[k..])
    decreases |re|, 1
  {
    var k := 0;
    while true
      invariant 0 <= k <= |text| && AllFit(c, text[..k])
      invariant forall j :: 0 <= j < k ==> !MatchesHere(Items(re), text[j..])
      decreases |text| - k
    {
      r := MatchHere(re, text[k..]);
      if r {
        return true;
      }
      if At(text, k) == NUL || !(At(text, k) == c || c == '.') {
        NoLonger(c, text, k);
        return false;
      }
      assert text[..k + 1] == text[..k] + [text[k]];
      k := k + 1;
    }
  }

  /** A run of c that stops at k goes no further. */
  lemma {:induction false} NoLonger(c: char, text: string, k: nat)
    requires k <= |text| && (k < |text| ==> !Fits(c, text[k]))
    ensures forall j :: k < j <= |text| ==> !AllFit(c, text[..j])
  {
    forall j | k < j <= |text|
      ensures !AllFit(c, text[..j])
    {
      assert text[..j][k] == text[k];
    }
  }
}
