/** The regular expression matcher of user/grep.c against a denotational semantics.
    Patterns and texts are C strings without their final NUL. */
module Grep {

  // ----- What patterns denote -----

  /** A single character or `.`; such a character starred; or a final `$`. */
  datatype Item = One(c: char) | Star(c: char) | End

  /** The items of a pattern. A star is looked for before a `$`, a `$` is special only as
      the last character, and a star only after a character. */
  function Items(re: string): seq<Item> {
    if re == "" then []
    else if |re| > 1 && re[1] == '*' then [Star(re[0])] + Items(re[2..])
    else if re == "$" then [End]
    else [One(re[0])] + Items(re[1..])
  }

  predicate Fits(c: char, x: char) { c == '.' || c == x }

  ghost predicate AllFit(c: char, w: string) { forall i :: 0 <= i < |w| ==> Fits(c, w[i]) }

  /** The words of a sequence of items: concatenations of words of each. */
  ghost predicate Word(items: seq<Item>, w: string) {
    if items == [] then w == ""
    else match items[0]
      case One(c) => w != "" && Fits(c, w[0]) && Word(items[1..], w[1..])
      case Star(c) => exists k :: 0 <= k <= |w| && AllFit(c, w[..k]) && Word(items[1..], w[k..])
      case End => Word(items[1..], w)
  }

  predicate Anchored(items: seq<Item>) { items != [] && items[|items| - 1].End? }

  /** The pattern matches the first `n` characters of the text. */
  ghost predicate MatchesTo(re: string, text: string, n: nat) {
    n <= |text| && Word(Items(re), text[..n]) && (Anchored(Items(re)) ==> n == |text|)
  }

  ghost predicate MatchesHere(re: string, text: string) { exists n: nat :: MatchesTo(re, text, n) }

  /** The text contains a match; a leading `^` ties it to the start. */
  ghost predicate Matches(re: string, text: string) {
    if re != "" && re[0] == '^' then MatchesHere(re[1..], text)
    else exists i: nat :: i <= |text| && MatchesHere(re, text[i..])
  }

  // ----- Unfolding the semantics at the front of a pattern -----

  lemma HereEmpty(text: string)
    ensures MatchesHere("", text)
  {
    assert text[..0] == "";
    assert MatchesTo("", text, 0);
  }

  lemma HereEnd(text: string)
    ensures MatchesHere("$", text) <==> text == ""
  {
    assert Items("$") == [End] && [End][1..] == [];
    forall n: nat ensures MatchesTo("$", text, n) ==> text == "" {
      if MatchesTo("$", text, n) {
        assert Word([End], text[..n]) ==> Word([End][1..], text[..n]);
      }
    }
    if text == "" {
      assert Word([End], text[..0]);
      assert MatchesTo("$", text, 0);
    }
  }

  lemma AnchoredTail(items: seq<Item>, it: Item)
    requires !it.End?
    ensures Anchored([it] + items) <==> Anchored(items)
  {
  }

  lemma HereOne(re: string, text: string)
    requires re != "" && !(|re| > 1 && re[1] == '*') && re != "$"
    ensures MatchesHere(re, text) <==> text != "" && Fits(re[0], text[0]) && MatchesHere(re[1..], text[1..])
  {
    var items := Items(re[1..]);
    assert Items(re) == [One(re[0])] + items && ([One(re[0])] + items)[1..] == items;
    AnchoredTail(items, One(re[0]));
    forall n: nat
      ensures MatchesTo(re, text, n) ==> text != "" && Fits(re[0], text[0]) && MatchesHere(re[1..], text[1..])
    {
      if MatchesTo(re, text, n) {
        assert text[..n][1..] == text[1..][..n - 1];
        assert MatchesTo(re[1..], text[1..], n - 1);
      }
    }
    if text != "" && Fits(re[0], text[0]) && MatchesHere(re[1..], text[1..]) {
      var n: nat :| MatchesTo(re[1..], text[1..], n);
      assert text[..n + 1][1..] == text[1..][..n];
      assert MatchesTo(re, text, n + 1);
    }
  }

  ghost predicate StarAt(c: char, re: string, text: string, k: nat) {
    k <= |text| && AllFit(c, text[..k]) && MatchesHere(re, text[k..])
  }

  lemma HereStar(re: string, text: string)
    requires |re| > 1 && re[1] == '*'
    ensures MatchesHere(re, text) <==> exists k: nat :: StarAt(re[0], re[2..], text, k)
  {
    var items := Items(re[2..]);
    assert Items(re) == [Star(re[0])] + items && ([Star(re[0])] + items)[1..] == items;
    AnchoredTail(items, Star(re[0]));
    forall n: nat ensures MatchesTo(re, text, n) ==> exists k: nat :: StarAt(re[0], re[2..], text, k) {
      if MatchesTo(re, text, n) {
        StarForth(re, text, n);
      }
    }
    forall k: nat ensures StarAt(re[0], re[2..], text, k) ==> MatchesHere(re, text) {
      if StarAt(re[0], re[2..], text, k) {
        StarBack(re, text, k);
      }
    }
  }

  lemma StarForth(re: string, text: string, n: nat)
    requires |re| > 1 && re[1] == '*' && MatchesTo(re, text, n)
    requires Items(re) == [Star(re[0])] + Items(re[2..]) && (Anchored(Items(re)) <==> Anchored(Items(re[2..])))
    ensures exists k: nat :: StarAt(re[0], re[2..], text, k)
  {
    var items, w := Items(re), text[..n];
    assert items[1..] == Items(re[2..]);
    var k: nat :| k <= |w| && AllFit(re[0], w[..k]) && Word(items[1..], w[k..]);
    assert w[..k] == text[..k] && w[k..] == text[k..][..n - k];
    assert MatchesTo(re[2..], text[k..], n - k);
    assert StarAt(re[0], re[2..], text, k);
  }

  lemma StarBack(re: string, text: string, k: nat)
    requires |re| > 1 && re[1] == '*' && StarAt(re[0], re[2..], text, k)
    requires Items(re) == [Star(re[0])] + Items(re[2..]) && (Anchored(Items(re)) <==> Anchored(Items(re[2..])))
    ensures MatchesHere(re, text)
  {
    var items := Items(re);
    assert items[1..] == Items(re[2..]);
    var n: nat :| MatchesTo(re[2..], text[k..], n);
    var w := text[..k + n];
    assert w[..k] == text[..k] && w[k..] == text[k..][..n];
    assert AllFit(re[0], w[..k]) && Word(items[1..], w[k..]);
    assert MatchesTo(re, text, k + n);
  }

  // ----- The matcher -----

  method Match(re: string, text: string) returns (found: bool)
    ensures found <==> Matches(re, text)
  {
    if re != "" && re[0] == '^' {
      found := MatchHere(re[1..], text);
      return;
    }
    var i := 0;
    while true
      invariant 0 <= i <= |text|
      invariant forall j: nat :: j < i ==> !MatchesHere(re, text[j..])
      decreases |text| - i
    {
      found := MatchHere(re, text[i..]);
      if found || i == |text| {
        return;
      }
      i := i + 1;
    }
  }

  method MatchHere(re: string, text: string) returns (found: bool)
    ensures found <==> MatchesHere(re, text)
    decreases |re|, 0
  {
    if re == "" {
      HereEmpty(text);
      return true;
    }
    if |re| > 1 && re[1] == '*' {
      HereStar(re, text);
      found := MatchStar(re[0], re[2..], text);
      return;
    }
    if re == "$" {
      HereEnd(text);
      return text == "";
    }
    HereOne(re, text);
    if text != "" && (re[0] == '.' || re[0] == text[0]) {
      found := MatchHere(re[1..], text[1..]);
      return;
    }
    return false;
  }

  method MatchStar(c: char, re: string, text: string) returns (found: bool)
    ensures found <==> exists k: nat :: StarAt(c, re, text, k)
    decreases |re|, 1
  {
    var i := 0;
    while true
      invariant 0 <= i <= |text| && AllFit(c, text[..i])
      invariant forall k: nat :: k < i ==> !StarAt(c, re, text, k)
      decreases |text| - i
    {
      found := MatchHere(re, text[i..]);
      if found {
        assert StarAt(c, re, text, i);
        return;
      }
      if i == |text| || !(text[i] == c || c == '.') {
        break;
      }
      i := i + 1;
    }
    forall k: nat ensures !StarAt(c, re, text, k) {
      assert i < k <= |text| ==> text[..k][i] == text[i];
    }
  }
}
