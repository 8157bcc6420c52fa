/** The regular-expression matcher of grep.c against a declarative meaning of its patterns. Strings
    are without the terminating NUL. */
module Grep {
  // A pattern is a row of items, perhaps anchored at the end of the text.
  datatype Item = One(c: char) | Star(c: char)
  datatype Pattern = Pattern(items: seq<Item>, atEnd: bool)

  // How the matcher reads a pattern: c* is a repetition whatever c is, a $ counts as the anchor only
  // in the last place, and every other character stands for itself, or for any if it is a dot.
  function Parse(re: string): Pattern {
    if re == [] then Pattern([], false)
    else if |re| >= 2 && re[1] == '*' then
      var p := Parse(re[2..]);
      p.(items := [Star(re[0])] + p.items)
    else if re == "$" then Pattern([], true)
    else
      var p := Parse(re[1..]);
      p.(items := [One(re[0])] + p.items)
  }

  predicate Is(c: char, x: char) { c == '.' || c == x }

  predicate AllIs(c: char, s: string) { forall i :: 0 <= i < |s| ==> Is(c, s[i]) }

  // s is the items' strings one after the other.
  predicate Denotes(items: seq<Item>, s: string)
    decreases |items|
  {
    if items == [] then s == []
    else match items[0]
      case One(c) => s != [] && Is(c, s[0]) && Denotes(items[1..], s[1..])
      case Star(c) => exists k :: 0 <= k <= |s| && AllIs(c, s[..k]) && Denotes(items[1..], s[k..])
  }

  // The text from its first character to its j-th is matched.
  predicate MatchesTo(p: Pattern, text: string, j: nat) {
    j <= |text| && Denotes(p.items, text[..j]) && (p.atEnd ==> j == |text|)
  }

  predicate MatchesHere(p: Pattern, text: string) { exists j :: 0 <= j <= |text| && MatchesTo(p, text, j) }

  // Some position of the text is matched; with a leading ^, the first.
  predicate Matches(re: string, text: string) {
    if re != [] && re[0] == '^' then MatchesHere(Parse(re[1..]), text)
    else exists i :: 0 <= i <= |text| && MatchesHere(Parse(re), text[i..])
  }

  // A single item is tried on the first character.
  lemma HereOne(c: char, p: Pattern, text: string)
    ensures MatchesHere(p.(items := [One(c)] + p.items), text) <==>
            text != [] && Is(c, text[0]) && MatchesHere(p, text[1..])
  {
    var q := p.(items := [One(c)] + p.items);
    assert q.items[0] == One(c) && q.items[1..] == p.items;
    if MatchesHere(q, text) {
      var j :| 0 <= j <= |text| && MatchesTo(q, text, j);
      assert text[..j][1..] == text[1..][..j - 1];
      assert MatchesTo(p, text[1..], j - 1);
    }
    if text != [] && Is(c, text[0]) && MatchesHere(p, text[1..]) {
      var j :| 0 <= j <= |text[1..]| && MatchesTo(p, text[1..], j);
      assert text[..j + 1][1..] == text[1..][..j];
      assert MatchesTo(q, text, j + 1);
    }
  }

  // A repetition takes some number of characters, and the rest is matched after them.
  lemma HereStar(c: char, p: Pattern, text: string)
    ensures MatchesHere(p.(items := [Star(c)] + p.items), text) <==>
            exists k :: 0 <= k <= |text| && AllIs(c, text[..k]) && MatchesHere(p, text[k..])
  {
    var q := p.(items := [Star(c)] + p.items);
    assert q.items[0] == Star(c) && q.items[1..] == p.items;
    if MatchesHere(q, text) {
      var j :| 0 <= j <= |text| && MatchesTo(q, text, j);
      var s := text[..j];
      var k :| 0 <= k <= |s| && AllIs(c, s[..k]) && Denotes(p.items, s[k..]);
      assert s[..k] == text[..k] && s[k..] == text[k..][..j - k];
      assert MatchesTo(p, text[k..], j - k);
    }
    if k :| 0 <= k <= |text| && AllIs(c, text[..k]) && MatchesHere(p, text[k..]) {
      var j :| 0 <= j <= |text[k..]| && MatchesTo(p, text[k..], j);
      var s := text[..k + j];
      assert s[..k] == text[..k] && s[k..] == text[k..][..j];
      assert MatchesTo(q, text, k + j);
    }
  }

  lemma HereEnd(p: Pattern, text: string)
    requires p.items == []
    ensures MatchesHere(p, text) <==> (p.atEnd ==> text == [])
  {
    assert text[..0] == [];
    if p.atEnd ==> text == [] { assert MatchesTo(p, text, 0); }
  }

  method MatchHere(re: string, text: string) returns (r: bool)
    ensures r <==> MatchesHere(Parse(re), text)
    decreases |re|, 0
  {
    if re == [] {
      HereEnd(Parse(re), text);
      return true;
    }
    if |re| >= 2 && re[1] == '*' {
      HereStar(re[0], Parse(re[2..]), text);
      r := MatchStar(re[0], re[2..], text);
      return;
    }
    if re == "$" {
      HereEnd(Parse(re), text);
      return text == [];
    }
    HereOne(re[0], Parse(re[1..]), text);
    if text != [] && (re[0] == '.' || re[0] == text[0]) {
      r := MatchHere(re[1..], text[1..]);
      return;
    }
    return false;
  }

  // c* and then re, tried with the shortest repetition first.
  method MatchStar(c: char, re: string, text: string) returns (r: bool)
    ensures r <==> exists k :: 0 <= k <= |text| && AllIs(c, text[..k]) && MatchesHere(Parse(re), text[k..])
    decreases |re|, 1
  {
    var i := 0;
    while true
      invariant 0 <= i <= |text| && AllIs(c, text[..i])
      invariant forall k :: 0 <= k < i ==> !MatchesHere(Parse(re), text[k..])
      decreases |text| - i
    {
      r := MatchHere(re, text[i..]);
      if r { return; }
      if i == |text| || !(text[i] == c || c == '.') { break; }
      assert text[..i + 1] == text[..i] + [text[i]];
      i := i + 1;
    }
    forall k | i < k <= |text| ensures !AllIs(c, text[..k]) { assert text[..k][i] == text[i]; }
  }

  // match: nonzero exactly when the pattern matches somewhere, or at the start if it begins with ^.
  method Match(re: string, text: string) returns (r: bool)
    ensures r <==> Matches(re, text)
  {
    if re != [] && re[0] == '^' {
      r := MatchHere(re[1..], text);
      return;
    }
    var i := 0;
    while true
      invariant 0 <= i <= |text|
      invariant forall k :: 0 <= k < i ==> !MatchesHere(Parse(re), text[k..])
      decreases |text| - i
    {
      r := MatchHere(re, text[i..]);
      if r { return; }
      if i == |text| { break; }
      i := i + 1;
    }
  }
}
