/** The pattern matcher of `grep` and its line loop. A pattern is read as a sequence of items; what it
    means for a text to match is said by cutting the text into one piece per item, with no reference to
    how the matcher searches. */
module Grep {

  // ----- What a pattern means -----

  /** `One(c)` stands for one character and `Star(c)` for any number; `.` stands for every character. */
  datatype Item = One(c: char) | Star(c: char)

  /** `end` says that the pattern ends with `$`. */
  datatype Pattern = Pattern(items: seq<Item>, end: bool)

  function Parse(re: string): Pattern
    decreases |re|
  {
    if re == [] then Pattern([], false)
    else if |re| >= 2 && re[1] == '*' then
      var rest := Parse(re[2..]);
      rest.(items := [Star(re[0])] + rest.items)
    else if re == ['$'] then Pattern([], true)
    else
      var rest := Parse(re[1..]);
      rest.(items := [One(re[0])] + rest.items)
  }

  predicate Fits(c: char, x: char) {
    c == '.' || c == x
  }

  predicate Piece(item: Item, w: string) {
    match item
    case One(c) => |w| == 1 && Fits(c, w[0])
    case Star(c) => forall i :: 0 <= i < |w| ==> Fits(c, w[i])
  }

  /** `cuts` are the positions that divide `w` into one piece per item. */
  predicate IsCut(items: seq<Item>, w: string, cuts: seq<nat>) {
    |cuts| == |items| + 1 && cuts[0] == 0 && cuts[|items|] == |w| &&
    forall i :: 0 <= i < |items| ==> PieceAt(items, w, cuts, i)
  }

  predicate PieceAt(items: seq<Item>, w: string, cuts: seq<nat>, i: nat)
    requires i < |items| && |cuts| == |items| + 1
  {
    cuts[i] <= cuts[i + 1] <= |w| && Piece(items[i], w[cuts[i]..cuts[i + 1]])
  }

  ghost predicate Spells(items: seq<Item>, w: string) {
    exists cuts: seq<nat> :: IsCut(items, w, cuts)
  }

  /** The pattern matches a prefix of the text, all of it if it ends with `$`. */
  ghost predicate Here(re: string, text: string) {
    exists k: nat :: k <= |text| && HereUpTo(re, text, k)
  }

  ghost predicate HereUpTo(re: string, text: string, k: nat)
    requires k <= |text|
  {
    Spells(Parse(re).items, text[..k]) && (Parse(re).end ==> k == |text|)
  }

  /** The pattern matches somewhere in the text, at its start if it begins with `^`. */
  ghost predicate Matches(re: string, text: string) {
    if re != [] && re[0] == '^' then Here(re[1..], text) else exists j: nat :: j <= |text| && Here(re, text[j..])
  }

  // ----- Cutting off the first piece -----

  predicate SplitAt(item: Item, w: string, j: nat) {
    j <= |w| && Piece(item, w[..j])
  }

  lemma ConsCut(item: Item, rest: seq<Item>, w: string, j: nat, cuts: seq<nat>)
    requires SplitAt(item, w, j) && IsCut(rest, w[j..], cuts)
    ensures IsCut([item] + rest, w, [0] + seq(|cuts|, i requires 0 <= i < |cuts| => j + cuts[i]))
  {
    var items := [item] + rest;
    var all: seq<nat> := [0] + seq(|cuts|, i requires 0 <= i < |cuts| => j + cuts[i]);
    forall i | 0 <= i < |items| ensures PieceAt(items, w, all, i) {
      if i > 0 {
        assert PieceAt(rest, w[j..], cuts, i - 1);
        assert w[j..][cuts[i - 1]..cuts[i]] == w[all[i]..all[i + 1]];
      }
    }
  }

  lemma UnconsCut(item: Item, rest: seq<Item>, w: string, cuts: seq<nat>)
    requires IsCut([item] + rest, w, cuts)
    ensures SplitAt(item, w, cuts[1]) && Spells(rest, w[cuts[1]..])
  {
    var items := [item] + rest;
    assert PieceAt(items, w, cuts, 0);
    var j := cuts[1];
    assert w[0..j] == w[..j];
    CutsGrow(items, w, cuts);
    var tail: seq<nat> := seq(|rest| + 1, i requires 0 <= i <= |rest| => cuts[i + 1] - j);
    forall i | 0 <= i < |rest| ensures PieceAt(rest, w[j..], tail, i) {
      assert PieceAt(items, w, cuts, i + 1);
      assert w[j..][tail[i]..tail[i + 1]] == w[cuts[i + 1]..cuts[i + 2]];
    }
    assert IsCut(rest, w[j..], tail);
  }

  lemma CutsGrow(items: seq<Item>, w: string, cuts: seq<nat>)
    requires IsCut(items, w, cuts) && |items| > 0
    ensures forall i :: 1 <= i <= |items| ==> cuts[1] <= cuts[i]
  {
    var n := 1;
    while n < |items|
      invariant 1 <= n <= |items| && forall i :: 1 <= i <= n ==> cuts[1] <= cuts[i]
    {
      assert PieceAt(items, w, cuts, n);
      n := n + 1;
    }
  }

  lemma SpellsCons(item: Item, rest: seq<Item>, w: string)
    ensures Spells([item] + rest, w) <==> exists j: nat :: SplitAt(item, w, j) && Spells(rest, w[j..])
  {
    if Spells([item] + rest, w) {
      var cuts: seq<nat> :| IsCut([item] + rest, w, cuts);
      UnconsCut(item, rest, w, cuts);
    }
    if j: nat :| SplitAt(item, w, j) && Spells(rest, w[j..]) {
      var cuts: seq<nat> :| IsCut(rest, w[j..], cuts);
      ConsCut(item, rest, w, j, cuts);
    }
  }

  lemma SpellsNothing(w: string)
    ensures Spells([], w) <==> w == []
  {
    if w == [] {
      assert IsCut([], w, [0]);
    }
  }

  // ----- Unfolding a match at the start of the text -----

  lemma HereEmpty(text: string)
    ensures Here([], text)
  {
    SpellsNothing([]);
    assert text[..0] == [];
    assert HereUpTo([], text, 0);
  }

  lemma HereDollar(text: string)
    ensures Here(['$'], text) <==> text == []
  {
    assert Parse(['$']) == Pattern([], true);
    if k: nat :| k <= |text| && HereUpTo(['$'], text, k) {
      SpellsNothing(text[..k]);
      assert text[..k] == text;
    }
    if text == [] {
      SpellsNothing([]);
      assert HereUpTo(['$'], text, 0);
    }
  }

  /** The first item of `re` is `item` and the others are those of `rest`. */
  predicate Starts(re: string, item: Item, rest: string) {
    Parse(re) == Parse(rest).(items := [item] + Parse(rest).items)
  }

  lemma HereSplit(re: string, item: Item, rest: string, text: string, k: nat)
    requires Starts(re, item, rest) && k <= |text| && HereUpTo(re, text, k)
    ensures exists j: nat :: SplitAt(item, text, j) && Here(rest, text[j..])
  {
    SpellsCons(item, Parse(rest).items, text[..k]);
    var j: nat :| SplitAt(item, text[..k], j) && Spells(Parse(rest).items, text[..k][j..]);
    assert text[..k][..j] == text[..j] && text[..k][j..] == text[j..][..k - j];
    assert HereUpTo(rest, text[j..], k - j);
    assert SplitAt(item, text, j);
  }

  lemma HereJoin(re: string, item: Item, rest: string, text: string, j: nat, k: nat)
    requires Starts(re, item, rest) && SplitAt(item, text, j) && k <= |text[j..]| && HereUpTo(rest, text[j..], k)
    ensures Here(re, text)
  {
    assert text[..j + k][..j] == text[..j] && text[..j + k][j..] == text[j..][..k];
    assert SplitAt(item, text[..j + k], j);
    SpellsCons(item, Parse(rest).items, text[..j + k]);
    assert HereUpTo(re, text, j + k);
  }

  lemma HereCons(re: string, item: Item, rest: string, text: string)
    requires Starts(re, item, rest)
    ensures Here(re, text) <==> exists j: nat :: SplitAt(item, text, j) && Here(rest, text[j..])
  {
    if k: nat :| k <= |text| && HereUpTo(re, text, k) {
      HereSplit(re, item, rest, text, k);
    }
    if j: nat :| SplitAt(item, text, j) && Here(rest, text[j..]) {
      var k: nat :| k <= |text[j..]| && HereUpTo(rest, text[j..], k);
      HereJoin(re, item, rest, text, j, k);
    }
  }

  lemma HereOne(re: string, text: string)
    requires re != [] && !(|re| >= 2 && re[1] == '*') && re != ['$']
    ensures Here(re, text) <==> text != [] && Fits(re[0], text[0]) && Here(re[1..], text[1..])
  {
    HereCons(re, One(re[0]), re[1..], text);
    if j: nat :| SplitAt(One(re[0]), text, j) && Here(re[1..], text[j..]) {
      assert j == 1 && text[..1][0] == text[0];
    }
    if text != [] && Fits(re[0], text[0]) && Here(re[1..], text[1..]) {
      assert SplitAt(One(re[0]), text, 1);
    }
  }

  /** `c*` followed by `re` matches at the start of the text. */
  ghost predicate HereStar(c: char, re: string, text: string) {
    exists j: nat :: SplitAt(Star(c), text, j) && Here(re, text[j..])
  }

  lemma StarStops(c: char, text: string, n: nat, j: nat)
    requires n <= |text| && (n == |text| || !Fits(c, text[n]))
    ensures SplitAt(Star(c), text, j) ==> j <= n
  {
    if n < j <= |text| {
      assert text[..j][n] == text[n];
    }
  }

  // ----- The matcher -----

  method MatchHere(re: string, text: string) returns (ok: bool)
    ensures ok <==> Here(re, text)
    decreases |re|, 0
  {
    if re == [] {
      HereEmpty(text);
      return true;
    }
    if |re| >= 2 && re[1] == '*' {
      HereCons(re, Star(re[0]), re[2..], text);
      ok := MatchStar(re[0], re[2..], text);
      return;
    }
    if re[0] == '$' && |re| == 1 {
      assert re == ['$'];
      HereDollar(text);
      return text == [];
    }
    HereOne(re, text);
    if text != [] && (re[0] == '.' || re[0] == text[0]) {
      ok := MatchHere(re[1..], text[1..]);
      return;
    }
    return false;
  }

  method MatchStar(c: char, re: string, text: string) returns (ok: bool)
    ensures ok <==> HereStar(c, re, text)
    decreases |re|, 1
  {
    var n := 0;
    while true
      invariant n <= |text| && SplitAt(Star(c), text, n)
      invariant forall j: nat :: j < n ==> !Here(re, text[j..])
      decreases |text| - n
    {
      var here := MatchHere(re, text[n..]);
      if here {
        return true;
      }
      if n < |text| && (text[n] == c || c == '.') {
        n := n + 1;
      } else {
        break;
      }
    }
    forall j: nat ensures SplitAt(Star(c), text, j) ==> j <= n {
      StarStops(c, text, n, j);
    }
    return false;
  }

  method Match(re: string, text: string) returns (ok: bool)
    ensures ok <==> Matches(re, text)
  {
    if re != [] && re[0] == '^' {
      ok := MatchHere(re[1..], text);
      return;
    }
    var n := 0;
    while true
      invariant n <= |text| && forall j: nat :: j < n ==> !Here(re, text[j..])
      decreases |text| - n
    {
      var here := MatchHere(re, text[n..]);
      if here {
        return true;
      }
      if n == |text| {
        break;
      }
      n := n + 1;
    }
    return false;
  }
}
