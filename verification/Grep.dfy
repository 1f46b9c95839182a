/** The regular-expression matcher of user/grep.c against the language of the pattern. Strings are C
    strings without their terminating zero. */
module Grep {
  /** One character, or any number of them; '.' stands for any. */
  datatype Item = One(c: char) | Star(c: char)

  /** A parsed pattern: its items, and whether it ends in '$'. */
  datatype Pattern = Pattern(items: seq<Item>, dollar: bool)

  function Parse(re: string): (p: Pattern)
    decreases |re|
  {
    if re == "" then Pattern([], false)
    else if |re| > 1 && re[1] == '*' then var p := Parse(re[2..]); Pattern([Star(re[0])] + p.items, p.dollar)
    else if re == "$" then Pattern([], true)
    else var p := Parse(re[1..]); Pattern([One(re[0])] + p.items, p.dollar)
  }

  predicate Fits(c: char, x: char) { c == '.' || c == x }

  predicate AllFit(c: char, s: string) { forall k :: 0 <= k < |s| ==> Fits(c, s[k]) }

  /** Is the string in the language of the items? */
  ghost predicate Denotes(items: seq<Item>, s: string)
    decreases |items|
  {
    if items == [] then s == ""
    else match items[0] {
      case One(c) => s != "" && Fits(c, s[0]) && Denotes(items[1..], s[1..])
      case Star(c) => exists k :: 0 <= k <= |s| && AllFit(c, s[..k]) && Denotes(items[1..], s[k..])
    }
  }

  /** `s[i..j]` is in the language, and at the end of `s` if the pattern demands that. */
  ghost predicate Occurs(p: Pattern, s: string, i: nat, j: nat) {
    i <= j <= |s| && Denotes(p.items, s[i..j]) && (p.dollar ==> j == |s|)
  }

  /** The pattern matches at the beginning of `s`. */
  ghost predicate Here(p: Pattern, s: string) {
    exists j: nat :: Occurs(p, s, 0, j)
  }

  // The language, one item at a time

  lemma HereEnd(s: string, dollar: bool)
    ensures Here(Pattern([], dollar), s) <==> !dollar || s == ""
  {
    if !dollar || s == "" { assert Occurs(Pattern([], dollar), s, 0, 0); }
  }

  lemma HereOne(c: char, rest: Pattern, s: string)
    ensures Here(Pattern([One(c)] + rest.items, rest.dollar), s) <==> s != "" && Fits(c, s[0]) && Here(rest, s[1..])
  {
    var p := Pattern([One(c)] + rest.items, rest.dollar);
    assert p.items[1..] == rest.items;
    if Here(p, s) {
      var j: nat :| Occurs(p, s, 0, j);
      assert s[0..j][1..] == s[1..][0..j - 1];
      assert Occurs(rest, s[1..], 0, j - 1);
    }
    if s != "" && Fits(c, s[0]) && Here(rest, s[1..]) {
      var j: nat :| Occurs(rest, s[1..], 0, j);
      assert s[0..j + 1][1..] == s[1..][0..j];
      assert Occurs(p, s, 0, j + 1);
    }
  }

  /** The rest matches after some run of characters that fit. */
  ghost predicate After(c: char, rest: Pattern, s: string, k: nat) {
    k <= |s| && AllFit(c, s[..k]) && Here(rest, s[k..])
  }

  lemma HereStar(c: char, rest: Pattern, s: string)
    ensures Here(Pattern([Star(c)] + rest.items, rest.dollar), s) <==> exists k: nat :: After(c, rest, s, k)
  {
    var p := Pattern([Star(c)] + rest.items, rest.dollar);
    assert p.items[1..] == rest.items;
    if Here(p, s) {
      var j: nat :| Occurs(p, s, 0, j);
      var k: nat :| 0 <= k <= j && AllFit(c, s[0..j][..k]) && Denotes(rest.items, s[0..j][k..]);
      assert s[0..j][..k] == s[..k] && s[0..j][k..] == s[k..][0..j - k];
      assert Occurs(rest, s[k..], 0, j - k);
      assert After(c, rest, s, k);
    }
    if k: nat :| After(c, rest, s, k) {
      var j: nat :| Occurs(rest, s[k..], 0, j);
      assert s[0..j + k][..k] == s[..k] && s[0..j + k][k..] == s[k..][0..j];
      assert Occurs(p, s, 0, j + k);
    }
  }

  /** A run of characters that fit does not go past one that does not. */
  lemma RunEnds(c: char, rest: Pattern, s: string, i: nat)
    requires i <= |s| && (i < |s| ==> !Fits(c, s[i])) && forall k: nat :: k <= i ==> !After(c, rest, s, k)
    ensures !exists k: nat :: After(c, rest, s, k)
  {
    forall k: nat | i < k <= |s| ensures !AllFit(c, s[..k]) {
      assert s[..k][i] == s[i];
    }
  }

  lemma HereShift(p: Pattern, s: string, i: nat)
    requires i <= |s|
    ensures Here(p, s[i..]) <==> exists j: nat :: Occurs(p, s, i, j)
  {
    if Here(p, s[i..]) {
      var j: nat :| Occurs(p, s[i..], 0, j);
      assert s[i..][0..j] == s[i..i + j];
      assert Occurs(p, s, i, i + j);
    }
    if j: nat :| Occurs(p, s, i, j) {
      assert s[i..][0..j - i] == s[i..j];
      assert Occurs(p, s[i..], 0, j - i);
    }
  }

  // The matcher

  method Matchhere(re: string, text: string) returns (r: bool)
    ensures r <==> Here(Parse(re), text)
    decreases |re|, 0
  {
    if re == "" {
      HereEnd(text, false);
      return true;
    }
    if |re| > 1 && re[1] == '*' {
      assert Parse(re) == Pattern([Star(re[0])] + Parse(re[2..]).items, Parse(re[2..]).dollar);
      HereStar(re[0], Parse(re[2..]), text);
      r := Matchstar(re[0], re[2..], text);
      return;
    }
    if re[0] == '$' && |re| == 1 {
      assert re == "$";
      HereEnd(text, true);
      return text == "";
    }
    HereOne(re[0], Parse(re[1..]), text);
    if text != "" && (re[0] == '.' || re[0] == text[0]) {
      r := Matchhere(re[1..], text[1..]);
      return;
    }
    return false;
  }

  method Matchstar(c: char, re: string, text: string) returns (r: bool)
    ensures r <==> exists k: nat :: After(c, Parse(re), text, k)
    decreases |re|, 1
  {
    var i := 0;
    while true
      invariant 0 <= i <= |text| && AllFit(c, text[..i])
      invariant forall k: nat :: k < i ==> !After(c, Parse(re), text, k)
      decreases |text| - i
    {
      var here := Matchhere(re, text[i..]);
      if here {
        assert After(c, Parse(re), text, i);
        return true;
      }
      if i == |text| || !(text[i] == c || c == '.') {
        break;
      }
      i := i + 1;
    }
    RunEnds(c, Parse(re), text, i);
    return false;
  }

  /** match: some substring is in the language of the pattern without its '^', at the start of the
      text if it has one, and at the end if it ends in '$'. */
  method Match(re: string, text: string) returns (r: bool)
    ensures r <==> exists i: nat, j: nat :: Found(re, text, i, j)
  {
    if re != "" && re[0] == '^' {
      r := Matchhere(re[1..], text);
      if r {
        ghost var j: nat :| Occurs(Parse(re[1..]), text, 0, j);
        assert Found(re, text, 0, j);
      }
      return;
    }
    var i := 0;
    while true
      invariant 0 <= i <= |text| && forall k: nat, j: nat :: k < i ==> !Occurs(Parse(re), text, k, j)
      decreases |text| - i
    {
      var here := Matchhere(re, text[i..]);
      HereShift(Parse(re), text, i);
      if here {
        ghost var j: nat :| Occurs(Parse(re), text, i, j);
        assert Found(re, text, i, j);
        return true;
      }
      if i == |text| {
        return false;
      }
      i := i + 1;
    }
  }

  ghost predicate Found(re: string, text: string, i: nat, j: nat) {
    if re != "" && re[0] == '^' then i == 0 && Occurs(Parse(re[1..]), text, 0, j) else Occurs(Parse(re), text, i, j)
  }
}
