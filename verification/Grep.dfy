/** The pattern matcher of grep.c, against the language a pattern denotes. Strings are C
    strings without their terminator. */
module Grep {

  /** One element of a pattern: a single character, any character, or a repetition of
      either. */
  datatype Item = Lit(c: char) | Any | Star(c: char)

  /** A pattern after a leading '^' has been dealt with; `atEnd` records a final '$'. */
  datatype Pattern = Pattern(items: seq<Item>, atEnd: bool)

  /** How the matcher reads a pattern: a character followed by '*' repeats, whatever the
      character; '$' anchors only as the very last character; '.' is any character. */
  function Parse(re: string): (p: Pattern)
    decreases |re|
  {
    if re == "" then Pattern([], false)
    else if |re| >= 2 && re[1] == '*' then
      var rest := Parse(re[2..]);
      Pattern([Star(re[0])] + rest.items, rest.atEnd)
    else if re == "$" then Pattern([], true)
    else
      var rest := Parse(re[1..]);
      Pattern([if re[0] == '.' then Any else Lit(re[0])] + rest.items, rest.atEnd)
  }

  /** c, or '.' standing for any character, describes x. */
  predicate Describes(c: char, x: char) { c == '.' || c == x }

  ghost predicate AllDescribed(c: char, w: string) {
    forall i :: 0 <= i < |w| ==> Describes(c, w[i])
  }

  /** The language of a list of items: w is cut into one piece per item. */
  ghost predicate InLanguage(items: seq<Item>, w: string)
    decreases |items|
  {
    if items == [] then w == ""
    else
      match items[0]
      case Lit(c) => w != "" && w[0] == c && InLanguage(items[1..], w[1..])
      case Any => w != "" && InLanguage(items[1..], w[1..])
      case Star(c) => exists k :: 0 <= k <= |w| && AllDescribed(c, w[..k]) && InLanguage(items[1..], w[k..])
  }

  /** The part of text from i to j is a match: it lies in the language and respects '$'. */
  ghost predicate MatchesAt(p: Pattern, text: string, i: int, j: int) {
    0 <= i <= j <= |text| && InLanguage(p.items, text[i..j]) && (p.atEnd ==> j == |text|)
  }

  /** Some part of text that starts at i is a match. */
  ghost predicate MatchesFrom(p: Pattern, text: string, i: int) {
    exists j :: MatchesAt(p, text, i, j)
  }

  /** What grep promises: some part of the text matches; with a leading '^', some prefix. */
  ghost predicate Matches(re: string, text: string) {
    if re != "" && re[0] == '^' then MatchesFrom(Parse(re[1..]), text, 0)
    else exists i :: MatchesFrom(Parse(re), text, i)
  }

  // ---- how the matcher's tests relate to the language ----

  lemma MatchesSuffix(p: Pattern, text: string, i: nat)
    requires i <= |text|
    ensures MatchesFrom(p, text[i..], 0) <==> MatchesFrom(p, text, i)
  {
    var t := text[i..];
    if MatchesFrom(p, t, 0) {
      var j :| MatchesAt(p, t, 0, j);
      assert t[0..j] == text[i..i + j];
      assert MatchesAt(p, text, i, i + j);
    }
    if MatchesFrom(p, text, i) {
      var j :| MatchesAt(p, text, i, j);
      assert t[0..j - i] == text[i..j];
      assert MatchesAt(p, t, 0, j - i);
    }
  }

  /** A pattern that begins with a single character. */
  lemma MatchesChar(p: Pattern, text: string)
    requires p.items != [] && !p.items[0].Star?
    ensures MatchesFrom(p, text, 0) <==>
              text != "" && (p.items[0].Any? || text[0] == p.items[0].c)
              && MatchesFrom(p.(items := p.items[1..]), text[1..], 0)
  {
    var q := p.(items := p.items[1..]);
    if MatchesFrom(p, text, 0) {
      var j :| MatchesAt(p, text, 0, j);
      assert text[0..j][1..] == text[1..][0..j - 1];
      assert MatchesAt(q, text[1..], 0, j - 1);
    }
    if text != "" && (p.items[0].Any? || text[0] == p.items[0].c) && MatchesFrom(q, text[1..], 0) {
      var j :| MatchesAt(q, text[1..], 0, j);
      assert text[0..j + 1][1..] == text[1..][0..j];
      assert MatchesAt(p, text, 0, j + 1);
    }
  }

  /** A pattern that begins with a repetition: the rest matches after some described part. */
  lemma MatchesStar(p: Pattern, text: string)
    requires p.items != [] && p.items[0].Star?
    ensures var q := p.(items := p.items[1..]);
            MatchesFrom(p, text, 0) <==>
              exists k :: 0 <= k <= |text| && AllDescribed(p.items[0].c, text[..k]) && MatchesFrom(q, text, k)
  {
    var q, c := p.(items := p.items[1..]), p.items[0].c;
    if MatchesFrom(p, text, 0) {
      var j :| MatchesAt(p, text, 0, j);
      var w := text[0..j];
      var k :| 0 <= k <= |w| && AllDescribed(c, w[..k]) && InLanguage(q.items, w[k..]);
      assert w[..k] == text[..k] && w[k..] == text[k..j];
      assert MatchesAt(q, text, k, j);
    }
    if exists k :: 0 <= k <= |text| && AllDescribed(c, text[..k]) && MatchesFrom(q, text, k) {
      var k :| 0 <= k <= |text| && AllDescribed(c, text[..k]) && MatchesFrom(q, text, k);
      var j :| MatchesAt(q, text, k, j);
      var w := text[0..j];
      assert w[..k] == text[..k] && w[k..] == text[k..j];
      assert MatchesAt(p, text, 0, j);
    }
  }

  // ---- what a pattern string means ----

  /** Some prefix of the text is a match for the pattern string. */
  ghost predicate Starts(re: string, text: string) {
    MatchesFrom(Parse(re), text, 0)
  }

  lemma EmptyStarts(text: string)
    ensures Starts("", text)
  {
    assert MatchesAt(Parse(""), text, 0, 0);
  }

  /** A '$' that is the last character anchors; elsewhere it is a character like others. */
  lemma DollarStarts(text: string)
    ensures Starts("$", text) <==> text == ""
  {
    if text == "" {
      assert MatchesAt(Parse("$"), text, 0, 0);
    }
  }

  /** A character stands for itself and '.' for any, unless a '*' follows. */
  lemma CharStarts(c: char, re: string, text: string)
    requires (re == "" || re[0] != '*') && !(c == '$' && re == "")
    ensures Starts([c] + re, text) <==> text != "" && (c == '.' || c == text[0]) && Starts(re, text[1..])
  {
    var s := [c] + re;
    var p := Parse(s);
    assert s[0] == c && s[1..] == re;
    assert |s| >= 2 ==> s[1] == re[0];
    assert s != "$";
    assert p.(items := p.items[1..]) == Parse(re);
    MatchesChar(p, text);
  }

  /** With a '*' it stands for any number of such characters. */
  lemma StarStarts(c: char, re: string, text: string)
    ensures Starts([c, '*'] + re, text) <==>
              exists k :: 0 <= k <= |text| && (forall i :: 0 <= i < k ==> c == '.' || c == text[i])
                          && Starts(re, text[k..])
  {
    var p := Parse([c, '*'] + re);
    assert ([c, '*'] + re)[2..] == re;
    assert p.(items := p.items[1..]) == Parse(re);
    MatchesStar(p, text);
    forall k | 0 <= k <= |text|
      ensures AllDescribed(c, text[..k]) <==> forall i :: 0 <= i < k ==> c == '.' || c == text[i]
      ensures MatchesFrom(Parse(re), text, k) <==> Starts(re, text[k..])
    {
      assert AllDescribed(c, text[..k]) ==> forall i :: 0 <= i < k ==> Describes(c, text[..k][i]);
      MatchesSuffix(Parse(re), text, k);
    }
  }

  /** A leading '^' anchors; without it a match may start anywhere. */
  lemma MatchesMeans(re: string, text: string)
    ensures Matches("^" + re, text) <==> Starts(re, text)
    ensures re == "" || re[0] != '^' ==>
              (Matches(re, text) <==> exists i :: 0 <= i <= |text| && Starts(re, text[i..]))
  {
    assert ("^" + re)[1..] == re;
    forall i | 0 <= i <= |text| ensures MatchesFrom(Parse(re), text, i) <==> Starts(re, text[i..]) {
      MatchesSuffix(Parse(re), text, i);
    }
    if re == "" || re[0] != '^' {
      if i :| MatchesFrom(Parse(re), text, i) {
        var j :| MatchesAt(Parse(re), text, i, j);
        assert Starts(re, text[i..]);
      }
    }
  }

  // ---- the matcher ----

  /** match: search for the pattern anywhere in the text. */
  method Match(re: string, text: string) returns (found: bool)
    ensures found <==> Matches(re, text)
  {
    if re != "" && re[0] == '^' {
      found := MatchHere(re[1..], text);
      return;
    }
    var i := 0;
    while true
      invariant 0 <= i <= |text|
      invariant forall k :: 0 <= k < i ==> !MatchesFrom(Parse(re), text, k)
      decreases |text| - i
    {
      var here := MatchHere(re, text[i..]);
      MatchesSuffix(Parse(re), text, i);
      if here {
        return true;
      }
      if i == |text| {
        break;
      }
      i := i + 1;
    }
    found := false;
  }

  /** matchhere: search for the pattern at the beginning of the text. */
  method MatchHere(re: string, text: string) returns (found: bool)
    ensures found <==> MatchesFrom(Parse(re), text, 0)
    decreases |re|, 1
  {
    var p := Parse(re);
    if re == "" {
      assert MatchesAt(p, text, 0, 0);
      return true;
    }
    if |re| >= 2 && re[1] == '*' {
      assert p.(items := p.items[1..]) == Parse(re[2..]);
      MatchesStar(p, text);
      found := MatchStar(re[0], re[2..], text);
      return;
    }
    if re == "$" {
      if text == "" { assert MatchesAt(p, text, 0, 0); }
      return text == "";
    }
    assert p.(items := p.items[1..]) == Parse(re[1..]);
    MatchesChar(p, text);
    if text != "" && (re[0] == '.' || re[0] == text[0]) {
      found := MatchHere(re[1..], text[1..]);
      return;
    }
    return false;
  }

  /** matchstar: search for a repetition of c followed by the pattern. */
  method MatchStar(c: char, re: string, text: string) returns (found: bool)
    ensures found <==> exists k :: 0 <= k <= |text| && AllDescribed(c, text[..k]) && MatchesFrom(Parse(re), text, k)
    decreases |re|, 2
  {
    var i := 0;
    while true
      invariant 0 <= i <= |text| && AllDescribed(c, text[..i])
      invariant forall k :: 0 <= k < i ==> !MatchesFrom(Parse(re), text, k)
      decreases |text| - i
    {
      var here := MatchHere(re, text[i..]);
      MatchesSuffix(Parse(re), text, i);
      if here {
        return true;
      }
      if i == |text| || !(text[i] == c || c == '.') {
        break;
      }
      assert text[..i + 1] == text[..i] + [text[i]];
      i := i + 1;
    }
    found := false;
    forall k | i < k <= |text| ensures !AllDescribed(c, text[..k]) {
      assert text[..k][i] == text[i];
    }
  }
}
