/**
user/grep.c. A pattern denotes a set of strings, given here without reference to how matching is
done; match is proved to accept exactly the texts that contain one of them where ^ and $ allow.
C strings are written without their NUL; reading past the end gives it.
*/
module Patterns {
  predicate NoNul(s: string) {
    forall i :: 0 <= i < |s| ==> s[i] != '\0'
  }

  type CString = s: string | NoNul(s)

  /** One character, or any number of them in a row if starred; '.' stands for any character. */
  datatype Item = Item(c: char, star: bool)

  /** What a pattern without its leading ^ says: items in order, at the end of the text if atEnd. */
  datatype Pattern = Pattern(items: seq<Item>, atEnd: bool)

  function CharAt(s: CString, i: nat): char {
    if i < |s| then s[i] else '\0'
  }

  function Parse(re: CString): (p: Pattern)
    ensures |p.items| <= |re|
  {
    if re == "" then Pattern([], false)
    else if CharAt(re, 1) == '*' then var p := Parse(re[2..]); Pattern([Item(re[0], true)] + p.items, p.atEnd)
    else if re == "$" then Pattern([], true)
    else var p := Parse(re[1..]); Pattern([Item(re[0], false)] + p.items, p.atEnd)
  }

  predicate Fits(c: char, x: char) {
    c == '.' || c == x
  }

  predicate PieceFits(it: Item, piece: string) {
    if it.star then forall k :: 0 <= k < |piece| ==> Fits(it.c, piece[k]) else |piece| == 1 && Fits(it.c, piece[0])
  }

  function Concat(pieces: seq<string>): string {
    if pieces == [] then "" else pieces[0] + Concat(pieces[1..])
  }

  /** s falls into one piece for each item. */
  ghost predicate InLanguage(items: seq<Item>, s: string) {
    exists pieces: seq<string> :: Concat(pieces) == s && Pieces(items, pieces)
  }

  /** A prefix of text is in the language; all of it if the pattern ends in $. */
  ghost predicate MatchesHere(re: CString, text: CString) {
    exists k: nat :: k <= |text| && InLanguage(Parse(re).items, text[..k]) && (Parse(re).atEnd ==> k == |text|)
  }

  /** Some part of text is in the language, at the place ^ and $ demand. */
  ghost predicate Matches(re: CString, text: CString) {
    if re != "" && re[0] == '^' then MatchesHere(re[1..], text)
    else exists i: nat :: i <= |text| && MatchesHere(re, text[i..])
  }

  // ---- the language, item by item ----

  lemma LanguageEmpty(s: string)
    ensures InLanguage([], s) <==> s == ""
  {
    if s == "" { assert Concat([]) == s && Pieces([], []); }
  }

  ghost predicate Pieces(items: seq<Item>, pieces: seq<string>) {
    |pieces| == |items| && forall i :: 0 <= i < |items| ==> PieceFits(items[i], pieces[i])
  }

  lemma PiecesCons(it: Item, items: seq<Item>, piece: string, rest: seq<string>)
    ensures Pieces([it] + items, [piece] + rest) <==> PieceFits(it, piece) && Pieces(items, rest)
  {
    hide PieceFits;
    var all, ps := [it] + items, [piece] + rest;
    if Pieces(all, ps) {
      assert PieceFits(all[0], ps[0]);
      forall i | 0 <= i < |items| ensures PieceFits(items[i], rest[i]) { assert PieceFits(all[i + 1], ps[i + 1]); }
    }
  }

  lemma LanguageCons(it: Item, items: seq<Item>, s: string)
    ensures InLanguage([it] + items, s) <==>
              exists k: nat :: k <= |s| && PieceFits(it, s[..k]) && InLanguage(items, s[k..])
  {
    hide PieceFits, Pieces;
    if InLanguage([it] + items, s) {
      var pieces: seq<string> :| Concat(pieces) == s && Pieces([it] + items, pieces);
      LanguageSplit(it, items, s, pieces);
    }
    if exists k: nat :: k <= |s| && PieceFits(it, s[..k]) && InLanguage(items, s[k..]) {
      var k: nat :| k <= |s| && PieceFits(it, s[..k]) && InLanguage(items, s[k..]);
      var rest: seq<string> :| Concat(rest) == s[k..] && Pieces(items, rest);
      PiecesCons(it, items, s[..k], rest);
      assert ([s[..k]] + rest)[1..] == rest && Concat([s[..k]] + rest) == s;
    }
  }

  lemma LanguageSplit(it: Item, items: seq<Item>, s: string, pieces: seq<string>)
    requires Concat(pieces) == s && Pieces([it] + items, pieces)
    ensures exists k: nat :: k <= |s| && PieceFits(it, s[..k]) && InLanguage(items, s[k..])
  {
    hide PieceFits;
    var k := |pieces[0]|;
    assert s[..k] == pieces[0] && s[k..] == Concat(pieces[1..]) && [pieces[0]] + pieces[1..] == pieces;
    PiecesCons(it, items, pieces[0], pieces[1..]);
    assert InLanguage(items, s[k..]);
  }

  // ---- the matcher as a function of its arguments ----

  function Here(re: CString, text: CString): bool
    decreases |re|, 1
  {
    if re == "" then true
    else if CharAt(re, 1) == '*' then Star(re[0], re[2..], text)
    else if re == "$" then text == ""
    else if text != "" && Fits(re[0], text[0]) then Here(re[1..], text[1..])
    else false
  }

  function Star(c: char, re: CString, text: CString): bool
    decreases |re| + 1, 0, |text|
  {
    Here(re, text) || (text != "" && Fits(c, text[0]) && Star(c, re, text[1..]))
  }

  /** Star tries every run of c's. */
  lemma {:induction false} StarIff(c: char, re: CString, text: CString)
    ensures Star(c, re, text) <==>
              exists k: nat :: k <= |text| && PieceFits(Item(c, true), text[..k]) && Here(re, text[k..])
    decreases |text|
  {
    hide Here;
    assert text[0..] == text;
    if text != "" {
      StarIff(c, re, text[1..]);
      if Fits(c, text[0]) {
        forall k: nat | k <= |text[1..]|
          ensures PieceFits(Item(c, true), text[..k + 1]) <==> PieceFits(Item(c, true), text[1..][..k])
        {
          assert text[..k + 1] == [text[0]] + text[1..][..k];
        }
        forall k: nat | k <= |text[1..]| ensures text[1..][k..] == text[k + 1..] { }
      }
    }
    if Star(c, re, text) && !Here(re, text) {
      var k: nat :| k <= |text[1..]| && PieceFits(Item(c, true), text[1..][..k]) && Here(re, text[1..][k..]);
      assert PieceFits(Item(c, true), text[..k + 1]) && Here(re, text[k + 1..]);
    }
    if exists k: nat :: k <= |text| && PieceFits(Item(c, true), text[..k]) && Here(re, text[k..]) {
      var k: nat :| k <= |text| && PieceFits(Item(c, true), text[..k]) && Here(re, text[k..]);
      if k > 0 {
        assert Fits(c, text[..k][0]);
        assert PieceFits(Item(c, true), text[1..][..k - 1]) && text[1..][k - 1..] == text[k..];
      }
    }
  }

  /** matchhere accepts exactly the texts that begin as the pattern demands. */
  lemma {:induction false} HereIff(re: CString, text: CString)
    ensures Here(re, text) <==> MatchesHere(re, text)
    decreases |re|
  {
    if re == "" {
      LanguageEmpty(text[..0]);
    } else if CharAt(re, 1) == '*' {
      HereStar(re, text);
    } else if re == "$" {
      assert Parse(re) == Pattern([], true);
      LanguageEmpty(text[..|text|]);
      assert text[..|text|] == text;
    } else {
      HereOne(re, text);
    }
  }

  lemma {:induction false} HereStar(re: CString, text: CString)
    requires re != "" && CharAt(re, 1) == '*'
    ensures Here(re, text) <==> MatchesHere(re, text)
    decreases |re|, 0
  {
    var it, rest := Item(re[0], true), re[2..];
    StarIff(re[0], rest, text);
    forall j: nat | j <= |text| ensures Here(rest, text[j..]) <==> MatchesHere(rest, text[j..]) {
      HereIff(rest, text[j..]);
    }
    Prefixes(it, rest, text);
  }

  lemma {:induction false} HereOne(re: CString, text: CString)
    requires re != "" && CharAt(re, 1) != '*' && re != "$"
    ensures Here(re, text) <==> MatchesHere(re, text)
    decreases |re|, 0
  {
    var it, rest := Item(re[0], false), re[1..];
    if text != "" { HereIff(rest, text[1..]); }
    Prefixes(it, rest, text);
    forall j: nat | j <= |text| ensures PieceFits(it, text[..j]) <==> j == 1 && Fits(re[0], text[0]) { }
  }

  /** A prefix in the language of an item and a pattern: a piece for the item, then a prefix for the pattern. */
  lemma Prefixes(it: Item, rest: CString, text: CString)
    ensures
      var p := Parse(rest);
      (exists k: nat :: k <= |text| && InLanguage([it] + p.items, text[..k]) && (p.atEnd ==> k == |text|))
      <==> (exists j: nat :: j <= |text| && PieceFits(it, text[..j]) && MatchesHere(rest, text[j..]))
  {
    hide InLanguage, PieceFits, Parse;
    var p := Parse(rest);
    if exists k: nat :: k <= |text| && InLanguage([it] + p.items, text[..k]) && (p.atEnd ==> k == |text|) {
      var k: nat :| k <= |text| && InLanguage([it] + p.items, text[..k]) && (p.atEnd ==> k == |text|);
      LanguageCons(it, p.items, text[..k]);
      var j: nat :| j <= k && PieceFits(it, text[..k][..j]) && InLanguage(p.items, text[..k][j..]);
      assert text[..k][..j] == text[..j] && text[..k][j..] == text[j..][..k - j];
      assert MatchesHere(rest, text[j..]);
    }
    if exists j: nat :: j <= |text| && PieceFits(it, text[..j]) && MatchesHere(rest, text[j..]) {
      var j: nat :| j <= |text| && PieceFits(it, text[..j]) && MatchesHere(rest, text[j..]);
      var m: nat :| m <= |text[j..]| && InLanguage(p.items, text[j..][..m]) && (p.atEnd ==> m == |text[j..]|);
      var k := j + m;
      assert text[..k][..j] == text[..j] && text[..k][j..] == text[j..][..m];
      LanguageCons(it, p.items, text[..k]);
      assert InLanguage([it] + p.items, text[..k]);
    }
  }
}

module Grep {
  import opened Patterns

  const BUF: nat := 1024

  /** match: whether text contains what the pattern says. */
  method Match(re: CString, text: CString) returns (r: bool)
    ensures r <==> Matches(re, text)
  {
    if CharAt(re, 0) == '^' {
      r := MatchHere(re[1..], text);
      HereIff(re[1..], text);
      return;
    }
    var t := text;
    assert text[0..] == text;
    while true
      invariant |t| <= |text| && t == text[|text| - |t|..]
      invariant forall i: nat :: i < |text| - |t| ==> !MatchesHere(re, text[i..])
      decreases |t|
    {
      r := MatchHere(re, t);
      HereIff(re, t);
      if r { return; }
      if t == "" { return; }
      t := t[1..];
    }
  }

  /** matchhere: whether text begins as the pattern says. */
  method MatchHere(re: CString, text: CString) returns (r: bool)
    ensures r == Here(re, text)
    decreases |re|, 1
  {
    if CharAt(re, 0) == '\0' { return true; }
    if CharAt(re, 1) == '*' {
      r := MatchStar(re[0], re[2..], text);
      return;
    }
    if re[0] == '$' && CharAt(re, 1) == '\0' { return CharAt(text, 0) == '\0'; }
    if CharAt(text, 0) != '\0' && (re[0] == '.' || re[0] == text[0]) {
      r := MatchHere(re[1..], text[1..]);
      return;
    }
    return false;
  }

  /** matchstar: whether text begins with any number of c's and then as the pattern says. */
  method MatchStar(c: char, re: CString, text: CString) returns (r: bool)
    ensures r == Star(c, re, text)
    decreases |re| + 1, 0
  {
    var t := text;
    while true
      invariant Star(c, re, text) == Star(c, re, t)
      decreases |t|
    {
      r := MatchHere(re, t);
      if r { return; }
      if t == "" { return; }
      var x := t[0];
      t := t[1..];
      if x != c && c != '.' { return; }
    }
  }

  // ---- grep, line by line ----

  /** strchr(s, c) for a NUL-terminated s: where c first is, if it comes before any NUL. */
  function Find(s: string, c: char): (r: nat)
    ensures r <= |s|
    ensures r < |s| ==> s[r] == c && forall i :: 0 <= i < r ==> s[i] != c && s[i] != '\0'
  {
    if s == "" then 0
    else if s[0] == c then 0
    else if s[0] == '\0' then |s|
    else var r := Find(s[1..], c); if r < |s| - 1 then r + 1 else |s|
  }

  /**
  What grep prints: the lines that match, in order, each with its newline. It goes no further than
  the first line that is not whole within the first BUF - 1 characters that are left.
  */
  ghost function Matching(re: CString, input: string): string {
    var i := Find(input, '\n');
    if i == |input| || i >= BUF - 1 then ""
    else (if Matches(re, input[..i]) then input[..i + 1] else "") + Matching(re, input[i + 1..])
  }

  lemma {:induction false} FindLonger(s: string, t: string, c: char)
    ensures Find(s, c) < |s| ==> Find(s + t, c) == Find(s, c)
    ensures Find(s, c) == |s| ==> Find(s + t, c) >= |s|
    decreases |s|
  {
    if s != "" {
      assert (s + t)[1..] == s[1..] + t;
      FindLonger(s[1..], t, c);
    } else {
      assert s + t == t;
    }
  }

  /** One line more. */
  lemma MatchingLine(re: CString, s: string, t: string, i: nat)
    requires i == Find(s, '\n') < |s| && i < BUF - 1
    ensures Matching(re, s + t) == (if Matches(re, s[..i]) then s[..i + 1] else "") + Matching(re, s[i + 1..] + t)
  {
    hide Matches, Find;
    FindLonger(s, t, '\n');
    assert (s + t)[..i] == s[..i] && (s + t)[..i + 1] == s[..i + 1] && (s + t)[i + 1..] == s[i + 1..] + t;
  }

  /** Nothing more to come. */
  lemma MatchingEnd(re: CString, s: string, t: string)
    requires Find(s, '\n') == |s| && (t == "" || |s| >= BUF - 1)
    ensures Matching(re, s + t) == ""
  {
    FindLonger(s, t, '\n');
    if t == "" { assert s + t == s; }
  }

  /**
  grep, reading input in pieces of any sizes (the k-th read returns sizes[k] characters if it can; at
  the end, or when there is no room in buf, 0).
  */
  method Grep(re: CString, input: string, sizes: seq<nat>) returns (out: string)
    ensures out == Matching(re, input)
  {
    hide Matching, Matches, Find;
    var buf := new char[BUF];
    var m, pos, k := 0, 0, 0;
    out := "";
    assert buf[..0] + input[0..] == input;
    while true
      invariant 0 <= m < BUF && 0 <= pos <= |input| && fresh(buf) && buf.Length == BUF
      invariant Find(buf[..m], '\n') == m
      invariant out + Matching(re, buf[..m] + input[pos..]) == Matching(re, input)
      decreases |input| - pos
    {
      var n := Read(buf, m, input, pos, if k < |sizes| then sizes[k] else BUF);
      k := k + 1;
      if n == 0 { break; }
      assert buf[..m + n] + input[pos + n..] == buf[..m] + input[pos..];
      m, pos := m + n, pos + n;
      buf[m] := '\0';
      var p, printed := PrintLines(re, buf, m, input[pos..]);
      out := out + printed;
      MoveDown(buf, p, m);
      m := m - p;
    }
    MatchingEnd(re, buf[..m], input[pos..]);
  }

  /** The line at p, and what follows it. */
  lemma Slices(b: string, p: nat, q: nat, m: nat)
    requires p <= q < m <= |b|
    ensures b[q := '\0'][p..q] == b[p..m][..q - p]
    ensures b[p..q + 1] == b[p..m][..q - p + 1] && b[q + 1..m] == b[p..m][q - p + 1..]
  {
  }

  /** The inner loop: the whole lines in buf[..m]; rest is what has not been read yet. */
  method PrintLines(re: CString, buf: array<char>, m: nat, ghost rest: string) returns (p: nat, out: string)
    requires buf.Length == BUF && m < BUF
    modifies buf
    ensures p <= m && Find(buf[p..m], '\n') == m - p
    ensures out + Matching(re, buf[p..m] + rest) == Matching(re, old(buf[..m]) + rest)
  {
    hide Matching, Matches, Find, NoNul;
    p, out := 0, "";
    ghost var was, total := buf[..], Matching(re, buf[..m] + rest);
    assert was[0..m] == buf[..m];
    while true
      invariant 0 <= p <= m && buf[..] == was && out + Matching(re, was[p..m] + rest) == total
      decreases m - p
    {
      var i := Find(buf[..][p..m], '\n');
      if i == m - p { break; }
      var q := p + i;
      NextLine(re, was, p, q, m, rest, out, total);
      buf[q] := '\0';
      assert buf[..] == was[q := '\0'];
      var yes := Match(re, buf[..][p..q]);
      buf[q] := '\n';
      assert buf[..] == was;
      if yes { out := out + buf[..][p..q + 1]; }
      p := q + 1;
    }
    assert buf[p..m] == was[p..m];
  }

  /** What is left to print once the line was[p..q] has been dealt with. */
  lemma NextLine(re: CString, was: string, p: nat, q: nat, m: nat, rest: string, out: string, total: string)
    requires p <= q < m < BUF == |was| && q - p == Find(was[p..m], '\n')
    requires out + Matching(re, was[p..m] + rest) == total
    ensures was[q] == '\n' && NoNul(was[q := '\0'][p..q])
    ensures (out + if Matches(re, was[q := '\0'][p..q]) then was[p..q + 1] else "") +
            Matching(re, was[q + 1..m] + rest) == total
  {
    hide Matching, Matches, Find;
    MatchingLine(re, was[p..m], rest, q - p);
    Slices(was, p, q, m);
  }

  /** read(fd, buf + m, sizeof(buf) - m - 1) */
  method Read(buf: array<char>, m: nat, input: string, pos: nat, size: nat) returns (n: nat)
    requires buf.Length == BUF && m < BUF && pos <= |input|
    modifies buf
    ensures m + n < BUF && pos + n <= |input| && (n == 0 ==> m == BUF - 1 || pos == |input|)
    ensures buf[..m] == old(buf[..m]) && buf[m..m + n] == input[pos..pos + n]
  {
    n := if size == 0 then 1 else size;
    if n > BUF - m - 1 { n := BUF - m - 1; }
    if n > |input| - pos { n := |input| - pos; }
    var j := 0;
    while j < n
      invariant 0 <= j <= n
      invariant forall i :: 0 <= i < m ==> buf[i] == old(buf[i])
      invariant forall i :: m <= i < m + j ==> buf[i] == input[pos + (i - m)]
    {
      buf[m + j] := input[pos + j];
      j := j + 1;
    }
  }

  /** memmove(buf, p, m - p) */
  method MoveDown(buf: array<char>, p: nat, m: nat)
    requires p <= m <= buf.Length
    modifies buf
    ensures buf[..m - p] == old(buf[p..m])
  {
    var j := 0;
    while j < m - p
      invariant 0 <= j <= m - p
      invariant forall i :: 0 <= i < j ==> buf[i] == old(buf[p + i])
      invariant forall i :: p + j <= i < m ==> buf[i] == old(buf[i])
    {
      buf[j] := buf[p + j];
      j := j + 1;
    }
  }
}
