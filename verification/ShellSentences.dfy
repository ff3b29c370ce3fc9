/**
The language of user/sh.c, told apart from its parser: which sequences of words, arrows and symbols make which
command. A line parses to a command if and only if its tokens make that command, so that no token is lost, and
no line means two things.
*/
module ShellSentences {
  import opened Wrappers
  import opened ShellGrammar
  import opened ShellRoundTrip
  import opened Shell

  datatype Item = Word(w: Span) | Arrow(mode: Mode) | Sym(c: char)

  function ItemOf(t: Token): Item {
    if t.tok == 'a' then Word(Span(t.q, t.eq)) else if t.tok in "<>+" then Item.Arrow(ModeOf(t.tok)) else Sym(t.tok)
  }

  /** All that gettoken returns from p on. */
  function Items(s: string, p: nat): seq<Item>
    requires IsLine(s) && p <= |s|
    decreases |s| - p
  {
    var t := GetToken(s, p);
    if t.tok == '\0' then [] else [ItemOf(t)] + Items(s, t.pos)
  }

  // ---- the language ----

  datatype Redirect = Redirect(mode: Mode, file: Span)

  /** Words, and arrows each with the word after it. */
  predicate Shaped(ts: seq<Item>) {
    || ts == []
    || (ts[0].Word? && Shaped(ts[1..]))
    || (|ts| > 1 && ts[0].Arrow? && ts[1].Word? && Shaped(ts[2..]))
  }

  /** The words that follow no arrow, */
  function ArgWords(ts: seq<Item>): seq<Span> {
    if ts == [] then []
    else if ts[0].Word? then [ts[0].w] + ArgWords(ts[1..])
    else if |ts| > 1 then ArgWords(ts[2..]) else []
  }

  /** and the arrows, with the words that do. */
  function Redirects(ts: seq<Item>): seq<Redirect> {
    if ts == [] then []
    else if ts[0].Word? then Redirects(ts[1..])
    else if |ts| > 1 && ts[0].Arrow? && ts[1].Word? then [Redirect(ts[0].mode, ts[1].w)] + Redirects(ts[2..]) else []
  }

  /** c inside its redirections, the first one innermost. */
  function Wrap(c: Cmd, rs: seq<Redirect>): Cmd {
    if rs == [] then c else Redir(Wrap(c, rs[..|rs| - 1]), rs[|rs| - 1].file, rs[|rs| - 1].mode)
  }

  /** line: backed | backed ; line */
  ghost predicate LineIs(ts: seq<Item>, c: Cmd)
    decreases |ts|, 7
  {
    || BackedIs(ts, c)
    || (c.List? && exists k :: 0 <= k < |ts| && ListAt(ts, c, k))
  }

  /** backed: pipe | backed & */
  ghost predicate BackedIs(ts: seq<Item>, c: Cmd)
    decreases |ts|, 5
  {
    || PipeIs(ts, c)
    || (c.Back? && ts != [] && ts[|ts| - 1] == Sym('&') && BackedIs(ts[..|ts| - 1], c.cmd))
  }

  /** pipe: exec | exec | pipe */
  ghost predicate PipeIs(ts: seq<Item>, c: Cmd)
    decreases |ts|, 4
  {
    || ExecIs(ts, c)
    || (c.Pipe? && exists k :: 0 <= k < |ts| && PipeAt(ts, c, k))
  }

  ghost predicate ExecIs(ts: seq<Item>, c: Cmd)
    decreases |ts|, 2
  {
    SimpleIs(ts, c) || BlockIs(ts, c)
  }

  ghost predicate SimpleIs(ts: seq<Item>, c: Cmd) {
    Shaped(ts) && |ArgWords(ts)| < MAXARGS && c == Wrap(Exec(ArgWords(ts)), Redirects(ts))
  }

  /** ( line ) and redirections */
  ghost predicate BlockIs(ts: seq<Item>, c: Cmd)
    decreases |ts|, 1
  {
    exists k, b :: 0 < k < |ts| && BlockAt(ts, c, k, b)
  }

  ghost predicate ListAt(ts: seq<Item>, c: Cmd, k: nat)
    requires k < |ts| && c.List?
    decreases |ts|, 6
  {
    ts[k] == Sym(';') && BackedIs(ts[..k], c.left) && LineIs(ts[k + 1..], c.right)
  }

  ghost predicate PipeAt(ts: seq<Item>, c: Cmd, k: nat)
    requires k < |ts| && c.Pipe?
    decreases |ts|, 3
  {
    ts[k] == Sym('|') && ExecIs(ts[..k], c.left) && PipeIs(ts[k + 1..], c.right)
  }

  ghost predicate BlockAt(ts: seq<Item>, c: Cmd, k: nat, b: Cmd)
    requires 0 < k < |ts|
    decreases |ts|, 0
  {
    ts[0] == Sym('(') && ts[k] == Sym(')') && LineIs(ts[1..k], b) && Tail(ts[k + 1..], b, c)
  }

  /** c is b with the redirections ts. */
  predicate Tail(ts: seq<Item>, b: Cmd, c: Cmd) {
    Shaped(ts) && ArgWords(ts) == [] && c == Wrap(b, Redirects(ts))
  }

  // ---- the words and symbols of a line ----

  predicate Blank(s: string, p: nat, q: nat)
    requires p <= q <= |s|
  {
    forall i :: p <= i < q ==> s[i] in WHITESPACE
  }

  /** An item of the text at q, as long as it can be, ends at r. */
  predicate ItemAt(s: string, i: Item, q: nat, r: nat)
    requires q < r <= |s|
  {
    match i
    case Word(w) => w == Span(q, r) && (forall j :: q <= j < r ==> Plain(s[j])) && (r < |s| ==> !Plain(s[r]))
    case Arrow(mode) => s[q..r] == ShellRoundTrip.Arrow(mode) && (mode.Output? && r < |s| ==> s[r] != '>')
    case Sym(c) => s[q..r] == [c] && c in "|();&"
  }

  /** From p on, the text is just these items, with blanks around them or not. */
  ghost predicate TextIs(s: string, p: nat, ts: seq<Item>)
    requires p <= |s|
    decreases |ts|
  {
    if ts == [] then Blank(s, p, |s|)
    else exists q, r :: p <= q < r <= |s| && Blank(s, p, q) && ItemAt(s, ts[0], q, r) && TextIs(s, r, ts[1..])
  }

  lemma BlankFirst(s: string, p: nat, q: nat)
    requires IsLine(s) && p <= q <= |s| && Blank(s, p, q) && (q < |s| ==> s[q] !in WHITESPACE)
    ensures SkipSpace(s, p) == q
    decreases q - p
  {
    if p < q { BlankFirst(s, p + 1, q); }
  }

  lemma WordEnds(s: string, q: nat, r: nat)
    requires IsLine(s) && q <= r <= |s| && (forall j :: q <= j < r ==> Plain(s[j])) && (r < |s| ==> !Plain(s[r]))
    ensures SkipWord(s, q) == r
    decreases r - q
  {
    if q < r { WordEnds(s, q + 1, r); }
  }

  lemma GetsWord(s: string, p: nat, q: nat, r: nat)
    requires IsLine(s) && p <= q < r <= |s| && SkipSpace(s, p) == q && ItemAt(s, Word(Span(q, r)), q, r)
    ensures GetToken(s, p) == Token('a', q, r, SkipSpace(s, r))
  {
    hide SkipSpace, SkipWord;
    assert Plain(s[q]);
    WordEnds(s, q, r);
  }

  lemma GetsArrow(s: string, p: nat, mode: Mode, q: nat, r: nat)
    requires IsLine(s) && p <= q < r <= |s| && SkipSpace(s, p) == q && ItemAt(s, Item.Arrow(mode), q, r)
    ensures var t := GetToken(s, p); t.tok != '\0' && ItemOf(t) == Item.Arrow(mode) && t.pos == SkipSpace(s, r)
  {
    hide SkipSpace, SkipWord;
    assert s[q..r][0] == s[q];
    if mode.Append? { assert s[q..r][1] == s[q + 1]; }
  }

  lemma GetsSym(s: string, p: nat, c: char, q: nat, r: nat)
    requires IsLine(s) && p <= q < r <= |s| && SkipSpace(s, p) == q && ItemAt(s, Sym(c), q, r)
    ensures GetToken(s, p) == Token(c, q, r, SkipSpace(s, r))
  {
    hide SkipSpace, SkipWord;
    assert s[q..r][0] == s[q];
  }

  /** gettoken returns the item at hand, whole. */
  lemma GetsItem(s: string, p: nat, i: Item, q: nat, r: nat)
    requires IsLine(s) && p <= q < r <= |s| && Blank(s, p, q) && ItemAt(s, i, q, r)
    ensures var t := GetToken(s, p); t.tok != '\0' && ItemOf(t) == i && t.pos == SkipSpace(s, r)
  {
    hide GetToken, SkipSpace, Blank;
    ItemStarts(s, i, q, r);
    BlankFirst(s, p, q);
    match i
    case Word(w) => GetsWord(s, p, q, r);
    case Arrow(mode) => GetsArrow(s, p, mode, q, r);
    case Sym(c) => GetsSym(s, p, c, q, r);
  }

  /** The next token is a whole item, after blanks. */
  predicate Got(s: string, p: nat)
    requires p <= |s|
  {
    var t := GetToken(s, p);
    && SkipSpace(s, p) == t.q < t.eq && Blank(s, p, t.q) && t.pos == SkipSpace(s, t.eq)
    && ItemAt(s, ItemOf(t), t.q, t.eq)
  }

  lemma SymGot(s: string, p: nat)
    requires IsLine(s) && p <= |s| && SkipSpace(s, p) < |s| && s[SkipSpace(s, p)] in "|();&"
    ensures Got(s, p)
  {
    hide SkipWord;
    var q := SkipSpace(s, p);
    assert GetToken(s, p) == Token(s[q], q, q + 1, SkipSpace(s, q + 1));
  }

  lemma ArrowGot(s: string, p: nat)
    requires IsLine(s) && p <= |s| && SkipSpace(s, p) < |s| && s[SkipSpace(s, p)] in "<>"
    ensures Got(s, p)
  {
    hide SkipWord;
    var q := SkipSpace(s, p);
    assert s[q..q + 1] == [s[q]];
    if s[q] == '>' && CharAt(s, q + 1) == '>' { assert s[q..q + 2] == ">>"; }
  }

  lemma WordGot(s: string, p: nat)
    requires IsLine(s) && p <= |s| && SkipSpace(s, p) < |s| && s[SkipSpace(s, p)] !in SYMBOLS
    ensures Got(s, p)
  {
    var q := SkipSpace(s, p);
    assert s[q] != '\0' && GetToken(s, p) == Token('a', q, SkipWord(s, q), SkipSpace(s, SkipWord(s, q)));
  }

  /** gettoken returns nothing else. */
  lemma ItemGot(s: string, p: nat)
    requires IsLine(s) && p <= |s| && GetToken(s, p).tok != '\0'
    ensures Got(s, p)
  {
    hide GetToken, Got, SkipWord;
    ItemsFrom(s, p);
    var c := s[SkipSpace(s, p)];
    if c in "|();&" { SymGot(s, p); }
    else if c in "<>" { ArrowGot(s, p); }
    else { WordGot(s, p); }
  }

  lemma TextAfterBlanks(s: string, p: nat, ts: seq<Item>)
    requires IsLine(s) && p <= |s|
    ensures TextIs(s, p, ts) <==> TextIs(s, SkipSpace(s, p), ts)
  {
    hide ItemAt;
    var p' := SkipSpace(s, p);
    if ts != [] && TextIs(s, p', ts) {
      var q, r :| p' <= q < r <= |s| && Blank(s, p', q) && ItemAt(s, ts[0], q, r) && TextIs(s, r, ts[1..]);
      assert Blank(s, p, q);
    }
    if ts != [] && TextIs(s, p, ts) {
      var q, r :| p <= q < r <= |s| && Blank(s, p, q) && ItemAt(s, ts[0], q, r) && TextIs(s, r, ts[1..]);
      ItemStarts(s, ts[0], q, r);
      BlankFirst(s, p, q);
      assert Blank(s, p', q);
    }
  }

  lemma ItemStarts(s: string, i: Item, q: nat, r: nat)
    requires q < r <= |s| && ItemAt(s, i, q, r)
    ensures s[q] !in WHITESPACE
  {
    assert s[q..r][0] == s[q];
  }

  lemma TextFromItems(s: string, p: nat, ts: seq<Item>)
    requires IsLine(s) && p <= |s| && ts != [] && GetToken(s, p).tok != '\0' && ts[0] == ItemOf(GetToken(s, p))
    requires TextIs(s, GetToken(s, p).pos, ts[1..])
    ensures TextIs(s, p, ts)
  {
    hide ItemAt, GetToken, ItemOf, SkipSpace;
    ItemGot(s, p);
    TextAfterBlanks(s, GetToken(s, p).eq, ts[1..]);
  }

  lemma ItemsFromText(s: string, p: nat, ts: seq<Item>)
    requires IsLine(s) && p <= |s| && ts != [] && TextIs(s, p, ts)
    ensures var t := GetToken(s, p); t.tok != '\0' && ts[0] == ItemOf(t) && TextIs(s, t.pos, ts[1..])
  {
    hide ItemAt, GetToken, ItemOf, SkipSpace;
    var q, r :| p <= q < r <= |s| && Blank(s, p, q) && ItemAt(s, ts[0], q, r) && TextIs(s, r, ts[1..]);
    GetsItem(s, p, ts[0], q, r);
    TextAfterBlanks(s, r, ts[1..]);
  }

  /** The tokens of a line are the one way to read its text as items. */
  lemma {:induction false} ItemsIff(s: string, p: nat, ts: seq<Item>)
    requires IsLine(s) && p <= |s|
    ensures Items(s, p) == ts <==> TextIs(s, p, ts)
    decreases |ts|
  {
    hide GetToken, ItemOf, TextIs, SkipSpace;
    var t := GetToken(s, p);
    ItemsFrom(s, p);
    if ts == [] {
      OnlyBlanks(s, p);
    } else {
      if Items(s, p) == ts {
        assert ts[1..] == Items(s, t.pos);
        ItemsIff(s, t.pos, ts[1..]);
        TextFromItems(s, p, ts);
      }
      if TextIs(s, p, ts) {
        ItemsFromText(s, p, ts);
        ItemsIff(s, t.pos, ts[1..]);
        assert ts == [ts[0]] + ts[1..];
      }
    }
  }

  lemma OnlyBlanks(s: string, p: nat)
    requires IsLine(s) && p <= |s|
    ensures TextIs(s, p, []) <==> SkipSpace(s, p) == |s|
  {
    if TextIs(s, p, []) { BlankFirst(s, p, |s|); }
  }

  // ---- tokens ----

  lemma ItemsFrom(s: string, p: nat)
    requires IsLine(s) && p <= |s|
    ensures var t := GetToken(s, p);
            && Items(s, p) == (if t.tok == '\0' then [] else [ItemOf(t)] + Items(s, t.pos))
            && (t.tok == '\0' <==> SkipSpace(s, p) == |s|)
            && t.tok in "\0a<>+|();&"
    ensures Items(s, SkipSpace(s, p)) == Items(s, p)
  {
    SameToken(s, p, "");
  }

  /** What peek sees is the first item. */
  lemma PeekFirst(s: string, p: nat)
    requires IsLine(s) && p <= |s|
    ensures Peek(s, p, "<>") <==> Items(s, p) != [] && Items(s, p)[0].Arrow?
    ensures Peek(s, p, "(") <==> StartsWith(Items(s, p), "(") && Items(s, p) != []
    ensures Peek(s, p, ")") <==> StartsWith(Items(s, p), ")") && Items(s, p) != []
    ensures Peek(s, p, "|") <==> StartsWith(Items(s, p), "|") && Items(s, p) != []
    ensures Peek(s, p, "&") <==> StartsWith(Items(s, p), "&") && Items(s, p) != []
    ensures Peek(s, p, ";") <==> StartsWith(Items(s, p), ";") && Items(s, p) != []
    ensures Peek(s, p, "|)&;") <==> StartsWith(Items(s, p), "|)&;") && Items(s, p) != []
  {
    hide SkipWord;
    var t := GetToken(s, p);
  }

  /** Nothing, or one of the symbols in cs, comes first. */
  predicate StartsWith(ts: seq<Item>, cs: string) {
    ts == [] || (ts[0].Sym? && ts[0].c in cs)
  }

  // ---- redirections ----

  lemma {:induction false} WrapFirst(c: Cmd, r: Redirect, rs: seq<Redirect>)
    ensures Wrap(Redir(c, r.file, r.mode), rs) == Wrap(c, [r] + rs)
    decreases |rs|
  {
    if rs == [] {
      assert [r] + rs == [r] && [r][..0] == [];
    } else {
      var n := |rs| - 1;
      WrapFirst(c, r, rs[..n]);
      assert ([r] + rs)[..n + 1] == [r] + rs[..n];
    }
  }

  /** A redirection in front of others. */
  lemma OneMoreTail(r: Redirect, ts: seq<Item>)
    ensures var us := [Item.Arrow(r.mode), Word(r.file)] + ts;
            (Shaped(ts) ==> Shaped(us)) && ArgWords(us) == ArgWords(ts) && Redirects(us) == [r] + Redirects(ts)
  {
    var us := [Item.Arrow(r.mode), Word(r.file)] + ts;
    assert us[2..] == ts;
  }

  lemma NoTail(c: Cmd)
    ensures Tail([], c, c)
  {
  }

  lemma TailFirst(ts: seq<Item>, b: Cmd, r: Redirect, c: Cmd)
    requires Tail(ts, Redir(b, r.file, r.mode), c)
    ensures Tail([Item.Arrow(r.mode), Word(r.file)] + ts, b, c)
  {
    OneMoreTail(r, ts);
    WrapFirst(b, r, Redirects(ts));
  }

  // ---- the parser's functions, as they see the items ----

  /** The cursor after the next token. */
  function After(s: string, p: nat): (q: nat)
    requires IsLine(s) && p <= |s|
    ensures q <= |s|
  {
    GetToken(s, p).pos
  }

  lemma AfterIs(s: string, p: nat)
    requires IsLine(s) && p <= |s| && Items(s, p) != []
    ensures After(s, p) > p && Items(s, After(s, p)) == Items(s, p)[1..]
  {
    hide GetToken;
    ItemsFrom(s, p);
  }

  lemma RedirsStep(s: string, cmd: Cmd, p: nat)
    requires IsLine(s) && p <= |s|
    ensures var ts := Items(s, p);
      if ts == [] || !ts[0].Arrow? then
        var q := SkipSpace(s, p);
        ParseRedirs(s, cmd, p) == Some(Parsed(cmd, q)) && Items(s, q) == ts
      else if |ts| > 1 && ts[1].Word? then
        var q := After(s, After(s, p));
        && q > p && Items(s, q) == ts[2..]
        && ParseRedirs(s, cmd, p) == ParseRedirs(s, Redir(cmd, ts[1].w, ts[0].mode), q)
      else ParseRedirs(s, cmd, p).None?
  {
    hide GetToken, Peek, Items, SkipSpace;
    PeekFirst(s, p);
    ItemsFrom(s, p);
    ItemsFrom(s, After(s, p));
    if Items(s, p) != [] {
      AfterIs(s, p);
      if |Items(s, p)| > 1 { AfterIs(s, After(s, p)); }
    }
  }

  lemma ArgsStep(s: string, cmd: Cmd, argc: nat, p: nat)
    requires IsLine(s) && p <= |s|
    ensures var ts := Items(s, p); var q := After(s, p);
      if StartsWith(ts, "|)&;") then
        exists e :: p <= e <= |s| && ParseArgs(s, cmd, argc, p) == Some(Parsed(cmd, e)) && Items(s, e) == ts
      else if !ts[0].Word? || argc + 1 >= MAXARGS then ParseArgs(s, cmd, argc, p).None?
      else
        && q > p && Items(s, q) == ts[1..]
        && ParseArgs(s, cmd, argc, p) ==
           match ParseRedirs(s, AddArg(cmd, ts[0].w), q)
           case None => None
           case Some(next) => ParseArgs(s, next.cmd, argc + 1, next.pos)
  {
    hide GetToken, Peek, Items, SkipSpace, ParseRedirs, AddArg;
    PeekFirst(s, p);
    ItemsFrom(s, p);
    if Items(s, p) != [] { AfterIs(s, p); } else { ItemsFrom(s, After(s, p)); AtTheEnd(s, p); }
  }

  lemma AtTheEnd(s: string, p: nat)
    requires IsLine(s) && p <= |s| && Items(s, p) == []
    ensures Items(s, After(s, p)) == [] && Items(s, SkipSpace(s, p)) == []
  {
    ItemsFrom(s, p);
    SameToken(s, p, "");
  }

  /** The symbol c comes first. */
  predicate Leads(ts: seq<Item>, c: char) {
    ts != [] && ts[0] == Sym(c)
  }

  lemma PeekLeads(s: string, p: nat)
    requires IsLine(s) && p <= |s|
    ensures Peek(s, p, "(") <==> Leads(Items(s, p), '(')
    ensures Peek(s, p, ")") <==> Leads(Items(s, p), ')')
    ensures Peek(s, p, "|") <==> Leads(Items(s, p), '|')
    ensures Peek(s, p, "&") <==> Leads(Items(s, p), '&')
    ensures Peek(s, p, ";") <==> Leads(Items(s, p), ';')
    ensures Items(s, SkipSpace(s, p)) == Items(s, p)
  {
    hide GetToken, Peek, Items, SkipSpace;
    PeekFirst(s, p);
    ItemsFrom(s, p);
  }

  lemma ExecStep(s: string, p: nat)
    requires IsLine(s) && p <= |s|
    ensures ParseExec(s, p) ==
            if Leads(Items(s, p), '(') then
              match ParseLine(s, After(s, p))
              case None => None
              case Some(body) =>
                if Leads(Items(s, body.pos), ')') then ParseRedirs(s, body.cmd, After(s, body.pos)) else None
            else
              match ParseRedirs(s, Exec([]), p)
              case None => None
              case Some(first) => ParseArgs(s, first.cmd, 0, first.pos)
  {
    hide GetToken, Peek, Items, SkipSpace, ParseRedirs, ParseArgs, ParseLine;
    PeekLeads(s, p);
    if Peek(s, p, "(") && ParseLine(s, After(s, p)).Some? { PeekLeads(s, ParseLine(s, After(s, p)).value.pos); }
  }

  lemma PipeStep(s: string, p: nat)
    requires IsLine(s) && p <= |s|
    ensures ParsePipe(s, p) ==
            match ParseExec(s, p)
            case None => None
            case Some(first) =>
              if Leads(Items(s, first.pos), '|') then
                match ParsePipe(s, After(s, first.pos))
                case None => None
                case Some(rest) => Some(Parsed(Pipe(first.cmd, rest.cmd), rest.pos))
              else Some(Parsed(first.cmd, SkipSpace(s, first.pos)))
  {
    hide GetToken, Peek, Items, SkipSpace, ParseExec;
    if ParseExec(s, p).Some? { PeekLeads(s, ParseExec(s, p).value.pos); }
  }

  lemma BacksStep(s: string, cmd: Cmd, p: nat)
    requires IsLine(s) && p <= |s|
    ensures ParseBacks(s, cmd, p) ==
            if Leads(Items(s, p), '&') then ParseBacks(s, Back(cmd), After(s, p)) else Parsed(cmd, SkipSpace(s, p))
  {
    hide GetToken, Peek, Items, SkipSpace;
    PeekLeads(s, p);
  }

  lemma LineStep(s: string, p: nat)
    requires IsLine(s) && p <= |s|
    ensures ParseLine(s, p) ==
            match ParsePipe(s, p)
            case None => None
            case Some(first) =>
              var b := ParseBacks(s, first.cmd, first.pos);
              if Leads(Items(s, b.pos), ';') then
                match ParseLine(s, After(s, b.pos))
                case None => None
                case Some(rest) => Some(Parsed(List(b.cmd, rest.cmd), rest.pos))
              else Some(b)
  {
    hide GetToken, Peek, Items, SkipSpace, ParsePipe, ParseBacks;
    if ParsePipe(s, p).Some? {
      var first := ParsePipe(s, p).value;
      PeekLeads(s, ParseBacks(s, first.cmd, first.pos).pos);
    }
  }

  // ---- what parses is in the language ----

  lemma {:induction false} RedirsSound(s: string, cmd: Cmd, p: nat) returns (ts: seq<Item>)
    requires IsLine(s) && p <= |s| && ParseRedirs(s, cmd, p).Some?
    ensures var r := ParseRedirs(s, cmd, p).value;
            Items(s, p) == ts + Items(s, r.pos) && Tail(ts, cmd, r.cmd)
    ensures var rest := Items(s, ParseRedirs(s, cmd, p).value.pos); rest == [] || !rest[0].Arrow?
    decreases |s| - p
  {
    hide ParseRedirs, Items, Tail, After, SkipSpace;
    RedirsStep(s, cmd, p);
    var seen := Items(s, p);
    if seen == [] || !seen[0].Arrow? {
      ts := [];
      NoTail(cmd);
    } else {
      var r := Redirect(seen[0].mode, seen[1].w);
      var more := RedirsSound(s, Redir(cmd, r.file, r.mode), After(s, After(s, p)));
      ts := [Item.Arrow(r.mode), Word(r.file)] + more;
      TailFirst(more, cmd, r, ParseRedirs(s, cmd, p).value.cmd);
      assert seen == seen[..2] + seen[2..];
    }
  }

  lemma {:induction false} AddsArg(args: seq<Span>, rs: seq<Redirect>, w: Span)
    ensures AddArg(Wrap(Exec(args), rs), w) == Wrap(Exec(args + [w]), rs)
    decreases |rs|
  {
    if rs != [] { AddsArg(args, rs[..|rs| - 1], w); }
  }

  lemma {:induction false} WrapMore(c: Cmd, a: seq<Redirect>, b: seq<Redirect>)
    ensures Wrap(Wrap(c, a), b) == Wrap(c, a + b)
    decreases |b|
  {
    if b == [] {
      assert a + b == a;
    } else {
      WrapMore(c, a, b[..|b| - 1]);
      assert (a + b)[..|a + b| - 1] == a + b[..|b| - 1];
    }
  }

  /** A word, redirections and more. */
  lemma {:induction false} WordFirst(w: Span, tail: seq<Item>, more: seq<Item>)
    requires Shaped(tail) && ArgWords(tail) == [] && Shaped(more)
    ensures var ts := [Word(w)] + tail + more;
      Shaped(ts) && ArgWords(ts) == [w] + ArgWords(more) && Redirects(ts) == Redirects(tail) + Redirects(more)
  {
    TailThen(tail, more);
    assert ([Word(w)] + tail + more)[1..] == tail + more;
  }

  lemma {:induction false} TailThen(tail: seq<Item>, more: seq<Item>)
    requires Shaped(tail) && ArgWords(tail) == [] && Shaped(more)
    ensures Shaped(tail + more) && ArgWords(tail + more) == ArgWords(more)
    ensures Redirects(tail + more) == Redirects(tail) + Redirects(more)
  {
    if tail == [] {
      assert tail + more == more;
    } else {
      TailThen(tail[2..], more);
      assert (tail + more)[2..] == tail[2..] + more;
    }
  }

  lemma {:induction false} ArgsSound(s: string, args: seq<Span>, rs: seq<Redirect>, p: nat) returns (ts: seq<Item>)
    requires IsLine(s) && p <= |s| && |args| < MAXARGS && ParseArgs(s, Wrap(Exec(args), rs), |args|, p).Some?
    ensures var r := ParseArgs(s, Wrap(Exec(args), rs), |args|, p).value;
            && Items(s, p) == ts + Items(s, r.pos) && Shaped(ts) && |args| + |ArgWords(ts)| < MAXARGS
            && r.cmd == Wrap(Exec(args + ArgWords(ts)), rs + Redirects(ts))
    decreases |s| - p
  {
    hide ParseArgs, ParseRedirs, Items, After, AddArg, Shaped, ArgWords, Redirects, Wrap;
    var cmd := Wrap(Exec(args), rs);
    ArgsStep(s, cmd, |args|, p);
    var seen := Items(s, p);
    if StartsWith(seen, "|)&;") {
      ts := [];
      NoItems();
      assert args + [] == args && rs + [] == rs;
    } else {
      var w, q := seen[0].w, After(s, p);
      AddsArg(args, rs, w);
      var tail := RedirsSound(s, AddArg(cmd, w), q);
      var next := ParseRedirs(s, AddArg(cmd, w), q).value;
      WrapMore(Exec(args + [w]), rs, Redirects(tail));
      var more := ArgsSound(s, args + [w], rs + Redirects(tail), next.pos);
      ts := [Word(w)] + tail + more;
      WordFirst(w, tail, more);
      assert args + [w] + ArgWords(more) == args + ([w] + ArgWords(more));
      assert rs + Redirects(tail) + Redirects(more) == rs + (Redirects(tail) + Redirects(more));
      assert seen == [seen[0]] + seen[1..];
    }
  }

  lemma NoItems()
    ensures Shaped([]) && ArgWords([]) == [] && Redirects([]) == []
  {
  }

  lemma {:induction false} ExecSound(s: string, p: nat) returns (ts: seq<Item>)
    requires IsLine(s) && p <= |s| && ParseExec(s, p).Some?
    ensures var r := ParseExec(s, p).value; Items(s, p) == ts + Items(s, r.pos) && ExecIs(ts, r.cmd)
    decreases |s| - p, 2
  {
    hide ParseExec, ParseArgs, ParseRedirs, ParseLine, Items, After, Shaped, ArgWords, Redirects, Wrap, LineIs;
    ExecStep(s, p);
    var seen := Items(s, p);
    if Leads(seen, '(') {
      AfterIs(s, p);
      var q := After(s, p);
      var body := ParseLine(s, q).value;
      var mid := LineSound(s, q);
      AfterIs(s, body.pos);
      var tail := RedirsSound(s, body.cmd, After(s, body.pos));
      ts := [Sym('(')] + mid + [Sym(')')] + tail;
      InBlock(mid, body.cmd, tail, ParseExec(s, p).value.cmd);
      assert seen == [seen[0]] + seen[1..];
      assert Items(s, body.pos) == [Sym(')')] + Items(s, body.pos)[1..];
    } else {
      NoItems();
      assert Wrap(Exec([]), []) == Exec([]) by { WrapNone(Exec([])); }
      var tail := RedirsSound(s, Exec([]), p);
      var first := ParseRedirs(s, Exec([]), p).value;
      var more := ArgsSound(s, [], Redirects(tail), first.pos);
      ts := tail + more;
      TailThen(tail, more);
      assert [] + ArgWords(more) == ArgWords(more);
    }
  }

  lemma WrapNone(c: Cmd)
    ensures Wrap(c, []) == c
  {
  }

  lemma InBlock(mid: seq<Item>, b: Cmd, tail: seq<Item>, c: Cmd)
    requires LineIs(mid, b) && Tail(tail, b, c)
    ensures ExecIs([Sym('(')] + mid + [Sym(')')] + tail, c)
  {
    hide LineIs, Tail;
    var ts := [Sym('(')] + mid + [Sym(')')] + tail;
    var k := |mid| + 1;
    assert ts[k] == Sym(')') && ts[1..k] == mid && ts[k + 1..] == tail;
    assert BlockAt(ts, c, k, b);
  }

  lemma {:induction false} PipeSound(s: string, p: nat) returns (ts: seq<Item>)
    requires IsLine(s) && p <= |s| && ParsePipe(s, p).Some?
    ensures var r := ParsePipe(s, p).value; Items(s, p) == ts + Items(s, r.pos) && PipeIs(ts, r.cmd)
    decreases |s| - p, 3
  {
    hide ParsePipe, ParseExec, Items, After, ExecIs, SkipSpace;
    PipeStep(s, p);
    var first := ParseExec(s, p).value;
    var front := ExecSound(s, p);
    if Leads(Items(s, first.pos), '|') {
      AfterIs(s, first.pos);
      var more := PipeSound(s, After(s, first.pos));
      ts := front + [Sym('|')] + more;
      var r := ParsePipe(s, p).value.cmd;
      assert ts[|front|] == Sym('|') && ts[..|front|] == front && ts[|front| + 1..] == more;
      assert PipeAt(ts, r, |front|);
      assert Items(s, first.pos) == [Sym('|')] + Items(s, first.pos)[1..];
    } else {
      ts := front;
      PeekLeads(s, first.pos);
    }
  }

  lemma {:induction false} BacksSound(s: string, cmd: Cmd, p: nat, front: seq<Item>) returns (ts: seq<Item>)
    requires IsLine(s) && p <= |s| && BackedIs(front, cmd)
    ensures var r := ParseBacks(s, cmd, p);
            front + Items(s, p) == ts + Items(s, r.pos) && BackedIs(ts, r.cmd)
    decreases |s| - p
  {
    hide ParseBacks, Items, After, PipeIs, SkipSpace;
    BacksStep(s, cmd, p);
    if Leads(Items(s, p), '&') {
      AfterIs(s, p);
      var more := front + [Sym('&')];
      assert more[..|more| - 1] == front;
      ts := BacksSound(s, Back(cmd), After(s, p), more);
      assert Items(s, p) == [Sym('&')] + Items(s, p)[1..];
    } else {
      ts := front;
      PeekLeads(s, p);
    }
  }

  lemma {:induction false} LineSound(s: string, p: nat) returns (ts: seq<Item>)
    requires IsLine(s) && p <= |s| && ParseLine(s, p).Some?
    ensures var r := ParseLine(s, p).value; Items(s, p) == ts + Items(s, r.pos) && LineIs(ts, r.cmd)
    decreases |s| - p, 4
  {
    hide ParseLine, ParsePipe, ParseBacks, Items, After, BackedIs;
    LineStep(s, p);
    var first := ParsePipe(s, p).value;
    var pipe := PipeSound(s, p);
    PipeIsBacked(pipe, first.cmd);
    var front := BacksSound(s, first.cmd, first.pos, pipe);
    var b := ParseBacks(s, first.cmd, first.pos);
    if Leads(Items(s, b.pos), ';') {
      AfterIs(s, b.pos);
      var more := LineSound(s, After(s, b.pos));
      ts := front + [Sym(';')] + more;
      var r := ParseLine(s, p).value.cmd;
      assert ts[|front|] == Sym(';') && ts[..|front|] == front && ts[|front| + 1..] == more;
      assert ListAt(ts, r, |front|);
      assert Items(s, b.pos) == [Sym(';')] + Items(s, b.pos)[1..];
    } else {
      ts := front;
    }
  }

  lemma PipeIsBacked(ts: seq<Item>, c: Cmd)
    requires PipeIs(ts, c)
    ensures BackedIs(ts, c)
  {
  }

  // ---- what is in the language parses ----

  lemma TailIs(ts: seq<Item>, b: Cmd, c: Cmd)
    requires Tail(ts, b, c)
    ensures ts == [] ==> c == b
    ensures ts != [] ==> |ts| > 1 && ts[0].Arrow? && ts[1].Word? && Tail(ts[2..], Redir(b, ts[1].w, ts[0].mode), c)
  {
    if ts != [] { WrapFirst(b, Redirect(ts[0].mode, ts[1].w), Redirects(ts[2..])); }
  }

  lemma {:induction false} RedirsComplete(s: string, cmd: Cmd, p: nat, ts: seq<Item>, c: Cmd, rest: seq<Item>)
    returns (q: nat)
    requires IsLine(s) && p <= |s| && Items(s, p) == ts + rest && Tail(ts, cmd, c)
    requires rest == [] || !rest[0].Arrow?
    ensures q <= |s| && ParseRedirs(s, cmd, p) == Some(Parsed(c, q)) && Items(s, q) == rest
    decreases |ts|
  {
    hide ParseRedirs, Items, Tail, After, SkipSpace;
    RedirsStep(s, cmd, p);
    TailIs(ts, cmd, c);
    if ts == [] {
      assert ts + rest == rest;
      q := SkipSpace(s, p);
    } else {
      assert (ts + rest)[2..] == ts[2..] + rest;
      q := RedirsComplete(s, Redir(cmd, ts[1].w, ts[0].mode), After(s, After(s, p)), ts[2..], c, rest);
    }
  }

  /** The redirections at the front. */
  lemma {:induction false} SplitTail(ts: seq<Item>) returns (tail: seq<Item>, more: seq<Item>)
    requires Shaped(ts)
    ensures ts == tail + more && Shaped(tail) && ArgWords(tail) == [] && Shaped(more)
    ensures more == [] || more[0].Word?
  {
    if ts == [] || ts[0].Word? {
      tail, more := [], ts;
    } else {
      var rest, after := SplitTail(ts[2..]);
      tail, more := ts[..2] + rest, after;
      assert tail[2..] == rest;
    }
  }

  lemma ShapedRest(ts: seq<Item>)
    requires Shaped(ts) && ts != [] && ts[0].Word?
    ensures Shaped(ts[1..]) && |ArgWords(ts)| > 0
  {
  }

  lemma IsTail(ts: seq<Item>, b: Cmd)
    requires Shaped(ts) && ArgWords(ts) == []
    ensures Tail(ts, b, Wrap(b, Redirects(ts)))
  {
  }

  lemma {:induction false} ArgsComplete(s: string, args: seq<Span>, rs: seq<Redirect>, p: nat, ts: seq<Item>,
                                        rest: seq<Item>) returns (q: nat)
    requires IsLine(s) && p <= |s| && Items(s, p) == ts + rest && Shaped(ts) && (ts == [] || ts[0].Word?)
    requires StartsWith(rest, "|)&;") && |args| + |ArgWords(ts)| < MAXARGS
    ensures q <= |s| && Items(s, q) == rest
    ensures ParseArgs(s, Wrap(Exec(args), rs), |args|, p) ==
            Some(Parsed(Wrap(Exec(args + ArgWords(ts)), rs + Redirects(ts)), q))
    decreases |ts|
  {
    hide ParseArgs, ParseRedirs, Items, After, AddArg, Wrap, Shaped, ArgWords, Redirects, Tail;
    var cmd := Wrap(Exec(args), rs);
    ArgsStep(s, cmd, |args|, p);
    NoItems();
    if ts == [] {
      assert ts + rest == rest && args + [] == args && rs + [] == rs;
      var e :| p <= e <= |s| && ParseArgs(s, cmd, |args|, p) == Some(Parsed(cmd, e)) && Items(s, e) == ts + rest;
      q := e;
    } else {
      var w := ts[0].w;
      AddsArg(args, rs, w);
      ShapedRest(ts);
      assert (ts + rest)[1..] == ts[1..] + rest && (ts + rest)[0] == ts[0];
      var tail, more, mid := WordComplete(s, Wrap(Exec(args + [w]), rs), After(s, p), ts[1..], rest);
      WrapMore(Exec(args + [w]), rs, Redirects(tail));
      WordFirst(w, tail, more);
      assert ts == [Word(w)] + tail + more;
      q := ArgsComplete(s, args + [w], rs + Redirects(tail), mid, more, rest);
      assert args + [w] + ArgWords(more) == args + ([w] + ArgWords(more));
      assert rs + Redirects(tail) + Redirects(more) == rs + (Redirects(tail) + Redirects(more));
    }
  }

  /** The redirections after a word. */
  lemma WordComplete(s: string, cmd: Cmd, p: nat, ts: seq<Item>, rest: seq<Item>)
    returns (tail: seq<Item>, more: seq<Item>, q: nat)
    requires IsLine(s) && p <= |s| && Items(s, p) == ts + rest && Shaped(ts) && StartsWith(rest, "|)&;")
    ensures ts == tail + more && Shaped(tail) && ArgWords(tail) == [] && Shaped(more) && (more == [] || more[0].Word?)
    ensures q <= |s| && Items(s, q) == more + rest
    ensures ParseRedirs(s, cmd, p) == Some(Parsed(Wrap(cmd, Redirects(tail)), q))
  {
    hide ParseRedirs, Items, Wrap, Shaped, ArgWords, Redirects, Tail;
    tail, more := SplitTail(ts);
    assert ts + rest == tail + (more + rest);
    IsTail(tail, cmd);
    q := RedirsComplete(s, cmd, p, tail, Wrap(cmd, Redirects(tail)), more + rest);
  }

  lemma {:induction false} SimpleComplete(s: string, p: nat, ts: seq<Item>, c: Cmd, rest: seq<Item>) returns (q: nat)
    requires IsLine(s) && p <= |s| && Items(s, p) == ts + rest && SimpleIs(ts, c) && StartsWith(rest, "|)&;")
    ensures q <= |s| && ParseExec(s, p) == Some(Parsed(c, q)) && Items(s, q) == rest
  {
    hide ParseArgs, ParseRedirs, ParseExec, Items, After, Wrap;
    ExecStep(s, p);
    var tail, more, mid := WordComplete(s, Exec([]), p, ts, rest);
    TailThen(tail, more);
    q := ArgsComplete(s, [], Redirects(tail), mid, more, rest);
    assert [] + ArgWords(more) == ArgWords(more);
  }

  lemma {:induction false} ExecComplete(s: string, p: nat, ts: seq<Item>, c: Cmd, rest: seq<Item>) returns (q: nat)
    requires IsLine(s) && p <= |s| && Items(s, p) == ts + rest && ExecIs(ts, c) && StartsWith(rest, "|)&;")
    ensures q <= |s| && ParseExec(s, p) == Some(Parsed(c, q)) && Items(s, q) == rest
    decreases |ts|, 2
  {
    hide ParseRedirs, ParseExec, ParseLine, Items, After, SimpleIs, LineIs, Tail;
    if SimpleIs(ts, c) {
      q := SimpleComplete(s, p, ts, c, rest);
    } else {
      assert BlockIs(ts, c);
      var k, b :| 0 < k < |ts| && BlockAt(ts, c, k, b);
      ExecStep(s, p);
      AfterIs(s, p);
      var after := [Sym(')')] + ts[k + 1..] + rest;
      assert (ts + rest)[1..] == ts[1..k] + after;
      var m := LineComplete(s, After(s, p), ts[1..k], b, after);
      AfterIs(s, m);
      assert after[1..] == ts[k + 1..] + rest;
      q := RedirsComplete(s, b, After(s, m), ts[k + 1..], c, rest);
    }
  }

  lemma {:induction false} PipeComplete(s: string, p: nat, ts: seq<Item>, c: Cmd, rest: seq<Item>) returns (q: nat)
    requires IsLine(s) && p <= |s| && Items(s, p) == ts + rest && PipeIs(ts, c) && StartsWith(rest, ")&;")
    ensures q <= |s| && ParsePipe(s, p) == Some(Parsed(c, q)) && Items(s, q) == rest
    decreases |ts|, 3
  {
    hide ParsePipe, ParseExec, Items, After, ExecIs, SkipSpace;
    PipeStep(s, p);
    if ExecIs(ts, c) {
      var m := ExecComplete(s, p, ts, c, rest);
      PeekLeads(s, m);
      q := SkipSpace(s, m);
    } else {
      var k :| 0 <= k < |ts| && PipeAt(ts, c, k);
      var after := [Sym('|')] + ts[k + 1..] + rest;
      assert ts + rest == ts[..k] + after;
      var m := ExecComplete(s, p, ts[..k], c.left, after);
      AfterIs(s, m);
      assert after[1..] == ts[k + 1..] + rest;
      q := PipeComplete(s, After(s, m), ts[k + 1..], c.right, rest);
    }
  }

  lemma {:induction false} BackedComplete(s: string, p: nat, ts: seq<Item>, c: Cmd, rest: seq<Item>)
    returns (first: Parsed, q: nat)
    requires IsLine(s) && p <= |s| && Items(s, p) == ts + rest && BackedIs(ts, c) && StartsWith(rest, ")&;")
    ensures ParsePipe(s, p) == Some(first) && first.pos <= |s| && q <= |s| && Items(s, q) == rest
    ensures ParseBacks(s, first.cmd, first.pos) == ParseBacks(s, c, q)
    decreases |ts|, 4
  {
    hide ParsePipe, ParseBacks, Items, After, PipeIs, SkipSpace;
    if PipeIs(ts, c) {
      q := PipeComplete(s, p, ts, c, rest);
      first := Parsed(c, q);
    } else {
      var front, after := ts[..|ts| - 1], [Sym('&')] + rest;
      assert ts + rest == front + after;
      var m;
      first, m := BackedComplete(s, p, front, c.cmd, after);
      BacksStep(s, c.cmd, m);
      AfterIs(s, m);
      assert after[1..] == rest;
      q := After(s, m);
    }
  }

  lemma {:induction false} LineComplete(s: string, p: nat, ts: seq<Item>, c: Cmd, rest: seq<Item>) returns (q: nat)
    requires IsLine(s) && p <= |s| && Items(s, p) == ts + rest && LineIs(ts, c) && StartsWith(rest, ")")
    ensures q <= |s| && ParseLine(s, p) == Some(Parsed(c, q)) && Items(s, q) == rest
    decreases |ts|, 5
  {
    hide ParseLine, ParsePipe, ParseBacks, Items, After, BackedIs, SkipSpace;
    LineStep(s, p);
    if BackedIs(ts, c) {
      var first, m := BackedComplete(s, p, ts, c, rest);
      BacksStep(s, c, m);
      PeekLeads(s, m);
      q := SkipSpace(s, m);
    } else {
      var k :| 0 <= k < |ts| && ListAt(ts, c, k);
      var after := [Sym(';')] + ts[k + 1..] + rest;
      assert ts + rest == ts[..k] + after;
      var first, m := BackedComplete(s, p, ts[..k], c.left, after);
      BacksStep(s, c.left, m);
      PeekLeads(s, m);
      var e := SkipSpace(s, m);
      AfterIs(s, e);
      assert after[1..] == ts[k + 1..] + rest;
      q := LineComplete(s, After(s, e), ts[k + 1..], c.right, rest);
    }
  }

  lemma NoMoreItems(s: string, p: nat)
    requires IsLine(s) && p <= |s|
    ensures Items(s, p) == [] <==> SkipSpace(s, p) == |s|
  {
    hide GetToken;
    ItemsFrom(s, p);
  }

  /** A line parses to c if and only if its tokens make c. */
  lemma ParsesIff(s: string, c: Cmd)
    requires IsLine(s)
    ensures ParseCmd(s) == Some(c) <==> LineIs(Items(s, 0), c)
  {
    hide ParseLine, Items, LineIs, SkipSpace;
    if ParseCmd(s) == Some(c) {
      var ts := LineSound(s, 0);
      var r := ParseLine(s, 0).value;
      NoMoreItems(s, r.pos);
      assert ts + [] == ts;
    }
    if LineIs(Items(s, 0), c) {
      assert Items(s, 0) + [] == Items(s, 0);
      var q := LineComplete(s, 0, Items(s, 0), c, []);
      NoMoreItems(s, q);
    }
  }

  /** So the parser is the language: c is read from s if and only if s spells out items that make c. */
  lemma SpellsIff(s: string, c: Cmd)
    requires IsLine(s)
    ensures ParseCmd(s) == Some(c) <==> exists ts :: TextIs(s, 0, ts) && LineIs(ts, c)
  {
    hide ParseCmd, LineIs, Items, TextIs;
    ParsesIff(s, c);
    ItemsIff(s, 0, Items(s, 0));
    if ts :| TextIs(s, 0, ts) && LineIs(ts, c) { ItemsIff(s, 0, ts); }
  }

  // ---- words ----

  predicate HasFile(rs: seq<Redirect>, w: Span) {
    exists i :: 0 <= i < |rs| && rs[i].file == w
  }

  lemma {:induction false} WrapWords(c: Cmd, rs: seq<Redirect>, w: Span)
    ensures HasSpan(Wrap(c, rs), w) <==> HasSpan(c, w) || HasFile(rs, w)
    decreases |rs|
  {
    if rs != [] {
      var n := |rs| - 1;
      WrapWords(c, rs[..n], w);
      if HasFile(rs[..n], w) {
        var i :| 0 <= i < n && rs[..n][i].file == w;
        assert rs[i].file == w;
      }
      if HasFile(rs, w) && rs[n].file != w {
        var i :| 0 <= i < |rs| && rs[i].file == w;
        assert rs[..n][i].file == w;
      }
    }
  }

  lemma {:induction false} ShapedWords(ts: seq<Item>, w: Span)
    requires Shaped(ts)
    ensures Word(w) in ts <==> w in ArgWords(ts) || HasFile(Redirects(ts), w)
  {
    if ts != [] {
      if ts[0].Word? {
        ShapedWords(ts[1..], w);
        assert ts == [ts[0]] + ts[1..];
      } else {
        ShapedWords(ts[2..], w);
        assert ts == [ts[0], ts[1]] + ts[2..];
        FirstFile(Redirect(ts[0].mode, ts[1].w), Redirects(ts[2..]), w);
      }
    }
  }

  lemma FirstFile(r: Redirect, rs: seq<Redirect>, w: Span)
    ensures HasFile([r] + rs, w) <==> r.file == w || HasFile(rs, w)
  {
    if HasFile(rs, w) {
      var i :| 0 <= i < |rs| && rs[i].file == w;
      assert ([r] + rs)[i + 1].file == w;
    }
    if r.file == w { assert ([r] + rs)[0].file == w; }
    if HasFile([r] + rs, w) && r.file != w {
      var i :| 0 <= i < |[r] + rs| && ([r] + rs)[i].file == w;
      assert rs[i - 1].file == w;
    }
  }

  lemma {:induction false} ExecWords(ts: seq<Item>, c: Cmd, w: Span)
    requires ExecIs(ts, c)
    ensures HasSpan(c, w) <==> Word(w) in ts
    decreases |ts|, 2
  {
    hide LineIs, Shaped, ArgWords, Redirects, Wrap, HasFile;
    if SimpleIs(ts, c) {
      ShapedWords(ts, w);
      WrapWords(Exec(ArgWords(ts)), Redirects(ts), w);
    } else {
      assert BlockIs(ts, c);
      var k, b :| 0 < k < |ts| && BlockAt(ts, c, k, b);
      LineWords(ts[1..k], b, w);
      ShapedWords(ts[k + 1..], w);
      WrapWords(b, Redirects(ts[k + 1..]), w);
      assert ts == [ts[0]] + ts[1..k] + [ts[k]] + ts[k + 1..];
    }
  }

  lemma {:induction false} PipeWords(ts: seq<Item>, c: Cmd, w: Span)
    requires PipeIs(ts, c)
    ensures HasSpan(c, w) <==> Word(w) in ts
    decreases |ts|, 3
  {
    hide ExecIs;
    if ExecIs(ts, c) {
      ExecWords(ts, c, w);
    } else {
      var k :| 0 <= k < |ts| && PipeAt(ts, c, k);
      ExecWords(ts[..k], c.left, w);
      PipeWords(ts[k + 1..], c.right, w);
      assert ts == ts[..k] + [ts[k]] + ts[k + 1..];
    }
  }

  lemma {:induction false} BackedWords(ts: seq<Item>, c: Cmd, w: Span)
    requires BackedIs(ts, c)
    ensures HasSpan(c, w) <==> Word(w) in ts
    decreases |ts|, 4
  {
    hide PipeIs;
    if PipeIs(ts, c) {
      PipeWords(ts, c, w);
    } else {
      BackedWords(ts[..|ts| - 1], c.cmd, w);
      assert ts == ts[..|ts| - 1] + [ts[|ts| - 1]];
    }
  }

  lemma {:induction false} LineWords(ts: seq<Item>, c: Cmd, w: Span)
    requires LineIs(ts, c)
    ensures HasSpan(c, w) <==> Word(w) in ts
    decreases |ts|, 5
  {
    hide BackedIs;
    if BackedIs(ts, c) {
      BackedWords(ts, c, w);
    } else {
      var k :| 0 <= k < |ts| && ListAt(ts, c, k);
      BackedWords(ts[..k], c.left, w);
      LineWords(ts[k + 1..], c.right, w);
      assert ts == ts[..k] + [ts[k]] + ts[k + 1..];
    }
  }

  /** The arguments and file names of a command are exactly the words of its line: none is lost, and none made up. */
  lemma AllWords(s: string, c: Cmd, w: Span)
    requires IsLine(s) && ParseCmd(s) == Some(c)
    ensures HasSpan(c, w) <==> Word(w) in Items(s, 0)
  {
    hide ParseCmd, LineIs, Items;
    ParsesIff(s, c);
    LineWords(Items(s, 0), c, w);
  }

  // ---- commands as they are typed ----

  datatype Lex = LWord(text: string) | LArrow(mode: Mode) | LSym(c: char)

  function Spell(x: Lex): string {
    match x
    case LWord(text) => text
    case LArrow(mode) => ShellRoundTrip.Arrow(mode)
    case LSym(c) => [c]
  }

  /** Words, arrows and symbols, each followed by a blank. */
  function Spelled(xs: seq<Lex>): string {
    if xs == [] then "" else Spell(xs[0]) + " " + Spelled(xs[1..])
  }

  predicate IsLex(x: Lex) {
    match x
    case LWord(text) => IsWord(text)
    case LArrow(_) => true
    case LSym(c) => c in "|();&"
  }

  function LexOf(s: string, i: Item): Lex {
    match i
    case Word(w) => LWord(Text(s, w))
    case Arrow(mode) => LArrow(mode)
    case Sym(c) => LSym(c)
  }

  function Lexed(s: string, ts: seq<Item>): (r: seq<Lex>)
    ensures |r| == |ts|
  {
    seq(|ts|, i requires 0 <= i < |ts| => LexOf(s, ts[i]))
  }

  /** One token of the text, and the blank behind it. */
  lemma TokenAt(s: string, p: nat, x: Lex)
    requires IsLine(s) && IsLex(x) && At(s, p, Spell(x) + " ") && NoSpace(s, p + |Spell(x)| + 1)
    ensures var t := GetToken(s, p);
      t.tok != '\0' && LexOf(s, ItemOf(t)) == x && t.pos == p + |Spell(x)| + 1
  {
    hide At, GetToken, NoSpace, SkipSpace, ItemOf;
    AtParts(s, p, Spell(x), " ");
    AtChar(s, p + |Spell(x)|, " ");
    SpaceThen(s, p + |Spell(x)|);
    match x
    case LWord(text) => WordAt(s, p, text);
    case LArrow(mode) => ArrowAt(s, p, mode);
    case LSym(c) => SymAt(s, p, c);
  }

  lemma WordAt(s: string, p: nat, text: string)
    requires IsLine(s) && IsWord(text) && At(s, p, text) && p + |text| < |s| && s[p + |text|] == ' '
    ensures var t := GetToken(s, p);
      t.tok == 'a' && t.pos == SkipSpace(s, p + |text|) && LexOf(s, ItemOf(t)) == LWord(text)
  {
    hide GetToken;
    WordToken(s, p, text);
  }

  lemma ArrowAt(s: string, p: nat, mode: Mode)
    requires At(s, p, ShellRoundTrip.Arrow(mode))
    requires p + |ShellRoundTrip.Arrow(mode)| < |s| && s[p + |ShellRoundTrip.Arrow(mode)|] == ' '
    ensures var t := GetToken(s, p);
      && t.tok in "<>+" && t.pos == SkipSpace(s, p + |ShellRoundTrip.Arrow(mode)|)
      && ItemOf(t) == Item.Arrow(mode)
  {
    ArrowToken(s, p, mode);
    AtChar(s, p, ShellRoundTrip.Arrow(mode));
    StaysPut(s, p);
    hide SkipWord, SkipSpace;
  }

  lemma SymAt(s: string, p: nat, c: char)
    requires At(s, p, [c]) && c in "|();&"
    ensures var t := GetToken(s, p); t.tok == c && t.pos == SkipSpace(s, p + 1) && ItemOf(t) == Sym(c)
  {
    hide GetToken;
    AtChar(s, p, [c]);
    SymbolToken(s, p);
  }

  lemma NextNoSpace(xs: seq<Lex>, s: string, p: nat)
    requires At(s, p, Spelled(xs)) && p + |Spelled(xs)| == |s| && forall x <- xs :: IsLex(x)
    ensures NoSpace(s, p)
  {
    if xs != [] {
      assert IsLex(xs[0]) && Spell(xs[0]) != "";
      AtChar(s, p, Spelled(xs));
      if xs[0].LWord? { assert Plain(xs[0].text[0]); }
    }
  }

  /** The first token of the text, and where the rest begins. */
  lemma FirstLex(xs: seq<Lex>, s: string, p: nat) returns (q: nat)
    requires IsLine(s) && xs != [] && At(s, p, Spelled(xs)) && p + |Spelled(xs)| == |s| && forall x <- xs :: IsLex(x)
    ensures p < q <= |s| && At(s, q, Spelled(xs[1..])) && q + |Spelled(xs[1..])| == |s|
    ensures var t := GetToken(s, p); LexOf(s, ItemOf(t)) == xs[0] && Items(s, p) == [ItemOf(t)] + Items(s, q)
  {
    hide GetToken, IsLex, At, NoSpace, Items, Spell, LexOf, ItemOf;
    q := p + |Spell(xs[0])| + 1;
    assert Spelled(xs) == Spell(xs[0]) + " " + Spelled(xs[1..]);
    AtParts(s, p, Spell(xs[0]) + " ", Spelled(xs[1..]));
    assert forall x <- xs[1..] :: x in xs;
    NextNoSpace(xs[1..], s, q);
    TokenAt(s, p, xs[0]);
    ItemsFrom(s, p);
  }

  lemma LexedNext(s: string, i: Item, ts: seq<Item>)
    ensures Lexed(s, [i] + ts) == [LexOf(s, i)] + Lexed(s, ts)
  {
    hide LexOf;
  }

  /** The tokens of the text are those it was made of. */
  lemma {:induction false} LexBack(xs: seq<Lex>, s: string, p: nat)
    requires IsLine(s) && At(s, p, Spelled(xs)) && p + |Spelled(xs)| == |s| && forall x <- xs :: IsLex(x)
    ensures Lexed(s, Items(s, p)) == xs
  {
    hide GetToken, IsLex, At, Items, Spelled, LexOf, ItemOf, Lexed;
    if xs == [] {
      NothingLeft(s, p);
    } else {
      var q := FirstLex(xs, s, p);
      assert forall x <- xs[1..] :: x in xs;
      LexBack(xs[1..], s, q);
      LexedNext(s, ItemOf(GetToken(s, p)), Items(s, q));
      assert [xs[0]] + xs[1..] == xs;
    }
  }

  lemma NothingLeft(s: string, p: nat)
    requires IsLine(s) && At(s, p, Spelled([])) && p + |Spelled([])| == |s|
    ensures Lexed(s, Items(s, p)) == []
  {
    AtTheLast(s, p);
  }

  lemma AtTheLast(s: string, p: nat)
    requires IsLine(s) && p == |s|
    ensures Items(s, p) == []
  {
    NoMoreItems(s, p);
  }

  predicate Compound(t: Tree) {
    t.TList? || t.TBack? || t.TPipe?
  }

  /** The command inside the redirections of t, */
  function Core(t: Tree): (c: Tree)
    ensures !c.TRedir? && (WellFormed(t) ==> WellFormed(c))
    ensures t.TRedir? ==> c < t
    ensures !t.TRedir? ==> c == t
  {
    if t.TRedir? then Core(t.cmd) else t
  }

  /** and those, as they are typed, the innermost first. */
  function Arrows(t: Tree): seq<Lex> {
    if t.TRedir? then Arrows(t.cmd) + [LArrow(t.mode), LWord(t.file)] else []
  }

  /** The command with no more parentheses than it needs. */
  function Typed(t: Tree): seq<Lex>
    decreases t, 4
  {
    if t.TList? then TypedBacked(t.left) + [LSym(';')] + Typed(t.right) else TypedBacked(t)
  }

  function TypedBacked(t: Tree): seq<Lex>
    decreases t, if t.TList? then 6 else 3
  {
    if t.TList? then Enclosed(t) else if t.TBack? then TypedBacked(t.cmd) + [LSym('&')] else TypedPipe(t)
  }

  function TypedPipe(t: Tree): seq<Lex>
    decreases t, if t.TList? || t.TBack? then 6 else 2
  {
    if t.TList? || t.TBack? then Enclosed(t)
    else if t.TPipe? then TypedExec(t.left) + [LSym('|')] + TypedPipe(t.right)
    else TypedExec(t)
  }

  function LWords(words: seq<string>): (r: seq<Lex>)
    ensures |r| == |words| && forall i :: 0 <= i < |words| ==> r[i] == LWord(words[i])
  {
    seq(|words|, i requires 0 <= i < |words| => LWord(words[i]))
  }

  function TypedExec(t: Tree): seq<Lex>
    decreases t, if Compound(t) then 6 else 1
  {
    if Core(t).TExec? then LWords(Core(t).words) + Arrows(t)
    else Enclosed(Core(t)) + Arrows(t)
  }

  function Enclosed(t: Tree): seq<Lex>
    decreases t, 5
  {
    [LSym('(')] + Typed(t) + [LSym(')')]
  }

  // ---- and back ----

  lemma LexedParts(s: string, ts: seq<Item>, a: seq<Lex>, b: seq<Lex>)
    requires Lexed(s, ts) == a + b
    ensures |a| <= |ts| && Lexed(s, ts[..|a|]) == a && Lexed(s, ts[|a|..]) == b
  {
    assert |ts| == |a| + |b|;
    forall i | 0 <= i < |a| ensures LexOf(s, ts[i]) == a[i] { assert Lexed(s, ts)[i] == a[i]; }
    forall i | 0 <= i < |b| ensures LexOf(s, ts[|a| + i]) == b[i] { assert Lexed(s, ts)[|a| + i] == b[i]; }
  }

  lemma LexedOne(s: string, ts: seq<Item>, x: Lex)
    requires Lexed(s, ts) == [x]
    ensures |ts| == 1 && LexOf(s, ts[0]) == x
  {
    assert Lexed(s, ts)[0] == x;
  }

  /** A sequence in three parts, the middle one a symbol. */
  lemma LexedAround(s: string, ts: seq<Item>, a: seq<Lex>, c: char, b: seq<Lex>)
    requires Lexed(s, ts) == a + [LSym(c)] + b
    ensures |a| < |ts| && Lexed(s, ts[..|a|]) == a && ts[|a|] == Sym(c) && Lexed(s, ts[|a| + 1..]) == b
  {
    LexedParts(s, ts, a + [LSym(c)], b);
    LexedParts(s, ts[..|a| + 1], a, [LSym(c)]);
    LexedOne(s, ts[..|a| + 1][|a|..], LSym(c));
    assert ts[..|a| + 1][..|a|] == ts[..|a|];
  }

  /** Redirections, of whatever command. */
  lemma {:induction false} ArrowsBack(t: Tree, s: string, ts: seq<Item>, b: Cmd) returns (c: Cmd)
    requires Lexed(s, ts) == Arrows(t) && Erase(s, b) == Core(t)
    ensures Shaped(ts) && ArgWords(ts) == [] && c == Wrap(b, Redirects(ts)) && Erase(s, c) == t
    decreases t
  {
    hide Lexed;
    if t.TRedir? {
      var n := |Arrows(t.cmd)|;
      LexedParts(s, ts, Arrows(t.cmd), [LArrow(t.mode), LWord(t.file)]);
      var d := ArrowsBack(t.cmd, s, ts[..n], b);
      LexedTwo(s, ts[n..], LArrow(t.mode), LWord(t.file));
      var r := Redirect(ts[n].mode, ts[n + 1].w);
      OneMoreTail(r, []);
      NoItems();
      assert ts[n..] == [Item.Arrow(r.mode), Word(r.file)] + [];
      TailThen(ts[..n], ts[n..]);
      assert ts == ts[..n] + ts[n..];
      c := Wrap(b, Redirects(ts));
      assert [r] + [] == [r];
      WrapLast(b, Redirects(ts[..n]), r);
    } else {
      c := b;
      assert |ts| == 0 by { LexedParts(s, ts, [], []); }
      NoItems();
      WrapNone(b);
    }
  }

  lemma WrapLast(b: Cmd, rs: seq<Redirect>, r: Redirect)
    ensures Wrap(b, rs + [r]) == Redir(Wrap(b, rs), r.file, r.mode)
  {
    assert (rs + [r])[..|rs|] == rs;
  }

  lemma LexedTwo(s: string, ts: seq<Item>, x: Lex, y: Lex)
    requires Lexed(s, ts) == [x, y]
    ensures |ts| == 2 && LexOf(s, ts[0]) == x && LexOf(s, ts[1]) == y
  {
    assert Lexed(s, ts)[0] == x && Lexed(s, ts)[1] == y;
  }

  lemma {:induction false} WordsBack(s: string, ts: seq<Item>, words: seq<string>)
    requires Lexed(s, ts) == LWords(words)
    ensures Shaped(ts) && Redirects(ts) == [] && Texts(s, ArgWords(ts)) == words && |ArgWords(ts)| == |words|
    decreases |words|
  {
    if words == [] {
      assert |ts| == 0;
    } else {
      assert Lexed(s, ts)[0] == LWord(words[0]);
      forall i | 0 <= i < |words| - 1 ensures Lexed(s, ts[1..])[i] == LWord(words[1..][i]) {
        assert Lexed(s, ts)[i + 1] == LWord(words[i + 1]);
      }
      WordsBack(s, ts[1..], words[1..]);
      OneText(s, ts[0].w, ArgWords(ts[1..]));
      assert words == [words[0]] + words[1..];
    }
  }

  lemma OnlyWords(a: seq<Item>)
    requires Shaped(a) && Redirects(a) == [] && a != []
    ensures a[0].Word? && Shaped(a[1..]) && Redirects(a[1..]) == [] && ArgWords(a) == [a[0].w] + ArgWords(a[1..])
  {
  }

  lemma WordThen(w: Span, b: seq<Item>)
    requires Shaped(b)
    ensures Shaped([Word(w)] + b) && ArgWords([Word(w)] + b) == [w] + ArgWords(b)
    ensures Redirects([Word(w)] + b) == Redirects(b)
  {
    assert ([Word(w)] + b)[1..] == b;
  }

  /** Words, and redirections after them. */
  lemma {:induction false} WordsThen(a: seq<Item>, b: seq<Item>)
    requires Shaped(a) && Redirects(a) == [] && Shaped(b) && ArgWords(b) == []
    ensures Shaped(a + b) && ArgWords(a + b) == ArgWords(a) && Redirects(a + b) == Redirects(b)
  {
    hide Shaped, Redirects, ArgWords;
    if a == [] {
      assert a + b == b;
      NoItems();
    } else {
      OnlyWords(a);
      WordsThen(a[1..], b);
      WordThen(a[0].w, a[1..] + b);
      assert a + b == [a[0]] + (a[1..] + b);
    }
  }

  lemma {:induction false} ExecBack(t: Tree, s: string, ts: seq<Item>) returns (c: Cmd)
    requires WellFormed(t) && Lexed(s, ts) == TypedExec(t)
    ensures ExecIs(ts, c) && Erase(s, c) == t
    decreases t, if Compound(t) then 6 else 1
  {
    hide Lexed, Wrap, Shaped, ArgWords, Redirects, LineIs, WellFormed, Texts;
    if Core(t).TExec? {
      var words := Core(t).words;
      LexedParts(s, ts, LWords(words), Arrows(t));
      var n := |words|;
      WordsBack(s, ts[..n], words);
      var b := Exec(ArgWords(ts[..n]));
      c := ArrowsBack(t, s, ts[n..], b);
      WordsThen(ts[..n], ts[n..]);
      assert ts == ts[..n] + ts[n..];
      FewWords(Core(t));
    } else {
      LexedParts(s, ts, Enclosed(Core(t)), Arrows(t));
      var n := |Enclosed(Core(t))|;
      var b := EnclosedBack(Core(t), s, ts[..n]);
      c := ArrowsBack(t, s, ts[n..], b);
      Middle(ts, n);
      assert BlockAt(ts, c, n - 1, b);
    }
  }

  lemma Middle(ts: seq<Item>, n: nat)
    requires 1 < n <= |ts|
    ensures ts[..n][1..n - 1] == ts[1..n - 1] && ts[n - 1 + 1..] == ts[n..]
  {
  }

  lemma FewWords(t: Tree)
    requires t.TExec? && WellFormed(t)
    ensures |t.words| < MAXARGS
  {
  }

  lemma {:induction false} EnclosedBack(t: Tree, s: string, ts: seq<Item>) returns (b: Cmd)
    requires WellFormed(t) && Lexed(s, ts) == Enclosed(t)
    ensures |ts| > 1 && ts[0] == Sym('(') && ts[|ts| - 1] == Sym(')')
    ensures LineIs(ts[1..|ts| - 1], b) && Erase(s, b) == t
    decreases t, 5, 0
  {
    hide Lexed, LineIs, WellFormed;
    assert Enclosed(t) == [LSym('(')] + (Typed(t) + [LSym(')')]);
    LexedParts(s, ts, [LSym('(')], Typed(t) + [LSym(')')]);
    LexedOne(s, ts[..1], LSym('('));
    LexedParts(s, ts[1..], Typed(t), [LSym(')')]);
    LexedOne(s, ts[1..][|Typed(t)|..], LSym(')'));
    assert ts[1..][..|Typed(t)|] == ts[1..|ts| - 1];
    b := LineBack(t, s, ts[1..|ts| - 1]);
  }

  lemma {:induction false} EnclosedIsExec(t: Tree, s: string, ts: seq<Item>) returns (b: Cmd)
    requires WellFormed(t) && Lexed(s, ts) == Enclosed(t)
    ensures ExecIs(ts, b) && Erase(s, b) == t
    decreases t, 5, 1
  {
    hide Lexed, LineIs, WellFormed;
    b := EnclosedBack(t, s, ts);
    var k := |ts| - 1;
    assert ts[k + 1..] == [];
    NoTail(b);
    assert BlockAt(ts, b, k, b);
  }

  lemma {:induction false} PipeBack(t: Tree, s: string, ts: seq<Item>) returns (c: Cmd)
    requires WellFormed(t) && Lexed(s, ts) == TypedPipe(t)
    ensures PipeIs(ts, c) && Erase(s, c) == t
    decreases t, if t.TList? || t.TBack? then 6 else 2
  {
    hide Lexed, ExecIs;
    if t.TList? || t.TBack? {
      c := EnclosedIsExec(t, s, ts);
    } else if t.TPipe? {
      var k := |TypedExec(t.left)|;
      LexedAround(s, ts, TypedExec(t.left), '|', TypedPipe(t.right));
      var l := ExecBack(t.left, s, ts[..k]);
      var r := PipeBack(t.right, s, ts[k + 1..]);
      c := Pipe(l, r);
      assert PipeAt(ts, c, k);
    } else {
      c := ExecBack(t, s, ts);
    }
  }

  lemma {:induction false} BackedBack(t: Tree, s: string, ts: seq<Item>) returns (c: Cmd)
    requires WellFormed(t) && Lexed(s, ts) == TypedBacked(t)
    ensures BackedIs(ts, c) && Erase(s, c) == t
    decreases t, if t.TList? then 6 else 3
  {
    hide Lexed, ExecIs;
    if t.TList? {
      c := EnclosedIsExec(t, s, ts);
      assert PipeIs(ts, c);
    } else if t.TBack? {
      var n := |TypedBacked(t.cmd)|;
      LexedParts(s, ts, TypedBacked(t.cmd), [LSym('&')]);
      LexedOne(s, ts[n..], LSym('&'));
      var b := BackedBack(t.cmd, s, ts[..n]);
      assert ts[..|ts| - 1] == ts[..n];
      c := Back(b);
    } else {
      c := PipeBack(t, s, ts);
    }
  }

  lemma {:induction false} LineBack(t: Tree, s: string, ts: seq<Item>) returns (c: Cmd)
    requires WellFormed(t) && Lexed(s, ts) == Typed(t)
    ensures LineIs(ts, c) && Erase(s, c) == t
    decreases t, 4
  {
    hide Lexed, BackedIs;
    if t.TList? {
      var k := |TypedBacked(t.left)|;
      LexedAround(s, ts, TypedBacked(t.left), ';', Typed(t.right));
      var l := BackedBack(t.left, s, ts[..k]);
      var r := LineBack(t.right, s, ts[k + 1..]);
      c := List(l, r);
      assert ListAt(ts, c, k);
    } else {
      c := BackedBack(t, s, ts);
    }
  }

  // ---- the text ----

  lemma {:induction false} TypedIsLex(t: Tree)
    requires WellFormed(t)
    ensures forall x <- Typed(t) + TypedBacked(t) + TypedPipe(t) + TypedExec(t) :: IsLex(x)
    decreases t
  {
    ArrowsAreLex(t);
    match t
    case TExec(words) =>
    case TRedir(cmd, _, _) => TypedIsLex(Core(t)); CoreWords(t);
    case TPipe(left, right) => TypedIsLex(left); TypedIsLex(right);
    case TList(left, right) => TypedIsLex(left); TypedIsLex(right);
    case TBack(cmd) => TypedIsLex(cmd);
  }

  lemma CoreWords(t: Tree)
    requires WellFormed(t)
    ensures Core(t).TExec? ==> forall i :: 0 <= i < |Core(t).words| ==> IsWord(Core(t).words[i])
  {
  }

  lemma {:induction false} ArrowsAreLex(t: Tree)
    requires WellFormed(t)
    ensures forall x <- Arrows(t) :: IsLex(x)
  {
    if t.TRedir? { ArrowsAreLex(t.cmd); }
  }

  lemma {:induction false} SpelledIsLine(xs: seq<Lex>)
    requires forall x <- xs :: IsLex(x)
    ensures IsLine(Spelled(xs))
  {
    if xs != [] {
      assert forall x <- xs[1..] :: x in xs;
      SpelledIsLine(xs[1..]);
      assert IsLex(xs[0]);
      if xs[0].LWord? { assert forall i :: 0 <= i < |xs[0].text| ==> Plain(xs[0].text[i]); }
    }
  }

  /**
  Any well-formed command, typed with blanks between its parts and no more parentheses than it needs, parses to
  itself: pipes, lists and & group as they should, and redirections nest in the order they come.
  */
  lemma TypedRoundTrip(t: Tree)
    requires WellFormed(t)
    ensures var s := Spelled(Typed(t));
            IsLine(s) && ParseCmd(s).Some? && Erase(s, ParseCmd(s).value) == t
  {
    hide ParseCmd, LineIs, Items, WellFormed, Erase, Typed;
    var s := Spelled(Typed(t));
    TypedIsLex(t);
    SpelledIsLine(Typed(t));
    assert s[0..0 + |s|] == s;
    LexBack(Typed(t), s, 0);
    var c := LineBack(t, s, Items(s, 0));
    ParsesIff(s, c);
  }
}
