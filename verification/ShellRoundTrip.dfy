/** Parsing a command written out in full gives the command back. */
module ShellRoundTrip {
  import opened Wrappers
  import opened ShellGrammar

  /** A command with its words as strings. */
  datatype Tree =
    | TExec(words: seq<string>)
    | TRedir(cmd: Tree, file: string, mode: Mode)
    | TPipe(left: Tree, right: Tree)
    | TList(left: Tree, right: Tree)
    | TBack(cmd: Tree)

  predicate IsWord(w: string) {
    w != "" && forall i :: 0 <= i < |w| ==> Plain(w[i])
  }

  predicate WellFormed(t: Tree) {
    match t
    case TExec(words) => |words| < MAXARGS && forall i :: 0 <= i < |words| ==> IsWord(words[i])
    case TRedir(cmd, file, _) => WellFormed(cmd) && IsWord(file)
    case TPipe(left, right) => WellFormed(left) && WellFormed(right)
    case TList(left, right) => WellFormed(left) && WellFormed(right)
    case TBack(cmd) => WellFormed(cmd)
  }

  function Text(s: string, w: Span): string {
    if w.q <= w.eq <= |s| then s[w.q..w.eq] else ""
  }

  function Texts(s: string, ws: seq<Span>): (r: seq<string>)
    ensures |r| == |ws|
  {
    seq(|ws|, i requires 0 <= i < |ws| => Text(s, ws[i]))
  }

  /** The command with its spans read off the line. */
  function Erase(s: string, c: Cmd): Tree {
    match c
    case Exec(args) => TExec(Texts(s, args))
    case Redir(cmd, file, mode) => TRedir(Erase(s, cmd), Text(s, file), mode)
    case Pipe(left, right) => TPipe(Erase(s, left), Erase(s, right))
    case List(left, right) => TList(Erase(s, left), Erase(s, right))
    case Back(cmd) => TBack(Erase(s, cmd))
  }

  function Words(words: seq<string>): string {
    if words == [] then "" else words[0] + " " + Words(words[1..])
  }

  function Arrow(m: Mode): string {
    match m case Input => "<" case Output => ">" case Append => ">>"
  }

  /** The command with every part in parentheses. */
  function Render(t: Tree): string
    decreases t, 0
  {
    match t
    case TExec(words) => Words(words)
    case TRedir(cmd, file, mode) => Paren(cmd) + (Arrow(mode) + file)
    case TPipe(left, right) => Paren(left) + ("|" + Paren(right))
    case TList(left, right) => Paren(left) + (";" + Paren(right))
    case TBack(cmd) => Paren(cmd) + "&"
  }

  function Paren(t: Tree): string
    decreases t, 1
  {
    "(" + Render(t) + ")"
  }

  predicate At(s: string, p: nat, r: string) {
    p + |r| <= |s| && s[p..p + |r|] == r
  }

  lemma AtParts(s: string, p: nat, a: string, b: string)
    requires At(s, p, a + b)
    ensures At(s, p, a) && At(s, p + |a|, b)
  {
    assert s[p..p + |a|] == s[p..p + |a + b|][..|a|] == (a + b)[..|a|];
    assert s[p + |a|..p + |a| + |b|] == s[p..p + |a + b|][|a|..] == (a + b)[|a|..];
  }

  lemma AtChar(s: string, p: nat, r: string)
    requires At(s, p, r) && r != ""
    ensures p < |s| && s[p] == r[0]
  {
  }

  /** At the end of a command that stands alone or in parentheses. */
  predicate Closed(s: string, e: nat) {
    e == |s| || (e < |s| && s[e] == ')')
  }

  predicate NoSpace(s: string, p: nat) {
    p <= |s| && (p < |s| ==> s[p] !in WHITESPACE)
  }

  lemma StaysPut(s: string, p: nat)
    requires NoSpace(s, p)
    ensures SkipSpace(s, p) == p
  {
  }

  lemma WordToken(s: string, p: nat, w: string)
    requires At(s, p, w) && IsWord(w) && (p + |w| == |s| || !Plain(s[p + |w|])) && IsLine(s)
    ensures GetToken(s, p) == Token('a', p, p + |w|, SkipSpace(s, p + |w|))
  {
    assert forall i :: 0 <= i < |w| ==> s[p + i] == w[i];
    assert Plain(w[0]) && s[p] == w[0];
    StaysPut(s, p);
    var r := SkipWord(s, p);
    forall i | p <= i < p + |w| ensures Plain(s[i]) { assert Plain(w[i - p]); }
  }

  lemma SymbolToken(s: string, p: nat)
    requires p < |s| && s[p] in "|();&<"
    ensures GetToken(s, p) == Token(s[p], p, p + 1, SkipSpace(s, p + 1))
  {
    StaysPut(s, p);
  }

  lemma ArrowToken(s: string, p: nat, m: Mode)
    requires At(s, p, Arrow(m)) && p + |Arrow(m)| < |s| && s[p + |Arrow(m)|] != '>'
    ensures Peek(s, p, "<>") && ModeOf(GetToken(s, p).tok) == m && GetToken(s, p).pos == SkipSpace(s, p + |Arrow(m)|)
  {
    AtChar(s, p, Arrow(m));
    StaysPut(s, p);
    if m.Append? { assert s[p + 1] == s[p..p + 2][1]; }
  }

  // ---- words ----

  lemma PlainNext(s: string, p: nat)
    requires p < |s| && Plain(s[p])
    ensures SkipSpace(s, p) == p && !Peek(s, p, "(") && !Peek(s, p, "<>") && !Peek(s, p, "|)&;")
  {
    StaysPut(s, p);
  }

  /** One more word. */
  lemma ArgStep(s: string, cmd: Cmd, argc: nat, p: nat, w: string)
    requires IsLine(s) && At(s, p, w) && IsWord(w) && argc + 1 < MAXARGS
    requires p + |w| < |s| && s[p + |w|] == ' ' && NoSpace(s, p + |w| + 1)
    requires p + |w| + 1 < |s| ==> s[p + |w| + 1] == ')' || Plain(s[p + |w| + 1])
    ensures ParseArgs(s, cmd, argc, p) == ParseArgs(s, AddArg(cmd, Span(p, p + |w|)), argc + 1, p + |w| + 1)
  {
    AtChar(s, p, w);
    assert Plain(w[0]);
    PlainNext(s, p);
    WordToken(s, p, w);
    SpaceThen(s, p + |w|);
    NoRedirs(s, AddArg(cmd, Span(p, p + |w|)), p + |w| + 1);
  }

  lemma ArgsEnd(s: string, cmd: Cmd, argc: nat, p: nat)
    requires IsLine(s) && Closed(s, p)
    ensures ParseArgs(s, cmd, argc, p) == Some(Parsed(cmd, p))
  {
    StaysPut(s, p);
    if p == |s| { assert GetToken(s, p).tok == '\0'; }
  }

  /** The words that follow the arguments found so far. */
  lemma {:induction false} RenderedArgs(words: seq<string>, args: seq<Span>, s: string, p: nat)
    returns (more: seq<Span>)
    requires IsLine(s) && At(s, p, Words(words)) && Closed(s, p + |Words(words)|)
    requires (forall i :: 0 <= i < |words| ==> IsWord(words[i])) && |args| + |words| < MAXARGS
    ensures ParseArgs(s, Exec(args), |args|, p) == Some(Parsed(Exec(args + more), p + |Words(words)|))
    ensures Texts(s, more) == words
    decreases |words|
  {
    hide ParseArgs, Closed, NoSpace, Texts, IsWord;
    if words == [] {
      ArgsEnd(s, Exec(args), |args|, p);
      more := [];
      assert args + more == args;
      NoTexts(s);
    } else {
      var w, rest := words[0], words[1..];
      assert IsWord(words[0]);
      assert Words(words) == w + (" " + Words(rest));
      AtParts(s, p, w, " " + Words(rest));
      AtParts(s, p + |w|, " ", Words(rest));
      AtChar(s, p + |w|, " " + Words(rest));
      var q := p + |w| + 1;
      NoLeadingSpace(rest, s, q);
      ArgStep(s, Exec(args), |args|, p, w);
      var word := Span(p, p + |w|);
      var tail := RenderedArgs(rest, args + [word], s, q);
      more := [word] + tail;
      assert args + more == args + [word] + tail;
      OneText(s, word, tail);
      assert [w] + rest == words;
    }
  }

  lemma NoTexts(s: string)
    ensures Texts(s, []) == []
  {
  }

  lemma OneText(s: string, w: Span, rest: seq<Span>)
    ensures Texts(s, [w] + rest) == [Text(s, w)] + Texts(s, rest)
  {
  }

  lemma SpaceThen(s: string, p: nat)
    requires p < |s| && s[p] == ' ' && NoSpace(s, p + 1)
    ensures SkipSpace(s, p) == p + 1
  {
    StaysPut(s, p + 1);
  }

  /** A word, or the end of the command, comes next. */
  lemma NoLeadingSpace(words: seq<string>, s: string, p: nat)
    requires At(s, p, Words(words)) && Closed(s, p + |Words(words)|)
    requires forall i :: 0 <= i < |words| ==> IsWord(words[i])
    ensures NoSpace(s, p) && (p < |s| ==> s[p] == ')' || Plain(s[p])) && (words != [] ==> p < |s| && Plain(s[p]))
  {
    if words != [] {
      assert IsWord(words[0]) && Plain(words[0][0]);
      AtChar(s, p, Words(words));
    }
  }

  lemma NoRedirs(s: string, cmd: Cmd, p: nat)
    requires IsLine(s) && NoSpace(s, p) && (p < |s| ==> s[p] == ')' || Plain(s[p]))
    ensures ParseRedirs(s, cmd, p) == Some(Parsed(cmd, p))
  {
    StaysPut(s, p);
  }

  // ---- one step of the parser ----

  lemma ExecOfWords(s: string, p: nat)
    requires IsLine(s) && NoSpace(s, p) && (p < |s| ==> s[p] == ')' || Plain(s[p]))
    ensures ParseExec(s, p) == ParseArgs(s, Exec([]), 0, p)
  {
    StaysPut(s, p);
    NoRedirs(s, Exec([]), p);
  }

  lemma ExecThenEnd(s: string, p: nat, c: Cmd, e: nat)
    requires IsLine(s) && p <= e && Closed(s, e) && ParseExec(s, p) == Some(Parsed(c, e))
    ensures ParsePipe(s, p) == Some(Parsed(c, e))
  {
    AtEnd(s, e);
  }

  lemma ExecThenBar(s: string, p: nat, c: Cmd, m: nat)
    requires IsLine(s) && p <= m < |s| && s[m] == '|' && NoSpace(s, m + 1) && ParseExec(s, p) == Some(Parsed(c, m))
    ensures ParsePipe(s, p) ==
            match ParsePipe(s, m + 1) case None => None case Some(rest) => Some(Parsed(Pipe(c, rest.cmd), rest.pos))
  {
    hide ParseExec, IsLine, GetToken, SkipSpace;
    StaysPut(s, m);
    SymbolToken(s, m);
    StaysPut(s, m + 1);
  }

  lemma ExecThenOther(s: string, p: nat, c: Cmd, m: nat)
    requires IsLine(s) && p <= m < |s| && s[m] in ";&" && ParseExec(s, p) == Some(Parsed(c, m))
    ensures ParsePipe(s, p) == Some(Parsed(c, m))
  {
    StaysPut(s, m);
  }

  lemma PipeThenEnd(s: string, p: nat, c: Cmd, e: nat)
    requires IsLine(s) && p <= e && Closed(s, e) && ParsePipe(s, p) == Some(Parsed(c, e))
    ensures ParseLine(s, p) == Some(Parsed(c, e))
  {
    AtEnd(s, e);
  }

  lemma PipeThenSemicolon(s: string, p: nat, c: Cmd, m: nat)
    requires IsLine(s) && p <= m < |s| && s[m] == ';' && NoSpace(s, m + 1) && ParsePipe(s, p) == Some(Parsed(c, m))
    ensures ParseLine(s, p) ==
            match ParseLine(s, m + 1) case None => None case Some(rest) => Some(Parsed(List(c, rest.cmd), rest.pos))
  {
    StaysPut(s, m);
    SymbolToken(s, m);
    StaysPut(s, m + 1);
  }

  lemma PipeThenAmpersand(s: string, p: nat, c: Cmd, m: nat)
    requires IsLine(s) && p <= m < |s| && s[m] == '&' && Closed(s, m + 1) && ParsePipe(s, p) == Some(Parsed(c, m))
    ensures ParseLine(s, p) == Some(Parsed(Back(c), m + 1))
  {
    StaysPut(s, m);
    SymbolToken(s, m);
    AtEnd(s, m + 1);
    assert ParseBacks(s, Back(c), m + 1) == Parsed(Back(c), m + 1);
    assert ParseBacks(s, c, m) == ParseBacks(s, Back(c), m + 1);
  }

  lemma RedirThenEnd(s: string, c: Cmd, m: nat, mode: Mode, file: string)
    requires IsLine(s) && At(s, m, Arrow(mode)) && At(s, m + |Arrow(mode)|, file) && IsWord(file)
    requires Closed(s, m + |Arrow(mode)| + |file|)
    ensures var q := m + |Arrow(mode)|;
            ParseRedirs(s, c, m) == Some(Parsed(Redir(c, Span(q, q + |file|), mode), q + |file|))
  {
    hide GetToken, Peek, At, IsWord, Closed, ModeOf;
    var q := m + |Arrow(mode)|;
    FileToken(s, m, mode, file);
    AtEnd(s, q + |file|);
  }

  lemma FileToken(s: string, m: nat, mode: Mode, file: string)
    requires IsLine(s) && At(s, m, Arrow(mode)) && At(s, m + |Arrow(mode)|, file) && IsWord(file)
    requires Closed(s, m + |Arrow(mode)| + |file|)
    ensures var q := m + |Arrow(mode)|;
      && q + |file| <= |s| && Peek(s, m, "<>") && ModeOf(GetToken(s, m).tok) == mode && GetToken(s, m).pos == q
      && GetToken(s, q) == Token('a', q, q + |file|, q + |file|)
  {
    hide GetToken, Peek, ModeOf;
    var q := m + |Arrow(mode)|;
    AtChar(s, q, file);
    assert Plain(file[0]);
    ArrowToken(s, m, mode);
    PlainNext(s, q);
    WordToken(s, q, file);
    AtEnd(s, q + |file|);
  }

  lemma BlockStep(s: string, p: nat, c: Cmd, e: nat)
    requires IsLine(s) && p < e < |s| && s[p] == '(' && NoSpace(s, p + 1) && s[e] == ')' && NoSpace(s, e + 1)
    requires ParseLine(s, p + 1) == Some(Parsed(c, e))
    ensures ParseExec(s, p) == ParseRedirs(s, c, e + 1)
  {
    hide GetToken, Peek, ParseRedirs, ParseLine;
    Bracket(s, p, "(");
    Bracket(s, e, ")");
  }

  lemma Bracket(s: string, p: nat, b: string)
    requires IsLine(s) && p < |s| && |b| == 1 && b[0] in "()" && s[p] == b[0] && NoSpace(s, p + 1)
    ensures Peek(s, p, b) && GetToken(s, p).pos == p + 1
  {
    StaysPut(s, p);
    SymbolToken(s, p);
    StaysPut(s, p + 1);
  }

  lemma NoRedirsHere(s: string, c: Cmd, m: nat)
    requires IsLine(s) && m <= |s| && (m < |s| ==> s[m] in "|;&)")
    ensures ParseRedirs(s, c, m) == Some(Parsed(c, m))
  {
    StaysPut(s, m);
  }

  // ---- commands ----

  /** After the first part of a command: nothing but the end. */
  lemma AtEnd(s: string, e: nat)
    requires Closed(s, e)
    ensures NoSpace(s, e) && SkipSpace(s, e) == e && !Peek(s, e, "&") && !Peek(s, e, ";") && !Peek(s, e, "|")
    ensures !Peek(s, e, "<>")
  {
    StaysPut(s, e);
  }

  lemma RenderStart(t: Tree, s: string, p: nat)
    requires WellFormed(t) && At(s, p, Render(t)) && Closed(s, p + |Render(t)|)
    ensures NoSpace(s, p)
  {
    match t
    case TExec(words) => NoLeadingSpace(words, s, p);
    case _ =>
      assert Render(t)[0] == '(';
      AtChar(s, p, Render(t));
  }

  lemma {:induction false} RenderedLine(t: Tree, s: string, p: nat) returns (c: Cmd)
    requires WellFormed(t) && IsLine(s) && At(s, p, Render(t)) && Closed(s, p + |Render(t)|)
    ensures ParseLine(s, p) == Some(Parsed(c, p + |Render(t)|)) && Erase(s, c) == t
    decreases t, 2
  {
    hide WellFormed, ParseLine, Erase, Render;
    match t
    case TExec(_) => c := LineOfWords(t, s, p);
    case TRedir(_, _, _) => c := LineOfRedir(t, s, p);
    case TPipe(_, _) => c := LineOfPipe(t, s, p);
    case TList(_, _) => c := LineOfList(t, s, p);
    case TBack(_) => c := LineOfBack(t, s, p);
  }

  lemma {:induction false} LineOfWords(t: Tree, s: string, p: nat) returns (c: Cmd)
    requires t.TExec? && WellFormed(t) && IsLine(s) && At(s, p, Render(t)) && Closed(s, p + |Render(t)|)
    ensures ParseLine(s, p) == Some(Parsed(c, p + |Render(t)|)) && Erase(s, c) == t
    decreases t, 1
  {
    hide ParseLine, ParsePipe, ParseExec, ParseArgs, ParseRedirs, Closed, NoSpace, At, IsWord, Words, Texts, IsLine,
         Paren;
    var e := p + |Render(t)|;
    NoLeadingSpace(t.words, s, p);
    ExecOfWords(s, p);
    var args := RenderedArgs(t.words, [], s, p);
    c := Exec([] + args);
    assert [] + args == args;
    ExecThenEnd(s, p, c, e);
    PipeThenEnd(s, p, c, e);
  }

  lemma {:induction false} LineOfRedir(t: Tree, s: string, p: nat) returns (c: Cmd)
    requires t.TRedir? && WellFormed(t) && IsLine(s) && At(s, p, Render(t)) && Closed(s, p + |Render(t)|)
    ensures ParseLine(s, p) == Some(Parsed(c, p + |Render(t)|)) && Erase(s, c) == t
    decreases t, 1
  {
    hide ParseLine, ParsePipe, ParseExec, ParseArgs, ParseRedirs, Closed, NoSpace, At, IsWord, Words, Texts, IsLine,
         Paren;
    var e := p + |Render(t)|;
    AtParts(s, p, Paren(t.cmd), Arrow(t.mode) + t.file);
    var m := p + |Paren(t.cmd)|;
    AtParts(s, m, Arrow(t.mode), t.file);
    ArrowNoSpace(s, m, t.mode);
    var inner := RenderedBlock(t.cmd, s, p);
    RedirThenEnd(s, inner, m, t.mode, t.file);
    var q := m + |Arrow(t.mode)|;
    c := Redir(inner, Span(q, q + |t.file|), t.mode);
    TextAt(s, q, t.file);
    ExecThenEnd(s, p, c, e);
    PipeThenEnd(s, p, c, e);
  }

  lemma {:induction false} LineOfPipe(t: Tree, s: string, p: nat) returns (c: Cmd)
    requires t.TPipe? && WellFormed(t) && IsLine(s) && At(s, p, Render(t)) && Closed(s, p + |Render(t)|)
    ensures ParseLine(s, p) == Some(Parsed(c, p + |Render(t)|)) && Erase(s, c) == t
    decreases t, 1
  {
    hide ParseLine, ParsePipe, ParseExec, ParseArgs, ParseRedirs, Closed, NoSpace, At, IsWord, Words, Texts, IsLine,
         Paren;
    var e := p + |Render(t)|;
    var m, l, r := RenderedTwo(t, t.left, "|", t.right, s, p);
    ExecThenBar(s, p, l, m);
    ExecThenEnd(s, m + 1, r, e);
    c := Pipe(l, r);
    PipeThenEnd(s, p, c, e);
  }

  lemma {:induction false} LineOfList(t: Tree, s: string, p: nat) returns (c: Cmd)
    requires t.TList? && WellFormed(t) && IsLine(s) && At(s, p, Render(t)) && Closed(s, p + |Render(t)|)
    ensures ParseLine(s, p) == Some(Parsed(c, p + |Render(t)|)) && Erase(s, c) == t
    decreases t, 1
  {
    hide ParseLine, ParsePipe, ParseExec, ParseArgs, ParseRedirs, Closed, NoSpace, At, IsWord, Words, Texts, IsLine,
         Paren;
    var e := p + |Render(t)|;
    var m, l, r := RenderedTwo(t, t.left, ";", t.right, s, p);
    ExecThenOther(s, p, l, m);
    PipeThenSemicolon(s, p, l, m);
    ExecThenEnd(s, m + 1, r, e);
    PipeThenEnd(s, m + 1, r, e);
    c := List(l, r);
  }

  lemma {:induction false} LineOfBack(t: Tree, s: string, p: nat) returns (c: Cmd)
    requires t.TBack? && WellFormed(t) && IsLine(s) && At(s, p, Render(t)) && Closed(s, p + |Render(t)|)
    ensures ParseLine(s, p) == Some(Parsed(c, p + |Render(t)|)) && Erase(s, c) == t
    decreases t, 1
  {
    hide ParseLine, ParsePipe, ParseExec, ParseArgs, ParseRedirs, Closed, NoSpace, At, IsWord, Words, Texts, IsLine,
         Paren;
    var e := p + |Render(t)|;
    AtParts(s, p, Paren(t.cmd), "&");
    var m := p + |Paren(t.cmd)|;
    Symbol(s, m, "&");
    var inner := RenderedBlock(t.cmd, s, p);
    NoRedirsHere(s, inner, m);
    ExecThenOther(s, p, inner, m);
    PipeThenAmpersand(s, p, inner, m);
    c := Back(inner);
  }

  /** Two commands in parentheses, with a symbol between them. */
  lemma {:induction false} RenderedTwo(t: Tree, left: Tree, op: string, right: Tree, s: string, p: nat)
    returns (m: nat, l: Cmd, r: Cmd)
    requires t == TPipe(left, right) || t == TList(left, right)
    requires WellFormed(left) && WellFormed(right) && IsLine(s) && op in ["|", ";"]
    requires At(s, p, Paren(left) + (op + Paren(right))) && Closed(s, p + |Paren(left)| + 1 + |Paren(right)|)
    ensures m == p + |Paren(left)| < |s| && s[m] == op[0] && NoSpace(s, m + 1)
    ensures ParseExec(s, p) == Some(Parsed(l, m)) && Erase(s, l) == left
    ensures ParseExec(s, m + 1) == Some(Parsed(r, m + 1 + |Paren(right)|)) && Erase(s, r) == right
    decreases t, 0
  {
    hide ParseExec, ParseRedirs, Closed, NoSpace, At, IsLine, Paren;
    AtParts(s, p, Paren(left), op + Paren(right));
    m := p + |Paren(left)|;
    AtParts(s, m, op, Paren(right));
    Symbol(s, m, op);
    ParenNoSpace(right, s, m + 1);
    l := RenderedBlock(left, s, p);
    NoRedirsHere(s, l, m);
    ClosedNext(s, m + 1 + |Paren(right)|);
    r := RenderedBlock(right, s, m + 1);
    NoRedirsHere(s, r, m + 1 + |Paren(right)|);
  }

  lemma ClosedNext(s: string, e: nat)
    requires Closed(s, e)
    ensures NoSpace(s, e) && e <= |s| && (e < |s| ==> s[e] in "|;&)")
  {
  }

  lemma Symbol(s: string, m: nat, op: string)
    requires At(s, m, op) && op in ["|", ";", "&"]
    ensures m < |s| && s[m] == op[0] && NoSpace(s, m) && s[m] in "|;&)"
  {
    AtChar(s, m, op);
  }

  lemma ParenNoSpace(t: Tree, s: string, p: nat)
    requires At(s, p, Paren(t))
    ensures NoSpace(s, p)
  {
    AtChar(s, p, Paren(t));
  }

  lemma ArrowNoSpace(s: string, m: nat, mode: Mode)
    requires At(s, m, Arrow(mode))
    ensures NoSpace(s, m)
  {
    AtChar(s, m, Arrow(mode));
  }

  lemma TextAt(s: string, q: nat, w: string)
    requires At(s, q, w)
    ensures Text(s, Span(q, q + |w|)) == w
  {
  }

  /** A command in parentheses, up to its redirections. */
  lemma {:induction false} RenderedBlock(t: Tree, s: string, p: nat) returns (c: Cmd)
    requires WellFormed(t) && IsLine(s) && At(s, p, Paren(t)) && NoSpace(s, p + |Paren(t)|)
    ensures Erase(s, c) == t && ParseExec(s, p) == ParseRedirs(s, c, p + |Paren(t)|)
    decreases t, 3
  {
    hide ParseLine, ParseExec, ParseRedirs, NoSpace, At, IsLine, Erase, Render, WellFormed;
    assert "(" + (Render(t) + ")") == Paren(t);
    AtParts(s, p, "(", Render(t) + ")");
    AtParts(s, p + 1, Render(t), ")");
    AtChar(s, p, Paren(t));
    var e := p + 1 + |Render(t)|;
    AtChar(s, e, ")");
    RenderStart(t, s, p + 1);
    c := RenderedLine(t, s, p + 1);
    BlockStep(s, p, c, e);
  }

  lemma {:induction false} RenderIsLine(t: Tree)
    requires WellFormed(t)
    ensures IsLine(Render(t))
  {
    match t
    case TExec(words) => WordsAreLine(words);
    case TRedir(cmd, file, _) => RenderIsLine(cmd); assert forall i :: 0 <= i < |file| ==> Plain(file[i]);
    case TPipe(left, right) => RenderIsLine(left); RenderIsLine(right);
    case TList(left, right) => RenderIsLine(left); RenderIsLine(right);
    case TBack(cmd) => RenderIsLine(cmd);
  }

  lemma {:induction false} WordsAreLine(words: seq<string>)
    requires forall i :: 0 <= i < |words| ==> IsWord(words[i])
    ensures IsLine(Words(words))
  {
    if words != [] {
      WordsAreLine(words[1..]);
      assert IsWord(words[0]);
      assert forall i :: 0 <= i < |words[0]| ==> Plain(words[0][i]);
    }
  }

  /** For every well-formed command: written out and parsed, it is itself again. */
  lemma RoundTrip(t: Tree)
    requires WellFormed(t)
    ensures IsLine(Render(t)) && ParseCmd(Render(t)).Some? && Erase(Render(t), ParseCmd(Render(t)).value) == t
  {
    hide Render, ParseLine, Erase, WellFormed;
    RenderIsLine(t);
    var s := Render(t);
    assert s[0..0 + |s|] == s;
    var c := RenderedLine(t, s, 0);
    AtEnd(s, |s|);
  }
}
