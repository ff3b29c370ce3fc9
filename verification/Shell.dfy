/** The parser of user/sh.c with its cursor, and nulterminate, which cuts the words out of the line. */
module Shell {
  import opened Wrappers
  import opened ShellGrammar
  import opened ShellRoundTrip

  // ---- what every parse yields ----

  /** A word of the line: plain characters, followed by one that is not plain, or by the end. */
  predicate GoodSpan(s: string, w: Span) {
    && w.q < w.eq <= |s| && (forall i :: w.q <= i < w.eq ==> Plain(s[i]))
    && (w.eq < |s| ==> !Plain(s[w.eq]))
  }

  predicate GoodCmd(s: string, c: Cmd) {
    match c
    case Exec(args) => |args| < MAXARGS && forall i :: 0 <= i < |args| ==> GoodSpan(s, args[i])
    case Redir(cmd, file, _) => GoodCmd(s, cmd) && GoodSpan(s, file)
    case Pipe(left, right) => GoodCmd(s, left) && GoodCmd(s, right)
    case List(left, right) => GoodCmd(s, left) && GoodCmd(s, right)
    case Back(cmd) => GoodCmd(s, cmd)
  }

  lemma TokenIsGood(s: string, p: nat)
    requires IsLine(s) && p <= |s|
    ensures var t := GetToken(s, p); t.tok == 'a' ==> GoodSpan(s, Span(t.q, t.eq))
  {
  }

  /** The execcmd inside its redirections has argc arguments. */
  predicate HasArgs(c: Cmd, argc: nat) {
    match c
    case Exec(args) => |args| == argc
    case Redir(inner, _, _) => HasArgs(inner, argc)
    case _ => false
  }

  lemma {:induction false} RedirsAreGood(s: string, cmd: Cmd, p: nat)
    requires IsLine(s) && p <= |s| && GoodCmd(s, cmd) && ParseRedirs(s, cmd, p).Some?
    ensures GoodCmd(s, ParseRedirs(s, cmd, p).value.cmd)
    ensures forall argc: nat :: HasArgs(cmd, argc) ==> HasArgs(ParseRedirs(s, cmd, p).value.cmd, argc)
    decreases |s| - p
  {
    hide GoodSpan, GetToken, Peek;
    if Peek(s, p, "<>") {
      var t := GetToken(s, p);
      var f := GetToken(s, t.pos);
      TokenIsGood(s, t.pos);
      RedirsAreGood(s, Redir(cmd, Span(f.q, f.eq), ModeOf(t.tok)), f.pos);
    }
  }

  lemma {:induction false} AddArgGood(s: string, cmd: Cmd, word: Span, argc: nat)
    requires GoodCmd(s, cmd) && HasArgs(cmd, argc) && GoodSpan(s, word) && argc + 1 < MAXARGS
    ensures GoodCmd(s, AddArg(cmd, word)) && HasArgs(AddArg(cmd, word), argc + 1)
  {
    hide GoodSpan;
    match cmd
    case Redir(inner, _, _) => AddArgGood(s, inner, word, argc);
    case _ =>
  }

  lemma {:induction false} ArgsAreGood(s: string, cmd: Cmd, argc: nat, p: nat)
    requires IsLine(s) && p <= |s| && GoodCmd(s, cmd) && HasArgs(cmd, argc) && ParseArgs(s, cmd, argc, p).Some?
    ensures GoodCmd(s, ParseArgs(s, cmd, argc, p).value.cmd)
    decreases |s| - p
  {
    hide GoodCmd, GoodSpan, HasArgs, ParseRedirs, Peek, GetToken, AddArg;
    var t := GetToken(s, p);
    if !Peek(s, p, "|)&;") && t.tok != '\0' {
      TokenIsGood(s, p);
      var more := AddArg(cmd, Span(t.q, t.eq));
      AddArgGood(s, cmd, Span(t.q, t.eq), argc);
      RedirsAreGood(s, more, t.pos);
      var next := ParseRedirs(s, more, t.pos).value;
      ArgsAreGood(s, next.cmd, argc + 1, next.pos);
    }
  }

  lemma {:induction false} BacksAreGood(s: string, cmd: Cmd, p: nat)
    requires IsLine(s) && p <= |s| && GoodCmd(s, cmd)
    ensures GoodCmd(s, ParseBacks(s, cmd, p).cmd)
    decreases |s| - p
  {
    hide GetToken, Peek;
    if Peek(s, p, "&") {
      PeekMoves(s, p, "&");
      BacksAreGood(s, Back(cmd), GetToken(s, p).pos);
    }
  }

  lemma {:induction false} ExecIsGood(s: string, p: nat)
    requires IsLine(s) && p <= |s| && ParseExec(s, p).Some?
    ensures GoodCmd(s, ParseExec(s, p).value.cmd)
    decreases |s| - p, 2
  {
    hide GetToken, Peek, ParseRedirs, ParseArgs, ParseLine;
    if Peek(s, p, "(") {
      var body := ParseLine(s, GetToken(s, p).pos).value;
      PeekMoves(s, p, "(");
      LineIsGood(s, GetToken(s, p).pos);
      RedirsAreGood(s, body.cmd, GetToken(s, body.pos).pos);
    } else {
      RedirsAreGood(s, Exec([]), p);
      var first := ParseRedirs(s, Exec([]), p).value;
      ArgsAreGood(s, first.cmd, 0, first.pos);
    }
  }

  /** There is something to read. */
  lemma PeekMoves(s: string, p: nat, toks: string)
    requires IsLine(s) && p <= |s| && Peek(s, p, toks)
    ensures GetToken(s, p).pos > p
  {
  }

  lemma {:induction false} PipeIsGood(s: string, p: nat)
    requires IsLine(s) && p <= |s| && ParsePipe(s, p).Some?
    ensures GoodCmd(s, ParsePipe(s, p).value.cmd)
    decreases |s| - p, 3
  {
    hide GetToken, Peek, ParseExec;
    ExecIsGood(s, p);
    var first := ParseExec(s, p).value;
    if Peek(s, first.pos, "|") {
      PeekMoves(s, first.pos, "|");
      PipeIsGood(s, GetToken(s, first.pos).pos);
    }
  }

  lemma {:induction false} LineIsGood(s: string, p: nat)
    requires IsLine(s) && p <= |s| && ParseLine(s, p).Some?
    ensures GoodCmd(s, ParseLine(s, p).value.cmd)
    decreases |s| - p, 4
  {
    hide GetToken, Peek, ParsePipe, ParseBacks;
    PipeIsGood(s, p);
    var first := ParsePipe(s, p).value;
    BacksAreGood(s, first.cmd, first.pos);
    var b := ParseBacks(s, first.cmd, first.pos);
    if Peek(s, b.pos, ";") {
      PeekMoves(s, b.pos, ";");
      LineIsGood(s, GetToken(s, b.pos).pos);
    }
  }

  lemma {:induction false} GoodIsWellFormed(s: string, c: Cmd)
    requires GoodCmd(s, c)
    ensures WellFormed(Erase(s, c))
  {
    match c
    case Exec(args) =>
      forall i | 0 <= i < |args| ensures IsWord(Texts(s, args)[i]) { GoodText(s, args[i]); }
    case Redir(cmd, file, _) => GoodIsWellFormed(s, cmd); GoodText(s, file);
    case Pipe(left, right) => GoodIsWellFormed(s, left); GoodIsWellFormed(s, right);
    case List(left, right) => GoodIsWellFormed(s, left); GoodIsWellFormed(s, right);
    case Back(cmd) => GoodIsWellFormed(s, cmd);
  }

  lemma GoodText(s: string, w: Span)
    requires GoodSpan(s, w)
    ensures IsWord(Text(s, w))
  {
    forall i | 0 <= i < |Text(s, w)| ensures Plain(Text(s, w)[i]) { assert Text(s, w)[i] == s[w.q + i]; }
  }

  /** Any line that parses means the same as its command written out in full. */
  lemma ParseRenderParse(s: string)
    requires IsLine(s) && ParseCmd(s).Some?
    ensures var t := Erase(s, ParseCmd(s).value); var full := Render(t);
      WellFormed(t) && IsLine(full) && ParseCmd(full).Some? && Erase(full, ParseCmd(full).value) == t
  {
    hide ParseLine, WellFormed, Erase, Render, GoodCmd;
    LineIsGood(s, 0);
    GoodIsWellFormed(s, ParseCmd(s).value);
    RoundTrip(Erase(s, ParseCmd(s).value));
  }

  // ---- nulterminate ----

  /** Where the words of c end. */
  function Ends(c: Cmd): set<nat> {
    match c
    case Exec(args) => set w <- args :: w.eq
    case Redir(cmd, file, _) => Ends(cmd) + {file.eq}
    case Pipe(left, right) => Ends(left) + Ends(right)
    case List(left, right) => Ends(left) + Ends(right)
    case Back(cmd) => Ends(cmd)
  }

  predicate HasSpan(c: Cmd, w: Span) {
    match c
    case Exec(args) => w in args
    case Redir(cmd, file, _) => w == file || HasSpan(cmd, w)
    case Pipe(left, right) => HasSpan(left, w) || HasSpan(right, w)
    case List(left, right) => HasSpan(left, w) || HasSpan(right, w)
    case Back(cmd) => HasSpan(cmd, w)
  }

  /** buf with a NUL at each place of ends. */
  predicate Cut(was: string, now: string, ends: set<nat>) {
    |now| == |was| && forall i :: 0 <= i < |was| ==> now[i] == if i in ends then '\0' else was[i]
  }

  /** The C string that starts at q. */
  function CString(b: string, q: nat): string
    requires q <= |b|
    decreases |b| - q
  {
    if q < |b| && b[q] != '\0' then [b[q]] + CString(b, q + 1) else ""
  }

  lemma {:induction false} CStringIs(b: string, q: nat, eq: nat)
    requires q <= eq < |b| && b[eq] == '\0' && forall i :: q <= i < eq ==> b[i] != '\0'
    ensures CString(b, q) == b[q..eq]
    decreases eq - q
  {
    if q < eq { CStringIs(b, q + 1, eq); assert b[q..eq] == [b[q]] + b[q + 1..eq]; }
  }

  lemma {:induction false} SpanFacts(s: string, c: Cmd)
    requires GoodCmd(s, c)
    ensures forall e <- Ends(c) :: e <= |s| && (e < |s| ==> !Plain(s[e]))
    ensures forall w :: HasSpan(c, w) ==> GoodSpan(s, w) && w.eq in Ends(c)
  {
    match c
    case Exec(args) =>
    case Redir(cmd, _, _) => SpanFacts(s, cmd);
    case Pipe(left, right) => SpanFacts(s, left); SpanFacts(s, right);
    case List(left, right) => SpanFacts(s, left); SpanFacts(s, right);
    case Back(cmd) => SpanFacts(s, cmd);
  }

  /** Once cut, every argument and file name reads as the word it was in the line. */
  lemma CutWords(s: string, c: Cmd, b: string, w: Span)
    requires IsLine(s) && GoodCmd(s, c) && Cut(s + "\0", b, Ends(c)) && HasSpan(c, w)
    ensures w.q <= |b| && CString(b, w.q) == Text(s, w)
  {
    hide GoodCmd, HasSpan, Ends;
    SpanFacts(s, c);
    forall i | w.q <= i < w.eq ensures b[i] == s[i] && b[i] != '\0' { assert Plain(s[i]); }
    CStringIs(b, w.q, w.eq);
    assert b[w.q..w.eq] == s[w.q..w.eq];
  }

  /** for(i=0; ecmd->argv[i]; i++) *ecmd->eargv[i] = 0, and so on down the tree */
  method Nulterminate(buf: array<char>, c: Cmd)
    requires forall e <- Ends(c) :: e < buf.Length
    modifies buf
    ensures Cut(old(buf[..]), buf[..], Ends(c))
    decreases c
  {
    match c {
      case Exec(args) =>
        var i := 0;
        while i < |args|
          invariant 0 <= i <= |args|
          invariant Cut(old(buf[..]), buf[..], set k | 0 <= k < i :: args[k].eq)
        {
          assert args[i] in args && args[i].eq in Ends(c);
          buf[args[i].eq] := '\0';
          i := i + 1;
        }
        assert (set k | 0 <= k < i :: args[k].eq) == Ends(c);
      case Redir(cmd, file, _) =>
        assert Ends(c) == Ends(cmd) + {file.eq};
        Nulterminate(buf, cmd);
        buf[file.eq] := '\0';
      case Pipe(left, right) =>
        assert Ends(c) == Ends(left) + Ends(right);
        Nulterminate(buf, left);
        Nulterminate(buf, right);
      case List(left, right) =>
        assert Ends(c) == Ends(left) + Ends(right);
        Nulterminate(buf, left);
        Nulterminate(buf, right);
      case Back(cmd) =>
        assert Ends(c) == Ends(cmd);
        Nulterminate(buf, cmd);
    }
  }

  // ---- the parser ----

  /** parsecmd's cursor s on its line; None is a panic, after which the cursor means nothing. */
  class Parser {
    const line: string
    var ps: nat

    ghost predicate Valid()
      reads this
    {
      IsLine(line) && ps <= |line|
    }

    constructor (s: string)
      requires IsLine(s)
      ensures Valid() && line == s && ps == 0
    {
      line, ps := s, 0;
    }

    method SkipBlanks()
      requires Valid()
      modifies this
      ensures Valid() && ps == SkipSpace(line, old(ps))
    {
      while ps < |line| && line[ps] in WHITESPACE
        invariant Valid() && SkipSpace(line, ps) == SkipSpace(line, old(ps))
        decreases |line| - ps
      {
        ps := ps + 1;
      }
    }

    method Gettoken() returns (t: Token)
      requires Valid()
      modifies this
      ensures Valid() && t == GetToken(line, old(ps)) && ps == t.pos
    {
      SkipBlanks();
      var q := ps;
      var c := CharAt(line, ps);
      var tok := c;
      if c == '\0' {
      } else if c in "|()<;&" {
        ps := ps + 1;
      } else if c == '>' {
        ps := ps + 1;
        if CharAt(line, ps) == '>' {
          tok := '+';
          ps := ps + 1;
        }
      } else {
        tok := 'a';
        while ps < |line| && line[ps] !in WHITESPACE && line[ps] !in SYMBOLS
          invariant Valid() && SkipWord(line, ps) == SkipWord(line, q)
          decreases |line| - ps
        {
          ps := ps + 1;
        }
      }
      var eq := ps;
      SkipBlanks();
      t := Token(tok, q, eq, ps);
    }

    method Peeks(toks: string) returns (r: bool)
      requires Valid()
      modifies this
      ensures Valid() && r == Peek(line, old(ps), toks) && ps == SkipSpace(line, old(ps))
    {
      SkipBlanks();
      r := CharAt(line, ps) != '\0' && CharAt(line, ps) in toks;
    }

    /** The result of a parse, and the cursor after it, are as the grammar says. */
    ghost predicate Gives(r: Option<Cmd>, p: Option<Parsed>)
      reads this
    {
      match p
      case None => r.None?
      case Some(v) => r == Some(v.cmd) && ps == v.pos
    }

    method Parseline() returns (r: Option<Cmd>)
      requires Valid()
      modifies this
      ensures Valid() && Gives(r, ParseLine(line, old(ps))) && ps >= old(ps)
      decreases |line| - ps, 4
    {
      hide GetToken, Peek, ParsePipe;
      ghost var start := ps;
      r := Parsepipe();
      if r.None? { return; }
      var cmd := r.value;
      ghost var b := ParseBacks(line, cmd, ps);
      BlankFacts(line, ps, "&");
      var more := Peeks("&");
      while more
        invariant Valid() && ps >= start && more == Peek(line, ps, "&") && SkipSpace(line, ps) == ps
        invariant b == ParseBacks(line, cmd, ps)
        decreases |line| - ps
      {
        PeekMoves(line, ps, "&");
        var t := Gettoken();
        cmd := Back(cmd);
        BlankFacts(line, ps, "&");
        more := Peeks("&");
      }
      var semi := Peeks(";");
      if semi {
        PeekMoves(line, ps, ";");
        var t := Gettoken();
        var rest := Parseline();
        if rest.None? { return None; }
        cmd := List(cmd, rest.value);
      }
      r := Some(cmd);
    }

    method Parsepipe() returns (r: Option<Cmd>)
      requires Valid()
      modifies this
      ensures Valid() && Gives(r, ParsePipe(line, old(ps))) && ps >= old(ps)
      decreases |line| - ps, 3
    {
      hide GetToken, Peek, ParseExec;
      r := Parseexec();
      if r.None? { return; }
      BlankFacts(line, ps, "|");
      var bar := Peeks("|");
      if bar {
        PeekMoves(line, ps, "|");
        var t := Gettoken();
        var rest := Parsepipe();
        if rest.None? { return None; }
        r := Some(Pipe(r.value, rest.value));
      }
    }

    method Parseredirs(cmd0: Cmd) returns (r: Option<Cmd>)
      requires Valid()
      modifies this
      ensures Valid() && Gives(r, ParseRedirs(line, cmd0, old(ps))) && ps >= old(ps)
    {
      hide GetToken, Peek;
      var cmd := cmd0;
      ghost var start := ps;
      ghost var want := ParseRedirs(line, cmd, ps);
      BlankFacts(line, ps, "<>");
      var more := Peeks("<>");
      while more
        invariant Valid() && ps >= start && more == Peek(line, ps, "<>") && SkipSpace(line, ps) == ps
        invariant want == ParseRedirs(line, cmd, ps)
        decreases |line| - ps
      {
        PeekMoves(line, ps, "<>");
        var t := Gettoken();
        var f := Gettoken();
        if f.tok != 'a' { return None; }
        cmd := Redir(cmd, Span(f.q, f.eq), ModeOf(t.tok));
        BlankFacts(line, ps, "<>");
        more := Peeks("<>");
      }
      r := Some(cmd);
    }

    method Parseblock() returns (r: Option<Cmd>)
      requires Valid() && Peek(line, ps, "(")
      modifies this
      ensures Valid() && Gives(r, ParseBlock(line, old(ps))) && ps >= old(ps)
      decreases |line| - ps, 1
    {
      hide GetToken, Peek, ParseLine, ParseRedirs;
      BlankFacts(line, ps, "(");
      PeekMoves(line, ps, "(");
      var open := Peeks("(");
      PeekMoves(line, ps, "(");
      var t := Gettoken();
      var body := Parseline();
      if body.None? { return None; }
      BlankFacts(line, ps, ")");
      var close := Peeks(")");
      if !close { return None; }
      t := Gettoken();
      r := Parseredirs(body.value);
    }

    method Parseexec() returns (r: Option<Cmd>)
      requires Valid()
      modifies this
      ensures Valid() && Gives(r, ParseExec(line, old(ps))) && ps >= old(ps)
      decreases |line| - ps, 2
    {
      hide GetToken, Peek, ParseRedirs, ParseBlock;
      ghost var start := ps;
      BlankFacts(line, ps, "(");
      var block := Peeks("(");
      if block {
        SameBlock(line, start);
        BlankFacts(line, start, "(");
        r := Parseblock();
        return;
      }
      r := Parseredirs(Exec([]));
      if r.None? { return; }
      r := Parseargs(r.value);
    }

    /** The loop of parseexec, cmd being the execcmd in its redirections so far. */
    method Parseargs(cmd0: Cmd) returns (r: Option<Cmd>)
      requires Valid()
      modifies this
      ensures Valid() && Gives(r, ParseArgs(line, cmd0, 0, old(ps))) && ps >= old(ps)
    {
      hide GetToken, Peek, ParseRedirs, ParseArgs, AddArg, SkipSpace, IsLine;
      var cmd, argc := cmd0, 0;
      ghost var start, want := ps, ParseArgs(line, cmd0, 0, ps);
      SameArgs(line, cmd, argc, ps);
      SameToken(line, ps, "|)&;");
      var stop := Peeks("|)&;");
      while !stop
        invariant Valid() && ps >= start && stop == Peek(line, ps, "|)&;") && SkipSpace(line, ps) == ps
        invariant want == ParseArgs(line, cmd, argc, ps)
        decreases |line| - ps
      {
        ArgsUnfold(line, cmd, argc, ps);
        var t := Gettoken();
        if t.tok == '\0' { return Some(cmd); }
        if t.tok != 'a' { return None; }
        cmd := AddArg(cmd, Span(t.q, t.eq));
        argc := argc + 1;
        if argc >= MAXARGS { return None; }
        r := Parseredirs(cmd);
        if r.None? { return; }
        cmd := r.value;
        SameArgs(line, cmd, argc, ps);
        SameToken(line, ps, "|)&;");
        stop := Peeks("|)&;");
      }
      ArgsUnfold(line, cmd, argc, ps);
      r := Some(cmd);
    }

    /** parsecmd: the command, with every word of it cut out of buf. */
    method Parsecmd(buf: array<char>) returns (r: Option<Cmd>)
      requires Valid() && ps == 0 && buf[..] == line + "\0"
      modifies this, buf
      ensures r == ParseCmd(line)
      ensures r.Some? ==> forall w :: HasSpan(r.value, w) ==> w.q <= |buf[..]| && CString(buf[..], w.q) == Text(line, w)
    {
      hide ParseLine, GoodCmd, HasSpan, Cut, CString, Text, SkipSpace;
      r := Parseline();
      if r.None? { return; }
      var blank := Peeks("");
      if ps != |line| { return None; }
      var cmd := r.value;
      LineIsGood(line, 0);
      SpanFacts(line, cmd);
      Nulterminate(buf, cmd);
      forall w | HasSpan(cmd, w) ensures w.q <= |buf[..]| && CString(buf[..], w.q) == Text(line, w) {
        CutWords(line, cmd, buf[..], w);
      }
    }
  }

  lemma SameToken(s: string, p: nat, toks: string)
    requires p <= |s|
    ensures var q := SkipSpace(s, p);
            SkipSpace(s, q) == q && GetToken(s, q) == GetToken(s, p) && Peek(s, q, toks) == Peek(s, p, toks)
  {
    StaysPut(s, SkipSpace(s, p));
  }

  lemma SameRedirs(s: string, cmd: Cmd, p: nat)
    requires IsLine(s) && p <= |s|
    ensures ParseRedirs(s, cmd, SkipSpace(s, p)) == ParseRedirs(s, cmd, p)
    ensures ParseBacks(s, cmd, SkipSpace(s, p)) == ParseBacks(s, cmd, p)
  {
    hide GetToken, Peek, SkipSpace;
    SameToken(s, p, "<>");
    SameToken(s, p, "&");
  }

  lemma SameArgs(s: string, cmd: Cmd, argc: nat, p: nat)
    requires IsLine(s) && p <= |s|
    ensures ParseArgs(s, cmd, argc, SkipSpace(s, p)) == ParseArgs(s, cmd, argc, p)
  {
    hide GetToken, Peek, SkipSpace, ParseRedirs;
    SameToken(s, p, "|)&;");
  }

  /** One turn of the loop, the cursor being past any blanks. */
  lemma ArgsUnfold(s: string, cmd: Cmd, argc: nat, p: nat)
    requires IsLine(s) && p <= |s| && SkipSpace(s, p) == p
    ensures var t := GetToken(s, p);
      ParseArgs(s, cmd, argc, p) ==
      if Peek(s, p, "|)&;") then Some(Parsed(cmd, p))
      else if t.tok == '\0' then Some(Parsed(cmd, t.pos))
      else if t.tok != 'a' || argc + 1 >= MAXARGS then None
      else
        match ParseRedirs(s, AddArg(cmd, Span(t.q, t.eq)), t.pos)
        case None => None
        case Some(next) => ParseArgs(s, next.cmd, argc + 1, next.pos)
    ensures GetToken(s, p).tok != '\0' ==> GetToken(s, p).pos > p
  {
    hide GetToken, Peek, ParseRedirs;
  }

  /** Skipping blanks twice, or before looking, makes no difference. */
  lemma BlankFacts(s: string, p: nat, toks: string)
    requires p <= |s|
    ensures var q := SkipSpace(s, p);
      SkipSpace(s, q) == q && GetToken(s, q) == GetToken(s, p) && Peek(s, q, toks) == Peek(s, p, toks)
    ensures forall cmd: Cmd :: IsLine(s) ==>
              && ParseRedirs(s, cmd, SkipSpace(s, p)) == ParseRedirs(s, cmd, p)
              && ParseBacks(s, cmd, SkipSpace(s, p)) == ParseBacks(s, cmd, p)
    ensures forall cmd: Cmd, argc: nat :: IsLine(s) ==>
              ParseArgs(s, cmd, argc, SkipSpace(s, p)) == ParseArgs(s, cmd, argc, p)
  {
    hide GetToken, Peek, SkipSpace, ParseRedirs, ParseBacks, ParseArgs, IsLine;
    SameToken(s, p, toks);
    forall cmd: Cmd | IsLine(s)
      ensures ParseRedirs(s, cmd, SkipSpace(s, p)) == ParseRedirs(s, cmd, p)
      ensures ParseBacks(s, cmd, SkipSpace(s, p)) == ParseBacks(s, cmd, p)
    {
      SameRedirs(s, cmd, p);
    }
    forall cmd: Cmd, argc: nat | IsLine(s)
      ensures ParseArgs(s, cmd, argc, SkipSpace(s, p)) == ParseArgs(s, cmd, argc, p)
    {
      SameArgs(s, cmd, argc, p);
    }
  }

  lemma SameBlock(s: string, p: nat)
    requires IsLine(s) && p <= |s| && Peek(s, p, "(")
    ensures Peek(s, SkipSpace(s, p), "(") && ParseBlock(s, SkipSpace(s, p)) == ParseBlock(s, p)
  {
    BlankFacts(s, p, "(");
  }
}
