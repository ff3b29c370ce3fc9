/**
The command parser of user/sh.c as functions of the text and the cursor. A panic stops the parse;
words are spans of the text, as in the C, where q and eq point into the line.
*/
module ShellGrammar {
  import opened Wrappers

  const MAXARGS: nat := 10
  const WHITESPACE := " \t\r\n\U{0B}"
  const SYMBOLS := "<|>&;()"

  /** The bytes between q and eq. */
  datatype Span = Span(q: nat, eq: nat)

  datatype Mode = Input | Output | Append

  datatype Cmd =
    | Exec(args: seq<Span>)
    | Redir(cmd: Cmd, file: Span, mode: Mode)
    | Pipe(left: Cmd, right: Cmd)
    | List(left: Cmd, right: Cmd)
    | Back(cmd: Cmd)

  datatype Parsed = Parsed(cmd: Cmd, pos: nat)

  datatype Token = Token(tok: char, q: nat, eq: nat, pos: nat)

  /** *s, where the line ends in NUL */
  function CharAt(s: string, p: nat): char {
    if p < |s| then s[p] else '\0'
  }

  /** A line has no NUL before its end. */
  predicate IsLine(s: string) {
    '\0' !in s
  }

  predicate Plain(c: char) {
    c != '\0' && c !in WHITESPACE && c !in SYMBOLS
  }

  function SkipSpace(s: string, p: nat): (r: nat)
    requires p <= |s|
    ensures p <= r <= |s| && (r < |s| ==> s[r] !in WHITESPACE) && forall i :: p <= i < r ==> s[i] in WHITESPACE
    decreases |s| - p
  {
    if p < |s| && s[p] in WHITESPACE then SkipSpace(s, p + 1) else p
  }

  function SkipWord(s: string, p: nat): (r: nat)
    requires p <= |s|
    ensures p <= r <= |s| && (forall i :: p <= i < r ==> s[i] !in WHITESPACE && s[i] !in SYMBOLS)
    ensures r < |s| ==> s[r] in WHITESPACE || s[r] in SYMBOLS
    decreases |s| - p
  {
    if p < |s| && s[p] !in WHITESPACE && s[p] !in SYMBOLS then SkipWord(s, p + 1) else p
  }

  function GetToken(s: string, p: nat): (t: Token)
    requires p <= |s|
    ensures p <= t.q <= t.eq <= t.pos <= |s| && (t.tok == '\0' || t.pos > p || !IsLine(s))
    ensures t.tok == 'a' ==> t.q == SkipSpace(s, p) && t.eq == SkipWord(s, t.q) && t.q < t.eq
  {
    var q := SkipSpace(s, p);
    var c := CharAt(s, q);
    var eq := if c == '\0' then q
              else if c in "|()<;&" then q + 1
              else if c == '>' then if CharAt(s, q + 1) == '>' then q + 2 else q + 1
              else SkipWord(s, q);
    var tok := if c == '\0' || c in "|()<;&" then c
               else if c == '>' then if CharAt(s, q + 1) == '>' then '+' else '>'
               else 'a';
    Token(tok, q, eq, SkipSpace(s, eq))
  }

  /** Whether one of toks comes next; the cursor moves to SkipSpace(s, p). */
  predicate Peek(s: string, p: nat, toks: string)
    requires p <= |s|
  {
    CharAt(s, SkipSpace(s, p)) != '\0' && CharAt(s, SkipSpace(s, p)) in toks
  }

  function ModeOf(tok: char): Mode {
    if tok == '<' then Input else if tok == '>' then Output else Append
  }

  function ParseLine(s: string, p: nat): (r: Option<Parsed>)
    requires IsLine(s) && p <= |s|
    ensures r.Some? ==> p <= r.value.pos <= |s|
    decreases |s| - p, 4
  {
    match ParsePipe(s, p)
    case None => None
    case Some(first) =>
      var b := ParseBacks(s, first.cmd, first.pos);
      if Peek(s, b.pos, ";") then
        match ParseLine(s, GetToken(s, b.pos).pos)
        case None => None
        case Some(rest) => Some(Parsed(List(b.cmd, rest.cmd), rest.pos))
      else Some(b)
  }

  /** The loop of parseline over &. */
  function ParseBacks(s: string, cmd: Cmd, p: nat): (r: Parsed)
    requires IsLine(s) && p <= |s|
    ensures p <= r.pos <= |s|
    decreases |s| - p
  {
    if Peek(s, p, "&") then ParseBacks(s, Back(cmd), GetToken(s, p).pos) else Parsed(cmd, SkipSpace(s, p))
  }

  function ParsePipe(s: string, p: nat): (r: Option<Parsed>)
    requires IsLine(s) && p <= |s|
    ensures r.Some? ==> p <= r.value.pos <= |s|
    decreases |s| - p, 3
  {
    match ParseExec(s, p)
    case None => None
    case Some(first) =>
      if Peek(s, first.pos, "|") then
        match ParsePipe(s, GetToken(s, first.pos).pos)
        case None => None
        case Some(rest) => Some(Parsed(Pipe(first.cmd, rest.cmd), rest.pos))
      else Some(Parsed(first.cmd, SkipSpace(s, first.pos)))
  }

  function ParseRedirs(s: string, cmd: Cmd, p: nat): (r: Option<Parsed>)
    requires IsLine(s) && p <= |s|
    ensures r.Some? ==> p <= r.value.pos <= |s|
    decreases |s| - p
  {
    if Peek(s, p, "<>") then
      var t := GetToken(s, p);
      var f := GetToken(s, t.pos);
      if f.tok != 'a' then None  // missing file for redirection
      else ParseRedirs(s, Redir(cmd, Span(f.q, f.eq), ModeOf(t.tok)), f.pos)
    else Some(Parsed(cmd, SkipSpace(s, p)))
  }

  function ParseBlock(s: string, p: nat): (r: Option<Parsed>)
    requires IsLine(s) && p <= |s| && Peek(s, p, "(")
    ensures r.Some? ==> p <= r.value.pos <= |s|
    decreases |s| - p, 1
  {
    match ParseLine(s, GetToken(s, p).pos)
    case None => None
    case Some(body) =>
      if !Peek(s, body.pos, ")") then None  // syntax - missing )
      else ParseRedirs(s, body.cmd, GetToken(s, body.pos).pos)
  }

  function ParseExec(s: string, p: nat): (r: Option<Parsed>)
    requires IsLine(s) && p <= |s|
    ensures r.Some? ==> p <= r.value.pos <= |s|
    decreases |s| - p, 2
  {
    if Peek(s, p, "(") then ParseBlock(s, p)
    else
      match ParseRedirs(s, Exec([]), p)
      case None => None
      case Some(first) => ParseArgs(s, first.cmd, 0, first.pos)
  }

  /** The loop of parseexec; argc words have been found. */
  function ParseArgs(s: string, cmd: Cmd, argc: nat, p: nat): (r: Option<Parsed>)
    requires IsLine(s) && p <= |s|
    ensures r.Some? ==> p <= r.value.pos <= |s|
    decreases |s| - p
  {
    if Peek(s, p, "|)&;") then Some(Parsed(cmd, SkipSpace(s, p)))
    else
      var t := GetToken(s, p);
      if t.tok == '\0' then Some(Parsed(cmd, t.pos))
      else if t.tok != 'a' || argc + 1 >= MAXARGS then None  // syntax; too many args
      else
        match ParseRedirs(s, AddArg(cmd, Span(t.q, t.eq)), t.pos)
        case None => None
        case Some(next) => ParseArgs(s, next.cmd, argc + 1, next.pos)
  }

  /** The execcmd inside its redirections gets one more argument. */
  function AddArg(cmd: Cmd, word: Span): Cmd {
    match cmd
    case Redir(inner, file, mode) => Redir(AddArg(inner, word), file, mode)
    case Exec(args) => Exec(args + [word])
    case _ => cmd
  }

  /** parsecmd, before nulterminate: the whole line must be used up. */
  function ParseCmd(s: string): Option<Cmd>
    requires IsLine(s)
  {
    match ParseLine(s, 0)
    case None => None
    case Some(r) => if SkipSpace(s, r.pos) != |s| then None else Some(r.cmd)
  }
}
