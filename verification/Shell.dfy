/** The command parser of sh.c: what it parses, as functions of the remaining input. */
module Shell {
  import opened CStrings

  const MAXARGS: nat := 10

  // modes of open(), fcntl.h
  const RDONLY: nat := 0
  const WRONLY_CREATE: nat := 0x201

  datatype Redirection = To(file: string, mode: nat, fd: nat)

  datatype Cmd =
    | Exec(argv: seq<string>)
    | Redir(cmd: Cmd, how: Redirection)
    | Pipe(left: Cmd, right: Cmd)
    | List(left: Cmd, right: Cmd)
    | Back(cmd: Cmd)

  datatype Result<T> = Ok(value: T, rest: string) | Panic(message: string)

  // ---- tokens ----

  predicate Space(c: char) { c == ' ' || c == '\t' || c == '\r' || c == '\n' || c == 11 as char }
  predicate Symbol(c: char) { c == '<' || c == '|' || c == '>' || c == '&' || c == ';' || c == '(' || c == ')' }
  predicate WordChar(c: char) { !Space(c) && !Symbol(c) }

  datatype Token = End | Sym(c: char) | Append | Word(w: string)

  /** The input from its first character that is not white space. */
  function Trim(s: string): (r: string)
    ensures |r| <= |s|
    ensures r == [] || !Space(r[0])
    ensures s != [] && !Space(s[0]) ==> r == s
  {
    if s != [] && Space(s[0]) then Trim(s[1..]) else s
  }

  function WordLength(s: string): (n: nat)
    ensures n <= |s|
    ensures forall k :: 0 <= k < n ==> WordChar(s[k])
    ensures n < |s| ==> !WordChar(s[n])
  {
    if s == [] || !WordChar(s[0]) then 0 else 1 + WordLength(s[1..])
  }

  /** The first token of trimmed input, and its length. */
  function Lex(t: string): (r: (Token, nat))
    requires t == [] || !Space(t[0])
    ensures r.1 <= |t|
    ensures t != [] ==> r.1 > 0
    ensures r.0.End? <==> t == []
  {
    if t == [] then (End, 0)
    else if t[0] == '>' then if |t| > 1 && t[1] == '>' then (Append, 2) else (Sym('>'), 1)
    else if Symbol(t[0]) then (Sym(t[0]), 1)
    else (Word(t[..WordLength(t)]), WordLength(t))
  }

  function GetToken(s: string): (r: (Token, string))
    ensures |r.1| <= |s|
    ensures !r.0.End? ==> |r.1| < |s|
  {
    var t := Trim(s);
    var (k, n) := Lex(t);
    (k, Trim(t[n..]))
  }

  predicate Peek(s: string, toks: string) {
    var t := Trim(s);
    t != [] && t[0] in toks
  }

  lemma PeekToken(s: string, toks: string)
    requires Peek(s, toks)
    ensures !GetToken(s).0.End? && |GetToken(s).1| < |s|
  {
  }

  // ---- the grammar ----

  /** '>>' opens the file exactly as '>' does. */
  function Target(k: Token, file: string): Redirection {
    if k == Sym('<') then To(file, RDONLY, 0) else To(file, WRONLY_CREATE, 1)
  }

  function ParseRedirs(s: string): (r: Result<seq<Redirection>>)
    ensures r.Ok? ==> |r.rest| <= |s|
    decreases |s|
  {
    if !Peek(s, "<>") then Ok([], Trim(s))
    else
      var (k, s1) := GetToken(s);
      var (f, s2) := GetToken(s1);
      if !f.Word? then Panic("missing file for redirection")
      else
        var r := ParseRedirs(s2);
        if r.Panic? then Panic(r.message) else Ok([Target(k, f.w)] + r.value, r.rest)
  }

  /** The command inside redirections, the first innermost. */
  function Wrap(c: Cmd, rs: seq<Redirection>): Cmd
    decreases |rs|
  {
    if rs == [] then c else Redir(Wrap(c, rs[..|rs| - 1]), rs[|rs| - 1])
  }

  /** The loop of parseexec: argv and the redirections collected so far. */
  function ParseArgs(argv: seq<string>, rs: seq<Redirection>, s: string): (r: Result<Cmd>)
    ensures r.Ok? ==> |r.rest| <= |s|
    decreases |s|
  {
    if Peek(s, "|)&;") then Ok(Wrap(Exec(argv), rs), Trim(s))
    else
      var (k, s1) := GetToken(s);
      if k.End? then Ok(Wrap(Exec(argv), rs), s1)
      else if !k.Word? then Panic("syntax")
      else if |argv| + 1 >= MAXARGS then Panic("too many args")
      else
        var r := ParseRedirs(s1);
        if r.Panic? then Panic(r.message)
        else ParseArgs(argv + [k.w], rs + r.value, r.rest)
  }

  function ParseExec(s: string): (r: Result<Cmd>)
    ensures r.Ok? ==> |r.rest| <= |s|
    decreases |s|, 1
  {
    if Peek(s, "(") then ParseBlock(s)
    else
      var r := ParseRedirs(s);
      if r.Panic? then Panic(r.message) else ParseArgs([], r.value, r.rest)
  }

  function ParseBlock(s: string): (r: Result<Cmd>)
    ensures r.Ok? ==> |r.rest| <= |s|
    decreases |s|, 0
  {
    if !Peek(s, "(") then Panic("parseblock")
    else
      var l := ParseLine(GetToken(s).1);
      if l.Panic? then l
      else if !Peek(l.rest, ")") then Panic("syntax - missing )")
      else
        var r := ParseRedirs(GetToken(l.rest).1);
        if r.Panic? then Panic(r.message) else Ok(Wrap(l.value, r.value), r.rest)
  }

  function ParsePipe(s: string): (r: Result<Cmd>)
    ensures r.Ok? ==> |r.rest| <= |s|
    decreases |s|, 2
  {
    var l := ParseExec(s);
    if l.Panic? then l
    else if !Peek(l.rest, "|") then Ok(l.value, Trim(l.rest))
    else
      var r := ParsePipe(GetToken(l.rest).1);
      if r.Panic? then r else Ok(Pipe(l.value, r.value), r.rest)
  }

  /** One '&' after another puts the command so far in the background. */
  function ParseBacks(c: Cmd, s: string): (r: (Cmd, string))
    ensures |r.1| <= |s|
    decreases |s|
  {
    if Peek(s, "&") then ParseBacks(Back(c), GetToken(s).1) else (c, Trim(s))
  }

  function ParseLine(s: string): (r: Result<Cmd>)
    ensures r.Ok? ==> |r.rest| <= |s|
    decreases |s|, 3
  {
    var p := ParsePipe(s);
    if p.Panic? then p
    else
      var (c, s1) := ParseBacks(p.value, p.rest);
      if !Peek(s1, ";") then Ok(c, Trim(s1))
      else
        var r := ParseLine(GetToken(s1).1);
        if r.Panic? then r else Ok(List(c, r.value), r.rest)
  }

  function ParseCmd(s: string): Result<Cmd> {
    var r := ParseLine(s);
    if r.Panic? then r
    else if Trim(r.rest) != [] then Panic("syntax")
    else Ok(r.value, [])
  }

  // ---- the trees there are ----

  predicate LegalWord(w: string) {
    w != [] && CString(w) && forall k :: 0 <= k < |w| ==> WordChar(w[k])
  }

  predicate LegalWords(ws: seq<string>) {
    forall k :: 0 <= k < |ws| ==> LegalWord(ws[k])
  }

  predicate LegalTarget(r: Redirection) {
    LegalWord(r.file) && ((r.mode == RDONLY && r.fd == 0) || (r.mode == WRONLY_CREATE && r.fd == 1))
  }

  predicate Legal(c: Cmd) {
    match c
    case Exec(argv) => |argv| < MAXARGS && LegalWords(argv)
    case Redir(d, how) => Legal(d) && LegalTarget(how)
    case Pipe(l, r) => Legal(l) && Legal(r)
    case List(l, r) => Legal(l) && Legal(r)
    case Back(d) => Legal(d)
  }

  lemma {:induction false} WrapLegal(c: Cmd, rs: seq<Redirection>)
    requires Legal(c) && forall k :: 0 <= k < |rs| ==> LegalTarget(rs[k])
    ensures Legal(Wrap(c, rs))
    decreases |rs|
  {
    if rs != [] {
      WrapLegal(c, rs[..|rs| - 1]);
    }
  }

  lemma {:induction false} TrimCString(s: string)
    requires CString(s)
    ensures CString(Trim(s))
  {
    if s != [] && Space(s[0]) { TrimCString(s[1..]); }
  }

  lemma TokenLegal(s: string)
    requires CString(s)
    ensures GetToken(s).0.Word? ==> LegalWord(GetToken(s).0.w)
    ensures CString(GetToken(s).1)
  {
    var t := Trim(s);
    TrimCString(s);
    TrimCString(t[Lex(t).1..]);
  }

  lemma {:induction false} RedirsLegal(s: string)
    requires ParseRedirs(s).Ok? && CString(s)
    ensures CString(ParseRedirs(s).rest)
    ensures forall k :: 0 <= k < |ParseRedirs(s).value| ==> LegalTarget(ParseRedirs(s).value[k])
    decreases |s|
  {
    if Peek(s, "<>") {
      var s1 := GetToken(s).1;
      TokenLegal(s);
      TokenLegal(s1);
      RedirsLegal(GetToken(s1).1);
    } else {
      TrimCString(s);
    }
  }

  lemma {:induction false} ArgsLegal(argv: seq<string>, rs: seq<Redirection>, s: string)
    requires ParseArgs(argv, rs, s).Ok? && |argv| < MAXARGS && LegalWords(argv) && CString(s)
    requires forall k :: 0 <= k < |rs| ==> LegalTarget(rs[k])
    ensures Legal(ParseArgs(argv, rs, s).value) && CString(ParseArgs(argv, rs, s).rest)
    decreases |s|
  {
    var (k, s1) := GetToken(s);
    TokenLegal(s);
    if Peek(s, "|)&;") || k.End? {
      WrapLegal(Exec(argv), rs);
      TrimCString(s);
    } else {
      RedirsLegal(s1);
      ArgsLegal(argv + [k.w], rs + ParseRedirs(s1).value, ParseRedirs(s1).rest);
    }
  }

  lemma {:induction false} ExecLegal(s: string)
    requires ParseExec(s).Ok? && CString(s)
    ensures Legal(ParseExec(s).value) && CString(ParseExec(s).rest)
    decreases |s|, 1
  {
    if Peek(s, "(") {
      var l := ParseLine(GetToken(s).1);
      TokenLegal(s);
      LineLegal(GetToken(s).1);
      TokenLegal(l.rest);
      RedirsLegal(GetToken(l.rest).1);
      WrapLegal(l.value, ParseRedirs(GetToken(l.rest).1).value);
    } else {
      RedirsLegal(s);
      ArgsLegal([], ParseRedirs(s).value, ParseRedirs(s).rest);
    }
  }

  lemma {:induction false} PipeLegal(s: string)
    requires ParsePipe(s).Ok? && CString(s)
    ensures Legal(ParsePipe(s).value) && CString(ParsePipe(s).rest)
    decreases |s|, 2
  {
    ExecLegal(s);
    var l := ParseExec(s);
    TokenLegal(l.rest);
    TrimCString(l.rest);
    if Peek(l.rest, "|") {
      PipeLegal(GetToken(l.rest).1);
    }
  }

  lemma {:induction false} BacksLegal(c: Cmd, s: string)
    requires Legal(c) && CString(s)
    ensures Legal(ParseBacks(c, s).0) && CString(ParseBacks(c, s).1)
    decreases |s|
  {
    TokenLegal(s);
    TrimCString(s);
    if Peek(s, "&") {
      BacksLegal(Back(c), GetToken(s).1);
    }
  }

  /** Whatever the input, a tree the parser returns is legal. */
  lemma {:induction false} LineLegal(s: string)
    requires ParseLine(s).Ok? && CString(s)
    ensures Legal(ParseLine(s).value) && CString(ParseLine(s).rest)
    decreases |s|, 3
  {
    PipeLegal(s);
    var p := ParsePipe(s);
    BacksLegal(p.value, p.rest);
    var (c, s1) := ParseBacks(p.value, p.rest);
    TokenLegal(s1);
    TrimCString(s1);
    if Peek(s1, ";") {
      LineLegal(GetToken(s1).1);
    }
  }
}
