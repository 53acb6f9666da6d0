/** Printing command trees so that the shell reads them back. */
module ShellPrint {
  import opened CStrings
  import opened Shell

  function Words(ws: seq<string>): string {
    if ws == [] then [] else ws[0] + (if |ws| > 1 then " " else "") + Words(ws[1..])
  }

  function Arrow(r: Redirection): string { if r.mode == RDONLY then "<" else ">" }

  function Group(s: string): (g: string)
    ensures |g| == |s| + 2 && g[0] == '('
  {
    "(" + s + ")"
  }

  /** Every operand goes in parentheses. */
  function Print(c: Cmd): string {
    match c
    case Exec(argv) => Words(argv)
    case Redir(d, how) => Group(Print(d)) + (Arrow(how) + how.file)
    case Pipe(l, r) => Group(Print(l)) + "|" + Group(Print(r))
    case List(l, r) => Group(Print(l)) + ";" + Group(Print(r))
    case Back(d) => Group(Print(d)) + "&"
  }

  // ---- tokens of printed text ----

  /** Text that can follow a command: nothing, or the end of its block. */
  predicate Closes(rest: string) { rest == [] || rest[0] == ')' }

  /** Text that can follow a block without being taken for a part of it. */
  predicate Stops(rest: string) { rest == [] || (rest[0] != '<' && rest[0] != '>' && !Space(rest[0])) }

  lemma SymbolToken(c: char, rest: string)
    requires Symbol(c) && c != '>' && (rest == [] || !Space(rest[0]))
    ensures GetToken([c] + rest) == (Sym(c), rest)
    ensures forall toks :: Peek([c] + rest, toks) <==> c in toks
  {
    assert ([c] + rest)[1..] == rest;
  }

  lemma {:induction false} WordEnds(w: string, rest: string)
    requires (forall k :: 0 <= k < |w| ==> WordChar(w[k])) && (rest == [] || !WordChar(rest[0]))
    ensures WordLength(w + rest) == |w|
  {
    if w == [] {
      assert w + rest == rest;
    } else {
      assert (w + rest)[1..] == w[1..] + rest;
      WordEnds(w[1..], rest);
    }
  }

  lemma WordToken(w: string, rest: string)
    requires LegalWord(w) && (rest == [] || !WordChar(rest[0]))
    ensures GetToken(w + rest) == (Word(w), Trim(rest))
    ensures forall toks :: Peek(w + rest, toks) <==> w[0] in toks
  {
    WordEnds(w, rest);
    assert Trim(w + rest) == w + rest;
    assert (w + rest)[..|w|] == w && (w + rest)[|w|..] == rest;
  }

  /** The arrow of a printed redirection is read as one token. */
  lemma ArrowToken(r: Redirection, rest: string)
    requires LegalTarget(r)
    ensures var s := Arrow(r) + r.file + rest;
      GetToken(s).1 == r.file + rest && Peek(s, "<>") && Target(GetToken(s).0, r.file) == r
  {
    var s := Arrow(r) + r.file + rest;
    assert s[0] == Arrow(r)[0] && s[1] == r.file[0];
    assert s[1..] == r.file + rest;
    assert Trim(s) == s && Trim(r.file + rest) == r.file + rest;
  }

  lemma NoRedirs(rest: string)
    requires Stops(rest)
    ensures ParseRedirs(rest) == Ok([], rest)
  {
  }

  lemma OneRedir(r: Redirection, rest: string)
    requires LegalTarget(r) && Closes(rest)
    ensures ParseRedirs(Arrow(r) + r.file + rest) == Ok([r], rest)
  {
    var s := Arrow(r) + r.file + rest;
    ArrowToken(r, rest);
    WordToken(r.file, rest);
    NoRedirs(rest);
    assert GetToken(r.file + rest) == (Word(r.file), rest);
    RedirStep(s, r.file + rest, rest, r);
  }

  lemma RedirStep(s: string, s1: string, s2: string, r: Redirection)
    requires Peek(s, "<>") && GetToken(s).1 == s1 && Target(GetToken(s).0, r.file) == r
    requires GetToken(s1) == (Word(r.file), s2) && ParseRedirs(s2) == Ok([], s2)
    ensures ParseRedirs(s) == Ok([r], s2)
  {
    hide GetToken, Peek, Trim, Target;
    assert [r] + [] == [r];
  }

  // ---- each printed form is read back ----

  lemma ArgStep(argv: seq<string>, s: string, w: string, next: string)
    requires !Peek(s, "|)&;") && GetToken(s) == (Word(w), next) && |argv| + 1 < MAXARGS
    requires ParseRedirs(next) == Ok([], next)
    ensures ParseArgs(argv, [], s) == ParseArgs(argv + [w], [], next)
  {
    hide GetToken, Peek, Trim, ParseRedirs, Wrap;
    assert [] + ParseRedirs(next).value == [];
  }

  lemma WordsTail(ws: seq<string>, rest: string) returns (tail: string)
    requires ws != [] && LegalWords(ws) && Closes(rest)
    ensures Words(ws) + rest == ws[0] + tail && (tail == [] || !WordChar(tail[0]))
    ensures Trim(tail) == Words(ws[1..]) + rest
  {
    tail := (if |ws| > 1 then " " else "") + Words(ws[1..]) + rest;
    WordsStart(ws[1..], rest);
    if |ws| > 1 {
      assert tail[1..] == Words(ws[1..]) + rest;
    } else {
      assert tail == Words(ws[1..]) + rest;
    }
  }

  lemma FirstWord(argv: seq<string>, ws: seq<string>, rest: string)
    requires ws != [] && |argv| + |ws| < MAXARGS && LegalWords(ws) && Closes(rest)
    ensures ParseArgs(argv, [], Words(ws) + rest) == ParseArgs(argv + [ws[0]], [], Words(ws[1..]) + rest)
  {
    hide GetToken, Peek, Trim, ParseRedirs, Wrap, Words, ParseArgs;
    var tail := WordsTail(ws, rest);
    assert LegalWord(ws[0]) && WordChar(ws[0][0]);
    WordToken(ws[0], tail);
    WordsStart(ws[1..], rest);
    NoRedirs(Words(ws[1..]) + rest);
    ArgStep(argv, Words(ws) + rest, ws[0], Words(ws[1..]) + rest);
  }

  lemma NoWords(argv: seq<string>, rest: string)
    requires Closes(rest)
    ensures ParseArgs(argv, [], rest) == Ok(Exec(argv), rest)
  {
    hide ParseRedirs;
    assert Trim(rest) == rest;
  }

  lemma {:induction false} ReadWords(argv: seq<string>, ws: seq<string>, rest: string)
    requires |argv| + |ws| < MAXARGS && LegalWords(ws) && Closes(rest)
    ensures ParseArgs(argv, [], Words(ws) + rest) == Ok(Exec(argv + ws), rest)
    decreases |ws|
  {
    hide ParseArgs;
    if ws == [] {
      assert Words(ws) + rest == rest && argv + ws == argv;
      NoWords(argv, rest);
    } else {
      hide Words;
      FirstWord(argv, ws, rest);
      ReadWords(argv + [ws[0]], ws[1..], rest);
      assert argv + [ws[0]] + ws[1..] == argv + ws;
    }
  }

  lemma WordsStart(ws: seq<string>, rest: string)
    requires LegalWords(ws) && Closes(rest)
    ensures Stops(Words(ws) + rest)
    ensures ws == [] ==> Words(ws) + rest == rest
    ensures ws != [] ==> Words(ws) + rest != [] && WordChar((Words(ws) + rest)[0])
  {
    if ws != [] {
      assert (Words(ws) + rest)[0] == ws[0][0];
    }
  }

  lemma ReadExec(argv: seq<string>, rest: string)
    requires |argv| < MAXARGS && LegalWords(argv) && Closes(rest)
    ensures ParseLine(Words(argv) + rest) == Ok(Exec(argv), rest)
  {
    var s := Words(argv) + rest;
    WordsStart(argv, rest);
    assert !Peek(s, "(");
    NoRedirs(s);
    ReadWords([], argv, rest);
    assert [] + argv == argv;
    assert ParseExec(s) == Ok(Exec(argv), rest);
    Closed(s, Exec(argv), rest);
  }

  /** After an operand and a closing text, pipe and line end. */
  lemma Closed(s: string, c: Cmd, rest: string)
    requires ParseExec(s) == Ok(c, rest) && Closes(rest)
    ensures ParsePipe(s) == Ok(c, rest) && ParseLine(s) == Ok(c, rest)
  {
  }

  lemma Unwrapped(s: string, c: Cmd, inner: string, rest: string, r: Result<seq<Redirection>>)
    requires Peek(s, "(") && ParseLine(GetToken(s).1) == Ok(c, inner)
    requires Peek(inner, ")") && r == ParseRedirs(GetToken(inner).1) && r.Ok?
    ensures ParseExec(s) == Ok(Wrap(c, r.value), r.rest)
  {
    hide GetToken, Peek, ParseLine, ParseRedirs;
  }

  lemma GroupText(body: string, rest: string)
    ensures Group(body) + rest == ['('] + (body + (")" + rest))
  {
  }

  /** A parenthesised operand is read whole, with the redirections that follow it. */
  lemma ReadOperand(body: string, c: Cmd, rest: string)
    requires ParseLine(body + (")" + rest)) == Ok(c, ")" + rest) && ParseRedirs(rest).Ok?
    requires Trim(body + (")" + rest)) == body + (")" + rest) && (rest == [] || !Space(rest[0]))
    ensures ParseExec(Group(body) + rest) == Ok(Wrap(c, ParseRedirs(rest).value), ParseRedirs(rest).rest)
  {
    var s := Group(body) + rest;
    GroupText(body, rest);
    hide GetToken, Peek, ParseLine, ParseRedirs, ParseExec, Group, Wrap;
    SymbolToken('(', body + (")" + rest));
    SymbolToken(')', rest);
    Unwrapped(s, c, ")" + rest, rest, ParseRedirs(rest));
  }

  lemma PrintStarts(c: Cmd, rest: string)
    requires Legal(c) && Closes(rest)
    ensures Trim(Print(c) + rest) == Print(c) + rest
  {
    match c
    case Exec(argv) => WordsStart(argv, rest);
    case _ => assert (Print(c) + rest)[0] == '(';
  }

  lemma PipeStep(s: string, l: Cmd, tail: string, right: string, r: Cmd, rest: string)
    requires ParseExec(s) == Ok(l, tail) && Peek(tail, "|") && GetToken(tail).1 == right
    requires ParsePipe(right) == Ok(r, rest) && Closes(rest)
    ensures ParseLine(s) == Ok(Pipe(l, r), rest)
  {
    hide GetToken, ParseExec;
    assert ParsePipe(s) == Ok(Pipe(l, r), rest);
    assert ParseBacks(Pipe(l, r), rest) == (Pipe(l, r), rest);
  }

  lemma ListStep(s: string, l: Cmd, tail: string, right: string, r: Cmd, rest: string)
    requires ParseExec(s) == Ok(l, tail) && tail != [] && tail[0] == ';' && GetToken(tail).1 == right
    requires ParseLine(right) == Ok(r, rest)
    ensures ParseLine(s) == Ok(List(l, r), rest)
  {
    hide GetToken, ParseExec;
    assert ParsePipe(s) == Ok(l, tail);
    assert ParseBacks(l, tail) == (l, tail);
  }

  lemma BackStep(s: string, d: Cmd, rest: string)
    requires ParseExec(s) == Ok(d, "&" + rest) && Closes(rest) && GetToken("&" + rest).1 == rest
    ensures ParseLine(s) == Ok(Back(d), rest)
  {
    hide GetToken, ParseExec;
    assert ParsePipe(s) == Ok(d, "&" + rest);
    assert ParseBacks(Back(d), rest) == (Back(d), rest);
    assert ParseBacks(d, "&" + rest) == (Back(d), rest);
  }

  lemma Assoc(a: string, b: string, c: string, d: string)
    ensures a + b + c + d == a + (b + (c + d))
    ensures a + b + c == a + (b + c)
  {
  }

  /** A printed operand, and what follows it. */
  lemma {:induction false} Operand(c: Cmd, rest: string)
    requires Legal(c) && Stops(rest)
    ensures ParseExec(Group(Print(c)) + rest) == Ok(c, rest)
    decreases c, 1
  {
    ReadBackLine(c, ")" + rest);
    PrintStarts(c, ")" + rest);
    NoRedirs(rest);
    ReadOperand(Print(c), c, rest);
    assert Wrap(c, []) == c;
  }

  lemma Redirected(d: Cmd, how: Redirection, rest: string)
    requires Legal(d) && LegalTarget(how) && Closes(rest)
    requires var inner := ")" + (Arrow(how) + how.file + rest); ParseLine(Print(d) + inner) == Ok(d, inner)
    ensures ParseExec(Group(Print(d)) + (Arrow(how) + how.file + rest)) == Ok(Redir(d, how), rest)
  {
    var tail := Arrow(how) + how.file + rest;
    PrintStarts(d, ")" + tail);
    OneRedir(how, rest);
    assert tail[0] == Arrow(how)[0];
    ReadOperand(Print(d), d, tail);
    assert Wrap(d, []) == d;
    assert [how][..0] == [];
    assert Wrap(d, [how]) == Redir(d, how);
  }

  /** A printed tree is read back as itself, and reading stops where it ends. */
  lemma {:induction false} ReadBackLine(c: Cmd, rest: string)
    requires Legal(c) && Closes(rest)
    ensures ParseLine(Print(c) + rest) == Ok(c, rest)
    decreases c, 0
  {
    hide GetToken, Peek, ParseLine, ParsePipe, ParseExec, Group, Words;
    match c
    case Exec(argv) => ReadExec(argv, rest);
    case Redir(d, how) =>
      ReadBackLine(d, ")" + (Arrow(how) + how.file + rest));
      Redirected(d, how, rest);
      Assoc(Group(Print(d)), Arrow(how) + how.file, rest, []);
      Closed(Print(c) + rest, c, rest);
    case Pipe(l, r) =>
      var right := Group(Print(r)) + rest;
      SymbolToken('|', right);
      Operand(l, "|" + right);
      Operand(r, rest);
      Closed(right, r, rest);
      Assoc(Group(Print(l)), "|", Group(Print(r)), rest);
      PipeStep(Print(c) + rest, l, "|" + right, right, r, rest);
    case List(l, r) =>
      var right := Group(Print(r)) + rest;
      SymbolToken(';', right);
      Operand(l, ";" + right);
      Operand(r, rest);
      Closed(right, r, rest);
      Assoc(Group(Print(l)), ";", Group(Print(r)), rest);
      ListStep(Print(c) + rest, l, ";" + right, right, r, rest);
    case Back(d) =>
      SymbolToken('&', rest);
      Operand(d, "&" + rest);
      Assoc(Group(Print(d)), "&", rest, []);
      BackStep(Print(c) + rest, d, rest);
  }

  /** Every legal tree, printed, is parsed back to the same tree with all input consumed. */
  lemma RoundTrip(c: Cmd)
    requires Legal(c)
    ensures ParseCmd(Print(c)) == Ok(c, [])
  {
    ReadBackLine(c, []);
    assert Print(c) + [] == Print(c);
  }

  lemma {:induction false} WordsPrintable(ws: seq<string>)
    requires LegalWords(ws)
    ensures CString(Words(ws))
  {
    if ws != [] {
      assert LegalWord(ws[0]);
      WordsPrintable(ws[1..]);
    }
  }

  lemma {:induction false} Printable(c: Cmd)
    requires Legal(c)
    ensures CString(Print(c))
  {
    match c
    case Exec(argv) => WordsPrintable(argv);
    case Redir(d, how) => Printable(d);
    case Pipe(l, r) =>
      Printable(l);
      Printable(r);
    case List(l, r) =>
      Printable(l);
      Printable(r);
    case Back(d) => Printable(d);
  }

  /** From C strings the parser returns exactly the legal trees. */
  lemma LegalIffParsed(c: Cmd)
    ensures Legal(c) <==> exists s :: CString(s) && ParseCmd(s) == Ok(c, [])
  {
    if Legal(c) {
      RoundTrip(c);
      Printable(c);
    }
    if exists s :: CString(s) && ParseCmd(s) == Ok(c, []) {
      var s :| CString(s) && ParseCmd(s) == Ok(c, []);
      LineLegal(s);
    }
  }

  /** Printing what was parsed changes nothing a second parse can see. */
  lemma Normal(s: string)
    requires ParseCmd(s).Ok? && CString(s)
    ensures ParseCmd(Print(ParseCmd(s).value)) == ParseCmd(s)
  {
    LineLegal(s);
    RoundTrip(ParseCmd(s).value);
  }
}
