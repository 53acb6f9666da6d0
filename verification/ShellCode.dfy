/** The parser of sh.c as it runs: a cursor moved through the line. */
module ShellCode {
  import opened Shell
  import CStrings
  import Typed = ShellPlain
  import ShellGrammar

  /** What a parsing routine hands back; panic() ends the shell. */
  datatype Outcome<T> = Parsed(value: T) | Failed(message: string)

  predicate Gives<T(==)>(o: Outcome<T>, rest: string, r: Result<T>) {
    if r.Ok? then o == Parsed(r.value) && rest == r.rest else o == Failed(r.message)
  }

  function After(rs: seq<Redirection>, r: Result<seq<Redirection>>): Result<seq<Redirection>> {
    if r.Panic? then r else Ok(rs + r.value, r.rest)
  }

  lemma TrimStep(s: string, i: nat)
    requires i < |s| && Space(s[i])
    ensures Trim(s[i..]) == Trim(s[i + 1..])
  {
    assert s[i..][1..] == s[i + 1..];
  }

  lemma WordStep(s: string, i: nat)
    requires i < |s|
    ensures WordLength(s[i..]) == if WordChar(s[i]) then 1 + WordLength(s[i + 1..]) else 0
  {
    assert s[i..][1..] == s[i + 1..];
  }

  lemma RedirsStep(s: string)
    requires Peek(s, "<>")
    ensures var (k, s1) := GetToken(s); var (f, s2) := GetToken(s1);
      ParseRedirs(s) == if f.Word? then After([Target(k, f.w)], ParseRedirs(s2)) else Panic("missing file for redirection")
  {
  }

  lemma ArgsTrim(argv: seq<string>, rs: seq<Redirection>, s: string)
    ensures ParseArgs(argv, rs, Trim(s)) == ParseArgs(argv, rs, s)
  {
  }

  lemma AfterAfter(rs: seq<Redirection>, x: Redirection, r: Result<seq<Redirection>>)
    ensures After(rs, After([x], r)) == After(rs + [x], r)
  {
    if r.Ok? {
      assert rs + ([x] + r.value) == rs + [x] + r.value;
    }
  }

  lemma AfterNone(s: string)
    ensures After([], ParseRedirs(s)) == ParseRedirs(s)
  {
    var r := ParseRedirs(s);
    if r.Ok? {
      assert [] + r.value == r.value;
    }
  }

  lemma PeekTrim(s: string, toks: string)
    ensures Trim(Trim(s)) == Trim(s) && (Peek(Trim(s), toks) <==> Peek(s, toks))
    ensures GetToken(Trim(s)) == GetToken(s)
  {
  }

  class Parser {
    const line: string
    var pos: nat

    ghost predicate Valid()
      reads this
    {
      pos <= |line|
    }

    ghost function Left(): string
      requires Valid()
      reads this
    {
      line[pos..]
    }

    constructor (line: string)
      ensures Valid() && this.line == line && Left() == line
    {
      this.line := line;
      pos := 0;
    }

    method SkipSpace()
      requires Valid()
      modifies this
      ensures Valid() && Left() == Trim(old(Left())) && pos >= old(pos)
    {
      while pos < |line| && Space(line[pos])
        invariant old(pos) <= pos <= |line| && Trim(Left()) == Trim(old(Left()))
      {
        TrimStep(line, pos);
        pos := pos + 1;
      }
    }

    /** gettoken */
    method Next() returns (k: Token)
      requires Valid()
      modifies this
      ensures Valid() && (k, Left()) == GetToken(old(Left()))
      ensures pos >= old(pos) && (!k.End? ==> pos > old(pos))
    {
      SkipSpace();
      ghost var t := Left();
      var q := pos;
      if pos == |line| {
        k := End;
      } else if line[pos] == '>' {
        k := Sym('>');
        pos := pos + 1;
        if pos < |line| && line[pos] == '>' {
          k := Append;
          pos := pos + 1;
        }
      } else if Symbol(line[pos]) {
        k := Sym(line[pos]);
        pos := pos + 1;
      } else {
        SkipWord();
        k := Word(line[q..pos]);
        assert line[q..pos] == t[..pos - q];
      }
      assert k == Lex(t).0 && pos - q == Lex(t).1;
      assert Left() == t[pos - q..];
      SkipSpace();
    }

    method SkipWord()
      requires Valid()
      modifies this
      ensures Valid() && pos == old(pos) + WordLength(old(Left()))
    {
      while pos < |line| && WordChar(line[pos])
        invariant old(pos) <= pos <= |line|
        invariant pos + WordLength(Left()) == old(pos) + WordLength(old(Left()))
      {
        WordStep(line, pos);
        pos := pos + 1;
      }
    }

    /** peek */
    method Sees(toks: string) returns (b: bool)
      requires Valid()
      modifies this
      ensures Valid() && Left() == Trim(old(Left())) && pos >= old(pos)
      ensures b <==> Peek(old(Left()), toks)
    {
      SkipSpace();
      b := pos < |line| && line[pos] in toks;
    }

    /** parseredirs: the redirections it would wrap around its argument */
    method Redirs() returns (o: Outcome<seq<Redirection>>)
      requires Valid()
      modifies this
      ensures Valid() && Gives(o, Left(), ParseRedirs(old(Left()))) && pos >= old(pos)
    {
      hide Trim, GetToken, Peek;
      var rs := [];
      ghost var spec := ParseRedirs(Left());
      Typed.RedirsTrim(Left());
      AfterNone(Left());
      PeekTrim(Left(), "<>");
      var more := Sees("<>");
      while more
        invariant old(pos) <= pos <= |line|
        invariant more == Peek(Left(), "<>")
        invariant spec == After(rs, ParseRedirs(Left())) && Trim(Left()) == Left()
        decreases |line| - pos
      {
        RedirsStep(Left());
        var k := Next();
        var f := Next();
        if !f.Word? {
          return Failed("missing file for redirection");
        }
        AfterAfter(rs, Target(k, f.w), ParseRedirs(Left()));
        rs := rs + [Target(k, f.w)];
        Typed.RedirsTrim(Left());
        PeekTrim(Left(), "<>");
        more := Sees("<>");
      }
      assert ParseRedirs(Left()) == Ok([], Left()) && rs + [] == rs;
      return Parsed(rs);
    }

    /** parseexec; argv is filled in place, behind any redirections already wrapped round it */
    method ExecCmd() returns (o: Outcome<Cmd>)
      requires Valid()
      modifies this
      ensures Valid() && Gives(o, Left(), ParseExec(old(Left()))) && pos >= old(pos)
      decreases |line| - pos, 1
    {
      hide Trim, GetToken, Peek, ParseArgs, ParseLine, ParseBlock;
      ghost var spec := ParseExec(Left());
      ghost var s0 := Left();
      PeekTrim(Left(), "(");
      var block := Sees("(");
      if block {
        BlockTrim(s0);
        o := Block();
        return;
      }
      Typed.RedirsTrim(s0);
      var rs := Redirs();
      if rs.Failed? {
        return Failed(rs.message);
      }
      o := Arguments(rs.value);
    }

    /** The loop of parseexec. */
    method Arguments(before: seq<Redirection>) returns (o: Outcome<Cmd>)
      requires Valid()
      modifies this
      ensures Valid() && Gives(o, Left(), ParseArgs([], before, old(Left()))) && pos >= old(pos)
    {
      hide Trim, GetToken, Peek;
      ghost var spec := ParseArgs([], before, Left());
      var argv := new string[MAXARGS];
      var argc, rs := 0, before;
      ArgsTrim([], rs, Left());
      PeekTrim(Left(), "|)&;");
      assert argv[..0] == [];
      var stop := Sees("|)&;");
      while !stop
        invariant old(pos) <= pos <= |line| && argc < MAXARGS
        invariant stop == Peek(Left(), "|)&;") && Trim(Left()) == Left()
        invariant spec == ParseArgs(argv[..argc], rs, Left())
        decreases |line| - pos
      {
        var k := Next();
        if k.End? {
          break;
        }
        if !k.Word? {
          return Failed("syntax");
        }
        ghost var sofar := argv[..argc];
        argv[argc] := k.w;
        argc := argc + 1;
        assert argv[..argc] == sofar + [k.w];
        if argc >= MAXARGS {
          return Failed("too many args");
        }
        var more := Redirs();
        if more.Failed? {
          return Failed(more.message);
        }
        rs := rs + more.value;
        ArgsTrim(argv[..argc], rs, Left());
        PeekTrim(Left(), "|)&;");
        stop := Sees("|)&;");
      }
      return Parsed(Wrap(Exec(argv[..argc]), rs));
    }

    /** parseblock */
    method Block() returns (o: Outcome<Cmd>)
      requires Valid()
      modifies this
      ensures Valid() && Gives(o, Left(), ParseBlock(old(Left()))) && pos >= old(pos)
      decreases |line| - pos, 0
    {
      hide Trim, GetToken, Peek, ParseLine;
      PeekTrim(Left(), "(");
      var b := Sees("(");
      if !b {
        return Failed("parseblock");
      }
      PeekToken(Left(), "(");
      var _ := Next();
      o := Line();
      if o.Failed? {
        return;
      }
      PeekTrim(Left(), ")");
      b := Sees(")");
      if !b {
        return Failed("syntax - missing )");
      }
      var _ := Next();
      var rs := Redirs();
      if rs.Failed? {
        return Failed(rs.message);
      }
      return Parsed(Wrap(o.value, rs.value));
    }

    /** parsepipe */
    method PipeCmd() returns (o: Outcome<Cmd>)
      requires Valid()
      modifies this
      ensures Valid() && Gives(o, Left(), ParsePipe(old(Left()))) && pos >= old(pos)
      decreases |line| - pos, 2
    {
      hide Trim, GetToken, Peek, ParseExec;
      o := ExecCmd();
      if o.Failed? {
        return;
      }
      PeekTrim(Left(), "|");
      var more := Sees("|");
      if more {
        PeekToken(Left(), "|");
        var _ := Next();
        var r := PipeCmd();
        if r.Failed? {
          return r;
        }
        return Parsed(Pipe(o.value, r.value));
      }
    }

    /** parseline */
    method Line() returns (o: Outcome<Cmd>)
      requires Valid()
      modifies this
      ensures Valid() && Gives(o, Left(), ParseLine(old(Left()))) && pos >= old(pos)
      decreases |line| - pos, 3
    {
      hide Trim, GetToken, Peek, ParsePipe, ParseBacks;
      o := PipeCmd();
      if o.Failed? {
        return;
      }
      var c := Backs(o.value);
      PeekTrim(Left(), ";");
      var more := Sees(";");
      if more {
        PeekToken(Left(), ";");
        var _ := Next();
        var r := Line();
        if r.Failed? {
          return r;
        }
        return Parsed(List(c, r.value));
      }
      return Parsed(c);
    }

    /** The loop of parseline. */
    method Backs(first: Cmd) returns (c: Cmd)
      requires Valid()
      modifies this
      ensures Valid() && (c, Left()) == ParseBacks(first, old(Left())) && pos >= old(pos)
    {
      hide Trim, GetToken, Peek;
      ghost var spec := ParseBacks(first, Left());
      c := first;
      PeekTrim(Left(), "&");
      Typed.BacksTrim(c, Left());
      var more := Sees("&");
      while more
        invariant old(pos) <= pos <= |line|
        invariant more == Peek(Left(), "&") && Trim(Left()) == Left()
        invariant spec == ParseBacks(c, Left())
        decreases |line| - pos
      {
        PeekToken(Left(), "&");
        var _ := Next();
        c := Back(c);
        PeekTrim(Left(), "&");
        Typed.BacksTrim(c, Left());
        more := Sees("&");
      }
    }

    lemma Accepts()
      ensures CStrings.CString(line) ==> (ParseCmd(line).Ok? <==> exists l :: Typed.LineOk(l) && Typed.SayLine(l) == line)
      ensures forall l :: Typed.LineOk(l) && Typed.SayLine(l) == line ==> ParseCmd(line) == Ok(Typed.LineTree(l), [])
    {
      hide ParseCmd, Typed.LineOk, Typed.SayLine, Typed.LineTree;
      if CStrings.CString(line) { ShellGrammar.Accepted(line); }
      forall l | Typed.LineOk(l) && Typed.SayLine(l) == line ensures ParseCmd(line) == Ok(Typed.LineTree(l), []) {
        Typed.TypedLine(l);
      }
    }

    /** parsecmd, on a parser at the start of its line */
    method Command() returns (o: Outcome<Cmd>)
      requires Valid() && pos == 0
      modifies this
      ensures Valid() && var r := ParseCmd(line); if r.Ok? then o == Parsed(r.value) && pos == |line| else o == Failed(r.message)
      ensures CStrings.CString(line) ==> (o.Parsed? <==> exists l :: Typed.LineOk(l) && Typed.SayLine(l) == line)
      ensures forall l :: Typed.LineOk(l) && Typed.SayLine(l) == line ==> o == Parsed(Typed.LineTree(l))
    {
      Accepts();
      assert Left() == line;
      o := Line();
      if o.Failed? {
        return;
      }
      var _ := Sees("");
      if pos != |line| {
        return Failed("syntax");
      }
    }
  }

  lemma BlockTrim(s: string)
    ensures ParseBlock(Trim(s)) == ParseBlock(s)
  {
  }
}
