/** The language of the shell: the lines its parser accepts are exactly the lines that ShellPlain can type. */
module ShellGrammar {
  import opened CStrings
  import opened Shell
  import opened ShellPlain

  // ---- tokens in the text ----

  lemma CStringParts(a: string, b: string)
    requires CString(a + b)
    ensures CString(a) && CString(b)
  {
    forall k | 0 <= k < |a| ensures a[k] != '\0' { assert (a + b)[k] == a[k]; }
    forall k | 0 <= k < |b| ensures b[k] != '\0' { assert (a + b)[|a| + k] == b[k]; }
  }

  lemma {:induction false} Lead0(s: string) returns (sp: string)
    ensures Blank(sp) && s == sp + Trim(s) && Lean(Trim(s)) && (Lean(s) ==> sp == [])
  {
    if s != [] && Space(s[0]) {
      sp := Lead0(s[1..]);
      sp := [s[0]] + sp;
      assert s == [s[0]] + s[1..];
    } else {
      sp := [];
    }
  }

  lemma SymShown(s: string, c: char) returns (sp: string, w: string)
    requires Peek(s, [c]) && Symbol(c) && c != '>'
    ensures Blank(sp) && s == sp + ([c] + w) && Trim(w) == GetToken(s).1 && (Lean(s) ==> sp == [] && s == [c] + w)
  {
    sp := Lead0(s);
    w := Trim(s)[1..];
    assert Trim(s) == [c] + w;
  }

  lemma ArrowShown(s: string) returns (sp: string, how: Arrow, mid: string)
    requires Peek(s, "<>")
    ensures Blank(sp) && Blank(mid) && s == sp + (Sign(how) + (mid + GetToken(s).1)) && (Lean(s) ==> sp == [])
    ensures Lean(GetToken(s).1)
  {
    sp := Lead0(s);
    var t := Trim(s);
    how := if t[0] == '<' then In else if |t| > 1 && t[1] == '>' then Arrow.Append else Out;
    var n := |Sign(how)|;
    assert Lex(t).1 == n && t == Sign(how) + t[n..];
    mid := Lead0(t[n..]);
  }

  lemma WordIs(s: string, t: string, n: nat)
    requires GetToken(s).0.Word? && t == Trim(s) && n == WordLength(t)
    ensures GetToken(s) == (Word(t[..n]), Trim(t[n..]))
  {
  }

  predicate Apart(post: string, y: string) { post == [] && y != [] ==> !WordChar(y[0]) }

  lemma WordShown(s: string) returns (sp: string, w: string, post: string)
    requires GetToken(s).0.Word? && CString(s)
    ensures GetToken(s).0 == Word(w) && LegalWord(w) && Blank(sp) && Blank(post) && (Lean(s) ==> sp == [])
    ensures s == sp + (w + (post + GetToken(s).1)) && Lean(GetToken(s).1) && Apart(post, GetToken(s).1)
  {
    TokenLegal(s);
    sp := Lead0(s);
    var t := Trim(s);
    var n := WordLength(t);
    WordIs(s, t, n);
    hide GetToken, LegalWord, CString, Trim;
    w := t[..n];
    assert t == w + t[n..];
    post := Lead0(t[n..]);
  }

  // ---- words and redirections ----

  predicate AllReds(items: seq<Item>) { forall k :: 0 <= k < |items| ==> items[k].Red? && ItemOk(items[k]) }

  /** A word can follow the items. */
  predicate Parted(items: seq<Item>, y: string) { items != [] ==> Apart(items[|items| - 1].post, y) }

  lemma {:induction false} SayBoth(a: seq<Item>, b: seq<Item>)
    ensures SayItems(a + b) == SayItems(a) + SayItems(b)
  {
    if a == [] {
      assert a + b == b;
    } else {
      assert (a + b)[0] == a[0] && (a + b)[1..] == a[1..] + b;
      SayBoth(a[1..], b);
      hide SayItem;
    }
  }

  lemma RedirsOne(s: string)
    requires ParseRedirs(s).Ok? && Peek(s, "<>")
    ensures var s1 := GetToken(s).1; GetToken(s1).0.Word? && ParseRedirs(GetToken(s1).1).Ok? &&
                                     ParseRedirs(s).rest == ParseRedirs(GetToken(s1).1).rest
  {
    hide GetToken, Peek;
  }

  lemma RedSaid(it: Item, items: seq<Item>, x: string)
    requires it.Red?
    ensures Sign(it.how) + (it.mid + (it.file + (it.post + (SayItems(items) + x)))) == SayItems([it] + items) + x
  {
    RedText(it, SayItems(items), x);
    assert ([it] + items)[1..] == items;
    hide SayItem, Sign;
  }

  lemma RedirsNone(s: string)
    requires !Peek(s, "<>")
    ensures ParseRedirs(s) == Ok([], Trim(s))
  {
    hide Peek, Trim;
  }

  lemma AddRed(it: Item, more: seq<Item>, y: string, x: string)
    requires it.Red? && ItemOk(it) && AllReds(more) && Parted(more, x) && Apart(it.post, y) && y == SayItems(more) + x
    ensures AllReds([it] + more) && Parted([it] + more, x)
  {
    if more == [] { assert y == x; }
  }

  lemma {:induction false} RedirsShown(s: string) returns (sp: string, items: seq<Item>)
    requires ParseRedirs(s).Ok? && CString(s)
    ensures Blank(sp) && AllReds(items) && Parted(items, ParseRedirs(s).rest) && Lean(ParseRedirs(s).rest)
    ensures s == sp + (SayItems(items) + ParseRedirs(s).rest) && (Lean(s) ==> sp == [])
    decreases |s|
  {
    hide GetToken, Peek, ParseRedirs, LegalWord, CString, Sign, Trim, SayItem;
    if !Peek(s, "<>") {
      RedirsNone(s);
      items := [];
      sp := Lead0(s);
      assert SayItems(items) + Trim(s) == Trim(s);
    } else {
      hide SayItems, AllReds, Parted, Apart;
      RedirsOne(s);
      var s1 := GetToken(s).1;
      var s2 := GetToken(s1).1;
      TokenLegal(s);
      TokenLegal(s1);
      var how, mid, nosp, file, post, more;
      sp, how, mid := ArrowShown(s);
      nosp, file, post := WordShown(s1);
      PeekToken(s, "<>");
      nosp, more := RedirsShown(s2);
      var it := Red(how, mid, file, post);
      items := [it] + more;
      RedSaid(it, more, ParseRedirs(s).rest);
      AddRed(it, more, s2, ParseRedirs(s).rest);
    }
  }

  lemma ArgsCases(argv: seq<string>, rs: seq<Redirection>, s: string)
    requires ParseArgs(argv, rs, s).Ok? && Lean(s)
    ensures Ends(s) ==> ParseArgs(argv, rs, s).rest == s
    ensures !Ends(s) ==>
      var (k, s1) := GetToken(s); var r := ParseRedirs(s1);
      k.Word? && |argv| + 1 < MAXARGS && r.Ok? && ParseArgs(argv, rs, s) == ParseArgs(argv + [k.w], rs + r.value, r.rest)
  {
    if Ends(s) {
      ArgsEnd(argv, rs, s);
    } else {
      assert !Peek(s, "|)&;");
      assert !GetToken(s).0.End?;
      hide GetToken, Peek, ParseRedirs;
    }
  }

  lemma ArgFirst(w: string, post: string, more: seq<Item>)
    ensures SayItems([Arg(w, post)] + more) == (w + post) + SayItems(more)
  {
    assert ([Arg(w, post)] + more)[1..] == more;
  }

  lemma Nested(a: string, b: string, c: string, d: string, x: string)
    ensures a + (b + (c + (d + x))) == (a + b) + (c + d) + x
  {
  }

  lemma ArgSaid(w: string, post: string, reds: seq<Item>, more: seq<Item>, y: string, z: string, x: string)
    requires y == SayItems(reds) + z && z == SayItems(more) + x
    ensures w + (post + y) == SayItems([Arg(w, post)] + (reds + more)) + x
  {
    hide SayItems;
    ArgFirst(w, post, reds + more);
    SayBoth(reds, more);
    Nested(w, post, SayItems(reds), SayItems(more), x);
  }

  /** No two items of the result run together. */
  lemma Spaced(it: Item, reds: seq<Item>, more: seq<Item>, y: string, z: string)
    requires it.Arg? && ItemOk(it) && AllReds(reds) && ItemsOk(more) && Apart(it.post, y) && Parted(reds, z)
    requires more != [] ==> more[0].Arg? && z != [] && WordChar(z[0])
    requires reds == [] ==> y == z
    ensures ItemsOk([it] + (reds + more))
  {
    var all := [it] + (reds + more);
    var n := |reds|;
    forall k | 0 <= k < |all| - 1 && all[k + 1].Arg? ensures all[k].post != [] {
      if k == n {
        assert all[k + 1] == more[0];
        assert n > 0 ==> all[k] == reds[n - 1];
      } else if k > n {
        assert all[k] == more[k - n - 1] && all[k + 1] == more[k - n];
      }
    }
  }

  lemma RedsNoArgs(it: Item, reds: seq<Item>, more: seq<Item>)
    requires it.Arg? && AllReds(reds)
    ensures Args([it] + (reds + more)) == [it.w] + Args(more)
  {
    var all := [it] + (reds + more);
    assert all[1..] == reds + more;
    NoArgs(reds);
    ItemsSplit(reds + more, |reds|);
    assert (reds + more)[..|reds|] == reds && (reds + more)[|reds|..] == more;
  }

  lemma WordBegins(w: string)
    requires LegalWord(w)
    ensures w != [] && WordChar(w[0])
  {
  }

  lemma {:induction false} ArgsShown(argv: seq<string>, rs: seq<Redirection>, s: string) returns (items: seq<Item>)
    requires ParseArgs(argv, rs, s).Ok? && CString(s) && Lean(s) && |argv| < MAXARGS
    ensures s == SayItems(items) + ParseArgs(argv, rs, s).rest && Ends(ParseArgs(argv, rs, s).rest)
    ensures ItemsOk(items) && (items != [] ==> items[0].Arg? && s != [] && WordChar(s[0])) && |argv| + |Args(items)| < MAXARGS
    decreases |s|
  {
    hide GetToken, ParseArgs, ParseRedirs, LegalWord, CString;
    ArgsCases(argv, rs, s);
    if Ends(s) {
      items := [];
      assert SayItems(items) + s == s;
    } else {
      hide SayItems, ItemsOk, Args, AllReds, Parted, Apart;
      var (k, s1) := GetToken(s);
      var r := ParseRedirs(s1);
      TokenLegal(s);
      RedirsLegal(s1);
      var nosp, w, post, reds, more;
      nosp, w, post := WordShown(s);
      nosp, reds := RedirsShown(s1);
      more := ArgsShown(argv + [w], rs + r.value, r.rest);
      var it := Arg(w, post);
      items := [it] + (reds + more);
      ArgSaid(w, post, reds, more, s1, r.rest, ParseArgs(argv, rs, s).rest);
      RedsNoArgs(it, reds, more);
      assert reds == [] ==> SayItems(reds) + r.rest == r.rest by { assert SayItems([]) == []; }
      Spaced(it, reds, more, s1, r.rest);
      assert s[0] == w[0] && WordChar(w[0]) by { WordBegins(w); }
    }
  }

  // ---- operands ----

  lemma SimpleSaid(sp: string, reds: seq<Item>, more: seq<Item>, z: string, x: string)
    requires z == SayItems(more) + x
    ensures sp + (SayItems(reds) + z) == SayOperand(Simple(sp, reds + more)) + x
  {
    SayBoth(reds, more);
    hide SayItems;
    assert sp + (SayItems(reds) + (SayItems(more) + x)) == sp + (SayItems(reds) + SayItems(more)) + x;
  }

  lemma SimpleSpaced(reds: seq<Item>, more: seq<Item>, z: string)
    requires AllReds(reds) && ItemsOk(more) && Parted(reds, z)
    requires more != [] ==> more[0].Arg? && z != [] && WordChar(z[0])
    ensures ItemsOk(reds + more)
  {
    hide ItemOk, WordChar;
    var all := reds + more;
    var n := |reds|;
    forall k | 0 <= k < |all| - 1 && all[k + 1].Arg? ensures all[k].post != [] {
      if k == n - 1 {
        assert all[k + 1] == more[0];
      } else if k >= n {
        assert all[k] == more[k - n] && all[k + 1] == more[k - n + 1];
      }
    }
  }

  lemma SimpleOk(sp: string, reds: seq<Item>, more: seq<Item>, z: string)
    requires Blank(sp) && AllReds(reds) && ItemsOk(more) && Parted(reds, z) && |Args(more)| < MAXARGS
    requires more != [] ==> more[0].Arg? && z != [] && WordChar(z[0])
    ensures OperandOk(Simple(sp, reds + more))
  {
    NoArgs(reds);
    hide ItemsOk, Args, Parted, ItemOk, Reds, WordChar;
    SimpleSpaced(reds, more, z);
    ItemsSplit(reds + more, |reds|);
    assert (reds + more)[..|reds|] == reds && (reds + more)[|reds|..] == more;
  }

  lemma ExecCases(s: string)
    requires ParseExec(s).Ok? && !Peek(s, "(")
    ensures var r := ParseRedirs(s); r.Ok? && ParseExec(s) == ParseArgs([], r.value, r.rest)
  {
    hide Peek, ParseRedirs, ParseArgs;
  }

  lemma BlockCases(s: string)
    requires ParseExec(s).Ok? && Peek(s, "(")
    ensures var l := ParseLine(GetToken(s).1); l.Ok? && Peek(l.rest, ")") && ParseRedirs(GetToken(l.rest).1).Ok? &&
                                               ParseExec(s).rest == ParseRedirs(GetToken(l.rest).1).rest
  {
    hide Peek, ParseRedirs, GetToken, ParseLine;
  }

  lemma ExecShown(s: string) returns (op: Operand)
    requires ParseExec(s).Ok? && CString(s)
    ensures OperandOk(op) && s == SayOperand(op) + ParseExec(s).rest && Lean(ParseExec(s).rest)
    decreases |s|, 1
  {
    hide GetToken, Peek, ParseExec, ParseRedirs, ParseArgs, ParseLine, CString, SayItems, ItemsOk, SayOperand, OperandOk, Args, Parted, AllReds;
    if !Peek(s, "(") {
      ExecCases(s);
      RedirsLegal(s);
      var r := ParseRedirs(s);
      var sp, reds := RedirsShown(s);
      var more := ArgsShown([], r.value, r.rest);
      op := Simple(sp, reds + more);
      SimpleSaid(sp, reds, more, r.rest, ParseExec(s).rest);
      SimpleOk(sp, reds, more, r.rest);
    } else {
      op := BlockShown(s);
    }
  }

  lemma BlockSaid(sp: string, line: Line, post: string, reds: seq<Item>, x: string)
    requires Blank(sp) && LineOk(line) && Blank(post) && AllReds(reds)
    ensures OperandOk(Block(sp, line, post, reds))
    ensures sp + ("(" + (SayLine(line) + (")" + (post + (SayItems(reds) + x))))) == SayOperand(Block(sp, line, post, reds)) + x
  {
    BlockText(sp, SayLine(line), post, SayItems(reds), x);
    hide SayLine, SayItems, LineOk, ItemOk;
  }

  lemma BlockShown(s: string) returns (op: Operand)
    requires ParseExec(s).Ok? && Peek(s, "(") && CString(s)
    ensures OperandOk(op) && s == SayOperand(op) + ParseExec(s).rest && Lean(ParseExec(s).rest)
    decreases |s|, 0
  {
    hide GetToken, Peek, ParseExec, ParseRedirs, ParseLine, CString, SayItems, SayOperand, OperandOk, SayLine, LineOk, AllReds, Trim;
    BlockCases(s);
    var sp, w := SymShown(s, '(');
    CStringParts(sp, "(" + w);
    CStringParts("(", w);
    LineTrim(w);
    var line := LineShown(w);
    var y := ParseLine(w).rest;
    CStringParts(SayLine(line), y);
    var nosp, v := SymShown(y, ')');
    CStringParts(")", v);
    RedirsTrim(v);
    var post, reds := RedirsShown(v);
    op := Block(sp, line, post, reds);
    BlockSaid(sp, line, post, reds, ParseExec(s).rest);
  }

  // ---- pipelines and lines ----

  lemma PipeCases(s: string)
    requires ParsePipe(s).Ok? && Lean(ParseExec(s).rest)
    ensures ParseExec(s).Ok?
    ensures var y := ParseExec(s).rest; if !Peek(y, "|") then ParsePipe(s).rest == y
            else ParsePipe(GetToken(y).1).Ok? && ParsePipe(s).rest == ParsePipe(GetToken(y).1).rest
  {
    hide Peek, ParseExec, GetToken;
  }

  lemma PipeShown(s: string) returns (p: Pipeline)
    requires ParsePipe(s).Ok? && CString(s)
    ensures PipeOk(p) && s == SayPipe(p) + ParsePipe(s).rest && Lean(ParsePipe(s).rest)
    decreases |s|, 2
  {
    hide GetToken, Peek, ParseExec, CString, SayOperand, OperandOk, Trim;
    var op := ExecShown(s);
    PipeCases(s);
    hide ParsePipe;
    var y := ParseExec(s).rest;
    if !Peek(y, "|") {
      p := One(op);
    } else {
      CStringParts(SayOperand(op), y);
      var nosp, w := SymShown(y, '|');
      CStringParts("|", w);
      PipeTrim(w);
      var next := PipeShown(w);
      p := Bar(op, next);
      assert SayOperand(op) + ("|" + (SayPipe(next) + ParsePipe(w).rest)) == SayOperand(op) + ("|" + SayPipe(next)) + ParsePipe(w).rest;
    }
  }

  predicate Blanks(amps: seq<string>) { forall k :: 0 <= k < |amps| ==> Blank(amps[k]) }

  lemma AmpSaid(post: string, amps: seq<string>, x: string)
    ensures "&" + (post + (SayAmps(amps) + x)) == SayAmps([post] + amps) + x
  {
    assert ([post] + amps)[1..] == amps;
  }

  lemma {:induction false} BacksShown(c: Cmd, s: string) returns (amps: seq<string>)
    requires Lean(s)
    ensures Blanks(amps) && s == SayAmps(amps) + ParseBacks(c, s).1 && Lean(ParseBacks(c, s).1)
    decreases |s|
  {
    hide GetToken, Peek, Trim;
    if !Peek(s, "&") {
      amps := [];
      assert SayAmps(amps) + s == s;
    } else {
      hide SayAmps;
      var nosp, w := SymShown(s, '&');
      var post := Lead0(w);
      PeekToken(s, "&");
      var more := BacksShown(Back(c), GetToken(s).1);
      amps := [post] + more;
      AmpSaid(post, more, ParseBacks(c, s).1);
    }
  }

  lemma LineCases(s: string)
    requires ParseLine(s).Ok?
    ensures ParsePipe(s).Ok?
    ensures var y := ParseBacks(ParsePipe(s).value, ParsePipe(s).rest).1; Lean(y) ==>
              if !Peek(y, ";") then ParseLine(s).rest == y
              else ParseLine(GetToken(y).1).Ok? && ParseLine(s).rest == ParseLine(GetToken(y).1).rest
  {
    hide Peek, ParsePipe, GetToken, ParseBacks;
  }

  lemma LineShown(s: string) returns (l: Line)
    requires ParseLine(s).Ok? && CString(s)
    ensures LineOk(l) && s == SayLine(l) + ParseLine(s).rest && Lean(ParseLine(s).rest)
    decreases |s|, 3
  {
    hide GetToken, Peek, ParsePipe, ParseBacks, CString, SayPipe, PipeOk, Trim, SayAmps;
    LineCases(s);
    hide ParseLine;
    var p := PipeShown(s);
    var amps := BacksShown(ParsePipe(s).value, ParsePipe(s).rest);
    var g := Group(p, amps);
    var y := ParseBacks(ParsePipe(s).value, ParsePipe(s).rest).1;
    assert s == SayGroup(g) + y;
    if !Peek(y, ";") {
      l := Last(g);
    } else {
      CStringParts(SayGroup(g), y);
      var nosp, w := SymShown(y, ';');
      CStringParts(";", w);
      LineTrim(w);
      var next := LineShown(w);
      l := Then(g, next);
      assert SayGroup(g) + (";" + (SayLine(next) + ParseLine(w).rest)) == SayGroup(g) + (";" + SayLine(next)) + ParseLine(w).rest;
    }
  }

  /** The parser accepts a line exactly when it can be typed, and then returns the tree of whichever way
      of typing it: no line has two readings. */
  lemma Accepted(s: string)
    requires CString(s)
    ensures ParseCmd(s).Ok? <==> exists l :: LineOk(l) && SayLine(l) == s
    ensures forall l :: LineOk(l) && SayLine(l) == s ==> ParseCmd(s) == Ok(LineTree(l), [])
  {
    hide SayLine, LineOk, LineTree, ParseLine;
    forall l | LineOk(l) && SayLine(l) == s ensures ParseCmd(s) == Ok(LineTree(l), []) { TypedLine(l); }
    if ParseCmd(s).Ok? {
      var l := LineShown(s);
      assert SayLine(l) + [] == SayLine(l);
      assert LineOk(l) && SayLine(l) == s;
    }
  }
}
