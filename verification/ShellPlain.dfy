/** Command lines as they are typed: words and redirections in any order, operands with and without
    parentheses, white space where it is free.  Text and tree are written down here on their own;
    the parser is shown to lead from one to the other. */
module ShellPlain {
  import opened CStrings
  import opened Shell
  import ShellPrint

  // ---- the text ----

  predicate Blank(s: string) { forall k :: 0 <= k < |s| ==> Space(s[k]) }

  datatype Arrow = In | Out | Append

  /** A word or a redirection, and the white space after it (and after the arrow). */
  datatype Item = Arg(w: string, post: string) | Red(how: Arrow, mid: string, file: string, post: string)

  datatype Operand =
    | Simple(lead: string, items: seq<Item>)
    | Block(lead: string, line: Line, post: string, reds: seq<Item>)

  datatype Pipeline = One(op: Operand) | Bar(op: Operand, next: Pipeline)

  /** A pipeline and the white space after each of its '&'. */
  datatype Group = Group(pipe: Pipeline, amps: seq<string>)

  datatype Line = Last(g: Group) | Then(g: Group, next: Line)

  function Sign(how: Arrow): (s: string)
    ensures s != []
  {
    match how
    case In => "<"
    case Out => ">"
    case Append => ">>"
  }

  function SayItem(it: Item): (s: string)
  {
    match it
    case Arg(w, post) => w + post
    case Red(how, mid, file, post) => Sign(how) + (mid + (file + post))
  }

  function SayItems(items: seq<Item>): string {
    if items == [] then [] else SayItem(items[0]) + SayItems(items[1..])
  }

  function SayOperand(op: Operand): string {
    match op
    case Simple(lead, items) => lead + SayItems(items)
    case Block(lead, line, post, reds) => lead + ("(" + (SayLine(line) + (")" + (post + SayItems(reds)))))
  }

  function SayPipe(p: Pipeline): string {
    match p
    case One(op) => SayOperand(op)
    case Bar(op, next) => SayOperand(op) + ("|" + SayPipe(next))
  }

  function SayAmps(amps: seq<string>): string {
    if amps == [] then [] else "&" + (amps[0] + SayAmps(amps[1..]))
  }

  function SayGroup(g: Group): string { SayPipe(g.pipe) + SayAmps(g.amps) }

  function SayLine(l: Line): string {
    match l
    case Last(g) => SayGroup(g)
    case Then(g, next) => SayGroup(g) + (";" + SayLine(next))
  }

  // ---- what may be written ----

  predicate ItemOk(it: Item) {
    match it
    case Arg(w, post) => LegalWord(w) && Blank(post)
    case Red(_, mid, file, post) => Blank(mid) && LegalWord(file) && Blank(post)
  }

  /** A word needs white space before it, unless it comes first. */
  predicate ItemsOk(items: seq<Item>) {
    && (forall k :: 0 <= k < |items| ==> ItemOk(items[k]))
    && (forall k :: 0 <= k < |items| - 1 && items[k + 1].Arg? ==> items[k].post != [])
  }

  predicate OperandOk(op: Operand) {
    match op
    case Simple(lead, items) => Blank(lead) && ItemsOk(items) && |Args(items)| < MAXARGS
    case Block(lead, line, post, reds) =>
      Blank(lead) && LineOk(line) && Blank(post) && ItemsOk(reds) && forall k :: 0 <= k < |reds| ==> reds[k].Red?
  }

  predicate PipeOk(p: Pipeline) {
    match p
    case One(op) => OperandOk(op)
    case Bar(op, next) => OperandOk(op) && PipeOk(next)
  }

  predicate GroupOk(g: Group) { PipeOk(g.pipe) && forall k :: 0 <= k < |g.amps| ==> Blank(g.amps[k]) }

  predicate LineOk(l: Line) {
    match l
    case Last(g) => GroupOk(g)
    case Then(g, next) => GroupOk(g) && LineOk(next)
  }

  // ---- the tree ----

  function ArgOf(it: Item): seq<string> { if it.Arg? then [it.w] else [] }

  /** '<' opens for reading as descriptor 0, '>' and '>>' for writing as 1. */
  function RedOf(it: Item): seq<Redirection> {
    if it.Arg? then [] else [if it.how == In then To(it.file, 0, 0) else To(it.file, 0x201, 1)]
  }

  /** The words, in order. */
  function Args(items: seq<Item>): seq<string> {
    if items == [] then [] else ArgOf(items[0]) + Args(items[1..])
  }

  /** The redirections, in order. */
  function Reds(items: seq<Item>): seq<Redirection> {
    if items == [] then [] else RedOf(items[0]) + Reds(items[1..])
  }

  /** A command inside redirections, the first of them innermost. */
  function Inside(c: Cmd, rs: seq<Redirection>): Cmd
    decreases |rs|
  {
    if rs == [] then c else Inside(Redir(c, rs[0]), rs[1..])
  }

  function OperandTree(op: Operand): Cmd {
    match op
    case Simple(_, items) => Inside(Exec(Args(items)), Reds(items))
    case Block(_, line, _, reds) => Inside(LineTree(line), Reds(reds))
  }

  /** a | b | c is a | (b | c). */
  function PipeTree(p: Pipeline): Cmd {
    match p
    case One(op) => OperandTree(op)
    case Bar(op, next) => Pipe(OperandTree(op), PipeTree(next))
  }

  function Backs(c: Cmd, n: nat): Cmd { if n == 0 then c else Back(Backs(c, n - 1)) }

  function GroupTree(g: Group): Cmd { Backs(PipeTree(g.pipe), |g.amps|) }

  /** a ; b & ; c is a ; ((b &) ; c). */
  function LineTree(l: Line): Cmd {
    match l
    case Last(g) => GroupTree(g)
    case Then(g, next) => List(GroupTree(g), LineTree(next))
  }

  // ---- white space and tokens ----

  predicate Lean(s: string) { s == [] || !Space(s[0]) }

  lemma {:induction false} TrimBlank(sp: string, s: string)
    requires Blank(sp) && Lean(s)
    ensures Trim(sp + s) == s
  {
    if sp == [] {
      assert sp + s == s;
    } else {
      assert (sp + s)[1..] == sp[1..] + s;
      TrimBlank(sp[1..], s);
    }
  }

  lemma TrimTwice(s: string)
    ensures Trim(Trim(s)) == Trim(s)
  {
  }

  lemma SameTokens(s: string)
    ensures GetToken(Trim(s)) == GetToken(s) && forall toks :: Peek(Trim(s), toks) <==> Peek(s, toks)
  {
    TrimTwice(s);
  }

  lemma RedirsTrim(s: string)
    ensures ParseRedirs(Trim(s)) == ParseRedirs(s)
  {
    SameTokens(s);
    TrimTwice(s);
  }

  lemma ExecTrim(s: string)
    ensures ParseExec(Trim(s)) == ParseExec(s)
  {
    SameTokens(s);
    RedirsTrim(s);
  }

  lemma PipeTrim(s: string)
    ensures ParsePipe(Trim(s)) == ParsePipe(s)
  {
    ExecTrim(s);
  }

  lemma LineTrim(s: string)
    ensures ParseLine(Trim(s)) == ParseLine(s)
  {
    PipeTrim(s);
  }

  lemma SymToken(c: char, w: string)
    requires Symbol(c) && c != '>'
    ensures GetToken([c] + w) == (Sym(c), Trim(w)) && Trim([c] + w) == [c] + w
    ensures forall toks :: Peek([c] + w, toks) <==> c in toks
  {
    assert ([c] + w)[1..] == w;
  }

  function ArrowToken(how: Arrow): Token {
    match how
    case In => Sym('<')
    case Out => Sym('>')
    case Append => Token.Append
  }

  lemma ArrowLex(how: Arrow, y: string)
    requires y != [] && y[0] != '>'
    ensures var t := Sign(how) + y;
      Trim(t) == t && Lex(t) == (ArrowToken(how), |Sign(how)|) && t[|Sign(how)|..] == y && t[0] == if how == In then '<' else '>'
  {
  }

  lemma ArrowRead(how: Arrow, sp: string, x: string)
    requires Blank(sp) && Lean(x) && x != [] && x[0] != '>'
    ensures GetToken(Sign(how) + (sp + x)) == (ArrowToken(how), x)
    ensures forall toks :: Peek(Sign(how) + (sp + x), toks) <==> (if how == In then '<' else '>') in toks
  {
    TrimBlank(sp, x);
    ArrowLex(how, sp + x);
    hide Sign, Trim, Lex, ArrowToken;
  }

  lemma WordRead(w: string, post: string, x: string)
    requires LegalWord(w) && Blank(post) && Lean(x) && (post == [] ==> x == [] || !WordChar(x[0]))
    ensures GetToken(w + (post + x)) == (Word(w), x)
    ensures forall toks :: Peek(w + (post + x), toks) <==> w[0] in toks
  {
    var rest := post + x;
    assert rest == [] || !WordChar(rest[0]);
    ShellPrint.WordToken(w, rest);
    TrimBlank(post, x);
  }

  // ---- redirections ----

  /** What can follow an operand. */
  predicate Ends(x: string) { x == [] || x[0] in "|)&;" }

  function Lead(items: seq<Item>): (n: nat)
    ensures n <= |items| && (n < |items| ==> items[n].Arg?) && forall k :: 0 <= k < n ==> items[k].Red?
  {
    if items == [] || items[0].Arg? then 0 else 1 + Lead(items[1..])
  }

  lemma ItemsRest(items: seq<Item>, n: nat)
    requires ItemsOk(items) && n <= |items|
    ensures ItemsOk(items[n..])
  {
    var r := items[n..];
    forall k | 0 <= k < |r| - 1 && r[k + 1].Arg? ensures r[k].post != [] {
      assert items[n + k + 1].Arg?;
    }
  }

  /** The text of items begins with a character of a word or an arrow, never with white space. */
  lemma ItemsLean(items: seq<Item>, x: string)
    requires ItemsOk(items) && Ends(x)
    ensures Lean(SayItems(items) + x)
    ensures items != [] && items[0].Arg? ==> SayItems(items) + x != [] && (SayItems(items) + x)[0] == items[0].w[0]
    ensures items == [] || items[0].Red? ==> SayItems(items) + x == [] || !WordChar((SayItems(items) + x)[0])
  {
    if items != [] {
      assert ItemOk(items[0]);
    } else {
      assert SayItems(items) + x == x;
    }
  }

  lemma RedirsStep(s: string, k: Token, s1: string, file: string, y: string)
    requires Peek(s, "<>") && GetToken(s) == (k, s1) && GetToken(s1) == (Word(file), y) && ParseRedirs(y).Ok?
    ensures ParseRedirs(s) == Ok([Target(k, file)] + ParseRedirs(y).value, ParseRedirs(y).rest)
  {
    hide GetToken, Peek;
  }

  lemma RedIs(it: Item)
    requires it.Red?
    ensures Reds([it]) == [Target(ArrowToken(it.how), it.file)]
  {
    assert [it][1..] == [];
  }

  /** One redirection in front of y. */
  lemma RedStep(it: Item, y: string)
    requires it.Red? && ItemOk(it) && Lean(y) && (it.post == [] ==> y == [] || !WordChar(y[0])) && ParseRedirs(y).Ok?
    ensures var r, s := ParseRedirs(y), Sign(it.how) + (it.mid + (it.file + (it.post + y)));
      ParseRedirs(s) == Ok(Reds([it]) + r.value, r.rest)
  {
    hide GetToken, Peek, Sign, ParseRedirs, Reds;
    var f := it.file + (it.post + y);
    var s := Sign(it.how) + (it.mid + f);
    WordRead(it.file, it.post, y);
    assert f[0] == it.file[0] && WordChar(f[0]);
    ArrowRead(it.how, it.mid, f);
    RedIs(it);
    RedirsStep(s, ArrowToken(it.how), f, it.file, y);
  }

  lemma RedsCons(items: seq<Item>, n: nat)
    requires 0 < n <= |items|
    ensures Reds(items[..n]) == Reds([items[0]]) + Reds(items[1..][..n - 1]) && items[n..] == items[1..][n - 1..]
  {
    FirstItem(items, n);
    assert [items[0]][1..] == [];
  }

  lemma {:induction false} RedsRead(items: seq<Item>, x: string)
    requires ItemsOk(items) && Ends(x)
    ensures var n := Lead(items); ParseRedirs(SayItems(items) + x) == Ok(Reds(items[..n]), SayItems(items[n..]) + x)
  {
    if items == [] || items[0].Arg? {
      assert items[0..] == items && items[..0] == [];
      ItemsLean(items, x);
      NoArrow(items, x);
      hide SayItems, ItemsOk;
    } else {
      var it, rest := items[0], items[1..];
      ItemsRest(items, 1);
      RedsRead(rest, x);
      ItemsLean(rest, x);
      ItemGap(items);
      RedText(it, SayItems(rest), x);
      RedsCons(items, Lead(rest) + 1);
      assert SayItems(items) == SayItem(it) + SayItems(rest);
      assert Lead(items) == Lead(rest) + 1;
      hide SayItems, ItemsOk, ParseRedirs, Reds, SayItem, Lead;
      RedStep(it, SayItems(rest) + x);
    }
  }

  lemma ItemGap(items: seq<Item>)
    requires ItemsOk(items) && items != []
    ensures ItemOk(items[0]) && (items[1..] != [] && items[1..][0].Arg? ==> items[0].post != [])
  {
  }

  lemma RedText(it: Item, rest: string, x: string)
    requires it.Red?
    ensures SayItem(it) + rest + x == Sign(it.how) + (it.mid + (it.file + (it.post + (rest + x))))
  {
  }

  lemma NoArrow(items: seq<Item>, x: string)
    requires ItemsOk(items) && Ends(x) && (items == [] || items[0].Arg?)
    ensures !Peek(SayItems(items) + x, "<>")
  {
    ItemsLean(items, x);
    if items != [] { assert ItemOk(items[0]) && WordChar(items[0].w[0]); } else { assert SayItems(items) + x == x; }
  }

  // ---- words ----

  lemma ArgsStep(argv: seq<string>, rs: seq<Redirection>, s: string, w: string, y: string)
    requires !Peek(s, "|)&;") && GetToken(s) == (Word(w), y) && ParseRedirs(y).Ok?
    ensures ParseArgs(argv, rs, s) ==
      if |argv| + 1 >= MAXARGS then Panic("too many args")
      else ParseArgs(argv + [w], rs + ParseRedirs(y).value, ParseRedirs(y).rest)
  {
    hide GetToken, Peek, ParseRedirs;
  }

  lemma ArgsEnd(argv: seq<string>, rs: seq<Redirection>, x: string)
    requires Ends(x)
    ensures ParseArgs(argv, rs, x) == Ok(Wrap(Exec(argv), rs), x)
  {
    if x == [] { assert GetToken(x) == (End, []); } else { assert Peek(x, "|)&;"); }
  }

  lemma FirstItem(items: seq<Item>, n: nat)
    requires 0 < n <= |items|
    ensures Args(items[..n]) == ArgOf(items[0]) + Args(items[1..][..n - 1])
    ensures Reds(items[..n]) == RedOf(items[0]) + Reds(items[1..][..n - 1])
    ensures items[n..] == items[1..][n - 1..]
  {
    assert items[..n][0] == items[0] && items[..n][1..] == items[1..][..n - 1];
    hide ArgOf, RedOf;
  }

  lemma {:induction false} ItemsSplit(items: seq<Item>, n: nat)
    requires n <= |items|
    ensures Args(items) == Args(items[..n]) + Args(items[n..]) && Reds(items) == Reds(items[..n]) + Reds(items[n..])
    decreases n
  {
    hide ArgOf, RedOf;
    if n == 0 {
      assert items[..0] == [] && items[0..] == items;
    } else {
      ItemsSplit(items[1..], n - 1);
      FirstItem(items, n);
      assert Args(items) == ArgOf(items[0]) + Args(items[1..]) && Reds(items) == RedOf(items[0]) + Reds(items[1..]);
      hide Args, Reds;
    }
  }

  lemma {:induction false} NoArgs(items: seq<Item>)
    requires forall k :: 0 <= k < |items| ==> items[k].Red?
    ensures Args(items) == []
  {
    if items != [] { NoArgs(items[1..]); }
  }

  /** The loop of parseexec from a word on. */
  lemma {:induction false} ArgsRead(argv: seq<string>, rs: seq<Redirection>, items: seq<Item>, x: string)
    requires ItemsOk(items) && Ends(x) && (items == [] || items[0].Arg?) && |argv| < MAXARGS
    ensures ParseArgs(argv, rs, SayItems(items) + x) ==
      if |argv| + |Args(items)| < MAXARGS then Ok(Wrap(Exec(argv + Args(items)), rs + Reds(items)), x)
      else Panic("too many args")
    decreases |items|
  {
    hide SayItems, ItemsOk, ParseRedirs, ParseArgs, Reds, Args, Lead, GetToken, Peek, Wrap, Ends;
    if items == [] {
      ArgsNone(argv, rs, items, x);
    } else {
      var it, rest := items[0], items[1..];
      var y, n := SayItems(rest) + x, Lead(rest);
      var after, more := rest[n..], Reds(rest[..n]);
      ItemsRest(items, 1);
      ItemsRest(rest, n);
      WordFirst(items, x);
      RedsRead(rest, x);
      OneWord(items, n);
      ArgsStep(argv, rs, SayItems(items) + x, it.w, y);
      if |argv| + 1 < MAXARGS {
        ArgsRead(argv + [it.w], rs + more, after, x);
        assert argv + [it.w] + Args(after) == argv + Args(items);
        assert rs + more + Reds(after) == rs + Reds(items);
      }
    }
  }

  lemma ArgsNone(argv: seq<string>, rs: seq<Redirection>, items: seq<Item>, x: string)
    requires items == [] && Ends(x) && |argv| < MAXARGS
    ensures Args(items) == [] && Reds(items) == []
    ensures ParseArgs(argv, rs, SayItems(items) + x) == Ok(Wrap(Exec(argv + Args(items)), rs + Reds(items)), x)
  {
    assert SayItems(items) + x == x && argv + [] == argv && rs + [] == rs;
    ArgsEnd(argv, rs, x);
  }

  lemma OneWord(items: seq<Item>, n: nat)
    requires items != [] && items[0].Arg? && n == Lead(items[1..])
    ensures var after := items[1..][n..];
      Args(items) == [items[0].w] + Args(after) && Reds(items) == Reds(items[1..][..n]) + Reds(after)
  {
    var rest := items[1..];
    assert Args(items) == [items[0].w] + Args(rest) && Reds(items) == [] + Reds(rest);
    hide Args, Reds, ArgOf, RedOf;
    ItemsSplit(rest, n);
    NoArgs(rest[..n]);
    assert [] + Args(rest[n..]) == Args(rest[n..]) && [] + Reds(rest) == Reds(rest);
  }

  lemma ArgText(it: Item, rest: string, x: string)
    requires it.Arg?
    ensures SayItem(it) + rest + x == it.w + (it.post + (rest + x))
  {
  }

  lemma WordFirst(items: seq<Item>, x: string)
    requires ItemsOk(items) && Ends(x) && items != [] && items[0].Arg?
    ensures var s, y := SayItems(items) + x, SayItems(items[1..]) + x;
      !Peek(s, "|)&;(") && GetToken(s) == (Word(items[0].w), y) && !Peek(s, "|)&;")
  {
    var it, rest := items[0], items[1..];
    var y := SayItems(rest) + x;
    assert SayItems(items) == SayItem(it) + SayItems(rest);
    hide SayItems, GetToken, Peek;
    ArgText(it, SayItems(rest), x);
    ItemsRest(items, 1);
    ItemsLean(rest, x);
    ItemGap(items);
    hide ItemsOk, Ends;
    WordRead(it.w, it.post, y);
    assert WordChar(it.w[0]);
  }

  // ---- operands ----

  lemma {:induction false} WrapSnoc(c: Cmd, r: Redirection, rs: seq<Redirection>)
    ensures Wrap(Redir(c, r), rs) == Wrap(c, [r] + rs)
    decreases |rs|
  {
    var all := [r] + rs;
    if rs == [] {
      assert all[..0] == [];
    } else {
      WrapSnoc(c, r, rs[..|rs| - 1]);
      assert all[..|all| - 1] == [r] + rs[..|rs| - 1];
    }
  }

  lemma {:induction false} InsideWrap(c: Cmd, rs: seq<Redirection>)
    ensures Inside(c, rs) == Wrap(c, rs)
    decreases |rs|
  {
    if rs != [] {
      InsideWrap(Redir(c, rs[0]), rs[1..]);
      WrapSnoc(c, rs[0], rs[1..]);
      assert [rs[0]] + rs[1..] == rs;
    }
  }

  lemma SimpleRead(items: seq<Item>, x: string)
    requires ItemsOk(items) && Ends(x)
    ensures ParseExec(SayItems(items) + x) ==
      if |Args(items)| < MAXARGS then Ok(Inside(Exec(Args(items)), Reds(items)), x) else Panic("too many args")
  {
    var s, n := SayItems(items) + x, Lead(items);
    NoBlock(items, x);
    RedsRead(items, x);
    ItemsRest(items, n);
    ItemsSplit(items, n);
    NoArgs(items[..n]);
    assert [] + Args(items[n..]) == Args(items);
    InsideWrap(Exec(Args(items)), Reds(items));
    hide SayItems, ItemsOk, ParseRedirs, ParseArgs, Reds, Args, Lead, GetToken, Peek;
    ArgsRead([], Reds(items[..n]), items[n..], x);
  }

  lemma NoBlock(items: seq<Item>, x: string)
    requires ItemsOk(items) && Ends(x)
    ensures !Peek(SayItems(items) + x, "(")
  {
    ItemsLean(items, x);
    if items == [] {
      assert SayItems(items) + x == x;
    } else if items[0].Arg? {
      assert ItemOk(items[0]) && WordChar(items[0].w[0]);
    } else {
      assert (SayItems(items) + x)[0] == Sign(items[0].how)[0];
    }
  }

  lemma BlockStep(z: string, inner: string, c: Cmd, close: string, t: string)
    requires Peek(z, "(") && GetToken(z).1 == inner && ParseLine(inner) == Ok(c, close)
    requires Peek(close, ")") && GetToken(close).1 == t && ParseRedirs(t).Ok?
    ensures ParseExec(z) == Ok(Wrap(c, ParseRedirs(t).value), ParseRedirs(t).rest)
  {
    hide GetToken, Peek, ParseRedirs, ParseLine;
  }

  lemma {:induction false} AllLead(items: seq<Item>)
    requires forall k :: 0 <= k < |items| ==> items[k].Red?
    ensures Lead(items) == |items|
  {
    if items != [] { AllLead(items[1..]); }
  }

  /** A list of redirections alone. */
  lemma OnlyReds(items: seq<Item>, x: string)
    requires ItemsOk(items) && Ends(x) && forall k :: 0 <= k < |items| ==> items[k].Red?
    ensures ParseRedirs(SayItems(items) + x) == Ok(Reds(items), x)
  {
    RedsRead(items, x);
    AllLead(items);
    assert items[..|items|] == items && items[|items|..] == [];
    assert SayItems([]) + x == x;
  }

  lemma BlockText(lead: string, line: string, post: string, reds: string, x: string)
    ensures lead + ("(" + (line + (")" + (post + reds)))) + x == lead + ("(" + (line + (")" + (post + (reds + x)))))
  {
  }

  lemma OperandRead(op: Operand, x: string)
    requires OperandOk(op) && Ends(x)
    ensures ParseExec(SayOperand(op) + x) == Ok(OperandTree(op), x)
    decreases op
  {
    match op
    case Simple(lead, items) =>
      var z := SayItems(items) + x;
      assert SayOperand(op) + x == lead + z;
      hide SayOperand, SayItems, ParseExec, ItemsOk, Ends, Args, Reds;
      ItemsLean(items, x);
      TrimBlank(lead, z);
      ExecTrim(lead + z);
      SimpleRead(items, x);
    case Block(lead, line, post, reds) =>
      var y := post + (SayItems(reds) + x);
      var w := SayLine(line) + (")" + y);
      BlockText(lead, SayLine(line), post, SayItems(reds), x);
      assert SayOperand(op) + x == lead + ("(" + w);
      LineRead(line, ")" + y);
      hide SayOperand, SayItems, ParseExec, ItemsOk, Ends, Args, Reds, SayLine, ParseLine, ParseRedirs, GetToken, Peek, LineOk;
      TrimBlank(lead, "(" + w);
      ExecTrim(lead + ("(" + w));
      SymToken('(', w);
      LineTrim(w);
      SymToken(')', y);
      ItemsLean(reds, x);
      TrimBlank(post, SayItems(reds) + x);
      OnlyReds(reds, x);
      BlockStep("(" + w, Trim(w), LineTree(line), ")" + y, SayItems(reds) + x);
      InsideWrap(LineTree(line), Reds(reds));
  }

  // ---- pipelines, '&' and ';' ----

  lemma PipeEnd(s: string, c: Cmd, x: string)
    requires ParseExec(s) == Ok(c, x) && Lean(x) && (x == [] || x[0] != '|')
    ensures ParsePipe(s) == Ok(c, x)
  {
    hide ParseExec, GetToken;
  }

  lemma PipeStep(s: string, c: Cmd, w: string, d: Cmd, x: string)
    requires ParseExec(s) == Ok(c, "|" + w) && ParsePipe(w) == Ok(d, x)
    ensures ParsePipe(s) == Ok(Pipe(c, d), x)
  {
    SymToken('|', w);
    PipeTrim(w);
    hide ParseExec, GetToken, Peek, Trim;
  }

  lemma PipeRead(p: Pipeline, x: string)
    requires PipeOk(p) && (x == [] || x[0] in ")&;")
    ensures ParsePipe(SayPipe(p) + x) == Ok(PipeTree(p), x)
    decreases p
  {
    hide ParsePipe, ParseExec, SayOperand, OperandOk;
    match p
    case One(op) =>
      OperandRead(op, x);
      PipeEnd(SayPipe(p) + x, OperandTree(op), x);
    case Bar(op, next) =>
      var w := SayPipe(next) + x;
      assert SayPipe(p) + x == SayOperand(op) + ("|" + w);
      OperandRead(op, "|" + w);
      PipeRead(next, x);
      PipeStep(SayPipe(p) + x, OperandTree(op), w, PipeTree(next), x);
  }

  lemma {:induction false} BacksShift(c: Cmd, n: nat)
    ensures Backs(Back(c), n) == Back(Backs(c, n))
  {
    if n > 0 { BacksShift(c, n - 1); }
  }

  lemma BacksTrim(c: Cmd, s: string)
    ensures ParseBacks(c, Trim(s)) == ParseBacks(c, s)
  {
    SameTokens(s);
    TrimTwice(s);
  }

  lemma BacksStep(c: Cmd, w: string)
    ensures ParseBacks(c, "&" + w) == ParseBacks(Back(c), w)
  {
    SymToken('&', w);
    BacksTrim(Back(c), w);
    hide GetToken, Peek, Trim;
  }

  lemma {:induction false} BacksRead(c: Cmd, amps: seq<string>, x: string)
    requires (forall k :: 0 <= k < |amps| ==> Blank(amps[k])) && Lean(x) && (x == [] || x[0] != '&')
    ensures ParseBacks(c, SayAmps(amps) + x) == (Backs(c, |amps|), x)
    decreases |amps|
  {
    if amps == [] {
      assert SayAmps(amps) + x == x;
    } else {
      var y := SayAmps(amps[1..]) + x;
      assert SayAmps(amps) + x == "&" + (amps[0] + y);
      assert Lean(y) by { if amps[1..] == [] { assert y == x; } }
      BacksRead(Back(c), amps[1..], x);
      BacksShift(c, |amps| - 1);
      hide ParseBacks, SayAmps;
      BacksStep(c, amps[0] + y);
      TrimBlank(amps[0], y);
      BacksTrim(Back(c), amps[0] + y);
    }
  }

  function Final(l: Line): Group {
    match l
    case Last(g) => g
    case Then(_, next) => Final(next)
  }

  /** What can follow a line that the parser takes for all of it: nothing, the end of a block, or
      after a last '&' whatever does not continue it. */
  predicate Stop(l: Line, x: string) {
    x == [] || x[0] == ')' || (Final(l).amps != [] && !Space(x[0]) && x[0] != '&' && x[0] != ';')
  }

  lemma LineStep(s: string, c: Cmd, amps: string, d: Cmd, x: string)
    requires ParsePipe(s) == Ok(c, amps) && ParseBacks(c, amps) == (d, x) && Lean(x)
    ensures x == [] || x[0] != ';' ==> ParseLine(s) == Ok(d, x)
    ensures forall w, e, y :: x == ";" + w && ParseLine(w) == Ok(e, y) ==> ParseLine(s) == Ok(List(d, e), y)
  {
    hide ParsePipe, ParseBacks, GetToken;
    forall w, e, y | x == ";" + w && ParseLine(w) == Ok(e, y) ensures ParseLine(s) == Ok(List(d, e), y) {
      SymToken(';', w);
      LineTrim(w);
    }
  }

  lemma GroupRead(g: Group, x: string)
    requires GroupOk(g) && Lean(x) && (x == [] || (x[0] != '&' && (g.amps == [] ==> x[0] in ");")))
    ensures var s := SayGroup(g) + x; exists amps :: ParsePipe(s) == Ok(PipeTree(g.pipe), amps) && ParseBacks(PipeTree(g.pipe), amps) == (GroupTree(g), x)
    decreases g
  {
    var y := SayAmps(g.amps) + x;
    assert SayGroup(g) + x == SayPipe(g.pipe) + y;
    if g.amps == [] { assert y == x; } else { assert y[0] == '&'; }
    hide ParsePipe, SayAmps, SayPipe, PipeOk, ParseBacks;
    PipeRead(g.pipe, y);
    BacksRead(PipeTree(g.pipe), g.amps, x);
  }

  lemma LineRead(l: Line, x: string)
    requires LineOk(l) && Stop(l, x)
    ensures ParseLine(SayLine(l) + x) == Ok(LineTree(l), x)
    decreases l
  {
    hide ParsePipe, ParseBacks, ParseLine, SayGroup, GroupOk, GroupTree, PipeTree;
    match l
    case Last(g) =>
      GroupRead(g, x);
      var amps :| ParsePipe(SayGroup(g) + x) == Ok(PipeTree(g.pipe), amps) && ParseBacks(PipeTree(g.pipe), amps) == (GroupTree(g), x);
      LineStep(SayGroup(g) + x, PipeTree(g.pipe), amps, GroupTree(g), x);
    case Then(g, next) =>
      var w := SayLine(next) + x;
      assert SayLine(l) + x == SayGroup(g) + (";" + w);
      LineRead(next, x);
      GroupRead(g, ";" + w);
      var amps :| ParsePipe(SayGroup(g) + (";" + w)) == Ok(PipeTree(g.pipe), amps) && ParseBacks(PipeTree(g.pipe), amps) == (GroupTree(g), ";" + w);
      LineStep(SayGroup(g) + (";" + w), PipeTree(g.pipe), amps, GroupTree(g), ";" + w);
  }

  /** Every line that can be typed is parsed to its tree, all of it. */
  lemma TypedLine(l: Line)
    requires LineOk(l)
    ensures ParseCmd(SayLine(l)) == Ok(LineTree(l), [])
  {
    LineRead(l, []);
    assert SayLine(l) + [] == SayLine(l);
  }

  /** After a '&' the parser expects ';' or the end: `a & b` is an error. */
  lemma Leftovers(l: Line, x: string)
    requires LineOk(l) && Final(l).amps != [] && x != [] && !Space(x[0]) && x[0] != '&' && x[0] != ';'
    ensures ParseCmd(SayLine(l) + x) == Panic("syntax")
  {
    LineRead(l, x);
  }
}
