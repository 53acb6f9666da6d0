/** The regular-expression matcher of grep.c, against a declarative language of patterns. */
module Grep {
  import opened CStrings

  /** s[k], where the terminator is the character after the last. */
  function At(s: seq<char>, k: nat): char { if k < |s| then s[k] else '\0' }

  // ---- what a pattern means ----

  datatype Item = One(c: char) | Any | Star(c: char) | AnyStar

  /** atStart and atEnd are the anchors '^' and '$'. */
  datatype Pattern = Pattern(atStart: bool, items: seq<Item>, atEnd: bool)

  predicate All(c: char, w: seq<char>) { forall k :: 0 <= k < |w| ==> w[k] == c }

  /** The strings one item stands for. */
  predicate Stands(it: Item, w: seq<char>) {
    match it
    case One(c) => w == [c]
    case Any => |w| == 1
    case Star(c) => All(c, w)
    case AnyStar => true
  }

  /** The strings a sequence of items stands for: a string for each item, one after another. */
  ghost predicate In(items: seq<Item>, w: seq<char>)
    decreases |items|
  {
    if items == [] then w == []
    else exists k :: 0 <= k <= |w| && Stands(items[0], w[..k]) && In(items[1..], w[k..])
  }

  /** The language of the pattern has text[i..j], where the anchors allow. */
  ghost predicate Occurs(p: Pattern, text: seq<char>, i: nat, j: nat) {
    && i <= j <= |text|
    && (p.atStart ==> i == 0)
    && (p.atEnd ==> j == |text|)
    && In(p.items, text[i..j])
  }

  ghost predicate Matches(p: Pattern, text: seq<char>) {
    exists i, j :: Occurs(p, text, i, j)
  }

  // ---- reading a pattern ----

  function StarOf(c: char): Item { if c == '.' then AnyStar else Star(c) }
  function OneOf(c: char): Item { if c == '.' then Any else One(c) }

  /** '$' is an anchor only as the last character, and '*' repeats the character before it;
      anywhere else they stand for themselves, as '^' does after the first character. */
  function Tail(re: seq<char>): Pattern
    decreases |re|
  {
    if re == [] then Pattern(false, [], false)
    else if At(re, 1) == '*' then var p := Tail(re[2..]); p.(items := [StarOf(re[0])] + p.items)
    else if re == ['$'] then Pattern(false, [], true)
    else var p := Tail(re[1..]); p.(items := [OneOf(re[0])] + p.items)
  }

  function Read(re: seq<char>): Pattern {
    if At(re, 0) == '^' then Tail(re[1..]).(atStart := true) else Tail(re)
  }

  // ---- the matcher ----

  /** A match that begins at the start of the text and ends at j. */
  ghost predicate Here(p: Pattern, text: seq<char>, j: nat) {
    j <= |text| && (p.atEnd ==> j == |text|) && In(p.items, text[..j])
  }

  ghost predicate Starts(p: Pattern, text: seq<char>) {
    exists j :: Here(p, text, j)
  }

  lemma TailFloats(re: seq<char>)
    ensures !Tail(re).atStart
  {
  }

  /** Consuming one character: the rest must match the rest. */
  lemma OneStep(c: char, p: Pattern, q: Pattern, text: seq<char>)
    requires q == p.(items := [OneOf(c)] + p.items)
    ensures Starts(q, text) <==> text != [] && (c == '.' || text[0] == c) && Starts(p, text[1..])
  {
    assert q.items[1..] == p.items;
    if Starts(q, text) {
      var j: nat :| Here(q, text, j);
      var w := text[..j];
      var k :| 0 <= k <= |w| && Stands(q.items[0], w[..k]) && In(q.items[1..], w[k..]);
      assert w[..1] == [text[0]];
      assert w[1..] == text[1..][..j - 1];
      assert Here(p, text[1..], j - 1);
    }
    if text != [] && (c == '.' || text[0] == c) && Starts(p, text[1..]) {
      var j: nat :| Here(p, text[1..], j);
      var w := text[..j + 1];
      assert w[..1] == [text[0]];
      assert w[1..] == text[1..][..j];
      assert Stands(q.items[0], w[..1]) && In(q.items[1..], w[1..]);
      assert Here(q, text, j + 1);
    }
  }

  /** The first k characters may be taken by c*. */
  predicate Run(c: char, text: seq<char>, k: nat) {
    k <= |text| && (c == '.' || All(c, text[..k]))
  }

  ghost predicate StarsAt(c: char, p: Pattern, text: seq<char>, k: nat) {
    Run(c, text, k) && Starts(p, text[k..])
  }

  ghost predicate Stars(c: char, p: Pattern, text: seq<char>) {
    exists k :: StarsAt(c, p, text, k)
  }

  /** c* takes some run of c, and the rest must match the rest. */
  lemma StarStep(c: char, p: Pattern, q: Pattern, text: seq<char>)
    requires q == p.(items := [StarOf(c)] + p.items)
    ensures Starts(q, text) <==> Stars(c, p, text)
  {
    assert q.items[1..] == p.items;
    if Starts(q, text) {
      var j: nat :| Here(q, text, j);
      var w := text[..j];
      var k :| 0 <= k <= |w| && Stands(q.items[0], w[..k]) && In(q.items[1..], w[k..]);
      assert w[..k] == text[..k];
      assert w[k..] == text[k..][..j - k];
      assert Here(p, text[k..], j - k);
      assert StarsAt(c, p, text, k);
    }
    if Stars(c, p, text) {
      var k: nat :| StarsAt(c, p, text, k);
      var j: nat :| Here(p, text[k..], j);
      var w := text[..j + k];
      assert w[..k] == text[..k];
      assert w[k..] == text[k..][..j];
      assert Stands(q.items[0], w[..k]) && In(q.items[1..], w[k..]);
      assert Here(q, text, j + k);
    }
  }

  lemma EmptyStep(p: Pattern, text: seq<char>)
    requires p.items == []
    ensures Starts(p, text) <==> p.atEnd ==> text == []
  {
    if p.atEnd ==> text == [] {
      assert Here(p, text, 0);
    }
  }

  /** matchhere: does the text start with a match? */
  method MatchHere(re: seq<char>, text: seq<char>) returns (b: bool)
    requires CString(re) && CString(text)
    ensures b <==> Starts(Tail(re), text)
    decreases |re|, 0
  {
    if re == [] {
      EmptyStep(Tail(re), text);
      return true;
    }
    if At(re, 1) == '*' {
      var p := Tail(re[2..]);
      assert Tail(re) == p.(items := [StarOf(re[0])] + p.items);
      StarStep(re[0], p, Tail(re), text);
      b := MatchStar(re[0], re[2..], text);
      return;
    }
    if re[0] == '$' && At(re, 1) == '\0' {
      EmptyStep(Tail(re), text);
      return text == [];
    }
    OneStep(re[0], Tail(re[1..]), Tail(re), text);
    if text != [] && (re[0] == '.' || re[0] == text[0]) {
      b := MatchHere(re[1..], text[1..]);
      return;
    }
    return false;
  }

  lemma LongerRun(c: char, text: seq<char>, t: nat, k: nat)
    requires t < k && Run(c, text, k)
    ensures c == '.' || text[t] == c
  {
    assert text[..k][t] == text[t];
  }

  /** matchstar: does the text start with a run of c and then a match? */
  method MatchStar(c: char, re: seq<char>, text: seq<char>) returns (b: bool)
    requires CString(re) && CString(text)
    ensures b <==> Stars(c, Tail(re), text)
    decreases |re|, 1
  {
    var t := 0;
    while true
      invariant t <= |text| && Run(c, text, t)
      invariant forall k :: 0 <= k < t ==> !StarsAt(c, Tail(re), text, k)
      decreases |text| - t
    {
      b := MatchHere(re, text[t..]);
      if b {
        assert StarsAt(c, Tail(re), text, t);
        return;
      }
      forall k: nat | t < k && Run(c, text, k) ensures t < |text| && (c == '.' || text[t] == c) {
        LongerRun(c, text, t, k);
      }
      if t == |text| || (text[t] != c && c != '.') {
        return false;
      }
      t := t + 1;
    }
  }

  lemma OccursHere(p: Pattern, text: seq<char>, i: nat)
    requires i <= |text| && (p.atStart ==> i == 0)
    ensures Starts(p, text[i..]) <==> exists j :: Occurs(p, text, i, j)
  {
    if Starts(p, text[i..]) {
      var j: nat :| Here(p, text[i..], j);
      assert text[i..][..j] == text[i..i + j];
      assert Occurs(p, text, i, i + j);
    }
    if exists j :: Occurs(p, text, i, j) {
      var j: nat :| Occurs(p, text, i, j);
      assert text[i..][..j - i] == text[i..j];
      assert Here(p, text[i..], j - i);
    }
  }

  /** match: is some part of the text, where the anchors allow, in the pattern's language? */
  method Match(re: seq<char>, text: seq<char>) returns (b: bool)
    requires CString(re) && CString(text)
    ensures b <==> Matches(Read(re), text)
  {
    var p := Read(re);
    if At(re, 0) == '^' {
      b := MatchHere(re[1..], text);
      AnchoredAtStart(Tail(re[1..]), text);
      return;
    }
    TailFloats(re);
    var t := 0;
    while true
      invariant t <= |text|
      invariant forall i, j :: 0 <= i < t ==> !Occurs(p, text, i, j)
      decreases |text| - t
    {
      OccursHere(p, text, t);
      b := MatchHere(re, text[t..]);
      if b {
        return;
      }
      if t == |text| {
        return false;
      }
      t := t + 1;
    }
  }

  lemma AnchoredAtStart(p: Pattern, text: seq<char>)
    ensures Matches(p.(atStart := true), text) <==> Starts(p, text)
  {
    var q := p.(atStart := true);
    OccursHere(q, text, 0);
    assert text[0..] == text;
    assert forall j :: Here(p, text, j) <==> Here(q, text, j);
    if Matches(q, text) {
      var i: nat, j: nat :| Occurs(q, text, i, j);
      assert Occurs(q, text, 0, j);
    }
  }

  // ---- writing a pattern ----

  function ShowItem(it: Item): (s: seq<char>)
    ensures s != []
  {
    match it
    case One(c) => [c]
    case Any => ['.']
    case Star(c) => [c, '*']
    case AnyStar => ['.', '*']
  }

  function ShowTail(items: seq<Item>, atEnd: bool): seq<char> {
    if items == [] then if atEnd then ['$'] else []
    else ShowItem(items[0]) + ShowTail(items[1..], atEnd)
  }

  /** A pattern as grep is given it. */
  function Show(p: Pattern): seq<char> {
    (if p.atStart then ['^'] else []) + ShowTail(p.items, p.atEnd)
  }

  /** A dot is not one character but any, and NUL ends a string. */
  predicate Sayable(it: Item) {
    (it.One? || it.Star?) ==> it.c != '.' && it.c != '\0'
  }

  predicate Once(it: Item) { it.One? || it.Any? }

  /** A single character with a star after it, or a last '$', would be read as something else. */
  predicate Plainly(items: seq<Item>, atEnd: bool) {
    && (forall k :: 0 <= k < |items| ==> Sayable(items[k]))
    && (forall k :: 0 <= k < |items| - 1 && Once(items[k]) ==> items[k + 1] != One('*') && items[k + 1] != Star('*'))
    && (items != [] && !atEnd ==> items[|items| - 1] != One('$'))
  }

  /** So would a first '^'. */
  predicate Writable(p: Pattern) {
    && Plainly(p.items, p.atEnd)
    && (!p.atStart && p.items != [] ==> p.items[0] != One('^') && p.items[0] != Star('^'))
  }

  lemma PlainlyRest(items: seq<Item>, atEnd: bool)
    requires Plainly(items, atEnd) && items != []
    ensures Plainly(items[1..], atEnd)
  {
    var r := items[1..];
    forall k | 0 <= k < |r| - 1 && Once(r[k]) ensures r[k + 1] != One('*') && r[k + 1] != Star('*') {
      assert Once(items[k + 1]);
    }
  }

  lemma NoAnchor(items: seq<Item>, atEnd: bool)
    requires Plainly(items, atEnd) && items != [] && Once(items[0])
    ensures ShowItem(items[0]) + ShowTail(items[1..], atEnd) != ['$']
  {
    var rest := ShowTail(items[1..], atEnd);
    if items[1..] == [] && !atEnd {
      assert items[|items| - 1] == items[0] != One('$');
      assert (ShowItem(items[0]) + rest)[0] != '$';
    } else {
      assert |ShowItem(items[0]) + rest| > 1;
    }
  }

  lemma TailOnce(it: Item, rest: seq<char>)
    requires Once(it) && Sayable(it) && At(rest, 0) != '*' && ShowItem(it) + rest != ['$']
    ensures var p := Tail(rest); Tail(ShowItem(it) + rest) == p.(items := [it] + p.items)
  {
    var re := ShowItem(it) + rest;
    assert re[1..] == rest && At(re, 1) == At(rest, 0);
  }

  lemma TailStarred(it: Item, rest: seq<char>)
    requires !Once(it) && Sayable(it)
    ensures var p := Tail(rest); Tail(ShowItem(it) + rest) == p.(items := [it] + p.items)
  {
    var re := ShowItem(it) + rest;
    assert re[2..] == rest;
  }

  lemma {:induction false} TailShow(items: seq<Item>, atEnd: bool)
    requires Plainly(items, atEnd)
    ensures Tail(ShowTail(items, atEnd)) == Pattern(false, items, atEnd)
  {
    if items == [] {
      assert ['$'][1..] == [];
    } else {
      var it, rest := items[0], ShowTail(items[1..], atEnd);
      assert ShowTail(items, atEnd) == ShowItem(it) + rest && [it] + items[1..] == items;
      PlainlyRest(items, atEnd);
      TailShow(items[1..], atEnd);
      if Once(it) {
        FirstOf(items[1..], atEnd);
        NoAnchor(items, atEnd);
        hide Tail, ShowTail, ShowItem;
        TailOnce(it, rest);
      } else {
        hide Tail, ShowTail, ShowItem;
        TailStarred(it, rest);
      }
    }
  }

  lemma FirstOf(items: seq<Item>, atEnd: bool)
    ensures At(ShowTail(items, atEnd), 0) ==
      if items == [] then if atEnd then '$' else '\0'
      else if items[0].Any? || items[0].AnyStar? then '.' else items[0].c
  {
  }

  /** What is written is read back: every pattern that can be written at all has its spelling. */
  lemma ReadShow(p: Pattern)
    requires Writable(p)
    ensures Read(Show(p)) == p
  {
    TailShow(p.items, p.atEnd);
    FirstOf(p.items, p.atEnd);
    var re := Show(p);
    if p.atStart {
      assert re[1..] == ShowTail(p.items, p.atEnd);
    } else {
      assert re == ShowTail(p.items, p.atEnd);
    }
  }

  lemma ShowCons(it: Item, rest: seq<Item>, atEnd: bool)
    ensures ShowTail([it] + rest, atEnd) == ShowItem(it) + ShowTail(rest, atEnd)
  {
    assert ([it] + rest)[1..] == rest;
  }

  lemma ShowOnce(re: seq<char>, it: Item, rest: seq<char>)
    requires Sayable(it) && Once(it) && At(rest, 0) != '*' && re == ShowItem(it) + rest != ['$']
    requires var p := Tail(rest); ShowTail(p.items, p.atEnd) == rest && Plainly(p.items, p.atEnd)
    ensures var q := Tail(re); ShowTail(q.items, q.atEnd) == re && Plainly(q.items, q.atEnd)
  {
    var p := Tail(rest);
    FirstOf(p.items, p.atEnd);
    assert rest == [] ==> p.items == [] && !p.atEnd;
    hide Tail, ShowTail, Plainly;
    TailOnce(it, rest);
    ShowCons(it, p.items, p.atEnd);
    NotDollar(it, rest, p);
    PlainlyMore(it, p.items, [it] + p.items, p.atEnd);
  }

  lemma NotDollar(it: Item, rest: seq<char>, p: Pattern)
    requires Once(it) && ShowItem(it) + rest != ['$'] && rest == ShowTail(p.items, p.atEnd)
    ensures p.items == [] && !p.atEnd ==> it != One('$')
  {
    if p.items == [] && !p.atEnd { assert ShowItem(it) + rest == ShowItem(it); }
  }

  lemma ShowStarred(re: seq<char>, it: Item, rest: seq<char>)
    requires Sayable(it) && !Once(it) && re == ShowItem(it) + rest
    requires var p := Tail(rest); ShowTail(p.items, p.atEnd) == rest && Plainly(p.items, p.atEnd)
    ensures var q := Tail(re); ShowTail(q.items, q.atEnd) == re && Plainly(q.items, q.atEnd)
  {
    var p := Tail(rest);
    hide Tail, ShowTail, Plainly;
    TailStarred(it, rest);
    ShowCons(it, p.items, p.atEnd);
    PlainlyMore(it, p.items, [it] + p.items, p.atEnd);
  }

  lemma ShowShort(re: seq<char>)
    requires re == [] || re == ['$']
    ensures ShowTail(Tail(re).items, Tail(re).atEnd) == re && Plainly(Tail(re).items, Tail(re).atEnd)
  {
  }

  lemma {:induction false} ShowRest(re: seq<char>)
    requires CString(re)
    ensures ShowTail(Tail(re).items, Tail(re).atEnd) == re && Plainly(Tail(re).items, Tail(re).atEnd)
    decreases |re|
  {
    hide Plainly, Tail, ShowTail;
    if At(re, 1) == '*' {
      ShowRest(re[2..]);
      assert re == ShowItem(StarOf(re[0])) + re[2..];
      ShowStarred(re, StarOf(re[0]), re[2..]);
    } else if re == [] || re == ['$'] {
      ShowShort(re);
    } else {
      ShowRest(re[1..]);
      assert re == ShowItem(OneOf(re[0])) + re[1..];
      ShowOnce(re, OneOf(re[0]), re[1..]);
    }
  }

  lemma PlainlyMore(it: Item, rest: seq<Item>, items: seq<Item>, atEnd: bool)
    requires Plainly(rest, atEnd) && items == [it] + rest && Sayable(it)
    requires rest != [] && Once(it) ==> rest[0] != One('*') && rest[0] != Star('*')
    requires rest == [] && !atEnd ==> it != One('$')
    ensures Plainly(items, atEnd)
  {
    forall k | 0 <= k < |items| - 1 && Once(items[k]) ensures items[k + 1] != One('*') && items[k + 1] != Star('*') {
      if k > 0 { assert Once(rest[k - 1]); }
    }
  }

  /** Every C string is the spelling of the pattern it is read as. */
  lemma ShowRead(re: seq<char>)
    requires CString(re)
    ensures Show(Read(re)) == re && Writable(Read(re))
  {
    var tail := if At(re, 0) == '^' then re[1..] else re;
    ShowRest(tail);
    FirstOf(Tail(tail).items, Tail(tail).atEnd);
    if At(re, 0) == '^' {
      assert ['^'] + re[1..] == re;
    } else {
      TailFloats(re);
      assert [] + re == re;
    }
  }

  // ---- a pattern without special characters ----

  predicate Plain(re: seq<char>) {
    forall k :: 0 <= k < |re| ==> re[k] !in ['.', '*', '^', '$']
  }

  lemma {:induction false} PlainTail(re: seq<char>)
    requires Plain(re)
    ensures !Tail(re).atEnd && !Tail(re).atStart
    ensures forall w :: In(Tail(re).items, w) <==> w == re
  {
    if re != [] {
      assert |re| > 1 ==> re[1] != '*';
      PlainTail(re[1..]);
      var p, q := Tail(re[1..]), Tail(re);
      assert q.items == [One(re[0])] + p.items;
      forall w ensures In(q.items, w) <==> w == re {
        PlainStep(re[0], p.items, q.items, re, w);
      }
    }
  }

  lemma PlainStep(c: char, rest: seq<Item>, items: seq<Item>, re: seq<char>, w: seq<char>)
    requires items == [One(c)] + rest && re != [] && re[0] == c
    requires forall v :: In(rest, v) <==> v == re[1..]
    ensures In(items, w) <==> w == re
  {
    assert items[1..] == rest;
    if In(items, w) {
      var k :| 0 <= k <= |w| && Stands(items[0], w[..k]) && In(items[1..], w[k..]);
      assert w == w[..k] + w[k..];
    }
    if w == re {
      assert w[..1] == [c] && In(items[1..], w[1..]);
    }
  }

  /** A plain pattern matches exactly the texts that contain it. */
  lemma PlainContains(re: seq<char>, text: seq<char>)
    requires Plain(re)
    ensures Matches(Read(re), text) <==> exists i, j :: 0 <= i <= j <= |text| && text[i..j] == re
  {
    PlainTail(re);
    var p := Read(re);
    assert p == Tail(re);
    if Matches(p, text) {
      var i: nat, j: nat :| Occurs(p, text, i, j);
      assert text[i..j] == re;
    }
    if i, j :| 0 <= i <= j <= |text| && text[i..j] == re {
      assert Occurs(p, text, i, j);
    }
  }

  // ---- what common patterns match ----

  /** Ordinary characters: they stand for themselves wherever they are. */
  predicate Ordinary(w: seq<char>) { Plain(w) && CString(w) }

  function Letters(w: seq<char>): (r: seq<Item>)
    ensures |r| == |w| && forall k :: 0 <= k < |w| ==> r[k] == One(w[k])
  {
    seq(|w|, k requires 0 <= k < |w| => One(w[k]))
  }

  lemma {:induction false} ShowLetters(w: seq<char>, rest: seq<Item>, atEnd: bool)
    ensures ShowTail(Letters(w) + rest, atEnd) == w + ShowTail(rest, atEnd)
  {
    var items, t := Letters(w) + rest, ShowTail(rest, atEnd);
    if w == [] {
      assert items == rest && w + t == t;
    } else {
      assert items == [One(w[0])] + (Letters(w[1..]) + rest);
      hide ShowTail, Letters;
      ShowLetters(w[1..], rest, atEnd);
      ShowCons(One(w[0]), Letters(w[1..]) + rest, atEnd);
      assert [w[0]] + (w[1..] + t) == w + t;
    }
  }

  ghost predicate CutsAt(a: seq<Item>, b: seq<Item>, v: seq<char>, k: nat) {
    k <= |v| && In(a, v[..k]) && In(b, v[k..])
  }

  lemma Cons(items: seq<Item>, v: seq<char>, i: nat)
    requires items != [] && i <= |v| && Stands(items[0], v[..i]) && In(items[1..], v[i..])
    ensures In(items, v)
  {
  }

  lemma Uncons(items: seq<Item>, v: seq<char>) returns (i: nat)
    requires items != [] && In(items, v)
    ensures i <= |v| && Stands(items[0], v[..i]) && In(items[1..], v[i..])
  {
    i :| i <= |v| && Stands(items[0], v[..i]) && In(items[1..], v[i..]);
  }

  lemma {:induction false} Glue(a: seq<Item>, b: seq<Item>, v: seq<char>, k: nat)
    requires CutsAt(a, b, v, k)
    ensures In(a + b, v)
  {
    if a == [] {
      assert a + b == b && v[k..] == v;
    } else {
      hide In, Stands;
      var i := Uncons(a, v[..k]);
      assert v[..k][..i] == v[..i] && v[..k][i..] == v[i..][..k - i] && v[k..] == v[i..][k - i..];
      Glue(a[1..], b, v[i..], k - i);
      assert (a + b)[1..] == a[1..] + b;
      Cons(a + b, v, i);
    }
  }

  lemma {:induction false} Part(a: seq<Item>, b: seq<Item>, v: seq<char>) returns (k: nat)
    requires In(a + b, v)
    ensures CutsAt(a, b, v, k)
  {
    if a == [] {
      assert a + b == b && v[0..] == v;
      k := 0;
    } else {
      hide In, Stands;
      var i := Uncons(a + b, v);
      assert (a + b)[1..] == a[1..] + b;
      var j := Part(a[1..], b, v[i..]);
      k := i + j;
      assert v[..k][..i] == v[..i] && v[..k][i..] == v[i..][..j] && v[k..] == v[i..][j..];
      Cons(a, v[..k], i);
    }
  }

  lemma {:induction false} InLetters(w: seq<char>, v: seq<char>)
    ensures In(Letters(w), v) <==> v == w
  {
    var items := Letters(w);
    if w != [] {
      assert items[1..] == Letters(w[1..]);
      if v != [] { InLetters(w[1..], v[1..]); }
      if In(items, v) {
        var k: nat :| k <= |v| && Stands(items[0], v[..k]) && In(items[1..], v[k..]);
        assert v == v[..k] + v[k..] && k == 1;
      }
      if v == w {
        assert v[..1] == [w[0]] && In(items[1..], v[1..]);
      }
    }
  }

  lemma LettersPlainly(w: seq<char>, atEnd: bool)
    requires Ordinary(w)
    ensures Plainly(Letters(w), atEnd)
  {
  }

  lemma EndsText(w: seq<char>)
    requires Ordinary(w)
    ensures Read(w + ['$']) == Pattern(false, Letters(w), true)
  {
    var p := Pattern(false, Letters(w), true);
    LettersPlainly(w, true);
    ShowLetters(w, [], true);
    assert Letters(w) + [] == Letters(w) && Show(p) == w + ['$'];
    ReadShow(p);
  }

  /** "w$" matches the texts that end in w. */
  lemma EndsIff(w: seq<char>, text: seq<char>)
    requires Ordinary(w)
    ensures Matches(Read(w + ['$']), text) <==> |w| <= |text| && text[|text| - |w|..] == w
  {
    var p := Pattern(false, Letters(w), true);
    EndsText(w);
    hide Read, Letters;
    if Matches(p, text) {
      var i: nat, j: nat :| Occurs(p, text, i, j);
      InLetters(w, text[i..j]);
    }
    if |w| <= |text| && text[|text| - |w|..] == w {
      var i := |text| - |w|;
      assert text[i..|text|] == w;
      InLetters(w, text[i..|text|]);
      assert Occurs(p, text, i, |text|);
    }
  }

  /** "^w" matches the texts that begin with w. */
  lemma BeginsIff(w: seq<char>, text: seq<char>)
    requires Ordinary(w)
    ensures Matches(Read(['^'] + w), text) <==> w <= text
  {
    var p := Pattern(true, Letters(w), false);
    LettersPlainly(w, false);
    ShowLetters(w, [], false);
    assert Letters(w) + [] == Letters(w) && w + [] == w && Show(p) == ['^'] + w;
    ReadShow(p);
    if Matches(p, text) {
      var i: nat, j: nat :| Occurs(p, text, i, j);
      InLetters(w, text[i..j]);
    }
    if w <= text {
      assert text[0..|w|] == w;
      InLetters(w, text[0..|w|]);
      assert Occurs(p, text, 0, |w|);
    }
  }

  /** "^w$" matches w alone. */
  lemma WholeIff(w: seq<char>, text: seq<char>)
    requires Ordinary(w)
    ensures Matches(Read(['^'] + w + ['$']), text) <==> text == w
  {
    var p := Pattern(true, Letters(w), true);
    LettersPlainly(w, true);
    ShowLetters(w, [], true);
    assert Letters(w) + [] == Letters(w) && Show(p) == ['^'] + w + ['$'];
    ReadShow(p);
    assert text[0..|text|] == text;
    InLetters(w, text);
    if Matches(p, text) {
      var i: nat, j: nat :| Occurs(p, text, i, j);
    }
    if text == w {
      assert Occurs(p, text, 0, |text|);
    }
  }

  /** One item between ordinary strings. */
  lemma MiddleIff(u: seq<char>, it: Item, w: seq<char>, text: seq<char>)
    requires Ordinary(u) && Ordinary(w) && Sayable(it) && (it.One? || it.Star? ==> Ordinary([it.c]))
    ensures Matches(Read(['^'] + u + ShowItem(it) + w + ['$']), text) <==>
      |u| + |w| <= |text| && u <= text && text[|text| - |w|..] == w && Stands(it, text[|u|..|text| - |w|])
  {
    var p := Pattern(true, Letters(u) + ([it] + Letters(w)), true);
    MiddleShow(u, it, w);
    ReadShow(p);
    MiddleIn(u, it, w, text);
    assert text[0..|text|] == text;
    if Matches(p, text) {
      var i: nat, j: nat :| Occurs(p, text, i, j);
      assert i == 0 && j == |text|;
    }
    if In(p.items, text) {
      assert Occurs(p, text, 0, |text|);
    }
  }

  lemma MiddleShow(u: seq<char>, it: Item, w: seq<char>)
    requires Ordinary(u) && Ordinary(w) && Sayable(it) && (it.One? || it.Star? ==> Ordinary([it.c]))
    ensures var p := Pattern(true, Letters(u) + ([it] + Letters(w)), true);
      Writable(p) && Show(p) == ['^'] + u + ShowItem(it) + w + ['$']
  {
    MiddleWritable(u, it, w);
    ShowLetters(u, [it] + Letters(w), true);
    ShowLetters(w, [], true);
    assert Letters(w) + [] == Letters(w) && ([it] + Letters(w))[1..] == Letters(w);
    assert ShowTail([it] + Letters(w), true) == ShowItem(it) + (w + ['$']);
    hide Writable, ShowTail, ShowItem, Letters;
    Flatten(u, ShowItem(it), w);
  }

  lemma Flatten(u: seq<char>, mid: seq<char>, w: seq<char>)
    ensures ['^'] + (u + (mid + (w + ['$']))) == ['^'] + u + mid + w + ['$']
  {
  }

  lemma MiddleWritable(u: seq<char>, it: Item, w: seq<char>)
    requires Ordinary(u) && Ordinary(w) && Sayable(it) && (it.One? || it.Star? ==> Ordinary([it.c]))
    ensures Writable(Pattern(true, Letters(u) + ([it] + Letters(w)), true))
  {
    var items := Letters(u) + ([it] + Letters(w));
    assert it.One? || it.Star? ==> [it.c][0] !in ['.', '*', '^', '$'];
    forall k | 0 <= k < |items| ensures Sayable(items[k]) && items[k] != One('*') && items[k] != Star('*') {
    }
  }

  lemma MiddleIn(u: seq<char>, it: Item, w: seq<char>, v: seq<char>)
    ensures In(Letters(u) + ([it] + Letters(w)), v) <==>
      |u| + |w| <= |v| && u <= v && v[|v| - |w|..] == w && Stands(it, v[|u|..|v| - |w|])
  {
    hide In, Stands, Letters;
    var b := [it] + Letters(w);
    if In(Letters(u) + b, v) {
      var k := Part(Letters(u), b, v);
      InLetters(u, v[..k]);
      var x := v[k..];
      ItemFirst(it, w, x);
      assert v[|v| - |w|..] == x[|x| - |w|..] && v[|u|..|v| - |w|] == x[..|x| - |w|];
    }
    if |u| + |w| <= |v| && u <= v && v[|v| - |w|..] == w && Stands(it, v[|u|..|v| - |w|]) {
      var x := v[|u|..];
      assert v[|v| - |w|..] == x[|x| - |w|..] && v[|u|..|v| - |w|] == x[..|x| - |w|] && v[..|u|] == u;
      ItemLast(it, w, x, |x| - |w|);
      InLetters(u, v[..|u|]);
      Glue(Letters(u), b, v, |u|);
    }
  }

  lemma ItemFirst(it: Item, w: seq<char>, x: seq<char>)
    requires In([it] + Letters(w), x)
    ensures |w| <= |x| && x[|x| - |w|..] == w && Stands(it, x[..|x| - |w|])
  {
    var items := [it] + Letters(w);
    assert items[0] == it && items[1..] == Letters(w);
    hide In, Stands, Letters;
    var m := Uncons(items, x);
    InLetters(w, x[m..]);
    assert m == |x| - |w|;
  }

  lemma ItemLast(it: Item, w: seq<char>, x: seq<char>, m: nat)
    requires m <= |x| && x[m..] == w && Stands(it, x[..m])
    ensures In([it] + Letters(w), x)
  {
    var items := [it] + Letters(w);
    assert items[0] == it && items[1..] == Letters(w);
    hide In, Stands, Letters;
    InLetters(w, x[m..]);
    Cons(items, x, m);
  }

  /** Between ordinary strings "." is any one character, "c*" a run of c, ".*" anything. */
  lemma SpecialsIff(u: seq<char>, c: char, w: seq<char>, text: seq<char>)
    requires Ordinary(u) && Ordinary([c]) && Ordinary(w)
    ensures Matches(Read(['^'] + u + ['.'] + w + ['$']), text) <==>
      |text| == |u| + 1 + |w| && u <= text && text[|u| + 1..] == w
    ensures Matches(Read(['^'] + u + ['.', '*'] + w + ['$']), text) <==>
      |text| >= |u| + |w| && u <= text && text[|text| - |w|..] == w
    ensures Matches(Read(['^'] + u + [c, '*'] + w + ['$']), text) <==>
      && |text| >= |u| + |w| && u <= text && text[|text| - |w|..] == w
      && forall k :: |u| <= k < |text| - |w| ==> text[k] == c
  {
    assert [c][0] == c;
    MiddleIff(u, Any, w, text);
    MiddleIff(u, AnyStar, w, text);
    MiddleIff(u, Star(c), w, text);
    if |u| + |w| <= |text| {
      var mid := text[|u|..|text| - |w|];
      assert forall k :: 0 <= k < |mid| ==> mid[k] == text[|u| + k];
      assert forall k :: |u| <= k < |text| - |w| ==> text[k] == mid[k - |u|];
    }
  }
}
