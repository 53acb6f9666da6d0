/** Path names of fs.c: taking a path apart element by element, and walking it. */
module Paths {
  import opened Options
  import Directory

  const DIRSIZ: nat := Directory.DIRSIZ
  const SLASH: int := 47
  const ROOTINO: int := 1

  type Name = seq<int>

  predicate CString(p: seq<int>) { forall k :: 0 <= k < |p| ==> p[k] != 0 }

  // ---- the elements of a path ----

  function Cut(e: seq<int>): Name { if |e| >= DIRSIZ then e[..DIRSIZ] else e }

  /** An element that has no bytes is none. */
  function Flush(e: seq<int>): seq<Name> { if e == [] then [] else [Cut(e)] }

  /** The elements of a path, read byte by byte: e holds the bytes since the last slash. */
  function Split(p: seq<int>, e: seq<int>): seq<Name>
    decreases |p|
  {
    if p == [] then Flush(e)
    else if p[0] == SLASH then Flush(e) + Split(p[1..], [])
    else Split(p[1..], e + [p[0]])
  }

  function Elements(p: seq<int>): seq<Name> { Split(p, []) }

  lemma SlashStep(p: seq<int>, i: nat)
    requires i < |p| && p[i] == SLASH
    ensures Elements(p[i..]) == Elements(p[i + 1..])
  {
    assert p[i..][1..] == p[i + 1..];
  }

  lemma ByteStep(p: seq<int>, i: nat, j: nat)
    requires i <= j < |p| && p[j] != SLASH
    ensures Split(p[j..], p[i..j]) == Split(p[j + 1..], p[i..j + 1])
  {
    assert p[j..][1..] == p[j + 1..];
    assert p[i..j] + [p[j]] == p[i..j + 1];
  }

  /** An element ends at a slash or at the end of the path. */
  lemma ElementEnds(p: seq<int>, e: seq<int>, j: nat)
    requires e != [] && j <= |p| && (j < |p| ==> p[j] == SLASH)
    ensures Split(p[j..], e) == [Cut(e)] + Elements(p[j..])
  {
    if j < |p| {
      assert p[j..][1..] == p[j + 1..];
    }
  }

  lemma NoElements(p: seq<int>)
    requires p == [] || p[0] != SLASH
    ensures Elements(p) == [] <==> p == []
  {
    if p != [] {
      SplitHeld(p[1..], [] + [p[0]]);
    }
  }

  lemma {:induction false} SplitHeld(p: seq<int>, e: seq<int>)
    requires e != []
    ensures Split(p, e) != []
    decreases |p|
  {
    if p != [] && p[0] != SLASH {
      SplitHeld(p[1..], e + [p[0]]);
    }
  }

  // ---- spelling a path ----

  function Slashes(n: nat): (r: seq<int>)
    ensures |r| == n && forall k :: 0 <= k < n ==> r[k] == SLASH
  {
    seq(n, _ => SLASH)
  }

  /** A name and the number of slashes after it. */
  datatype Part = Part(name: seq<int>, after: nat)

  predicate Nameable(e: seq<int>) { e != [] && forall k :: 0 <= k < |e| ==> e[k] != SLASH }

  /** Names are not empty and hold no slash, and at least one slash parts them. */
  predicate Spellable(ps: seq<Part>) {
    && (forall k :: 0 <= k < |ps| ==> Nameable(ps[k].name))
    && (forall k :: 0 <= k < |ps| - 1 ==> ps[k].after > 0)
  }

  function Spell(ps: seq<Part>): seq<int> {
    if ps == [] then [] else ps[0].name + Slashes(ps[0].after) + Spell(ps[1..])
  }

  lemma {:induction false} SlashesGone(n: nat, p: seq<int>)
    ensures Elements(Slashes(n) + p) == Elements(p)
  {
    var q := Slashes(n) + p;
    if n == 0 {
      assert q == p;
    } else {
      SlashesGone(n - 1, p);
      assert q[1..] == Slashes(n - 1) + p;
    }
  }

  lemma {:induction false} NameRead(e: seq<int>, done: seq<int>, p: seq<int>)
    requires (forall k :: 0 <= k < |e| ==> e[k] != SLASH) && done + e != [] && (p == [] || p[0] == SLASH)
    ensures Split(e + p, done) == [Cut(done + e)] + Elements(p)
    decreases |e|
  {
    if e == [] {
      assert e + p == p && done + e == done;
    } else {
      assert (e + p)[1..] == e[1..] + p;
      assert done + [e[0]] + e[1..] == done + e;
      NameRead(e[1..], done + [e[0]], p);
    }
  }

  /** However many slashes lead, part and trail, the elements are the names in order, each cut to
      its first fourteen bytes. */
  lemma {:induction false} Spelled(lead: nat, ps: seq<Part>)
    requires Spellable(ps)
    ensures var es := Elements(Slashes(lead) + Spell(ps));
      |es| == |ps| && forall k :: 0 <= k < |ps| ==> es[k] == if |ps[k].name| > 14 then ps[k].name[..14] else ps[k].name
    decreases |ps|
  {
    SlashesGone(lead, Spell(ps));
    if ps != [] {
      var part, rest := ps[0], Slashes(ps[0].after) + Spell(ps[1..]);
      Spelled(part.after, ps[1..]);
      assert Spell(ps) == part.name + rest;
      assert rest == [] || rest[0] == SLASH;
      NameRead(part.name, [], rest);
      assert [] + part.name == part.name;
    }
  }

  /** The bytes skipelem leaves in its buffer read back as the element. */
  lemma Buffered(e: seq<int>, b: seq<int>)
    requires CString(e) && |b| == DIRSIZ
    requires if |e| >= DIRSIZ then b == e[..DIRSIZ] else b[..|e|] == e && b[|e|] == 0
    ensures Directory.Key(b, DIRSIZ) == Cut(e)
  {
    var r := Directory.Length(b, DIRSIZ);
    if |e| < DIRSIZ {
      assert forall k :: 0 <= k < |e| ==> b[k] == b[..|e|][k] == e[k];
      assert r == |e|;
    }
  }

  /** skipelem: the first element goes to name, the rest of the path is returned. */
  method SkipElem(path: seq<int>, name: array<int>) returns (r: Option<seq<int>>)
    requires CString(path) && name.Length == DIRSIZ
    modifies name
    ensures r.None? <==> Elements(path) == []
    ensures r.None? ==> name[..] == old(name[..])
    ensures r.Some? ==> Elements(path) == [Directory.Key(name[..], DIRSIZ)] + Elements(r.value)
    ensures r.Some? ==> |r.value| < |path| && CString(r.value) && (r.value == [] <==> Elements(r.value) == [])
  {
    hide Split, Cut, Directory.Key;
    var i := 0;
    assert path[0..] == path;
    while i < |path| && path[i] == SLASH
      invariant i <= |path| && Elements(path[i..]) == Elements(path)
      invariant name[..] == old(name[..])
    {
      SlashStep(path, i);
      i := i + 1;
    }
    NoElements(path[i..]);
    if i == |path| {
      return None;
    }
    var s := i;
    assert path[s..s] == [];
    while i < |path| && path[i] != SLASH
      invariant s <= i <= |path| && (i == s ==> path[s] != SLASH)
      invariant Split(path[i..], path[s..i]) == Elements(path)
    {
      ByteStep(path, s, i);
      i := i + 1;
    }
    var len := i - s;
    ElementEnds(path, path[s..i], i);
    FillName(path, s, i, name);
    Buffered(path[s..i], name[..]);
    ghost var kept := name[..];
    while i < |path| && path[i] == SLASH
      invariant s < i <= |path| && Elements(path) == [Cut(path[s..s + len])] + Elements(path[i..])
      invariant name[..] == kept
    {
      SlashStep(path, i);
      i := i + 1;
    }
    NoElements(path[i..]);
    return Some(path[i..]);
  }

  method FillName(path: seq<int>, s: nat, i: nat, name: array<int>)
    requires s <= i <= |path| && name.Length == DIRSIZ
    modifies name
    ensures if i - s >= DIRSIZ then name[..] == path[s..i][..DIRSIZ] else name[..i - s] == path[s..i] && name[i - s] == 0
  {
    var len := if i - s >= DIRSIZ then DIRSIZ else i - s;
    for k := 0 to len
      invariant name[..k] == path[s..s + k]
    {
      name[k] := path[s + k];
    }
    if i - s < DIRSIZ {
      name[i - s] := 0;
      assert name[..i - s] == path[s..i];
    } else {
      assert name[..] == name[..DIRSIZ] == path[s..i][..DIRSIZ];
    }
  }

  // ---- walking ----

  /** An inode as a walk sees it: its kind, and the map its entries stand for. */
  datatype Node = Node(isDir: bool, entries: map<Name, int>)

  type Table = map<int, Node>

  /** What a walk ends in; locking an inode that has been freed is the panic "ilock: no type". */
  datatype Found<T> = At(value: T) | NoSuch | Panic

  /** Following a list of names from an inode. An inode is locked only to look in it, so the last
      one need not be there. */
  function Walk(t: Table, at: int, es: seq<Name>): Found<int>
    decreases |es|
  {
    if es == [] then At(at)
    else if at !in t then Panic
    else if t[at].isDir && es[0] in t[at].entries then Walk(t, t[at].entries[es[0]], es[1..])
    else NoSuch
  }

  /** The directory a path's last name is in, and that name. */
  function WalkParent(t: Table, at: int, es: seq<Name>): Found<(int, Name)> {
    if es == [] then NoSuch
    else
      match Walk(t, at, es[..|es| - 1])
      case At(d) => if d !in t then Panic else if t[d].isDir then At((d, es[|es| - 1])) else NoSuch
      case NoSuch => NoSuch
      case Panic => Panic
  }

  lemma ParentStep(t: Table, at: int, es: seq<Name>)
    requires |es| > 1
    ensures WalkParent(t, at, es) ==
      if at !in t then Panic
      else if t[at].isDir && es[0] in t[at].entries then WalkParent(t, t[at].entries[es[0]], es[1..])
      else NoSuch
  {
    assert es[..|es| - 1][1..] == es[1..][..|es| - 2];
  }

  /** ps lists the inodes met when the names es are looked up one after the other from ps[0]. */
  predicate Chain(t: Table, ps: seq<int>, es: seq<Name>) {
    && |ps| == |es| + 1
    && forall k :: 0 <= k < |es| ==> ps[k] in t && t[ps[k]].isDir && es[k] in t[ps[k]].entries && t[ps[k]].entries[es[k]] == ps[k + 1]
  }

  lemma ChainTail(t: Table, ps: seq<int>, es: seq<Name>)
    requires Chain(t, ps, es) && es != []
    ensures Chain(t, ps[1..], es[1..]) && ps[0] in t && t[ps[0]].isDir && es[0] in t[ps[0]].entries && ps[1] == t[ps[0]].entries[es[0]]
  {
    forall k | 0 <= k < |es| - 1
      ensures ps[1..][k] in t && t[ps[1..][k]].isDir && es[1..][k] in t[ps[1..][k]].entries && t[ps[1..][k]].entries[es[1..][k]] == ps[1..][k + 1]
    {
      assert ps[k + 1] in t && t[ps[k + 1]].entries[es[k + 1]] == ps[k + 2];
    }
  }

  lemma ChainCons(t: Table, at: int, ps: seq<int>, es: seq<Name>)
    requires es != [] && Chain(t, ps, es[1..]) && at in t && t[at].isDir && es[0] in t[at].entries && t[at].entries[es[0]] == ps[0]
    ensures Chain(t, [at] + ps, es)
  {
  }

  /** The walk arrives at x exactly when the lookups lead there. */
  lemma {:induction false} ArrivesIff(t: Table, at: int, es: seq<Name>, x: int)
    ensures Walk(t, at, es) == At(x) <==> exists ps :: Chain(t, ps, es) && ps[0] == at && ps[|es|] == x
    decreases |es|
  {
    if es == [] {
      assert Chain(t, [at], es);
    } else {
      if at in t && t[at].isDir && es[0] in t[at].entries {
        var next := t[at].entries[es[0]];
        ArrivesIff(t, next, es[1..], x);
        if Walk(t, at, es) == At(x) {
          var ps :| Chain(t, ps, es[1..]) && ps[0] == next && ps[|es| - 1] == x;
          ChainCons(t, at, ps, es);
          assert ([at] + ps)[|es|] == x;
        }
      }
      forall ps | Chain(t, ps, es) && ps[0] == at && ps[|es|] == x ensures Walk(t, at, es) == At(x) {
        ChainTail(t, ps, es);
        assert ps[1..][|es| - 1] == x;
      }
    }
  }

  /** The walk has names left to look up at an inode that is not there, after the lookups ps. */
  predicate Stranded(t: Table, at: int, es: seq<Name>, ps: seq<int>) {
    0 < |ps| <= |es| && Chain(t, ps, es[..|ps| - 1]) && ps[0] == at && ps[|ps| - 1] !in t
  }

  lemma StrandedCons(t: Table, at: int, es: seq<Name>, ps: seq<int>)
    requires es != [] && at in t && t[at].isDir && es[0] in t[at].entries && Stranded(t, t[at].entries[es[0]], es[1..], ps)
    ensures Stranded(t, at, es, [at] + ps)
  {
    var fs := es[..|ps|];
    assert fs[1..] == es[1..][..|ps| - 1] && fs[0] == es[0];
    ChainCons(t, at, ps, fs);
  }

  lemma StrandedTail(t: Table, at: int, es: seq<Name>, ps: seq<int>)
    requires Stranded(t, at, es, ps) && |ps| > 1
    ensures at in t && t[at].isDir && es[0] in t[at].entries && Stranded(t, t[at].entries[es[0]], es[1..], ps[1..])
  {
    var fs := es[..|ps| - 1];
    ChainTail(t, ps, fs);
    assert fs[1..] == es[1..][..|ps| - 2];
  }

  /** It panics exactly when it is stranded at a freed inode. */
  lemma {:induction false} PanicsIff(t: Table, at: int, es: seq<Name>)
    ensures Walk(t, at, es) == Panic <==> exists ps :: Stranded(t, at, es, ps)
    decreases |es|
  {
    if es != [] {
      if at !in t {
        assert Stranded(t, at, es, [at]);
      } else if t[at].isDir && es[0] in t[at].entries {
        PanicsIff(t, t[at].entries[es[0]], es[1..]);
        if Walk(t, at, es) == Panic {
          var ps :| Stranded(t, t[at].entries[es[0]], es[1..], ps);
          StrandedCons(t, at, es, ps);
        }
      }
      forall ps | Stranded(t, at, es, ps) ensures Walk(t, at, es) == Panic {
        if |ps| > 1 { StrandedTail(t, at, es, ps); }
      }
    }
  }

  /** The parent form ends in a directory, reached by all the names but the last. */
  lemma ParentIff(t: Table, at: int, es: seq<Name>, d: int, n: Name)
    ensures WalkParent(t, at, es) == At((d, n)) <==>
      && es != [] && n == es[|es| - 1] && d in t && t[d].isDir
      && exists ps :: Chain(t, ps, es[..|es| - 1]) && ps[0] == at && ps[|es| - 1] == d
  {
    if es != [] { ArrivesIff(t, at, es[..|es| - 1], d); }
  }

  /** Looking the last name up there is the whole walk. */
  lemma ParentThenLast(t: Table, at: int, es: seq<Name>, d: int, n: Name)
    requires WalkParent(t, at, es) == At((d, n))
    ensures Walk(t, at, es) == if n in t[d].entries then At(t[d].entries[n]) else NoSuch
    decreases |es|
  {
    if |es| > 1 {
      ParentStep(t, at, es);
      ParentThenLast(t, t[at].entries[es[0]], es[1..], d, n);
    } else {
      assert es[..0] == [];
    }
  }

  /** The parent form panics on the same paths. */
  lemma {:induction false} ParentPanics(t: Table, at: int, es: seq<Name>)
    ensures WalkParent(t, at, es) == Panic <==> Walk(t, at, es) == Panic
    decreases |es|
  {
    if |es| == 1 {
      assert es[..0] == [];
    } else if |es| > 1 {
      ParentStep(t, at, es);
      if at in t && t[at].isDir && es[0] in t[at].entries {
        ParentPanics(t, t[at].entries[es[0]], es[1..]);
      }
    }
  }

  /** A leading slash makes the current directory irrelevant. */
  lemma FromRoot(t: Table, cwd: int, p: seq<int>)
    ensures var q := [SLASH] + p;
      && Walk(t, if q[0] == SLASH then ROOTINO else cwd, Elements(q)) == Walk(t, ROOTINO, Elements(p))
      && WalkParent(t, if q[0] == SLASH then ROOTINO else cwd, Elements(q)) == WalkParent(t, ROOTINO, Elements(p))
  {
    var q := [SLASH] + p;
    SlashStep(q, 0);
    assert q[0..] == q && q[1..] == p;
  }

  /** namex: folds lookup over the elements of the path; the parent form stops one early and
      leaves the last name in the buffer. */
  method Namex(t: Table, cwd: int, path: seq<int>, parent: bool, name: array<int>) returns (r: Found<int>)
    requires CString(path) && name.Length == DIRSIZ
    modifies name
    // a path that begins with a slash is walked from the root, any other from cwd
    ensures !parent && path != [] && path[0] == SLASH ==> r == Walk(t, ROOTINO, Elements(path))
    ensures !parent && (path == [] || path[0] != SLASH) ==> r == Walk(t, cwd, Elements(path))
    ensures parent ==>
      match WalkParent(t, if path != [] && path[0] == SLASH then ROOTINO else cwd, Elements(path))
      case At(v) => r == At(v.0) && Directory.Key(name[..], DIRSIZ) == v.1
      case NoSuch => r == NoSuch
      case Panic => r == Panic
  {
    var ip := if path != [] && path[0] == SLASH then ROOTINO else cwd;
    ghost var walk, up := Walk(t, ip, Elements(path)), WalkParent(t, ip, Elements(path));
    var p := path;
    while true
      invariant CString(p)
      invariant !parent ==> walk == Walk(t, ip, Elements(p))
      invariant parent ==> up == WalkParent(t, ip, Elements(p))
      decreases |p|
    {
      ghost var es := Elements(p);
      var rest := SkipElem(p, name);
      if rest.None? {
        break;
      }
      var x := Directory.Key(name[..], DIRSIZ);
      assert es[0] == x && es[1..] == Elements(rest.value);
      if |es| > 1 {
        ParentStep(t, ip, es);
      } else {
        assert es[..|es| - 1] == [];
      }
      // ilock
      if ip !in t {
        return Panic;
      }
      if !t[ip].isDir {
        return NoSuch;
      }
      if parent && rest.value == [] {
        return At(ip);
      }
      // dirlookup, by its map
      if x !in t[ip].entries {
        return NoSuch;
      }
      ip, p := t[ip].entries[x], rest.value;
    }
    if parent {
      return NoSuch;
    }
    return At(ip);
  }
}
