/** Directories of fs.c: a file of 16-byte entries seen as a finite map from names to inode
    numbers, with names compared by strncmp and stored by strncpy on DIRSIZ bytes. */
module Directory {

  const DIRSIZ: nat := 14
  const DIRENT: nat := 16
  const MAXBYTES: nat := 71680   // MAXFILE * BSIZE

  // ---- names ----

  /** b[k] of a C string, whose terminator follows its last byte. */
  function At(b: seq<int>, k: nat): int { if k < |b| then b[k] else 0 }

  /** The length of a name held in at most n bytes. */
  function Length(b: seq<int>, n: nat): (r: nat)
    ensures r <= n && r <= |b|
    ensures forall k :: 0 <= k < r ==> b[k] != 0
    ensures r < n ==> At(b, r) == 0
  {
    if n == 0 then 0
    else
      var r := Length(b, n - 1);
      if r < n - 1 || At(b, r) == 0 then r else n
  }

  /** The name itself. */
  function Key(b: seq<int>, n: nat): seq<int> { b[..Length(b, n)] }

  /** i is where strncmp stops: the first difference, the end of both strings, or n. */
  predicate Stops(p: seq<int>, q: seq<int>, n: nat, i: nat) {
    && i <= n && (forall k :: 0 <= k < i ==> At(p, k) == At(q, k) != 0)
    && (i < n ==> At(p, i) == 0 || At(p, i) != At(q, i))
  }

  /** strncmp: zero exactly on equal names, and else the difference of the first bytes that differ. */
  method Strncmp(p: seq<int>, q: seq<int>, n: nat) returns (r: int)
    ensures r == 0 <==> Key(p, n) == Key(q, n)
    ensures forall i: nat :: Stops(p, q, n, i) ==> r == if i == n then 0 else At(p, i) - At(q, i)
    ensures exists i: nat :: Stops(p, q, n, i)
  {
    var i := 0;
    while i < n && At(p, i) != 0 && At(p, i) == At(q, i)
      invariant i <= n && forall k :: 0 <= k < i ==> At(p, k) == At(q, k) != 0
    {
      i := i + 1;
    }
    SameKey(p, q, n, i);
    assert Stops(p, q, n, i);
    assert forall j: nat :: Stops(p, q, n, j) ==> j == i;
    if i == n {
      return 0;
    }
    return At(p, i) - At(q, i);
  }

  /** Two names agree when they agree up to the first NUL or the last byte. */
  lemma SameKey(p: seq<int>, q: seq<int>, n: nat, i: nat)
    requires i <= n && forall k :: 0 <= k < i ==> At(p, k) == At(q, k) != 0
    requires i < n ==> At(p, i) == 0 || At(p, i) != At(q, i)
    ensures Key(p, n) == Key(q, n) <==> i == n || At(p, i) == At(q, i)
  {
    var a, b := Length(p, n), Length(q, n);
    assert a >= i && b >= i;
    if i == n || At(p, i) == At(q, i) {
      assert a == i && b == i;
      assert forall k :: 0 <= k < i ==> p[k] == At(p, k) == At(q, k) == q[k];
    }
    assert Key(p, n) == Key(q, n) ==> a == |Key(p, n)| == b;
  }

  /** strncpy into a field of n bytes. */
  method Strncpy(t: seq<int>, n: nat) returns (f: seq<int>)
    ensures |f| == n && Key(f, n) == Key(t, n)
    ensures forall k :: Length(t, n) <= k < n ==> f[k] == 0
  {
    f := [];
    var stop := false;
    while |f| < n && !stop
      invariant |f| <= n && (stop ==> f != [])
      invariant forall k :: 0 <= k < |f| ==> f[k] == At(t, k)
      invariant forall k :: 0 <= k < |f| - (if stop then 1 else 0) ==> f[k] != 0
      invariant stop ==> f[|f| - 1] == 0
      decreases n - |f|, !stop
    {
      f := f + [At(t, |f|)];
      stop := f[|f| - 1] == 0;
    }
    ghost var m := |f|;
    while |f| < n
      invariant m <= |f| <= n && forall k :: m <= k < |f| ==> f[k] == 0
      invariant forall k :: 0 <= k < m ==> f[k] == At(t, k)
    {
      f := f + [0];
    }
    assert Length(f, n) == Length(t, n);
  }

  // ---- entries in the bytes of the file ----

  datatype Dirent = Dirent(inum: int, name: seq<int>)

  predicate Bytes(c: seq<int>) { forall k :: 0 <= k < |c| ==> 0 <= c[k] < 256 }

  function Decode(b: seq<int>): Dirent
    requires |b| == DIRENT
  {
    Dirent(b[0] + 256 * b[1], b[2..])
  }

  function Encode(e: Dirent): seq<int> {
    [e.inum % 256, e.inum / 256] + e.name
  }

  predicate DirentOk(e: Dirent) { 0 <= e.inum < 65536 && |e.name| == DIRSIZ && Bytes(e.name) }

  lemma Coded(e: Dirent)
    requires DirentOk(e)
    ensures |Encode(e)| == DIRENT && Bytes(Encode(e)) && Decode(Encode(e)) == e
  {
    assert Encode(e)[2..] == e.name;
  }

  function Slot(c: seq<int>, k: nat): Dirent
    requires (k + 1) * DIRENT <= |c|
  {
    Decode(c[k * DIRENT..(k + 1) * DIRENT])
  }

  predicate ContentOk(c: seq<int>) { Bytes(c) && |c| % DIRENT == 0 }

  function Slots(c: seq<int>): (s: seq<Dirent>)
    requires ContentOk(c)
    ensures |s| == |c| / DIRENT
  {
    seq(|c| / DIRENT, k requires 0 <= k < |c| / DIRENT => Slot(c, k))
  }

  /** writei of one entry at entry k, or just past the end. */
  function Store(c: seq<int>, k: nat, b: seq<int>): seq<int>
    requires k * DIRENT <= |c| && |b| == DIRENT
  {
    c[..k * DIRENT] + b + if (k + 1) * DIRENT <= |c| then c[(k + 1) * DIRENT..] else []
  }

  lemma StoreHere(c: seq<int>, k: nat, b: seq<int>)
    requires k * DIRENT <= |c| && |b| == DIRENT && |c| % DIRENT == 0
    ensures |Store(c, k, b)| == if k < |c| / DIRENT then |c| else |c| + DIRENT
    ensures Store(c, k, b)[k * DIRENT..(k + 1) * DIRENT] == b
  {
  }

  lemma StoreElsewhere(c: seq<int>, k: nat, b: seq<int>, j: nat)
    requires k * DIRENT <= |c| && |b| == DIRENT && |c| % DIRENT == 0 && j != k && (j + 1) * DIRENT <= |c|
    ensures var d := Store(c, k, b);
      (j + 1) * DIRENT <= |d| && d[j * DIRENT..(j + 1) * DIRENT] == c[j * DIRENT..(j + 1) * DIRENT]
  {
    StoreHere(c, k, b);
    var d := Store(c, k, b);
    if j < k {
      assert (j + 1) * DIRENT <= k * DIRENT;
    } else {
      assert (k + 1) * DIRENT <= j * DIRENT;
    }
  }

  lemma StoreSlots(c: seq<int>, k: nat, e: Dirent)
    requires ContentOk(c) && k * DIRENT <= |c| && DirentOk(e)
    ensures |Encode(e)| == DIRENT && ContentOk(Store(c, k, Encode(e)))
    ensures Slots(Store(c, k, Encode(e))) ==
      if k < |Slots(c)| then Slots(c)[k := e] else Slots(c) + [e]
  {
    Coded(e);
    var d := Store(c, k, Encode(e));
    assert ContentOk(d);
    StoreHere(c, k, Encode(e));
    hide Store, Encode, Decode, Bytes;
    forall j | 0 <= j < |d| / DIRENT ensures Slot(d, j) == if j == k then e else Slot(c, j) {
      if j != k {
        StoreElsewhere(c, k, Encode(e), j);
      }
    }
  }

  // ---- the directory as a map ----

  predicate Live(e: Dirent) { e.inum != 0 }
  function NameOf(e: Dirent): seq<int> { Key(e.name, DIRSIZ) }

  /** No two live entries have the same name. */
  predicate Unique(s: seq<Dirent>) {
    forall i, j :: 0 <= i < j < |s| && Live(s[i]) && Live(s[j]) ==> NameOf(s[i]) != NameOf(s[j])
  }

  function Entries(s: seq<Dirent>): map<seq<int>, int> {
    if s == [] then map[]
    else
      var e, m := s[|s| - 1], Entries(s[..|s| - 1]);
      if Live(e) then m[NameOf(e) := e.inum] else m
  }

  ghost predicate Names(s: seq<Dirent>, i: int, x: seq<int>) {
    0 <= i < |s| && Live(s[i]) && NameOf(s[i]) == x
  }

  /** The map has exactly the live entries. */
  lemma {:induction false} EntryAt(s: seq<Dirent>, x: seq<int>)
    requires Unique(s)
    ensures x in Entries(s) <==> exists i :: Names(s, i, x)
    ensures forall i :: Names(s, i, x) ==> x in Entries(s) && Entries(s)[x] == s[i].inum
  {
    if s != [] {
      var t, e := s[..|s| - 1], s[|s| - 1];
      EntryAt(t, x);
      assert forall i :: Names(t, i, x) ==> Names(s, i, x);
      assert forall i :: Names(s, i, x) && i < |t| ==> Names(t, i, x);
      if Live(e) && NameOf(e) == x {
        assert Names(s, |s| - 1, x);
      }
    }
  }

  ghost function Absent(s: seq<Dirent>, x: seq<int>): bool {
    forall i :: 0 <= i < |s| && Live(s[i]) ==> NameOf(s[i]) != x
  }

  /** Writing a live entry under a new name, over a free slot or past the end, adds exactly
      that binding. */
  lemma Added(s: seq<Dirent>, k: nat, e: Dirent, z: seq<Dirent>)
    requires Unique(s) && k <= |s| && Live(e) && Absent(s, NameOf(e)) && (k < |s| ==> !Live(s[k]))
    requires z == if k < |s| then s[k := e] else s + [e]
    ensures Unique(z) && Entries(z) == Entries(s)[NameOf(e) := e.inum]
  {
    assert Unique(z);
    forall x ensures (x in Entries(z) <==> x in Entries(s)[NameOf(e) := e.inum])
      && (x in Entries(z) ==> Entries(z)[x] == Entries(s)[NameOf(e) := e.inum][x])
    {
      EntryAt(s, x);
      EntryAt(z, x);
      assert Names(z, k, NameOf(e));
      assert forall i :: i != k && Names(s, i, x) ==> Names(z, i, x);
      assert forall i :: i != k && Names(z, i, x) ==> Names(s, i, x);
    }
  }

  /** Clearing a slot removes exactly its binding, if it had one. */
  lemma Removed(s: seq<Dirent>, k: nat, e: Dirent)
    requires Unique(s) && k < |s| && !Live(e)
    ensures var z := s[k := e];
      Unique(z) && Entries(z) == if Live(s[k]) then Entries(s) - {NameOf(s[k])} else Entries(s)
  {
    var z := s[k := e];
    var m := if Live(s[k]) then Entries(s) - {NameOf(s[k])} else Entries(s);
    assert Unique(z);
    forall x ensures (x in Entries(z) <==> x in m) && (x in Entries(z) ==> Entries(z)[x] == m[x]) {
      EntryAt(s, x);
      EntryAt(z, x);
      assert forall i :: i != k && Names(s, i, x) ==> Names(z, i, x);
      assert forall i :: Names(z, i, x) ==> i != k && Names(s, i, x);
    }
  }

  const DOT: seq<int> := [46]
  const DOTDOT: seq<int> := [46, 46]

  predicate RestFree(s: seq<Dirent>) { forall i :: 2 <= i < |s| ==> !Live(s[i]) }

  lemma OthersListed(s: seq<Dirent>)
    requires Unique(s) && Names(s, 0, DOT) && Names(s, 1, DOTDOT) && Entries(s).Keys == {DOT, DOTDOT}
    ensures RestFree(s)
  {
    hide Entries, NameOf;
    forall i | 2 <= i < |s| ensures !Live(s[i]) {
      var x := NameOf(s[i]);
      EntryAt(s, x);
      assert Live(s[i]) ==> Names(s, i, x) && x in Entries(s).Keys;
    }
  }

  lemma DotsListed(s: seq<Dirent>)
    requires Unique(s) && Names(s, 0, DOT) && Names(s, 1, DOTDOT) && RestFree(s)
    ensures Entries(s).Keys == {DOT, DOTDOT}
  {
    hide Entries, NameOf;
    EntryAt(s, DOT);
    EntryAt(s, DOTDOT);
    forall x | x in Entries(s).Keys ensures x in {DOT, DOTDOT} {
      EntryAt(s, x);
      var i :| Names(s, i, x);
      assert i < 2;
    }
  }

  /** Every slot after the dots is free exactly when the map binds only the dots. */
  lemma OnlyDots(s: seq<Dirent>)
    requires Unique(s) && Names(s, 0, DOT) && Names(s, 1, DOTDOT)
    ensures RestFree(s) <==> Entries(s).Keys == {DOT, DOTDOT}
  {
    hide Unique, Names, RestFree, Entries;
    if RestFree(s) {
      DotsListed(s);
    }
    if Entries(s).Keys == {DOT, DOTDOT} {
      OthersListed(s);
    }
  }

  /** z is s with the entry (inum, x) in its first free slot, which is added if there is none. */
  predicate Filled(s: seq<Dirent>, z: seq<Dirent>, k: nat, inum: int, x: seq<int>) {
    && k <= |s| && (forall i :: 0 <= i < k ==> Live(s[i])) && (k < |s| ==> !Live(s[k]))
    && |z| == (if k < |s| then |s| else |s| + 1) && z[k].inum == inum && NameOf(z[k]) == x
    && forall i :: 0 <= i < |s| && i != k ==> z[i] == s[i]
  }

  datatype Linked = Linked | Exists | Panic

  class Dir {
    var content: seq<int>

    ghost predicate Valid()
      reads this
    {
      ContentOk(content) && |content| <= MAXBYTES && Unique(Slots(content))
    }

    ghost function Map(): map<seq<int>, int>
      requires Valid()
      reads this
    {
      Entries(Slots(content))
    }

    /** readi of one entry */
    method ReadEntry(k: nat) returns (e: Dirent)
      requires Valid() && k < |Slots(content)|
      ensures e == Slots(content)[k] && 0 <= e.inum < 65536
    {
      e := Decode(content[k * DIRENT..(k + 1) * DIRENT]);
    }

    /** dirlookup: the inode number bound to the name, and the entry that binds it */
    method Lookup(name: seq<int>) returns (inum: int, k: nat)
      requires Valid()
      ensures inum != 0 <==> Key(name, DIRSIZ) in Map()
      ensures inum != 0 ==> Map()[Key(name, DIRSIZ)] == inum && Names(Slots(content), k, Key(name, DIRSIZ))
      ensures inum == 0 ==> Absent(Slots(content), Key(name, DIRSIZ))
    {
      ghost var x, s := Key(name, DIRSIZ), Slots(content);
      EntryAt(s, x);
      k := 0;
      while k * DIRENT < |content|
        invariant k <= |s| && forall i :: 0 <= i < k && Live(s[i]) ==> NameOf(s[i]) != x
        decreases |s| - k
      {
        var e := ReadEntry(k);
        if e.inum != 0 {
          var d := Strncmp(name, e.name, DIRSIZ);
          if d == 0 {
            assert Names(s, k, x);
            return e.inum, k;
          }
        }
        k := k + 1;
      }
      assert forall i :: !Names(s, i, x);
      return 0, k;
    }

    /** The first free entry, or the end. */
    method FreeEntry() returns (k: nat)
      requires Valid()
      ensures k <= |Slots(content)| && (k < |Slots(content)| ==> !Live(Slots(content)[k]))
      ensures forall i :: 0 <= i < k ==> Live(Slots(content)[i])
    {
      k := 0;
      while k * DIRENT < |content|
        invariant k <= |Slots(content)| && forall i :: 0 <= i < k ==> Live(Slots(content)[i])
        decreases |Slots(content)| - k
      {
        var e := ReadEntry(k);
        if e.inum == 0 {
          return;
        }
        k := k + 1;
      }
    }

    /** dirlink: refuses a name that is present, and otherwise binds it.  The number is cut
        to 16 bits; an entry past the largest file is a panic. */
    method Link(name: seq<int>, inum: nat) returns (r: Linked)
      requires Valid() && Bytes(name)
      modifies this
      ensures Valid()
      ensures r.Exists? <==> Key(name, DIRSIZ) in old(Map())
      ensures r.Linked? ==> Map() == if inum % 65536 == 0 then old(Map()) else old(Map())[Key(name, DIRSIZ) := inum % 65536]
      ensures r.Linked? ==> exists k: nat :: Filled(old(Slots(content)), Slots(content), k, inum % 65536, Key(name, DIRSIZ))
      ensures !r.Linked? ==> content == old(content)
      ensures r.Panic? <==>
        Key(name, DIRSIZ) !in old(Map()) && old(|content|) == MAXBYTES && forall e :: e in old(Slots(content)) ==> Live(e)
    {
      var found, _ := Lookup(name);
      if found != 0 {
        return Exists;
      }
      var k := FreeEntry();
      var f := Strncpy(name, DIRSIZ);
      var e := Dirent(inum % 65536, f);
      FieldBytes(f, name);
      if (k + 1) * DIRENT > MAXBYTES {
        assert k >= |Slots(content)|;
        return Panic;
      }
      StoreSlots(content, k, e);
      FilledBy(Slots(content), k, e, Slots(Store(content, k, Encode(e))));
      hide Filled, Slots, Store, Encode, Key, Unique, Entries, Bytes;
      if Live(e) {
        Added(Slots(content), k, e, Slots(Store(content, k, Encode(e))));
      } else {
        StillFree(Slots(content), k, e, Slots(Store(content, k, Encode(e))));
      }
      content := Store(content, k, Encode(e));
      return Linked;
    }

    /** The entry of a removed name is overwritten with zeros. */
    method Erase(k: nat)
      requires Valid() && k < |Slots(content)| && Live(Slots(content)[k])
      modifies this
      ensures Valid() && Map() == old(Map()) - {old(NameOf(Slots(content)[k]))}
      ensures Slots(content) == old(Slots(content))[k := Dirent(0, seq(DIRSIZ, _ => 0))]
    {
      var e := Dirent(0, seq(DIRSIZ, _ => 0));
      StoreSlots(content, k, e);
      Removed(Slots(content), k, e);
      content := Store(content, k, Encode(e));
    }

    /** isdirempty, on a directory whose first two entries are its dots */
    method IsEmpty() returns (b: bool)
      requires Valid() && Names(Slots(content), 0, DOT) && Names(Slots(content), 1, DOTDOT)
      ensures b <==> Map().Keys == {DOT, DOTDOT}
    {
      OnlyDots(Slots(content));
      var k := 2;
      while k * DIRENT < |content|
        invariant forall i :: 2 <= i < k && i < |Slots(content)| ==> !Live(Slots(content)[i])
        decreases |content| - k * DIRENT
      {
        var e := ReadEntry(k);
        if e.inum != 0 {
          return false;
        }
        k := k + 1;
      }
      return true;
    }
  }

  lemma FieldBytes(f: seq<int>, name: seq<int>)
    requires Bytes(name) && |f| == DIRSIZ && Key(f, DIRSIZ) == Key(name, DIRSIZ)
    requires forall k :: Length(name, DIRSIZ) <= k < DIRSIZ ==> f[k] == 0
    ensures Bytes(f)
  {
    forall k | 0 <= k < DIRSIZ ensures 0 <= f[k] < 256 {
      if k < Length(name, DIRSIZ) {
        assert f[k] == Key(f, DIRSIZ)[k] == Key(name, DIRSIZ)[k];
      }
    }
  }

  lemma FilledBy(s: seq<Dirent>, k: nat, e: Dirent, z: seq<Dirent>)
    requires k <= |s| && (forall i :: 0 <= i < k ==> Live(s[i])) && (k < |s| ==> !Live(s[k]))
    requires z == if k < |s| then s[k := e] else s + [e]
    ensures Filled(s, z, k, e.inum, Key(e.name, DIRSIZ))
  {
  }

  lemma StillFree(s: seq<Dirent>, k: nat, e: Dirent, z: seq<Dirent>)
    requires Unique(s) && k <= |s| && !Live(e) && (k < |s| ==> !Live(s[k]))
    requires z == if k < |s| then s[k := e] else s + [e]
    ensures Unique(z) && Entries(z) == Entries(s)
  {
    if k < |s| {
      Removed(s, k, e);
    } else {
      assert z[..|s|] == s;
    }
  }
}
