/** The bodies of create, sys_link and sys_unlink, with their rollback. */
module NamespaceCode {
  import opened Options
  import opened Namespace

  datatype Status = Done | Refused | Panic

  class Files {
    var inodes: Fs
    const ninodes: nat

    constructor (inodes: Fs, ninodes: nat)
      ensures this.inodes == inodes && this.ninodes == ninodes
    {
      this.inodes, this.ninodes := inodes, ninodes;
    }

    /** ialloc: the first free inode number */
    method Ialloc() returns (x: Option<Inum>)
      ensures x.Some? ==> 1 <= x.value < ninodes && x.value !in inodes && forall y :: 1 <= y < x.value ==> y in inodes
      ensures x.None? ==> forall y :: 1 <= y < ninodes ==> y in inodes
    {
      var inum := 1;
      while inum < ninodes
        invariant 1 <= inum && forall y :: 1 <= y < inum ==> y in inodes
      {
        if inum !in inodes {
          return Some(inum);
        }
        inum := inum + 1;
      }
      return None;
    }

    method SetLink(x: Inum, nlink: int)
      requires x in inodes
      modifies this
      ensures inodes == old(inodes)[x := old(inodes)[x].(nlink := Short(nlink))]
    {
      inodes := inodes[x := inodes[x].(nlink := Short(nlink))];
    }

    /** dirlink, by its map */
    method DirLink(dp: Inum, n: Name, x: Inum) returns (ok: bool)
      requires dp in inodes
      modifies this
      ensures ok <==> n !in old(inodes)[dp].entries
      ensures inodes == if ok then old(inodes)[dp := old(inodes)[dp].(entries := old(inodes)[dp].entries[n := x])] else old(inodes)
    {
      ok := n !in inodes[dp].entries;
      if ok {
        inodes := inodes[dp := inodes[dp].(entries := inodes[dp].entries[n := x])];
      }
    }

    /** create, once nameiparent has found dp; the caller gets the inode with a reference */
    method CreateAt(dp: Inum, n: Name, kind: Kind) returns (r: Status, x: Inum)
      requires IsDir(inodes, dp) && DOT in inodes[dp].entries
      modifies this
      ensures r.Done? && n in old(inodes)[dp].entries ==>
        && x == old(inodes)[dp].entries[n] && kind.File? && x in old(inodes) && old(inodes)[x].kind.File?
        && inodes == old(inodes)[x := old(inodes)[x].(refs := old(inodes)[x].refs + 1)] == Taken(old(inodes), x)
      ensures r.Done? && n !in old(inodes)[dp].entries ==>
        CanCreate(old(inodes), dp, n, x) && inodes == Created(old(inodes), dp, n, kind, x)
      // the inode is what was asked for, and only the directory notices
      ensures r.Done? && n !in old(inodes)[dp].entries ==>
        && inodes.Keys == old(inodes).Keys + {x}
        && inodes[x] == Ino(kind, 1, if kind == Dir then map[DOT := x, DOTDOT := dp] else map[], 1)
        && inodes[dp] == old(inodes)[dp].(entries := old(inodes)[dp].entries[n := x], nlink := inodes[dp].nlink)
        && inodes[dp].nlink == (if kind == Dir then Short(old(inodes)[dp].nlink + 1) else old(inodes)[dp].nlink)
        && forall y :: y in old(inodes) && y != dp ==> inodes[y] == old(inodes)[y]
      ensures r.Refused? ==> n in old(inodes)[dp].entries && x == old(inodes)[dp].entries[n] && x in old(inodes) &&
                             !(kind.File? && old(inodes)[x].kind.File?)
      ensures !r.Done? ==> inodes == old(inodes)
      // a name whose inode has been freed, or no inode left for a new one
      ensures r.Panic? <==>
        if n in old(inodes)[dp].entries then old(inodes)[dp].entries[n] !in old(inodes)
        else forall y :: 1 <= y < ninodes ==> y in old(inodes)
    {
      if n in inodes[dp].entries {
        x := inodes[dp].entries[n];
        if x !in inodes {
          return Panic, x;
        }
        if kind.File? && inodes[x].kind.File? {
          inodes := inodes[x := inodes[x].(refs := inodes[x].refs + 1)];
          return Done, x;
        }
        return Refused, x;
      }
      var a := Ialloc();
      if a.None? {
        return Panic, 0;
      }
      x := a.value;
      ghost var fs := inodes;
      inodes := inodes[x := Ino(kind, 1, map[], 1)];
      if kind.Dir? {
        SetLink(dp, inodes[dp].nlink + 1);
        var ok := DirLink(x, DOT, x);
        ok := DirLink(x, DOTDOT, dp);
        assert inodes[x].entries == map[DOT := x, DOTDOT := dp];
      }
      var linked := DirLink(dp, n, x);
      assert inodes == Created(fs, dp, n, kind, x);
      return Done, x;
    }

    /** sys_link, once namei and nameiparent have been tried; a refusal undoes the count */
    method LinkAt(ip: Inum, dp: Option<Inum>, n: Name) returns (r: Status)
      requires ip in inodes ==> -32768 <= inodes[ip].nlink <= MAXLINK
      requires dp.Some? ==> IsDir(inodes, dp.value)
      modifies this
      ensures r.Panic? <==> ip !in old(inodes)
      ensures r.Done? <==> dp.Some? && CanLink(old(inodes), dp.value, n, ip)
      ensures inodes == if r.Done? then Added(old(inodes), dp.value, n, ip) else old(inodes)
      ensures r.Done? ==>
        && inodes.Keys == old(inodes).Keys
        && inodes[ip] == old(inodes)[ip].(nlink := Short(old(inodes)[ip].nlink + 1))
        && inodes[dp.value] == old(inodes)[dp.value].(entries := old(inodes)[dp.value].entries[n := ip])
        && forall y :: y in old(inodes) && y != dp.value && y != ip ==> inodes[y] == old(inodes)[y]
    {
      ghost var fs := inodes;
      if ip !in inodes {
        return Panic;
      }
      if inodes[ip].kind.Dir? {
        return Refused;
      }
      var nlink := inodes[ip].nlink;
      SetLink(ip, nlink + 1);
      if dp.Some? {
        var ok := DirLink(dp.value, n, ip);
        if ok {
          return Done;
        }
      }
      SetLink(ip, inodes[ip].nlink - 1);
      Undone(nlink);
      assert inodes == fs;
      return Refused;
    }

    /** sys_unlink, once nameiparent has found dp */
    method UnlinkAt(dp: Inum, n: Name) returns (r: Status)
      requires IsDir(inodes, dp)
      modifies this
      ensures r.Done? <==> CanUnlink(old(inodes), dp, n)
      ensures inodes == if r.Done? then Removed(old(inodes), dp, n) else old(inodes)
      // the name is gone, the inode has one link less, and goes with its last link unless somebody holds it
      ensures r.Done? ==>
        var x := old(inodes)[dp].entries[n];
        var was, up, left := old(inodes)[x], old(inodes)[dp], Short(old(inodes)[x].nlink - 1);
        && x != dp && inodes.Keys == old(inodes).Keys - (if left == 0 && was.refs == 0 then {x} else {})
        && (x in inodes ==> inodes[x] == was.(nlink := left))
        && inodes[dp] == up.(entries := up.entries - {n}, nlink := if was.kind.Dir? then Short(up.nlink - 1) else up.nlink)
        && forall y :: y in old(inodes) && y != dp && y != x ==> y in inodes && inodes[y] == old(inodes)[y]
      ensures r.Panic? <==> Proper(n) && n in old(inodes)[dp].entries &&
                            var x := old(inodes)[dp].entries[n]; x !in old(inodes) || old(inodes)[x].nlink < 1
    {
      hide Settled, Dropped, Inv;
      if n == DOT || n == DOTDOT {
        return Refused;
      }
      if n !in inodes[dp].entries {
        return Refused;
      }
      var x := inodes[dp].entries[n];
      if x !in inodes || inodes[x].nlink < 1 {
        return Panic;
      }
      if inodes[x].kind.Dir? && inodes[x].entries.Keys != {DOT, DOTDOT} {
        return Refused;
      }
      var isDir := inodes[x].kind.Dir?;
      ghost var fs := inodes;
      // dirlookup's iget
      inodes := inodes[x := inodes[x].(refs := inodes[x].refs + 1)];
      inodes := inodes[dp := inodes[dp].(entries := inodes[dp].entries - {n})];
      if isDir {
        SetLink(dp, inodes[dp].nlink - 1);
      }
      SetLink(x, inodes[x].nlink - 1);
      assert inodes == Taken(Detached(fs, dp, n), x);
      PutTaken(Detached(fs, dp, n), x);
      Iput(x);
      UnlinkIs(fs, dp, n);
      return Done;
    }

    /** iput: the last holder of an inode without links frees it. */
    method Iput(x: Inum)
      requires x in inodes && inodes[x].refs > 0
      modifies this
      ensures x in inodes <==> old(inodes)[x].nlink != 0 || old(inodes)[x].refs > 1
      ensures x in inodes ==> inodes[x] == old(inodes)[x].(refs := old(inodes)[x].refs - 1)
      ensures inodes - {x} == old(inodes) - {x}
      ensures inodes == Dropped(old(inodes), x)
      ensures old(Inv(inodes)) ==> Inv(inodes)
    {
      hide Inv;
      if Inv(inodes) { DropKeeps(inodes, x); }
      if inodes[x].nlink == 0 && inodes[x].refs == 1 {
        inodes := inodes - {x};
        return;
      }
      inodes := inodes[x := inodes[x].(refs := inodes[x].refs - 1)];
    }
  }

  lemma UnlinkIs(fs: Fs, dp: Inum, n: Name)
    requires CanUnlink(fs, dp, n)
    ensures var x, z := fs[dp].entries[n], Removed(fs, dp, n);
      var was, up, left := fs[x], fs[dp], Short(fs[x].nlink - 1);
      && x != dp && z.Keys == fs.Keys - (if left == 0 && was.refs == 0 then {x} else {})
      && (x in z ==> z[x] == was.(nlink := left))
      && z[dp] == up.(entries := up.entries - {n}, nlink := if was.kind.Dir? then Short(up.nlink - 1) else up.nlink)
      && forall y :: y in fs && y != dp && y != x ==> y in z && z[y] == fs[y]
  {
    hide Short;
    assert fs[dp].entries.Keys != {DOT, DOTDOT};
  }

  lemma PutTaken(fs: Fs, x: Inum)
    requires x in fs
    ensures Dropped(Taken(fs, x), x) == Settled(fs, x)
  {
    assert fs[x := fs[x].(refs := fs[x].refs + 1)][x := fs[x]] == fs;
  }

  /** Raising a count and lowering it again is no change, even across overflow. */
  lemma Undone(n: int)
    requires -32768 <= n <= MAXLINK
    ensures Short(Short(n + 1) - 1) == n
  {
  }
}
