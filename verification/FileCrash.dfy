/** writei over the log: the file after a crash. */
module FileCrash {
  import opened Blocks
  import opened Dinodes
  import opened Inodes
  import opened InodeCode
  import Log = LogMachine
  import LogAlone

  /** The blocks of a disk whose home blocks are h. */
  function Image(l: Layout, h: Log.Home): seq<Block> {
    seq(l.size, b requires 0 <= b => if b in h then h[b] else ZeroBlock())
  }

  /** The file system that a disk holds: the inodes are read from their blocks. */
  function OnDisk(l: Layout, data: seq<Block>, keys: set<nat>): Fs {
    Fs(data, map i | i in keys :: DinodeAt(l, data, i))
  }

  function Writes(op: Log.OpId, trace: seq<LogRec>): (ws: seq<Log.Write>)
    ensures |ws| == |trace|
  {
    seq(|trace|, i requires 0 <= i < |trace| => Log.Write(op, trace[i].b, trace[i].data))
  }

  lemma {:induction false} Replayed(l: Layout, h: Log.Home, op: Log.OpId, trace: seq<LogRec>)
    ensures Image(l, Log.ApplyWrites(h, Writes(op, trace))) == Replay(Image(l, h), trace)
    decreases |trace|
  {
    if trace != [] {
      var n := |trace| - 1;
      Replayed(l, h, op, trace[..n]);
      assert Writes(op, trace)[..n] == Writes(op, trace[..n]);
    }
  }

  lemma SyncedIs(l: Layout, fs: Fs)
    requires Synced(l, fs)
    ensures OnDisk(l, fs.data, fs.inode.Keys) == fs
  {
    hide DinodeAt;
  }

  /** A run of the log in which, from point k on, only one operation writes: the one that did the
      writes of the trace, on a disk that held data. */
  ghost predicate Setting(l: Layout, p: Log.Layout, s0: Log.State, ls: seq<Log.Label>, k: nat, op: Log.OpId, data: seq<Block>, trace: seq<LogRec>) {
    && Log.Initial(p, s0) && Log.Valid(p, s0, ls) && k <= |ls| && Log.Valid(p, s0, ls[..k])
    && LogAlone.Quiescent(Log.Exec(p, s0, ls[..k])) && LogAlone.Alone(ls, k, op, Writes(op, trace))
    && data == Image(l, Log.Durable(p, Log.Exec(p, s0, ls[..k]).m.disk))
  }

  /** What a crash at the end of the run leaves, once recovery has run. */
  ghost function Left(l: Layout, p: Log.Layout, s0: Log.State, ls: seq<Log.Label>, keys: set<nat>): Fs
    requires Log.Valid(p, s0, ls)
  {
    OnDisk(l, Image(l, Log.Durable(p, Log.Exec(p, s0, ls).m.disk)), keys)
  }

  lemma OldOrNew(l: Layout, a: Fs, b: Fs, trace: seq<LogRec>, p: Log.Layout, s0: Log.State, ls: seq<Log.Label>, k: nat, op: Log.OpId)
    requires Setting(l, p, s0, ls, k, op, a.data, trace) && b.data == Replay(a.data, trace)
    requires Synced(l, a) && Synced(l, b) && b.inode.Keys == a.inode.Keys
    ensures Left(l, p, s0, ls, a.inode.Keys) == a || Left(l, p, s0, ls, a.inode.Keys) == b
  {
    hide OnDisk, Image, Synced, Replay;
    SyncedIs(l, a);
    SyncedIs(l, b);
    var h := Log.Durable(p, Log.Exec(p, s0, ls[..k]).m.disk);
    Replayed(l, h, op, trace);
    LogAlone.AllOrNothing(p, s0, ls, k, op, Writes(op, trace));
  }

  /** The file is as it was, or has all the new bytes; every other file is as it was; every block
      has its one owner and the bitmap is right. */
  ghost predicate Atomic(l: Layout, a: Fs, inum: nat, off: nat, src: seq<Byte>, c: Fs) {
    && inum in a.inode && off <= |Content(a, inum)| && c.inode.Keys == a.inode.Keys && (exists o :: Inv(l, c, o))
    && (Content(c, inum) == Content(a, inum) || Content(c, inum) == Splice(Content(a, inum), off, src))
    && forall i :: i in a.inode && i != inum ==> Content(c, i) == Content(a, i)
  }

  lemma BothAtomic(l: Layout, a: Fs, oa: Owner, b: Fs, ob: Owner, inum: nat, off: nat, src: seq<Byte>)
    requires Inv(l, a, oa) && Inv(l, b, ob) && inum in a.inode && off <= |Content(a, inum)| && b.inode.Keys == a.inode.Keys
    requires Content(b, inum) == Splice(Content(a, inum), off, src)
    requires forall i :: i in a.inode && i != inum ==> Content(b, i) == Content(a, i)
    ensures Atomic(l, a, inum, off, src, a) && Atomic(l, a, inum, off, src, b)
  {
    hide Inv, Content, Splice;
  }

  /** One transaction of filewrite.  Run it over the log, stop the machine at any point and recover:
      the write has happened or it has not. */
  method WriteOnce(fs: FileSystem, inum: nat, src: seq<Byte>, off: nat) returns (r: IoResult)
    requires fs.Valid() && fs.InStep() && inum in fs.inode && off < TWO32 && |src| < TWO32
    modifies fs
    ensures r.Done? ==> fs.Valid() && fs.InStep()
    ensures r.Done? ==> forall p, s0, ls, k: nat, op | Setting(fs.l, p, s0, ls, k, op, old(fs.data), fs.trace) ::
      Atomic(fs.l, old(fs.S()), inum, off, src, Left(fs.l, p, s0, ls, old(fs.inode).Keys))
  {
    hide Inv, Content, Splice, Left, Atomic, Image, Log.Valid, Log.Exec, Log.Initial, LogAlone.Alone, Synced, Replay, Touched, Uses, Grown, Missing, Cost, Span, FreeBlocks;
    ghost var a, oa, l := fs.S(), fs.o, fs.l;
    ContentSize(a, inum);
    fs.BeginOp();
    ghost var w;
    r, w := fs.Writei(inum, src, off);
    if r.Done? {
      ghost var b := fs.S();
      WriteInRange(a.inode[inum].size, off, |src|);
      BothAtomic(l, a, oa, b, fs.o, inum, off, src);
      forall p, s0, ls, k: nat, op | Setting(l, p, s0, ls, k, op, a.data, fs.trace)
        ensures Atomic(l, a, inum, off, src, Left(l, p, s0, ls, a.inode.Keys))
      {
        OldOrNew(l, a, b, fs.trace, p, s0, ls, k, op);
      }
    }
  }

  lemma WriteInRange(size: nat, off: nat, n: nat)
    requires !WriteFails(size, off, n)
    ensures off <= size
  {
  }
}
