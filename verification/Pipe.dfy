/** The pipe of pipe.c: a ring of PIPESIZE bytes between two 32-bit counters, and the
    blocking protocol of its readers and writers. */
module Pipe {

  const PIPESIZE: nat := 512
  const TWO32: nat := 0x1_0000_0000

  // ---- the ring ----

  datatype Ring = Ring(data: seq<int>, nread: nat, nwrite: nat)

  /** nwrite - nread, in 32-bit arithmetic. */
  function Count(r: Ring): int {
    if r.nread <= r.nwrite then r.nwrite - r.nread else r.nwrite + TWO32 - r.nread
  }

  predicate RingOk(r: Ring) {
    |r.data| == PIPESIZE && r.nread < TWO32 && r.nwrite < TWO32 && Count(r) <= PIPESIZE
  }

  /** The bytes stored and not yet delivered, oldest first. */
  function Queue(r: Ring): (q: seq<int>)
    requires RingOk(r)
    ensures |q| == Count(r)
  {
    seq(Count(r), k requires 0 <= k < Count(r) => r.data[(r.nread + k) % PIPESIZE])
  }

  predicate Full(r: Ring) { r.nwrite == (r.nread + PIPESIZE) % TWO32 }
  predicate Empty(r: Ring) { r.nread == r.nwrite }

  /** p->data[p->nwrite++ % PIPESIZE] = x */
  function Put(r: Ring, x: int): Ring
    requires |r.data| == PIPESIZE
  {
    Ring(r.data[r.nwrite % PIPESIZE := x], r.nread, (r.nwrite + 1) % TWO32)
  }

  /** p->data[p->nread++ % PIPESIZE] */
  function Next(r: Ring): int
    requires |r.data| == PIPESIZE
  {
    r.data[r.nread % PIPESIZE]
  }

  function Get(r: Ring): Ring {
    r.(nread := (r.nread + 1) % TWO32)
  }

  /** The tests for full and empty are right across wrap-around of the counters. */
  lemma Tests(r: Ring)
    requires RingOk(r)
    ensures Full(r) <==> |Queue(r)| == PIPESIZE
    ensures Empty(r) <==> |Queue(r)| == 0
  {
  }

  lemma Wrap(n: nat, k: nat)
    requires n < TWO32
    ensures ((n + 1) % TWO32 + k) % PIPESIZE == (n + 1 + k) % PIPESIZE
  {
  }

  lemma PutCount(r: Ring, x: int)
    requires RingOk(r) && !Full(r)
    ensures RingOk(Put(r, x)) && Count(Put(r, x)) == Count(r) + 1 <= PIPESIZE
    ensures (r.nread + Count(r)) % PIPESIZE == r.nwrite % PIPESIZE
  {
  }

  lemma PutQueue(r: Ring, x: int)
    requires RingOk(r) && !Full(r)
    ensures RingOk(Put(r, x)) && Queue(Put(r, x)) == Queue(r) + [x]
  {
    PutCount(r, x);
    hide Count, RingOk, Full;
    forall k | 0 <= k < Count(r) ensures Queue(Put(r, x))[k] == Queue(r)[k] {
      Apart(r.nread, k, Count(r));
    }
  }

  lemma Apart(a: nat, k: nat, n: nat)
    requires k < n < PIPESIZE
    ensures (a + k) % PIPESIZE != (a + n) % PIPESIZE
  {
  }

  lemma GetCount(r: Ring)
    requires RingOk(r) && !Empty(r)
    ensures RingOk(Get(r)) && Count(Get(r)) == Count(r) - 1 >= 0
  {
  }

  lemma GetQueue(r: Ring)
    requires RingOk(r) && !Empty(r)
    ensures RingOk(Get(r)) && Queue(r) == [Next(r)] + Queue(Get(r))
  {
    GetCount(r);
    hide Count, Empty;
    forall k: nat | k < Count(r) - 1 ensures Queue(Get(r))[k] == Queue(r)[k + 1] {
      Wrap(r.nread, k);
    }
  }

  // ---- readers and writers ----

  type Pid = nat

  /** Where a process stands.  sleep() gives up the pipe lock and sleeps in one step; kill() does
      not take the pipe lock, so it can fall between the test of p->killed and the sleep.
      A write carries its bytes and how many it has stored, a read what it has copied. */
  datatype Pc =
    | Out
    | WWait(call: nat, src: seq<int>, i: nat)    // pipewrite: wants the lock
    | WHold(call: nat, src: seq<int>, i: nat)    // holds it, about to store byte i
    | WTested(call: nat, src: seq<int>, i: nat)  // holds it, was not killed, about to sleep
    | WSleep(call: nat, src: seq<int>, i: nat)   // asleep on &p->nwrite
    | RWait(n: nat)                              // piperead: wants the lock
    | RHold(n: nat)                              // holds it, at the test for empty
    | RTested(n: nat)                            // holds it, was not killed, about to sleep
    | RSleep(n: nat)                             // asleep on &p->nread
    | RCopy(n: nat, got: seq<int>)               // holds it, copying

  predicate Writes(pc: Pc) { pc.WWait? || pc.WHold? || pc.WTested? || pc.WSleep? }
  predicate Reads(pc: Pc) { pc.RWait? || pc.RHold? || pc.RTested? || pc.RSleep? || pc.RCopy? }
  predicate Locks(pc: Pc) { pc.WHold? || pc.WTested? || pc.RHold? || pc.RTested? || pc.RCopy? }

  datatype Lock = Free | Held(pid: Pid)

  /** A stored byte and the write call it came from. */
  datatype Cell = Cell(call: nat, byte: int)

  /** The history of a pipe: every byte ever stored and every byte ever taken out, the write
      calls that returned in full, and what each finished read returned. */
  datatype History = History(
    calls: nat, stored: seq<Cell>, delivered: seq<int>,
    written: map<nat, seq<int>>, taken: seq<seq<int>>)

  datatype State = State(
    ring: Ring, readopen: bool, writeopen: bool, lock: Lock,
    pcs: map<Pid, Pc>, killed: set<Pid>, h: History)

  datatype Step =
    | StartWrite(p: Pid, src: seq<int>) | StartRead(p: Pid, n: nat)
    | Acquire(p: Pid)
    | WStore(p: Pid) | WFail(p: Pid) | WTest(p: Pid) | WBlock(p: Pid) | WDone(p: Pid)
    | RFail(p: Pid) | RTest(p: Pid) | RBlock(p: Pid) | RGo(p: Pid) | RByte(p: Pid) | RDone(p: Pid)
    | CloseWrite | CloseRead
    | Kill(p: Pid)

  ghost predicate Enabled(s: State, t: Step) {
    match t
    case StartWrite(p, src) => p in s.pcs && s.pcs[p].Out? && s.writeopen
    case StartRead(p, n) => p in s.pcs && s.pcs[p].Out? && s.readopen
    case Acquire(p) => p in s.pcs && (s.pcs[p].WWait? || s.pcs[p].RWait?) && s.lock.Free?
    case WStore(p) => p in s.pcs && s.pcs[p].WHold? && s.pcs[p].i < |s.pcs[p].src| && !Full(s.ring) && RingOk(s.ring)
    case WFail(p) => p in s.pcs && s.pcs[p].WHold? && s.pcs[p].i < |s.pcs[p].src| && Full(s.ring) && (!s.readopen || p in s.killed)
    case WTest(p) => p in s.pcs && s.pcs[p].WHold? && s.pcs[p].i < |s.pcs[p].src| && Full(s.ring) && s.readopen && p !in s.killed
    case WBlock(p) => p in s.pcs && s.pcs[p].WTested?
    case WDone(p) => p in s.pcs && s.pcs[p].WHold? && s.pcs[p].i >= |s.pcs[p].src|
    case RFail(p) => p in s.pcs && s.pcs[p].RHold? && Empty(s.ring) && s.writeopen && p in s.killed
    case RTest(p) => p in s.pcs && s.pcs[p].RHold? && Empty(s.ring) && s.writeopen && p !in s.killed
    case RBlock(p) => p in s.pcs && s.pcs[p].RTested?
    case RGo(p) => p in s.pcs && s.pcs[p].RHold? && !(Empty(s.ring) && s.writeopen)
    case RByte(p) => p in s.pcs && s.pcs[p].RCopy? && |s.pcs[p].got| < s.pcs[p].n && !Empty(s.ring) && RingOk(s.ring)
    case RDone(p) => p in s.pcs && s.pcs[p].RCopy? && (|s.pcs[p].got| >= s.pcs[p].n || Empty(s.ring))
    // the last descriptor of an end is closed only when no call on it is in progress
    case CloseWrite => s.writeopen && s.lock.Free? && forall p :: p in s.pcs ==> !Writes(s.pcs[p])
    case CloseRead => s.readopen && s.lock.Free? && forall p :: p in s.pcs ==> !Reads(s.pcs[p])
    case Kill(p) => p in s.pcs
  }

  function WakeReaders(pcs: map<Pid, Pc>): map<Pid, Pc> {
    map p | p in pcs :: if pcs[p].RSleep? then RWait(pcs[p].n) else pcs[p]
  }

  function WakeWriters(pcs: map<Pid, Pc>): map<Pid, Pc> {
    map p | p in pcs :: if pcs[p].WSleep? then WWait(pcs[p].call, pcs[p].src, pcs[p].i) else pcs[p]
  }

  /** kill() makes a sleeper runnable whatever it sleeps on. */
  function Roused(pc: Pc): Pc {
    if pc.RSleep? then RWait(pc.n)
    else if pc.WSleep? then WWait(pc.call, pc.src, pc.i)
    else pc
  }

  ghost function Apply(s: State, t: Step): State
    requires Enabled(s, t)
  {
    match t
    case StartWrite(p, src) =>
      s.(pcs := s.pcs[p := WWait(s.h.calls, src, 0)], h := s.h.(calls := s.h.calls + 1))
    case StartRead(p, n) => s.(pcs := s.pcs[p := RWait(n)])
    case Acquire(p) =>
      s.(lock := Held(p),
         pcs := s.pcs[p := if s.pcs[p].WWait? then WHold(s.pcs[p].call, s.pcs[p].src, s.pcs[p].i)
                           else RHold(s.pcs[p].n)])
    case WStore(p) =>
      s.(ring := Put(s.ring, s.pcs[p].src[s.pcs[p].i]),
         h := s.h.(stored := s.h.stored + [Cell(s.pcs[p].call, s.pcs[p].src[s.pcs[p].i])]),
         pcs := s.pcs[p := WHold(s.pcs[p].call, s.pcs[p].src, s.pcs[p].i + 1)])
    case WFail(p) => s.(lock := Free, pcs := s.pcs[p := Out])
    case WTest(p) => s.(pcs := s.pcs[p := WTested(s.pcs[p].call, s.pcs[p].src, s.pcs[p].i)])
    case WBlock(p) =>
      s.(lock := Free, pcs := WakeReaders(s.pcs)[p := WSleep(s.pcs[p].call, s.pcs[p].src, s.pcs[p].i)])
    case WDone(p) =>
      s.(lock := Free, pcs := WakeReaders(s.pcs)[p := Out],
         h := s.h.(written := s.h.written[s.pcs[p].call := s.pcs[p].src]))
    case RFail(p) => s.(lock := Free, pcs := s.pcs[p := Out])
    case RTest(p) => s.(pcs := s.pcs[p := RTested(s.pcs[p].n)])
    case RBlock(p) => s.(lock := Free, pcs := s.pcs[p := RSleep(s.pcs[p].n)])
    case RGo(p) => s.(pcs := s.pcs[p := RCopy(s.pcs[p].n, [])])
    case RByte(p) =>
      s.(ring := Get(s.ring), h := s.h.(delivered := s.h.delivered + [Next(s.ring)]),
         pcs := s.pcs[p := RCopy(s.pcs[p].n, s.pcs[p].got + [Next(s.ring)])])
    case RDone(p) =>
      s.(lock := Free, pcs := WakeWriters(s.pcs)[p := Out], h := s.h.(taken := s.h.taken + [s.pcs[p].got]))
    case CloseWrite => s.(writeopen := false, pcs := WakeReaders(s.pcs))
    case CloseRead => s.(readopen := false, pcs := WakeWriters(s.pcs))
    case Kill(p) => s.(killed := s.killed + {p}, pcs := s.pcs[p := Roused(s.pcs[p])])
  }

  // ---- the lock and the ends ----

  ghost predicate LockInv(s: State) {
    && (forall p :: p in s.pcs ==> (Locks(s.pcs[p]) <==> s.lock == Held(p)))
    && (s.lock.Held? ==> s.lock.pid in s.pcs)
  }

  /** Calls are in progress only on open ends. */
  ghost predicate EndsInv(s: State) {
    forall p :: p in s.pcs ==> (Writes(s.pcs[p]) ==> s.writeopen) && (Reads(s.pcs[p]) ==> s.readopen)
  }

  lemma LockStep(s: State, t: Step)
    requires LockInv(s) && Enabled(s, t)
    ensures LockInv(Apply(s, t))
  {
  }

  lemma EndsStep(s: State, t: Step)
    requires EndsInv(s) && Enabled(s, t)
    ensures EndsInv(Apply(s, t))
  {
  }

  // ---- order ----

  function Bytes(cs: seq<Cell>): (bs: seq<int>)
    ensures |bs| == |cs|
    ensures forall k :: 0 <= k < |cs| ==> bs[k] == cs[k].byte
  {
    if cs == [] then [] else Bytes(cs[..|cs| - 1]) + [cs[|cs| - 1].byte]
  }

  /** The bytes of one write call, in the order they were stored. */
  function Of(cs: seq<Cell>, call: nat): seq<int> {
    if cs == [] then []
    else
      var c := cs[|cs| - 1];
      Of(cs[..|cs| - 1], call) + if c.call == call then [c.byte] else []
  }

  function Flat(rs: seq<seq<int>>): seq<int> {
    if rs == [] then [] else Flat(rs[..|rs| - 1]) + rs[|rs| - 1]
  }

  lemma OfSnoc(cs: seq<Cell>, c: Cell, call: nat)
    ensures Of(cs + [c], call) == Of(cs, call) + if c.call == call then [c.byte] else []
  {
    assert (cs + [c])[..|cs|] == cs;
  }

  lemma BytesSnoc(cs: seq<Cell>, c: Cell)
    ensures Bytes(cs + [c]) == Bytes(cs) + [c.byte]
  {
  }

  lemma FlatSnoc(rs: seq<seq<int>>, r: seq<int>)
    ensures Flat(rs + [r]) == Flat(rs) + r
  {
    assert (rs + [r])[..|rs|] == rs;
  }

  /** What was stored is what was delivered followed by what the ring holds. */
  ghost predicate Fifo(s: State) {
    RingOk(s.ring) && Bytes(s.h.stored) == s.h.delivered + Queue(s.ring)
  }

  lemma FifoPut(r: Ring, stored: seq<Cell>, delivered: seq<int>, c: Cell)
    requires RingOk(r) && !Full(r) && Bytes(stored) == delivered + Queue(r)
    ensures RingOk(Put(r, c.byte)) && Bytes(stored + [c]) == delivered + Queue(Put(r, c.byte))
  {
    PutQueue(r, c.byte);
    BytesSnoc(stored, c);
    hide Queue, Bytes, Put, RingOk, Count, Full;
    assert delivered + (Queue(r) + [c.byte]) == delivered + Queue(r) + [c.byte];
  }

  lemma FifoStep(s: State, t: Step)
    requires Fifo(s) && Enabled(s, t)
    ensures Fifo(Apply(s, t))
  {
    hide Queue, Bytes, Put, Get, Next, Count, RingOk, Full, Empty, WakeReaders, WakeWriters;
    if t.WStore? {
      var pc := s.pcs[t.p];
      FifoPut(s.ring, s.h.stored, s.h.delivered, Cell(pc.call, pc.src[pc.i]));
    } else if t.RByte? {
      GetQueue(s.ring);
    }
  }

  /** Write calls in progress are numbered apart, and each has stored exactly its first i
      bytes, in order. */
  ghost predicate Progress(h: History, pc: Pc) {
    Writes(pc) ==> pc.call < h.calls && pc.call !in h.written && pc.i <= |pc.src| && Of(h.stored, pc.call) == pc.src[..pc.i]
  }

  ghost predicate WriteInv(s: State) {
    && (forall p :: p in s.pcs ==> Progress(s.h, s.pcs[p]))
    && (forall p, q :: p in s.pcs && q in s.pcs && p != q && Writes(s.pcs[p]) && Writes(s.pcs[q]) ==>
          s.pcs[p].call != s.pcs[q].call)
    && (forall c :: c in s.h.written ==> c < s.h.calls && Of(s.h.stored, c) == s.h.written[c])
    && (forall c :: c >= s.h.calls ==> Of(s.h.stored, c) == [])
  }

  lemma StoreWrites(s: State, t: Step)
    requires WriteInv(s) && Enabled(s, t) && t.WStore?
    ensures WriteInv(Apply(s, t))
  {
    var pc, z := s.pcs[t.p], Apply(s, t);
    forall c: nat ensures Of(z.h.stored, c) == Of(s.h.stored, c) + if pc.call == c then [pc.src[pc.i]] else [] {
      OfSnoc(s.h.stored, Cell(pc.call, pc.src[pc.i]), c);
    }
    hide Of, Put, RingOk, Count, Full;
    assert pc.src[..pc.i + 1] == pc.src[..pc.i] + [pc.src[pc.i]];
    assert Progress(s.h, pc);
    assert Progress(z.h, z.pcs[t.p]);
  }

  /** A step that stores nothing and starts and ends no write keeps each write as it was. */
  lemma SameWrites(s: State, z: State)
    requires WriteInv(s) && z.pcs.Keys == s.pcs.Keys
    requires z.h.calls == s.h.calls && z.h.stored == s.h.stored && z.h.written == s.h.written
    requires forall p :: p in s.pcs && Writes(z.pcs[p]) ==>
      Writes(s.pcs[p]) && z.pcs[p].call == s.pcs[p].call && z.pcs[p].src == s.pcs[p].src && z.pcs[p].i == s.pcs[p].i
    ensures WriteInv(z)
  {
    hide Of;
    assert forall p :: p in s.pcs ==> Progress(s.h, s.pcs[p]);
  }

  lemma BeginWrite(s: State, t: Step)
    requires WriteInv(s) && Enabled(s, t) && t.StartWrite?
    ensures WriteInv(Apply(s, t))
  {
    hide Of;
    assert forall p :: p in s.pcs ==> Progress(s.h, s.pcs[p]);
  }

  lemma EndWrite(s: State, t: Step)
    requires WriteInv(s) && Enabled(s, t) && t.WDone?
    ensures WriteInv(Apply(s, t))
  {
    var z, pc := Apply(s, t), s.pcs[t.p];
    assert z.pcs.Keys == s.pcs.Keys && forall q :: q in s.pcs && Writes(z.pcs[q]) ==> q != t.p && z.pcs[q] == s.pcs[q];
    assert Progress(s.h, pc) && pc.src[..pc.i] == pc.src;
    EndedWrite(s, z, t.p);
  }

  lemma EndedWrite(s: State, z: State, p: Pid)
    requires WriteInv(s) && p in s.pcs && Writes(s.pcs[p]) && z.pcs.Keys == s.pcs.Keys
    requires Of(s.h.stored, s.pcs[p].call) == s.pcs[p].src
    requires z.h == s.h.(written := s.h.written[s.pcs[p].call := s.pcs[p].src])
    requires forall q :: q in s.pcs && Writes(z.pcs[q]) ==> q != p && z.pcs[q] == s.pcs[q]
    ensures WriteInv(z)
  {
    hide Of;
    assert Progress(s.h, s.pcs[p]);
    forall q | q in z.pcs ensures Progress(z.h, z.pcs[q]) {
      assert Progress(s.h, s.pcs[q]);
    }
  }

  lemma WriteStep(s: State, t: Step)
    requires WriteInv(s) && Enabled(s, t)
    ensures WriteInv(Apply(s, t))
  {
    hide Of, Put, RingOk, Count, Full, Empty, Next, Get, WriteInv;
    match t
    case WStore(_) => StoreWrites(s, t);
    case StartWrite(_, _) => BeginWrite(s, t);
    case WDone(_) => EndWrite(s, t);
    case _ => SameWrites(s, Apply(s, t));
  }

  /** The reads that returned, and the one copying now, hold the delivered bytes in order. */
  ghost predicate ReadInv(s: State) {
    if s.lock.Held? && s.lock.pid in s.pcs && s.pcs[s.lock.pid].RCopy?
    then s.h.delivered == Flat(s.h.taken) + s.pcs[s.lock.pid].got
    else s.h.delivered == Flat(s.h.taken)
  }

  lemma ReadStep(s: State, t: Step)
    requires LockInv(s) && ReadInv(s) && Enabled(s, t)
    ensures ReadInv(Apply(s, t))
  {
    LockStep(s, t);
    hide Queue, Put, RingOk, Count, Full, Flat;
    if t.RDone? {
      FlatSnoc(s.h.taken, s.pcs[t.p].got);
    }
  }

  // ---- who may be asleep ----

  /** A process holds the lock and has yet to wake the other side. */
  predicate WriterInside(s: State) {
    s.lock.Held? && s.lock.pid in s.pcs && (s.pcs[s.lock.pid].WHold? || s.pcs[s.lock.pid].WTested?)
  }
  predicate ReaderInside(s: State) { s.lock.Held? && s.lock.pid in s.pcs && s.pcs[s.lock.pid].RCopy? }

  /** What a process about to sleep has found is still so: it holds the lock. */
  ghost predicate TestInv(s: State) {
    && (forall p :: p in s.pcs && s.pcs[p].RTested? ==> Empty(s.ring) && s.writeopen)
    && (forall p :: p in s.pcs && s.pcs[p].WTested? ==> Full(s.ring) && s.readopen)
  }

  lemma TestStep(s: State, t: Step)
    requires LockInv(s) && TestInv(s) && Enabled(s, t)
    ensures TestInv(Apply(s, t))
  {
    hide Queue, Put, Get, Next, RingOk, Full, Empty;
  }

  ghost predicate ReadersSleep(s: State) {
    forall p :: p in s.pcs && s.pcs[p].RSleep? ==> s.writeopen && (Empty(s.ring) || WriterInside(s))
  }

  ghost predicate WritersSleep(s: State) {
    forall p :: p in s.pcs && s.pcs[p].WSleep? ==> s.readopen && (Full(s.ring) || ReaderInside(s))
  }

  /** Whoever sleeps has cause to, or is about to be woken. */
  ghost predicate SleepInv(s: State) { ReadersSleep(s) && WritersSleep(s) }

  /** A killed writer that finds the ring full leaves without waking the readers. */
  ghost predicate LosesWakeup(s: State, t: Step) {
    t.WFail? && s.readopen && exists p :: p in s.pcs && s.pcs[p].RSleep?
  }

  lemma SleepStore(s: State, t: Step)
    requires RingOk(s.ring) && LockInv(s) && SleepInv(s) && Enabled(s, t) && (t.WStore? || t.RByte?)
    ensures SleepInv(Apply(s, t))
  {
    hide Queue, Put, Get, Next;
    if t.WStore? {
      PutCount(s.ring, s.pcs[t.p].src[s.pcs[t.p].i]);
    }
  }

  lemma ReadersQuiet(s: State, t: Step)
    requires LockInv(s) && EndsInv(s) && TestInv(s) && ReadersSleep(s) && Enabled(s, t) && !t.WStore? && !t.RByte?
    requires t.WFail? ==> !Empty(s.ring)
    ensures ReadersSleep(Apply(s, t)) <==> !LosesWakeup(s, t)
  {
    hide Queue, Put, Get, Next, RingOk, Full, Empty;
    if LosesWakeup(s, t) {
      var p :| p in s.pcs && s.pcs[p].RSleep?;
      assert Apply(s, t).pcs[p].RSleep?;
    }
  }

  lemma WritersQuiet(s: State, t: Step)
    requires LockInv(s) && EndsInv(s) && TestInv(s) && WritersSleep(s) && Enabled(s, t) && !t.WStore? && !t.RByte?
    ensures WritersSleep(Apply(s, t))
  {
    hide Queue, Put, Get, Next, RingOk, Full, Empty;
  }

  /** Exactly one kind of step strands a sleeper. */
  lemma SleepStep(s: State, t: Step)
    requires RingOk(s.ring) && LockInv(s) && EndsInv(s) && TestInv(s) && SleepInv(s) && Enabled(s, t)
    ensures SleepInv(Apply(s, t)) <==> !LosesWakeup(s, t)
  {
    if t.WStore? || t.RByte? {
      hide LockInv, SleepInv, Apply;
      SleepStore(s, t);
    } else {
      FullNotEmpty(s.ring);
      hide LockInv, EndsInv, ReadersSleep, WritersSleep, TestInv, Apply, Full, Empty;
      ReadersQuiet(s, t);
      WritersQuiet(s, t);
    }
  }

  lemma FullNotEmpty(r: Ring)
    requires RingOk(r)
    ensures Full(r) ==> !Empty(r)
  {
  }

  // ---- whole runs ----

  ghost predicate Initial(s: State) {
    && s.readopen && s.writeopen && s.lock.Free?
    && |s.ring.data| == PIPESIZE && s.ring.nread == 0 && s.ring.nwrite == 0
    && (forall p :: p in s.pcs ==> s.pcs[p].Out?)
    && s.h == History(0, [], [], map[], [])
  }

  ghost predicate Valid(s: State, ts: seq<Step>)
    decreases |ts|, 0
  {
    ts == [] || (Valid(s, ts[..|ts| - 1]) && Enabled(Exec(s, ts[..|ts| - 1]), ts[|ts| - 1]))
  }

  ghost function Exec(s: State, ts: seq<Step>): State
    requires Valid(s, ts)
    decreases |ts|, 1
  {
    if ts == [] then s else Apply(Exec(s, ts[..|ts| - 1]), ts[|ts| - 1])
  }

  ghost predicate Orderly(s: State) {
    LockInv(s) && EndsInv(s) && TestInv(s) && Fifo(s) && WriteInv(s) && ReadInv(s)
  }

  lemma {:induction false} RunOrderly(s: State, ts: seq<Step>)
    requires Initial(s) && Valid(s, ts)
    ensures Orderly(Exec(s, ts))
  {
    if ts == [] {
      assert Queue(s.ring) == [];
    } else {
      var us := ts[..|ts| - 1];
      RunOrderly(s, us);
      var m, t := Exec(s, us), ts[|ts| - 1];
      LockStep(m, t);
      EndsStep(m, t);
      TestStep(m, t);
      FifoStep(m, t);
      WriteStep(m, t);
      ReadStep(m, t);
    }
  }

  /** In every run what the finished reads returned, laid end to end, is a prefix of what was
      stored, at most PIPESIZE bytes behind it once no read is copying; every write that
      returned in full stored its bytes in order, all of them and nothing else. */
  lemma Delivery(s: State, ts: seq<Step>)
    requires Initial(s) && Valid(s, ts)
    ensures var z := Exec(s, ts);
      && Flat(z.h.taken) <= z.h.delivered <= Bytes(z.h.stored)
      && |Bytes(z.h.stored)| - |z.h.delivered| <= PIPESIZE
      && (z.lock.Free? ==> z.h.delivered == Flat(z.h.taken))
      && (forall c :: c in z.h.written ==> Of(z.h.stored, c) == z.h.written[c])
  {
    RunOrderly(s, ts);
  }

  /** No step of the run lets a killed writer leave past a sleeping reader. */
  ghost predicate Polite(s: State, ts: seq<Step>)
    requires Valid(s, ts)
    decreases |ts|
  {
    ts == [] || (Polite(s, ts[..|ts| - 1]) && !LosesWakeup(Exec(s, ts[..|ts| - 1]), ts[|ts| - 1]))
  }

  /** SleepInv holds at every point of a run exactly when the run is polite. */
  ghost predicate Awake(s: State, ts: seq<Step>)
    requires Valid(s, ts)
    decreases |ts|
  {
    SleepInv(Exec(s, ts)) && (ts == [] || Awake(s, ts[..|ts| - 1]))
  }

  lemma {:induction false} AwakeIffPolite(s: State, ts: seq<Step>)
    requires Initial(s) && Valid(s, ts)
    ensures Awake(s, ts) <==> Polite(s, ts)
  {
    if ts != [] {
      var us := ts[..|ts| - 1];
      AwakeIffPolite(s, us);
      RunOrderly(s, us);
      if SleepInv(Exec(s, us)) {
        SleepStep(Exec(s, us), ts[|ts| - 1]);
      } else {
        assert !Awake(s, us);
      }
    }
  }

  /** With the lock free, a polite run leaves a reader asleep only on an empty pipe somebody
      may still write, a writer only on a full one somebody may still read: never both. */
  lemma NoStall(s: State, ts: seq<Step>)
    requires Initial(s) && Valid(s, ts) && Polite(s, ts) && Exec(s, ts).lock.Free?
    ensures var z := Exec(s, ts);
      && RingOk(z.ring)
      && (forall p :: p in z.pcs && z.pcs[p].RSleep? ==> Queue(z.ring) == [] && z.writeopen)
      && (forall p :: p in z.pcs && z.pcs[p].WSleep? ==> |Queue(z.ring)| == PIPESIZE && z.readopen)
  {
    AwakeIffPolite(s, ts);
    RunOrderly(s, ts);
    Tests(Exec(s, ts).ring);
  }

  lemma KilledOnlyByKill(s: State, t: Step)
    requires Enabled(s, t) && !t.Kill? && s.killed == {}
    ensures Apply(s, t).killed == {} && !LosesWakeup(s, t)
  {
    hide Queue, Put, RingOk, Count, Full, Empty, Next, Get, WakeReaders, WakeWriters;
  }

  /** Without kill() every run is polite. */
  lemma {:induction false} NoKillPolite(s: State, ts: seq<Step>)
    requires s.killed == {} && Valid(s, ts)
    requires forall k :: 0 <= k < |ts| ==> !ts[k].Kill?
    ensures Polite(s, ts) && Exec(s, ts).killed == {}
  {
    hide Enabled, Apply, LosesWakeup;
    if ts != [] {
      NoKillPolite(s, ts[..|ts| - 1]);
      KilledOnlyByKill(Exec(s, ts[..|ts| - 1]), ts[|ts| - 1]);
    }
  }

  lemma Extend(s: State, ts: seq<Step>, t: Step)
    requires Valid(s, ts) && Enabled(Exec(s, ts), t)
    ensures Valid(s, ts + [t]) && Exec(s, ts + [t]) == Apply(Exec(s, ts), t)
  {
    assert (ts + [t])[..|ts|] == ts;
  }

  /** Process 0 sleeps in a read; process 1, killed, has stored k bytes of a long write. */
  ghost predicate Filling(z: State, src: seq<int>, k: nat) {
    && z.pcs == map[0 := RSleep(1), 1 := WHold(0, src, k)] && z.lock == Held(1)
    && z.readopen && z.writeopen && 1 in z.killed
    && |z.ring.data| == PIPESIZE && z.ring.nread == 0 && z.ring.nwrite == k <= PIPESIZE
  }

  lemma FillStep(z: State, src: seq<int>, k: nat)
    requires Filling(z, src, k) && k < PIPESIZE && |src| == PIPESIZE + 1
    ensures Enabled(z, WStore(1)) && Filling(Apply(z, WStore(1)), src, k + 1)
  {
    hide Queue;
  }

  lemma {:induction false} Fill(s: State, ts: seq<Step>, src: seq<int>, k: nat) returns (us: seq<Step>)
    requires Valid(s, ts) && Filling(Exec(s, ts), src, k) && |src| == PIPESIZE + 1
    ensures Valid(s, us) && Filling(Exec(s, us), src, PIPESIZE)
    decreases PIPESIZE - k
  {
    if k == PIPESIZE {
      us := ts;
    } else {
      FillStep(Exec(s, ts), src, k);
      hide Enabled, Apply, Filling;
      Extend(s, ts, WStore(1));
      us := Fill(s, ts + [WStore(1)], src, k + 1);
    }
  }

  /** A fresh pipe, and two processes. */
  function Fresh(): State {
    State(Ring(seq(PIPESIZE, k => 0), 0, 0), true, true, Free, map[0 := Out, 1 := Out], {}, History(0, [], [], map[], []))
  }

  /** Process 0 is about to sleep in a read. */
  lemma ReaderTests() returns (ts: seq<Step>)
    ensures Valid(Fresh(), ts)
    ensures Exec(Fresh(), ts) == Fresh().(lock := Held(0), pcs := map[0 := RTested(1), 1 := Out])
  {
    hide Queue, Put, RingOk, Count, WakeReaders, WakeWriters;
    var s := Fresh();
    Extend(s, [], StartRead(0, 1));
    Extend(s, [] + [StartRead(0, 1)], Acquire(0));
    Extend(s, [] + [StartRead(0, 1)] + [Acquire(0)], RTest(0));
    ts := [] + [StartRead(0, 1)] + [Acquire(0)] + [RTest(0)];
  }

  lemma ReaderSleeps() returns (ts: seq<Step>)
    ensures Valid(Fresh(), ts)
    ensures Exec(Fresh(), ts) == Fresh().(pcs := map[0 := RSleep(1), 1 := Out])
  {
    hide Queue, Put, RingOk, Count, WakeReaders, WakeWriters, Valid, Exec, Full, Empty;
    var us := ReaderTests();
    Extend(Fresh(), us, RBlock(0));
    ts := us + [RBlock(0)];
  }

  lemma WriterKilled(src: seq<int>) returns (ts: seq<Step>)
    ensures Valid(Fresh(), ts) && Filling(Exec(Fresh(), ts), src, 0)
  {
    hide Queue, Put, RingOk, Count, Full, Empty, WakeReaders, WakeWriters;
    var s := Fresh();
    var us := ReaderSleeps();
    Extend(s, us, StartWrite(1, src));
    Extend(s, us + [StartWrite(1, src)], Kill(1));
    Extend(s, us + [StartWrite(1, src)] + [Kill(1)], Acquire(1));
    ts := us + [StartWrite(1, src)] + [Kill(1)] + [Acquire(1)];
  }

  /** The lost wakeup is real: a run ends with the lock free, the ring full, its write end
      open, and a reader asleep. */
  lemma Stranded() returns (ts: seq<Step>)
    ensures Initial(Fresh()) && Valid(Fresh(), ts)
    ensures Exec(Fresh(), ts).lock.Free? && Full(Exec(Fresh(), ts).ring)
    ensures 0 in Exec(Fresh(), ts).pcs && Exec(Fresh(), ts).pcs[0] == RSleep(1)
  {
    assert Initial(Fresh());
    hide Fresh, Queue, Put, RingOk, Count, WakeReaders, WakeWriters;
    var src := seq(PIPESIZE + 1, k => 0);
    ts := WriterKilled(src);
    ts := Fill(Fresh(), ts, src, 0);
    Extend(Fresh(), ts, WFail(1));
    ts := ts + [WFail(1)];
  }

  // ---- killed processes ----

  predicate Sleeps(pc: Pc) { pc.RSleep? || pc.WSleep? }
  predicate Tested(pc: Pc) { pc.RTested? || pc.WTested? }

  /** kill() reaches its victim: no killed process is asleep or about to be. */
  ghost predicate KillInv(s: State) {
    forall p :: p in s.killed && p in s.pcs ==> !Sleeps(s.pcs[p]) && !Tested(s.pcs[p])
  }

  /** A kill that falls between the test and the sleep. */
  predicate MissesKill(s: State, t: Step) { t.Kill? && t.p in s.pcs && Tested(s.pcs[t.p]) }

  lemma KillStep(s: State, t: Step)
    requires KillInv(s) && Enabled(s, t)
    ensures KillInv(Apply(s, t)) <==> !MissesKill(s, t)
  {
    hide Queue, Put, Get, Next, RingOk, Full, Empty;
    if MissesKill(s, t) {
      assert t.p in Apply(s, t).killed && Tested(Apply(s, t).pcs[t.p]);
    }
  }

  ghost predicate Timely(s: State, ts: seq<Step>)
    requires Valid(s, ts)
    decreases |ts|
  {
    ts == [] || (Timely(s, ts[..|ts| - 1]) && !MissesKill(Exec(s, ts[..|ts| - 1]), ts[|ts| - 1]))
  }

  ghost predicate Prompt(s: State, ts: seq<Step>)
    requires Valid(s, ts)
    decreases |ts|
  {
    KillInv(Exec(s, ts)) && (ts == [] || Prompt(s, ts[..|ts| - 1]))
  }

  /** No killed process sleeps, at any point of a run, exactly when no kill falls between the test
      and the sleep. */
  lemma {:induction false} PromptIffTimely(s: State, ts: seq<Step>)
    requires s.killed == {} && Valid(s, ts)
    ensures Prompt(s, ts) <==> Timely(s, ts)
  {
    hide Enabled, Apply, KillInv, MissesKill;
    if ts == [] {
      assert KillInv(s) by { NoneKilled(s); }
    } else {
      var us := ts[..|ts| - 1];
      PromptIffTimely(s, us);
      if KillInv(Exec(s, us)) {
        KillStep(Exec(s, us), ts[|ts| - 1]);
      } else {
        assert !Prompt(s, us);
      }
    }
  }

  lemma NoneKilled(s: State)
    requires s.killed == {}
    ensures KillInv(s)
  {
  }

  /** It does happen: a reader is killed after its test, and sleeps on with nobody to wake it. */
  lemma KilledAsleep() returns (ts: seq<Step>)
    ensures Initial(Fresh()) && Valid(Fresh(), ts)
    ensures var z := Exec(Fresh(), ts); z.lock.Free? && 0 in z.killed && z.pcs == map[0 := RSleep(1), 1 := Out]
  {
    assert Initial(Fresh());
    hide Queue, Put, RingOk, Count, WakeReaders, WakeWriters, Valid, Exec, Full, Empty, Initial;
    var us := ReaderTests();
    Extend(Fresh(), us, Kill(0));
    Extend(Fresh(), us + [Kill(0)], RBlock(0));
    ts := us + [Kill(0)] + [RBlock(0)];
  }

  // ---- the calls, from taking the lock to giving it up ----

  datatype Outcome = Done | Failed | Asleep

  class Pipe {
    var data: array<int>
    var nread: nat
    var nwrite: nat
    var readopen: bool
    var writeopen: bool

    ghost function View(): Ring
      reads this, data
    {
      Ring(data[..], nread, nwrite)
    }

    ghost predicate Valid()
      reads this, data
    {
      RingOk(View())
    }

    constructor ()
      ensures Valid() && fresh(data) && Queue(View()) == [] && readopen && writeopen
    {
      data := new int[PIPESIZE];
      nread, nwrite, readopen, writeopen := 0, 0, true, true;
    }

    /** pipewrite from byte i on: it stores what fits and stops at the end of src or at a
        full ring.  wake says whether it woke the readers. */
    method Write(src: seq<int>, start: nat, killed: bool) returns (i: nat, out: Outcome, wake: bool)
      requires Valid() && start <= |src|
      modifies this`nwrite, data
      ensures Valid() && data == old(data) && nread == old(nread)
      ensures start <= i <= |src| && Queue(View()) == old(Queue(View())) + src[start..i]
      ensures i < |src| ==> |Queue(View())| == PIPESIZE
      ensures out.Done? <==> i == |src|
      ensures out.Failed? <==> i < |src| && (!readopen || killed)
      ensures wake <==> !out.Failed?
    {
      i := start;
      while i < |src|
        invariant Valid() && start <= i <= |src|
        invariant Queue(View()) == old(Queue(View())) + src[start..i]
      {
        if nwrite == (nread + PIPESIZE) % TWO32 {
          Tests(View());
          if !readopen || killed {
            return i, Failed, false;
          }
          return i, Asleep, true;
        }
        ghost var was, queued := View(), Queue(View());
        data[nwrite % PIPESIZE] := src[i];
        nwrite := (nwrite + 1) % TWO32;
        Stored(was, View(), src[i], queued);
        assert src[start..i + 1] == src[start..i] + [src[i]];
        i := i + 1;
      }
      return i, Done, true;
    }

    /** piperead: on an empty pipe with its write end open it sleeps or fails; otherwise it
        returns the oldest bytes, as many as asked for or as there are. */
    method Read(n: nat, killed: bool) returns (got: seq<int>, out: Outcome, wake: bool)
      requires Valid()
      modifies this`nread
      ensures Valid()
      ensures old(Queue(View())) == got + Queue(View())
      ensures out.Done? ==> |got| == if n < |old(Queue(View()))| then n else |old(Queue(View()))|
      ensures !out.Done? ==> got == []
      ensures !out.Done? <==> old(Queue(View())) == [] && writeopen
      ensures out.Failed? ==> killed
      ensures out.Asleep? ==> !killed
      ensures wake <==> out.Done?
    {
      hide Queue, Count, RingOk;
      got := [];
      Tests(View());
      if nread == nwrite && writeopen {
        if killed {
          return [], Failed, false;
        }
        return [], Asleep, false;
      }
      while |got| < n
        invariant Valid() && |got| <= n
        invariant old(Queue(View())) == got + Queue(View())
      {
        Tests(View());
        if nread == nwrite {
          break;
        }
        ghost var was := View();
        Taken(was, old(Queue(View())), got);
        got := got + [data[nread % PIPESIZE]];
        nread := (nread + 1) % TWO32;
        assert View() == Get(was);
      }
      Tests(View());
      return got, Done, true;
    }
  }

  lemma Stored(r: Ring, z: Ring, x: int, q: seq<int>)
    requires RingOk(r) && !Full(r) && q == Queue(r)
    requires |z.data| == PIPESIZE && z.nread == r.nread && z.nwrite == (r.nwrite + 1) % TWO32
    requires z.data == r.data[r.nwrite % PIPESIZE := x]
    ensures RingOk(z) && Queue(z) == q + [x]
  {
    PutQueue(r, x);
    assert z == Put(r, x);
  }

  lemma Taken(r: Ring, q: seq<int>, got: seq<int>)
    requires RingOk(r) && !Empty(r) && q == got + Queue(r)
    ensures RingOk(Get(r)) && |r.data| == PIPESIZE && q == got + [Next(r)] + Queue(Get(r))
  {
    GetQueue(r);
    hide Queue;
    assert got + ([Next(r)] + Queue(Get(r))) == got + [Next(r)] + Queue(Get(r));
  }
}
