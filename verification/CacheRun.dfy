/**
 Runs of any number of processes over the buffer cache and the log: kernel/bio.c
 and kernel/log.c, one step per critical section. A process may have any number
 of references to buffers at a time; each is a token that goes from bget through
 the sleep lock to brelse. Processes read whenever they like, also while a commit
 is under way; they change blocks only inside an operation, under the sleep lock,
 and log every change before they give the lock up. The last end_op commits,
 step by step, among the steps of the others. The machine may crash at any step.

 What LogRun says about disks, operations and history is carried along and
 proved to hold of these runs too.
 */
module CacheRun {
  import opened RedoLog
  import opened BufferCache
  import opened TransactionLog
  import opened Finite
  import L = LogRun

  // ---------------------------------------------------------------- state

  datatype Stage =
    | Waiting                  // bget has counted the reference; acquiresleep comes next
    | Held(changed: bool)      // the sleep lock is held; changed: data differs and is not logged
    | Leaving                  // brelse has released the lock; the count comes next

  // A reference of process p to buffer i.
  datatype Ref = Ref(p: nat, i: nat, stage: Stage)
  type Refs = map<nat, Ref>

  // view is what the buffers show, changes that are not logged included.
  datatype Cells = Cells(buf: seq<Buf>, pins: seq<nat>, view: Disk)

  // at: the buffers of the logged blocks; unpinned: how many of them commit has
  // unpinned; mem: log.lh in memory; who: the process that commits.
  datatype Commit = Commit(at: seq<nat>, unpinned: nat, mem: seq<int>, who: nat)

  // opOf: the operation each process is in.
  datatype State = State(log: L.State, cells: Cells, lru: Lru, refs: Refs, com: Commit, opOf: map<nat, nat>)

  // The references to buffer i.
  ghost function On(refs: Refs, i: nat): set<nat> {
    set t | t in refs && refs[t].i == i
  }

  ghost function Users(refs: Refs): (u: seq<nat>)
    ensures |u| == NBUF
  {
    seq(NBUF, i requires 0 <= i < NBUF => |On(refs, i)|)
  }

  predicate Holding(refs: Refs, t: nat) {
    t in refs && refs[t].stage.Held?
  }

  predicate Changing(refs: Refs, t: nat) {
    t in refs && refs[t].stage == Held(true)
  }

  // ---------------------------------------------------------------- steps of any process

  ghost predicate Get(s: State, s': State, p: nat, b: nat, i: nat, t: nat) {
    && |s.lru.stamp| == |s.cells.buf| == NBUF
    && b < |s.log.disk| && t !in s.refs
    && Got(s.cells.buf, s.lru.stamp, ROOTDEV, b, i, s'.cells.buf)
    && s' == s.(cells := s.cells.(buf := s'.cells.buf), refs := s.refs[t := Ref(p, i, Waiting)])
  }

  // Writing b for buffer i of the reference.
  function Put(s: State, i: nat, b: Buf): State
    requires i < |s.cells.buf|
  {
    s.(cells := s.cells.(buf := s.cells.buf[i := b]))
  }

  function Move(s: State, t: nat, stage: Stage): State
    requires t in s.refs
  {
    s.(refs := s.refs[t := s.refs[t].(stage := stage)])
  }

  // Reference t, in the given stage, with its buffer in range
  ghost predicate At(s: State, t: nat) {
    t in s.refs && s.refs[t].i < |s.cells.buf|
  }

  function BufOf(s: State, t: nat): Buf
    requires t in s.refs && s.refs[t].i < |s.cells.buf|
  {
    s.cells.buf[s.refs[t].i]
  }

  ghost predicate Acquire(s: State, s': State, t: nat) {
    && At(s, t) && s.refs[t].stage == Waiting && BufOf(s, t).lock == 0
    && s' == Put(Move(s, t, Held(false)), s.refs[t].i, BufOf(s, t).(lock := s.refs[t].p + 1))
  }

  ghost predicate Load(s: State, s': State, t: nat) {
    && At(s, t) && s.refs[t].stage.Held? && !BufOf(s, t).valid && BufOf(s, t).blockno < |s.log.disk|
    && s' == Put(s, s.refs[t].i, BufOf(s, t).(valid := true, data := s.log.disk[BufOf(s, t).blockno]))
  }

  // Reference t holds a buffer that bread has returned.
  ghost predicate Mine(s: State, t: nat) {
    At(s, t) && s.refs[t].stage.Held? && BufOf(s, t).valid && BufOf(s, t).blockno < |s.cells.view|
  }

  // New data in the buffer of t
  function Change(s: State, t: nat, data: Block): State
    requires t in s.refs && s.refs[t].i < |s.cells.buf| && BufOf(s, t).blockno < |s.cells.view|
  {
    var b := BufOf(s, t);
    s.(cells := s.cells.(buf := s.cells.buf[s.refs[t].i := b.(data := data)], view := s.cells.view[b.blockno := data]),
       refs := s.refs[t := s.refs[t].(stage := Held(true))])
  }

  // A process in an operation changes a home block it holds.
  ghost predicate Modify(l: Layout, s: State, s': State, t: nat, data: Block) {
    && Mine(s, t) && s.refs[t].p in s.opOf && !InLog(l, BufOf(s, t).blockno)
    && s' == Change(s, t, data)
  }

  // log_write, with its bpin
  ghost predicate LogChange(l: Layout, s: State, s': State, t: nat) {
    && Mine(s, t) && s.refs[t].p in s.opOf && |s.cells.pins| == |s.cells.buf|
    && var b, i := BufOf(s, t), s.refs[t].i;
       && L.LogWrite(l, s.log, s'.log, s.opOf[s.refs[t].p], b.blockno, b.data)
       && var s1 := Move(s, t, Held(false)).(log := s'.log);
          s' == if b.blockno in s.log.lh then s1
                else s1.(cells := s.cells.(buf := s.cells.buf[i := b.(refcnt := b.refcnt + 1)],
                                           pins := s.cells.pins[i := s.cells.pins[i] + 1]),
                         com := s.com.(at := s.com.at + [i], mem := s.com.mem + [b.blockno]))
  }

  // releasesleep; nothing unlogged is left behind
  ghost predicate Release(s: State, s': State, t: nat) {
    && Mine(s, t) && s.refs[t].stage == Held(false)
    && s' == Put(Move(s, t, Leaving), s.refs[t].i, BufOf(s, t).(lock := 0))
  }

  // the second half of brelse
  ghost predicate Drop(s: State, s': State, t: nat) {
    && At(s, t) && s.refs[t].stage == Leaving && BufOf(s, t).refcnt > 0
    && var i, b := s.refs[t].i, BufOf(s, t);
       && (if b.refcnt == 1 then Relinked(s.lru, i, s'.lru) else s'.lru == s.lru)
       && s' == Put(s, i, b.(refcnt := b.refcnt - 1)).(refs := s.refs - {t}, lru := s'.lru)
  }

  ghost predicate Begin(s: State, s': State, p: nat) {
    && p !in s.opOf && L.Begin(s.log, s'.log)
    && s' == s.(log := s'.log, opOf := s.opOf[p := s.log.nextOp])
  }

  // end_op of a process that has logged its changes
  ghost predicate End(s: State, s': State, p: nat) {
    && p in s.opOf && (forall t :: Changing(s.refs, t) ==> s.refs[t].p != p)
    && L.End(s.log, s'.log, s.opOf[p])
    && s' == s.(log := s'.log, opOf := s.opOf - {p}, com := s.com.(who := p))
  }

  // ---------------------------------------------------------------- steps of a commit

  // The number of logged blocks
  function N(s: State): nat {
    |s.log.lh|
  }

  ghost predicate Committing(s: State, t: nat) {
    s.log.phase.Committing? && Mine(s, t) && s.refs[t].p == s.com.who
  }

  // write_log: memmove(to->data, from->data)
  ghost predicate CopyToLog(l: Layout, s: State, s': State, to: nat, from: nat) {
    && Committing(s, to) && Committing(s, from) && s.refs[to].stage == Held(false)
    && s.log.phase.k < N(s)
    && BufOf(s, to).blockno == Slot(l, s.log.phase.k)
    && BufOf(s, from).blockno == s.log.lh[s.log.phase.k]
    && s' == Change(s, to, BufOf(s, from).data)
  }

  // write_head: the list in memory over the header block
  ghost predicate PutHeader(l: Layout, s: State, s': State, t: nat) {
    && Committing(s, t) && s.refs[t].stage == Held(false)
    && (s.log.phase.k == N(s) || (s.log.phase.k == 2 * N(s) + 1 && s.com.mem == []))
    && BufOf(s, t).blockno == l.start && |s.com.mem| < WORDS
    && s' == Change(s, t, PutHead(BufOf(s, t).data, s.com.mem))
  }

  // install_trans: memmove(dbuf->data, lbuf->data)
  ghost predicate CopyHome(l: Layout, s: State, s': State, dst: nat, src: nat) {
    && Committing(s, dst) && Committing(s, src) && s.refs[dst].stage == Held(false)
    && N(s) < s.log.phase.k <= 2 * N(s)
    && BufOf(s, src).blockno == Slot(l, s.log.phase.k - N(s) - 1)
    && BufOf(s, dst).blockno == s.log.lh[s.log.phase.k - N(s) - 1]
    && s' == Change(s, dst, BufOf(s, src).data)
  }

  // bwrite of the block that was copied
  ghost predicate WriteOut(s: State, s': State, t: nat) {
    && Committing(s, t) && s.refs[t].stage == Held(true) && BufOf(s, t).blockno < |s.log.disk|
    && var b, k := BufOf(s, t), s.log.phase.k;
       var g := s.log.(disk := s.log.disk[b.blockno := b.data], phase := L.Committing(k + 1, s.log.phase.d0));
       var g' := if k == N(s) then g.(done := s.log.done + s.log.pending, pending := []) else g;
       s' == Move(s, t, Held(false)).(log := g')
  }

  // bunpin of a block that has been installed
  ghost predicate Unpin(s: State, s': State, t: nat) {
    && Committing(s, t) && s.com.unpinned < N(s) && |s.com.at| == N(s) && |s.cells.pins| == |s.cells.buf|
    && N(s) + 1 + s.com.unpinned < s.log.phase.k
    && s.refs[t].i == s.com.at[s.com.unpinned]
    && var i, b := s.refs[t].i, BufOf(s, t);
       && b.refcnt > 0 && s.cells.pins[i] > 0
       && s' == s.(cells := s.cells.(buf := s.cells.buf[i := b.(refcnt := b.refcnt - 1)],
                                     pins := s.cells.pins[i := s.cells.pins[i] - 1]),
                   com := s.com.(unpinned := s.com.unpinned + 1))
  }

  // log.lh.n = 0
  ghost predicate Clear(s: State, s': State) {
    && s.log.phase.Committing? && s.log.phase.k == 2 * N(s) + 1
    && s' == s.(com := s.com.(mem := []))
  }

  // commit returns and end_op clears log.committing
  ghost predicate Return(s: State, s': State) {
    && L.CommitReturn(s.log, s'.log) && s.com.unpinned == N(s)
    && s' == s.(log := s'.log, com := Commit([], 0, [], s.com.who))
  }

  // ---------------------------------------------------------------- crash and boot

  ghost predicate Crash(s: State, s': State) {
    L.Crash(s.log, s'.log) && s' == s.(log := s'.log)
  }

  ghost predicate RecoverWrite(l: Layout, s: State, s': State) {
    L.RecoverWrite(l, s.log, s'.log) && s' == s.(log := s'.log)
  }

  // recover_from_log returns: the cache is as TransactionLog.Log.Recover leaves
  // it, with nothing referenced, pinned, locked or changed.
  ghost predicate Boot(l: Layout, s: State, s': State) {
    && L.RecoverReturn(l, s.log, s'.log)
    && CacheOk(s') && s'.cells.view == s'.log.disk
    && (forall i :: 0 <= i < NBUF ==> s'.cells.buf[i].lock == 0 && s'.cells.pins[i] == 0)
    && s'.refs == map[] && s'.opOf == map[] && s'.com == Commit([], 0, [], 0)
  }

  datatype Action =
    | DoGet(p: nat, b: nat, i: nat, t: nat)
    | DoAcquire(t: nat) | DoLoad(t: nat) | DoModify(t: nat, data: Block) | DoLog(t: nat)
    | DoRelease(t: nat) | DoDrop(t: nat)
    | DoBegin(p: nat) | DoEnd(p: nat)
    | DoCopyToLog(t: nat, from: nat) | DoPutHeader(t: nat) | DoCopyHome(t: nat, src: nat)
    | DoWriteOut(t: nat) | DoUnpin(t: nat) | DoClear | DoReturn
    | DoCrash | DoRecoverWrite | DoBoot

  ghost predicate Next(l: Layout, s: State, s': State, a: Action) {
    match a
    case DoCrash => Crash(s, s')
    case DoRecoverWrite => RecoverWrite(l, s, s')
    case DoBoot => Boot(l, s, s')
    case _ => !s.log.phase.Recovering? && Step(l, s, s', a)
  }

  ghost predicate Step(l: Layout, s: State, s': State, a: Action) {
    match a
    case DoGet(p, b, i, t) => Get(s, s', p, b, i, t)
    case DoAcquire(t) => Acquire(s, s', t)
    case DoLoad(t) => Load(s, s', t)
    case DoModify(t, data) => Modify(l, s, s', t, data)
    case DoLog(t) => LogChange(l, s, s', t)
    case DoRelease(t) => Release(s, s', t)
    case DoDrop(t) => Drop(s, s', t)
    case DoBegin(p) => Begin(s, s', p)
    case DoEnd(p) => End(s, s', p)
    case DoCopyToLog(t, from) => CopyToLog(l, s, s', t, from)
    case DoPutHeader(t) => PutHeader(l, s, s', t)
    case DoCopyHome(t, src) => CopyHome(l, s, s', t, src)
    case DoWriteOut(t) => WriteOut(s, s', t)
    case DoUnpin(t) => Unpin(s, s', t)
    case DoClear => Clear(s, s')
    case DoReturn => Return(s, s')
    case _ => false
  }

  // ---------------------------------------------------------------- invariant

  // What Valid() and Coherent() of the class say.
  ghost predicate CacheOk(s: State) {
    && |s.cells.buf| == NBUF
    && LruOk(s.lru)
    && Counted(s.cells.buf, Users(s.refs), s.cells.pins)
    && Unique(s.cells.buf)
    && Agree(s.cells.buf, s.cells.pins, s.cells.view, s.log.disk)
  }

  ghost predicate LruOk(r: Lru) {
    && |r.order| == NBUF && |r.stamp| == NBUF
    && Ring(r.order, r.next, r.prev) && Recency(r.order, r.stamp, r.now)
  }

  // A sleep lock is held by exactly one reference.
  ghost predicate RefsOk(refs: Refs, buf: seq<Buf>) {
    && (forall t :: t in refs ==> RefOk(refs[t], buf))
    && (forall t, u :: Holding(refs, t) && Holding(refs, u) && refs[t].i == refs[u].i ==> t == u)
    && (forall i: nat :: i < |buf| && buf[i].lock != 0 ==> HasHolder(refs, i))
  }

  ghost predicate RefOk(r: Ref, buf: seq<Buf>) {
    r.i < |buf| && (r.stage.Held? ==> buf[r.i].lock == r.p + 1) && (r.stage == Held(true) ==> buf[r.i].valid)
  }

  ghost predicate HasHolder(refs: Refs, i: nat) {
    exists t :: Holding(refs, t) && refs[t].i == i
  }

  // What a reader is to see: the log's own blocks as on disk, home blocks with
  // every logged change.
  function Shown(l: Layout, g: L.State, b: nat): Block
    requires b < |g.disk| == |g.view|
  {
    if InLog(l, b) then g.disk[b] else g.view[b]
  }

  // The buffers show that, but for what their holders have not yet logged.
  ghost predicate ViewOk(l: Layout, g: L.State, view: Disk, refs: Refs, buf: seq<Buf>) {
    && |view| == |g.disk| == |g.view|
    && (forall t :: t in refs ==> refs[t].i < |buf|)
    && forall b: nat :: b < |view| && view[b] != Shown(l, g, b) ==> ChangedBy(refs, buf, b)
  }

  ghost predicate ChangedBy(refs: Refs, buf: seq<Buf>, b: nat)
    requires forall t :: t in refs ==> refs[t].i < |buf|
  {
    exists t :: Changing(refs, t) && Caches(buf[refs[t].i], ROOTDEV, b)
  }

  // Who may have an unlogged change: outside commits a process in an operation,
  // during a commit the committing process, and then it is the next block to
  // write.
  ghost predicate WriterOk(l: Layout, g: L.State, r: Ref, buf: seq<Buf>, com: Commit, opOf: map<nat, nat>)
    requires r.i < |buf|
  {
    match g.phase
    case Running => r.p in opOf && !InLog(l, buf[r.i].blockno)
    case Committing(k, d0) =>
      && r.p == com.who && Committable(l, d0, g.view, g.lh) && k < 2 * |g.lh| + 2
      && CommitWrites(l, d0, g.view, g.lh)[k] == Write(buf[r.i].blockno, buf[r.i].data)
    case _ => false
  }

  ghost predicate WritersOk(l: Layout, g: L.State, refs: Refs, buf: seq<Buf>, com: Commit, opOf: map<nat, nat>) {
    forall t :: Changing(refs, t) ==> refs[t].i < |buf| && WriterOk(l, g, refs[t], buf, com, opOf)
  }

  ghost predicate PinsOk(g: L.State, buf: seq<Buf>, pins: seq<nat>, com: Commit) {
    && |com.at| == |g.lh| && com.unpinned <= |g.lh|
    && PinnedAt(buf, pins, g.lh[com.unpinned..], com.at[com.unpinned..])
    && match g.phase
       case Running => com.unpinned == 0 && com.mem == g.lh
       case Committing(k, d0) =>
         && (com.unpinned > 0 ==> |g.lh| + 1 + com.unpinned <= k)
         && (com.mem == g.lh || (com.mem == [] && k > 2 * |g.lh|))
       case _ => false
  }

  ghost predicate OpsOk(g: L.State, opOf: map<nat, nat>) {
    && (forall p :: p in opOf ==> opOf[p] in g.ops)
    && (forall p, q :: p in opOf && q in opOf && opOf[p] == opOf[q] ==> p == q)
  }

  ghost predicate Live(l: Layout, s: State) {
    && CacheOk(s)
    && RefsOk(s.refs, s.cells.buf)
    && ViewOk(l, s.log, s.cells.view, s.refs, s.cells.buf)
    && WritersOk(l, s.log, s.refs, s.cells.buf, s.com, s.opOf)
    && PinsOk(s.log, s.cells.buf, s.cells.pins, s.com)
    && OpsOk(s.log, s.opOf)
  }

  ghost predicate Inv(l: Layout, init: Disk, s: State) {
    L.Inv(l, init, s.log) && (!s.log.phase.Recovering? ==> Live(l, s))
  }

  // ---------------------------------------------------------------- counting references

  lemma OnAdd(refs: Refs, t: nat, r: Ref, i: nat)
    requires t !in refs
    ensures |On(refs[t := r], i)| == if i == r.i then |On(refs, i)| + 1 else |On(refs, i)|
  {
    assert On(refs[t := r], i) == if i == r.i then On(refs, i) + {t} else On(refs, i);
  }

  lemma UsersAdd(refs: Refs, t: nat, r: Ref)
    requires t !in refs && r.i < NBUF
    ensures Users(refs[t := r]) == Users(refs)[r.i := Users(refs)[r.i] + 1]
  {
    var refs' := refs[t := r];
    forall i: nat | i < NBUF ensures |On(refs', i)| == if i == r.i then |On(refs, i)| + 1 else |On(refs, i)| {
      OnAdd(refs, t, r, i);
    }
    hide On;
  }

  lemma UsersMove(refs: Refs, t: nat, r: Ref)
    requires t in refs && r.i == refs[t].i
    ensures Users(refs[t := r]) == Users(refs)
  {
    forall i: nat | i < NBUF ensures On(refs[t := r], i) == On(refs, i) {
    }
  }

  lemma UsersDrop(refs: Refs, t: nat)
    requires t in refs && refs[t].i < NBUF
    ensures Users(refs)[refs[t].i] > 0
    ensures Users(refs - {t}) == Users(refs)[refs[t].i := Users(refs)[refs[t].i] - 1]
  {
    hide On, Users;
    assert (refs - {t})[t := refs[t]] == refs;
    UsersAdd(refs - {t}, t, refs[t]);
  }

  // A holder and another reference to the same buffer are two.
  lemma UsersTwo(refs: Refs, t: nat, u: nat)
    requires t in refs && u in refs && t != u && refs[t].i == refs[u].i < NBUF
    ensures Users(refs)[refs[t].i] > 1
  {
    var i := refs[t].i;
    assert {t, u} <= On(refs, i);
    SubsetSize({t, u}, On(refs, i));
  }

  // A buffer without references and pins has no reference.
  lemma NoRefs(refs: Refs, buf: seq<Buf>, pins: seq<nat>, i: nat)
    requires Counted(buf, Users(refs), pins) && i < |buf| == NBUF && buf[i].refcnt == 0
    ensures pins[i] == 0 && buf[i].lock == 0 && forall t :: t in refs ==> refs[t].i != i
  {
    assert |On(refs, i)| == 0;
    assert forall t :: t in On(refs, i) <==> t in refs && refs[t].i == i;
  }

  // ---------------------------------------------------------------- locks and their holders

  // Buffer i changed, but not its lock.
  lemma RefsTouch(refs: Refs, buf: seq<Buf>, i: nat, b: Buf)
    requires RefsOk(refs, buf) && i < |buf| && b.lock == buf[i].lock && (buf[i].valid ==> b.valid)
    ensures RefsOk(refs, buf[i := b])
  {
    forall t | t in refs ensures RefOk(refs[t], buf[i := b]) {
      assert RefOk(refs[t], buf);
    }
  }

  lemma RefsAdd(refs: Refs, buf: seq<Buf>, t: nat, r: Ref)
    requires RefsOk(refs, buf) && t !in refs && r.i < |buf| && r.stage == Waiting
    ensures RefsOk(refs[t := r], buf)
  {
    forall i: nat | i < |buf| && buf[i].lock != 0 ensures HasHolder(refs[t := r], i) {
      var u :| Holding(refs, u) && refs[u].i == i;
      assert Holding(refs[t := r], u);
    }
  }

  lemma RefsMark(refs: Refs, buf: seq<Buf>, t: nat, c: bool)
    requires RefsOk(refs, buf) && Holding(refs, t) && refs[t].i < |buf| && (c ==> buf[refs[t].i].valid)
    ensures RefsOk(refs[t := refs[t].(stage := Held(c))], buf)
  {
    var refs' := refs[t := refs[t].(stage := Held(c))];
    assert RefOk(refs[t], buf);
    forall u ensures Holding(refs', u) <==> Holding(refs, u) {
    }
    forall i: nat | i < |buf| && buf[i].lock != 0 ensures HasHolder(refs', i) {
      var u :| Holding(refs, u) && refs[u].i == i;
      assert Holding(refs', u);
    }
  }

  lemma RefsAcquire(refs: Refs, buf: seq<Buf>, t: nat, b: Buf)
    requires RefsOk(refs, buf) && t in refs && refs[t].stage == Waiting && refs[t].i < |buf|
    requires buf[refs[t].i].lock == 0 && b.lock == refs[t].p + 1
    ensures RefsOk(refs[t := refs[t].(stage := Held(false))], buf[refs[t].i := b])
  {
    var i := refs[t].i;
    var refs', buf' := refs[t := refs[t].(stage := Held(false))], buf[i := b];
    forall u | Holding(refs, u) ensures refs[u].i != i {
      assert RefOk(refs[u], buf);
    }
    forall u | u in refs' ensures RefOk(refs'[u], buf') {
      assert RefOk(refs[u], buf);
    }
    assert Holding(refs', t);
    forall j: nat | j < |buf'| && buf'[j].lock != 0 ensures HasHolder(refs', j) {
      if j != i {
        var u :| Holding(refs, u) && refs[u].i == j;
        assert Holding(refs', u);
      }
    }
  }

  lemma RefsRelease(refs: Refs, buf: seq<Buf>, t: nat, b: Buf)
    requires RefsOk(refs, buf) && Holding(refs, t) && refs[t].i < |buf| && b.lock == 0
    ensures RefsOk(refs[t := refs[t].(stage := Leaving)], buf[refs[t].i := b])
  {
    var i := refs[t].i;
    var refs', buf' := refs[t := refs[t].(stage := Leaving)], buf[i := b];
    forall u | u in refs' ensures RefOk(refs'[u], buf') {
      assert RefOk(refs[u], buf);
      assert u != t && refs[u].i == i ==> !Holding(refs, u);
    }
    forall j: nat | j < |buf'| && buf'[j].lock != 0 ensures HasHolder(refs', j) {
      var u :| Holding(refs, u) && refs[u].i == j;
      assert Holding(refs', u);
    }
  }

  lemma RefsDrop(refs: Refs, buf: seq<Buf>, t: nat)
    requires RefsOk(refs, buf) && t in refs && refs[t].stage == Leaving
    ensures RefsOk(refs - {t}, buf)
  {
    forall j: nat | j < |buf| && buf[j].lock != 0 ensures HasHolder(refs - {t}, j) {
      var u :| Holding(refs, u) && refs[u].i == j;
      assert Holding(refs - {t}, u);
    }
  }

  // ---------------------------------------------------------------- steps that only move references

  // Buffer b0 caches and holds what it did.
  ghost predicate Same(b0: Buf, b: Buf) {
    Stays(b0, b) && b.data == b0.data
  }

  // The step touched neither the log nor what is changed or pinned.
  ghost predicate Calm(s: State, s': State) {
    && s'.log == s.log && s'.cells.view == s.cells.view && s'.cells.pins == s.cells.pins
    && s'.com == s.com && s'.opOf == s.opOf && |s'.cells.buf| == |s.cells.buf|
    && (forall t :: Changing(s.refs, t) <==> Changing(s'.refs, t))
    && (forall t :: Changing(s.refs, t) ==> s'.refs[t] == s.refs[t])
    && (forall i: nat :: i < |s.cells.buf| && s.cells.buf[i].valid && s.cells.buf[i].refcnt > 0 ==>
          Same(s.cells.buf[i], s'.cells.buf[i]))
  }

  lemma ChangingFacts(s: State, t: nat)
    requires CacheOk(s) && RefsOk(s.refs, s.cells.buf) && Changing(s.refs, t)
    ensures s.refs[t].i < |s.cells.buf| == NBUF && BufOf(s, t).valid && BufOf(s, t).refcnt > 0
    ensures BufOf(s, t).dev == ROOTDEV
  {
    assert RefOk(s.refs[t], s.cells.buf);
    assert t in On(s.refs, s.refs[t].i);
  }

  lemma CalmView(l: Layout, s: State, s': State)
    requires CacheOk(s) && RefsOk(s.refs, s.cells.buf) && RefsOk(s'.refs, s'.cells.buf) && Calm(s, s')
    requires ViewOk(l, s.log, s.cells.view, s.refs, s.cells.buf)
    ensures ViewOk(l, s'.log, s'.cells.view, s'.refs, s'.cells.buf)
  {
    forall t | t in s'.refs ensures s'.refs[t].i < |s'.cells.buf| {
      assert RefOk(s'.refs[t], s'.cells.buf);
    }
    forall b: nat | b < |s.cells.view| && s.cells.view[b] != Shown(l, s.log, b)
      ensures ChangedBy(s'.refs, s'.cells.buf, b)
    {
      assert ChangedBy(s.refs, s.cells.buf, b);
      var t :| Changing(s.refs, t) && Caches(s.cells.buf[s.refs[t].i], ROOTDEV, b);
      ChangingFacts(s, t);
      assert Changing(s'.refs, t);
    }
  }

  lemma CalmWriters(l: Layout, s: State, s': State)
    requires CacheOk(s) && RefsOk(s.refs, s.cells.buf) && Calm(s, s')
    requires WritersOk(l, s.log, s.refs, s.cells.buf, s.com, s.opOf)
    ensures WritersOk(l, s'.log, s'.refs, s'.cells.buf, s'.com, s'.opOf)
  {
    forall t | Changing(s'.refs, t)
      ensures s'.refs[t].i < |s'.cells.buf| && WriterOk(l, s'.log, s'.refs[t], s'.cells.buf, s'.com, s'.opOf)
    {
      assert Changing(s.refs, t);
      ChangingFacts(s, t);
      assert Same(s.cells.buf[s.refs[t].i], s'.cells.buf[s.refs[t].i]);
    }
  }

  lemma CalmPins(s: State, s': State)
    requires CacheOk(s) && Calm(s, s') && PinsOk(s.log, s.cells.buf, s.cells.pins, s.com)
    ensures PinsOk(s'.log, s'.cells.buf, s'.cells.pins, s'.com)
  {
    var u := s.com.unpinned;
    hide PinnedAt;
    PinnedStay(s.cells.buf, s'.cells.buf, Users(s.refs), s.cells.pins, s.log.lh[u..], s.com.at[u..]);
  }

  lemma CalmKeeps(l: Layout, s: State, s': State)
    requires Live(l, s) && Calm(s, s') && CacheOk(s') && RefsOk(s'.refs, s'.cells.buf)
    ensures Live(l, s')
  {
    hide CacheOk, RefsOk, ViewOk, WritersOk, PinsOk, OpsOk;
    CalmView(l, s, s');
    CalmWriters(l, s, s');
    CalmPins(s, s');
    assert s'.log == s.log && s'.opOf == s.opOf;
  }

  // ---------------------------------------------------------------- get, acquire, load, release, drop

  lemma GetCache(s: State, s': State, p: nat, b: nat, i: nat, t: nat)
    requires CacheOk(s) && RefsOk(s.refs, s.cells.buf) && Get(s, s', p, b, i, t)
    ensures CacheOk(s') && RefsOk(s'.refs, s'.cells.buf)
  {
    var buf, buf' := s.cells.buf, s'.cells.buf;
    hide LruOk, Agree, Unique, Users, RefsOk;
    UsersAdd(s.refs, t, Ref(p, i, Waiting));
    UniqueUpdate(buf, buf', i);
    AgreesAt(buf, s.cells.pins, s.cells.view, s.log.disk, i);
    if !Caches(buf[i], ROOTDEV, b) {
      NoRefs(s.refs, buf, s.cells.pins, i);
    }
    AgreeUpdate(buf, buf', s.cells.pins, s.cells.pins, s.cells.view, s.log.disk, i);
    GetRefs(s.refs, buf, buf', i, t, p);
  }

  lemma GetKeeps(l: Layout, s: State, s': State, p: nat, b: nat, i: nat, t: nat)
    requires Live(l, s) && Get(s, s', p, b, i, t)
    ensures Live(l, s')
  {
    LiveFacts(l, s);
    hide Live, CacheOk, RefsOk, Get, Calm;
    GetCache(s, s', p, b, i, t);
    GetCalm(s, s', p, b, i, t);
    CalmKeeps(l, s, s');
  }

  lemma GetCalm(s: State, s': State, p: nat, b: nat, i: nat, t: nat)
    requires Get(s, s', p, b, i, t)
    ensures Calm(s, s')
  {
    var buf, buf' := s.cells.buf, s'.cells.buf;
    assert buf'[i].dev == ROOTDEV && buf'[i].blockno == b && (buf[i].refcnt > 0 ==> Same(buf[i], buf'[i]));
    assert |buf'| == |buf| && forall j: nat :: j < |buf| && j != i ==> buf'[j] == buf[j];
    hide Got, Same;
    forall j: nat | j < |buf| && buf[j].valid && buf[j].refcnt > 0 ensures Same(buf[j], buf'[j]) {
      if j != i {
        Unchanged(buf[j]);
      }
    }
  }

  lemma Unchanged(b: Buf)
    ensures Same(b, b)
  {
  }

  lemma LiveFacts(l: Layout, s: State)
    requires Live(l, s)
    ensures CacheOk(s) && RefsOk(s.refs, s.cells.buf)
  {
  }

  lemma GetRefs(refs: Refs, buf: seq<Buf>, buf': seq<Buf>, i: nat, t: nat, p: nat)
    requires RefsOk(refs, buf) && i < |buf| == |buf'| && buf' == buf[i := buf'[i]] && t !in refs
    requires buf'[i].lock == buf[i].lock && (buf[i].valid == buf'[i].valid || forall u :: u in refs ==> refs[u].i != i)
    ensures RefsOk(refs[t := Ref(p, i, Waiting)], buf')
  {
    forall u | u in refs ensures RefOk(refs[u], buf') {
      assert RefOk(refs[u], buf);
    }
    RefsAdd(refs, buf', t, Ref(p, i, Waiting));
  }

  // One buffer changed its lock or its count.
  lemma CellOk(buf: seq<Buf>, pins: seq<nat>, view: Disk, disk: Disk, users: seq<nat>, i: nat, b: Buf, users': seq<nat>)
    requires Counted(buf, users, pins) && Unique(buf) && Agree(buf, pins, view, disk)
    requires i < |buf| == |users'| && users' == users[i := users'[i]] && Same(buf[i], b) && buf[i].refcnt > 0
    requires b.refcnt == users'[i] + pins[i] && (b.lock != 0 ==> users'[i] > 0)
    requires buf[i].lock != 0 && buf[i].valid && pins[i] == 0 ==>
      b.lock != 0 || (buf[i].blockno < |view| == |disk| && view[buf[i].blockno] == disk[buf[i].blockno])
    ensures Counted(buf[i := b], users', pins) && Unique(buf[i := b]) && Agree(buf[i := b], pins, view, disk)
  {
    AgreesAt(buf, pins, view, disk, i);
    UniqueUpdate(buf, buf[i := b], i);
    hide Agree;
    AgreeUpdate(buf, buf[i := b], pins, pins, view, disk, i);
  }

  lemma AcquireKeeps(l: Layout, s: State, s': State, t: nat)
    requires Live(l, s) && Acquire(s, s', t)
    ensures Live(l, s')
  {
    hide Live, LruOk, Agree, Unique, Users, RefsOk, Counted;
    LiveFacts(l, s);
    var buf, buf', i := s.cells.buf, s'.cells.buf, s.refs[t].i;
    assert CacheOk(s') by {
      UsersMove(s.refs, t, s'.refs[t]);
      UsersDrop(s.refs, t);
      CountedAt(buf, Users(s.refs), s.cells.pins, i);
      CellOk(buf, s.cells.pins, s.cells.view, s.log.disk, Users(s.refs), i, buf'[i], Users(s.refs));
    }
    RefsAcquire(s.refs, buf, t, buf'[i]);
    hide CacheOk;
    CalmKeeps(l, s, s');
  }

  lemma LoadKeeps(l: Layout, s: State, s': State, t: nat)
    requires Live(l, s) && Load(s, s', t)
    ensures Live(l, s')
  {
    var buf, buf', i := s.cells.buf, s'.cells.buf, s.refs[t].i;
    hide Live, ViewOk, WritersOk, PinsOk, OpsOk, LruOk, Agree, Unique, Users;
    LiveFacts(l, s);
    UsersDrop(s.refs, t);
    NotKept(buf, s.cells.pins, s.cells.view, s.log.disk, i);
    AgreesAt(buf, s.cells.pins, s.cells.view, s.log.disk, i);
    UniqueUpdate(buf, buf', i);
    AgreeUpdate(buf, buf', s.cells.pins, s.cells.pins, s.cells.view, s.log.disk, i);
    RefsTouch(s.refs, buf, i, buf'[i]);
    CalmKeeps(l, s, s');
  }

  lemma RelinkOk(r: Lru, i: nat, r': Lru)
    requires LruOk(r) && Relinked(r, i, r')
    ensures LruOk(r')
  {
    var k :| 0 <= k < |r.order| && r.order[k] == i && r'.order == MoveToFront(r.order, k);
    RelinkMovesToFront(r.order, r.next, r.prev, k);
    RecencyMove(r.order, r.stamp, r.now, k);
  }

  lemma DropKeeps(l: Layout, s: State, s': State, t: nat)
    requires Live(l, s) && Drop(s, s', t)
    ensures Live(l, s')
  {
    hide Live, LruOk, Agree, Unique, Users, RefsOk, Counted, Relinked;
    LiveFacts(l, s);
    var buf, buf', i := s.cells.buf, s'.cells.buf, s.refs[t].i;
    assert CacheOk(s') by {
      UsersDrop(s.refs, t);
      HolderElse(s.refs, buf, t);
      CountedAt(buf, Users(s.refs), s.cells.pins, i);
      CellOk(buf, s.cells.pins, s.cells.view, s.log.disk, Users(s.refs), i, buf'[i], Users(s'.refs));
      if buf[i].refcnt == 1 {
        RelinkOk(s.lru, i, s'.lru);
      }
    }
    RefsTouch(s.refs, buf, i, buf'[i]);
    RefsDrop(s.refs, buf', t);
    hide CacheOk;
    CalmKeeps(l, s, s');
  }

  // brelse drops a reference that is not the holder's: Unref's precondition.
  lemma HolderElse(refs: Refs, buf: seq<Buf>, t: nat)
    requires RefsOk(refs, buf) && t in refs && !refs[t].stage.Held? && refs[t].i < NBUF <= |buf|
    ensures Users(refs)[refs[t].i] > if buf[refs[t].i].lock != 0 then 1 else 0
  {
    UsersDrop(refs, t);
    if buf[refs[t].i].lock != 0 {
      var u :| Holding(refs, u) && refs[u].i == refs[t].i;
      UsersTwo(refs, t, u);
    }
  }

  // ---------------------------------------------------------------- what differs from the disk

  // A home block whose logged contents are not on disk is still to be installed.
  lemma Outstanding(l: Layout, init: Disk, g: L.State, u: nat, b: nat)
    requires L.Inv(l, init, g) && u <= |g.lh| && (g.phase.Running? || g.phase.Committing?)
    requires u > 0 ==> g.phase.Committing? && |g.lh| + 1 + u <= g.phase.k
    requires b < |g.disk| == |g.view| && !InLog(l, b) && g.view[b] != g.disk[b]
    ensures b in g.lh[u..]
  {
    hide Sound, Head, PutHead, Perform, CommitWrites;
    if g.phase.Committing? {
      var k, d0, n := g.phase.k, g.phase.d0, |g.lh|;
      CommitStage(l, d0, g.view, g.lh, k);
      assert b in g.lh;
      var i :| 0 <= i < n && g.lh[i] == b;
      assert i >= k - n - 1;
      assert g.lh[u..][i - u] == b;
    } else {
      assert b in g.lh && g.lh[0..] == g.lh;
    }
  }

  // Two buffers do not cache the same block.
  lemma SameBuffer(buf: seq<Buf>, i: nat, j: nat)
    requires Unique(buf) && i < |buf| && j < |buf| && buf[i].dev == ROOTDEV && Caches(buf[j], ROOTDEV, buf[i].blockno)
    ensures i == j
  {
  }

  lemma NotBoth(buf: seq<Buf>, i: nat, j: nat)
    requires Unique(buf) && i < |buf| && j < |buf| && buf[i].dev == ROOTDEV && i != j
    ensures !Caches(buf[j], ROOTDEV, buf[i].blockno)
  {
  }

  // The holder of an unchanged buffer sees the disk overlaid with every logged
  // change.
  lemma HolderSees(l: Layout, s: State, t: nat)
    requires Live(l, s) && Mine(s, t) && s.refs[t].stage == Held(false)
    ensures |s.log.view| == |s.log.disk| && BufOf(s, t).blockno < |s.log.disk| && BufOf(s, t).dev == ROOTDEV
    ensures BufOf(s, t).data == s.cells.view[BufOf(s, t).blockno] == Shown(l, s.log, BufOf(s, t).blockno)
  {
    var buf, i := s.cells.buf, s.refs[t].i;
    var b := buf[i].blockno;
    hide WritersOk, PinsOk, OpsOk, LruOk, Unique, Counted;
    AgreesAt(buf, s.cells.pins, s.cells.view, s.log.disk, i);
    assert Holding(s.refs, t);
    forall u | Changing(s.refs, u) ensures !Caches(buf[s.refs[u].i], ROOTDEV, b) {
      assert Holding(s.refs, u) && s.refs[u].i != i;
      NotBoth(buf, i, s.refs[u].i);
    }
    assert !ChangedBy(s.refs, buf, b);
  }

  // Either the buffer is pinned or the disk is up to date: the precondition of
  // releasesleep.
  lemma SafeToRelease(l: Layout, init: Disk, s: State, t: nat)
    requires L.Inv(l, init, s.log) && Live(l, s) && Mine(s, t) && s.refs[t].stage == Held(false)
    ensures |s.cells.pins| == |s.cells.buf| && BufOf(s, t).blockno < |s.log.disk|
    ensures s.cells.pins[s.refs[t].i] > 0 || s.cells.view[BufOf(s, t).blockno] == s.log.disk[BufOf(s, t).blockno]
  {
    var buf, i := s.cells.buf, s.refs[t].i;
    var b := buf[i].blockno;
    HolderSees(l, s, t);
    hide WritersOk, OpsOk, LruOk, Unique, ViewOk, RefsOk, Agree, PinnedAt, L.Inv;
    assert |s.cells.pins| == |buf|;
    if !InLog(l, b) && s.log.view[b] != s.log.disk[b] {
      var u := s.com.unpinned;
      Outstanding(l, init, s.log, u, b);
      var j :| 0 <= j < |s.log.lh[u..]| && s.log.lh[u..][j] == b;
      PinFacts(buf, s.cells.pins, s.log.lh[u..], s.com.at[u..], j);
      SameBuffer(buf, i, s.com.at[u..][j]);
    }
  }

  lemma ReleaseCache(s: State, s': State, t: nat)
    requires CacheOk(s) && RefsOk(s.refs, s.cells.buf) && Release(s, s', t)
    requires |s.cells.pins| == |s.cells.buf| && BufOf(s, t).blockno < |s.log.disk|
    requires s.cells.pins[s.refs[t].i] > 0 || s.cells.view[BufOf(s, t).blockno] == s.log.disk[BufOf(s, t).blockno]
    ensures CacheOk(s')
  {
    hide LruOk, Agree, Unique, Users, RefsOk, Counted;
    var buf, i := s.cells.buf, s.refs[t].i;
    UsersMove(s.refs, t, s'.refs[t]);
    UsersDrop(s.refs, t);
    CountedAt(buf, Users(s.refs), s.cells.pins, i);
    AgreesAt(buf, s.cells.pins, s.cells.view, s.log.disk, i);
    CellOk(buf, s.cells.pins, s.cells.view, s.log.disk, Users(s.refs), i, s'.cells.buf[i], Users(s.refs));
  }

  lemma ReleaseKeeps(l: Layout, init: Disk, s: State, s': State, t: nat)
    requires L.Inv(l, init, s.log) && Live(l, s) && Release(s, s', t)
    ensures Live(l, s')
  {
    hide Live, CacheOk, RefsOk, L.Inv;
    SafeToRelease(l, init, s, t);
    LiveFacts(l, s);
    ReleaseCache(s, s', t);
    RefsRelease(s.refs, s.cells.buf, t, s'.cells.buf[s.refs[t].i]);
    assert Calm(s, s');
    CalmKeeps(l, s, s');
  }

  // ---------------------------------------------------------------- changes

  // New data in a buffer that is held: Modify of the class.
  lemma AgreeChange(buf: seq<Buf>, pins: seq<nat>, view: Disk, disk: Disk, i: nat, data: Block)
    requires Agree(buf, pins, view, disk) && Unique(buf) && i < |buf| && buf[i].valid && buf[i].lock != 0
    ensures buf[i].blockno < |view|
    ensures Agree(buf[i := buf[i].(data := data)], pins, view[buf[i].blockno := data], disk)
  {
    var b := buf[i].blockno;
    var buf', view' := buf[i := buf[i].(data := data)], view[b := data];
    forall j | 0 <= j < |buf'| && buf'[j].valid
      ensures buf'[j].blockno < |view'| && buf'[j].data == view'[buf'[j].blockno]
    {
      assert j != i ==> !Caches(buf[j], buf[i].dev, b);
    }
    forall c | 0 <= c < |disk| && view'[c] != disk[c] ensures Kept(buf', pins, c) {
      if c == b {
        assert buf'[i].valid && buf'[i].blockno == b;
      } else {
        assert Kept(buf, pins, c);
        var j :| 0 <= j < |buf| && buf[j].valid && buf[j].blockno == c && (pins[j] > 0 || buf[j].lock != 0);
        assert buf'[j] == buf[j];
      }
    }
  }

  lemma ChangeCache(l: Layout, s: State, t: nat, data: Block)
    requires Live(l, s) && Mine(s, t)
    ensures CacheOk(Change(s, t, data)) && RefsOk(Change(s, t, data).refs, Change(s, t, data).cells.buf)
  {
    hide Live, LruOk, Agree, Unique, Users, RefsOk;
    LiveFacts(l, s);
    var s', buf, i := Change(s, t, data), s.cells.buf, s.refs[t].i;
    HeldLock(s.refs, buf, t);
    UsersMove(s.refs, t, s'.refs[t]);
    UniqueUpdate(buf, s'.cells.buf, i);
    AgreeChange(buf, s.cells.pins, s.cells.view, s.log.disk, i, data);
    RefsTouch(s.refs, buf, i, s'.cells.buf[i]);
    RefsMark(s.refs, s'.cells.buf, t, true);
  }

  lemma HeldLock(refs: Refs, buf: seq<Buf>, t: nat)
    requires RefsOk(refs, buf) && Holding(refs, t)
    ensures refs[t].i < |buf| && buf[refs[t].i].lock == refs[t].p + 1
  {
    assert RefOk(refs[t], buf);
  }

  lemma ChangeView(l: Layout, s: State, t: nat, data: Block)
    requires Live(l, s) && Mine(s, t)
    ensures var s' := Change(s, t, data); ViewOk(l, s'.log, s'.cells.view, s'.refs, s'.cells.buf)
  {
    hide WritersOk, PinsOk, OpsOk, LruOk, Unique, Counted;
    var s', i := Change(s, t, data), s.refs[t].i;
    AgreesAt(s.cells.buf, s.cells.pins, s.cells.view, s.log.disk, i);
    assert Changing(s'.refs, t);
    forall b: nat | b < |s'.cells.view| && s'.cells.view[b] != Shown(l, s'.log, b)
      ensures ChangedBy(s'.refs, s'.cells.buf, b)
    {
      if b != s.cells.buf[i].blockno {
        assert ChangedBy(s.refs, s.cells.buf, b);
        var u :| Changing(s.refs, u) && Caches(s.cells.buf[s.refs[u].i], ROOTDEV, b);
        assert Changing(s'.refs, u);
      }
    }
  }

  // The other writers are not concerned: nobody else holds this buffer.
  lemma ChangeWriters(l: Layout, s: State, t: nat, data: Block)
    requires Live(l, s) && Mine(s, t)
    requires WriterOk(l, s.log, s.refs[t], Change(s, t, data).cells.buf, s.com, s.opOf)
    ensures var s' := Change(s, t, data); WritersOk(l, s'.log, s'.refs, s'.cells.buf, s'.com, s'.opOf)
  {
    hide PinsOk, OpsOk, LruOk, Unique, Counted, Agree, CommitWrites, Committable;
    var s' := Change(s, t, data);
    forall u | Changing(s'.refs, u)
      ensures s'.refs[u].i < |s'.cells.buf| && WriterOk(l, s'.log, s'.refs[u], s'.cells.buf, s'.com, s'.opOf)
    {
      if u != t {
        assert Changing(s.refs, u) && Holding(s.refs, u) && Holding(s.refs, t);
        assert s.refs[u].i != s.refs[t].i;
      }
    }
  }

  lemma ChangePins(l: Layout, s: State, t: nat, data: Block)
    requires Live(l, s) && Mine(s, t)
    ensures var s' := Change(s, t, data); PinsOk(s'.log, s'.cells.buf, s'.cells.pins, s'.com) && OpsOk(s'.log, s'.opOf)
  {
    var s', u := Change(s, t, data), s.com.unpinned;
    hide PinnedAt;
    OneTouched(s.cells.buf, s'.cells.buf, s.cells.pins, s.log.lh[u..], s.com.at[u..], s.refs[t].i);
  }

  lemma ChangeKeeps(l: Layout, s: State, t: nat, data: Block)
    requires Live(l, s) && Mine(s, t)
    requires WriterOk(l, s.log, s.refs[t], Change(s, t, data).cells.buf, s.com, s.opOf)
    ensures Live(l, Change(s, t, data))
  {
    ChangeCache(l, s, t, data);
    ChangeView(l, s, t, data);
    ChangeWriters(l, s, t, data);
    ChangePins(l, s, t, data);
  }

  lemma ModifyKeeps(l: Layout, init: Disk, s: State, s': State, t: nat, data: Block)
    requires L.Inv(l, init, s.log) && Live(l, s) && Modify(l, s, s', t, data)
    ensures Live(l, s')
  {
    assert s.log.phase.Running? by {
      assert s.opOf[s.refs[t].p] in s.log.ops;
    }
    ChangeKeeps(l, s, t, data);
  }

  // ---------------------------------------------------------------- log_write

  lemma LogCache(s: State, s': State, t: nat)
    requires CacheOk(s) && RefsOk(s.refs, s.cells.buf) && Mine(s, t) && |s.cells.pins| == |s.cells.buf|
    requires s'.lru == s.lru && s'.log.disk == s.log.disk && s'.refs == s.refs[t := s.refs[t].(stage := Held(false))]
    requires var b, i := BufOf(s, t), s.refs[t].i;
             || s'.cells == s.cells
             || s'.cells == s.cells.(buf := s.cells.buf[i := b.(refcnt := b.refcnt + 1)],
                                     pins := s.cells.pins[i := s.cells.pins[i] + 1])
    ensures CacheOk(s') && RefsOk(s'.refs, s'.cells.buf)
  {
    hide LruOk, Agree, Unique, Users, RefsOk;
    var buf, i := s.cells.buf, s.refs[t].i;
    UsersMove(s.refs, t, s'.refs[t]);
    AgreesAt(buf, s.cells.pins, s.cells.view, s.log.disk, i);
    UniqueUpdate(buf, s'.cells.buf, i);
    AgreeUpdate(buf, s'.cells.buf, s.cells.pins, s'.cells.pins, s.cells.view, s.log.disk, i);
    RefsTouch(s.refs, buf, i, s'.cells.buf[i]);
    RefsMark(s.refs, s'.cells.buf, t, false);
  }

  lemma LogView(l: Layout, s: State, s': State, t: nat)
    requires Live(l, s) && LogChange(l, s, s', t)
    ensures ViewOk(l, s'.log, s'.cells.view, s'.refs, s'.cells.buf)
  {
    hide WritersOk, PinsOk, OpsOk, LruOk, Counted, L.LogWriteAllowed;
    var i := s.refs[t].i;
    AgreesAt(s.cells.buf, s.cells.pins, s.cells.view, s.log.disk, i);
    forall u | u in s'.refs ensures s'.refs[u].i < |s'.cells.buf| {
      assert s.refs[u].i < |s.cells.buf|;
    }
    forall b: nat | b < |s'.cells.view| && s'.cells.view[b] != Shown(l, s'.log, b)
      ensures ChangedBy(s'.refs, s'.cells.buf, b)
    {
      assert b != s.cells.buf[i].blockno;
      assert ChangedBy(s.refs, s.cells.buf, b);
      var u :| Changing(s.refs, u) && Caches(s.cells.buf[s.refs[u].i], ROOTDEV, b);
      assert Changing(s'.refs, u);
    }
  }

  lemma LogWriters(l: Layout, s: State, s': State, t: nat)
    requires Live(l, s) && LogChange(l, s, s', t) && s.log.phase.Running?
    ensures WritersOk(l, s'.log, s'.refs, s'.cells.buf, s'.com, s'.opOf)
  {
    hide PinsOk, OpsOk, CacheOk, ViewOk, L.LogWriteAllowed, RefsOk;
    forall u | Changing(s'.refs, u)
      ensures s'.refs[u].i < |s'.cells.buf| && WriterOk(l, s'.log, s'.refs[u], s'.cells.buf, s'.com, s'.opOf)
    {
      assert Changing(s.refs, u);
    }
  }

  lemma LogPins(l: Layout, s: State, s': State, t: nat)
    requires Live(l, s) && LogChange(l, s, s', t) && s.log.phase.Running?
    ensures PinsOk(s'.log, s'.cells.buf, s'.cells.pins, s'.com) && OpsOk(s'.log, s'.opOf)
  {
    hide PinnedAt, WritersOk, ViewOk, LruOk, Counted, Unique, RefsOk;
    var i, b := s.refs[t].i, BufOf(s, t);
    AgreesAt(s.cells.buf, s.cells.pins, s.cells.view, s.log.disk, i);
    assert s.log.lh[0..] == s.log.lh && s.com.at[0..] == s.com.at;
    assert s'.log.lh[0..] == s'.log.lh && s'.com.at[0..] == s'.com.at;
    if b.blockno !in s.log.lh {
      PinOne(s.cells.buf, s'.cells.buf, s.cells.pins, s'.cells.pins, s.log.lh, s.com.at, i, b.blockno);
    }
  }

  lemma OnlyRunning(l: Layout, init: Disk, s: State, p: nat)
    requires L.Inv(l, init, s.log) && OpsOk(s.log, s.opOf) && p in s.opOf
    ensures s.log.phase.Running?
  {
  }

  lemma LogCells(l: Layout, s: State, s': State, t: nat)
    requires Live(l, s) && LogChange(l, s, s', t)
    ensures CacheOk(s') && RefsOk(s'.refs, s'.cells.buf)
  {
    hide ViewOk, WritersOk, PinsOk, OpsOk, CacheOk, RefsOk, L.LogWriteAllowed, L.Disciplined;
    LogCache(s, s', t);
  }

  lemma LogKeeps(l: Layout, init: Disk, s: State, s': State, t: nat)
    requires L.Inv(l, init, s.log) && Live(l, s) && LogChange(l, s, s', t)
    ensures Live(l, s')
  {
    hide ViewOk, WritersOk, PinsOk, OpsOk, CacheOk, RefsOk, L.Inv, LogChange;
    assert s.refs[t].p in s.opOf by { LogOwner(l, s, s', t); }
    OnlyRunning(l, init, s, s.refs[t].p);
    LogView(l, s, s', t);
    LogWriters(l, s, s', t);
    LogPins(l, s, s', t);
    LogCells(l, s, s', t);
  }

  lemma LogOwner(l: Layout, s: State, s': State, t: nat)
    requires LogChange(l, s, s', t)
    ensures t in s.refs && s.refs[t].p in s.opOf
  {
  }

  // ---------------------------------------------------------------- begin_op and end_op

  lemma BeginKeeps(l: Layout, init: Disk, s: State, s': State, p: nat)
    requires L.Inv(l, init, s.log) && Live(l, s) && Begin(s, s', p)
    ensures Live(l, s')
  {
    hide L.Contents, L.Admission, LruOk, Counted, Unique, Agree, RefsOk, PinnedAt;
    forall q | q in s.opOf ensures s.opOf[q] != s.log.nextOp {
      assert s.opOf[q] in s.log.ops;
    }
    assert OpsOk(s'.log, s'.opOf);
    forall t | Changing(s'.refs, t)
      ensures s'.refs[t].i < |s'.cells.buf| && WriterOk(l, s'.log, s'.refs[t], s'.cells.buf, s'.com, s'.opOf)
    {
      assert Changing(s.refs, t);
    }
    assert ViewOk(l, s'.log, s'.cells.view, s'.refs, s'.cells.buf) by {
      SameShown(l, s.log, s'.log, s.cells.view, s.refs, s.cells.buf);
    }
  }

  lemma SameShown(l: Layout, g: L.State, g': L.State, view: Disk, refs: Refs, buf: seq<Buf>)
    requires ViewOk(l, g, view, refs, buf) && g'.disk == g.disk && g'.view == g.view
    ensures ViewOk(l, g', view, refs, buf)
  {
  }

  lemma EndOps(g: L.State, g': L.State, opOf: map<nat, nat>, p: nat)
    requires OpsOk(g, opOf) && p in opOf && g'.ops == g.ops - {opOf[p]}
    ensures OpsOk(g', opOf - {p}) && (g'.ops == map[] ==> forall q :: q in opOf ==> q == p)
  {
    forall q | q in opOf && q != p ensures opOf[q] in g'.ops {
      assert opOf[q] != opOf[p];
    }
  }

  lemma EndWriters(l: Layout, s: State, s': State, p: nat)
    requires Live(l, s) && End(s, s', p) && s.log.phase.Running?
    ensures WritersOk(l, s'.log, s'.refs, s'.cells.buf, s'.com, s'.opOf) && OpsOk(s'.log, s'.opOf)
  {
    hide CacheOk, RefsOk, ViewOk, PinsOk;
    EndOps(s.log, s'.log, s.opOf, p);
    forall t | Changing(s'.refs, t)
      ensures s'.refs[t].i < |s'.cells.buf| && WriterOk(l, s'.log, s'.refs[t], s'.cells.buf, s'.com, s'.opOf)
    {
      assert Changing(s.refs, t) && WriterOk(l, s.log, s.refs[t], s.cells.buf, s.com, s.opOf);
      assert s.refs[t].p in s.opOf && s.refs[t].p != p;
    }
  }

  // Cells, list and references are as they were, and so is the disk.
  lemma SameCache(s: State, s': State)
    requires CacheOk(s) && RefsOk(s.refs, s.cells.buf)
    requires s'.cells == s.cells && s'.lru == s.lru && s'.refs == s.refs && s'.log.disk == s.log.disk
    ensures CacheOk(s') && RefsOk(s'.refs, s'.cells.buf)
  {
  }

  lemma EndPins(s: State, s': State, p: nat)
    requires PinsOk(s.log, s.cells.buf, s.cells.pins, s.com) && End(s, s', p) && s.log.phase.Running?
    ensures PinsOk(s'.log, s'.cells.buf, s'.cells.pins, s'.com)
  {
    hide PinnedAt;
  }

  lemma EndKeeps(l: Layout, init: Disk, s: State, s': State, p: nat)
    requires L.Inv(l, init, s.log) && Live(l, s) && End(s, s', p)
    ensures Live(l, s')
  {
    hide ViewOk, WritersOk, PinsOk, OpsOk, CacheOk, RefsOk, L.Inv;
    OnlyRunning(l, init, s, p);
    EndWriters(l, s, s', p);
    EndPins(s, s', p);
    SameShown(l, s.log, s'.log, s.cells.view, s.refs, s.cells.buf);
    SameCache(s, s');
  }

  // ---------------------------------------------------------------- commit, block by block

  lemma CommitFacts(l: Layout, init: Disk, g: L.State)
    requires L.Inv(l, init, g) && g.phase.Committing?
    ensures Committable(l, g.phase.d0, g.view, g.lh) && g.phase.k <= 2 * |g.lh| + 2
    ensures g.disk == AfterCommit(l, g.phase.d0, g.view, g.lh, g.phase.k) && |g.disk| == |g.view|
    ensures |g.lh| < WORDS && l.start < |g.disk| && InLog(l, l.start)
  {
  }

  lemma NextLogBlock(l: Layout, init: Disk, g: L.State)
    requires L.Inv(l, init, g) && g.phase.Committing? && g.phase.k < |g.lh|
    ensures var k := g.phase.k;
            && Committable(l, g.phase.d0, g.view, g.lh)
            && 0 <= g.lh[k] < |g.view| && !InLog(l, g.lh[k]) && InLog(l, Slot(l, k))
            && CommitWrites(l, g.phase.d0, g.view, g.lh)[k] == Write(Slot(l, k), g.view[g.lh[k]])
  {
    hide L.Inv, PutHead, Sound, Head, Perform;
    CommitFacts(l, init, g);
    ListAt(l, |g.view|, g.lh, g.phase.k);
  }

  lemma NextHeader(l: Layout, init: Disk, g: L.State)
    requires L.Inv(l, init, g) && g.phase.Committing? && (g.phase.k == |g.lh| || g.phase.k == 2 * |g.lh| + 1)
    ensures Committable(l, g.phase.d0, g.view, g.lh) && l.start < |g.disk| && InLog(l, l.start) && |g.lh| < WORDS
    ensures CommitWrites(l, g.phase.d0, g.view, g.lh)[g.phase.k]
         == Write(l.start, PutHead(g.disk[l.start], if g.phase.k == |g.lh| then g.lh else []))
  {
    hide L.Inv, CopyStage, HomeStage, PutHead, SoundHead, Perform;
    CommitFacts(l, init, g);
    CommitStage(l, g.phase.d0, g.view, g.lh, g.phase.k);
  }

  lemma NextHomeBlock(l: Layout, init: Disk, g: L.State)
    requires L.Inv(l, init, g) && g.phase.Committing? && |g.lh| < g.phase.k <= 2 * |g.lh|
    ensures var k, j := g.phase.k, g.phase.k - |g.lh| - 1;
            && Committable(l, g.phase.d0, g.view, g.lh) && 0 <= g.lh[j] < |g.view| && !InLog(l, g.lh[j])
            && CommitWrites(l, g.phase.d0, g.view, g.lh)[k] == Write(g.lh[j], g.view[g.lh[j]])
            && Slot(l, j) < |g.disk| && InLog(l, Slot(l, j)) && g.disk[Slot(l, j)] == g.view[g.lh[j]]
  {
    hide L.Inv, HeadStage, HomeStage, PutHead, SoundHead, Perform;
    CommitFacts(l, init, g);
    CommitStage(l, g.phase.d0, g.view, g.lh, g.phase.k);
    ListAt(l, |g.view|, g.lh, g.phase.k - |g.lh| - 1);
  }

  // A block the committing process is not writing shows what it should.
  lemma NotTheTarget(l: Layout, s: State, t: nat, b: nat)
    requires Live(l, s) && Committing(s, t) && Committable(l, s.log.phase.d0, s.log.view, s.log.lh)
    requires s.log.phase.k < 2 * N(s) + 2
    requires CommitWrites(l, s.log.phase.d0, s.log.view, s.log.lh)[s.log.phase.k].bno == b != BufOf(s, t).blockno
    ensures s.refs[t].stage == Held(false)
  {
    hide CacheOk, RefsOk, ViewOk, PinsOk, OpsOk, CommitWrites, Committable;
    assert !Changing(s.refs, t);
  }

  lemma CopyToLogKeeps(l: Layout, init: Disk, s: State, s': State, to: nat, from: nat)
    requires L.Inv(l, init, s.log) && Live(l, s) && CopyToLog(l, s, s', to, from)
    ensures Live(l, s')
  {
    hide L.Inv, Live, CommitWrites, Committable;
    NextLogBlock(l, init, s.log);
    NotTheTarget(l, s, from, Slot(l, s.log.phase.k));
    HolderSees(l, s, from);
    ChangeKeeps(l, s, to, BufOf(s, from).data);
  }

  lemma PutHeaderKeeps(l: Layout, init: Disk, s: State, s': State, t: nat)
    requires L.Inv(l, init, s.log) && Live(l, s) && PutHeader(l, s, s', t)
    ensures Live(l, s')
  {
    assert s.log.phase.k == N(s) ==> s.com.mem == s.log.lh;
    hide L.Inv, Live, CommitWrites, Committable, PutHead;
    NextHeader(l, init, s.log);
    HolderSees(l, s, t);
    ChangeKeeps(l, s, t, PutHead(BufOf(s, t).data, s.com.mem));
  }

  lemma CopyHomeKeeps(l: Layout, init: Disk, s: State, s': State, dst: nat, src: nat)
    requires L.Inv(l, init, s.log) && Live(l, s) && CopyHome(l, s, s', dst, src)
    ensures Live(l, s')
  {
    hide L.Inv, Live, CommitWrites, Committable;
    NextHomeBlock(l, init, s.log);
    NotTheTarget(l, s, src, s.log.lh[s.log.phase.k - N(s) - 1]);
    HolderSees(l, s, src);
    ChangeKeeps(l, s, dst, BufOf(s, src).data);
  }

  // What the committing process writes is the next write of the commit.
  lemma WriteIsNext(l: Layout, init: Disk, s: State, s': State, t: nat)
    requires L.Inv(l, init, s.log) && Live(l, s) && WriteOut(s, s', t)
    ensures L.CommitStep(l, s.log, s'.log)
  {
    hide CacheOk, RefsOk, ViewOk, PinsOk, OpsOk, CommitWrites, Committable;
    assert Changing(s.refs, t);
  }

  // The contents of a home write are the logged contents.
  lemma HomeWriteShows(l: Layout, d: Disk, view: Disk, lh: seq<int>, k: nat)
    requires Committable(l, d, view, lh) && k < 2 * |lh| + 2
    ensures var w := CommitWrites(l, d, view, lh)[k];
            w.bno < |view| && (InLog(l, w.bno) || w.data == view[w.bno])
  {
    hide Sound, Head, PutHead;
    if k == |lh| || k > 2 * |lh| {
      StartInLog(l, d);
    }
  }

  lemma StartInLog(l: Layout, d: Disk)
    requires Sound(l, d)
    ensures InLog(l, l.start) && l.start < |d|
  {
  }

  lemma WriteOutCache(l: Layout, s: State, s': State, t: nat)
    requires Live(l, s) && WriteOut(s, s', t)
    ensures CacheOk(s') && RefsOk(s'.refs, s'.cells.buf)
  {
    hide ViewOk, WritersOk, PinsOk, OpsOk, LruOk, Unique, Users;
    var buf, i := s.cells.buf, s.refs[t].i;
    UsersMove(s.refs, t, s'.refs[t]);
    AgreesAt(buf, s.cells.pins, s.cells.view, s.log.disk, i);
    RefsMark(s.refs, buf, t, false);
    hide RefsOk, Counted;
    AgreeWrite(buf, s.cells.pins, s.cells.view, s.log.disk, buf[i].blockno);
  }

  lemma AgreeWrite(buf: seq<Buf>, pins: seq<nat>, view: Disk, disk: Disk, b: nat)
    requires Agree(buf, pins, view, disk) && b < |disk|
    ensures Agree(buf, pins, view, disk[b := view[b]])
  {
  }

  // Nobody else is writing.
  lemma OnlyWriter(l: Layout, s: State, t: nat, u: nat)
    requires Live(l, s) && Committing(s, t) && Changing(s.refs, t) && Changing(s.refs, u)
    ensures t == u
  {
    hide ViewOk, PinsOk, OpsOk, LruOk, Counted, CommitWrites, Committable;
    AgreesAt(s.cells.buf, s.cells.pins, s.cells.view, s.log.disk, s.refs[t].i);
    ChangingFacts(s, t);
    ChangingFacts(s, u);
    SameBuffer(s.cells.buf, s.refs[t].i, s.refs[u].i);
    assert Holding(s.refs, t) && Holding(s.refs, u);
  }

  // After the write nobody has an unlogged change.
  lemma WriteOutNone(l: Layout, s: State, s': State, t: nat)
    requires Live(l, s) && WriteOut(s, s', t)
    ensures forall u :: Changing(s.refs, u) ==> u == t
    ensures forall u :: !Changing(s'.refs, u)
  {
    forall u | Changing(s.refs, u) ensures u == t {
      OnlyWriter(l, s, t, u);
    }
    hide Live;
    forall u ensures !Changing(s'.refs, u) {
      assert Changing(s'.refs, u) ==> Changing(s.refs, u);
    }
  }

  lemma WriteOutShows(l: Layout, s: State, s': State, t: nat)
    requires Live(l, s) && WriteOut(s, s', t)
    ensures |s'.cells.view| == |s'.log.disk| == |s'.log.view|
    ensures forall b: nat :: b < |s'.cells.view| ==> s'.cells.view[b] == Shown(l, s'.log, b)
  {
    var buf, i, k, d0 := s.cells.buf, s.refs[t].i, s.log.phase.k, s.log.phase.d0;
    assert Changing(s.refs, t);
    HomeWriteShows(l, d0, s.log.view, s.log.lh, k);
    AgreesAt(buf, s.cells.pins, s.cells.view, s.log.disk, i);
    WriteOutNone(l, s, s', t);
    hide PinsOk, OpsOk, CacheOk, RefsOk, CommitWrites, Committable, Changing;
    forall b: nat | b < |s'.cells.view| ensures s'.cells.view[b] == Shown(l, s'.log, b) {
      if b != buf[i].blockno {
        assert !ChangedBy(s.refs, buf, b);
      }
    }
  }

  lemma WriteOutRest(l: Layout, s: State, s': State, t: nat)
    requires Live(l, s) && WriteOut(s, s', t)
    ensures ViewOk(l, s'.log, s'.cells.view, s'.refs, s'.cells.buf)
    ensures WritersOk(l, s'.log, s'.refs, s'.cells.buf, s'.com, s'.opOf)
  {
    assert forall u :: u in s.refs ==> s.refs[u].i < |s.cells.buf|;
    WriteOutNone(l, s, s', t);
    WriteOutShows(l, s, s', t);
    hide Live, Changing, Shown;
  }

  lemma WriteOutPins(s: State, s': State, t: nat)
    requires PinsOk(s.log, s.cells.buf, s.cells.pins, s.com) && OpsOk(s.log, s.opOf) && WriteOut(s, s', t)
    ensures PinsOk(s'.log, s'.cells.buf, s'.cells.pins, s'.com) && OpsOk(s'.log, s'.opOf)
  {
    hide PinnedAt;
  }

  lemma WriteOutKeeps(l: Layout, s: State, s': State, t: nat)
    requires Live(l, s) && WriteOut(s, s', t)
    ensures Live(l, s')
  {
    hide ViewOk, WritersOk, PinsOk, OpsOk, CacheOk, RefsOk, WriteOut;
    WriteOutCache(l, s, s', t);
    WriteOutRest(l, s, s', t);
    WriteOutPins(s, s', t);
  }

  lemma UnpinCache(l: Layout, s: State, s': State, t: nat)
    requires Live(l, s) && Unpin(s, s', t)
    ensures CacheOk(s') && RefsOk(s'.refs, s'.cells.buf)
  {
    hide Live, LruOk, Agree, Unique, Users, RefsOk;
    LiveFacts(l, s);
    var buf, buf', i := s.cells.buf, s'.cells.buf, s.refs[t].i;
    HeldLock(s.refs, buf, t);
    AgreesAt(buf, s.cells.pins, s.cells.view, s.log.disk, i);
    UniqueUpdate(buf, buf', i);
    AgreeUpdate(buf, buf', s.cells.pins, s'.cells.pins, s.cells.view, s.log.disk, i);
    RefsTouch(s.refs, buf, i, buf'[i]);
  }

  lemma UnpinPins(l: Layout, init: Disk, s: State, s': State, t: nat)
    requires L.Inv(l, init, s.log) && Live(l, s) && Unpin(s, s', t)
    ensures PinsOk(s'.log, s'.cells.buf, s'.cells.pins, s'.com) && OpsOk(s'.log, s'.opOf)
  {
    hide L.Inv, CacheOk, RefsOk, ViewOk, WritersOk, PinnedAt, Sound, Head;
    CommitFacts(l, init, s.log);
    var u := s.com.unpinned;
    UnpinNext(l, |s.log.view|, s.cells.buf, s.cells.pins, s.log.lh, s.com.at, u);
    OneTouched(s.cells.buf, s'.cells.buf, s'.cells.pins, s.log.lh[u + 1..], s.com.at[u + 1..], s.refs[t].i);
  }

  lemma UnpinRest(l: Layout, s: State, s': State, t: nat)
    requires Live(l, s) && Unpin(s, s', t)
    ensures ViewOk(l, s'.log, s'.cells.view, s'.refs, s'.cells.buf)
    ensures WritersOk(l, s'.log, s'.refs, s'.cells.buf, s'.com, s'.opOf)
  {
    hide PinsOk, OpsOk, CacheOk, RefsOk, CommitWrites, Committable;
    var buf, buf' := s.cells.buf, s'.cells.buf;
    assert forall j :: 0 <= j < |buf| ==> Same(buf[j], buf'[j]);
    forall b: nat | b < |s.cells.view| && s.cells.view[b] != Shown(l, s.log, b) ensures ChangedBy(s'.refs, buf', b) {
      assert ChangedBy(s.refs, buf, b);
      var u :| Changing(s.refs, u) && Caches(buf[s.refs[u].i], ROOTDEV, b);
      assert Caches(buf'[s.refs[u].i], ROOTDEV, b);
    }
    forall u | Changing(s'.refs, u)
      ensures s'.refs[u].i < |buf'| && WriterOk(l, s'.log, s'.refs[u], buf', s'.com, s'.opOf)
    {
      assert WriterOk(l, s.log, s.refs[u], buf, s.com, s.opOf);
    }
  }

  lemma UnpinKeeps(l: Layout, init: Disk, s: State, s': State, t: nat)
    requires L.Inv(l, init, s.log) && Live(l, s) && Unpin(s, s', t)
    ensures Live(l, s')
  {
    hide ViewOk, WritersOk, PinsOk, OpsOk, CacheOk, RefsOk, Unpin, L.Inv;
    UnpinCache(l, s, s', t);
    UnpinRest(l, s, s', t);
    UnpinPins(l, init, s, s', t);
  }

  lemma ClearKeeps(l: Layout, s: State, s': State)
    requires Live(l, s) && Clear(s, s')
    ensures Live(l, s')
  {
    hide ViewOk, OpsOk, CacheOk, RefsOk, PinnedAt, CommitWrites, Committable;
    SameCache(s, s');
    forall t | Changing(s'.refs, t)
      ensures s'.refs[t].i < |s'.cells.buf| && WriterOk(l, s'.log, s'.refs[t], s'.cells.buf, s'.com, s'.opOf)
    {
      assert WriterOk(l, s.log, s.refs[t], s.cells.buf, s.com, s.opOf);
    }
  }

  lemma ReturnKeeps(l: Layout, s: State, s': State)
    requires Live(l, s) && Return(s, s')
    ensures Live(l, s')
  {
    hide OpsOk, CacheOk, RefsOk, PinnedAt, CommitWrites, Committable;
    SameCache(s, s');
    SameShown(l, s.log, s'.log, s.cells.view, s.refs, s.cells.buf);
    hide ViewOk;
    assert s.log.lh[N(s)..] == [] && s.com.at[N(s)..] == [];
    assert s'.log.lh[0..] == [] && s'.com.at[0..] == [];
    forall t ensures !Changing(s'.refs, t) {
    }
    assert OpsOk(s'.log, s'.opOf) by { SameOps(s.log, s'.log, s.opOf); }
  }

  lemma SameOps(g: L.State, g': L.State, opOf: map<nat, nat>)
    requires OpsOk(g, opOf) && g'.ops == g.ops
    ensures OpsOk(g', opOf)
  {
  }

  lemma BootKeeps(l: Layout, init: Disk, s: State, s': State)
    requires L.Inv(l, init, s.log) && Boot(l, s, s')
    ensures Live(l, s')
  {
    hide LruOk, Counted, Unique;
    assert s.log.lh == [] by { hide Boot; }
    assert s'.log.lh[0..] == [] && s'.com.at[0..] == [];
    AgreesAt(s'.cells.buf, s'.cells.pins, s'.cells.view, s'.log.disk, 0);
  }

  // ---------------------------------------------------------------- every step

  // The log part of a step is a step of LogRun, or nothing.
  lemma LogSteps(l: Layout, init: Disk, s: State, s': State, a: Action)
    requires Inv(l, init, s) && Next(l, s, s', a)
    ensures s'.log == s.log || L.Next(l, s.log, s'.log)
  {
    hide Live, L.Inv;
    match a
    case DoWriteOut(t) => WriteIsNext(l, init, s, s', t);
    case DoLog(t) => assert LogChange(l, s, s', t);
    case DoEnd(p) => assert End(s, s', p);
    case _ =>
  }

  lemma StepKeeps(l: Layout, init: Disk, s: State, s': State, a: Action)
    requires L.Inv(l, init, s.log) && Live(l, s) && Step(l, s, s', a)
    ensures Live(l, s')
  {
    hide Live, L.Inv, Get, Acquire, Load, Modify, LogChange, Release, Drop, Begin, End;
    hide CopyToLog, PutHeader, CopyHome, WriteOut, Unpin, Clear, Return;
    match a
    case DoGet(p, b, i, t) => GetKeeps(l, s, s', p, b, i, t);
    case DoAcquire(t) => AcquireKeeps(l, s, s', t);
    case DoLoad(t) => LoadKeeps(l, s, s', t);
    case DoModify(t, data) => ModifyKeeps(l, init, s, s', t, data);
    case DoLog(t) => LogKeeps(l, init, s, s', t);
    case DoRelease(t) => ReleaseKeeps(l, init, s, s', t);
    case DoDrop(t) => DropKeeps(l, s, s', t);
    case DoBegin(p) => BeginKeeps(l, init, s, s', p);
    case DoEnd(p) => EndKeeps(l, init, s, s', p);
    case DoCopyToLog(t, from) => CopyToLogKeeps(l, init, s, s', t, from);
    case DoPutHeader(t) => PutHeaderKeeps(l, init, s, s', t);
    case DoCopyHome(t, src) => CopyHomeKeeps(l, init, s, s', t, src);
    case DoWriteOut(t) => WriteOutKeeps(l, s, s', t);
    case DoUnpin(t) => UnpinKeeps(l, init, s, s', t);
    case DoClear => ClearKeeps(l, s, s');
    case DoReturn => ReturnKeeps(l, s, s');
    case _ =>
  }

  // Every step of every process, of a commit, a crash or a recovery keeps the
  // invariant.
  lemma InvKept(l: Layout, init: Disk, s: State, s': State, a: Action)
    requires Inv(l, init, s) && Next(l, s, s', a)
    ensures Inv(l, init, s')
  {
    LogSteps(l, init, s, s', a);
    hide Live, L.Inv, Step, Boot, L.Next;
    if s'.log != s.log {
      L.InvKept(l, init, s.log, s'.log);
    }
    if a.DoBoot? {
      BootKeeps(l, init, s, s');
    } else if !a.DoCrash? && !a.DoRecoverWrite? {
      StepKeeps(l, init, s, s', a);
    }
  }

  // ---------------------------------------------------------------- runs

  // A machine that has booted on a disk whose log is empty.
  ghost predicate Init(l: Layout, d: Disk, s: State) {
    && L.Init(l, d, s.log)
    && CacheOk(s) && s.cells.view == s.log.disk
    && (forall i :: 0 <= i < NBUF ==> s.cells.buf[i].lock == 0 && s.cells.pins[i] == 0)
    && s.refs == map[] && s.opOf == map[] && s.com == Commit([], 0, [], 0)
  }

  ghost predicate Run(l: Layout, init: Disk, ss: seq<State>, acts: seq<Action>) {
    && |ss| == |acts| + 1 && Init(l, init, ss[0])
    && forall k :: 0 <= k < |acts| ==> Next(l, ss[k], ss[k + 1], acts[k])
  }

  lemma InitInv(l: Layout, d: Disk, s: State)
    requires Init(l, d, s)
    ensures Inv(l, d, s)
  {
    hide LruOk, Counted, Unique;
    L.InitInv(l, d, s.log);
    assert s.log.lh[0..] == [] && s.com.at[0..] == [];
    AgreesAt(s.cells.buf, s.cells.pins, s.cells.view, s.log.disk, 0);
  }

  lemma {:induction false} RunInv(l: Layout, init: Disk, ss: seq<State>, acts: seq<Action>, k: nat)
    requires Run(l, init, ss, acts) && k < |ss|
    ensures Inv(l, init, ss[k])
  {
    hide Inv, Next, Init;
    if k == 0 {
      InitInv(l, init, ss[0]);
    } else {
      RunInv(l, init, ss, acts, k - 1);
      InvKept(l, init, ss[k - 1], ss[k], acts[k - 1]);
    }
  }

  // In every run and outside recovery: the list is a cycle over exactly the NBUF
  // buffers in order of last release, no block is cached twice, every reference
  // and pin is counted once, and a lock is held by exactly one reference, whose
  // process holdingsleep finds.
  lemma CacheAgreement(l: Layout, init: Disk, ss: seq<State>, acts: seq<Action>, k: nat, t: nat, u: nat)
    requires Run(l, init, ss, acts) && k < |ss| && !ss[k].log.phase.Recovering?
    ensures var s := ss[k];
            && |s.cells.buf| == NBUF && LruOk(s.lru) && Unique(s.cells.buf)
            && Counted(s.cells.buf, Users(s.refs), s.cells.pins)
            && Agree(s.cells.buf, s.cells.pins, s.cells.view, s.log.disk)
            && (Holding(s.refs, t) ==> s.refs[t].i < NBUF && BufOf(s, t).lock == s.refs[t].p + 1)
            && (Holding(s.refs, t) && Holding(s.refs, u) && s.refs[t].i == s.refs[u].i ==> t == u)
  {
    hide L.Inv, ViewOk, WritersOk, PinsOk, OpsOk;
    RunInv(l, init, ss, acts, k);
    if Holding(ss[k].refs, t) {
      HeldLock(ss[k].refs, ss[k].cells.buf, t);
    }
  }

  // In every run a process that holds a block it has not changed sees, in a home
  // block, every update logged so far on top of the initial disk, committed or
  // not; in a block of the log, the disk.
  lemma ReadsSeeLogged(l: Layout, init: Disk, ss: seq<State>, acts: seq<Action>, k: nat, t: nat)
    requires Run(l, init, ss, acts) && k < |ss| && !ss[k].log.phase.Recovering?
    requires Mine(ss[k], t) && ss[k].refs[t].stage == Held(false)
    ensures var s, b := ss[k], BufOf(ss[k], t).blockno;
            && b < |s.log.disk| == |init|
            && (InLog(l, b) ==> BufOf(s, t).data == s.log.disk[b])
            && (!InLog(l, b) ==>
                  && L.OnDisk(|init|, l, s.log.done + s.log.pending)
                  && BufOf(s, t).data == L.Replay(init, s.log.done + s.log.pending)[b])
  {
    RunInv(l, init, ss, acts, k);
    HolderSees(l, ss[k], t);
    hide Live, Run, L.Admission, L.Whole;
  }

  // In every run a buffer that is referenced or pinned keeps its block.
  lemma NotRecycled(l: Layout, init: Disk, ss: seq<State>, acts: seq<Action>, k: nat, i: nat)
    requires Run(l, init, ss, acts) && k < |acts| && i < NBUF
    requires !ss[k].log.phase.Recovering? && !acts[k].DoCrash? && !acts[k].DoBoot?
    ensures var s, s' := ss[k], ss[k + 1];
            && |s.cells.buf| == |s'.cells.buf| == NBUF && |s.cells.pins| == NBUF
            && ((exists t :: t in s.refs && s.refs[t].i == i) || s.cells.pins[i] > 0 ==>
                  && Caches(s'.cells.buf[i], s.cells.buf[i].dev, s.cells.buf[i].blockno)
                  && (s.cells.buf[i].valid ==> s'.cells.buf[i].valid))
  {
    RunInv(l, init, ss, acts, k);
    var s := ss[k];
    LiveFacts(l, s);
    if s.cells.buf[i].refcnt == 0 {
      NoRefs(s.refs, s.cells.buf, s.cells.pins, i);
    }
    hide Live, Inv, Unique, Agree, LruOk, RefsOk, Users, Next, Init;
    StepStays(l, s, ss[k + 1], acts[k], i);
  }

  // Only bget changes the block of a buffer, and only of one without references.
  lemma StepStays(l: Layout, s: State, s': State, a: Action, i: nat)
    requires |s.cells.buf| == NBUF && i < NBUF && Next(l, s, s', a) && !a.DoCrash? && !a.DoBoot?
    ensures |s'.cells.buf| == NBUF
    ensures s.cells.buf[i].refcnt > 0 ==>
      && Caches(s'.cells.buf[i], s.cells.buf[i].dev, s.cells.buf[i].blockno)
      && (s.cells.buf[i].valid ==> s'.cells.buf[i].valid)
  {
    hide Relinked, L.LogWrite, L.Begin, L.End, L.CommitReturn, L.RecoverWrite;
  }

  // Crash any run at any state, cut short any number of recoveries: the home
  // blocks end up with the updates of committed operations, in order.
  lemma RunCrashSafety(l: Layout, init: Disk, ss: seq<State>, acts: seq<Action>, k: nat, ks: seq<nat>, c: Disk)
    requires Run(l, init, ss, acts) && k < |ss| && CrashedRecoveries(l, ss[k].log.disk, ks, c)
    ensures Sound(l, c) && |c| == |init| && L.OnDisk(|init|, l, ss[k].log.done)
    ensures forall b :: 0 <= b < |c| && !InLog(l, b) ==>
      AfterRecover(l, c, |RecoverWrites(l, c)|)[b] == L.Replay(init, ss[k].log.done)[b]
  {
    RunInv(l, init, ss, acts, k);
    RecoveryConverges(l, ss[k].log.disk, ks, c);
  }

  // In every run each write of a commit is, among the steps of the others, the
  // next one of the commit sequence, so the disk is always what LogRun says.
  lemma CommitInOrder(l: Layout, init: Disk, ss: seq<State>, acts: seq<Action>, k: nat)
    requires Run(l, init, ss, acts) && k < |acts|
    ensures ss[k + 1].log == ss[k].log || L.Next(l, ss[k].log, ss[k + 1].log)
    ensures acts[k].DoWriteOut? ==> L.CommitStep(l, ss[k].log, ss[k + 1].log)
    ensures ss[k + 1].log.disk != ss[k].log.disk ==> acts[k].DoWriteOut? || acts[k].DoRecoverWrite?
  {
    RunInv(l, init, ss, acts, k);
    hide Inv, Run;
    assert Next(l, ss[k], ss[k + 1], acts[k]);
    LogSteps(l, init, ss[k], ss[k + 1], acts[k]);
    WriteSteps(l, init, ss[k], ss[k + 1], acts[k]);
  }

  lemma WriteSteps(l: Layout, init: Disk, s: State, s': State, a: Action)
    requires Inv(l, init, s) && Next(l, s, s', a)
    ensures a.DoWriteOut? ==> L.CommitStep(l, s.log, s'.log)
    ensures s'.log.disk != s.log.disk ==> a.DoWriteOut? || a.DoRecoverWrite?
  {
    hide Live, L.Inv;
    if a.DoWriteOut? {
      WriteIsNext(l, init, s, s', a.t);
    }
  }

  // ---------------------------------------------------------------- durability

  // Only a crash loses what was logged, and nothing loses what was committed.
  lemma LogGrows(l: Layout, init: Disk, s: State, s': State, a: Action)
    requires Inv(l, init, s) && Next(l, s, s', a)
    ensures s.log.done <= s'.log.done
    ensures !a.DoCrash? ==> s.log.done + s.log.pending <= s'.log.done + s'.log.pending
  {
    LogSteps(l, init, s, s', a);
    if s'.log != s.log {
      L.HistoryGrows(l, s.log, s'.log);
      if !a.DoCrash? {
        NotACrash(l, s, s', a);
      }
    }
  }

  lemma NotACrash(l: Layout, s: State, s': State, a: Action)
    requires Next(l, s, s', a) && !a.DoCrash?
    ensures !L.Crash(s.log, s'.log) || s'.log == s.log
  {
    hide CacheOk, Got, Relinked, RecoverWrites, Sound, L.Disciplined;
  }

  lemma {:induction false} RunSettled(l: Layout, init: Disk, ss: seq<State>, acts: seq<Action>, k: nat)
    requires Run(l, init, ss, acts) && k < |ss|
    ensures L.Settled(ss[k].log)
  {
    hide Inv, Next, CacheOk, L.Inv, L.Next, L.Settled;
    if k == 0 {
      assert L.Settled(ss[0].log) by { InitSettled(l, init, ss[0].log); }
    } else {
      RunSettled(l, init, ss, acts, k - 1);
      RunInv(l, init, ss, acts, k - 1);
      LogSteps(l, init, ss[k - 1], ss[k], acts[k - 1]);
      if ss[k].log != ss[k - 1].log {
        SettledStep(l, init, ss[k - 1], ss[k]);
      }
    }
  }

  lemma InitSettled(l: Layout, init: Disk, g: L.State)
    requires L.Init(l, init, g)
    ensures L.Settled(g)
  {
  }

  lemma SettledStep(l: Layout, init: Disk, s: State, s': State)
    requires Inv(l, init, s) && L.Settled(s.log) && L.Next(l, s.log, s'.log)
    ensures L.Settled(s'.log)
  {
    hide Live, L.Settled, L.Next, L.Inv;
    L.SettledKept(l, init, s.log, s'.log);
  }

  ghost predicate NoCrash(acts: seq<Action>, i: nat, j: nat)
    requires j <= |acts|
  {
    forall k :: i <= k < j ==> !acts[k].DoCrash?
  }

  lemma {:induction false} NothingLost(l: Layout, init: Disk, ss: seq<State>, acts: seq<Action>, i: nat, j: nat)
    requires Run(l, init, ss, acts) && i <= j < |ss|
    ensures ss[i].log.done <= ss[j].log.done
    ensures NoCrash(acts, i, j) ==> ss[i].log.done + ss[i].log.pending <= ss[j].log.done + ss[j].log.pending
    decreases j
  {
    hide Inv, Next, Init;
    if i < j {
      NothingLost(l, init, ss, acts, i, j - 1);
      RunInv(l, init, ss, acts, j - 1);
      LogGrows(l, init, ss[j - 1], ss[j], acts[j - 1]);
    }
  }

  // Durability among any interleaving: what a process put through log_write at
  // step j is committed, and stays so through any crash, from the first moment
  // on at which no operation is outstanding and no commit under way.
  lemma LoggedIsDurable(l: Layout, init: Disk, ss: seq<State>, acts: seq<Action>, j: nat, i: nat, k: nat, t: nat)
    requires Run(l, init, ss, acts) && j < i <= k < |ss| && acts[j] == DoLog(t) && NoCrash(acts, j + 1, i)
    requires ss[i].log.phase.Running? && ss[i].log.ops == map[]
    ensures At(ss[j], t) && ss[j].refs[t].p in ss[j].opOf
    ensures var e := L.Event(ss[j].opOf[ss[j].refs[t].p], BufOf(ss[j], t).blockno, BufOf(ss[j], t).data);
            e in ss[i].log.done && e in ss[k].log.done
  {
    assert Next(l, ss[j], ss[j + 1], acts[j]);
    var e := L.Event(ss[j].opOf[ss[j].refs[t].p], BufOf(ss[j], t).blockno, BufOf(ss[j], t).data);
    var n := |ss[j].log.done + ss[j].log.pending|;
    LastLogged(l, ss[j].log, ss[j + 1].log, e);
    hide Run, Next, NoCrash;
    NothingLost(l, init, ss, acts, j + 1, i);
    NothingLost(l, init, ss, acts, i, k);
    RunSettled(l, init, ss, acts, i);
    assert ss[i].log.done + ss[i].log.pending == ss[i].log.done;
    assert ss[i].log.done[n] == e && ss[k].log.done[n] == e;
  }

  lemma LastLogged(l: Layout, g: L.State, g': L.State, e: L.Event)
    requires L.LogWrite(l, g, g', e.op, e.bno, e.data)
    ensures var n := |g.done + g.pending|; |g'.done + g'.pending| == n + 1 && (g'.done + g'.pending)[n] == e
  {
  }
}
