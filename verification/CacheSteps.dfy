/**
 The critical sections of bio.c, as the methods of Cache, are the steps of
 CacheRun: in every state of every run the invariant gives each method what it
 requires, and the method does what the step says.
 */
module CacheSteps {
  import opened RedoLog
  import opened BufferCache
  import opened CacheRun
  import opened TransactionLog
  import L = LogRun
  import opened Options

  // The cache c is the one of state s of a run.
  ghost predicate In(c: Cache, l: Layout, init: Disk, s: State)
    reads c
  {
    && Inv(l, init, s) && !s.log.phase.Recovering?
    && c.buf == s.cells.buf && c.pins == s.cells.pins && c.view == s.cells.view && c.disk == s.log.disk
    && c.users == Users(s.refs) && c.List() == s.lru
  }

  lemma Usable(c: Cache, l: Layout, init: Disk, s: State)
    requires In(c, l, init, s)
    ensures Live(l, s) && CacheOk(s) && RefsOk(s.refs, s.cells.buf) && c.Valid() && c.Coherent()
  {
    LiveFacts(l, s);
  }

  // What the invariant says about the buffer of a reference.
  lemma Facts(c: Cache, l: Layout, init: Disk, s: State, t: nat)
    requires In(c, l, init, s) && t in s.refs
    ensures Live(l, s) && c.Valid() && c.Coherent()
    ensures var i := s.refs[t].i;
            && i < NBUF == |c.buf| == |c.pins| == |c.users| && |c.view| == |c.disk|
            && c.users[i] > 0 && c.buf[i].refcnt == c.users[i] + c.pins[i]
            && c.buf[i].dev == ROOTDEV && c.buf[i].blockno < |c.disk|
            && (c.buf[i].valid ==> c.buf[i].data == c.view[c.buf[i].blockno])
            && (s.refs[t].stage.Held? ==> c.buf[i].lock == s.refs[t].p + 1)
            && (!s.refs[t].stage.Held? ==> c.users[i] > if c.buf[i].lock != 0 then 1 else 0)
  {
    Usable(c, l, init, s);
    hide Inv, Live, LruOk, Unique, Users;
    var i := s.refs[t].i;
    assert RefOk(s.refs[t], s.cells.buf);
    UsersDrop(s.refs, t);
    AgreesAt(c.buf, c.pins, c.view, c.disk, i);
    if s.refs[t].stage.Held? {
      HeldLock(s.refs, c.buf, t);
    } else {
      HolderElse(s.refs, c.buf, t);
    }
  }

  lemma Clean(c: Cache, i: nat)
    requires c.Valid() && c.Coherent() && i < NBUF && c.buf[i].refcnt > 0 && !c.buf[i].valid
    ensures c.buf[i].blockno < |c.disk| == |c.view| && c.view[c.buf[i].blockno] == c.disk[c.buf[i].blockno]
  {
    NotKept(c.buf, c.pins, c.view, c.disk, i);
  }

  lemma Releasable(c: Cache, l: Layout, init: Disk, s: State, t: nat)
    requires In(c, l, init, s) && Mine(s, t) && s.refs[t].stage == Held(false)
    ensures var i := s.refs[t].i;
            && i < |c.pins| && i < |c.buf| && c.buf[i].blockno < |c.view| && c.buf[i].blockno < |c.disk|
            && (c.pins[i] > 0 || c.view[c.buf[i].blockno] == c.disk[c.buf[i].blockno])
  {
    SafeToRelease(l, init, s, t);
  }

  lemma LogDisk(l: Layout, g: L.State, g': L.State, op: nat, b: nat, data: Block)
    requires L.LogWrite(l, g, g', op, b, data)
    ensures g'.disk == g.disk && g'.phase == g.phase
  {
  }

  // The state after bwrite of the committing process
  ghost function Written(s: State, t: nat): State
    requires Committing(s, t) && BufOf(s, t).blockno < |s.log.disk|
  {
    var b, k := BufOf(s, t), s.log.phase.k;
    var g := s.log.(disk := s.log.disk[b.blockno := b.data], phase := L.Committing(k + 1, s.log.phase.d0));
    var g' := if k == N(s) then g.(done := s.log.done + s.log.pending, pending := []) else g;
    Move(s, t, Held(false)).(log := g')
  }

  lemma NextWrite(l: Layout, s: State, t: nat)
    requires Live(l, s) && Committing(s, t) && s.refs[t].stage == Held(true)
    ensures Committable(l, s.log.phase.d0, s.log.view, s.log.lh) && s.log.phase.k < 2 * |s.log.lh| + 2
    ensures CommitWrites(l, s.log.phase.d0, s.log.view, s.log.lh)[s.log.phase.k] ==
      Write(BufOf(s, t).blockno, BufOf(s, t).data)
  {
    hide CacheOk, RefsOk, ViewOk, PinsOk, OpsOk, CommitWrites, Committable;
    assert Changing(s.refs, t);
  }

  lemma GotNext(l: Layout, init: Disk, s: State, s': State, p: nat, b: nat, i: nat, t: nat)
    requires Inv(l, init, s) && !s.log.phase.Recovering? && CacheRun.Get(s, s', p, b, i, t)
    ensures Next(l, s, s', DoGet(p, b, i, t)) && Inv(l, init, s')
    ensures i < NBUF && Users(s'.refs) == Users(s.refs)[i := Users(s.refs)[i] + 1]
  {
    hide Inv, Live, Users;
    UsersAdd(s.refs, t, Ref(p, i, Waiting));
    InvKept(l, init, s, s', DoGet(p, b, i, t));
  }

  // bget; None is its panic
  method Get(c: Cache, p: nat, b: nat, ghost l: Layout, ghost init: Disk, ghost s: State, ghost t: nat)
    returns (r: Option<nat>, ghost s': State)
    requires In(c, l, init, s) && b < |c.disk| && t !in s.refs
    modifies c`buf, c`users
    ensures r.None? ==> s' == s
    ensures r.Some? ==> Next(l, s, s', DoGet(p, b, r.value, t))
    ensures In(c, l, init, s')
  {
    Usable(c, l, init, s);
    hide Inv, Live, CacheOk, RefsOk, Cache.Valid, Cache.Coherent, Users, Got, Next, Caches;
    ghost var lru := c.List();
    r := c.BGet(ROOTDEV, b);
    assert c.List() == lru && lru.stamp == c.stamp;
    hide Cache.List;
    s' := s;
    if r.Some? {
      s' := s.(cells := s.cells.(buf := c.buf), refs := s.refs[t := Ref(p, r.value, Waiting)]);
      GotNext(l, init, s, s', p, b, r.value, t);
    }
  }

  // acquiresleep, when the lock is free
  method Acquire(c: Cache, i: nat, p: nat, ghost l: Layout, ghost init: Disk, ghost s: State, ghost t: nat)
    returns (ghost s': State)
    requires In(c, l, init, s) && t in s.refs && s.refs[t] == Ref(p, i, Waiting) && i < NBUF && c.buf[i].lock == 0
    modifies c`buf
    ensures Next(l, s, s', DoAcquire(t)) && In(c, l, init, s')
  {
    hide Inv, Live, CacheOk, RefsOk, Cache.Valid, Cache.Coherent, Users;
    Facts(c, l, init, s, t);
    s' := CacheRun.Put(Move(s, t, Held(false)), i, c.buf[i].(lock := p + 1));
    UsersMove(s.refs, t, s'.refs[t]);
    InvKept(l, init, s, s', DoAcquire(t));
    c.AcquireSleep(i, p + 1);
  }

  // the disk read of bread
  method Load(c: Cache, i: nat, p: nat, ghost l: Layout, ghost init: Disk, ghost s: State, ghost t: nat)
    returns (ghost s': State)
    requires In(c, l, init, s) && Holding(s.refs, t) && s.refs[t].i == i < NBUF && s.refs[t].p == p && !c.buf[i].valid
    modifies c`buf
    ensures Next(l, s, s', DoLoad(t)) && In(c, l, init, s')
  {
    hide Inv, Live, CacheOk, RefsOk, Cache.Valid, Cache.Coherent, Users;
    Facts(c, l, init, s, t);
    Usable(c, l, init, s);
    assert c.view[c.buf[i].blockno] == c.disk[c.buf[i].blockno] by { Clean(c, i); }
    c.Load(i, p + 1);
    s' := CacheRun.Put(s, i, c.buf[i]);
    InvKept(l, init, s, s', DoLoad(t));
  }

  // a process in an operation changes a home block
  method Modify(c: Cache, i: nat, p: nat, data: Block, ghost l: Layout, ghost init: Disk, ghost s: State, ghost t: nat)
    returns (ghost s': State)
    requires In(c, l, init, s) && Mine(s, t) && s.refs[t].i == i && s.refs[t].p == p
    requires p in s.opOf && !InLog(l, c.buf[i].blockno)
    modifies c`buf, c`view
    ensures Next(l, s, s', DoModify(t, data)) && In(c, l, init, s')
  {
    hide Inv, Live, CacheOk, RefsOk, Cache.Valid, Cache.Coherent, Users;
    Facts(c, l, init, s, t);
    s' := Change(s, t, data);
    UsersMove(s.refs, t, s'.refs[t]);
    InvKept(l, init, s, s', DoModify(t, data));
    c.Modify(i, p + 1, data);
  }

  // the memmove of write_log, between two blocks the committing process holds
  method CopyToLog(c: Cache, i: nat, j: nat, p: nat, ghost l: Layout, ghost init: Disk, ghost s: State,
                   ghost t: nat, ghost u: nat)
    returns (ghost s': State)
    requires In(c, l, init, s) && Committing(s, t) && s.refs[t] == Ref(p, i, Held(false))
    requires Committing(s, u) && s.refs[u].i == j && s.log.phase.k < N(s)
    requires c.buf[i].blockno == Slot(l, s.log.phase.k) && c.buf[j].blockno == s.log.lh[s.log.phase.k]
    modifies c`buf, c`view
    ensures Next(l, s, s', DoCopyToLog(t, u)) && In(c, l, init, s')
  {
    hide Inv, Live, CacheOk, RefsOk, Cache.Valid, Cache.Coherent, Users;
    Facts(c, l, init, s, t);
    var data := c.buf[j].data;
    s' := Change(s, t, data);
    UsersMove(s.refs, t, s'.refs[t]);
    InvKept(l, init, s, s', DoCopyToLog(t, u));
    c.Modify(i, p + 1, data);
  }

  // the list in memory put over the header block by write_head
  method PutHeader(c: Cache, i: nat, p: nat, mem: seq<int>, ghost l: Layout, ghost init: Disk, ghost s: State,
                   ghost t: nat)
    returns (ghost s': State)
    requires In(c, l, init, s) && Committing(s, t) && s.refs[t] == Ref(p, i, Held(false))
    requires s.log.phase.k == N(s) || (s.log.phase.k == 2 * N(s) + 1 && mem == [])
    requires mem == s.com.mem && |mem| < WORDS && c.buf[i].blockno == l.start
    modifies c`buf, c`view
    ensures Next(l, s, s', DoPutHeader(t)) && In(c, l, init, s')
  {
    hide Inv, Live, CacheOk, RefsOk, Cache.Valid, Cache.Coherent, Users;
    Facts(c, l, init, s, t);
    var data := PutHead(c.buf[i].data, mem);
    s' := Change(s, t, data);
    UsersMove(s.refs, t, s'.refs[t]);
    InvKept(l, init, s, s', DoPutHeader(t));
    c.Modify(i, p + 1, data);
  }

  // the memmove of install_trans
  method CopyHome(c: Cache, i: nat, j: nat, p: nat, ghost l: Layout, ghost init: Disk, ghost s: State,
                  ghost t: nat, ghost u: nat)
    returns (ghost s': State)
    requires In(c, l, init, s) && Committing(s, t) && s.refs[t] == Ref(p, i, Held(false))
    requires Committing(s, u) && s.refs[u].i == j && N(s) < s.log.phase.k <= 2 * N(s)
    requires c.buf[j].blockno == Slot(l, s.log.phase.k - N(s) - 1)
    requires c.buf[i].blockno == s.log.lh[s.log.phase.k - N(s) - 1]
    modifies c`buf, c`view
    ensures Next(l, s, s', DoCopyHome(t, u)) && In(c, l, init, s')
  {
    hide Inv, Live, CacheOk, RefsOk, Cache.Valid, Cache.Coherent, Users;
    Facts(c, l, init, s, t);
    var data := c.buf[j].data;
    s' := Change(s, t, data);
    UsersMove(s.refs, t, s'.refs[t]);
    InvKept(l, init, s, s', DoCopyHome(t, u));
    c.Modify(i, p + 1, data);
  }

  // the first half of brelse; its panic does not happen
  method Release(c: Cache, i: nat, p: nat, ghost l: Layout, ghost init: Disk, ghost s: State, ghost t: nat)
    returns (ghost s': State)
    requires In(c, l, init, s) && Mine(s, t) && s.refs[t] == Ref(p, i, Held(false))
    modifies c`buf
    ensures Next(l, s, s', DoRelease(t)) && In(c, l, init, s')
  {
    hide Inv, Live, CacheOk, RefsOk, Cache.Valid, Cache.Coherent, Users;
    Facts(c, l, init, s, t);
    assert c.pins[i] > 0 || c.view[c.buf[i].blockno] == c.disk[c.buf[i].blockno] by { Releasable(c, l, init, s, t); }
    s' := CacheRun.Put(Move(s, t, Leaving), i, c.buf[i].(lock := 0));
    UsersMove(s.refs, t, s'.refs[t]);
    InvKept(l, init, s, s', DoRelease(t));
    c.ReleaseSleep(i, p + 1);
  }

  // the second half of brelse
  method Drop(c: Cache, i: nat, ghost l: Layout, ghost init: Disk, ghost s: State, ghost t: nat)
    returns (ghost s': State)
    requires In(c, l, init, s) && t in s.refs && s.refs[t].i == i < NBUF && s.refs[t].stage == Leaving
    modifies c`buf, c`users, c`next, c`prev, c`order, c`stamp, c`now
    ensures Next(l, s, s', DoDrop(t)) && In(c, l, init, s')
  {
    hide Inv, Live, CacheOk, RefsOk, Cache.Valid, Cache.Coherent, Users;
    hide Relinked;
    Facts(c, l, init, s, t);
    UsersDrop(s.refs, t);
    c.Unref(i);
    s' := CacheRun.Put(s, i, c.buf[i]).(refs := s.refs - {t}, lru := c.List());
    InvKept(l, init, s, s', DoDrop(t));
  }

  // bwrite of the committing process; its panic does not happen
  method WriteOut(c: Cache, i: nat, p: nat, ghost l: Layout, ghost init: Disk, ghost s: State, ghost t: nat)
    returns (ghost s': State)
    requires In(c, l, init, s) && Committing(s, t) && s.refs[t] == Ref(p, i, Held(true))
    modifies c`disk, c`writes
    ensures Next(l, s, s', DoWriteOut(t)) && In(c, l, init, s')
    ensures s.log.phase.Committing? && Committable(l, s.log.phase.d0, s.log.view, s.log.lh)
    ensures s.log.phase.k < 2 * |s.log.lh| + 2
    ensures c.writes == old(c.writes) + [CommitWrites(l, s.log.phase.d0, s.log.view, s.log.lh)[s.log.phase.k]]
  {
    hide Inv, Live, CacheOk, RefsOk, Cache.Valid, Cache.Coherent, Users;
    hide CommitWrites, Committable;
    Facts(c, l, init, s, t);
    NextWrite(l, s, t);
    s' := Written(s, t);
    UsersMove(s.refs, t, s'.refs[t]);
    InvKept(l, init, s, s', DoWriteOut(t));
    c.BWrite(i, p + 1);
  }

  // bunpin of the committing process
  method Unpin(c: Cache, i: nat, ghost l: Layout, ghost init: Disk, ghost s: State, ghost t: nat)
    returns (ghost s': State)
    requires In(c, l, init, s) && Committing(s, t) && s.refs[t].i == i
    requires s.com.unpinned < N(s) && N(s) + 1 + s.com.unpinned < s.log.phase.k
    requires s.com.unpinned < |s.com.at| && s.com.at[s.com.unpinned] == i
    modifies c`buf, c`pins
    ensures Next(l, s, s', DoUnpin(t)) && In(c, l, init, s')
  {
    hide Inv, Live, CacheOk, RefsOk, Cache.Valid, Cache.Coherent, Users;
    Facts(c, l, init, s, t);
    UnpinReady(l, s, t);
    c.BUnpin(i);
    s' := s.(cells := s.cells.(buf := c.buf, pins := c.pins), com := s.com.(unpinned := s.com.unpinned + 1));
    InvKept(l, init, s, s', DoUnpin(t));
  }

  lemma UnpinReady(l: Layout, s: State, t: nat)
    requires Live(l, s) && t in s.refs && s.com.unpinned < N(s) && s.com.unpinned < |s.com.at|
    requires s.refs[t].i == s.com.at[s.com.unpinned]
    ensures s.refs[t].i < |s.cells.pins| && s.cells.pins[s.refs[t].i] > 0 && |s.com.at| == N(s)
  {
    var u := s.com.unpinned;
    PinFacts(s.cells.buf, s.cells.pins, s.log.lh[u..], s.com.at[u..], 0);
  }

  // bpin of log_write, for a block that is not logged yet
  method Pin(c: Cache, i: nat, p: nat, ghost l: Layout, ghost init: Disk, ghost s: State, ghost t: nat,
             ghost g: L.State)
    returns (ghost s': State)
    requires In(c, l, init, s) && Mine(s, t) && s.refs[t].i == i && s.refs[t].p == p && p in s.opOf
    requires L.LogWrite(l, s.log, g, s.opOf[p], c.buf[i].blockno, c.buf[i].data) && c.buf[i].blockno !in s.log.lh
    modifies c`buf, c`pins
    ensures Next(l, s, s', DoLog(t)) && In(c, l, init, s')
  {
    hide Inv, Live, CacheOk, RefsOk, Cache.Valid, Cache.Coherent, Users;
    hide L.LogWriteAllowed, L.Disciplined, L.LogWrite;
    Facts(c, l, init, s, t);
    ghost var b := c.buf[i];
    c.BPin(i);
    s' := Move(s, t, Held(false)).(log := g, cells := s.cells.(buf := c.buf, pins := c.pins),
                                   com := s.com.(at := s.com.at + [i], mem := s.com.mem + [b.blockno]));
    UsersMove(s.refs, t, s'.refs[t]);
    InvKept(l, init, s, s', DoLog(t));
    LogDisk(l, s.log, g, s.opOf[p], b.blockno, b.data);
  }
}
