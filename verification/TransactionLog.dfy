/**
 log.c over the buffer cache: log_write, commit and recovery as the loops of
 the source. Each disk write goes through the cache, which records it; the
 contracts say that the recorded writes are exactly the sequences whose crash
 behaviour RedoLog proves.
 */
module TransactionLog {
  import opened RedoLog
  import opened BufferCache
  import opened Finite

  // The i-th logged block sits, valid, in buffer at[i]; pins are exactly these.
  ghost predicate PinnedAt(buf: seq<Buf>, pins: seq<nat>, lh: seq<int>, at: seq<nat>) {
    && |at| == |lh| && |pins| == |buf|
    && (forall k :: 0 <= k < |at| ==>
          at[k] < |buf| && buf[at[k]].valid && lh[k] >= 0 && Caches(buf[at[k]], ROOTDEV, lh[k]))
    && (forall i :: 0 <= i < |pins| ==> pins[i] == if i in at then 1 else 0)
  }

  // Buffer i is neither referenced nor pinned.
  ghost predicate Spare(users: seq<nat>, pins: seq<nat>, i: nat) {
    i < |users| && i < |pins| && users[i] == 0 && pins[i] == 0
  }

  lemma ListAt(l: Layout, n: nat, lh: seq<int>, i: nat)
    requires ValidList(l, n, lh) && i < |lh|
    ensures 0 <= lh[i] < n && !InLog(l, lh[i]) && InLog(l, Slot(l, i))
  {
  }

  lemma PinFacts(buf: seq<Buf>, pins: seq<nat>, lh: seq<int>, at: seq<nat>, k: nat)
    requires PinnedAt(buf, pins, lh, at) && k < |lh|
    ensures |at| == |lh| && |pins| == |buf| && at[k] < |buf| && pins[at[k]] == 1 && lh[k] >= 0
    ensures buf[at[k]].valid && Caches(buf[at[k]], ROOTDEV, lh[k])
  {
    assert at[k] in at;
  }

  // Pinned buffers keep what they cache.
  lemma StillPinned(buf0: seq<Buf>, buf: seq<Buf>, pins: seq<nat>, lh: seq<int>, at: seq<nat>)
    requires PinnedAt(buf0, pins, lh, at) && |buf| == |buf0|
    requires forall k :: 0 <= k < |buf| && pins[k] > 0 && buf0[k].valid ==> Stays(buf0[k], buf[k])
    ensures PinnedAt(buf, pins, lh, at)
  {
    forall k | 0 <= k < |at| ensures Stays(buf0[at[k]], buf[at[k]]) {
      assert at[k] in at;
    }
  }

  // A spare buffer and the pinned copy of block b are room for two breads.
  lemma SpareRoom(buf: seq<Buf>, users: seq<nat>, pins: seq<nat>, b: nat, k: nat)
    requires Counted(buf, users, pins) && (exists i :: Spare(users, pins, i))
    requires k < |buf| && Caches(buf[k], ROOTDEV, b) && pins[k] > 0
    ensures Room2(buf, b)
  {
    var i: nat :| Spare(users, pins, i);
    assert buf[i].refcnt == 0 && buf[k].refcnt > 0;
  }

  // Pinned buffers are referenced, so bread and brelse leave them their blocks.
  lemma PinnedStay(buf0: seq<Buf>, buf: seq<Buf>, users: seq<nat>, pins: seq<nat>, lh: seq<int>, at: seq<nat>)
    requires Counted(buf0, users, pins) && PinnedAt(buf0, pins, lh, at) && |buf| == |buf0|
    requires forall k :: 0 <= k < |buf0| && buf0[k].refcnt > 0 && buf0[k].valid ==> Stays(buf0[k], buf[k])
    ensures PinnedAt(buf, pins, lh, at)
  {
    hide PinnedAt;
    StillPinned(buf0, buf, pins, lh, at);
  }

  lemma NothingPinned(buf0: seq<Buf>, buf: seq<Buf>, pins: seq<nat>)
    requires PinnedAt(buf0, pins, [], []) && |buf| == |buf0|
    ensures PinnedAt(buf, pins, [], [])
  {
  }

  lemma OneTouched(buf0: seq<Buf>, buf: seq<Buf>, pins: seq<nat>, lh: seq<int>, at: seq<nat>, i: nat)
    requires PinnedAt(buf0, pins, lh, at) && i < |buf0| == |buf| && buf == buf0[i := buf[i]] && Stays(buf0[i], buf[i])
    ensures PinnedAt(buf, pins, lh, at)
  {
    StillPinned(buf0, buf, pins, lh, at);
  }

  lemma HeldUser(buf: seq<Buf>, users: seq<nat>, pins: seq<nat>, i: nat)
    requires Counted(buf, users, pins) && i < |buf| && buf[i].lock != 0
    ensures |users| == |pins| == |buf| && users[i] > 0
  {
  }

  // k of the commit writes have been issued and performed.
  ghost predicate CommitProgress(l: Layout, d0: Disk, v0: Disk, lh: seq<int>, k: nat,
                                 d: Disk, ws0: seq<Write>, ws: seq<Write>)
  {
    && Committable(l, d0, v0, lh) && k <= 2 * |lh| + 2
    && d == AfterCommit(l, d0, v0, lh, k)
    && ws == ws0 + CommitWrites(l, d0, v0, lh)[..k]
  }

  lemma CommitAdvance(l: Layout, d0: Disk, v0: Disk, lh: seq<int>, k: nat, d: Disk, ws0: seq<Write>, ws: seq<Write>,
                      w: Write)
    requires CommitProgress(l, d0, v0, lh, k, d, ws0, ws) && k < 2 * |lh| + 2
    requires w == CommitWrites(l, d0, v0, lh)[k]
    ensures w.bno < |d| && CommitProgress(l, d0, v0, lh, k + 1, d[w.bno := w.data], ws0, ws + [w])
  {
    hide Committable, CommitWrites, Perform, Sound;
    var all := CommitWrites(l, d0, v0, lh);
    PerformStep(d0, all, k);
    assert all[..k + 1] == all[..k] + [w];
  }

  ghost predicate RecoverProgressed(l: Layout, d0: Disk, k: nat, d: Disk, ws0: seq<Write>, ws: seq<Write>) {
    && Sound(l, d0) && k <= |RecoverWrites(l, d0)|
    && d == AfterRecover(l, d0, k)
    && ws == ws0 + RecoverWrites(l, d0)[..k]
  }

  lemma RecoverAdvance(l: Layout, d0: Disk, k: nat, d: Disk, ws0: seq<Write>, ws: seq<Write>, w: Write)
    requires RecoverProgressed(l, d0, k, d, ws0, ws) && k < |RecoverWrites(l, d0)|
    requires w == RecoverWrites(l, d0)[k]
    ensures w.bno < |d| && RecoverProgressed(l, d0, k + 1, d[w.bno := w.data], ws0, ws + [w])
  {
    hide RecoverWrites, Perform, Sound;
    var all := RecoverWrites(l, d0);
    PerformStep(d0, all, k);
    assert all[..k + 1] == all[..k] + [w];
  }

  // No buffer is locked.
  ghost predicate Quiet(buf: seq<Buf>) {
    forall i :: 0 <= i < |buf| ==> buf[i].lock == 0
  }

  // Nobody has an unlogged change, and nobody holds a block that the commit of
  // lh is going to read. Other buffers may be locked by other processes.
  ghost predicate Undisturbed(buf: seq<Buf>, pins: seq<nat>, view: Disk, disk: Disk, l: Layout, lh: seq<int>) {
    && (forall b: int :: InLog(l, b) || b in lh ==> Idle(buf, b))
    && (forall b: int :: 0 <= b < |disk| ==> Tidy(buf, pins, view, disk, b))
  }

  lemma QuietUndisturbed(buf: seq<Buf>, pins: seq<nat>, view: Disk, disk: Disk, l: Layout, lh: seq<int>)
    requires Quiet(buf) && Agree(buf, pins, view, disk)
    ensures Undisturbed(buf, pins, view, disk, l, lh)
  {
    forall b: int | 0 <= b < |disk| ensures Tidy(buf, pins, view, disk, b) {
      if view[b] != disk[b] {
        assert BufferCache.Kept(buf, pins, b);
      }
    }
  }

  lemma BootUndisturbed(c: Cache, l: Layout, lh: seq<int>)
    requires c.Coherent() && Quiet(c.buf)
    ensures Undisturbed(c.buf, c.pins, c.view, c.disk, l, lh)
  {
    QuietUndisturbed(c.buf, c.pins, c.view, c.disk, l, lh);
  }

  lemma QuietKept(buf0: seq<Buf>, buf: seq<Buf>)
    requires Quiet(buf0) && Released(buf0, buf)
    ensures Quiet(buf)
  {
  }

  lemma FewerUndisturbed(buf: seq<Buf>, pins: seq<nat>, view: Disk, disk: Disk, l: Layout, lh: seq<int>)
    requires Undisturbed(buf, pins, view, disk, l, lh)
    ensures Undisturbed(buf, pins, view, disk, l, [])
  {
  }

  // Block a was written to disk and cache; at most its own pin was dropped.
  lemma StillUndisturbed(buf0: seq<Buf>, buf: seq<Buf>, pins0: seq<nat>, pins: seq<nat>, view: Disk, disk: Disk,
                         l: Layout, lh: seq<int>, users: seq<nat>, a: nat, v: Block, k: nat)
    requires Undisturbed(buf0, pins0, view, disk, l, lh) && Released(buf0, buf) && Counted(buf0, users, pins0)
    requires a < |view| == |disk| && |pins| == |buf|
    requires pins == pins0 || (k < |buf0| && buf0[k].blockno == a && pins == pins0[k := 0])
    requires forall i :: 0 <= i < |buf0| && buf0[i].refcnt > 0 && buf0[i].valid ==> Stays(buf0[i], buf[i])
    ensures Undisturbed(buf, pins, view[a := v], disk[a := v], l, lh)
  {
    forall b: int | InLog(l, b) || b in lh ensures Idle(buf, b) {
      assert Idle(buf0, b);
    }
    var view', disk' := view[a := v], disk[a := v];
    forall b: int | 0 <= b < |disk| ensures Tidy(buf, pins, view', disk', b) {
      assert Tidy(buf0, pins0, view, disk, b);
      if b != a && view[b] != disk[b] {
        var i :| 0 <= i < |buf0| && buf0[i].valid && buf0[i].dev == ROOTDEV && buf0[i].blockno == b && pins0[i] > 0;
        assert buf[i].valid && buf[i].dev == ROOTDEV && buf[i].blockno == b && pins[i] > 0;
      }
    }
  }

  lemma Ready(buf: seq<Buf>, pins: seq<nat>, view: Disk, disk: Disk, l: Layout, lh: seq<int>, b: int)
    requires Undisturbed(buf, pins, view, disk, l, lh) && 0 <= b < |disk| && (InLog(l, b) || b in lh)
    ensures Idle(buf, b) && Tidy(buf, pins, view, disk, b)
  {
  }

  // A block that is not logged is on disk.
  lemma CleanUnlessLogged(c: Cache, l: Layout, lh0: seq<int>, lh: seq<int>, at: seq<nat>, b: nat)
    requires c.Valid() && Undisturbed(c.buf, c.pins, c.view, c.disk, l, lh0) && PinnedAt(c.buf, c.pins, lh, at)
    requires b < |c.disk| && b !in lh
    ensures |c.view| == |c.disk| && c.view[b] == c.disk[b]
  {
    assert Tidy(c.buf, c.pins, c.view, c.disk, b);
    if c.view[b] != c.disk[b] {
      var k := c.PinnedBuffer(b);
    }
  }

  // One more pinned block was unpinned.
  lemma UnpinNext(l: Layout, n: nat, buf: seq<Buf>, pins: seq<nat>, lh: seq<int>, at: seq<nat>, k: nat)
    requires ValidList(l, n, lh) && k < |lh| == |at|
    requires PinnedAt(buf, pins, lh[k..], at[k..])
    ensures at[k] < |pins| && pins[at[k]] == 1
    ensures PinnedAt(buf, pins[at[k] := 0], lh[k + 1..], at[k + 1..])
  {
    assert at[k..][0] == at[k] && lh[k..][0] == lh[k];
    assert at[k] in at[k..];
    assert forall j :: k < j < |at| ==> at[j] == at[k..][j - k] && lh[j] == lh[k..][j - k];
    forall i | 0 <= i < |pins| ensures i in at[k + 1..] <==> i in at[k..] && i != at[k] {
      if i in at[k..] && i != at[k] {
        var j :| k <= j < |at| && at[j] == i;
        assert at[k + 1..][j - k - 1] == i;
      }
    }
  }

  // How an update of one block ends: done; waiting for the buffer; at bget's
  // panic; at one of log_write's.
  datatype Update = Done | Asleep | NoBuffer | TooBig

  lemma FetchedOnly(buf0: seq<Buf>, buf: seq<Buf>, users0: seq<nat>, users: seq<nat>, i: nat, pid: nat, b: nat,
                    view: Disk)
    requires Fetched(buf0, buf, users0, users, i, pid, b, view)
    ensures |buf| == |buf0| == |users0| && i < |buf| && users == users0[i := users0[i] + 1]
    ensures buf[i].valid && Caches(buf[i], ROOTDEV, b) && buf[i].lock == pid
    ensures forall k :: 0 <= k < |buf| && k != i ==> buf[k] == buf0[k]
  {
  }

  class Log {
    const cache: Cache
    const layout: Layout
    const pid: nat            // the process that runs the code
    var outstanding: nat
    var committing: bool
    var n: nat                // lh.n
    var block: seq<int>       // lh.block
    ghost var at: seq<nat>

    // initlog up to the call of recover_from_log
    constructor (c: Cache, l: Layout, p: nat)
      requires c.Valid() && c.Coherent() && p != 0
      requires 1 <= l.size && l.start + l.size <= |c.disk|
      ensures Valid() && cache == c && layout == l && n == 0 && at == []
      ensures outstanding == 0 && !committing
    {
      cache, layout, pid := c, l, p;
      outstanding, committing, n, at := 0, false, 0, [];
      block := seq(LOGSIZE, _ => 0);
    }

    ghost function Lh(): seq<int>
      reads this
      requires n <= |block|
    {
      block[..n]
    }

    ghost predicate Valid()
      reads this, cache
    {
      && cache.Valid() && cache.Coherent()
      && pid != 0
      && 1 <= layout.size && layout.start + layout.size <= |cache.disk|
      && |block| == LOGSIZE && n <= LOGSIZE
      && ValidList(layout, |cache.disk|, Lh())
    }

    // write_log's loop body: copy one cached block behind the header.
    method WriteLogBlock(tail: nat)
      requires Valid() && tail < n
      requires PinnedAt(cache.buf, cache.pins, Lh(), at)
      requires Undisturbed(cache.buf, cache.pins, cache.view, cache.disk, layout, Lh())
      requires exists i :: Spare(cache.users, cache.pins, i)
      modifies cache
      ensures Valid() && PinnedAt(cache.buf, cache.pins, Lh(), at)
      ensures Undisturbed(cache.buf, cache.pins, cache.view, cache.disk, layout, Lh())
      ensures cache.users == old(cache.users) && cache.pins == old(cache.pins)
      ensures var v := old(cache.view)[block[tail]];
              && cache.view == old(cache.view)[Slot(layout, tail) := v]
              && cache.disk == old(cache.disk)[Slot(layout, tail) := v]
              && cache.writes == old(cache.writes) + [Write(Slot(layout, tail), v)]
    {
      hide Cache.Valid, Cache.Coherent, ValidList, PinnedAt, Counted, Unique, Room2, Idle, Tidy;
      cache.Facts();
      ListAt(layout, |cache.disk|, Lh(), tail);
      PinFacts(cache.buf, cache.pins, Lh(), at, tail);
      SpareRoom(cache.buf, cache.users, cache.pins, block[tail], at[tail]);
      assert Lh()[tail] == block[tail];
      hide Undisturbed;
      Ready(cache.buf, cache.pins, cache.view, cache.disk, layout, Lh(), Slot(layout, tail));
      Ready(cache.buf, cache.pins, cache.view, cache.disk, layout, Lh(), block[tail]);
      cache.CopyBlock(layout.start + tail + 1, block[tail], pid);
      cache.Facts();
      PinnedStay(old(cache.buf), cache.buf, cache.users, cache.pins, Lh(), at);
      StillUndisturbed(old(cache.buf), cache.buf, cache.pins, cache.pins, old(cache.view), old(cache.disk), layout,
                       Lh(), old(cache.users), Slot(layout, tail), old(cache.view[block[tail]]), 0);
    }

    // Between the disk writes of a commit the logged blocks stay pinned and at
    // least one buffer stays spare.
    ghost predicate Steady(k: nat)
      reads this, cache
    {
      && Valid() && k <= n && |at| == n
      && PinnedAt(cache.buf, cache.pins, Lh()[k..], at[k..])
      && Undisturbed(cache.buf, cache.pins, cache.view, cache.disk, layout, Lh())
      && exists i :: Spare(cache.users, cache.pins, i)
    }

    method WriteLog(ghost d0: Disk, ghost v0: Disk, ghost ws0: seq<Write>)
      requires Steady(0)
      requires CommitProgress(layout, d0, v0, Lh(), 0, cache.disk, ws0, cache.writes)
      requires cache.view == v0
      modifies cache
      ensures Steady(0) && cache.users == old(cache.users) && cache.pins == old(cache.pins)
      ensures CommitProgress(layout, d0, v0, Lh(), n, cache.disk, ws0, cache.writes)
      ensures |cache.view| == |v0| && forall b :: 0 <= b < |v0| && !InLog(layout, b) ==> cache.view[b] == v0[b]
    {
      hide Cache.Valid, Cache.Coherent, PinnedAt, CommitProgress, Undisturbed;
      assert Lh()[0..] == Lh() && at[0..] == at;
      for tail := 0 to n
        invariant Steady(0) && cache.users == old(cache.users) && cache.pins == old(cache.pins)
        invariant CommitProgress(layout, d0, v0, Lh(), tail, cache.disk, ws0, cache.writes)
        invariant |cache.view| == |v0| && forall b :: 0 <= b < |v0| && !InLog(layout, b) ==> cache.view[b] == v0[b]
      {
        ListAt(layout, |cache.disk|, Lh(), tail);
        LogWriteIs(layout, d0, v0, Lh(), tail, cache.disk, ws0, cache.writes);
        CommitAdvance(layout, d0, v0, Lh(), tail, cache.disk, ws0, cache.writes,
                      Write(Slot(layout, tail), v0[block[tail]]));
        WriteLogBlock(tail);
      }
    }

    // Write the in-memory header to disk, word by word over the old contents.
    method WriteHead(ghost k: nat)
      requires Steady(k) && layout.start < |cache.view|
      modifies cache
      ensures Steady(k) && cache.users == old(cache.users) && cache.pins == old(cache.pins)
      ensures |cache.view| == |old(cache.view)| && |cache.disk| == |old(cache.disk)| && layout.start < |cache.disk|
      ensures Released(old(cache.buf), cache.buf)
      ensures var h := PutHead(old(cache.view[layout.start]), Lh());
              && cache.view == old(cache.view)[layout.start := h]
              && cache.disk == old(cache.disk)[layout.start := h]
              && cache.writes == old(cache.writes) + [Write(layout.start, h)]
    {
      hide Cache.Valid, Cache.Coherent, PinnedAt, PutHead, Idle, Tidy;
      cache.Facts();
      Ready(cache.buf, cache.pins, cache.view, cache.disk, layout, Lh(), layout.start);
      hide Undisturbed;
      NobodyThere(cache.buf, layout.start);
      var r := cache.BRead(layout.start, pid);
      var b := r.i;
      var h: Block := cache.buf[b].data;
      ghost var h0 := h;
      h := h[0 := n];
      for i := 0 to n
        invariant h == [n] + block[..i] + h0[i + 1..]
      {
        h := h[i + 1 := block[i]];
      }
      HeadWords(h0, Lh(), h);
      cache.Facts();
      ghost var buf1, u1 := cache.buf, cache.users;
      cache.StoreBlock(b, h, pid);
      cache.Facts();
      StoredOne(old(cache.buf), buf1, cache.buf, old(cache.users), u1, cache.users, b, pid, layout.start,
                old(cache.view));
      StillPinned(old(cache.buf), cache.buf, cache.pins, Lh()[k..], at[k..]);
      StillUndisturbed(old(cache.buf), cache.buf, cache.pins, cache.pins, old(cache.view), old(cache.disk), layout,
                       Lh(), old(cache.users), layout.start, h, 0);
    }

    // install_trans(0): copy the logged blocks home and unpin them.
    method InstallCommitted(ghost d0: Disk, ghost v0: Disk, ghost ws0: seq<Write>)
      requires Steady(0)
      requires CommitProgress(layout, d0, v0, Lh(), n + 1, cache.disk, ws0, cache.writes)
      requires |cache.view| == |v0| && forall b :: 0 <= b < |v0| && !InLog(layout, b) ==> cache.view[b] == v0[b]
      modifies cache
      ensures Steady(n) && cache.users == old(cache.users)
      ensures CommitProgress(layout, d0, v0, Lh(), 2 * n + 1, cache.disk, ws0, cache.writes)
      ensures |cache.view| == |v0| && forall b :: 0 <= b < |v0| && !InLog(layout, b) ==> cache.view[b] == v0[b]
    {
      hide Cache.Valid, Cache.Coherent, PinnedAt, CommitProgress, Undisturbed;
      for tail := 0 to n
        invariant Steady(tail) && cache.users == old(cache.users)
        invariant CommitProgress(layout, d0, v0, Lh(), n + 1 + tail, cache.disk, ws0, cache.writes)
        invariant |cache.view| == |v0| && forall b :: 0 <= b < |v0| && !InLog(layout, b) ==> cache.view[b] == v0[b]
      {
        ListAt(layout, |cache.disk|, Lh(), tail);
        HomeWriteIs(layout, d0, v0, Lh(), tail, cache.disk, ws0, cache.writes);
        CommitAdvance(layout, d0, v0, Lh(), n + 1 + tail, cache.disk, ws0, cache.writes,
                      Write(block[tail], v0[block[tail]]));
        NotListed(layout, |cache.disk|, Lh(), tail, Slot(layout, tail));
        CleanUnlessLogged(cache, layout, Lh(), Lh()[tail..], at[tail..], Slot(layout, tail));
        InstallLogged(tail);
      }
    }

    method InstallLogged(tail: nat)
      requires Steady(tail) && tail < n
      modifies cache
      ensures Steady(tail + 1) && cache.users == old(cache.users)
      ensures |cache.view| == |cache.disk| == |old(cache.disk)| == |old(cache.view)|
      ensures 0 <= block[tail] < |cache.disk| && Slot(layout, tail) < |cache.disk|
      ensures var v := old(cache.view)[Slot(layout, tail)];
              && cache.view == old(cache.view)[block[tail] := v]
              && cache.disk == old(cache.disk)[block[tail] := v]
              && cache.writes == old(cache.writes) + [Write(block[tail], v)]
    {
      hide Cache.Valid, Cache.Coherent, ValidList, PinnedAt, Counted, Unique, Room2, Idle, Tidy;
      cache.Facts();
      ListAt(layout, |cache.disk|, Lh(), tail);
      assert Lh()[tail] == block[tail];
      hide Undisturbed;
      Ready(cache.buf, cache.pins, cache.view, cache.disk, layout, Lh(), Slot(layout, tail));
      Ready(cache.buf, cache.pins, cache.view, cache.disk, layout, Lh(), block[tail]);
      PinFacts(cache.buf, cache.pins, Lh()[tail..], at[tail..], 0);
      SpareRoom(cache.buf, cache.users, cache.pins, block[tail], at[tail]);
      cache.InstallBlock(layout.start + tail + 1, block[tail], true, pid, at[tail]);
      cache.Facts();
      PinnedStay(old(cache.buf), cache.buf, old(cache.users), old(cache.pins), Lh()[tail..], at[tail..]);
      UnpinNext(layout, |cache.disk|, cache.buf, old(cache.pins), Lh(), at, tail);
      SpareStays(old(cache.users), old(cache.pins), cache.pins, at[tail]);
      StillUndisturbed(old(cache.buf), cache.buf, old(cache.pins), cache.pins, old(cache.view), old(cache.disk), layout,
                       Lh(), old(cache.users), block[tail], old(cache.view[Slot(layout, tail)]), at[tail]);
    }

    // commit(): the writes issued are exactly the commit sequence for the blocks
    // logged so far; the file system's view of the home blocks does not change.
    method Commit()
      requires Steady(0)
      requires Sound(layout, cache.disk) && Head(layout, cache.disk) == []
      modifies this`n, this`at, cache
      ensures Steady(0) && n == 0
      ensures Sound(layout, cache.disk) && Head(layout, cache.disk) == []
      ensures |cache.view| == |old(cache.view)| == |cache.disk|
      ensures forall b :: 0 <= b < |cache.disk| && !InLog(layout, b) ==>
        cache.disk[b] == cache.view[b] == old(cache.view[b])
      ensures Committable(layout, old(cache.disk), old(cache.view), old(Lh()))
      ensures old(n) == 0 ==> cache.disk == old(cache.disk) && cache.writes == old(cache.writes)
      ensures old(n) > 0 ==>
        CommitProgress(layout, old(cache.disk), old(cache.view), old(Lh()), 2 * old(n) + 2, cache.disk,
                       old(cache.writes), cache.writes)
    {
      hide Cache.Valid, Cache.Coherent, PinnedAt, CommitProgress, Undisturbed, Sound, PutHead;
      cache.Facts();
      ghost var d0, v0, ws0, lh := cache.disk, cache.view, cache.writes, Lh();
      assert Lh()[0..] == lh && at[0..] == at;
      Starts(cache, layout, lh, at);
      if n > 0 {
        CommitStarts(layout, d0, v0, lh, ws0);
        WriteLog(d0, v0, ws0);
        HeadWriteIs(layout, d0, v0, lh, n, cache.disk, ws0, cache.writes);
        CommitAdvance(layout, d0, v0, lh, n, cache.disk, ws0, cache.writes,
                      Write(layout.start, PutHead(d0[layout.start], lh)));
        CleanUnlessLogged(cache, layout, lh, lh, at, layout.start);
        WriteHead(0);
        InstallCommitted(d0, v0, ws0);
        HeadWriteIs(layout, d0, v0, lh, 2 * n + 1, cache.disk, ws0, cache.writes);
        CommitAdvance(layout, d0, v0, lh, 2 * n + 1, cache.disk, ws0, cache.writes,
          Write(layout.start, PutHead(PutHead(d0[layout.start], lh), [])));
        assert Lh()[n..] == [] && at[n..] == [];
        CleanUnlessLogged(cache, layout, lh, [], [], layout.start);
        FewerUndisturbed(cache.buf, cache.pins, cache.view, cache.disk, layout, lh);
        n, at := 0, [];
        assert Lh() == [] && Lh()[0..] == [] && at[0..] == [];
        WriteHead(0);
        CommitEnds(layout, d0, v0, lh, cache.disk, ws0, cache.writes);
      }
    }

    // ---------------------------------------------------------------- recovery

    // A machine that has just booted: no buffer referenced, pinned or locked.
    ghost predicate Booted()
      reads this, cache
    {
      && Valid() && at == []
      && PinnedAt(cache.buf, cache.pins, [], []) && Quiet(cache.buf)
      && (forall i :: 0 <= i < |cache.users| ==> cache.users[i] == 0)
    }

    // Read the header from disk into lh.
    method ReadHead()
      requires Booted() && Sound(layout, cache.disk)
      modifies this`n, this`block, cache
      ensures cache.disk == old(cache.disk) && cache.writes == old(cache.writes)
      ensures Booted() && Lh() == Head(layout, cache.disk)
    {
      hide Cache.Valid, Cache.Coherent, PinnedAt, PutHead, Sound, Undisturbed;
      cache.Facts();
      HeadAt(layout, cache.disk);
      BootUndisturbed(cache, layout, []);
      CleanUnlessLogged(cache, layout, [], [], [], layout.start);
      BootedSpare(cache.buf, cache.users, cache.pins);
      assert cache.buf[0].refcnt == 0;
      hide Counted, Unique, Room2;
      var r := cache.BRead(layout.start, pid);
      var b := r.i;
      cache.Facts();
      var h := cache.buf[b].data;
      n := h[0];
      for i := 0 to n
        modifies this`block
        invariant |block| == LOGSIZE
        invariant forall j :: 0 <= j < i ==> block[j] == h[j + 1]
      {
        block := block[i := h[i + 1]];
      }
      assert Lh() == h[1..n + 1];
      ghost var buf1, u1 := cache.buf, cache.users;
      cache.BRelse(b, pid);
      cache.Facts();
      StoredOne(old(cache.buf), buf1, cache.buf, old(cache.users), u1, cache.users, b, pid, layout.start,
                old(cache.view));
      NothingPinned(old(cache.buf), cache.buf, cache.pins);
      QuietKept(old(cache.buf), cache.buf);
    }

    // install_trans(1)'s loop body
    method InstallRecovered(tail: nat)
      requires Booted() && tail < n
      modifies cache
      ensures Booted()
      ensures |cache.disk| == |old(cache.disk)|
      ensures 0 <= block[tail] < |cache.disk| && Slot(layout, tail) < |cache.disk|
      ensures var v := old(cache.disk)[Slot(layout, tail)];
              && cache.disk == old(cache.disk)[block[tail] := v]
              && cache.writes == old(cache.writes) + [Write(block[tail], v)]
    {
      hide Cache.Valid, Cache.Coherent, ValidList, PinnedAt, Undisturbed, Idle, Tidy;
      cache.Facts();
      ListAt(layout, |cache.disk|, Lh(), tail);
      assert Lh()[tail] == block[tail];
      BootUndisturbed(cache, layout, Lh());
      CleanUnlessLogged(cache, layout, Lh(), [], [], Slot(layout, tail));
      Ready(cache.buf, cache.pins, cache.view, cache.disk, layout, Lh(), Slot(layout, tail));
      Ready(cache.buf, cache.pins, cache.view, cache.disk, layout, Lh(), block[tail]);
      BootedSpare(cache.buf, cache.users, cache.pins);
      cache.InstallBlock(layout.start + tail + 1, block[tail], false, pid, 0);
      cache.Facts();
      NothingPinned(old(cache.buf), cache.buf, cache.pins);
      QuietKept(old(cache.buf), cache.buf);
    }

    // recover_from_log(): the writes issued are exactly the recovery sequence
    // for the disk found at boot.
    method Recover()
      requires Booted() && Sound(layout, cache.disk)
      modifies this`n, this`block, cache
      ensures Booted() && n == 0
      ensures RecoverProgressed(layout, old(cache.disk), |RecoverWrites(layout, old(cache.disk))|, cache.disk,
                                old(cache.writes), cache.writes)
      ensures |cache.disk| == |old(cache.disk)|
      ensures Sound(layout, cache.disk) && Head(layout, cache.disk) == []
      ensures forall b :: 0 <= b < |cache.disk| && !InLog(layout, b) ==>
        cache.disk[b] == Durable(layout, old(cache.disk), b)
    {
      hide Cache.Valid, Cache.Coherent, PinnedAt, RecoverProgressed, Sound, PutHead, Undisturbed;
      ghost var d0, ws0 := cache.disk, cache.writes;
      ReadHead();
      RecoverStarts(layout, d0, ws0);
      for tail := 0 to n
        invariant Booted() && Lh() == Head(layout, d0)
        invariant RecoverProgressed(layout, d0, tail, cache.disk, ws0, cache.writes)
      {
        RecoverWriteIs(layout, d0, tail, cache.disk, ws0, cache.writes);
        RecoverAdvance(layout, d0, tail, cache.disk, ws0, cache.writes, Write(block[tail], d0[Slot(layout, tail)]));
        InstallRecovered(tail);
      }
      RecoverWriteIs(layout, d0, n, cache.disk, ws0, cache.writes);
      RecoverAdvance(layout, d0, n, cache.disk, ws0, cache.writes, Write(layout.start, PutHead(d0[layout.start], [])));
      BootUndisturbed(cache, layout, []);
      CleanUnlessLogged(cache, layout, [], [], [], layout.start);
      n := 0;
      assert Lh() == [] && Lh()[0..] == [] && at[0..] == [];
      cache.Facts();
      assert Spare(cache.users, cache.pins, 0) by { NoPins(cache.buf, cache.pins); }
      ghost var buf1 := cache.buf;
      WriteHead(0);
      QuietKept(buf1, cache.buf);
      RecoveryDone(layout, d0);
      RecoverEnds(layout, d0, cache.disk, ws0, cache.writes);
    }

    // ---------------------------------------------------------------- log_write

    // The caller holds buffer i and has changed it. False is one of the panics.
    method LogWrite(i: nat) returns (ok: bool)
      requires Valid() && PinnedAt(cache.buf, cache.pins, Lh(), at)
      requires i < NBUF && cache.Holds(i, pid, cache.buf[i].blockno) && !InLog(layout, cache.buf[i].blockno)
      modifies this`n, this`block, this`at, cache`buf, cache`pins
      ensures ok <==> old(n) < LOGSIZE && old(n) < layout.size - 1 && outstanding >= 1
      ensures Valid() && PinnedAt(cache.buf, cache.pins, Lh(), at)
      ensures !ok ==> Lh() == old(Lh()) && cache.buf == old(cache.buf) && cache.pins == old(cache.pins)
      ensures ok ==>
        && Lh() == (if cache.buf[i].blockno in old(Lh()) then old(Lh()) else old(Lh()) + [cache.buf[i].blockno])
        && cache.pins[i] > 0 && cache.Holds(i, pid, cache.buf[i].blockno)
        && cache.buf == old(cache.buf)[i := old(cache.buf)[i].(refcnt := cache.buf[i].refcnt)]
    {
      hide Cache.Valid, Cache.Coherent, PinnedAt, ValidList, Unique;
      cache.Facts();
      if n >= LOGSIZE || n >= layout.size - 1 || outstanding < 1 {
        return false;
      }
      var k := 0;
      while k < n && block[k] != cache.buf[i].blockno
        invariant 0 <= k <= n
        invariant forall j :: 0 <= j < k ==> block[j] != cache.buf[i].blockno
      {
        k := k + 1;
      }
      var bno := cache.buf[i].blockno;
      block := block[k := bno];
      assert block[..old(n)] == old(Lh());
      if k == n {
        assert bno !in Lh();
        cache.BPin(i);
        n := n + 1;
        at := at + [i];
        assert Lh() == old(Lh()) + [bno];
        cache.Facts();
        ListGrows(layout, |cache.disk|, old(Lh()), bno);
        PinOne(old(cache.buf), cache.buf, old(cache.pins), cache.pins, old(Lh()), old(at), i, bno);
      } else {
        assert Lh()[k] == bno;
        PinFacts(cache.buf, cache.pins, Lh(), at, k);
        OnlyOne(cache.buf, at[k], i, bno);
      }
      return true;
    }

    // The use of log_write: read the block, change it, log it, release it. The
    // change is what the cache shows from then on; nothing reaches the disk.
    method UpdateBlock(b: nat, data: Block) returns (r: Update)
      requires Valid() && PinnedAt(cache.buf, cache.pins, Lh(), at)
      requires b < |cache.disk| && !InLog(layout, b)
      modifies this`n, this`block, this`at, cache
      ensures cache.disk == old(cache.disk) && cache.writes == old(cache.writes)
      ensures !r.TooBig? ==> Valid() && PinnedAt(cache.buf, cache.pins, Lh(), at) && |old(cache.view)| == |cache.disk|
      ensures r.Done? ==>
        && cache.view == old(cache.view)[b := data] && cache.users == old(cache.users)
        && Released(old(cache.buf), cache.buf)
        && Lh() == if b in old(Lh()) then old(Lh()) else old(Lh()) + [b]
      ensures r.Asleep? || r.NoBuffer? ==> cache.view == old(cache.view) && Lh() == old(Lh())
      ensures r.NoBuffer? <==>
        forall i :: 0 <= i < NBUF ==> !Caches(old(cache.buf[i]), ROOTDEV, b) && old(cache.buf[i].refcnt) > 0
      ensures r.Asleep? <==> exists i ::
        0 <= i < NBUF && Caches(old(cache.buf[i]), ROOTDEV, b) && old(cache.buf[i].lock) != 0
      ensures r.TooBig? ==> old(n) >= LOGSIZE || old(n) >= layout.size - 1 || outstanding < 1
      ensures r.Done? ==> old(n) < LOGSIZE && old(n) < layout.size - 1 && outstanding >= 1
    {
      hide Cache.Valid, Cache.Coherent, PinnedAt, ValidList, Unique, Counted;
      cache.Facts();
      var f := cache.BRead(b, pid);
      match f
      case NoBuffers =>
        return NoBuffer;
      case Waits(i) =>
        OneTouched(old(cache.buf), cache.buf, cache.pins, Lh(), at, i);
        return Asleep;
      case Here(i) =>
        FetchedStays(old(cache.buf), cache.buf, old(cache.users), cache.users, i, pid, b, cache.view);
        PinnedStay(old(cache.buf), cache.buf, old(cache.users), cache.pins, Lh(), at);
        FetchedOnly(old(cache.buf), cache.buf, old(cache.users), cache.users, i, pid, b, cache.view);
        hide Fetched;
        var ok := ChangeHeld(i, data);
        if !ok {
          return TooBig;
        }
        ReleaseLogged(i);
        return Done;
    }

    // The caller holds buffer i: change it and log it. False is a panic of log_write.
    method ChangeHeld(i: nat, data: Block) returns (ok: bool)
      requires Valid() && PinnedAt(cache.buf, cache.pins, Lh(), at)
      requires i < NBUF && cache.Holds(i, pid, cache.buf[i].blockno) && !InLog(layout, cache.buf[i].blockno)
      modifies this`n, this`block, this`at, cache`buf, cache`pins, cache`view
      ensures Valid() && PinnedAt(cache.buf, cache.pins, Lh(), at)
      ensures ok <==> old(n) < LOGSIZE && old(n) < layout.size - 1 && outstanding >= 1
      ensures ok ==>
        && i < |cache.buf| == |old(cache.buf)| && i < |cache.pins| && cache.pins[i] > 0
        && cache.buf == old(cache.buf)[i := old(cache.buf)[i].(data := data, refcnt := cache.buf[i].refcnt)]
        && var b := old(cache.buf)[i].blockno;
           && b < |old(cache.view)| && cache.view == old(cache.view)[b := data]
           && Lh() == if b in old(Lh()) then old(Lh()) else old(Lh()) + [b]
    {
      hide Cache.Valid, Cache.Coherent, PinnedAt, ValidList, Unique, Counted;
      cache.Facts();
      cache.Modify(i, pid, data);
      OneTouched(old(cache.buf), cache.buf, cache.pins, Lh(), at, i);
      ok := LogWrite(i);
      cache.Facts();
      HeldUser(cache.buf, cache.users, cache.pins, i);
    }

    // brelse of a buffer whose block is logged
    method ReleaseLogged(i: nat)
      requires Valid() && PinnedAt(cache.buf, cache.pins, Lh(), at)
      requires i < NBUF && cache.Holds(i, pid, cache.buf[i].blockno) && i < |cache.pins| && cache.pins[i] > 0
      modifies cache`buf, cache`users, cache`next, cache`prev, cache`order, cache`stamp, cache`now
      ensures Valid() && PinnedAt(cache.buf, cache.pins, Lh(), at)
      ensures |cache.buf| == |old(cache.buf)| == |old(cache.users)| == NBUF && old(cache.users)[i] > 0
      ensures cache.users == old(cache.users)[i := old(cache.users)[i] - 1]
      ensures cache.buf[i].lock == 0 && forall k :: 0 <= k < NBUF && k != i ==> cache.buf[k] == old(cache.buf)[k]
    {
      hide Cache.Valid, Cache.Coherent, PinnedAt, ValidList, Unique, Counted;
      cache.Facts();
      HeldUser(cache.buf, cache.users, cache.pins, i);
      cache.BRelse(i, pid);
      OneTouched(old(cache.buf), cache.buf, cache.pins, Lh(), at, i);
    }

    // ---------------------------------------------------------------- operations

    // One round of begin_op's loop; false means that the caller sleeps.
    method BeginOp() returns (ok: bool)
      modifies this`outstanding
      ensures ok <==> !committing && n + (old(outstanding) + 1) * MAXOPBLOCKS <= LOGSIZE
      ensures outstanding == old(outstanding) + if ok then 1 else 0
    {
      if committing || n + (outstanding + 1) * MAXOPBLOCKS > LOGSIZE {
        return false;
      }
      outstanding := outstanding + 1;
      return true;
    }

    // end_op; false is its panic. The last operation commits: what the cache
    // showed is on disk, the log is empty, and operations may begin again.
    method EndOp() returns (ok: bool)
      requires outstanding >= 1
      requires outstanding == 1 && !committing ==>
        Steady(0) && Sound(layout, cache.disk) && Head(layout, cache.disk) == []
      modifies this`outstanding, this`committing, this`n, this`at, cache
      ensures ok <==> !old(committing)
      ensures outstanding == old(outstanding) - 1 && committing == old(committing)
      ensures !ok || outstanding > 0 ==> n == old(n) && at == old(at) && unchanged(cache)
      ensures ok && outstanding == 0 ==>
        && Steady(0) && n == 0 && Sound(layout, cache.disk) && Head(layout, cache.disk) == []
        && |cache.view| == |old(cache.view)| == |cache.disk|
        && (forall b :: 0 <= b < |cache.disk| && !InLog(layout, b) ==>
              cache.disk[b] == cache.view[b] == old(cache.view[b]))
        && Committable(layout, old(cache.disk), old(cache.view), old(Lh()))
        && (old(n) == 0 ==> cache.disk == old(cache.disk))
        && (old(n) > 0 ==> CommitProgress(layout, old(cache.disk), old(cache.view), old(Lh()), 2 * old(n) + 2,
                                          cache.disk, old(cache.writes), cache.writes))
    {
      outstanding := outstanding - 1;
      if committing {
        return false;
      }
      if outstanding == 0 {
        committing := true;
        Commit();
        committing := false;
      }
      return true;
    }
  }

  lemma HeadAt(l: Layout, d: Disk)
    requires Sound(l, d)
    ensures l.start < |d| && 0 <= d[l.start][0] <= LOGSIZE
    ensures Head(l, d) == d[l.start][1..d[l.start][0] + 1] && ValidList(l, |d|, Head(l, d))
  {
  }

  lemma NoPins(buf: seq<Buf>, pins: seq<nat>)
    requires PinnedAt(buf, pins, [], [])
    ensures |pins| == |buf| && forall i :: 0 <= i < |pins| ==> pins[i] == 0
  {
  }

  lemma BootedSpare(buf: seq<Buf>, users: seq<nat>, pins: seq<nat>)
    requires Counted(buf, users, pins) && PinnedAt(buf, pins, [], []) && |buf| >= 2
    requires forall i :: 0 <= i < |users| ==> users[i] == 0
    ensures forall i :: 0 <= i < |buf| ==> buf[i].refcnt == 0
    ensures forall b: nat :: Room2(buf, b)
  {
    assert buf[0].refcnt == 0 && buf[1].refcnt == 0;
  }

  lemma ListGrows(l: Layout, n: nat, lh: seq<int>, b: nat)
    requires ValidList(l, n, lh) && b !in lh && b < n && !InLog(l, b)
    requires |lh| < LOGSIZE && |lh| < l.size - 1
    ensures ValidList(l, n, lh + [b])
  {
  }

  // While no process holds a reference, a buffer is spare exactly when fewer
  // than NBUF blocks are logged; a log area of at most NBUF blocks sees to that.
  lemma SpareExactly(buf: seq<Buf>, users: seq<nat>, pins: seq<nat>, l: Layout, n: nat, lh: seq<int>, at: seq<nat>)
    requires PinnedAt(buf, pins, lh, at) && ValidList(l, n, lh)
    requires |buf| == NBUF == |users| && forall i :: 0 <= i < NBUF ==> users[i] == 0
    ensures (exists i :: Spare(users, pins, i)) <==> |lh| < NBUF
    ensures l.size <= NBUF ==> exists i :: Spare(users, pins, i)
  {
    assert |lh| <= l.size - 1;
    hide PinnedAt, ValidList, Elems;
    PinsDistinct(buf, pins, l, n, lh, at);
    if |lh| < NBUF {
      var i := Missing(at, NBUF);
      assert Spare(users, pins, i);
    } else {
      Full(at, NBUF);
    }
  }

  lemma PinsDistinct(buf: seq<Buf>, pins: seq<nat>, l: Layout, n: nat, lh: seq<int>, at: seq<nat>)
    requires PinnedAt(buf, pins, lh, at) && ValidList(l, n, lh)
    ensures NoDup(at) && |at| == |lh| && |pins| == |buf| && forall k :: 0 <= k < |at| ==> at[k] < |buf|
    ensures forall i :: 0 <= i < |pins| ==> pins[i] == if i in at then 1 else 0
  {
  }

  // log_write adds a block that was not logged.
  lemma PinOne(buf0: seq<Buf>, buf: seq<Buf>, pins0: seq<nat>, pins: seq<nat>, lh: seq<int>, at: seq<nat>, i: nat,
               b: nat)
    requires PinnedAt(buf0, pins0, lh, at) && b !in lh && i < |buf0| == |buf|
    requires buf0[i].valid && Caches(buf0[i], ROOTDEV, b)
    requires buf == buf0[i := buf[i]] && Stays(buf0[i], buf[i])
    requires pins == pins0[i := pins0[i] + 1]
    ensures PinnedAt(buf, pins, lh + [b], at + [i])
  {
    forall k | 0 <= k < |pins| ensures k in at + [i] <==> k in at || k == i {
    }
  }

  lemma RecoverStarts(l: Layout, d0: Disk, ws0: seq<Write>)
    requires Sound(l, d0)
    ensures RecoverProgressed(l, d0, 0, d0, ws0, ws0)
  {
    assert RecoverWrites(l, d0)[..0] == [];
  }

  lemma RecoverWriteIs(l: Layout, d0: Disk, k: nat, d: Disk, ws0: seq<Write>, ws: seq<Write>)
    requires RecoverProgressed(l, d0, k, d, ws0, ws) && k <= |Head(l, d0)|
    ensures l.start < |d| == |d0| && d[l.start] == d0[l.start]
    ensures k < |Head(l, d0)| ==>
              && Slot(l, k) < |d0| && d[Slot(l, k)] == d0[Slot(l, k)] && Head(l, d0)[k] >= 0
              && RecoverWrites(l, d0)[k] == Write(Head(l, d0)[k], d0[Slot(l, k)])
    ensures k == |Head(l, d0)| ==> RecoverWrites(l, d0)[k] == Write(l.start, PutHead(d0[l.start], []))
  {
    hide PutHead;
    RecoverProgress(l, d0, k);
    if k < |Head(l, d0)| {
      assert InLog(l, Slot(l, k));
    }
  }

  lemma RecoverEnds(l: Layout, d0: Disk, d: Disk, ws0: seq<Write>, ws: seq<Write>)
    requires Sound(l, d0) && RecoverProgressed(l, d0, |RecoverWrites(l, d0)|, d, ws0, ws)
    ensures d == AfterRecover(l, d0, |RecoverWrites(l, d0)|)
  {
  }

  // A cache whose only changes are the logged blocks is ready to commit.
  lemma Starts(c: Cache, l: Layout, lh: seq<int>, at: seq<nat>)
    requires c.Valid() && Undisturbed(c.buf, c.pins, c.view, c.disk, l, lh) && PinnedAt(c.buf, c.pins, lh, at)
    requires |c.view| == |c.disk| && Sound(l, c.disk) && Head(l, c.disk) == [] && ValidList(l, |c.disk|, lh)
    ensures Committable(l, c.disk, c.view, lh)
  {
    hide Cache.Valid, Undisturbed, PinnedAt, Sound, ValidList;
    forall b | 0 <= b < |c.disk| && !InLog(l, b) && b !in lh ensures c.view[b] == c.disk[b] {
      CleanUnlessLogged(c, l, lh, lh, at, b);
    }
  }

  lemma CommitStarts(l: Layout, d0: Disk, v0: Disk, lh: seq<int>, ws0: seq<Write>)
    requires Committable(l, d0, v0, lh)
    ensures CommitProgress(l, d0, v0, lh, 0, d0, ws0, ws0)
  {
    assert CommitWrites(l, d0, v0, lh)[..0] == [];
  }

  lemma CommitEnds(l: Layout, d0: Disk, v0: Disk, lh: seq<int>, d: Disk, ws0: seq<Write>, ws: seq<Write>)
    requires CommitProgress(l, d0, v0, lh, 2 * |lh| + 2, d, ws0, ws)
    ensures Sound(l, d) && Head(l, d) == [] && |d| == |v0|
    ensures forall b :: 0 <= b < |d| && !InLog(l, b) ==> d[b] == v0[b]
  {
    CommitDone(l, d0, v0, lh);
  }

  lemma HeadWriteIs(l: Layout, d0: Disk, v0: Disk, lh: seq<int>, k: nat, d: Disk, ws0: seq<Write>, ws: seq<Write>)
    requires CommitProgress(l, d0, v0, lh, k, d, ws0, ws) && |lh| < WORDS
    requires k == |lh| || k == 2 * |lh| + 1
    ensures l.start < |d| == |d0|
    ensures l.start !in lh
    ensures k == |lh| ==>
              && d[l.start] == d0[l.start]
              && CommitWrites(l, d0, v0, lh)[k] == Write(l.start, PutHead(d0[l.start], lh))
    ensures k == 2 * |lh| + 1 ==>
              && d[l.start] == PutHead(d0[l.start], lh)
              && CommitWrites(l, d0, v0, lh)[k] == Write(l.start, PutHead(PutHead(d0[l.start], lh), []))
  {
    hide CopyStage, HomeStage, PutHead, SoundHead, Perform;
    CommitStage(l, d0, v0, lh, k);
    assert InLog(l, l.start);
  }

  lemma HomeWriteIs(l: Layout, d0: Disk, v0: Disk, lh: seq<int>, k: nat, d: Disk, ws0: seq<Write>, ws: seq<Write>)
    requires CommitProgress(l, d0, v0, lh, |lh| + 1 + k, d, ws0, ws) && k < |lh|
    ensures |v0| == |d0| == |d| && 0 <= lh[k] < |v0| && Slot(l, k) < |d|
    ensures CommitWrites(l, d0, v0, lh)[|lh| + 1 + k] == Write(lh[k], v0[lh[k]])
    ensures d[Slot(l, k)] == v0[lh[k]]
  {
    hide HeadStage, HomeStage, PutHead, SoundHead, Perform;
    CommitStage(l, d0, v0, lh, |lh| + 1 + k);
  }

  lemma NotListed(l: Layout, n: nat, lh: seq<int>, k: nat, b: int)
    requires ValidList(l, n, lh) && k <= |lh| && InLog(l, b)
    ensures b !in lh[k..]
  {
  }

  lemma SpareStays(users: seq<nat>, pins0: seq<nat>, pins: seq<nat>, k: nat)
    requires exists i :: Spare(users, pins0, i)
    requires k < |pins0| && pins == pins0[k := 0]
    ensures exists i :: Spare(users, pins, i)
  {
    var i :| Spare(users, pins0, i);
    assert Spare(users, pins, i);
  }

  lemma HeadWords(h0: Block, lh: seq<int>, h: seq<int>)
    requires |lh| < WORDS && h == [|lh|] + lh + h0[|lh| + 1..]
    ensures |h| == WORDS && h == PutHead(h0, lh)
  {
  }

  // One bread, then the buffer was released again.
  lemma StoredOne(buf0: seq<Buf>, buf1: seq<Buf>, buf: seq<Buf>, u0: seq<nat>, u1: seq<nat>, u: seq<nat>,
                  i: nat, pid: nat, bno: nat, view: Disk)
    requires Fetched(buf0, buf1, u0, u1, i, pid, bno, view)
    requires |buf| == |buf1| && buf[i].lock == 0 && Stays(buf1[i], buf[i])
    requires forall k :: 0 <= k < |buf| && k != i ==> buf[k] == buf1[k]
    requires |u1| == |buf1| && u1[i] > 0 && u == u1[i := u1[i] - 1]
    ensures Released(buf0, buf) && u == u0
    ensures forall k :: 0 <= k < |buf0| && buf0[k].refcnt > 0 && buf0[k].valid ==> Stays(buf0[k], buf[k])
  {
  }

  lemma LogWriteIs(l: Layout, d0: Disk, v0: Disk, lh: seq<int>, k: nat, d: Disk, ws0: seq<Write>, ws: seq<Write>)
    requires CommitProgress(l, d0, v0, lh, k, d, ws0, ws) && k < |lh|
    ensures |v0| == |d0| == |d| && 0 <= lh[k] < |v0|
    ensures CommitWrites(l, d0, v0, lh)[k] == Write(Slot(l, k), v0[lh[k]])
  {
  }
}
