/**
 The buffer cache (kernel/bio.c): NBUF buffers threaded on a circular
 prev/next list through a head, most recently released first.

 Pointers into bcache.buf are indices 0..NBUF-1 and &bcache.head is NBUF.
 BGet, AcquireSleep, Load, Modify, BWrite, ReleaseSleep, Unref, BPin and BUnpin
 are single critical sections; CacheRun has the runs of any number of processes
 over them. The other methods are several sections that one process goes
 through without having to wait.
 */
module BufferCache {
  import opened RedoLog
  import opened Options

  const NBUF: nat := 30
  const ROOTDEV: nat := 1

  // ---------------------------------------------------------------- the LRU list

  // The k-th node of a list over nodes below n whose head is n; one before the
  // first and one past the last are the head.
  function Node(list: seq<nat>, n: nat, k: int): nat {
    if 0 <= k < |list| then list[k] else n
  }

  // next and prev thread exactly the nodes of list, in that order.
  ghost predicate Linked(list: seq<nat>, n: nat, next: seq<nat>, prev: seq<nat>) {
    && |next| == n + 1 && |prev| == n + 1
    && (forall k :: 0 <= k < |list| ==> list[k] < n)
    && (forall j, k :: 0 <= j < k < |list| ==> list[j] != list[k])
    && (forall j, k :: -1 <= j < |list| && k == j + 1 ==>
          next[Node(list, n, j)] == Node(list, n, k) && prev[Node(list, n, k)] == Node(list, n, j))
  }

  // The list of the cache is a cycle through the head over exactly the n buffers.
  ghost predicate Ring(order: seq<nat>, next: seq<nat>, prev: seq<nat>) {
    && Linked(order, |order|, next, prev)
    && (forall b :: 0 <= b < |order| ==> b in order)
  }

  function Without(list: seq<nat>, k: nat): (r: seq<nat>)
    requires k < |list|
    ensures |r| == |list| - 1
    ensures forall j :: 0 <= j < k ==> r[j] == list[j]
    ensures forall j :: k <= j < |r| ==> r[j] == list[j + 1]
  {
    list[..k] + list[k + 1..]
  }

  function MoveToFront(order: seq<nat>, k: nat): (r: seq<nat>)
    requires k < |order|
    ensures |r| == |order|
  {
    [order[k]] + Without(order, k)
  }

  // b->next->prev = b->prev; b->prev->next = b->next;
  function Unlink(next: seq<nat>, prev: seq<nat>, b: nat): (r: (seq<nat>, seq<nat>))
    requires b < |next| == |prev| && next[b] < |prev| && prev[b] < |next|
    ensures |r.0| == |next| && |r.1| == |prev|
  {
    (next[prev[b] := next[b]], prev[next[b] := prev[b]])
  }

  // b->next = head.next; b->prev = &head; head.next->prev = b; head.next = b;
  function Insert(next: seq<nat>, prev: seq<nat>, b: nat, head: nat): (r: (seq<nat>, seq<nat>))
    requires b < |next| == |prev| && head < |next| && next[head] < |prev|
    ensures |r.0| == |next| && |r.1| == |prev|
  {
    var first := next[head];
    (next[b := first][head := b], prev[b := head][first := b])
  }

  lemma UnlinkRemoves(list: seq<nat>, n: nat, next: seq<nat>, prev: seq<nat>, k: nat)
    requires Linked(list, n, next, prev) && k < |list|
    ensures next[list[k]] <= n && prev[list[k]] <= n
    ensures var u := Unlink(next, prev, list[k]); Linked(Without(list, k), n, u.0, u.1)
  {
    var b, r := list[k], Without(list, k);
    assert b == Node(list, n, k);
    assert next[b] == Node(list, n, k + 1) && prev[b] == Node(list, n, k - 1);
    var u := Unlink(next, prev, b);
    forall i, j | -1 <= i < |r| && j == i + 1
      ensures u.0[Node(r, n, i)] == Node(r, n, j) && u.1[Node(r, n, j)] == Node(r, n, i)
    {
      var i', j' := if i < k then i else i + 1, if j < k then j else j + 1;
      assert Node(r, n, i) == Node(list, n, i') && Node(r, n, j) == Node(list, n, j');
      assert next[Node(list, n, i')] == Node(list, n, i' + 1);
      assert prev[Node(list, n, j')] == Node(list, n, j' - 1);
    }
  }

  lemma InsertPrepends(list: seq<nat>, n: nat, next: seq<nat>, prev: seq<nat>, b: nat)
    requires Linked(list, n, next, prev) && b < n && b !in list
    ensures next[n] <= n
    ensures var r := Insert(next, prev, b, n); Linked([b] + list, n, r.0, r.1)
  {
    var l2 := [b] + list;
    assert Node(list, n, -1) == n && next[n] == Node(list, n, 0);
    var r := Insert(next, prev, b, n);
    forall i, j | -1 <= i < |l2| && j == i + 1
      ensures r.0[Node(l2, n, i)] == Node(l2, n, j) && r.1[Node(l2, n, j)] == Node(l2, n, i)
    {
      if i >= 1 {
        assert Node(l2, n, i) == Node(list, n, i - 1) && Node(l2, n, j) == Node(list, n, j - 1);
      } else if i == 0 {
        assert Node(l2, n, 1) == Node(list, n, 0);
      }
    }
  }

  lemma WithoutMembers(list: seq<nat>, k: nat, b: nat)
    requires k < |list| && b in list
    requires forall i, j :: 0 <= i < j < |list| ==> list[i] != list[j]
    ensures b in Without(list, k) <==> b != list[k]
  {
    var j :| 0 <= j < |list| && list[j] == b;
    var r := Without(list, k);
    if j < k { assert r[j] == b; } else if j > k { assert r[j - 1] == b; }
  }

  // brelse's surgery moves the buffer to the front and keeps the list a cycle
  // over exactly the same buffers.
  lemma RelinkMovesToFront(order: seq<nat>, next: seq<nat>, prev: seq<nat>, k: nat)
    requires Ring(order, next, prev) && k < |order|
    ensures next[order[k]] <= |order| && prev[order[k]] <= |order|
    ensures var u := Unlink(next, prev, order[k]);
            && u.0[|order|] <= |order|
            && (var r := Insert(u.0, u.1, order[k], |order|); Ring(MoveToFront(order, k), r.0, r.1))
  {
    var n := |order|;
    UnlinkRemoves(order, n, next, prev, k);
    var u := Unlink(next, prev, order[k]);
    WithoutMembers(order, k, order[k]);
    InsertPrepends(Without(order, k), n, u.0, u.1, order[k]);
    forall b | 0 <= b < n ensures b in MoveToFront(order, k) {
      WithoutMembers(order, k, b);
    }
  }

  // ---------------------------------------------------------------- the cache

  // struct buf; lock is the sleep lock, as the pid of its holder or 0
  datatype Buf = Buf(dev: nat, blockno: nat, valid: bool, refcnt: nat, lock: nat, data: Block)

  predicate Caches(b: Buf, dev: nat, blockno: nat) {
    b.dev == dev && b.blockno == blockno
  }

  // head.next is most recent, head.prev is least
  ghost predicate Recency(order: seq<nat>, stamp: seq<nat>, now: nat) {
    && (forall k :: 0 <= k < |order| ==> order[k] < |stamp| && stamp[order[k]] < now)
    && (forall j, k :: 0 <= j < k < |order| ==> stamp[order[j]] > stamp[order[k]])
  }

  lemma RecencyMove(order: seq<nat>, stamp: seq<nat>, now: nat, k: nat)
    requires k < |order| && Recency(order, stamp, now)
    requires forall i, j :: 0 <= i < j < |order| ==> order[i] != order[j]
    ensures Recency(MoveToFront(order, k), stamp[order[k] := now], now + 1)
  {
    var r := MoveToFront(order, k);
    forall j | 1 <= j < |r| ensures r[j] == order[if j <= k then j - 1 else j] {
    }
  }

  // The list with the times of last release
  datatype Lru = Lru(order: seq<nat>, next: seq<nat>, prev: seq<nat>, stamp: seq<nat>, now: nat)

  // bget found or recycled buffer i for the block.
  ghost predicate Got(buf: seq<Buf>, stamp: seq<nat>, dev: nat, blockno: nat, i: nat, buf': seq<Buf>)
    requires |stamp| == |buf| == NBUF
  {
    && i < NBUF
    && (|| (&& Caches(buf[i], dev, blockno)
            && buf' == buf[i := buf[i].(refcnt := buf[i].refcnt + 1)])
        || (&& (forall j :: 0 <= j < NBUF ==> !Caches(buf[j], dev, blockno))
            && buf[i].refcnt == 0
            && (forall j :: 0 <= j < NBUF && buf[j].refcnt == 0 ==> stamp[i] <= stamp[j])
            && buf' == buf[i := buf[i].(dev := dev, blockno := blockno, valid := false, refcnt := 1)]))
  }

  // The list after the last reference to buffer i was dropped.
  ghost predicate Relinked(r: Lru, i: nat, r': Lru) {
    && |r.next| == |r.prev| == NBUF + 1 && |r.stamp| == NBUF && i < NBUF
    && r.next[i] <= NBUF && r.prev[i] <= NBUF
    && (var u := Unlink(r.next, r.prev, i);
        && u.0[NBUF] <= NBUF
        && (var v := Insert(u.0, u.1, i, NBUF);
            && r'.next == v.0 && r'.prev == v.1))
    && r'.stamp == r.stamp[i := r.now] && r'.now == r.now + 1
    && exists k :: 0 <= k < |r.order| && r.order[k] == i && r'.order == MoveToFront(r.order, k)
  }

  // What bread finds.
  datatype Fetch =
    | Here(i: nat)       // the buffer, locked and loaded
    | Waits(i: nat)      // the reference is counted; somebody else has the lock
    | NoBuffers          // the panic of bget

  // Exact reference counts, locks only with a reference, one buffer per block.
  ghost predicate Counted(buf: seq<Buf>, users: seq<nat>, pins: seq<nat>) {
    && |users| == |buf| && |pins| == |buf|
    && (forall i :: 0 <= i < |buf| ==> buf[i].refcnt == users[i] + pins[i])
    && (forall i :: 0 <= i < |buf| && buf[i].lock != 0 ==> users[i] > 0)
  }

  ghost predicate Unique(buf: seq<Buf>) {
    forall i, j :: 0 <= i < |buf| && 0 <= j < |buf| && i != j && buf[i].dev != 0 ==>
      !Caches(buf[j], buf[i].dev, buf[i].blockno)
  }

  // A changed block lives in a buffer that cannot be recycled.
  ghost predicate Kept(buf: seq<Buf>, pins: seq<nat>, b: nat)
    requires |pins| == |buf|
  {
    exists i :: 0 <= i < |buf| && buf[i].valid && buf[i].blockno == b && (pins[i] > 0 || buf[i].lock != 0)
  }

  // Valid buffers hold the file system's view; every other block is up to date
  // on disk; a block whose view differs from the disk is pinned or locked.
  ghost predicate Agree(buf: seq<Buf>, pins: seq<nat>, view: Disk, disk: Disk) {
    && |pins| == |buf| && |view| == |disk|
    && (forall i :: 0 <= i < |buf| ==>
          || (buf[i].dev == ROOTDEV && buf[i].blockno < |disk|)
          || (buf[i].dev == 0 && !buf[i].valid && buf[i].refcnt == 0))
    && (forall i :: 0 <= i < |buf| && buf[i].valid ==> buf[i].blockno < |view| && buf[i].data == view[buf[i].blockno])
    && (forall b :: 0 <= b < |disk| && view[b] != disk[b] ==> Kept(buf, pins, b))
  }

  // Buffer b0 still caches what it cached.
  ghost predicate Stays(b0: Buf, b: Buf) {
    b.valid == b0.valid && b.dev == b0.dev && b.blockno == b0.blockno
  }

  // Nobody holds the lock of block b.
  ghost predicate Idle(buf: seq<Buf>, b: int) {
    forall i :: 0 <= i < |buf| && buf[i].dev == ROOTDEV && buf[i].blockno == b ==> buf[i].lock == 0
  }

  // Nobody has an unlogged change of block b: it is on disk or pinned.
  ghost predicate Tidy(buf: seq<Buf>, pins: seq<nat>, view: Disk, disk: Disk, b: int) {
    && |pins| == |buf| && 0 <= b < |view| == |disk|
    && (view[b] != disk[b] ==>
          exists i :: 0 <= i < |buf| && buf[i].valid && buf[i].dev == ROOTDEV && buf[i].blockno == b && pins[i] > 0)
  }

  // Every buffer is as it was or unlocked.
  ghost predicate Released(buf0: seq<Buf>, buf: seq<Buf>) {
    |buf| == |buf0| && forall i :: 0 <= i < |buf| ==> buf[i].lock == 0 || buf[i] == buf0[i]
  }

  // What a bread changed: buffer i now holds block bno, locked by pid, with one
  // more reference; no other buffer changed, and i was free or had the block.
  ghost predicate Fetched(buf0: seq<Buf>, buf: seq<Buf>, users0: seq<nat>, users: seq<nat>,
                          i: nat, pid: nat, bno: nat, view: Disk)
  {
    && |buf| == |buf0| == |users0| && i < |buf| && bno < |view|
    && buf[i].valid && Caches(buf[i], ROOTDEV, bno) && buf[i].lock == pid != 0 && buf[i].refcnt > 0
    && buf[i].data == view[bno]
    && users == users0[i := users0[i] + 1]
    && (forall j :: 0 <= j < |buf| && j != i ==> buf[j] == buf0[j])
    && (buf0[i].refcnt == 0 || Caches(buf0[i], ROOTDEV, bno))
  }

  lemma FetchedStays(buf0: seq<Buf>, buf: seq<Buf>, users0: seq<nat>, users: seq<nat>,
                     i: nat, pid: nat, bno: nat, view: Disk)
    requires Fetched(buf0, buf, users0, users, i, pid, bno, view)
    ensures forall k :: 0 <= k < |buf| && buf0[k].refcnt > 0 && buf0[k].valid ==> Stays(buf0[k], buf[k])
  {
  }

  // Two breads succeed: the first finds its block or recycles a spare buffer;
  // the second block is kept in the cache, or a second buffer is spare.
  ghost predicate Room2(buf: seq<Buf>, b: nat) {
    && (exists x :: 0 <= x < |buf| && buf[x].refcnt == 0)
    && (|| (exists y :: 0 <= y < |buf| && Caches(buf[y], ROOTDEV, b) && buf[y].refcnt > 0)
        || (exists x, y :: 0 <= x < y < |buf| && buf[x].refcnt == 0 && buf[y].refcnt == 0))
  }

  lemma RoomForFirst(buf: seq<Buf>, b: nat)
    requires Room2(buf, b)
    ensures exists x :: 0 <= x < |buf| && buf[x].refcnt == 0
  {
  }

  lemma RoomForSecond(buf0: seq<Buf>, buf: seq<Buf>, u0: seq<nat>, u: seq<nat>,
                      i: nat, pid: nat, a: nat, b: nat, view: Disk)
    requires Fetched(buf0, buf, u0, u, i, pid, a, view) && Idle(buf0, b) && Room2(buf0, b) && a != b
    ensures exists y :: 0 <= y < |buf| && (Caches(buf[y], ROOTDEV, b) || buf[y].refcnt == 0)
    ensures Idle(buf, b)
  {
    if y :| 0 <= y < |buf| && Caches(buf0[y], ROOTDEV, b) && buf0[y].refcnt > 0 {
      assert Caches(buf[y], ROOTDEV, b);
    } else {
      var x, y :| 0 <= x < y < |buf| && buf0[x].refcnt == 0 && buf0[y].refcnt == 0;
      assert buf[x].refcnt == 0 || buf[y].refcnt == 0;
    }
  }

  // What two breads of different blocks changed.
  ghost predicate Fetched2(buf0: seq<Buf>, buf: seq<Buf>, u0: seq<nat>, u: seq<nat>,
                           i: nat, j: nat, pid: nat, a: nat, b: nat, view: Disk)
  {
    && |buf| == |buf0| == |u0| && i < |buf| && j < |buf| && i != j && a < |view| && b < |view|
    && buf[i].valid && Caches(buf[i], ROOTDEV, a) && buf[i].lock == pid != 0 && buf[i].data == view[a]
    && buf[j].valid && Caches(buf[j], ROOTDEV, b) && buf[j].lock == pid && buf[j].data == view[b]
    && u == u0[i := u0[i] + 1][j := u0[j] + 1]
    && (forall k :: 0 <= k < |buf0| && k != i && k != j ==> buf[k] == buf0[k])
    && (forall k :: 0 <= k < |buf0| && buf0[k].refcnt > 0 && buf0[k].valid ==> Stays(buf0[k], buf[k]))
  }

  lemma FetchedTwice(buf0: seq<Buf>, buf1: seq<Buf>, buf2: seq<Buf>, u0: seq<nat>, u1: seq<nat>, u2: seq<nat>,
                     i: nat, j: nat, pid: nat, a: nat, b: nat, view: Disk)
    requires Fetched(buf0, buf1, u0, u1, i, pid, a, view)
    requires Fetched(buf1, buf2, u1, u2, j, pid, b, view)
    requires a != b
    ensures Fetched2(buf0, buf2, u0, u2, i, j, pid, a, b, view)
  {
  }

  lemma HeldBoth(buf0: seq<Buf>, buf: seq<Buf>, u0: seq<nat>, u: seq<nat>,
                 i: nat, j: nat, pid: nat, a: nat, b: nat, view: Disk)
    requires Fetched2(buf0, buf, u0, u, i, j, pid, a, b, view)
    ensures |buf| == |buf0| && i < |buf| && j < |buf| && i != j && a < |view| && b < |view|
    ensures |u| == |buf| && u[i] > 0 && u[j] > 0
    ensures buf[i].valid && Caches(buf[i], ROOTDEV, a) && buf[i].lock == pid != 0 && buf[i].data == view[a]
    ensures buf[j].valid && Caches(buf[j], ROOTDEV, b) && buf[j].lock == pid && buf[j].data == view[b]
  {
  }

  // ... and after both buffers were released, whatever data they carry.
  lemma ReleasedBoth(buf0: seq<Buf>, buf2: seq<Buf>, buf: seq<Buf>, u0: seq<nat>, u2: seq<nat>, u: seq<nat>,
                     i: nat, j: nat, pid: nat, a: nat, b: nat, view: Disk)
    requires Fetched2(buf0, buf2, u0, u2, i, j, pid, a, b, view)
    requires |buf| == |buf2| && |u2| == |buf2| && buf[i].lock == 0 && buf[j].lock == 0
    requires Stays(buf2[i], buf[i]) && Stays(buf2[j], buf[j])
    requires forall k :: 0 <= k < |buf| && k != i && k != j ==> buf[k] == buf2[k]
    requires u2[i] > 0 && u2[j] > 0
    requires u == u2[j := u2[j] - 1][i := u2[i] - 1] || u == u2[i := u2[i] - 1][j := u2[j] - 1]
    ensures Released(buf0, buf) && u == u0
    ensures forall k :: 0 <= k < |buf0| && buf0[k].refcnt > 0 && buf0[k].valid ==> Stays(buf0[k], buf[k])
  {
  }

  class Cache {
    // the device: its blocks, and every block write it has performed
    var disk: Disk
    ghost var writes: seq<Write>

    var buf: seq<Buf>
    var next: seq<nat>
    var prev: seq<nat>

    ghost var order: seq<nat>   // the list from head.next on
    ghost var users: seq<nat>   // per buffer: bget calls not yet matched by brelse
    ghost var pins: seq<nat>    // per buffer: bpin calls not yet matched by bunpin
    ghost var stamp: seq<nat>   // per buffer: when it last came to the front
    ghost var now: nat
    ghost var view: Disk        // what the file system sees: disk overlaid with cached changes

    ghost predicate Valid()
      reads this
    {
      && |buf| == NBUF && |order| == NBUF && |stamp| == NBUF
      && Ring(order, next, prev)
      && Recency(order, stamp, now)
      && Counted(buf, users, pins)
      && Unique(buf)
    }

    ghost function List(): Lru
      reads this
    {
      Lru(order, next, prev, stamp, now)
    }

    ghost predicate Coherent()
      reads this
    {
      Agree(buf, pins, view, disk)
    }

    lemma Facts()
      requires Valid()
      ensures |buf| == NBUF && Counted(buf, users, pins) && Unique(buf)
      ensures Coherent() ==> |view| == |disk| && forall i :: 0 <= i < NBUF && buf[i].valid ==> buf[i].blockno < |disk|
    {
    }

    ghost function PinnedBuffer(b: nat): (k: nat)
      reads this
      requires |buf| == NBUF && Tidy(buf, pins, view, disk, b) && view[b] != disk[b]
      ensures k < NBUF && pins[k] > 0 && buf[k].valid && Caches(buf[k], ROOTDEV, b)
    {
      var k :| 0 <= k < |buf| && buf[k].valid && buf[k].dev == ROOTDEV && buf[k].blockno == b && pins[k] > 0;
      k
    }

    ghost predicate Holds(i: nat, pid: nat, blockno: nat)
      reads this
    {
      && i < |buf|
      && buf[i].valid && Caches(buf[i], ROOTDEV, blockno)
      && buf[i].lock == pid != 0
    }

    // binit on a machine that has just started: nothing cached
    constructor BInit(d: Disk)
      ensures Valid() && Coherent()
      ensures disk == d == view && writes == []
      ensures forall i :: 0 <= i < NBUF ==> users[i] == 0 && pins[i] == 0
    {
      var nx: seq<nat>, pv: seq<nat> := seq(NBUF + 1, _ => NBUF), seq(NBUF + 1, _ => NBUF);
      ghost var list: seq<nat> := [];
      for b := 0 to NBUF
        invariant Linked(list, NBUF, nx, pv)
        invariant |list| == b && forall k :: 0 <= k < b ==> list[k] == b - 1 - k
      {
        InsertPrepends(list, NBUF, nx, pv, b);
        var first := nx[NBUF];
        nx := nx[b := first];
        pv := pv[b := NBUF];
        pv := pv[first := b];
        nx := nx[NBUF := b];
        list := [b] + list;
      }
      forall b | 0 <= b < NBUF ensures b in list {
        assert list[NBUF - 1 - b] == b;
      }
      next, prev, order := nx, pv, list;
      disk, writes, view := d, [], d;
      buf := seq(NBUF, _ => Buf(0, 0, false, 0, 0, seq(WORDS, _ => 0)));
      users, pins := seq(NBUF, _ => 0), seq(NBUF, _ => 0);
      stamp, now := seq(NBUF, i => i), NBUF;
    }

    // Is the block already cached?
    method FindCached(dev: nat, blockno: nat) returns (r: Option<nat>)
      requires Valid()
      ensures r.Some? ==> r.value < NBUF && Caches(buf[r.value], dev, blockno)
      ensures r.None? ==> forall i :: 0 <= i < NBUF ==> !Caches(buf[i], dev, blockno)
    {
      var b := next[NBUF];
      ghost var k := 0;
      assert Node(order, NBUF, -1) == NBUF;
      while b != NBUF
        invariant 0 <= k <= NBUF && b == Node(order, NBUF, k)
        invariant forall j :: 0 <= j < k ==> !Caches(buf[order[j]], dev, blockno)
        decreases NBUF - k
      {
        if buf[b].dev == dev && buf[b].blockno == blockno {
          return Some(b);
        }
        assert next[Node(order, NBUF, k)] == Node(order, NBUF, k + 1);
        b := next[b];
        k := k + 1;
      }
      forall i | 0 <= i < NBUF ensures !Caches(buf[i], dev, blockno) {
        assert i in order;
      }
      return None;
    }

    // The least recently used unused buffer.
    method FindUnused() returns (r: Option<nat>)
      requires Valid()
      ensures r.Some? ==> r.value < NBUF && buf[r.value].refcnt == 0
      ensures r.Some? ==> forall i :: 0 <= i < NBUF && buf[i].refcnt == 0 ==> stamp[r.value] <= stamp[i]
      ensures r.None? ==> forall i :: 0 <= i < NBUF ==> buf[i].refcnt > 0
    {
      var b := prev[NBUF];
      ghost var k := NBUF;
      assert Node(order, NBUF, NBUF) == NBUF;
      assert prev[Node(order, NBUF, NBUF)] == Node(order, NBUF, NBUF - 1);
      while b != NBUF
        invariant 0 <= k <= NBUF && b == Node(order, NBUF, k - 1)
        invariant forall j :: k <= j < NBUF ==> buf[order[j]].refcnt > 0
        decreases k
      {
        if buf[b].refcnt == 0 {
          forall i | 0 <= i < NBUF && buf[i].refcnt == 0 ensures stamp[b] <= stamp[i] {
            assert i in order;
            var j :| 0 <= j < NBUF && order[j] == i;
          }
          return Some(b);
        }
        assert prev[Node(order, NBUF, k - 1)] == Node(order, NBUF, k - 2);
        b := prev[b];
        k := k - 1;
      }
      forall i | 0 <= i < NBUF ensures buf[i].refcnt > 0 {
        assert i in order;
      }
      return None;
    }

    // bget's critical section. None is the "no buffers" panic.
    method BGet(dev: nat, blockno: nat) returns (r: Option<nat>)
      requires Valid()
      modifies this`buf, this`users
      ensures Valid()
      ensures r.None? <==> forall i :: 0 <= i < NBUF ==> !Caches(old(buf[i]), dev, blockno) && old(buf[i].refcnt) > 0
      ensures r.None? ==> buf == old(buf) && users == old(users)
      ensures r.Some? ==> r.value < NBUF && users == old(users)[r.value := old(users)[r.value] + 1]
      // a cached block is found, or the least recently released unreferenced
      // buffer is recycled
      ensures r.Some? ==> |stamp| == |old(buf)| == NBUF && Got(old(buf), stamp, dev, blockno, r.value, buf)
      ensures old(Coherent()) && dev == ROOTDEV && blockno < |disk| ==> Coherent()
    {
      hide Ring, Recency, Agree, Unique;
      r := FindCached(dev, blockno);
      if r.Some? {
        var b := r.value;
        buf := buf[b := buf[b].(refcnt := buf[b].refcnt + 1)];
        users := users[b := users[b] + 1];
        UniqueUpdate(old(buf), buf, b);
        if old(Coherent()) && dev == ROOTDEV && blockno < |disk| {
          AgreesAt(old(buf), pins, view, disk, b);
          AgreeUpdate(old(buf), buf, pins, pins, view, disk, b);
        }
        return;
      }
      r := FindUnused();
      if r.Some? {
        var b := r.value;
        buf := buf[b := buf[b].(dev := dev, blockno := blockno, valid := false, refcnt := 1)];
        users := users[b := users[b] + 1];
        UniqueUpdate(old(buf), buf, b);
        if old(Coherent()) && dev == ROOTDEV && blockno < |disk| {
          AgreesAt(old(buf), pins, view, disk, b);
          AgreeUpdate(old(buf), buf, pins, pins, view, disk, b);
        }
      }
    }

    // The sleep lock of a referenced buffer, once nobody holds it.
    method AcquireSleep(i: nat, pid: nat)
      requires Valid()
      requires i < NBUF && users[i] > 0 && buf[i].lock == 0 && pid != 0
      modifies this`buf
      ensures Valid()
      ensures buf == old(buf)[i := old(buf)[i].(lock := pid)]
      ensures old(Coherent()) ==> Coherent()
    {
      hide Ring, Recency, Agree, Unique;
      buf := buf[i := buf[i].(lock := pid)];
      UniqueUpdate(old(buf), buf, i);
      if old(Coherent()) {
        AgreesAt(old(buf), pins, view, disk, i);
        AgreeUpdate(old(buf), buf, pins, pins, view, disk, i);
      }
    }

    // virtio_disk_rw(b, 0) and b->valid = 1 in bread
    method Load(i: nat, pid: nat)
      requires Valid() && Coherent()
      requires i < NBUF && buf[i].refcnt > 0 && !buf[i].valid && buf[i].lock == pid != 0
      modifies this`buf
      ensures Valid() && Coherent()
      ensures buf[i].blockno < |view|
      ensures buf == old(buf)[i := old(buf)[i].(valid := true, data := view[old(buf)[i].blockno])]
    {
      hide Ring, Recency, Agree, Unique;
      AgreesAt(buf, pins, view, disk, i);
      NotKept(buf, pins, view, disk, i);
      buf := buf[i := buf[i].(data := disk[buf[i].blockno], valid := true)];
      UniqueUpdate(old(buf), buf, i);
      AgreeUpdate(old(buf), buf, pins, pins, view, disk, i);
    }

    // bread, up to where it waits: otherwise the contents are the disk overlaid
    // with every change not yet written back.
    method BRead(blockno: nat, pid: nat) returns (r: Fetch)
      requires Valid() && Coherent()
      requires blockno < |disk| && pid != 0
      modifies this`buf, this`users
      ensures Valid() && Coherent()
      ensures r.NoBuffers? <==>
        forall i :: 0 <= i < NBUF ==> !Caches(old(buf[i]), ROOTDEV, blockno) && old(buf[i].refcnt) > 0
      ensures r.NoBuffers? ==> buf == old(buf) && users == old(users)
      ensures r.Waits? <==> exists i :: 0 <= i < NBUF && Caches(old(buf[i]), ROOTDEV, blockno) && old(buf[i].lock) != 0
      ensures r.Waits? ==>
        && |old(buf)| == |old(users)| == NBUF && r.i < NBUF && Caches(old(buf)[r.i], ROOTDEV, blockno)
        && buf == old(buf)[r.i := old(buf)[r.i].(refcnt := old(buf)[r.i].refcnt + 1)]
        && users == old(users)[r.i := old(users)[r.i] + 1]
      ensures r.Here? ==> Fetched(old(buf), buf, old(users), users, r.i, pid, blockno, view)
    {
      hide Ring, Recency, Agree, Unique;
      var g := BGet(ROOTDEV, blockno);
      if g.None? { return NoBuffers; }
      var i := g.value;
      OnlyCached(old(buf), i, blockno);
      if buf[i].lock != 0 {
        return Waits(i);
      }
      AcquireSleep(i, pid);
      AgreesAt(buf, pins, view, disk, i);
      if !buf[i].valid {
        Load(i, pid);
      }
      return Here(i);
    }

    // A client changes b->data.
    method Modify(i: nat, pid: nat, data: Block)
      requires Valid() && Coherent()
      requires i < NBUF && Holds(i, pid, buf[i].blockno)
      modifies this`buf, this`view
      ensures Valid() && Coherent()
      ensures buf == old(buf)[i := old(buf)[i].(data := data)]
      ensures view == old(view)[buf[i].blockno := data]
    {
      buf := buf[i := buf[i].(data := data)];
      view := view[buf[i].blockno := data];
      forall b | 0 <= b < |disk| && view[b] != disk[b] ensures Kept(buf, pins, b) {
        if b != buf[i].blockno {
          assert Kept(old(buf), pins, b);
          var j :| 0 <= j < NBUF && old(buf)[j].valid && old(buf)[j].blockno == b
            && (pins[j] > 0 || old(buf)[j].lock != 0);
          assert buf[j] == old(buf)[j];
        }
      }
    }

    method BWrite(i: nat, pid: nat)
      requires Valid() && Coherent()
      requires i < NBUF && Holds(i, pid, buf[i].blockno)
      modifies this`disk, this`writes
      ensures Valid() && Coherent()
      ensures disk == old(disk)[buf[i].blockno := buf[i].data]
      ensures writes == old(writes) + [Write(buf[i].blockno, buf[i].data)]
    {
      disk := disk[buf[i].blockno := buf[i].data];
      writes := writes + [Write(buf[i].blockno, buf[i].data)];
    }

    // releasesleep: a buffer that differs from the disk must have been pinned
    method ReleaseSleep(i: nat, pid: nat)
      requires Valid() && Coherent()
      requires i < NBUF && Holds(i, pid, buf[i].blockno)
      requires pins[i] > 0 || buf[i].data == disk[buf[i].blockno]
      modifies this`buf
      ensures Valid() && Coherent()
      ensures buf == old(buf)[i := old(buf)[i].(lock := 0)]
    {
      hide Ring, Recency, Unique;
      buf := buf[i := buf[i].(lock := 0)];
      UniqueUpdate(old(buf), buf, i);
      AgreeUpdate(old(buf), buf, pins, pins, view, disk, i);
    }

    // The pointer surgery of brelse.
    method MoveFront(i: nat)
      requires |order| == NBUF && |stamp| == NBUF && i < NBUF
      requires Ring(order, next, prev) && Recency(order, stamp, now)
      modifies this`next, this`prev, this`order, this`stamp, this`now
      ensures |order| == NBUF && |stamp| == NBUF
      ensures Ring(order, next, prev) && Recency(order, stamp, now)
      ensures Relinked(old(List()), i, List())
    {
      hide Ring, Recency, MoveToFront;
      ghost var k := Position(order, next, prev, i);
      RelinkMovesToFront(order, next, prev, k);
      RecencyMove(order, stamp, now, k);
      prev := prev[next[i] := prev[i]];
      next := next[prev[i] := next[i]];
      next := next[i := next[NBUF]];
      prev := prev[i := NBUF];
      prev := prev[next[NBUF] := i];
      next := next[NBUF := i];
      order := MoveToFront(order, k);
      stamp := stamp[i := now];
      now := now + 1;
    }

    // brelse's second critical section: drop the reference, and when it was
    // the last, move the buffer to the front of the list.
    method Unref(i: nat)
      requires Valid() && Coherent()
      requires i < NBUF && users[i] > (if buf[i].lock != 0 then 1 else 0)
      modifies this`buf, this`users, this`next, this`prev, this`order, this`stamp, this`now
      ensures Valid() && Coherent()
      ensures buf == old(buf)[i := old(buf)[i].(refcnt := old(buf)[i].refcnt - 1)]
      ensures users == old(users)[i := old(users)[i] - 1]
      ensures if old(buf[i].refcnt) == 1 then Relinked(old(List()), i, List()) else List() == old(List())
    {
      hide Ring, Recency, Agree, Unique, MoveToFront, Relinked;
      AgreesAt(buf, pins, view, disk, i);
      buf := buf[i := buf[i].(refcnt := buf[i].refcnt - 1)];
      users := users[i := users[i] - 1];
      UniqueUpdate(old(buf), buf, i);
      AgreeUpdate(old(buf), buf, pins, pins, view, disk, i);
      if buf[i].refcnt == 0 {
        MoveFront(i);
      }
    }

    method BRelse(i: nat, pid: nat)
      requires Valid() && Coherent()
      requires i < NBUF && Holds(i, pid, buf[i].blockno)
      requires pins[i] > 0 || buf[i].data == disk[buf[i].blockno]
      modifies this`buf, this`users, this`next, this`prev, this`order, this`stamp, this`now
      ensures Valid() && Coherent()
      ensures buf == old(buf)[i := old(buf)[i].(lock := 0, refcnt := old(buf)[i].refcnt - 1)]
      ensures users == old(users)[i := old(users)[i] - 1]
    {
      ReleaseSleep(i, pid);
      Unref(i);
    }

    // Two breads in a row.
    method BRead2(a: nat, b: nat, pid: nat) returns (i: nat, j: nat)
      requires Valid() && Coherent()
      requires a < |disk| && b < |disk| && a != b && pid != 0
      requires Idle(buf, a) && Idle(buf, b) && Room2(buf, b)
      requires Tidy(buf, pins, view, disk, a) && Tidy(buf, pins, view, disk, b)
      modifies this`buf, this`users
      ensures Valid() && Coherent()
      ensures Fetched2(old(buf), buf, old(users), users, i, j, pid, a, b, view)
      ensures pins[i] > 0 || view[a] == disk[a]
      ensures pins[j] > 0 || view[b] == disk[b]
    {
      hide Valid, Coherent, Unique, Fetched, Room2, Fetched2, Idle, Tidy, Counted;
      Facts();
      NobodyThere(buf, a);
      ghost var k0 := if view[a] != disk[a] then PinnedBuffer(a) else 0;
      ghost var k := if view[b] != disk[b] then PinnedBuffer(b) else 0;
      RoomForFirst(buf, b);
      var r := BRead(a, pid);
      i := r.i;
      ghost var buf1, users1 := buf, users;
      RoomForSecond(old(buf), buf, old(users), users, i, pid, a, b, view);
      NobodyThere(buf, b);
      Facts();
      r := BRead(b, pid);
      j := r.i;
      Facts();
      FetchedTwice(old(buf), buf1, buf, old(users), users1, users, i, j, pid, a, b, view);
      if view[a] != disk[a] {
        StaysPinned(old(buf), buf, old(users), users, i, j, pid, a, b, view, a, k0);
      }
      if view[b] != disk[b] {
        StaysPinned(old(buf), buf, old(users), users, i, j, pid, a, b, view, b, k);
      }
    }

    // memmove(to->data, from->data, BSIZE); bwrite(to);
    method CopyOut(from: nat, to: nat, pid: nat)
      requires Valid() && Coherent()
      requires from < NBUF && to < NBUF
      requires Holds(from, pid, buf[from].blockno) && Holds(to, pid, buf[to].blockno)
      modifies this`buf, this`view, this`disk, this`writes
      ensures Valid() && Coherent()
      ensures buf == old(buf)[to := old(buf)[to].(data := old(buf)[from].data)]
      ensures buf[to].blockno < |old(view)| && buf[to].blockno < |old(disk)|
      ensures view == old(view)[buf[to].blockno := buf[to].data]
      ensures disk == old(disk)[buf[to].blockno := buf[to].data]
      ensures writes == old(writes) + [Write(buf[to].blockno, buf[to].data)]
    {
      hide Valid, Coherent;
      Facts();
      Modify(to, pid, buf[from].data);
      BWrite(to, pid);
    }

    // brelse of two buffers
    method BRelse2(i: nat, j: nat, pid: nat)
      requires Valid() && Coherent()
      requires i < NBUF && j < NBUF && i != j
      requires Holds(i, pid, buf[i].blockno) && Holds(j, pid, buf[j].blockno)
      requires pins[i] > 0 || buf[i].data == disk[buf[i].blockno]
      requires pins[j] > 0 || buf[j].data == disk[buf[j].blockno]
      modifies this`buf, this`users, this`next, this`prev, this`order, this`stamp, this`now
      ensures Valid() && Coherent()
      ensures users == old(users)[i := old(users)[i] - 1][j := old(users)[j] - 1]
      ensures buf == old(buf)[i := old(buf)[i].(lock := 0, refcnt := old(buf)[i].refcnt - 1)]
                             [j := old(buf)[j].(lock := 0, refcnt := old(buf)[j].refcnt - 1)]
    {
      BRelse(i, pid);
      BRelse(j, pid);
    }

    // The body of write_log's loop: read both blocks, copy b over a, write a,
    // release both.
    method CopyBlock(a: nat, b: nat, pid: nat)
      requires Valid() && Coherent()
      requires a < |disk| && b < |disk| && a != b && pid != 0
      requires Idle(buf, a) && Idle(buf, b) && Room2(buf, b)
      requires Tidy(buf, pins, view, disk, a) && Tidy(buf, pins, view, disk, b)
      modifies this
      ensures Valid() && Coherent() && Released(old(buf), buf)
      ensures users == old(users) && pins == old(pins)
      ensures |disk| == |view| == |old(disk)| == |old(view)|
      ensures view == old(view)[a := old(view[b])]
      ensures disk == old(disk)[a := old(view[b])]
      ensures writes == old(writes) + [Write(a, old(view[b]))]
      ensures forall k :: 0 <= k < NBUF && old(buf[k].refcnt) > 0 && old(buf[k].valid) ==> Stays(old(buf[k]), buf[k])
    {
      hide Valid, Coherent, Unique, Fetched2, Room2, Counted;
      Facts();
      var i, j := BRead2(a, b, pid);
      ghost var buf2, u2 := buf, users;
      HeldBoth(old(buf), buf, old(users), users, i, j, pid, a, b, view);
      CopyOut(j, i, pid);
      BRelse2(j, i, pid);
      ReleasedBoth(old(buf), buf2, buf, old(users), u2, users, i, j, pid, a, b, old(view));
      Facts();
    }

    // The body of install_trans's loop: read both blocks, copy a over b, write
    // b, unpin it unless recovering, release both.
    method InstallBlock(a: nat, b: nat, unpin: bool, pid: nat, ghost k: nat)
      requires Valid() && Coherent()
      requires a < |disk| && b < |disk| && a != b && pid != 0
      requires Idle(buf, a) && Idle(buf, b) && Room2(buf, b)
      requires Tidy(buf, pins, view, disk, a) && Tidy(buf, pins, view, disk, b)
      requires unpin ==> k < NBUF && buf[k].valid && Caches(buf[k], ROOTDEV, b) && pins[k] > 0
      modifies this
      ensures Valid() && Coherent() && Released(old(buf), buf)
      ensures users == old(users) && |pins| == |old(pins)| == NBUF
      ensures pins == if unpin then old(pins)[k := old(pins)[k] - 1] else old(pins)
      ensures |disk| == |view| == |old(disk)| == |old(view)|
      ensures view == old(view)[b := old(view[a])]
      ensures disk == old(disk)[b := old(view[a])]
      ensures writes == old(writes) + [Write(b, old(view[a]))]
      ensures forall k :: 0 <= k < NBUF && old(buf[k].refcnt) > 0 && old(buf[k].valid) ==> Stays(old(buf[k]), buf[k])
    {
      hide Valid, Coherent, Unique, Fetched2, Room2, Counted;
      Facts();
      CountedAt(buf, users, pins, if unpin then k else 0);
      var i, j := BRead2(a, b, pid);
      ghost var buf2, u2 := buf, users;
      HeldBoth(old(buf), buf, old(users), users, i, j, pid, a, b, view);
      Facts();
      if unpin {
        StaysPinned(old(buf), buf, old(users), users, i, j, pid, a, b, view, b, k);
      }
      CopyOut(i, j, pid);
      if unpin {
        BUnpin(j);
      }
      BRelse2(i, j, pid);
      ReleasedBoth(old(buf), buf2, buf, old(users), u2, users, i, j, pid, a, b, old(view));
      Facts();
    }

    // Store a whole block through a buffer obtained by bread.
    method StoreBlock(i: nat, data: Block, pid: nat)
      requires Valid() && Coherent()
      requires i < NBUF && Holds(i, pid, buf[i].blockno)
      modifies this
      ensures Valid() && Coherent() && |buf| == |old(buf)|
      ensures |view| == |disk| == |old(disk)| == |old(view)|
      ensures pins == old(pins) && |users| == |old(users)| == NBUF && users == old(users)[i := old(users)[i] - 1]
      ensures buf[i].lock == 0 && Stays(old(buf[i]), buf[i])
      ensures forall k :: 0 <= k < NBUF && k != i ==> buf[k] == old(buf[k])
      ensures buf[i].blockno < |disk|
      ensures view == old(view)[buf[i].blockno := data]
      ensures disk == old(disk)[buf[i].blockno := data]
      ensures writes == old(writes) + [Write(buf[i].blockno, data)]
    {
      hide Valid, Coherent, Unique;
      Facts();
      Modify(i, pid, data);
      BWrite(i, pid);
      BRelse(i, pid);
      Facts();
    }

    method BPin(i: nat)
      requires Valid() && Coherent()
      requires i < NBUF && users[i] > 0
      modifies this`buf, this`pins
      ensures Valid() && Coherent()
      ensures buf == old(buf)[i := old(buf)[i].(refcnt := old(buf)[i].refcnt + 1)]
      ensures pins == old(pins)[i := old(pins)[i] + 1]
    {
      hide Ring, Recency, Agree, Unique;
      AgreesAt(buf, pins, view, disk, i);
      buf := buf[i := buf[i].(refcnt := buf[i].refcnt + 1)];
      UniqueUpdate(old(buf), buf, i);
      pins := pins[i := pins[i] + 1];
      AgreeUpdate(old(buf), buf, old(pins), pins, view, disk, i);
    }

    method BUnpin(i: nat)
      requires Valid() && Coherent()
      requires i < NBUF && pins[i] > 0
      requires buf[i].lock != 0 || buf[i].data == disk[buf[i].blockno]
      modifies this`buf, this`pins
      ensures Valid() && Coherent()
      ensures buf == old(buf)[i := old(buf)[i].(refcnt := old(buf)[i].refcnt - 1)]
      ensures pins == old(pins)[i := old(pins)[i] - 1]
    {
      hide Ring, Recency, Agree, Unique;
      AgreesAt(buf, pins, view, disk, i);
      buf := buf[i := buf[i].(refcnt := buf[i].refcnt - 1)];
      UniqueUpdate(old(buf), buf, i);
      pins := pins[i := pins[i] - 1];
      AgreeUpdate(old(buf), buf, old(pins), pins, view, disk, i);
    }
  }

  lemma Position(order: seq<nat>, next: seq<nat>, prev: seq<nat>, b: nat) returns (k: nat)
    requires Ring(order, next, prev) && b < |order|
    ensures k < |order| && order[k] == b
    ensures |next| == |prev| == |order| + 1
    ensures forall i, j :: 0 <= i < j < |order| ==> order[i] != order[j]
  {
    assert b in order;
    k :| 0 <= k < |order| && order[k] == b;
  }

  lemma CountedAt(buf: seq<Buf>, users: seq<nat>, pins: seq<nat>, i: nat)
    requires Counted(buf, users, pins) && i < |buf|
    ensures |users| == |pins| == |buf| && buf[i].refcnt == users[i] + pins[i]
  {
  }

  // Buffer b keeps its block or takes one that nobody else caches.
  lemma UniqueUpdate(buf0: seq<Buf>, buf: seq<Buf>, b: nat)
    requires Unique(buf0) && b < |buf0| == |buf| && buf == buf0[b := buf[b]]
    requires Caches(buf0[b], buf[b].dev, buf[b].blockno)
          || (forall i :: 0 <= i < |buf0| ==> !Caches(buf0[i], buf[b].dev, buf[b].blockno))
    ensures Unique(buf)
  {
  }

  lemma OnlyOne(buf: seq<Buf>, i: nat, j: nat, b: nat)
    requires Unique(buf) && i < |buf| && j < |buf|
    requires Caches(buf[i], ROOTDEV, b) && Caches(buf[j], ROOTDEV, b)
    ensures i == j
  {
  }

  // The buffer that caches a block is the only one.
  lemma OnlyCached(buf: seq<Buf>, i: nat, b: nat)
    requires Unique(buf) && i < |buf|
    ensures Caches(buf[i], ROOTDEV, b) ==> forall j :: 0 <= j < |buf| && j != i ==> !Caches(buf[j], ROOTDEV, b)
  {
  }

  lemma NobodyThere(buf: seq<Buf>, b: nat)
    requires Idle(buf, b)
    ensures forall i :: 0 <= i < |buf| && Caches(buf[i], ROOTDEV, b) ==> buf[i].lock == 0
  {
  }

  lemma StaysPinned(buf0: seq<Buf>, buf: seq<Buf>, u0: seq<nat>, u: seq<nat>,
                    i: nat, j: nat, pid: nat, a: nat, b: nat, view: Disk, c: nat, k: nat)
    requires Fetched2(buf0, buf, u0, u, i, j, pid, a, b, view) && Unique(buf)
    requires k < |buf0| && buf0[k].refcnt > 0 && buf0[k].valid && Caches(buf0[k], ROOTDEV, c)
    ensures c == a ==> i == k
    ensures c == b ==> j == k
  {
    if c == a { OnlyOne(buf, i, k, a); }
    if c == b { OnlyOne(buf, j, k, b); }
  }

  lemma AgreesAt(buf: seq<Buf>, pins: seq<nat>, view: Disk, disk: Disk, i: nat)
    requires Agree(buf, pins, view, disk) && i < |buf|
    ensures |view| == |disk| && |pins| == |buf|
    ensures buf[i].valid || buf[i].refcnt > 0 ==> buf[i].dev == ROOTDEV && buf[i].blockno < |disk|
    ensures buf[i].valid ==> buf[i].data == view[buf[i].blockno]
  {
  }

  // A referenced buffer that is not valid is the only one for its block, so
  // the disk is up to date there.
  lemma NotKept(buf: seq<Buf>, pins: seq<nat>, view: Disk, disk: Disk, i: nat)
    requires Agree(buf, pins, view, disk) && Unique(buf) && i < |buf|
    requires buf[i].refcnt > 0 && !buf[i].valid
    ensures buf[i].blockno < |disk| && view[buf[i].blockno] == disk[buf[i].blockno]
  {
  }

  // Only buffer b (and its pin count) changed: agreement survives unless that
  // buffer was what kept a changed block.
  lemma AgreeUpdate(buf0: seq<Buf>, buf: seq<Buf>, pins0: seq<nat>, pins: seq<nat>, view: Disk, disk: Disk, b: nat)
    requires Agree(buf0, pins0, view, disk)
    requires b < |buf0| == |buf| == |pins|
    requires buf == buf0[b := buf[b]] && pins == pins0[b := pins[b]]
    requires buf[b].dev == ROOTDEV && buf[b].blockno < |disk|
    requires buf[b].valid ==> buf[b].data == view[buf[b].blockno]
    requires buf0[b].valid && (pins0[b] > 0 || buf0[b].lock != 0) && view[buf0[b].blockno] != disk[buf0[b].blockno] ==>
      buf[b].valid && buf[b].blockno == buf0[b].blockno && (pins[b] > 0 || buf[b].lock != 0)
    ensures Agree(buf, pins, view, disk)
  {
    forall c | 0 <= c < |disk| && view[c] != disk[c] ensures Kept(buf, pins, c) {
      assert Kept(buf0, pins0, c);
      var i :| 0 <= i < |buf0| && buf0[i].valid && buf0[i].blockno == c && (pins0[i] > 0 || buf0[i].lock != 0);
      assert buf[i].valid && buf[i].blockno == c && (pins[i] > 0 || buf[i].lock != 0);
    }
  }
}
