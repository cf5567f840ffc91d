/**
 Whole runs of the virtio disk driver (kernel/virtio_disk.c): requests, the
 device, interrupts and completions in any order. Ring indices are 16 bit and
 wrap around; the device takes posted chains in order, completes them in any
 order, and carries out whatever the descriptors say.
 */
module VirtioRun {
  import opened Finite
  import opened Virtio
  import opened Options

  type Block = seq<nat>

  // ---------------------------------------------------------------- rings

  // A ring with the index up to which its reader has read and the index up to
  // which its writer has written; q are the entries in between.
  datatype Ring = Ring(slots: seq<nat>, head: nat, tail: nat, q: seq<nat>)

  function At(i: nat, k: nat): (j: nat)
    ensures j < NUM
  {
    (i + k) % NUM
  }

  ghost predicate RingOk(r: Ring) {
    && |r.slots| == NUM && r.head < WRAP && r.tail < WRAP && |r.q| <= NUM && NoDup(r.q)
    && r.tail == (r.head + |r.q|) % WRAP
    && forall k :: 0 <= k < |r.q| ==> r.slots[At(r.head, k)] == r.q[k]
  }

  // ring[idx % NUM] = h; idx += 1
  function Put(r: Ring, h: nat): Ring
    requires |r.slots| == NUM
  {
    Ring(r.slots[r.tail % NUM := h], r.head, (r.tail + 1) % WRAP, r.q + [h])
  }

  // The reader's index moves on.
  function Drop(r: Ring): Ring
    requires r.q != []
  {
    Ring(r.slots, (r.head + 1) % WRAP, r.tail, r.q[1..])
  }

  lemma Distinct(i: nat, j: nat, k: nat)
    requires j < NUM && k < NUM && At(i, j) == At(i, k)
    ensures j == k
  {
  }

  lemma TailAt(i: nat, n: nat)
    requires i < WRAP && n <= NUM
    ensures (i + n) % WRAP % NUM == At(i, n)
    ensures (i + n) % WRAP == i <==> n == 0
    ensures ((i + n) % WRAP + 1) % WRAP == (i + n + 1) % WRAP
    ensures n > 0 ==> (i + n) % WRAP == ((i + 1) % WRAP + (n - 1)) % WRAP
  {
  }

  // A new entry overwrites no unread one.
  lemma PutOk(r: Ring, h: nat)
    requires RingOk(r) && |r.q| < NUM && h !in r.q
    ensures RingOk(Put(r, h)) && forall k :: 0 <= k < |r.q| ==> Put(r, h).slots[At(r.head, k)] == r.slots[At(r.head, k)]
  {
    TailAt(r.head, |r.q|);
    forall k | 0 <= k < |r.q| ensures At(r.head, k) != r.tail % NUM {
      if At(r.head, k) == At(r.head, |r.q|) {
        Distinct(r.head, k, |r.q|);
      }
    }
  }

  // Different indices mean that there is an unread entry.
  lemma DropOk(r: Ring)
    requires RingOk(r) && r.head != r.tail
    ensures r.q != [] && r.slots[r.head % NUM] == r.q[0] && RingOk(Drop(r))
    ensures r.q[0] in r.q && r.q[0] !in Drop(r).q && forall x :: x != r.q[0] ==> (x in Drop(r).q <==> x in r.q)
  {
    TailAt(r.head, |r.q|);
    assert At(r.head, 0) == r.head % NUM;
    hide At;
    assert r.q == [r.q[0]] + r.q[1..];
    var i, q := (r.head + 1) % WRAP, r.q[1..];
    forall k | 0 <= k < |q| ensures r.slots[At(i, k)] == q[k] {
      AtNext(r.head, k);
      assert r.slots[At(r.head, k + 1)] == r.q[k + 1];
    }
  }

  lemma AtNext(i: nat, k: nat)
    ensures At((i + 1) % WRAP, k) == At(i, k + 1)
  {
  }

  // ---------------------------------------------------------------- state

  datatype Op = Op(write: bool, sector: nat)

  datatype Phase = Posted | Taken | Done | Seen

  // A request in virtio_disk_rw, known by its first descriptor.
  datatype Req = Req(b: nat, blockno: nat, write: bool, i1: nat, i2: nat, phase: Phase)

  // Descriptors and what hangs on them; use says which request a descriptor
  // belongs to.
  datatype Table = Table(free: seq<bool>, desc: seq<Desc>, ops: seq<Op>, info: seq<Option<nat>>, use: seq<Option<nat>>)

  // Contents of the buffers and of the disk.
  datatype Store = Store(data: map<nat, Block>, disk: map<nat, Block>)

  // busy are the buffers with b->disk == 1, taken the chains the device works
  // on, byBuf the request of each buffer that has one. Lost stands for a panic
  // and for a chain the device cannot make sense of.
  datatype State = State(t: Table, status: seq<nat>, avail: Ring, used: Ring, busy: set<nat>, store: Store,
                         taken: set<nat>, reqs: map<nat, Req>, byBuf: map<nat, nat>, lost: bool)

  predicate Sizes(s: State) {
    && |s.t.free| == |s.t.desc| == |s.t.ops| == |s.t.info| == |s.t.use| == |s.status| == NUM
    && |s.avail.slots| == |s.used.slots| == NUM
  }

  // b->blockno * (BSIZE / 512) in 32 bits
  function Sector(blockno: nat): nat {
    blockno * 2 % 0x1_0000_0000
  }

  // Every block below 2^31 has its two sectors to itself; from there on they are
  // those of another block.
  lemma SectorExact(b: nat, c: nat)
    requires b < 0x1_0000_0000 && c < 0x1_0000_0000
    ensures Sector(b) == b * 2 <==> b < 0x8000_0000
    ensures b >= 0x8000_0000 ==> Sector(b) == Sector(b - 0x8000_0000)
    ensures b < 0x8000_0000 && c < 0x8000_0000 && b != c ==> Sector(b) + 2 <= Sector(c) || Sector(c) + 2 <= Sector(b)
  {
  }

  function Get(m: map<nat, Block>, k: nat): Block {
    if k in m then m[k] else []
  }

  // ---------------------------------------------------------------- steps

  // The three descriptors of a request, formatted
  function Format(t: Table, r: Req, h: nat): Table
    requires |t.free| == |t.desc| == |t.ops| == |t.info| == |t.use| == NUM && h < NUM && r.i1 < NUM && r.i2 < NUM
  {
    Table(t.free[h := false][r.i1 := false][r.i2 := false],
          t.desc[h := Desc(OpAt(h), 16, F_NEXT, r.i1)]
                [r.i1 := Desc(DataAt(r.b), 1024, (if r.write then 0 else F_WRITE) + F_NEXT, r.i2)]
                [r.i2 := Desc(StatusAt(h), 1, F_WRITE, 0)],
          t.ops[h := Op(r.write, Sector(r.blockno))],
          t.info[h := Some(r.b)],
          t.use[h := Some(h)][r.i1 := Some(h)][r.i2 := Some(h)])
  }

  // virtio_disk_rw up to the notification, with the descriptors alloc3_desc found
  function Submit(s: State, r: Req, h: nat): State
    requires Sizes(s) && h < NUM && r.i1 < NUM && r.i2 < NUM
  {
    s.(t := Format(s.t, r, h), status := s.status[h := 0xff], avail := Put(s.avail, h), busy := s.busy + {r.b},
       reqs := s.reqs[h := r], byBuf := s.byBuf[r.b := h])
  }

  // The device reads the next avail entry.
  function Take(s: State): State
    requires Sizes(s)
  {
    var h := s.avail.slots[s.avail.head % NUM];
    if h !in s.reqs || s.avail.q == [] then s.(lost := true)
    else s.(avail := Drop(s.avail), taken := s.taken + {h}, reqs := s.reqs[h := s.reqs[h].(phase := Taken)])
  }

  // What chain h tells the device to do: the operation, the buffer, the status byte.
  datatype Command = Command(op: Op, b: nat, status: nat)

  function Decode(t: Table, h: nat): Option<Command>
    requires |t.desc| == |t.ops| == NUM
  {
    if h >= NUM || !t.desc[h].addr.OpAt? || t.desc[h].addr.i >= NUM then None
    else if t.desc[h].flags % 2 == 0 || t.desc[h].next >= NUM then None
    else var d1, op := t.desc[t.desc[h].next], t.ops[t.desc[h].addr.i];
         if !d1.addr.DataAt? || d1.flags % 2 == 0 || d1.next >= NUM || (d1.flags / 2 % 2 == 1) == op.write then None
         else var d2 := t.desc[d1.next];
              if !d2.addr.StatusAt? || d2.addr.k >= NUM || d2.flags != F_WRITE then None
              else Some(Command(op, d1.addr.b, d2.addr.k))
  }

  function Carry(m: Store, c: Command): Store {
    if c.op.write then m.(disk := m.disk[c.op.sector := Get(m.data, c.b)])
    else m.(data := m.data[c.b := Get(m.disk, c.op.sector)])
  }

  // The device carries out chain h and reports it in the used ring.
  function Complete(s: State, h: nat): State
    requires Sizes(s)
  {
    var c := Decode(s.t, h);
    if c == None || h !in s.reqs || c.value.status >= NUM then s.(lost := true)
    else s.(store := Carry(s.store, c.value), status := s.status[c.value.status := 0], used := Put(s.used, h),
            taken := s.taken - {h}, reqs := s.reqs[h := s.reqs[h].(phase := Done)])
  }

  // One round of virtio_disk_intr's loop.
  function Interrupt(s: State): State
    requires Sizes(s)
  {
    var id := s.used.slots[s.used.head % NUM];
    if id >= NUM || s.status[id] != 0 || s.t.info[id] == None || id !in s.reqs || s.used.q == [] then s.(lost := true)
    else s.(busy := s.busy - {s.t.info[id].value}, used := Drop(s.used),
            reqs := s.reqs[id := s.reqs[id].(phase := Seen)])
  }

  // free_chain(h) over three descriptors; None is its panic.
  function Release(t: Table, h: nat): Option<Table>
    requires |t.free| == |t.desc| == |t.ops| == |t.info| == |t.use| == NUM && h < NUM
  {
    var i1 := t.desc[h].next;
    if i1 >= NUM || t.desc[i1].next >= NUM then None
    else var i2 := t.desc[i1].next;
         if t.free[h] || t.free[i1] || t.free[i2] || i1 == h || i2 == h || i1 == i2
            || t.desc[h].flags % 2 == 0 || t.desc[i1].flags % 2 == 0 || t.desc[i2].flags % 2 == 1 then None
         else Some(Table(t.free[h := true][i1 := true][i2 := true], t.desc[h := CLEAR][i1 := CLEAR][i2 := CLEAR], t.ops,
                         t.info[h := None], t.use[h := None][i1 := None][i2 := None]))
  }

  // virtio_disk_rw after b->disk == 0
  function Finish(s: State, h: nat): State
    requires Sizes(s) && h in s.reqs && h < NUM
  {
    var t := Release(s.t, h);
    if t == None then s.(lost := true)
    else s.(t := t.value, reqs := s.reqs - {h}, byBuf := s.byBuf - {s.reqs[h].b})
  }

  datatype Action =
    | DoSubmit(b: nat, blockno: nat, write: bool, idx: seq<nat>)
    | DoTake
    | DoComplete(h: nat)
    | DoInterrupt
    | DoFinish(h: nat)
    | DoFill(b: nat, v: Block)      // the holder of the buffer changes its data

  ghost predicate Next(s: State, s': State, a: Action) {
    && Sizes(s)
    && match a
       case DoSubmit(b, blockno, write, idx) =>
         // the caller holds the buffer's lock
         b !in s.byBuf && |idx| == 3 && Lowest(s.t.free, idx)
         && s' == Submit(s, Req(b, blockno, write, idx[1], idx[2], Posted), idx[0])
       case DoTake => s.avail.head != s.avail.tail && s' == Take(s)
       case DoComplete(h) => h in s.taken && s' == Complete(s, h)
       case DoInterrupt => s.used.head != s.used.tail && s' == Interrupt(s)
       case DoFinish(h) => h in s.reqs && h < NUM && s.reqs[h].b !in s.busy && s' == Finish(s, h)
       case DoFill(b, v) => b !in s.byBuf && s' == s.(store := s.store.(data := s.store.data[b := v]))
  }

  ghost predicate Init(s: State) {
    && |s.t.free| == |s.t.desc| == |s.t.ops| == |s.t.info| == |s.t.use| == |s.status| == NUM
    && (forall d :: 0 <= d < NUM ==> s.t.free[d] && s.t.desc[d] == CLEAR && s.t.use[d] == None && s.t.info[d] == None)
    && |s.avail.slots| == |s.used.slots| == NUM
    && s.avail.head == s.avail.tail == s.used.head == s.used.tail == 0 && s.avail.q == s.used.q == []
    && s.busy == {} && s.taken == {} && s.reqs == map[] && s.byBuf == map[] && !s.lost
  }

  // ---------------------------------------------------------------- invariant

  // The chain of request h is complete and says what was asked for.
  ghost predicate ChainOk(t: Table, h: nat, r: Req)
    requires |t.free| == |t.desc| == |t.ops| == |t.info| == |t.use| == NUM
  {
    && h < NUM && r.i1 < NUM && r.i2 < NUM && h != r.i1 && h != r.i2 && r.i1 != r.i2
    && t.use[h] == t.use[r.i1] == t.use[r.i2] == Some(h)
    && t.desc[h] == Desc(OpAt(h), 16, F_NEXT, r.i1)
    && t.desc[r.i1] == Desc(DataAt(r.b), 1024, (if r.write then 0 else F_WRITE) + F_NEXT, r.i2)
    && t.desc[r.i2] == Desc(StatusAt(h), 1, F_WRITE, 0)
    && t.ops[h] == Op(r.write, Sector(r.blockno)) && t.info[h] == Some(r.b)
  }

  // Where request h is and what its buffer's flag says.
  ghost predicate PhaseOk(s: State, h: nat, r: Req)
    requires |s.status| == NUM && h < NUM
  {
    && s.status[h] == (if r.phase == Done || r.phase == Seen then 0 else 0xff)
    && r.b in s.byBuf && s.byBuf[r.b] == h
    && (r.b in s.busy <==> r.phase != Seen)
    && (h in s.avail.q <==> r.phase == Posted) && (h in s.taken <==> r.phase == Taken)
    && (h in s.used.q <==> r.phase == Done)
  }

  ghost predicate UseOk(t: Table, reqs: map<nat, Req>, d: nat)
    requires |t.free| == |t.desc| == |t.use| == |t.info| == NUM && d < NUM
  {
    && (t.info[d].Some? ==> d in reqs)
    && (t.free[d] <==> t.use[d] == None)
    && (t.free[d] ==> t.desc[d] == CLEAR)
    && (t.use[d].Some? ==>
          && t.use[d].value in reqs
          && (d == t.use[d].value || d == reqs[t.use[d].value].i1 || d == reqs[t.use[d].value].i2))
  }

  // The descriptor table matches the requests.
  ghost predicate TableOk(t: Table, reqs: map<nat, Req>) {
    && |t.free| == |t.desc| == |t.ops| == |t.info| == |t.use| == NUM
    && (forall h :: h in reqs ==> ChainOk(t, h, reqs[h]))
    && (forall d: nat :: d < NUM ==> UseOk(t, reqs, d))
  }

  ghost predicate PhasesOk(s: State) {
    && |s.status| == NUM
    && (forall h :: h in s.reqs ==> h < NUM && PhaseOk(s, h, s.reqs[h]))
    && (forall h :: h in s.avail.q || h in s.used.q || h in s.taken ==> h in s.reqs)
    && (forall b :: b in s.byBuf ==> s.byBuf[b] in s.reqs && s.reqs[s.byBuf[b]].b == b)
    && (forall b :: b in s.busy ==> b in s.byBuf)
  }

  ghost predicate Inv(s: State) {
    Sizes(s) && RingOk(s.avail) && RingOk(s.used) && !s.lost && TableOk(s.t, s.reqs) && PhasesOk(s)
  }

  // ---------------------------------------------------------------- every step keeps it

  // Chain heads are different descriptors, so one more entry always fits.
  lemma NewHead(r: Ring, reqs: map<nat, Req>, h: nat)
    requires RingOk(r) && h !in r.q && h < NUM && (forall x :: x in r.q ==> x in reqs)
    requires forall x :: x in reqs ==> x < NUM
    ensures |r.q| < NUM
  {
    var q := r.q + [h];
    forall k | 0 <= k < |q| ensures q[k] < NUM {
      assert k < |r.q| ==> r.q[k] in r.q;
    }
    if |q| > NUM {
      Full(q, NUM);
    }
  }

  lemma FreshHead(t: Table, reqs: map<nat, Req>, i: nat)
    requires TableOk(t, reqs) && i < NUM && t.free[i]
    ensures i !in reqs && forall x :: x in reqs ==> reqs[x].i1 != i && reqs[x].i2 != i
  {
    assert UseOk(t, reqs, i);
    forall x | x in reqs ensures x != i && reqs[x].i1 != i && reqs[x].i2 != i {
      assert ChainOk(t, x, reqs[x]);
    }
  }

  lemma FormatOk(t: Table, reqs: map<nat, Req>, r: Req, h: nat)
    requires TableOk(t, reqs) && h < r.i1 < r.i2 < NUM && t.free[h] && t.free[r.i1] && t.free[r.i2]
    ensures h !in reqs && TableOk(Format(t, r, h), reqs[h := r])
  {
    var t', reqs' := Format(t, r, h), reqs[h := r];
    FreshHead(t, reqs, h);
    FreshHead(t, reqs, r.i1);
    FreshHead(t, reqs, r.i2);
    forall x | x in reqs' ensures ChainOk(t', x, reqs'[x]) {
      if x != h {
        assert ChainOk(t, x, reqs[x]);
      }
    }
    forall d: nat | d < NUM ensures UseOk(t', reqs', d) {
      assert UseOk(t, reqs, d);
    }
  }

  lemma SubmitPhases(s: State, s': State, r: Req, h: nat)
    requires Sizes(s) && PhasesOk(s) && h < NUM && r.i1 < NUM && r.i2 < NUM && h !in s.reqs && r.b !in s.byBuf
    requires r.phase == Posted
    requires s' == Submit(s, r, h)
    ensures PhasesOk(s')
  {
    hide Format, RingOk;
    forall x | x in s'.reqs ensures x < NUM && PhaseOk(s', x, s'.reqs[x]) {
      if x != h {
        assert PhaseOk(s, x, s.reqs[x]);
      }
    }
  }

  lemma SubmitKeeps(s: State, r: Req, h: nat)
    requires Inv(s) && r.b !in s.byBuf && r.phase == Posted
    requires h < r.i1 < r.i2 < NUM && s.t.free[h] && s.t.free[r.i1] && s.t.free[r.i2]
    ensures Inv(Submit(s, r, h)) && |s.avail.q| < NUM && h !in s.avail.q
  {
    FormatOk(s.t, s.reqs, r, h);
    NewHead(s.avail, s.reqs, h);
    PutOk(s.avail, h);
    SubmitPhases(s, Submit(s, r, h), r, h);
    hide TableOk, PhasesOk, RingOk;
  }

  // A request goes from one phase to the next: the others do not notice.
  ghost predicate PhaseStep(s: State, s': State, h: nat, to: Phase) {
    && |s.status| == |s'.status| == NUM && h in s.reqs && s'.byBuf == s.byBuf
    && s'.reqs == s.reqs[h := s.reqs[h].(phase := to)]
    && (forall x: nat :: x < NUM && x != h ==> s'.status[x] == s.status[x])
    && (forall b :: b != s.reqs[h].b ==> (b in s'.busy <==> b in s.busy))
    && (forall x :: x != h ==>
          && (x in s'.avail.q <==> x in s.avail.q) && (x in s'.taken <==> x in s.taken)
          && (x in s'.used.q <==> x in s.used.q))
  }

  lemma PhaseKeeps(s: State, s': State, h: nat, to: Phase)
    requires PhaseStep(s, s', h, to) && PhasesOk(s) && h < NUM && PhaseOk(s', h, s'.reqs[h])
    ensures PhasesOk(s')
  {
    forall x | x in s'.reqs ensures x < NUM && PhaseOk(s', x, s'.reqs[x]) {
      assert PhaseOk(s, x, s.reqs[x]);
    }
  }

  // Phases do not matter to the descriptor table.
  lemma PhaseTable(t: Table, reqs: map<nat, Req>, h: nat, to: Phase)
    requires TableOk(t, reqs) && h in reqs
    ensures TableOk(t, reqs[h := reqs[h].(phase := to)])
  {
    var reqs' := reqs[h := reqs[h].(phase := to)];
    forall x | x in reqs' ensures ChainOk(t, x, reqs'[x]) {
      assert ChainOk(t, x, reqs[x]);
    }
    forall d: nat | d < NUM ensures UseOk(t, reqs', d) {
      assert UseOk(t, reqs, d);
    }
  }

  lemma TakeKeeps(s: State)
    requires Inv(s) && s.avail.head != s.avail.tail
    ensures Inv(Take(s))
  {
    DropOk(s.avail);
    var h, s' := s.avail.q[0], Take(s);
    assert PhaseOk(s, h, s.reqs[h]);
    PhaseTable(s.t, s.reqs, h, Taken);
    hide TableOk, RingOk;
    PhaseKeeps(s, s', h, Taken);
  }

  // The device finds the request that was posted.
  lemma Decoded(t: Table, reqs: map<nat, Req>, h: nat)
    requires TableOk(t, reqs) && h in reqs
    ensures h < NUM && Decode(t, h) == Some(Command(Op(reqs[h].write, Sector(reqs[h].blockno)), reqs[h].b, h))
  {
    assert ChainOk(t, h, reqs[h]);
  }

  lemma CompleteKeeps(s: State, h: nat)
    requires Inv(s) && h in s.taken
    ensures Inv(Complete(s, h))
  {
    Decoded(s.t, s.reqs, h);
    assert PhaseOk(s, h, s.reqs[h]);
    NewHead(s.used, s.reqs, h);
    PutOk(s.used, h);
    PhaseTable(s.t, s.reqs, h, Done);
    hide TableOk, RingOk, Decode, Carry;
    PhaseKeeps(s, Complete(s, h), h, Done);
  }

  lemma InterruptKeeps(s: State)
    requires Inv(s) && s.used.head != s.used.tail
    ensures Inv(Interrupt(s))
    ensures s.used.q != [] && s.used.slots[s.used.head % NUM] == s.used.q[0] && s.used.q[0] in s.reqs
    ensures s.reqs[s.used.q[0]].phase == Done && s.reqs[s.used.q[0]].b in s.busy
    ensures Interrupt(s).busy == s.busy - {s.reqs[s.used.q[0]].b}
  {
    DropOk(s.used);
    var h, s' := s.used.q[0], Interrupt(s);
    assert PhaseOk(s, h, s.reqs[h]);
    assert ChainOk(s.t, h, s.reqs[h]);
    PhaseTable(s.t, s.reqs, h, Seen);
    hide TableOk, RingOk, ChainOk;
    PhaseKeeps(s, s', h, Seen);
  }

  // What free_chain finds
  lemma ReleaseIs(t: Table, reqs: map<nat, Req>, h: nat)
    requires TableOk(t, reqs) && h in reqs && h < NUM
    ensures var r := reqs[h];
            && ChainOk(t, h, r) && !t.free[h] && !t.free[r.i1] && !t.free[r.i2]
            && Release(t, h) ==
               Some(Table(t.free[h := true][r.i1 := true][r.i2 := true],
                          t.desc[h := CLEAR][r.i1 := CLEAR][r.i2 := CLEAR], t.ops,
                          t.info[h := None], t.use[h := None][r.i1 := None][r.i2 := None]))
  {
    var r := reqs[h];
    assert ChainOk(t, h, r);
    assert UseOk(t, reqs, h) && UseOk(t, reqs, r.i1) && UseOk(t, reqs, r.i2);
  }

  lemma ReleaseOk(t: Table, reqs: map<nat, Req>, h: nat)
    requires TableOk(t, reqs) && h in reqs && h < NUM
    ensures Release(t, h).Some? && TableOk(Release(t, h).value, reqs - {h})
  {
    var r := reqs[h];
    ReleaseIs(t, reqs, h);
    hide Release;
    var t', reqs' := Release(t, h).value, reqs - {h};
    forall x | x in reqs' ensures ChainOk(t', x, reqs'[x]) {
      assert ChainOk(t, x, reqs[x]);
    }
    forall d: nat | d < NUM ensures UseOk(t', reqs', d) {
      assert UseOk(t, reqs, d);
    }
  }

  // Submitting takes the descriptors as alloc3_desc is proved to.
  lemma SubmitTakes(t: Table, r: Req, h: nat)
    requires |t.free| == |t.desc| == |t.ops| == |t.info| == |t.use| == NUM && h < NUM && r.i1 < NUM && r.i2 < NUM
    requires Lowest(t.free, [h, r.i1, r.i2])
    ensures Without(Format(t, r, h).free, t.free, [h, r.i1, r.i2])
  {
    hide Lowest;
    var idx := [h, r.i1, r.i2];
    forall d | 0 <= d < NUM ensures Format(t, r, h).free[d] == (t.free[d] && d !in idx) {
      assert d in idx <==> d == h || d == r.i1 || d == r.i2;
    }
  }

  // Finishing gives them back as free_chain is proved to, none of whose panics
  // applies.
  lemma FinishFrees(t: Table, reqs: map<nat, Req>, h: nat)
    requires TableOk(t, reqs) && h in reqs && h < NUM
    ensures var c := [h, reqs[h].i1, reqs[h].i2];
            && Chain(t.desc, c) && (forall k :: 0 <= k < |c| ==> !t.free[c[k]])
            && Release(t, h).Some?
            && FreedTo(Release(t, h).value.free, Release(t, h).value.desc, t.free, t.desc, c, |c|)
  {
    var q := reqs[h];
    ReleaseIs(t, reqs, h);
    hide TableOk, UseOk, FreedTo, Release;
    ThreeFreed(t.free, t.desc, h, q.i1, q.i2);
  }

  lemma ThreeFreed(f: seq<bool>, d: seq<Desc>, i: nat, j: nat, k: nat)
    requires |f| == |d| && i < |f| && j < |f| && k < |f|
    ensures FreedTo(f[i := true][j := true][k := true], d[i := CLEAR][j := CLEAR][k := CLEAR], f, d, [i, j, k], 3)
  {
    var c := [i, j, k];
    assert c[..3] == c;
    forall x | 0 <= x < |f| ensures x in c[..3] <==> x == i || x == j || x == k {
    }
  }

  lemma FinishKeeps(s: State, h: nat)
    requires Inv(s) && h in s.reqs && h < NUM && s.reqs[h].b !in s.busy
    ensures Inv(Finish(s, h)) && s.reqs[h].phase == Seen
  {
    ReleaseOk(s.t, s.reqs, h);
    assert PhaseOk(s, h, s.reqs[h]);
    hide TableOk, RingOk, Release, PhaseOk;
    FinishPhases(s, Release(s.t, h).value, h);
  }

  lemma FinishPhases(s: State, t: Table, h: nat)
    requires PhasesOk(s) && h in s.reqs && s.reqs[h].b !in s.busy
    ensures PhasesOk(s.(t := t, reqs := s.reqs - {h}, byBuf := s.byBuf - {s.reqs[h].b}))
  {
    var s' := s.(t := t, reqs := s.reqs - {h}, byBuf := s.byBuf - {s.reqs[h].b});
    assert PhaseOk(s, h, s.reqs[h]);
    forall x | x in s'.reqs ensures x < NUM && PhaseOk(s', x, s'.reqs[x]) {
      assert PhaseOk(s, x, s.reqs[x]);
    }
  }

  lemma FillKeeps(s: State, b: nat, v: Block)
    requires Inv(s)
    ensures Inv(s.(store := s.store.(data := s.store.data[b := v])))
  {
    var s' := s.(store := s.store.(data := s.store.data[b := v]));
    forall x | x in s'.reqs ensures PhaseOk(s', x, s'.reqs[x]) {
      assert PhaseOk(s, x, s.reqs[x]);
    }
  }

  lemma Kept(s: State, s': State, a: Action)
    requires Inv(s) && Next(s, s', a)
    ensures Inv(s')
  {
    hide Inv, Submit, Take, Complete, Interrupt, Finish, RingOk;
    match a
    case DoSubmit(b, blockno, write, idx) => SubmitKeeps(s, Req(b, blockno, write, idx[1], idx[2], Posted), idx[0]);
    case DoTake => TakeKeeps(s);
    case DoComplete(h) => CompleteKeeps(s, h);
    case DoInterrupt => InterruptKeeps(s);
    case DoFinish(h) => FinishKeeps(s, h);
    case DoFill(b, v) => FillKeeps(s, b, v);
  }

  // ---------------------------------------------------------------- whole runs

  ghost predicate Run(ss: seq<State>, acts: seq<Action>) {
    && |ss| == |acts| + 1 && Init(ss[0])
    && forall t :: 0 <= t < |acts| ==> Next(ss[t], ss[t + 1], acts[t])
  }

  lemma {:induction false} RunInv(ss: seq<State>, acts: seq<Action>, t: nat)
    requires Run(ss, acts) && t < |ss|
    ensures Inv(ss[t])
  {
    hide Inv, Init, Next;
    if t > 0 {
      RunInv(ss, acts, t - 1);
      assert Next(ss[t - 1], ss[t - 1 + 1], acts[t - 1]);
      Kept(ss[t - 1], ss[t], acts[t - 1]);
    } else {
      InitInv(ss[0]);
    }
  }

  lemma InitInv(s: State)
    requires Init(s)
    ensures Inv(s)
  {
  }

  // In every run each descriptor is free or belongs to exactly one of the three
  // places of exactly one request, and no panic is reached.
  lemma Partition(ss: seq<State>, acts: seq<Action>, t: nat, d: nat, h: nat)
    requires Run(ss, acts) && t < |ss| && d < NUM
    ensures !ss[t].lost && |ss[t].t.free| == |ss[t].t.use| == NUM
    ensures ss[t].t.free[d] <==> ss[t].t.use[d] == None
    ensures ss[t].t.use[d].Some? ==> ss[t].t.use[d].value in ss[t].reqs
    ensures h in ss[t].reqs ==>
      && (ss[t].t.use[d] == Some(h) <==> d == h || d == ss[t].reqs[h].i1 || d == ss[t].reqs[h].i2)
      && h != ss[t].reqs[h].i1 && h != ss[t].reqs[h].i2 && ss[t].reqs[h].i1 != ss[t].reqs[h].i2
  {
    RunInv(ss, acts, t);
    var s := ss[t];
    assert UseOk(s.t, s.reqs, d);
    if h in s.reqs {
      assert ChainOk(s.t, h, s.reqs[h]);
    }
  }

  // In every run a new avail entry goes where no unread one is, for all that
  // the index wraps around.
  lemma NoOverwrite(ss: seq<State>, acts: seq<Action>, t: nat)
    requires Run(ss, acts) && t < |acts| && acts[t].DoSubmit?
    ensures Sizes(ss[t]) && |ss[t].avail.q| < NUM && |ss[t + 1].avail.slots| == NUM
    ensures forall k :: 0 <= k < |ss[t].avail.q| ==>
      ss[t].avail.slots[At(ss[t].avail.head, k)] == ss[t].avail.q[k] == ss[t + 1].avail.slots[At(ss[t].avail.head, k)]
  {
    RunInv(ss, acts, t);
    var s, a := ss[t], acts[t];
    assert Next(s, ss[t + 1], a);
    SubmitKeeps(s, Req(a.b, a.blockno, a.write, a.idx[1], a.idx[2], Posted), a.idx[0]);
    PutOk(s.avail, a.idx[0]);
  }

  // Request h goes on, at most its phase changed and not to completion; nobody
  // touched the data of its buffer.
  ghost predicate GoesOn(s: State, s': State, h: nat) {
    && h in s.reqs && h in s'.reqs && s'.reqs[h] == s.reqs[h].(phase := s'.reqs[h].phase)
    && (Completed(s'.reqs[h]) <==> Completed(s.reqs[h]))
    && Get(s'.store.data, s.reqs[h].b) == Get(s.store.data, s.reqs[h].b)
  }

  lemma TakeGoesOn(s: State, h: nat)
    requires Inv(s) && s.avail.head != s.avail.tail && h in s.reqs
    ensures GoesOn(s, Take(s), h)
  {
    DropOk(s.avail);
    assert PhaseOk(s, s.avail.q[0], s.reqs[s.avail.q[0]]);
  }

  lemma CompleteGoesOn(s: State, h: nat, x: nat)
    requires Inv(s) && h in s.reqs && x in s.taken && x != h
    ensures GoesOn(s, Complete(s, x), h)
  {
    Decoded(s.t, s.reqs, x);
    hide TableOk, RingOk, Decode;
    assert PhaseOk(s, x, s.reqs[x]) && PhaseOk(s, h, s.reqs[h]);
  }

  lemma InterruptGoesOn(s: State, h: nat)
    requires Inv(s) && s.used.head != s.used.tail && h in s.reqs
    ensures GoesOn(s, Interrupt(s), h)
  {
    InterruptKeeps(s);
    hide TableOk, PhasesOk, RingOk;
  }

  lemma FinishGoesOn(s: State, h: nat, x: nat)
    requires Inv(s) && h in s.reqs && x in s.reqs && x < NUM && x != h
    ensures GoesOn(s, Finish(s, x), h)
  {
    ReleaseOk(s.t, s.reqs, x);
    hide TableOk, RingOk, Release;
  }

  lemma SubmitGoesOn(s: State, r: Req, k: nat, h: nat)
    requires Inv(s) && k < NUM && r.i1 < NUM && r.i2 < NUM && s.t.free[k] && h in s.reqs
    ensures GoesOn(s, Submit(s, r, k), h)
  {
    FreshHead(s.t, s.reqs, k);
    hide TableOk, PhasesOk, RingOk, Format;
  }

  lemma FillGoesOn(s: State, b: nat, v: Block, h: nat)
    requires Inv(s) && b !in s.byBuf && h in s.reqs
    ensures GoesOn(s, s.(store := s.store.(data := s.store.data[b := v])), h)
  {
    assert PhaseOk(s, h, s.reqs[h]);
    hide TableOk, RingOk;
  }

  lemma StepGoesOn(s: State, s': State, a: Action, h: nat)
    requires Inv(s) && Next(s, s', a) && h in s.reqs && a != DoFinish(h) && a != DoComplete(h)
    ensures GoesOn(s, s', h)
  {
    hide Inv, Submit, Take, Complete, Interrupt, Finish, GoesOn;
    match a
    case DoSubmit(b, blockno, write, idx) => SubmitGoesOn(s, Req(b, blockno, write, idx[1], idx[2], Posted), idx[0], h);
    case DoTake => TakeGoesOn(s, h);
    case DoComplete(x) => CompleteGoesOn(s, h, x);
    case DoInterrupt => InterruptGoesOn(s, h);
    case DoFinish(x) => FinishGoesOn(s, h, x);
    case DoFill(b, v) => FillGoesOn(s, b, v, h);
  }

  predicate Completed(r: Req) {
    r.phase == Done || r.phase == Seen
  }

  // The device did what was asked for in a, when the buffer held v.
  ghost predicate Did(s: State, s': State, a: Action, v: Block)
    requires a.DoSubmit?
  {
    && Get(s.store.data, a.b) == v
    && s'.store == if a.write then s.store.(disk := s.store.disk[Sector(a.blockno) := v])
                   else s.store.(data := s.store.data[a.b := Get(s.store.disk, Sector(a.blockno))])
  }

  // Request i at a later point t: not completed, or completed by one step c.
  ghost predicate Tracked(ss: seq<State>, acts: seq<Action>, i: nat, t: nat, c: nat)
    requires |ss| == |acts| + 1 && i < t < |ss| && acts[i].DoSubmit? && |acts[i].idx| == 3
  {
    var a, h, s := acts[i], acts[i].idx[0], ss[t];
    && h in s.reqs && s.reqs[h] == Req(a.b, a.blockno, a.write, a.idx[1], a.idx[2], s.reqs[h].phase)
    && (Completed(s.reqs[h]) <==> c < t)
    && (forall k :: i < k < t ==> (acts[k] == DoComplete(h) <==> k == c))
    && (c >= t ==> Get(s.store.data, a.b) == Get(ss[i].store.data, a.b))
    && (c < t ==> i < c && Did(ss[c], ss[c + 1], a, Get(ss[i].store.data, a.b))
                  && Get(s.store.data, a.b) == Get(ss[c + 1].store.data, a.b))
  }

  lemma {:induction false} Track(ss: seq<State>, acts: seq<Action>, i: nat, t: nat) returns (c: nat)
    requires Run(ss, acts) && i < t < |ss| && acts[i].DoSubmit? && |acts[i].idx| == 3
    requires forall k :: i < k < t ==> acts[k] != DoFinish(acts[i].idx[0])
    ensures Tracked(ss, acts, i, t, c)
  {
    hide Inv, Init, Next, Tracked;
    RunInv(ss, acts, t - 1);
    assert Next(ss[t - 1], ss[t - 1 + 1], acts[t - 1]);
    if t == i + 1 {
      c := t;
      TrackStart(ss, acts, i);
    } else {
      c := Track(ss, acts, i, t - 1);
      hide Run;
      c := TrackOn(ss, acts, i, t - 1, c);
    }
  }

  lemma TrackStart(ss: seq<State>, acts: seq<Action>, i: nat)
    requires |ss| == |acts| + 1 && i < |acts| && acts[i].DoSubmit? && |acts[i].idx| == 3
    requires Next(ss[i], ss[i + 1], acts[i])
    ensures Tracked(ss, acts, i, i + 1, i + 1)
  {
    Submitted(ss[i], ss[i + 1], acts[i]);
  }

  lemma TrackOn(ss: seq<State>, acts: seq<Action>, i: nat, t: nat, c: nat) returns (c': nat)
    requires |ss| == |acts| + 1 && i < t < |acts| && acts[i].DoSubmit? && |acts[i].idx| == 3
    requires Tracked(ss, acts, i, t, c) && Inv(ss[t]) && Next(ss[t], ss[t + 1], acts[t])
    requires acts[t] != DoFinish(acts[i].idx[0])
    ensures Tracked(ss, acts, i, t + 1, c')
  {
    hide Inv, Next, Get;
    if acts[t] == DoComplete(acts[i].idx[0]) {
      CompletedNow(ss[t], ss[t + 1], acts[i].idx[0]);
      c' := t;
    } else {
      StepGoesOn(ss[t], ss[t + 1], acts[t], acts[i].idx[0]);
      c' := if c < t then c else t + 1;
    }
  }

  lemma Submitted(s: State, s': State, a: Action)
    requires Next(s, s', a) && a.DoSubmit?
    ensures |a.idx| == 3 && a.idx[0] in s'.reqs && s'.store == s.store
    ensures s'.reqs[a.idx[0]] == Req(a.b, a.blockno, a.write, a.idx[1], a.idx[2], Posted)
  {
  }

  lemma CompletedNow(s: State, s': State, h: nat)
    requires Inv(s) && Next(s, s', DoComplete(h))
    ensures h in s.reqs && s.reqs[h].phase == Taken && s'.reqs == s.reqs[h := s.reqs[h].(phase := Done)]
    ensures s'.store == if s.reqs[h].write
                        then s.store.(disk := s.store.disk[Sector(s.reqs[h].blockno) := Get(s.store.data, s.reqs[h].b)])
                        else s.store.(data := s.store.data[s.reqs[h].b := Get(s.store.disk, Sector(s.reqs[h].blockno))])
  {
    assert PhaseOk(s, h, s.reqs[h]);
    Decoded(s.t, s.reqs, h);
  }

  // In every run, from virtio_disk_rw's call to its return: the device carried
  // out the request exactly once, with the block, the direction and the buffer
  // of the call. A write put on disk what the buffer held at the call; after a
  // read the buffer holds what was on disk.
  lemma CarriedOut(ss: seq<State>, acts: seq<Action>, i: nat, j: nat) returns (c: nat)
    requires Run(ss, acts) && i < j < |acts| && acts[i].DoSubmit? && |acts[i].idx| == 3
    requires acts[j] == DoFinish(acts[i].idx[0]) && forall k :: i < k < j ==> acts[k] != DoFinish(acts[i].idx[0])
    ensures i < c < j && forall k :: i < k < j ==> (acts[k] == DoComplete(acts[i].idx[0]) <==> k == c)
    ensures Did(ss[c], ss[c + 1], acts[i], Get(ss[i].store.data, acts[i].b))
    ensures Get(ss[j].store.data, acts[i].b) ==
            if acts[i].write then Get(ss[i].store.data, acts[i].b) else Get(ss[c].store.disk, Sector(acts[i].blockno))
  {
    c := Track(ss, acts, i, j);
    OwnCompletion(ss, acts, j);
  }

  // In every run an interrupt clears the flag of the buffer whose request the
  // device completed, and of no other; and a request returns only after that.
  lemma OwnCompletion(ss: seq<State>, acts: seq<Action>, t: nat)
    requires Run(ss, acts) && t < |acts|
    ensures acts[t].DoInterrupt? ==>
      && ss[t].used.q != [] && ss[t].used.q[0] in ss[t].reqs && ss[t].reqs[ss[t].used.q[0]].phase == Done
      && ss[t].reqs[ss[t].used.q[0]].b in ss[t].busy
      && ss[t + 1].busy == ss[t].busy - {ss[t].reqs[ss[t].used.q[0]].b}
    ensures acts[t].DoFinish? ==> acts[t].h in ss[t].reqs && ss[t].reqs[acts[t].h].phase == Seen
  {
    RunInv(ss, acts, t);
    assert Next(ss[t], ss[t + 1], acts[t]);
    hide Inv;
    if acts[t].DoInterrupt? {
      InterruptKeeps(ss[t]);
    }
    if acts[t].DoFinish? {
      FinishKeeps(ss[t], acts[t].h);
    }
  }

  // In every run the next step of each request can be taken: the device finds
  // what is posted, the interrupt what is completed, and the caller goes on once
  // its flag is clear.
  lemma NeverStuck(ss: seq<State>, acts: seq<Action>, t: nat, h: nat) returns (a: Action, s': State)
    requires Run(ss, acts) && t < |ss| && h in ss[t].reqs
    ensures Next(ss[t], s', a)
    ensures match ss[t].reqs[h].phase
            case Posted => a == DoTake
            case Taken => a == DoComplete(h)
            case Done => a == DoInterrupt
            case Seen => a == DoFinish(h)
  {
    RunInv(ss, acts, t);
    var s := ss[t];
    hide Run, Inv, Take, Complete, Interrupt, Finish;
    WhereItIs(s, h);
    match s.reqs[h].phase
    case Posted => a, s' := DoTake, Take(s);
    case Taken => a, s' := DoComplete(h), Complete(s, h);
    case Done => a, s' := DoInterrupt, Interrupt(s);
    case Seen => a, s' := DoFinish(h), Finish(s, h);
  }

  lemma WhereItIs(s: State, h: nat)
    requires Inv(s) && h in s.reqs
    ensures Sizes(s) && h < NUM
    ensures match s.reqs[h].phase
            case Posted => s.avail.head != s.avail.tail
            case Taken => h in s.taken
            case Done => s.used.head != s.used.tail
            case Seen => s.reqs[h].b !in s.busy
  {
    assert PhaseOk(s, h, s.reqs[h]);
    TailAt(s.avail.head, |s.avail.q|);
    TailAt(s.used.head, |s.used.q|);
    hide TableOk, At;
  }

  // And a new request can be made whenever three descriptors are free.
  lemma CanSubmit(ss: seq<State>, acts: seq<Action>, t: nat, b: nat, blockno: nat, write: bool, idx: seq<nat>)
    returns (s': State)
    requires Run(ss, acts) && t < |ss| && b !in ss[t].byBuf && |idx| == 3 && Lowest(ss[t].t.free, idx)
    ensures Next(ss[t], s', DoSubmit(b, blockno, write, idx))
  {
    RunInv(ss, acts, t);
    s' := Submit(ss[t], Req(b, blockno, write, idx[1], idx[2], Posted), idx[0]);
  }
}
