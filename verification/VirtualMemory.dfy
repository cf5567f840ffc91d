/**
 kalloc.c and vm.c over one physical memory: the free list threaded through
 the free pages, and the operations that build, change and tear down page
 tables. Sizes and addresses count bytes as in the source; vpn = va / PGSIZE.
 */
module VirtualMemory {
  import opened PageTable
  import opened Finite

  // ---------------------------------------------------------------- kmem.freelist

  // The pages of free, in order, hang off head through the words in the pages.
  ghost predicate FreeList(f: Frames, head: nat, free: seq<nat>)
    decreases |free|
  {
    if free == [] then head == 0
    else
      && head == free[0] && head != 0 && head !in free[1..]
      && head in f && f[head].Run? && FreeList(f, f[head].next, free[1..])
  }

  lemma {:induction false} FreeListElsewhere(f: Frames, head: nat, free: seq<nat>, p: nat, x: Frame)
    requires FreeList(f, head, free) && p !in free
    ensures FreeList(f[p := x], head, free)
    decreases |free|
  {
    if free != [] {
      FreeListElsewhere(f, f[head].next, free[1..], p, x);
    }
  }

  lemma {:induction false} FreeInPool(f: Frames, head: nat, free: seq<nat>)
    requires FreeList(f, head, free)
    ensures forall p :: p in free ==> p in f
    decreases |free|
  {
    if free != [] {
      FreeInPool(f, f[head].next, free[1..]);
    }
  }

  // Every page of the pool lo..hi-1 is on the free list or owned, never both.
  ghost predicate MemOk(f: Frames, head: nat, free: seq<nat>, o: Owners, lo: nat, hi: nat) {
    && 0 < lo <= hi
    && (forall p :: p in f <==> lo <= p < hi)
    && FreeList(f, head, free)
    && (forall p :: p in o ==> p in f)
    && (forall p :: p in f ==> (p in o <==> p !in free))
  }

  // memset((char*)r, 5, PGSIZE)
  const JUNK_ALLOC: Frame := Data(seq(PGSIZE, _ => 5))

  lemma PopFree(f: Frames, head: nat, free: seq<nat>, o: Owners, lo: nat, hi: nat)
    requires MemOk(f, head, free, o, lo, hi) && head != 0
    ensures free != [] && head == free[0] && head in f && head !in o && f[head].Run?
    ensures MemOk(f[head := JUNK_ALLOC], f[head].next, free[1..], o[head := Other], lo, hi)
  {
    FreeListElsewhere(f, f[head].next, free[1..], head, JUNK_ALLOC);
    assert free == [head] + free[1..];
  }

  lemma EmptyFree(f: Frames, head: nat, free: seq<nat>, o: Owners, lo: nat, hi: nat)
    requires MemOk(f, head, free, o, lo, hi)
    ensures head == 0 <==> free == []
  {
  }

  lemma PushFree(f: Frames, head: nat, free: seq<nat>, o: Owners, lo: nat, hi: nat, p: nat)
    requires MemOk(f, head, free, o, lo, hi) && p in o
    ensures MemOk(f[p := Run(head)], p, [p] + free, o - {p}, lo, hi)
  {
    FreeListElsewhere(f, head, free, p, Run(head));
    assert ([p] + free)[1..] == free;
  }

  // An owned page may change its contents and its owner.
  lemma MemUpdate(f: Frames, head: nat, free: seq<nat>, o: Owners, lo: nat, hi: nat, p: nat, x: Frame, w: Owner)
    requires MemOk(f, head, free, o, lo, hi) && p in o
    ensures p in f && MemOk(f[p := x], head, free, o[p := w], lo, hi)
  {
    FreeListElsewhere(f, head, free, p, x);
  }

  // ---------------------------------------------------------------- growing a tree

  // Only tables of root r were added; outside pages lo..hi-1 of r every flat map
  // is as it was, and so is every page that is no table.
  ghost predicate GrewBut(f: Frames, g: Frames, o: Owners, o': Owners, r: nat, lo: nat, hi: nat) {
    && (forall p :: p in o ==> p in o' && o'[p] == o[p])
    && (forall p :: p in o' && p !in o ==> (o'[p].MidTable? || o'[p].LowTable?) && o'[p].root == r)
    && SameLeavesBut(f, g, o, r, lo, hi)
    && SameData(f, g, o)
  }

  ghost predicate Grew(f: Frames, g: Frames, o: Owners, o': Owners, r: nat) {
    GrewBut(f, g, o, o', r, 0, 0)
  }

  lemma GrewByTable(f: Frames, g: Frames, o: Owners, o': Owners, r: nat, p: nat, c: nat, w: Owner)
    requires p in o && TableOwner(o[p]) && c !in o && o' == o[c := w] && (w.MidTable? || w.LowTable?) && w.root == r
    requires SameLeaves(f, g, o) && forall x :: x in f && x != p && x != c ==> x in g && g[x] == f[x]
    ensures Grew(f, g, o, o', r)
  {
  }

  lemma GrewTwice(f: Frames, g: Frames, h: Frames, o: Owners, o': Owners, o'': Owners, r: nat, lo: nat, mid: nat,
                  hi: nat)
    requires GrewBut(f, g, o, o', r, lo, mid) && GrewBut(g, h, o', o'', r, mid, hi) && lo <= mid <= hi
    ensures GrewBut(f, h, o, o'', r, lo, hi)
    ensures forall v :: lo <= v < mid && v < MAXVPN && Owns(o, r, RootTable) ==> Leaf(h, r, v) == Leaf(g, r, v)
  {
    forall s: nat, v: nat | Owns(o, s, RootTable) && v < MAXVPN && !(s == r && lo <= v < hi)
      ensures Leaf(h, s, v) == Leaf(f, s, v)
    {
      assert Owns(o', s, RootTable);
      assert Leaf(h, s, v) == Leaf(g, s, v);
      assert Leaf(g, s, v) == Leaf(f, s, v);
    }
    forall v | lo <= v < mid && v < MAXVPN && Owns(o, r, RootTable) ensures Leaf(h, r, v) == Leaf(g, r, v) {
      assert Owns(o', r, RootTable);
    }
  }

  lemma GrewWider(f: Frames, g: Frames, o: Owners, o': Owners, r: nat, lo: nat, hi: nat)
    requires Grew(f, g, o, o', r)
    ensures GrewBut(f, g, o, o', r, lo, hi)
  {
  }

  // perm | PTE_V
  function WithV(perm: nat): nat {
    if perm % 2 == 1 then perm else perm + 1
  }

  lemma WithVFlags(perm: nat)
    requires perm < 1024
    ensures WithV(perm) < 1024 && V(WithV(perm)) && (RWX(WithV(perm)) <==> RWX(perm)) && (U(WithV(perm)) <==> U(perm))
  {
    var k := perm / 2;
    assert perm == 2 * k || perm == 2 * k + 1;
    assert WithV(perm) == 2 * k + 1;
    assert (2 * k + 1) / 2 == k && (2 * k + 1) / 16 == k / 8 && (2 * k) / 16 == k / 8;
  }

  lemma WithVFields(page: nat, perm: nat)
    requires perm < 1024
    ensures V(Pte(page, WithV(perm))) && PageOf(Pte(page, WithV(perm))) == page
    ensures Flags(Pte(page, WithV(perm))) == WithV(perm)
    ensures RWX(perm) ==> LeafEntry(Pte(page, WithV(perm)))
  {
    hide V, RWX, U, WithV;
    WithVFlags(perm);
    PteFields(page, WithV(perm));
  }

  // Pages first..first+n-1 are mapped to n consecutive physical pages.
  ghost predicate Mapped(f: Frames, r: nat, first: nat, n: nat, page: nat, flags: nat) {
    forall v: nat :: first <= v < first + n ==> Leaf(f, r, v) == Pte(page + v - first, flags)
  }

  lemma MappedNothing(f: Frames, r: nat, first: nat, page: nat, flags: nat)
    ensures Mapped(f, r, first, 0, page, flags)
  {
  }

  lemma MappedKept(f: Frames, g: Frames, r: nat, first: nat, n: nat, page: nat, flags: nat)
    requires Mapped(f, r, first, n, page, flags)
    requires forall v: nat :: first <= v < first + n ==> Leaf(g, r, v) == Leaf(f, r, v)
    ensures Mapped(g, r, first, n, page, flags)
  {
  }

  lemma MappedMore(f: Frames, r: nat, first: nat, n: nat, page: nat, flags: nat)
    requires Mapped(f, r, first, n, page, flags) && Leaf(f, r, first + n) == Pte(page + n, flags)
    ensures Mapped(f, r, first, n + 1, page, flags)
  {
    hide Leaf, Pte;
    forall v: nat | first <= v < first + n + 1 ensures Leaf(f, r, v) == Pte(page + v - first, flags) {
      if v == first + n {
        assert page + v - first == page + n;
      }
    }
  }

  lemma UnmappedAt(f: Frames, r: nat, lo: nat, hi: nat, v: nat)
    requires Unmapped(f, r, lo, hi) && lo <= v < hi
    ensures Leaf(f, r, v) == 0
  {
  }

  ghost predicate Unmapped(f: Frames, r: nat, lo: nat, hi: nat) {
    forall v: nat :: lo <= v < hi ==> Leaf(f, r, v) == 0
  }

  class Memory {
    const lo: nat   // first page at or after end
    const hi: nat   // first page not wholly before PHYSTOP
    var frames: Frames
    var freelist: nat
    ghost var free: seq<nat>
    ghost var owner: Owners

    ghost predicate Mem()
      reads this
    {
      MemOk(frames, freelist, free, owner, lo, hi)
    }

    ghost predicate Ok()
      reads this
    {
      Mem() && Tree(frames, owner)
    }

    // kinit: freerange(end, PHYSTOP), both in bytes; ram is what the pages hold at boot.
    constructor Kinit(end: nat, phystop: nat, ram: Frames)
      requires 0 < end && forall p :: p in ram <==> end <= p * PGSIZE && (p + 1) * PGSIZE <= phystop
      ensures Ok() && owner == map[]
      // the whole pages between end and phystop
      ensures forall p :: p in free <==> end <= p * PGSIZE && (p + 1) * PGSIZE <= phystop
    {
      lo := Pages(end);
      hi := if phystop / PGSIZE < Pages(end) then Pages(end) else phystop / PGSIZE;
      frames, freelist := ram, 0;
      free, owner := [], map p | p in ram :: Other;
      new;
      PagesExact(end);
      var p := lo;
      while (p + 1) * PGSIZE <= phystop
        invariant lo <= p <= hi && Mem()
        invariant forall q :: q in owner <==> p <= q < hi
        invariant forall q :: q in owner ==> owner[q] == Other
        decreases hi - p
      {
        Kfree(p);
        p := p + 1;
      }
      assert owner == map[];
      FreeInPool(frames, freelist, free);
    }

    method Kalloc() returns (p: nat)
      requires Mem()
      modifies this
      ensures Mem()
      ensures p == 0 <==> old(free) == []
      ensures p == 0 ==> frames == old(frames) && owner == old(owner) && free == old(free)
      ensures p != 0 ==>
        && p == old(free)[0] && p in old(frames) && p !in old(owner) && free == old(free)[1..]
        && frames == old(frames)[p := JUNK_ALLOC] && owner == old(owner)[p := Other]
    {
      hide MemOk;
      p := freelist;
      EmptyFree(frames, freelist, free, owner, lo, hi);
      if p != 0 {
        PopFree(frames, freelist, free, owner, lo, hi);
        freelist := frames[p].next;
        frames := frames[p := JUNK_ALLOC];
        free, owner := free[1..], owner[p := Other];
      }
    }

    // The panics of kfree demand a page of the pool; freeing it twice would
    // corrupt the list.
    method Kfree(p: nat)
      requires Mem() && p in owner
      modifies this
      ensures Mem()
      ensures frames == old(frames)[p := Run(old(freelist))]
      ensures owner == old(owner) - {p} && free == [p] + old(free)
    {
      hide MemOk;
      PushFree(frames, freelist, free, owner, lo, hi, p);
      frames := frames[p := Run(freelist)];
      freelist := p;
      free, owner := [p] + free, owner - {p};
    }

    // kalloc a table page, clear it, and link it behind the empty entry i of
    // table p. The new page takes the place w of the tree.
    method AddTable(p: nat, i: nat, ghost r: nat, ghost w: Owner) returns (c: nat)
      requires Ok() && i < 512 && Entry(frames, p, i) == 0
      requires (w == MidTable(r, i) && i < 256 && p == r && Owns(owner, r, RootTable))
            || (exists a :: w == LowTable(r, a, i) && Owns(owner, p, MidTable(r, a)))
      modifies this
      ensures Ok()
      ensures c == 0 <==> old(free) == []
      ensures c == 0 ==> frames == old(frames) && owner == old(owner) && free == old(free)
      ensures c != 0 ==> Owns(owner, c, w) && Grew(old(frames), frames, old(owner), owner, r) && free == old(free)[1..]
    {
      hide MemOk, Tree, GrewBut, Grew, SameLeaves, Pte, Interior;
      TableFrame(frames, owner, p);
      MemPages(frames, freelist, free, owner, lo, hi);
      c := Kalloc();
      if c != 0 {
        ghost var f0, o0 := old(frames), old(owner);
        if w.MidTable? {
          AddMid(f0, o0, r, i, c);
        } else {
          AddLow(f0, o0, r, w.a, p, i, c);
        }
        MemUpdate(frames, freelist, free, owner, lo, hi, c, ZeroTable(), w);
        frames := frames[c := ZeroTable()];
        owner := owner[c := w];
        MemUpdate(frames, freelist, free, owner, lo, hi, p, Table(frames[p].ptes[i := Pte(c, 1)]), owner[p]);
        frames := frames[p := Table(frames[p].ptes[i := Pte(c, 1)])];
        assert frames == SetEntry(f0[c := ZeroTable()], p, i, Pte(c, 1));
        assert owner == o0[c := w] && owner[p := owner[p]] == owner;
        GrewByTable(f0, frames, o0, owner, r, p, c, w);
      }
    }

    // walk(pagetable, va, alloc): the level-0 table for page v of tree r, or 0.
    method Walk(r: nat, v: nat, alloc: bool) returns (q: nat)
      requires Ok() && Owns(owner, r, RootTable) && v < MAXVPN
      modifies this
      ensures Ok()
      ensures q != 0 ==> Owns(owner, q, LowTable(r, Px(2, v), Px(1, v)))
      ensures q == 0 ==> Leaf(frames, r, v) == 0
      ensures q == 0 && alloc ==> free == [] && |old(free)| <= 1
      ensures |old(free)| - 2 <= |free| <= |old(free)|
      ensures !alloc ==>
        && frames == old(frames) && owner == old(owner) && free == old(free)
        && q == LowOf(frames, r, Px(2, v), Px(1, v))
      ensures Grew(old(frames), frames, old(owner), owner, r)
    {
      hide Tree, MemOk, SameLeaves;
      var p, level := r, 2;
      PxTop(v);
      GrewNothing(frames, owner, r, 0);
      while level > 0
        invariant 0 <= level <= 2 && Ok()
        invariant Grew(old(frames), frames, old(owner), owner, r) && Owns(owner, r, RootTable)
        invariant level == 2 ==> p == r
        invariant level == 1 ==> Owns(owner, p, MidTable(r, Px(2, v)))
        invariant level == 0 ==> Owns(owner, p, LowTable(r, Px(2, v), Px(1, v)))
        invariant !alloc ==> frames == old(frames) && owner == old(owner) && free == old(free)
        invariant |old(free)| + level - 2 <= |free| <= |old(free)|
      {
        WalkOwned(frames, owner, r, Px(2, v), Px(1, v));
        TableFrame(frames, owner, p);
        if level == 1 { MidFrame(frames, owner, p, r, Px(2, v)); }
        var i := Px(level, v);
        var e := frames[p].ptes[i];
        if V(e) {
          p := PageOf(e);
        } else {
          if !alloc { return 0; }
          ghost var f1, o1 := frames, owner;
          var c := AddTable(p, i, r, if level == 2 then MidTable(r, i) else LowTable(r, Px(2, v), i));
          if c == 0 { return 0; }
          GrewTwice(old(frames), f1, frames, old(owner), o1, owner, r, 0, 0, 0);
          p := c;
        }
        level := level - 1;
      }
      LowFrame(frames, owner, p, r, Px(2, v), Px(1, v));
      return p;
    }

    // uvmclear: *pte &= ~PTE_U. Its panic demands a level-0 table.
    method UvmClear(r: nat, v: nat)
      requires Ok() && Owns(owner, r, RootTable) && v < MAXVPN
      requires LowOf(frames, r, Px(2, v), Px(1, v)) != 0
      modifies this`frames
      ensures Ok() && !U(Leaf(frames, r, v))
      ensures V(Leaf(frames, r, v)) == V(old(Leaf(frames, r, v)))
      ensures RWX(Leaf(frames, r, v)) == RWX(old(Leaf(frames, r, v)))
      ensures PageOf(Leaf(frames, r, v)) == PageOf(old(Leaf(frames, r, v)))
      ensures GrewBut(old(frames), frames, owner, owner, r, v, v + 1)
    {
      hide Tree, MemOk, GrewBut, V, RWX, U, PageOf;
      var q := LookUp(r, v);
      TableFrame(frames, owner, q);
      LowFrame(frames, owner, q, r, Px(2, v), Px(1, v));
      var e := frames[q].ptes[Px(0, v)];
      assert LeafEntry(Entry(frames, q, Px(0, v)));
      ClearU(e);
      LeafUsed(frames, owner, r, v);
      SetPte(q, if U(e) then e - 16 else e, r, v);
    }

    // walk(pagetable, va, 0)
    method LookUp(r: nat, v: nat) returns (q: nat)
      requires Ok() && Owns(owner, r, RootTable) && v < MAXVPN
      ensures q == LowOf(frames, r, Px(2, v), Px(1, v))
      ensures q != 0 ==> Owns(owner, q, LowTable(r, Px(2, v), Px(1, v)))
    {
      hide Tree, MemOk;
      var p, level := r, 2;
      PxTop(v);
      WalkOwned(frames, owner, r, Px(2, v), Px(1, v));
      while level > 0
        invariant 0 <= level <= 2
        invariant level == 2 ==> p == r
        invariant level == 1 ==> p == MidOf(frames, r, Px(2, v)) != 0
        invariant level == 0 ==> p == LowOf(frames, r, Px(2, v), Px(1, v)) != 0
      {
        TableFrame(frames, owner, p);
        var e := frames[p].ptes[Px(level, v)];
        if !V(e) { return 0; }
        p := PageOf(e);
        level := level - 1;
      }
      return p;
    }

    // Write the level-0 entry of page v in table q.
    method SetPte(q: nat, e: nat, ghost r: nat, v: nat)
      requires Ok() && v < MAXVPN && Owns(owner, q, LowTable(r, Px(2, v), Px(1, v)))
      requires LeafEntry(e)
      requires forall u: nat :: Owns(owner, u, UserPage(r, v)) ==> V(e) && PageOf(e) == u
      modifies this`frames
      ensures Ok() && Leaf(frames, r, v) == e
      ensures GrewBut(old(frames), frames, owner, owner, r, v, v + 1)
    {
      hide Tree, MemOk;
      SetLeaf(frames, owner, q, r, v, e);
      MemUpdate(frames, freelist, free, owner, lo, hi, q, Table(frames[q].ptes[Px(0, v) := e]), owner[q]);
      assert owner[q := owner[q]] == owner;
      frames := frames[q := Table(frames[q].ptes[Px(0, v) := e])];
    }

    // The loop of mappages over pages first..last. On failure the first k pages
    // stay mapped, as in the source.
    method MapRange(r: nat, first: nat, last: nat, page0: nat, perm: nat) returns (ok: bool, ghost k: nat)
      requires Ok() && Owns(owner, r, RootTable)
      requires first <= last < MAXVPN && perm < 1024 && RWX(perm)
      requires Unmapped(frames, r, first, last + 1)
      modifies this
      ensures Ok()
      ensures ok ==> k == last + 1 - first
      ensures !ok ==> k < last + 1 - first && free == []
      ensures |free| <= |old(free)| <= |free| + 2 * (last + 1 - first)
      ensures !ok && first == last ==> |old(free)| <= 1
      ensures Mapped(frames, r, first, k, page0, WithV(perm))
      ensures GrewBut(old(frames), frames, old(owner), owner, r, first, first + k)
    {
      hide Tree, MemOk, GrewBut, Grew, Pte, WithV, Leaf, Mapped, Unmapped, RWX;
      var a, page := first, page0;
      MappedNothing(frames, r, first, page0, WithV(perm));
      GrewNothing(frames, owner, r, first);
      k := 0;
      while true
        invariant k == a - first && first <= a <= last && page == page0 + k
        invariant Ok() && Owns(owner, r, RootTable)
        invariant GrewBut(old(frames), frames, old(owner), owner, r, first, a)
        invariant Mapped(frames, r, first, k, page0, WithV(perm))
        invariant |free| <= |old(free)| <= |free| + 2 * k
        decreases last - a
      {
        ghost var f1, o1 := frames, owner;
        var q := Walk(r, a, true);
        GrewSeq(old(frames), f1, frames, old(owner), o1, owner, r, first, a);
        MappedKept(f1, frames, r, first, k, page0, WithV(perm));
        if q == 0 { return false, k; }
        GrewLeaf(old(frames), frames, old(owner), owner, r, first, a, a);
        UnmappedAt(old(frames), r, first, last + 1, a);
        WithVFields(page, perm);
        NoOwnerOfUnmapped(frames, owner, r, a);
        ghost var f2, o2 := frames, owner;
        SetPte(q, Pte(page, WithV(perm)), r, a);
        GrewTwice(old(frames), f2, frames, old(owner), o2, owner, r, first, a, a + 1);
        MappedKept(f2, frames, r, first, k, page0, WithV(perm));
        MappedMore(frames, r, first, k, page0, WithV(perm));
        k := k + 1;
        if a == last { return true, k; }
        a := a + 1;
        page := page + 1;
      }
    }

    method MapPages(r: nat, va: nat, size: nat, pa: nat, perm: nat) returns (ok: bool, ghost k: nat)
      requires Ok() && Owns(owner, r, RootTable)
      requires size > 0 && va + size <= MAXVPN * PGSIZE && perm < 1024 && RWX(perm)
      requires Unmapped(frames, r, va / PGSIZE, (va + size - 1) / PGSIZE + 1)
      modifies this
      ensures Ok()
      ensures ok ==> k == (va + size - 1) / PGSIZE + 1 - va / PGSIZE
      ensures !ok ==> k < (va + size - 1) / PGSIZE + 1 - va / PGSIZE && free == []
      ensures Mapped(frames, r, va / PGSIZE, k, pa / PGSIZE, WithV(perm))
      ensures GrewBut(old(frames), frames, old(owner), owner, r, va / PGSIZE, va / PGSIZE + k)
    {
      ok, k := MapRange(r, va / PGSIZE, (va + size - 1) / PGSIZE, pa / PGSIZE, perm);
    }

    // ---------------------------------------------------------------- unmapping

    // One round of uvmunmap. Its panics demand that the page is mapped; with
    // doFree the page must be the address space's own.
    method UnmapOne(r: nat, v: nat, doFree: bool)
      requires Ok() && Owns(owner, r, RootTable) && v < MAXVPN
      requires V(Leaf(frames, r, v)) && OwnLeaf(frames, owner, r, v, doFree)
      modifies this
      ensures Ok() && Leaf(frames, r, v) == 0
      ensures |free| == |old(free)| + if doFree then 1 else 0
      ensures Shrank(old(frames), frames, old(owner), owner, r, v, v + 1, doFree)
    {
      hide Tree, MemOk, Shrank, GrewBut, Leaf;
      var q := Walk(r, v, false);
      LeafIn(frames, owner, r, v);
      TableFrame(frames, owner, q);
      var e := frames[q].ptes[Px(0, v)];
      ghost var f0, o0, x := frames, owner, Run(freelist);
      if doFree {
        var u := PageOf(e);
        DropUser(frames, owner, r, v, u, x);
        Kfree(u);
      }
      ghost var f1, o1 := frames, owner;
      NoOtherOwner(f0, o0, o1, r, v, doFree);
      SetPte(q, 0, r, v);
      ShrankOnce(f0, f1, frames, o0, owner, r, v, doFree, x);
    }

    // uvmunmap over whole pages
    method UvmUnmap(r: nat, v0: nat, n: nat, doFree: bool)
      requires Ok() && Owns(owner, r, RootTable) && v0 + n <= MAXVPN
      requires forall v: nat :: v0 <= v < v0 + n ==> V(Leaf(frames, r, v)) && OwnLeaf(frames, owner, r, v, doFree)
      modifies this
      ensures Ok() && Unmapped(frames, r, v0, v0 + n)
      ensures |free| == |old(free)| + if doFree then n else 0
      ensures Shrank(old(frames), frames, old(owner), owner, r, v0, v0 + n, doFree)
    {
      hide Tree, MemOk, Shrank, OwnLeaf;
      ShrankNothing(frames, owner, r, v0, doFree);
      for v := v0 to v0 + n
        invariant Ok() && Owns(owner, r, RootTable) && Unmapped(frames, r, v0, v)
        invariant Shrank(old(frames), frames, old(owner), owner, r, v0, v, doFree)
        invariant |free| == |old(free)| + if doFree then v - v0 else 0
        invariant forall w: nat :: v <= w < v0 + n ==> V(Leaf(frames, r, w)) && OwnLeaf(frames, owner, r, w, doFree)
      {
        ghost var f1, o1 := frames, owner;
        UnmapOne(r, v, doFree);
        ShrankKeeps(f1, frames, o1, owner, r, v, v + 1, v0 + n, doFree);
        ShrankTwice(old(frames), f1, frames, old(owner), o1, owner, r, v0, v, v + 1, doFree);
      }
    }

    // ---------------------------------------------------------------- freewalk

    // Free table p and the tables behind it. All leaf entries are already 0.
    method FreeWalk(p: nat, ghost level: nat)
      requires Mem() && p in owner && Below(frames, owner, p)
      requires level == Level(owner[p])
      modifies this
      ensures Mem()
      ensures Cut(old(frames), frames, old(owner), owner, p)
      decreases level
    {
      hide MemOk, Below, CutTo;
      ghost var f0, o0 := frames, owner;
      CutNothing(frames, owner, p);
      for i: nat := 0 to 512
        invariant Mem() && p in owner
        invariant CutTo(f0, frames, o0, owner, p, i)
      {
        CutEntry(f0, frames, o0, owner, p, i);
        var pte := frames[p].ptes[i];
        if V(pte) && !RWX(pte) {
          ghost var f1, o1 := frames, owner;
          CutChild(f0, frames, o0, owner, p, i);
          FreeWalk(PageOf(pte), level - 1);
          CutMore(f0, f1, frames, o0, o1, owner, p, i);
          MemUpdate(frames, freelist, free, owner, lo, hi, p, Table(frames[p].ptes[i := 0]), owner[p]);
          assert owner[p := owner[p]] == owner;
          frames := frames[p := Table(frames[p].ptes[i := 0])];
        } else {
          CutSkip(f0, frames, o0, owner, p, i);
        }
      }
      CutAll(f0, frames, o0, owner, p, Run(freelist));
      Kfree(p);
    }

    // ---------------------------------------------------------------- address spaces

    method UvmCreate() returns (r: nat)
      requires Ok()
      modifies this
      ensures Ok()
      ensures r == 0 <==> old(free) == []
      ensures r == 0 ==> frames == old(frames) && owner == old(owner) && free == old(free)
      ensures r != 0 ==>
        && r !in old(owner) && owner == old(owner)[r := RootTable] && Unmapped(frames, r, 0, MAXVPN)
        && free == old(free)[1..]
        && SameLeaves(old(frames), frames, old(owner)) && SameData(old(frames), frames, old(owner))
    {
      hide MemOk, Tree, Unmapped;
      MemPages(frames, freelist, free, owner, lo, hi);
      r := Kalloc();
      if r != 0 {
        MemUpdate(frames, freelist, free, owner, lo, hi, r, ZeroTable(), RootTable);
        AddRoot(old(frames), old(owner), r);
        frames := frames[r := ZeroTable()];
        owner := owner[r := RootTable];
        assert frames == old(frames)[r := ZeroTable()] && owner == old(owner)[r := RootTable];
      }
    }

    // Allocate one zeroed or given page and map it at page v: the loop bodies of
    // uvmalloc and uvmcopy.
    method AllocOne(r: nat, v: nat, contents: seq<nat>, perm: nat) returns (ok: bool)
      requires Ok() && Owns(owner, r, RootTable) && v < MAXVPN
      requires Leaf(frames, r, v) == 0 && perm < 1024 && RWX(perm) && |contents| == PGSIZE
      modifies this
      ensures Ok()
      ensures ok ==> UserAt(frames, owner, r, v, WithV(perm), contents)
      ensures !ok ==> |free| <= 1
      ensures GrewUser(old(frames), frames, old(owner), owner, r, v, if ok then v + 1 else v)
    {
      hide MemOk, Tree, GrewBut, Leaf, WithV, GrewUser, Pte;
      MemPages(frames, freelist, free, owner, lo, hi);
      var mem := Kalloc();
      if mem == 0 {
        GrewUserNothing(frames, owner, r, v);
        return false;
      }
      ghost var f0, o0 := old(frames), old(owner);
      MemUpdate(frames, freelist, free, owner, lo, hi, mem, Data(contents), Other);
      frames := frames[mem := Data(contents)];
      ghost var f1, o1 := frames, owner;
      assert f1 == f0[mem := Data(contents)] && o1 == o0[mem := Other] && owner[mem := Other] == owner;
      TakeOther(f0, o0, mem, Data(contents));
      LeafSame(f0, f1, o0, r, v);
      ghost var k;
      ok, k := MapRange(r, v, v, mem, perm);
      ghost var f2, o2 := frames, owner;
      MappedOne(f2, r, v, k, mem, WithV(perm));
      if !ok {
        ReturnOther(f0, f1, f2, o0, o1, o2, r, v, mem, Run(freelist));
        Kfree(mem);
      } else {
        WithVFields(mem, perm);
        BecomeUser(f0, f1, f2, o0, o1, o2, r, v, mem, WithV(perm), contents);
        MemUpdate(frames, freelist, free, owner, lo, hi, mem, frames[mem], UserPage(r, v));
        assert frames[mem := frames[mem]] == frames;
        owner := owner[mem := UserPage(r, v)];
      }
    }

    // uvmdealloc
    method UvmDealloc(r: nat, oldsz: nat, newsz: nat) returns (ret: nat)
      requires Ok() && Owns(owner, r, RootTable) && Pages(oldsz) <= MAXVPN
      requires forall v: nat :: Pages(newsz) <= v < Pages(oldsz) ==>
        V(Leaf(frames, r, v)) && OwnLeaf(frames, owner, r, v, true)
      modifies this
      ensures Ok()
      ensures ret == if newsz >= oldsz then oldsz else newsz
      ensures newsz >= oldsz ==> frames == old(frames) && owner == old(owner) && free == old(free)
      ensures newsz < oldsz ==>
        && Unmapped(frames, r, Pages(newsz), Pages(oldsz))
        && Shrank(old(frames), frames, old(owner), owner, r, Pages(newsz), Pages(oldsz), true)
        && |free| == |old(free)| + Pages(oldsz) - Pages(newsz)
      // in bytes: exactly the pages from newsz on are gone
      ensures forall v: nat :: newsz <= v * PGSIZE < oldsz ==> Leaf(frames, r, v) == 0
      ensures forall v: nat :: v < MAXVPN && !(newsz <= v * PGSIZE < oldsz) ==>
        Leaf(frames, r, v) == old(Leaf(frames, r, v))
    {
      hide MemOk, Tree, Shrank, OwnLeaf, Unmapped, Leaf;
      if newsz >= oldsz {
        return oldsz;
      }
      PagesMonotone(newsz, oldsz);
      ghost var f0, o0 := frames, owner;
      if Pages(newsz) < Pages(oldsz) {
        UvmUnmap(r, Pages(newsz), Pages(oldsz) - Pages(newsz), true);
      } else {
        ShrankNothing(frames, owner, r, Pages(newsz), true);
        UnmappedNothing(frames, r, Pages(newsz));
      }
      ShrankBytes(f0, frames, o0, owner, r, newsz, oldsz);
      return newsz;
    }

    // uvmalloc: all pages or none. It fails only when the pool runs out, so that
    // no more is left than it gave back itself. A failure may leave empty tables
    // behind, but no flat map changes and no user page is kept.
    method UvmAlloc(r: nat, oldsz: nat, newsz: nat, xperm: nat) returns (ret: nat)
      requires Ok() && Owns(owner, r, RootTable) && Pages(newsz) <= MAXVPN && xperm in {0, 4, 8, 12}
      requires oldsz <= newsz ==> Unmapped(frames, r, Pages(oldsz), Pages(newsz))
      modifies this
      ensures Ok()
      ensures newsz < oldsz ==> ret == oldsz && frames == old(frames) && owner == old(owner) && free == old(free)
      ensures oldsz <= newsz ==> ret == newsz || ret == 0
      ensures oldsz <= newsz && ret == newsz ==>
        && GrewUser(old(frames), frames, old(owner), owner, r, Pages(oldsz), Pages(newsz))
        && AllUser(frames, owner, r, Pages(oldsz), Pages(newsz), WithV(18 + xperm), ZERO_PAGE)
      // in bytes: exactly the pages from oldsz on are new
      ensures oldsz <= newsz && ret == newsz ==>
        forall v: nat :: oldsz <= v * PGSIZE < newsz ==> UserAt(frames, owner, r, v, WithV(18 + xperm), ZERO_PAGE)
      ensures forall v: nat :: v < MAXVPN && !(oldsz <= v * PGSIZE < newsz && ret == newsz) ==>
        Leaf(frames, r, v) == old(Leaf(frames, r, v))
      ensures oldsz <= newsz && ret != newsz ==>
        && GrewUser(old(frames), frames, old(owner), owner, r, Pages(oldsz), Pages(oldsz))
        && |free| <= Pages(newsz) - Pages(oldsz)
    {
      hide MemOk, Tree, GrewUser, OwnLeaf, Leaf, WithV, UserAt, Pages, Shrank;
      if newsz < oldsz {
        return oldsz;
      }
      PagesMonotone(oldsz, newsz);
      ghost var f0, o0 := frames, owner;
      MemPages(frames, freelist, free, owner, lo, hi);
      GrewUserNothing(frames, owner, r, Pages(oldsz));
      var v := Pages(oldsz);
      while v < Pages(newsz)
        invariant Pages(oldsz) <= v <= Pages(newsz) && Ok() && Owns(owner, r, RootTable)
        invariant GrewUser(f0, frames, o0, owner, r, Pages(oldsz), v)
        invariant AllUser(frames, owner, r, Pages(oldsz), v, WithV(18 + xperm), ZERO_PAGE)
      {
        ghost var f1, o1 := frames, owner;
        GrewUserLeaf(f0, frames, o0, owner, r, Pages(oldsz), v, v);
        PermRWX(xperm);
        var ok := AllocOne(r, v, ZERO_PAGE, 18 + xperm);
        GrewUserTwice(f0, f1, frames, o0, o1, owner, r, Pages(oldsz), v, if ok then v + 1 else v);
        AllUserKept(f1, frames, o1, owner, r, Pages(oldsz), v, v, if ok then v + 1 else v, WithV(18 + xperm),
                    ZERO_PAGE);
        if !ok {
          ghost var f2, o2 := frames, owner;
          AllUserOwn(frames, owner, r, Pages(oldsz), v, WithV(18 + xperm), ZERO_PAGE);
          UvmUnmap(r, Pages(oldsz), v - Pages(oldsz), true);
          RolledBack(f0, f2, frames, o0, o2, owner, r, Pages(oldsz), v);
          GrewBytes(f0, frames, o0, owner, r, oldsz, oldsz);
          return 0;
        }
        v := v + 1;
      }
      GrewBytes(f0, frames, o0, owner, r, oldsz, newsz);
      return newsz;
    }

    // uvmcopy: the child gets a copy of every page with the same flags, or, when
    // the pool runs out, nothing. The parent's map and pages do not change.
    method UvmCopy(parent: nat, child: nat, sz: nat) returns (ok: bool)
      requires Ok() && Owns(owner, parent, RootTable) && Owns(owner, child, RootTable) && parent != child
      requires Pages(sz) <= MAXVPN && Unmapped(frames, child, 0, Pages(sz))
      requires forall v: nat :: v < Pages(sz) ==> V(Leaf(frames, parent, v)) && OwnLeaf(frames, owner, parent, v, true)
      modifies this
      ensures Ok()
      ensures GrewUser(old(frames), frames, old(owner), owner, child, 0, if ok then Pages(sz) else 0)
      ensures ok ==> Copied(frames, owner, parent, child, Pages(sz))
      // in bytes: exactly the pages below sz
      ensures ok ==> forall v: nat :: v * PGSIZE < sz ==> CopyAt(frames, owner, parent, child, v)
      ensures forall v: nat :: v < MAXVPN && !(v * PGSIZE < sz && ok) ==>
        Leaf(frames, child, v) == old(Leaf(frames, child, v))
      ensures !ok ==> |free| <= Pages(sz)
    {
      hide MemOk, Tree, GrewUser, OwnLeaf, Leaf, WithV, UserAt, Pages, Shrank, V, RWX, Flags, PageOf, Copied;
      ghost var f0, o0 := frames, owner;
      MemPages(frames, freelist, free, owner, lo, hi);
      GrewUserNothing(frames, owner, child, 0);
      CopiedNothing(frames, owner, parent, child);
      NoPages();
      var v := 0;
      while v < Pages(sz)
        invariant 0 <= v <= Pages(sz) && Ok() && Owns(owner, child, RootTable) && Owns(owner, parent, RootTable)
        invariant GrewUser(f0, frames, o0, owner, child, 0, v)
        invariant Copied(frames, owner, parent, child, v)
      {
        ghost var f1, o1 := frames, owner;
        ParentLeaf(f0, frames, o0, owner, parent, child, v);
        var q := Walk(parent, v, false);
        LeafIn(frames, owner, parent, v);
        TableFrame(frames, owner, q);
        var pte := frames[q].ptes[Px(0, v)];
        OwnData(frames, owner, parent, v);
        var contents := frames[PageOf(pte)].bytes;
        GrewUserLeaf(f0, frames, o0, owner, child, 0, v, v);
        FlagsV(pte);
        ok := AllocOne(child, v, contents, Flags(pte));
        GrewUserTwice(f0, f1, frames, o0, o1, owner, child, 0, v, if ok then v + 1 else v);
        OwnsKept(f1, frames, o1, owner, child, v, if ok then v + 1 else v, parent);
        CopiedKept(f1, frames, o1, owner, parent, child, v, if ok then v + 1 else v);
        if !ok {
          ghost var f2, o2 := frames, owner;
          CopiedOwn(frames, owner, parent, child, v);
          UvmUnmap(child, 0, v, true);
          UnmappedPrefix(f0, child, v, Pages(sz));
          RolledBack(f0, f2, frames, o0, o2, owner, child, 0, v);
          GrewBytes(f0, frames, o0, owner, child, 0, 0);
          return false;
        }
        CopiedMore(f1, frames, o1, owner, parent, child, v, contents, Flags(pte));
        v := v + 1;
      }
      GrewBytes(f0, frames, o0, owner, child, 0, sz);
      CopiedBytes(frames, owner, parent, child, sz);
      return true;
    }

    // uvmfree: free the n user pages, then every table. Nothing of the address
    // space stays, nothing of any other changes.
    method UvmFree(r: nat, n: nat)
      requires Ok() && Owns(owner, r, RootTable) && n <= MAXVPN
      requires forall v: nat :: v < n ==> V(Leaf(frames, r, v)) && OwnLeaf(frames, owner, r, v, true)
      requires Unmapped(frames, r, n, MAXVPN)
      modifies this
      ensures Ok()
      ensures Removed(old(frames), frames, old(owner), owner, r)
    {
      hide MemOk, Tree, Shrank, OwnLeaf, Leaf, Below, Cut;
      ghost var f0, o0 := frames, owner;
      MemPages(frames, freelist, free, owner, lo, hi);
      if n > 0 {
        UvmUnmap(r, 0, n, true);
      } else {
        ShrankNothing(frames, owner, r, 0, true);
      }
      ShrankRoot(f0, frames, o0, owner, r, 0, n, true);
      ghost var f1, o1 := frames, owner;
      MemPages(f1, freelist, free, o1, lo, hi);
      AllUnmapped(f0, f1, o0, o1, r, n);
      NoUserLeft(f1, o1, r);
      BelowRoot(f1, o1, r);
      FreeWalk(r, 2);
      TreeAfterCut(f1, frames, o1, owner, r);
      RemovedAll(f0, f1, frames, o0, o1, owner, r, n);
    }
  }

  // ---------------------------------------------------------------- user pages

  ghost predicate SameData(f: Frames, g: Frames, o: Owners) {
    forall p :: p in o && p in f && !TableOwner(o[p]) ==> p in g && g[p] == f[p]
  }

  // Page v of r is mapped with these flags to a page of its own with these contents.
  ghost predicate UserAt(f: Frames, o: Owners, r: nat, v: nat, flags: nat, contents: seq<nat>) {
    var u := PageOf(Leaf(f, r, v));
    && V(Leaf(f, r, v)) && Flags(Leaf(f, r, v)) == flags
    && Owns(o, u, UserPage(r, v)) && u in f && f[u] == Data(contents)
  }

  // Tables of r and user pages lo..hi-1 of r were added; outside that range
  // every flat map is as it was, and so is every page that is no table.
  ghost predicate GrewUser(f: Frames, g: Frames, o: Owners, o': Owners, r: nat, lo: nat, hi: nat) {
    && (forall p :: p in o ==> p in o' && o'[p] == o[p])
    && (forall p :: p in o' && p !in o ==>
          ((o'[p].MidTable? || o'[p].LowTable?) && o'[p].root == r) || UserIn(o'[p], r, lo, hi))
    && SameLeavesBut(f, g, o, r, lo, hi)
    && SameData(f, g, o)
  }

  lemma GrewUserNothing(f: Frames, o: Owners, r: nat, v: nat)
    ensures GrewUser(f, f, o, o, r, v, v)
  {
  }

  // PGROUNDUP(sz) / PGSIZE
  function Pages(sz: nat): nat {
    (sz + PGSIZE - 1) / PGSIZE
  }

  // The pages that hold the first sz bytes
  lemma PagesExact(sz: nat)
    ensures forall v: nat :: v < Pages(sz) <==> v * PGSIZE < sz
  {
  }

  lemma GrewBytes(f: Frames, g: Frames, o: Owners, o': Owners, r: nat, oldsz: nat, newsz: nat)
    requires GrewUser(f, g, o, o', r, Pages(oldsz), Pages(newsz)) && Owns(o, r, RootTable)
    ensures forall v: nat :: oldsz <= v * PGSIZE < newsz ==> Pages(oldsz) <= v < Pages(newsz)
    ensures forall v: nat :: v < MAXVPN && !(oldsz <= v * PGSIZE < newsz) ==> Leaf(g, r, v) == Leaf(f, r, v)
  {
    PagesExact(oldsz);
    PagesExact(newsz);
    hide Pages, Leaf;
  }

  lemma ShrankBytes(f: Frames, g: Frames, o: Owners, o': Owners, r: nat, newsz: nat, oldsz: nat)
    requires Shrank(f, g, o, o', r, Pages(newsz), Pages(oldsz), true) && Owns(o, r, RootTable)
    requires Unmapped(g, r, Pages(newsz), Pages(oldsz))
    ensures forall v: nat :: newsz <= v * PGSIZE < oldsz ==> Leaf(g, r, v) == 0
    ensures forall v: nat :: v < MAXVPN && !(newsz <= v * PGSIZE < oldsz) ==> Leaf(g, r, v) == Leaf(f, r, v)
  {
    PagesExact(oldsz);
    PagesExact(newsz);
    hide Pages, Leaf;
  }

  lemma CopiedBytes(f: Frames, o: Owners, parent: nat, child: nat, sz: nat)
    requires Copied(f, o, parent, child, Pages(sz))
    ensures forall v: nat :: v * PGSIZE < sz ==> CopyAt(f, o, parent, child, v)
  {
    PagesExact(sz);
    hide Pages, CopyAt;
  }

  lemma NoPages()
    ensures Pages(0) == 0
  {
  }

  lemma PagesMonotone(a: nat, b: nat)
    requires a <= b
    ensures Pages(a) <= Pages(b)
  {
  }

  const ZERO_PAGE: seq<nat> := seq(PGSIZE, _ => 0)

  // PTE_R | PTE_U | xperm
  lemma PermRWX(xperm: nat)
    requires xperm in {0, 4, 8, 12}
    ensures 18 + xperm < 1024 && RWX(18 + xperm)
  {
  }

  ghost predicate AllUser(f: Frames, o: Owners, r: nat, lo: nat, hi: nat, flags: nat, contents: seq<nat>) {
    forall v: nat :: lo <= v < hi ==> UserAt(f, o, r, v, flags, contents)
  }

  lemma UnmappedNothing(f: Frames, r: nat, v: nat)
    ensures Unmapped(f, r, v, v)
  {
  }

  lemma GrewUserLeaf(f: Frames, g: Frames, o: Owners, o': Owners, r: nat, lo: nat, hi: nat, v: nat)
    requires GrewUser(f, g, o, o', r, lo, hi) && Owns(o, r, RootTable) && v < MAXVPN && !(lo <= v < hi)
    ensures Leaf(g, r, v) == Leaf(f, r, v)
  {
  }

  lemma GrewUserTwice(f: Frames, g: Frames, h: Frames, o: Owners, o': Owners, o'': Owners, r: nat, lo: nat, mid: nat,
                      hi: nat)
    requires GrewUser(f, g, o, o', r, lo, mid) && GrewUser(g, h, o', o'', r, mid, hi) && lo <= mid <= hi
    requires Owns(o, r, RootTable) && forall p :: p in o ==> p in f
    ensures GrewUser(f, h, o, o'', r, lo, hi) && Owns(o'', r, RootTable)
  {
    forall s: nat, v: nat | Owns(o, s, RootTable) && v < MAXVPN && !(s == r && lo <= v < hi)
      ensures Leaf(h, s, v) == Leaf(f, s, v)
    {
      assert Owns(o', s, RootTable);
      assert Leaf(h, s, v) == Leaf(g, s, v);
      assert Leaf(g, s, v) == Leaf(f, s, v);
    }
  }

  lemma UserAtKept(f: Frames, g: Frames, o: Owners, o': Owners, r: nat, lo: nat, hi: nat, v: nat, flags: nat,
                   contents: seq<nat>)
    requires GrewUser(f, g, o, o', r, lo, hi) && Owns(o, r, RootTable) && v < MAXVPN && !(lo <= v < hi)
    requires UserAt(f, o, r, v, flags, contents)
    ensures UserAt(g, o', r, v, flags, contents)
  {
    assert Leaf(g, r, v) == Leaf(f, r, v);
  }

  lemma AllUserKept(f: Frames, g: Frames, o: Owners, o': Owners, r: nat, first: nat, last: nat, lo: nat, hi: nat,
                    flags: nat, contents: seq<nat>)
    requires GrewUser(f, g, o, o', r, lo, hi) && Owns(o, r, RootTable) && last <= MAXVPN && last <= lo
    requires AllUser(f, o, r, first, last, flags, contents)
    ensures AllUser(g, o', r, first, last, flags, contents)
  {
    forall v: nat | first <= v < last ensures UserAt(g, o', r, v, flags, contents) {
      UserAtKept(f, g, o, o', r, lo, hi, v, flags, contents);
    }
  }

  lemma AllUserOwn(f: Frames, o: Owners, r: nat, lo: nat, hi: nat, flags: nat, contents: seq<nat>)
    requires AllUser(f, o, r, lo, hi, flags, contents)
    ensures forall v: nat :: lo <= v < hi ==> V(Leaf(f, r, v)) && OwnLeaf(f, o, r, v, true)
  {
    forall v: nat | lo <= v < hi ensures V(Leaf(f, r, v)) && OwnLeaf(f, o, r, v, true) {
      assert UserAt(f, o, r, v, flags, contents);
    }
  }

  lemma NoneUnmapped(f: Frames, o: Owners, r: nat, lo: nat, hi: nat, p: nat)
    requires Tree(f, o) && Unmapped(f, r, lo, hi) && p in o
    ensures !UserIn(o[p], r, lo, hi)
  {
    assert PageOk(f, o, p);
  }

  // Growing by lo..hi-1 and giving those pages up again changes no flat map.
  lemma RolledBack(f: Frames, g: Frames, h: Frames, o: Owners, o': Owners, o'': Owners, r: nat, lo: nat, hi: nat)
    requires Tree(f, o) && Owns(o, r, RootTable) && lo <= hi <= MAXVPN && forall p :: p in o ==> p in f
    requires GrewUser(f, g, o, o', r, lo, hi) && Shrank(g, h, o', o'', r, lo, hi, true)
    requires Unmapped(f, r, lo, hi) && Unmapped(h, r, lo, hi)
    ensures GrewUser(f, h, o, o'', r, lo, lo)
  {
    hide Tree, Leaf;
    forall p | p in o ensures !UserIn(o[p], r, lo, hi) {
      NoneUnmapped(f, o, r, lo, hi, p);
    }
    forall s: nat, v: nat | Owns(o, s, RootTable) && v < MAXVPN ensures Leaf(h, s, v) == Leaf(f, s, v) {
      assert Owns(o', s, RootTable);
      if !(s == r && lo <= v < hi) {
        assert Leaf(h, s, v) == Leaf(g, s, v);
        assert Leaf(g, s, v) == Leaf(f, s, v);
      }
    }
  }

  // Page v of the child is its own copy of the parent's page v.
  ghost predicate CopyAt(f: Frames, o: Owners, parent: nat, child: nat, v: nat) {
    var u := PageOf(Leaf(f, parent, v));
    && u in f && f[u].Data? && Owns(o, u, UserPage(parent, v))
    && UserAt(f, o, child, v, Flags(Leaf(f, parent, v)), f[u].bytes)
  }

  ghost predicate Copied(f: Frames, o: Owners, parent: nat, child: nat, n: nat) {
    forall v: nat :: v < n ==> CopyAt(f, o, parent, child, v)
  }

  lemma CopiedNothing(f: Frames, o: Owners, parent: nat, child: nat)
    ensures Copied(f, o, parent, child, 0)
  {
  }

  lemma FlagsV(e: nat)
    requires V(e) && RWX(e)
    ensures Flags(e) < 1024 && RWX(Flags(e)) && WithV(Flags(e)) == Flags(e)
  {
  }

  lemma ParentLeaf(f: Frames, g: Frames, o: Owners, o': Owners, parent: nat, child: nat, v: nat)
    requires GrewUser(f, g, o, o', child, 0, v) && Owns(o, parent, RootTable) && parent != child && v < MAXVPN
    requires V(Leaf(f, parent, v)) && OwnLeaf(f, o, parent, v, true)
    ensures Owns(o', parent, RootTable) && V(Leaf(g, parent, v)) && OwnLeaf(g, o', parent, v, true)
  {
    assert Leaf(g, parent, v) == Leaf(f, parent, v);
  }

  lemma OwnData(f: Frames, o: Owners, r: nat, v: nat)
    requires Tree(f, o) && OwnLeaf(f, o, r, v, true)
    ensures IsPage(f, PageOf(Leaf(f, r, v)))
  {
    assert PageOk(f, o, PageOf(Leaf(f, r, v)));
  }

  lemma OwnsKept(f: Frames, g: Frames, o: Owners, o': Owners, r: nat, lo: nat, hi: nat, p: nat)
    requires GrewUser(f, g, o, o', r, lo, hi) && Owns(o, p, RootTable)
    ensures Owns(o', p, RootTable)
  {
  }

  lemma CopiedKept(f: Frames, g: Frames, o: Owners, o': Owners, parent: nat, child: nat, v: nat, hi: nat)
    requires GrewUser(f, g, o, o', child, v, hi) && Copied(f, o, parent, child, v) && parent != child && v <= MAXVPN
    requires Owns(o, parent, RootTable) && Owns(o, child, RootTable)
    ensures Copied(g, o', parent, child, v)
  {
    hide Leaf, Flags, PageOf, V;
    forall w: nat | w < v ensures CopyAt(g, o', parent, child, w) {
      assert CopyAt(f, o, parent, child, w);
      assert Leaf(g, parent, w) == Leaf(f, parent, w);
      UserAtKept(f, g, o, o', child, v, hi, w, Flags(Leaf(f, parent, w)), f[PageOf(Leaf(f, parent, w))].bytes);
    }
  }

  lemma CopiedMore(f: Frames, g: Frames, o: Owners, o': Owners, parent: nat, child: nat, v: nat, contents: seq<nat>,
                   flags: nat)
    requires Copied(g, o', parent, child, v) && UserAt(g, o', child, v, flags, contents)
    requires GrewUser(f, g, o, o', child, v, v + 1) && Owns(o, parent, RootTable) && parent != child && v < MAXVPN
    requires OwnLeaf(f, o, parent, v, true) && flags == Flags(Leaf(f, parent, v))
    requires PageOf(Leaf(f, parent, v)) in f && f[PageOf(Leaf(f, parent, v))] == Data(contents)
    ensures Copied(g, o', parent, child, v + 1)
  {
    hide Leaf, Flags, PageOf, V, UserAt;
    assert Leaf(g, parent, v) == Leaf(f, parent, v);
    assert CopyAt(g, o', parent, child, v);
  }

  lemma CopiedOwn(f: Frames, o: Owners, parent: nat, child: nat, n: nat)
    requires Copied(f, o, parent, child, n)
    ensures forall v: nat :: v < n ==> V(Leaf(f, child, v)) && OwnLeaf(f, o, child, v, true)
  {
    forall v: nat | v < n ensures V(Leaf(f, child, v)) && OwnLeaf(f, o, child, v, true) {
      assert CopyAt(f, o, parent, child, v);
    }
  }

  lemma UnmappedPrefix(f: Frames, r: nat, n: nat, m: nat)
    requires Unmapped(f, r, 0, m) && n <= m
    ensures Unmapped(f, r, 0, n)
  {
  }

  // ---------------------------------------------------------------- removing an address space

  predicate Belongs(w: Owner, p: nat, r: nat) {
    (p == r && w.RootTable?) || ((w.MidTable? || w.LowTable? || w.UserPage?) && w.root == r)
  }

  // Exactly what belonged to r is free again; nothing else changed.
  ghost predicate Removed(f: Frames, g: Frames, o: Owners, o': Owners, r: nat) {
    && (forall p :: p in o' <==> p in o && !Belongs(o[p], p, r))
    && (forall p :: p in o' && p in o ==> o'[p] == o[p])
    && SameLeaves(f, g, o') && SameData(f, g, o')
  }

  lemma ShrankRoot(f: Frames, g: Frames, o: Owners, o': Owners, r: nat, lo: nat, hi: nat, doFree: bool)
    requires Shrank(f, g, o, o', r, lo, hi, doFree) && Owns(o, r, RootTable)
    ensures Owns(o', r, RootTable)
  {
  }

  lemma AllUnmapped(f: Frames, g: Frames, o: Owners, o': Owners, r: nat, n: nat)
    requires Shrank(f, g, o, o', r, 0, n, true) && Owns(o, r, RootTable)
    requires Unmapped(f, r, n, MAXVPN) && Unmapped(g, r, 0, n)
    ensures Unmapped(g, r, 0, MAXVPN)
  {
    forall v: nat | v < MAXVPN ensures Leaf(g, r, v) == 0 {
      if v >= n {
        assert Leaf(g, r, v) == Leaf(f, r, v);
      }
    }
  }

  lemma NoUserLeft(f: Frames, o: Owners, r: nat)
    requires Tree(f, o) && Unmapped(f, r, 0, MAXVPN)
    ensures forall p :: p in o ==> !(o[p].UserPage? && o[p].root == r)
  {
    forall p | p in o ensures !(o[p].UserPage? && o[p].root == r) {
      assert PageOk(f, o, p);
      if o[p].UserPage? {
        UserMapping(f, o, p);
      }
    }
  }

  lemma UserMapping(f: Frames, o: Owners, p: nat)
    requires p in o && o[p].UserPage? && PageOk(f, o, p)
    ensures o[p].vpn < MAXVPN && Leaf(f, o[p].root, o[p].vpn) != 0
  {
    hide Leaf;
  }

  // A tree that maps nothing has only zero entries at level 0.
  lemma BelowRoot(f: Frames, o: Owners, r: nat)
    requires Tree(f, o) && Owns(o, r, RootTable) && Unmapped(f, r, 0, MAXVPN)
    ensures Below(f, o, r)
  {
    forall x, c: nat | Under(o, x, r) && o[x].LowTable? && c < 512 ensures Entry(f, x, c) == 0 {
      assert PageOk(f, o, x);
      LowFrame(f, o, x, r, o[x].a, o[x].b);
      var v := VpnOf(o[x].a, o[x].b, c);
      assert Leaf(f, r, v) == Entry(f, x, c);
    }
  }

  // The other trees survive the cutting of one.
  lemma TreeAfterCut(f: Frames, g: Frames, o: Owners, o': Owners, r: nat)
    requires Tree(f, o) && Owns(o, r, RootTable) && Cut(f, g, o, o', r)
    requires forall p :: p in o ==> p in f
    requires forall p :: p in o ==> !(o[p].UserPage? && o[p].root == r)
    ensures Tree(g, o') && SameLeaves(f, g, o') && SameData(f, g, o')
  {
    forall x | x in o' ensures PageOk(f, o', x) {
      assert PageOk(f, o, x);
      match o[x]
      case RootTable =>
        forall a: nat | a < 512 ensures Interior(o', Entry(f, x, a), MidTable(x, a)) {
          assert Interior(o, Entry(f, x, a), MidTable(x, a));
        }
      case MidTable(s, a) =>
        forall b: nat | b < 512 ensures Interior(o', Entry(f, x, b), LowTable(s, a, b)) {
          assert Interior(o, Entry(f, x, b), LowTable(s, a, b));
        }
      case LowTable(s, a, b) =>
      case UserPage(s, v) =>
      case Other =>
    }
    TreeThroughTables(f, g, o') by {
      forall u | u in o' && o'[u].UserPage? ensures IsPage(g, u) {
        assert PageOk(f, o', u);
      }
    }
  }

  // Every user page of r lies where r maps something.
  lemma UserBelow(f: Frames, o: Owners, r: nat, n: nat, p: nat)
    requires Tree(f, o) && Unmapped(f, r, n, MAXVPN) && p in o && o[p].UserPage? && o[p].root == r
    ensures UserIn(o[p], r, 0, n)
  {
    assert PageOk(f, o, p);
  }

  lemma RemovedAll(f: Frames, g: Frames, h: Frames, o: Owners, o': Owners, o'': Owners, r: nat, n: nat)
    requires Shrank(f, g, o, o', r, 0, n, true) && Owns(o', r, RootTable) && Owns(o, r, RootTable)
    requires Cut(g, h, o', o'', r)
    requires Tree(f, o) && Unmapped(f, r, n, MAXVPN) && forall p :: p in o ==> p in f
    requires SameLeaves(g, h, o'') && SameData(g, h, o'')
    ensures Removed(f, h, o, o'', r)
  {
    hide Tree, Leaf, Unmapped;
    forall p | p in o ensures p in o'' <==> !Belongs(o[p], p, r) {
      if o[p].UserPage? && o[p].root == r {
        UserBelow(f, o, r, n, p);
      }
    }
    forall s: nat, v: nat | Owns(o'', s, RootTable) && v < MAXVPN ensures Leaf(h, s, v) == Leaf(f, s, v) {
      assert Owns(o, s, RootTable);
      assert Leaf(h, s, v) == Leaf(g, s, v);
      assert Leaf(g, s, v) == Leaf(f, s, v);
    }
  }

  lemma AddRoot(f: Frames, o: Owners, r: nat)
    requires Tree(f, o) && r in f && r !in o && r != 0
    ensures var g := f[r := ZeroTable()];
            && Tree(g, o[r := RootTable]) && SameLeaves(f, g, o) && SameData(f, g, o)
            && Unmapped(g, r, 0, MAXVPN)
  {
    var g, o' := f[r := ZeroTable()], o[r := RootTable];
    TreeThroughTables(f, g, o) by {
      forall u | u in o && o[u].UserPage? ensures IsPage(g, u) {
        assert PageOk(f, o, u);
      }
    }
    forall a: nat | a < 512 ensures Entry(g, r, a) == 0 {
    }
    forall x | x in o' ensures PageOk(g, o', x) {
      if x != r {
        assert PageOk(g, o, x);
        match o[x]
        case RootTable =>
          forall a: nat | a < 512 ensures Interior(o', Entry(g, x, a), MidTable(x, a)) {
            assert Interior(o, Entry(g, x, a), MidTable(x, a));
          }
        case MidTable(s, a) =>
          forall b: nat | b < 512 ensures Interior(o', Entry(g, x, b), LowTable(s, a, b)) {
            assert Interior(o, Entry(g, x, b), LowTable(s, a, b));
          }
        case _ =>
      }
    }
  }

  lemma TakeOther(f: Frames, o: Owners, p: nat, x: Frame)
    requires Tree(f, o) && p !in o
    ensures Tree(f[p := x], o[p := Other]) && SameLeaves(f, f[p := x], o) && SameData(f, f[p := x], o)
  {
    TreeThroughTables(f, f[p := x], o) by {
      forall u | u in o && o[u].UserPage? ensures IsPage(f[p := x], u) {
        assert PageOk(f, o, u);
      }
    }
    TreeTake(f[p := x], o, p, Other);
  }

  lemma LeafSame(f: Frames, g: Frames, o: Owners, r: nat, v: nat)
    requires SameLeaves(f, g, o) && Owns(o, r, RootTable) && v < MAXVPN
    ensures Leaf(g, r, v) == Leaf(f, r, v)
  {
  }

  lemma MappedOne(f: Frames, r: nat, v: nat, k: nat, page: nat, flags: nat)
    requires Mapped(f, r, v, k, page, flags) && k <= 1
    ensures k == 1 ==> Leaf(f, r, v) == Pte(page, flags)
  {
  }

  // mappages failed: the page goes back.
  lemma ReturnOther(f0: Frames, f1: Frames, f2: Frames, o0: Owners, o1: Owners, o2: Owners, r: nat, v: nat, p: nat,
                    x: Frame)
    requires p !in o0 && o1 == o0[p := Other] && SameLeaves(f0, f1, o0) && SameData(f0, f1, o0)
    requires GrewBut(f1, f2, o1, o2, r, v, v) && Tree(f2, o2) && Owns(o0, r, RootTable)
    requires forall q :: q in o0 ==> q in f0
    ensures p in o2 && Tree(f2[p := x], o2 - {p}) && GrewUser(f0, f2[p := x], o0, o2 - {p}, r, v, v)
  {
    TreeDrop(f2, o2, p);
    var g, o' := f2[p := x], o2 - {p};
    TreeThroughTables(f2, g, o') by {
      forall u | u in o' && o'[u].UserPage? ensures IsPage(g, u) {
        assert PageOk(f2, o2, u);
      }
    }
    forall s: nat, w: nat | Owns(o0, s, RootTable) && w < MAXVPN ensures Leaf(g, s, w) == Leaf(f0, s, w) {
      assert Owns(o1, s, RootTable) && Owns(o', s, RootTable);
      assert Leaf(g, s, w) == Leaf(f2, s, w);
      assert Leaf(f2, s, w) == Leaf(f1, s, w);
      assert Leaf(f1, s, w) == Leaf(f0, s, w);
    }
  }

  lemma UserTaken(f: Frames, o: Owners, r: nat, v: nat, p: nat, flags: nat, contents: seq<nat>)
    requires Tree(f, o) && Owns(o, r, RootTable) && Owns(o, p, Other) && v < MAXVPN
    requires p in f && f[p] == Data(contents) && |contents| == PGSIZE
    requires Leaf(f, r, v) == Pte(p, flags) && flags < 1024 && V(flags)
    ensures Tree(f, o[p := UserPage(r, v)]) && UserAt(f, o[p := UserPage(r, v)], r, v, flags, contents)
  {
    hide Tree, Leaf, Pte, Flags, PageOf, V;
    PteFields(p, flags);
    TreeTake(f, o, p, UserPage(r, v));
  }

  // mappages succeeded: the page is now the address space's.
  lemma BecomeUser(f0: Frames, f1: Frames, f2: Frames, o0: Owners, o1: Owners, o2: Owners, r: nat, v: nat, p: nat,
                   flags: nat, contents: seq<nat>)
    requires p !in o0 && o1 == o0[p := Other] && f1 == f0[p := Data(contents)] && |contents| == PGSIZE
    requires SameLeaves(f0, f1, o0) && SameData(f0, f1, o0)
    requires GrewBut(f1, f2, o1, o2, r, v, v + 1) && Tree(f2, o2) && Owns(o0, r, RootTable) && v < MAXVPN
    requires forall q :: q in o0 ==> q in f0
    requires Leaf(f2, r, v) == Pte(p, flags) && flags < 1024 && V(flags)
    ensures p in o2 && p in f2
    ensures Tree(f2, o2[p := UserPage(r, v)])
    ensures GrewUser(f0, f2, o0, o2[p := UserPage(r, v)], r, v, v + 1)
    ensures UserAt(f2, o2[p := UserPage(r, v)], r, v, flags, contents)
  {
    hide Tree, Leaf, Pte, Flags, PageOf, V, SameLeaves, SameData, GrewUser, UserAt;
    OtherThrough(f1, f2, o1, o2, r, v, p);
    UserTaken(f2, o2, r, v, p, flags, contents);
    LeavesThrough(f0, f1, f2, o0, o1, r, v, p);
    DataThrough(f0, f1, f2, o0, o1, p);
    UserAdded(f0, f2, o0, o2, r, v, p);
  }

  lemma OtherThrough(f: Frames, g: Frames, o: Owners, o': Owners, r: nat, v: nat, p: nat)
    requires GrewBut(f, g, o, o', r, v, v + 1) && Owns(o, p, Other) && Owns(o, r, RootTable) && p in f
    ensures p in g && g[p] == f[p] && Owns(o', p, Other) && Owns(o', r, RootTable)
  {
  }

  lemma LeavesThrough(f0: Frames, f1: Frames, f2: Frames, o0: Owners, o1: Owners, r: nat, v: nat, p: nat)
    requires p !in o0 && o1 == o0[p := Other] && SameLeaves(f0, f1, o0) && SameLeavesBut(f1, f2, o1, r, v, v + 1)
    ensures SameLeavesBut(f0, f2, o0, r, v, v + 1)
  {
    hide Leaf;
    forall s: nat, w: nat | Owns(o0, s, RootTable) && w < MAXVPN && !(s == r && v <= w < v + 1)
      ensures Leaf(f2, s, w) == Leaf(f0, s, w)
    {
      assert Owns(o1, s, RootTable);
      assert Leaf(f2, s, w) == Leaf(f1, s, w);
      assert Leaf(f1, s, w) == Leaf(f0, s, w);
    }
  }

  lemma DataThrough(f0: Frames, f1: Frames, f2: Frames, o0: Owners, o1: Owners, p: nat)
    requires p !in o0 && o1 == o0[p := Other] && SameData(f0, f1, o0) && SameData(f1, f2, o1)
    ensures SameData(f0, f2, o0)
  {
    forall x | x in o0 && x in f0 && !TableOwner(o0[x]) ensures x in f2 && f2[x] == f0[x] {
      assert x in o1 && o1[x] == o0[x];
    }
  }

  lemma UserAdded(f0: Frames, f2: Frames, o0: Owners, o2: Owners, r: nat, v: nat, p: nat)
    requires p !in o0 && SameLeavesBut(f0, f2, o0, r, v, v + 1) && SameData(f0, f2, o0)
    requires forall x :: x in o0 ==> x in o2 && o2[x] == o0[x]
    requires forall x :: x in o2 && x !in o0 && x != p ==> (o2[x].MidTable? || o2[x].LowTable?) && o2[x].root == r
    ensures GrewUser(f0, f2, o0, o2[p := UserPage(r, v)], r, v, v + 1)
  {
  }

  // ---------------------------------------------------------------- cutting a tree

  ghost function Level(w: Owner): nat {
    match w case RootTable => 2 case MidTable(_, _) => 1 case _ => 0
  }

  // x is p or a table below it.
  ghost predicate Under(o: Owners, x: nat, p: nat)
    requires p in o
  {
    x in o &&
    (x == p
     || (o[p].RootTable? && (o[x].MidTable? || o[x].LowTable?) && o[x].root == p)
     || (o[p].MidTable? && o[x].LowTable? && o[x].root == o[p].root && o[x].a == o[p].a))
  }

  // The entry of p behind which table w hangs.
  function Branch(top: Owner, w: Owner): int {
    if top.RootTable? && (w.MidTable? || w.LowTable?) then w.a
    else if w.LowTable? then w.b else -1
  }

  // p and the tables below it are well shaped and map nothing.
  ghost predicate Below(f: Frames, o: Owners, p: nat)
    requires p in o
  {
    && TableOwner(o[p])
    && (forall x :: Under(o, x, p) ==> PageOk(f, o, x))
    && (forall x, c: nat {:trigger Entry(f, x, c)} :: Under(o, x, p) && o[x].LowTable? && c < 512 ==>
          Entry(f, x, c) == 0)
  }

  // Everything under p is gone and nothing else changed.
  ghost predicate Cut(f: Frames, g: Frames, o: Owners, o': Owners, p: nat)
    requires p in o
  {
    && (forall x :: x in o' <==> x in o && !Under(o, x, p))
    && (forall x :: x in o' && x in o ==> o'[x] == o[x])
    && (forall x :: x in o' && x in o && x in f ==> x in g && g[x] == f[x])
  }

  // The first i branches of p are gone.
  ghost predicate CutTo(f: Frames, g: Frames, o: Owners, o': Owners, p: nat, i: nat)
    requires p in o
  {
    && Below(f, o, p) && p in o' && IsTable(g, p) && IsTable(f, p)
    && (forall x :: x in o' <==> x in o && !(Under(o, x, p) && x != p && Branch(o[p], o[x]) < i))
    && (forall x :: x in o' && x in o ==> o'[x] == o[x])
    && (forall x :: x in o' && x in o && x != p && x in f ==> x in g && g[x] == f[x])
    && (forall j: nat :: j < 512 ==> Entry(g, p, j) == if j < i then 0 else Entry(f, p, j))
  }

  lemma CutNothing(f: Frames, o: Owners, p: nat)
    requires p in o && Below(f, o, p)
    ensures CutTo(f, f, o, o, p, 0)
  {
    assert Under(o, p, p);
    assert PageOk(f, o, p);
    forall x | x in o ensures !(Under(o, x, p) && x != p && Branch(o[p], o[x]) < 0) {
    }
  }

  lemma CutEntry(f: Frames, g: Frames, o: Owners, o': Owners, p: nat, i: nat)
    requires p in o && CutTo(f, g, o, o', p, i) && i < 512
    ensures IsTable(g, p) && Entry(g, p, i) == Entry(f, p, i) && o'[p] == o[p]
  {
  }

  // An interior entry leads to the one table of its branch.
  lemma ChildAt(f: Frames, o: Owners, p: nat, i: nat)
    requires p in o && Below(f, o, p) && i < 512
    ensures V(Entry(f, p, i)) ==>
      && o[p].LowTable? == false && !RWX(Entry(f, p, i))
      && (var c := PageOf(Entry(f, p, i));
          && c != p && Under(o, c, p) && Branch(o[p], o[c]) == i && Level(o[c]) == Level(o[p]) - 1
          && TableOwner(o[c])
          && forall x :: Under(o, x, c) <==> Under(o, x, p) && x != p && Branch(o[p], o[x]) == i)
    ensures !V(Entry(f, p, i)) ==>
      Entry(f, p, i) == 0 && forall x :: !(Under(o, x, p) && x != p && Branch(o[p], o[x]) == i)
  {
    assert Under(o, p, p);
    assert PageOk(f, o, p);
    var e := Entry(f, p, i);
    match o[p]
    case RootTable => {
      assert Interior(o, e, MidTable(p, i));
      forall x | Under(o, x, p) && x != p && Branch(o[p], o[x]) == i ensures V(e) {
        assert PageOk(f, o, x);
        if o[x].MidTable? {
          PteFields(x, 1);
        } else {
          var m := MidOf(f, p, i);
          assert Owns(o, m, MidTable(p, i)) && Under(o, m, p);
          assert PageOk(f, o, m);
        }
      }
    }
    case MidTable(r, a) => {
      assert Interior(o, e, LowTable(r, a, i));
      forall x | Under(o, x, p) && x != p && Branch(o[p], o[x]) == i ensures V(e) {
        assert PageOk(f, o, x);
        PteFields(x, 1);
        PteFields(p, 1);
      }
    }
    case LowTable(r, a, b) =>
  }

  lemma CutChild(f: Frames, g: Frames, o: Owners, o': Owners, p: nat, i: nat)
    requires p in o && CutTo(f, g, o, o', p, i) && i < 512 && V(Entry(g, p, i))
    ensures var c := PageOf(Entry(g, p, i));
            && c != p && c in o' && c in o && o'[c] == o[c] && Level(o'[c]) == Level(o'[p]) - 1
            && Below(g, o', c)
  {
    ChildAt(f, o, p, i);
    var c := PageOf(Entry(g, p, i));
    forall x | Under(o', x, c) ensures Under(o, x, c) && PageOk(g, o', x) {
      assert PageOk(f, o, x);
      PageOkKept(f, g, o, o', p, i, x);
    }
    forall x, k: nat | Under(o', x, c) && o'[x].LowTable? && k < 512 ensures Entry(g, x, k) == 0 {
      assert Under(o, x, p);
      assert Entry(f, x, k) == 0;
    }
  }

  lemma PageOkKept(f: Frames, g: Frames, o: Owners, o': Owners, p: nat, i: nat, x: nat)
    requires p in o && CutTo(f, g, o, o', p, i) && i < 512 && V(Entry(g, p, i))
    requires Under(o, x, p) && x != p && Branch(o[p], o[x]) == i
    ensures x in o' && PageOk(g, o', x)
  {
    assert PageOk(f, o, x);
    assert Under(o, p, p);
    assert PageOk(f, o, p);
    assert forall j: nat :: Entry(g, x, j) == Entry(f, x, j);
    assert Entry(g, p, i) == Entry(f, p, i);
    if o[x].MidTable? {
      forall b: nat | b < 512 ensures Interior(o', Entry(g, x, b), LowTable(p, i, b)) {
        assert Interior(o, Entry(f, x, b), LowTable(p, i, b));
      }
    } else if o[p].RootTable? {
      var m := MidOf(f, p, i);
      assert Under(o, m, p) && m != p && m in o';
      assert MidOf(g, p, i) == m && Entry(g, m, o[x].b) == Entry(f, m, o[x].b);
      LowKept(f, g, o, o', x, p, i, o[x].b);
    } else {
      var r := o[p].root;
      assert r in o && !Under(o, r, p) && r in o';
      PteFields(p, 1);
      assert MidOf(f, r, o[p].a) == p && MidOf(g, r, o[p].a) == p;
      LowKept(f, g, o, o', x, r, o[p].a, i);
    }
  }

  lemma LowKept(f: Frames, g: Frames, o: Owners, o': Owners, x: nat, r: nat, a: nat, b: nat)
    requires LowOk(f, o, x, r, a, b) && x in g && x in f && g[x] == f[x]
    requires Owns(o', r, RootTable) && MidOf(g, r, a) == MidOf(f, r, a)
    requires Owns(o', MidOf(g, r, a), MidTable(r, a)) && Entry(g, MidOf(g, r, a), b) == Entry(f, MidOf(f, r, a), b)
    ensures LowOk(g, o', x, r, a, b)
  {
    forall c: nat | c < 512 ensures LeafEntry(Entry(g, x, c)) {
      assert LeafEntry(Entry(f, x, c));
    }
  }

  lemma CutMore(f: Frames, g: Frames, h: Frames, o: Owners, o': Owners, o'': Owners, p: nat, i: nat)
    requires p in o && CutTo(f, g, o, o', p, i) && i < 512 && V(Entry(g, p, i))
    requires p in g && PageOf(Entry(g, p, i)) in o'
    requires Cut(g, h, o', o'', PageOf(Entry(g, p, i)))
    ensures p in o'' && IsTable(h, p) && h[p] == g[p]
    ensures CutTo(f, h[p := Table(h[p].ptes[i := 0])], o, o'', p, i + 1)
  {
    ChildAt(f, o, p, i);
    var c := PageOf(Entry(g, p, i));
    forall x | x in o' ensures Under(o', x, c) <==> Under(o, x, c) {
    }
    assert !Under(o', p, c);
    var k := h[p := Table(h[p].ptes[i := 0])];
    forall j: nat | j < 512 ensures Entry(k, p, j) == if j < i + 1 then 0 else Entry(f, p, j) {
      assert Entry(g, p, j) == if j < i then 0 else Entry(f, p, j);
    }
  }

  lemma CutSkip(f: Frames, g: Frames, o: Owners, o': Owners, p: nat, i: nat)
    requires p in o && CutTo(f, g, o, o', p, i) && i < 512 && !(V(Entry(g, p, i)) && !RWX(Entry(g, p, i)))
    ensures CutTo(f, g, o, o', p, i + 1)
  {
    ChildAt(f, o, p, i);
  }

  lemma CutAll(f: Frames, g: Frames, o: Owners, o': Owners, p: nat, x: Frame)
    requires p in o && CutTo(f, g, o, o', p, 512)
    ensures Cut(f, g[p := x], o, o' - {p}, p)
  {
    forall y | Under(o, y, p) && y != p ensures Branch(o[p], o[y]) < 512 {
      assert PageOk(f, o, y);
    }
  }

  // ---------------------------------------------------------------- shrinking a tree

  // With doFree the mapped page is owned for this very place; without, nothing is.
  ghost predicate OwnLeaf(f: Frames, o: Owners, r: nat, v: nat, doFree: bool) {
    if doFree then Owns(o, PageOf(Leaf(f, r, v)), UserPage(r, v)) else forall u: nat :: !Owns(o, u, UserPage(r, v))
  }

  predicate UserIn(w: Owner, r: nat, lo: nat, hi: nat) {
    w.UserPage? && w.root == r && lo <= w.vpn < hi
  }

  // Exactly the user pages lo..hi-1 of r were given up (none without doFree);
  // outside that range every flat map is as it was, and so is every other page.
  ghost predicate Shrank(f: Frames, g: Frames, o: Owners, o': Owners, r: nat, lo: nat, hi: nat, doFree: bool) {
    && (forall p :: p in o' <==> p in o && !(doFree && UserIn(o[p], r, lo, hi)))
    && (forall p :: p in o' && p in o ==> o'[p] == o[p])
    && SameLeavesBut(f, g, o, r, lo, hi)
    && (forall p :: p in o' && p in o && p in f && !TableOwner(o[p]) ==> p in g && g[p] == f[p])
  }

  lemma LeafIn(f: Frames, o: Owners, r: nat, v: nat)
    requires Tree(f, o) && Owns(o, r, RootTable) && v < MAXVPN && V(Leaf(f, r, v))
    ensures var q := LowOf(f, r, Px(2, v), Px(1, v));
            && q != 0 && Owns(o, q, LowTable(r, Px(2, v), Px(1, v)))
            && Entry(f, q, Px(0, v)) == Leaf(f, r, v)
            && RWX(Leaf(f, r, v))
  {
    PxTop(v);
    WalkOwned(f, o, r, Px(2, v), Px(1, v));
    LowFrame(f, o, LowOf(f, r, Px(2, v), Px(1, v)), r, Px(2, v), Px(1, v));
  }

  lemma ClearU(e: nat)
    requires LeafEntry(e)
    ensures U(e) ==> e >= 16
    ensures var e' := if U(e) then e - 16 else e;
            !U(e') && V(e') == V(e) && RWX(e') == RWX(e) && PageOf(e') == PageOf(e) && LeafEntry(e')
  {
    hide Pte, PageOf, Flags;
    PteParts(e);
    if U(e) {
      Minus16(Flags(e));
      PteFields(PageOf(e), Flags(e) - 16);
    }
  }

  lemma PteParts(e: nat)
    ensures e == Pte(PageOf(e), Flags(e)) && Flags(e) < 1024
    ensures U(e) ==> Flags(e) >= 16
    ensures U(e) ==> Pte(PageOf(e), Flags(e) - 16) == e - 16
  {
  }

  lemma Minus16(fl: nat)
    requires 16 <= fl < 1024 && fl / 16 % 2 == 1
    ensures V(fl - 16) == (fl % 2 == 1) && RWX(fl - 16) == (fl / 2 % 8 != 0) && !U(fl - 16)
  {
    assert (fl - 16) / 2 == fl / 2 - 8 && (fl - 16) / 16 == fl / 16 - 1;
  }

  // What is owned for page v is what page v maps.
  lemma LeafUsed(f: Frames, o: Owners, r: nat, v: nat)
    requires Tree(f, o)
    ensures forall u: nat :: Owns(o, u, UserPage(r, v)) ==> V(Leaf(f, r, v)) && PageOf(Leaf(f, r, v)) == u
  {
    forall u: nat | Owns(o, u, UserPage(r, v)) ensures V(Leaf(f, r, v)) && PageOf(Leaf(f, r, v)) == u {
      assert PageOk(f, o, u);
    }
  }

  lemma DropUser(f: Frames, o: Owners, r: nat, v: nat, u: nat, x: Frame)
    requires Tree(f, o) && Owns(o, u, UserPage(r, v))
    ensures Tree(f[u := x], o - {u}) && SameLeaves(f, f[u := x], o - {u})
  {
    TreeDrop(f, o, u);
    TreeThroughTables(f, f[u := x], o - {u}) by {
      forall y | y in o - {u} && (o - {u})[y].UserPage? ensures IsPage(f[u := x], y) {
        assert PageOk(f, o, y);
      }
    }
  }

  lemma NoOtherOwner(f: Frames, o: Owners, o': Owners, r: nat, v: nat, doFree: bool)
    requires Tree(f, o) && OwnLeaf(f, o, r, v, doFree)
    requires o' == if doFree then o - {PageOf(Leaf(f, r, v))} else o
    ensures forall u: nat :: !Owns(o', u, UserPage(r, v))
  {
    forall u: nat | u in o' ensures !Owns(o', u, UserPage(r, v)) {
      assert PageOk(f, o, u);
    }
  }

  lemma OnlyPageOf(f: Frames, o: Owners, r: nat, v: nat, doFree: bool)
    requires Tree(f, o) && OwnLeaf(f, o, r, v, doFree)
    ensures forall p :: p in o && o[p] == UserPage(r, v) ==> doFree && p == PageOf(Leaf(f, r, v))
    ensures doFree ==> Owns(o, PageOf(Leaf(f, r, v)), UserPage(r, v))
  {
    forall p | p in o && o[p] == UserPage(r, v) ensures doFree && p == PageOf(Leaf(f, r, v)) {
      assert PageOk(f, o, p);
      assert Owns(o, p, UserPage(r, v));
    }
  }

  lemma ShrankOnce(f: Frames, f1: Frames, g: Frames, o: Owners, o': Owners, r: nat, v: nat, doFree: bool, x: Frame)
    requires Tree(f, o) && OwnLeaf(f, o, r, v, doFree) && v < MAXVPN
    requires o' == if doFree then o - {PageOf(Leaf(f, r, v))} else o
    requires f1 == if doFree then f[PageOf(Leaf(f, r, v)) := x] else f
    requires SameLeaves(f, f1, o')
    requires GrewBut(f1, g, o', o', r, v, v + 1)
    ensures Shrank(f, g, o, o', r, v, v + 1, doFree)
  {
    hide Tree, Leaf, V, PageOf, OwnLeaf, UserIn;
    OnlyPageOf(f, o, r, v, doFree);
    forall p | p in o ensures UserIn(o[p], r, v, v + 1) <==> o[p] == UserPage(r, v) {
      OnePage(o[p], r, v);
    }
    LeavesOnce(f, f1, g, o, o', r, v);
  }

  lemma OnePage(w: Owner, r: nat, v: nat)
    ensures UserIn(w, r, v, v + 1) <==> w == UserPage(r, v)
  {
  }

  lemma LeavesOnce(f: Frames, f1: Frames, g: Frames, o: Owners, o': Owners, r: nat, v: nat)
    requires SameLeaves(f, f1, o') && SameLeavesBut(f1, g, o', r, v, v + 1)
    requires forall s: nat :: Owns(o, s, RootTable) ==> Owns(o', s, RootTable)
    ensures SameLeavesBut(f, g, o, r, v, v + 1)
  {
    hide Leaf;
    forall s: nat, w: nat | Owns(o, s, RootTable) && w < MAXVPN && !(s == r && v <= w < v + 1)
      ensures Leaf(g, s, w) == Leaf(f, s, w)
    {
      assert Leaf(g, s, w) == Leaf(f1, s, w);
    }
  }

  lemma ShrankNothing(f: Frames, o: Owners, r: nat, v: nat, doFree: bool)
    ensures Shrank(f, f, o, o, r, v, v, doFree)
  {
  }

  lemma ShrankTwice(f: Frames, g: Frames, h: Frames, o: Owners, o': Owners, o'': Owners, r: nat, lo: nat, mid: nat,
                    hi: nat, doFree: bool)
    requires Shrank(f, g, o, o', r, lo, mid, doFree) && Shrank(g, h, o', o'', r, mid, hi, doFree) && lo <= mid <= hi
    requires Owns(o, r, RootTable)
    ensures Shrank(f, h, o, o'', r, lo, hi, doFree)
    ensures Owns(o', r, RootTable) && Owns(o'', r, RootTable)
    ensures forall v: nat :: lo <= v < mid && v < MAXVPN ==> Leaf(h, r, v) == Leaf(g, r, v)
  {
    assert Owns(o', r, RootTable);
    forall s: nat, v: nat | Owns(o, s, RootTable) && v < MAXVPN && !(s == r && lo <= v < hi)
      ensures Leaf(h, s, v) == Leaf(f, s, v)
    {
      assert Owns(o', s, RootTable);
      assert Leaf(h, s, v) == Leaf(g, s, v);
      assert Leaf(g, s, v) == Leaf(f, s, v);
    }
  }

  // What is to be unmapped next is untouched.
  lemma ShrankKeeps(f: Frames, g: Frames, o: Owners, o': Owners, r: nat, lo: nat, hi: nat, top: nat, doFree: bool)
    requires Shrank(f, g, o, o', r, lo, hi, doFree) && Owns(o, r, RootTable) && lo <= hi <= top <= MAXVPN
    requires forall w: nat :: lo <= w < top ==> V(Leaf(f, r, w)) && OwnLeaf(f, o, r, w, doFree)
    ensures forall w: nat :: hi <= w < top ==> V(Leaf(g, r, w)) && OwnLeaf(g, o', r, w, doFree)
  {
    forall w: nat | hi <= w < top ensures V(Leaf(g, r, w)) && OwnLeaf(g, o', r, w, doFree) {
      assert Leaf(g, r, w) == Leaf(f, r, w);
      assert OwnLeaf(f, o, r, w, doFree);
      assert forall u: nat :: Owns(o', u, UserPage(r, w)) ==> Owns(o, u, UserPage(r, w));
    }
  }

  // ---------------------------------------------------------------- reading the shape

  lemma TableFrame(f: Frames, o: Owners, p: nat)
    requires Tree(f, o) && p in o && TableOwner(o[p])
    ensures IsTable(f, p)
  {
    assert PageOk(f, o, p);
  }

  lemma MidFrame(f: Frames, o: Owners, m: nat, r: nat, a: nat)
    requires Tree(f, o) && Owns(o, m, MidTable(r, a))
    ensures m != 0 && a < 256 && MidOf(f, r, a) == m && Owns(o, r, RootTable)
    ensures forall b: nat :: b < 512 ==> Interior(o, Entry(f, m, b), LowTable(r, a, b))
  {
    assert PageOk(f, o, m);
    PteFields(m, 1);
  }

  lemma LowFrame(f: Frames, o: Owners, q: nat, r: nat, a: nat, b: nat)
    requires Tree(f, o) && Owns(o, q, LowTable(r, a, b))
    ensures q != 0 && LowOf(f, r, a, b) == q && Owns(o, r, RootTable)
    ensures forall c: nat :: c < 512 ==> LeafEntry(Entry(f, q, c))
  {
    assert PageOk(f, o, q);
    MidFrame(f, o, MidOf(f, r, a), r, a);
    PteFields(q, 1);
  }

  lemma MemPages(f: Frames, head: nat, free: seq<nat>, o: Owners, lo: nat, hi: nat)
    requires MemOk(f, head, free, o, lo, hi)
    ensures 0 !in o && forall p :: p in o ==> p in f
    ensures forall p :: p in f ==> (p in o <==> p !in free)
  {
  }

  // A page that is not mapped is not owned for that place.
  lemma NoOwnerOfUnmapped(f: Frames, o: Owners, r: nat, v: nat)
    requires Tree(f, o) && Leaf(f, r, v) == 0
    ensures forall u: nat :: !Owns(o, u, UserPage(r, v))
  {
    forall u: nat | u in o ensures !Owns(o, u, UserPage(r, v)) {
      assert PageOk(f, o, u);
    }
  }

  lemma GrewLeaf(f: Frames, g: Frames, o: Owners, o': Owners, r: nat, lo: nat, hi: nat, v: nat)
    requires GrewBut(f, g, o, o', r, lo, hi) && Owns(o, r, RootTable) && v < MAXVPN && !(lo <= v < hi)
    ensures Leaf(g, r, v) == Leaf(f, r, v)
  {
  }

  // A walk after some pages were changed.
  lemma GrewSeq(f: Frames, g: Frames, h: Frames, o: Owners, o': Owners, o'': Owners, r: nat, lo: nat, mid: nat)
    requires GrewBut(f, g, o, o', r, lo, mid) && Grew(g, h, o', o'', r) && lo <= mid && Owns(o, r, RootTable)
    ensures GrewBut(f, h, o, o'', r, lo, mid) && Owns(o'', r, RootTable)
    ensures forall v :: lo <= v < mid && v < MAXVPN ==> Leaf(h, r, v) == Leaf(g, r, v)
  {
    GrewWider(g, h, o', o'', r, mid, mid);
    GrewTwice(f, g, h, o, o', o'', r, lo, mid, mid);
  }

  lemma GrewNothing(f: Frames, o: Owners, r: nat, v: nat)
    ensures GrewBut(f, f, o, o, r, v, v)
  {
  }
}
