/**
 Process address spaces over vm.c: proc_pagetable, growproc, the copy made by
 fork, proc_freepagetable (kernel/proc.c), and the conservation of physical
 pages over whole runs of such operations.
 */
module AddressSpace {
  import opened PageTable
  import opened VirtualMemory

  const TRAMPOLINE: nat := MAXVPN - 1
  const TRAPFRAME: nat := MAXVPN - 2

  // ---------------------------------------------------------------- one address space at a time

  ghost predicate Foreign(o: Owners, p: nat, r: nat) {
    p in o && !Belongs(o[p], p, r)
  }

  // Only address space r changed: every page it does not own keeps its owner
  // and, unless it is a table, its contents; every other flat map is the same.
  ghost predicate Only(f: Frames, g: Frames, o: Owners, o': Owners, r: nat) {
    && (forall p :: Foreign(o, p, r) <==> Foreign(o', p, r))
    && (forall p :: Foreign(o, p, r) ==> o'[p] == o[p])
    && (forall s: nat, v: nat {:trigger Leaf(g, s, v)} :: Owns(o, s, RootTable) && s != r && v < MAXVPN ==>
          Leaf(g, s, v) == Leaf(f, s, v))
    && (forall p :: Foreign(o, p, r) && p in f && !TableOwner(o[p]) ==> p in g && g[p] == f[p])
  }

  lemma OnlyTwice(f: Frames, g: Frames, h: Frames, o: Owners, o': Owners, o'': Owners, r: nat)
    requires Only(f, g, o, o', r) && Only(g, h, o', o'', r)
    ensures Only(f, h, o, o'', r)
  {
    hide Leaf;
    forall s: nat, v: nat | Owns(o, s, RootTable) && s != r && v < MAXVPN ensures Leaf(h, s, v) == Leaf(f, s, v) {
      assert Foreign(o, s, r);
      assert Leaf(h, s, v) == Leaf(g, s, v);
      assert Leaf(g, s, v) == Leaf(f, s, v);
    }
  }

  lemma GrewButOnly(f: Frames, g: Frames, o: Owners, o': Owners, r: nat, lo: nat, hi: nat)
    requires GrewBut(f, g, o, o', r, lo, hi)
    ensures Only(f, g, o, o', r)
  {
    hide Leaf;
  }

  lemma GrewUserOnly(f: Frames, g: Frames, o: Owners, o': Owners, r: nat, lo: nat, hi: nat)
    requires GrewUser(f, g, o, o', r, lo, hi)
    ensures Only(f, g, o, o', r)
  {
    hide Leaf;
  }

  lemma ShrankOnly(f: Frames, g: Frames, o: Owners, o': Owners, r: nat, lo: nat, hi: nat, doFree: bool)
    requires Shrank(f, g, o, o', r, lo, hi, doFree)
    ensures Only(f, g, o, o', r)
  {
    hide Leaf;
  }

  lemma RemovedOnly(f: Frames, g: Frames, o: Owners, o': Owners, r: nat)
    requires Removed(f, g, o, o', r)
    ensures Only(f, g, o, o', r)
    ensures forall p :: p in o' ==> Foreign(o', p, r)
  {
    hide Leaf;
    forall s: nat, v: nat | Owns(o, s, RootTable) && s != r && v < MAXVPN ensures Leaf(g, s, v) == Leaf(f, s, v) {
      assert Owns(o', s, RootTable);
    }
  }

  lemma CreatedOnly(f: Frames, g: Frames, o: Owners, r: nat)
    requires r !in o && SameLeaves(f, g, o) && SameData(f, g, o)
    requires forall p :: p in o ==> !Belongs(o[p], p, r)
    ensures Only(f, g, o, o[r := RootTable], r)
  {
    hide Leaf;
  }

  // A page that is no root has no tree.
  lemma NoTreeYet(f: Frames, o: Owners, r: nat)
    requires Tree(f, o) && r !in o
    ensures forall p :: p in o ==> !Belongs(o[p], p, r)
  {
    forall p | p in o ensures !Belongs(o[p], p, r) {
      assert PageOk(f, o, p);
    }
  }

  // ---------------------------------------------------------------- operations of proc.c

  // The address space of a process of n pages.
  ghost predicate Space(f: Frames, o: Owners, r: nat, n: nat, trampoline: nat, trapframe: nat) {
    && Owns(o, r, RootTable) && n <= TRAPFRAME
    && (forall v: nat :: v < n ==> V(Leaf(f, r, v)) && OwnLeaf(f, o, r, v, true))
    && Unmapped(f, r, n, TRAPFRAME)
    && Leaf(f, r, TRAMPOLINE) == Pte(trampoline, 11)   // PTE_R | PTE_X | PTE_V
    && Leaf(f, r, TRAPFRAME) == Pte(trapframe, 7)      // PTE_R | PTE_W | PTE_V
    && OwnLeaf(f, o, r, TRAMPOLINE, false) && OwnLeaf(f, o, r, TRAPFRAME, false)
  }

  // The other address spaces are what they were.
  lemma SpaceKept(f: Frames, g: Frames, o: Owners, o': Owners, r: nat, s: nat, n: nat, trampoline: nat, trapframe: nat)
    requires Only(f, g, o, o', r) && s != r && Space(f, o, s, n, trampoline, trapframe)
    ensures Space(g, o', s, n, trampoline, trapframe)
  {
    hide Leaf, Pte, V, PageOf;
    assert Foreign(o, s, r);
    assert forall v: nat :: v < MAXVPN ==> Leaf(g, s, v) == Leaf(f, s, v);
    forall v: nat | v < n ensures V(Leaf(g, s, v)) && OwnLeaf(g, o', s, v, true) {
      assert OwnLeaf(f, o, s, v, true);
      assert Foreign(o, PageOf(Leaf(f, s, v)), r);
    }
    forall u: nat, v: nat | Owns(o', u, UserPage(s, v)) ensures Owns(o, u, UserPage(s, v)) {
      assert Foreign(o', u, r);
    }
  }

  // Only r is new, and it is gone again: no owner, map or page differs.
  lemma GoneAgain(f: Frames, g: Frames, o: Owners, o': Owners, r: nat)
    requires Only(f, g, o, o', r) && r !in o
    requires (forall p :: p in o ==> !Belongs(o[p], p, r)) && (forall p :: p in o' ==> Foreign(o', p, r))
    ensures o' == o && SameLeaves(f, g, o) && SameData(f, g, o)
  {
    hide Leaf;
    forall p ensures p in o <==> p in o' {
      assert Foreign(o, p, r) <==> Foreign(o', p, r);
    }
    forall p | p in o ensures o'[p] == o[p] {
      assert Foreign(o, p, r);
    }
    forall p | p in o ensures Foreign(o, p, r) {
    }
  }

  lemma FreshSpace(f: Frames, g: Frames, h: Frames, o: Owners, o': Owners, o'': Owners, r: nat, trampoline: nat,
                   trapframe: nat)
    requires Owns(o, r, RootTable) && Unmapped(f, r, 0, MAXVPN)
    requires GrewBut(f, g, o, o', r, TRAMPOLINE, MAXVPN) && Leaf(g, r, TRAMPOLINE) == Pte(trampoline, 11)
    requires GrewBut(g, h, o', o'', r, TRAPFRAME, TRAMPOLINE) && Leaf(h, r, TRAPFRAME) == Pte(trapframe, 7)
    requires forall p :: p in o ==> !(o[p].UserPage? && o[p].root == r)
    ensures Space(h, o'', r, 0, trampoline, trapframe)
  {
    hide Leaf, Pte;
    assert Owns(o', r, RootTable);
    forall v: nat | v < TRAPFRAME ensures Leaf(h, r, v) == 0 {
      assert Leaf(h, r, v) == Leaf(g, r, v);
      assert Leaf(g, r, v) == Leaf(f, r, v);
    }
    assert Leaf(h, r, TRAMPOLINE) == Leaf(g, r, TRAMPOLINE);
  }

  lemma StillUnmapped(f: Frames, g: Frames, o: Owners, o': Owners, r: nat, v: nat)
    requires GrewBut(f, g, o, o', r, v, v) && Owns(o, r, RootTable) && Unmapped(f, r, 0, MAXVPN)
    ensures Unmapped(g, r, 0, MAXVPN) && Owns(o', r, RootTable)
  {
    forall w: nat | w < MAXVPN ensures Leaf(g, r, w) == 0 {
      assert Leaf(g, r, w) == Leaf(f, r, w);
    }
  }

  lemma BackToUnmapped(f: Frames, g: Frames, h: Frames, k: Frames, o: Owners, o': Owners, o'': Owners, r: nat)
    requires Owns(o, r, RootTable) && Unmapped(f, r, 0, MAXVPN)
    requires GrewBut(f, g, o, o', r, TRAMPOLINE, MAXVPN) && GrewBut(g, h, o', o'', r, TRAPFRAME, TRAPFRAME)
    requires SameLeavesBut(h, k, o'', r, TRAMPOLINE, MAXVPN) && Leaf(k, r, TRAMPOLINE) == 0
    ensures Unmapped(k, r, 0, MAXVPN)
  {
    hide Leaf;
    assert Owns(o', r, RootTable) && Owns(o'', r, RootTable);
    forall v: nat | v < MAXVPN ensures Leaf(k, r, v) == 0 {
      if v != TRAMPOLINE {
        assert Leaf(k, r, v) == Leaf(h, r, v);
        assert Leaf(h, r, v) == Leaf(g, r, v);
        assert Leaf(g, r, v) == Leaf(f, r, v);
      }
    }
  }

  // mappages of one page
  method MapOne(m: Memory, r: nat, v: nat, page: nat, perm: nat) returns (ok: bool)
    requires m.Ok() && Owns(m.owner, r, RootTable) && v < MAXVPN && perm < 1024 && RWX(perm)
    requires Leaf(m.frames, r, v) == 0
    modifies m
    ensures m.Ok() && Owns(m.owner, r, RootTable)
    ensures ok ==> Leaf(m.frames, r, v) == Pte(page, WithV(perm))
    ensures |old(m.free)| <= |m.free| + 2 && (!ok ==> |old(m.free)| <= 1)
    ensures GrewBut(old(m.frames), m.frames, old(m.owner), m.owner, r, v, if ok then v + 1 else v)
    ensures Only(old(m.frames), m.frames, old(m.owner), m.owner, r)
  {
    hide Only, Leaf, Tree, MemOk, GrewBut, Pte, WithV;
    ghost var k;
    ok, k := m.MapRange(r, v, v, page, perm);
    MappedOne(m.frames, r, v, k, page, WithV(perm));
    GrewRoot(old(m.frames), m.frames, old(m.owner), m.owner, r, v, v + k);
    GrewButOnly(old(m.frames), m.frames, old(m.owner), m.owner, r, v, v + k);
  }

  lemma GrewRoot(f: Frames, g: Frames, o: Owners, o': Owners, r: nat, lo: nat, hi: nat)
    requires GrewBut(f, g, o, o', r, lo, hi) && Owns(o, r, RootTable)
    ensures Owns(o', r, RootTable)
  {
  }

  // uvmfree(r, 0) of an address space made from nothing restores every owner.
  method Discard(m: Memory, r: nat, ghost f0: Frames, ghost o0: Owners)
    requires m.Ok() && Owns(m.owner, r, RootTable) && Unmapped(m.frames, r, 0, MAXVPN) && r !in o0
    requires Only(f0, m.frames, o0, m.owner, r) && forall p :: p in o0 ==> !Belongs(o0[p], p, r)
    modifies m
    ensures m.Ok() && m.owner == o0 && SameLeaves(f0, m.frames, o0) && SameData(f0, m.frames, o0)
  {
    hide Only, Leaf, Tree, MemOk, Removed, SameLeaves, SameData, Belongs;
    ghost var f1, o1 := m.frames, m.owner;
    m.UvmFree(r, 0);
    RemovedOnly(f1, m.frames, o1, m.owner, r);
    OnlyTwice(f0, f1, m.frames, o0, o1, m.owner, r);
    GoneAgain(f0, m.frames, o0, m.owner, r);
  }

  // proc_pagetable: a fresh address space without user pages, or, when hardly a
  // page is left, no change of any owner, map or page.
  method ProcPagetable(m: Memory, trampoline: nat, trapframe: nat) returns (r: nat)
    requires m.Ok()
    modifies m
    ensures m.Ok()
    ensures r == 0 ==>
      && m.owner == old(m.owner) && |old(m.free)| <= 4
      && SameLeaves(old(m.frames), m.frames, m.owner) && SameData(old(m.frames), m.frames, m.owner)
    ensures r != 0 ==>
      && r !in old(m.owner) && Space(m.frames, m.owner, r, 0, trampoline, trapframe)
      && Only(old(m.frames), m.frames, old(m.owner), m.owner, r)
  {
    hide Only, Leaf, Tree, MemOk, GrewBut, SameLeaves, SameData, Space, Shrank, OwnLeaf, Pte, Belongs, V;
    ghost var f0, o0 := m.frames, m.owner;
    SameNothing(f0, o0);
    r := m.UvmCreate();
    if r == 0 {
      return;
    }
    NoTreeYet(f0, o0, r);
    CreatedOnly(f0, m.frames, o0, r);
    ghost var f1, o1 := m.frames, m.owner;
    NoUserLeft(f1, o1, r);
    var ok := MapOne(m, r, TRAMPOLINE, trampoline, 10);
    ghost var f2, o2 := m.frames, m.owner;
    OnlyTwice(f0, f1, f2, o0, o1, o2, r);
    if !ok {
      StillUnmapped(f1, f2, o1, o2, r, TRAMPOLINE);
      Discard(m, r, f0, o0);
      return 0;
    }
    LeafElsewhere(f1, f2, o1, o2, r);
    ok := MapOne(m, r, TRAPFRAME, trapframe, 6);
    ghost var f3, o3 := m.frames, m.owner;
    OnlyTwice(f0, f2, f3, o0, o2, o3, r);
    if !ok {
      TrampolineOnly(f1, f2, f3, o1, o2, o3, r, trampoline);
      m.UvmUnmap(r, TRAMPOLINE, 1, false);
      Undone(f1, f2, f3, m.frames, o1, o2, o3, m.owner, r);
      OnlyTwice(f0, f3, m.frames, o0, o3, m.owner, r);
      Discard(m, r, f0, o0);
      return 0;
    }
    FreshSpace(f1, f2, f3, o1, o2, o3, r, trampoline, trapframe);
  }

  lemma SameNothing(f: Frames, o: Owners)
    ensures SameLeaves(f, f, o) && SameData(f, f, o)
  {
  }

  lemma LeafElsewhere(f: Frames, g: Frames, o: Owners, o': Owners, r: nat)
    requires GrewBut(f, g, o, o', r, TRAMPOLINE, MAXVPN) && Owns(o, r, RootTable) && Unmapped(f, r, 0, MAXVPN)
    ensures Leaf(g, r, TRAPFRAME) == 0
  {
    assert Leaf(g, r, TRAPFRAME) == Leaf(f, r, TRAPFRAME);
  }

  lemma TrampolineOnly(f: Frames, g: Frames, h: Frames, o: Owners, o': Owners, o'': Owners, r: nat, trampoline: nat)
    requires Owns(o, r, RootTable) && (forall p :: p in o ==> !(o[p].UserPage? && o[p].root == r))
    requires GrewBut(f, g, o, o', r, TRAMPOLINE, MAXVPN) && GrewBut(g, h, o', o'', r, TRAPFRAME, TRAPFRAME)
    requires Leaf(g, r, TRAMPOLINE) == Pte(trampoline, 11)
    ensures V(Leaf(h, r, TRAMPOLINE)) && OwnLeaf(h, o'', r, TRAMPOLINE, false)
  {
    assert Owns(o', r, RootTable);
    assert Leaf(h, r, TRAMPOLINE) == Leaf(g, r, TRAMPOLINE);
    PteFields(trampoline, 11);
  }

  lemma Undone(f: Frames, g: Frames, h: Frames, k: Frames, o: Owners, o': Owners, o'': Owners, o3: Owners, r: nat)
    requires Owns(o, r, RootTable) && Unmapped(f, r, 0, MAXVPN)
    requires GrewBut(f, g, o, o', r, TRAMPOLINE, MAXVPN) && GrewBut(g, h, o', o'', r, TRAPFRAME, TRAPFRAME)
    requires Shrank(h, k, o'', o3, r, TRAMPOLINE, MAXVPN, false) && Unmapped(k, r, TRAMPOLINE, MAXVPN)
    ensures Unmapped(k, r, 0, MAXVPN) && Owns(o3, r, RootTable) && Only(h, k, o'', o3, r)
  {
    hide Only, Leaf;
    ShrankOnly(h, k, o'', o3, r, TRAMPOLINE, MAXVPN, false);
    BackToUnmapped(f, g, h, k, o, o', o'', r);
  }

  // proc_freepagetable: everything of the address space is free again and
  // nothing else changed.
  method ProcFreePagetable(m: Memory, r: nat, sz: nat, ghost trampoline: nat, ghost trapframe: nat)
    requires m.Ok() && Space(m.frames, m.owner, r, Pages(sz), trampoline, trapframe)
    modifies m
    ensures m.Ok() && Only(old(m.frames), m.frames, old(m.owner), m.owner, r)
    ensures forall p :: p in m.owner ==> Foreign(m.owner, p, r)
  {
    hide Only, Leaf, Tree, MemOk, Space, Shrank, OwnLeaf, Pte, Belongs, V, Removed, Pages, Foreign;
    ghost var f0, o0 := m.frames, m.owner;
    SpaceTop(f0, o0, r, Pages(sz), trampoline, trapframe);
    m.UvmUnmap(r, TRAMPOLINE, 1, false);
    ghost var f1, o1 := m.frames, m.owner;
    FirstGone(f0, f1, o0, o1, r, Pages(sz), trampoline, trapframe);
    m.UvmUnmap(r, TRAPFRAME, 1, false);
    ghost var f2, o2 := m.frames, m.owner;
    BothGone(f0, f1, f2, o0, o1, o2, r, Pages(sz), trampoline, trapframe);
    m.UvmFree(r, Pages(sz));
    RemovedOnly(f2, m.frames, o2, m.owner, r);
    OnlyTwice(f0, f2, m.frames, o0, o2, m.owner, r);
  }

  lemma SpaceTop(f: Frames, o: Owners, r: nat, n: nat, trampoline: nat, trapframe: nat)
    requires Space(f, o, r, n, trampoline, trapframe)
    ensures Owns(o, r, RootTable) && V(Leaf(f, r, TRAMPOLINE)) && OwnLeaf(f, o, r, TRAMPOLINE, false)
  {
    PteFields(trampoline, 11);
  }

  lemma FirstGone(f: Frames, g: Frames, o: Owners, o': Owners, r: nat, n: nat, trampoline: nat, trapframe: nat)
    requires Space(f, o, r, n, trampoline, trapframe) && Shrank(f, g, o, o', r, TRAMPOLINE, MAXVPN, false)
    ensures Owns(o', r, RootTable) && V(Leaf(g, r, TRAPFRAME)) && OwnLeaf(g, o', r, TRAPFRAME, false)
  {
    assert Leaf(g, r, TRAPFRAME) == Leaf(f, r, TRAPFRAME);
    assert OwnLeaf(f, o, r, TRAPFRAME, false);
    forall u: nat ensures !Owns(o', u, UserPage(r, TRAPFRAME)) {
      assert !Owns(o, u, UserPage(r, TRAPFRAME));
    }
    PteFields(trapframe, 7);
  }

  lemma BothGone(f: Frames, g: Frames, h: Frames, o: Owners, o': Owners, o'': Owners, r: nat, n: nat, trampoline: nat,
                 trapframe: nat)
    requires Space(f, o, r, n, trampoline, trapframe)
    requires Shrank(f, g, o, o', r, TRAMPOLINE, MAXVPN, false) && Unmapped(g, r, TRAMPOLINE, MAXVPN)
    requires Shrank(g, h, o', o'', r, TRAPFRAME, TRAMPOLINE, false) && Unmapped(h, r, TRAPFRAME, TRAMPOLINE)
    ensures Owns(o'', r, RootTable) && n <= MAXVPN && Unmapped(h, r, n, MAXVPN) && Only(f, h, o, o'', r)
    ensures forall v: nat :: v < n ==> V(Leaf(h, r, v)) && OwnLeaf(h, o'', r, v, true)
  {
    hide Only, Leaf, V, PageOf, Pte;
    ShrankOnly(f, g, o, o', r, TRAMPOLINE, MAXVPN, false);
    ShrankOnly(g, h, o', o'', r, TRAPFRAME, TRAMPOLINE, false);
    OnlyTwice(f, g, h, o, o', o'', r);
    forall v: nat | v < MAXVPN && v != TRAPFRAME ensures v < TRAPFRAME ==> Leaf(h, r, v) == Leaf(f, r, v) {
      assert Leaf(h, r, v) == Leaf(g, r, v);
      assert v < TRAPFRAME ==> Leaf(g, r, v) == Leaf(f, r, v);
    }
    forall v: nat | n <= v < MAXVPN ensures Leaf(h, r, v) == 0 {
      assert v != TRAPFRAME ==> Leaf(h, r, v) == Leaf(g, r, v);
    }
    forall v: nat | v < n ensures V(Leaf(h, r, v)) && OwnLeaf(h, o'', r, v, true) {
      assert OwnLeaf(f, o, r, v, true);
    }
  }

  // ---------------------------------------------------------------- growproc and fork

  // The first n pages are mapped as before and hold what they held.
  ghost predicate PagesKept(f: Frames, g: Frames, r: nat, n: nat) {
    forall v: nat :: v < n ==> PageKept(f, g, r, v)
  }

  ghost predicate PageKept(f: Frames, g: Frames, r: nat, v: nat) {
    var u := PageOf(Leaf(f, r, v));
    Leaf(g, r, v) == Leaf(f, r, v) && u in f && u in g && g[u] == f[u]
  }

  // Page v may be used by user code.
  ghost predicate UserMapped(f: Frames, r: nat, v: nat) {
    v < MAXVPN && V(Leaf(f, r, v)) && U(Leaf(f, r, v))
  }

  // The page of a byte address
  function PageAt(va: nat): (v: nat)
    ensures v * PGSIZE <= va < v * PGSIZE + PGSIZE
  {
    va / PGSIZE
  }

  // User code may use every byte below sz.
  ghost predicate UserBytes(f: Frames, r: nat, sz: nat) {
    forall va: nat :: va < sz ==> UserMapped(f, r, PageAt(va))
  }

  // Exactly the pages with a byte below sz are mapped, each to a page of its own;
  // above them come only the two pages of the kernel.
  ghost predicate HasBytes(f: Frames, o: Owners, r: nat, sz: nat) {
    && (forall va: nat :: va < sz ==>
          PageAt(va) < TRAPFRAME && V(Leaf(f, r, PageAt(va))) && OwnLeaf(f, o, r, PageAt(va), true))
    && (forall v: nat :: sz <= v * PGSIZE && v < TRAPFRAME ==> Leaf(f, r, v) == 0)
  }

  lemma SpaceBytes(f: Frames, o: Owners, r: nat, sz: nat, trampoline: nat, trapframe: nat)
    requires Space(f, o, r, Pages(sz), trampoline, trapframe)
    ensures HasBytes(f, o, r, sz)
  {
    PagesExact(sz);
    hide Pages, Leaf, V, OwnLeaf, Pte;
  }

  // New pages behind kept ones
  lemma MoreBytes(f: Frames, g: Frames, o: Owners, r: nat, from: nat, to: nat)
    requires from <= to && Pages(to) <= TRAPFRAME && PagesKept(f, g, r, Pages(from))
    requires AllUser(g, o, r, Pages(from), Pages(to), 23, ZERO_PAGE)
    ensures UserBytes(f, r, from) ==> UserBytes(g, r, to)
    ensures forall v: nat :: from <= v * PGSIZE < to ==> UserAt(g, o, r, v, 23, ZERO_PAGE)
  {
    PagesExact(from);
    PagesExact(to);
    hide Pages, Leaf;
    if UserBytes(f, r, from) {
      forall va: nat | va < to ensures UserMapped(g, r, PageAt(va)) {
        var v := PageAt(va);
        if v < Pages(from) {
          assert UserMapped(f, r, PageAt(v * PGSIZE));
          assert PageKept(f, g, r, v);
        } else {
          assert UserAt(g, o, r, v, 23, ZERO_PAGE);
          UserFlags(Leaf(g, r, v));
        }
      }
    }
  }

  lemma UserFlags(e: nat)
    requires Flags(e) == 23
    ensures U(e)
  {
  }

  lemma FewerBytes(f: Frames, g: Frames, r: nat, from: nat, to: nat)
    requires to <= from && PagesKept(f, g, r, Pages(to))
    ensures UserBytes(f, r, from) ==> UserBytes(g, r, to)
  {
    PagesExact(to);
    hide Pages, Leaf;
    if UserBytes(f, r, from) {
      forall va: nat | va < to ensures UserMapped(g, r, PageAt(va)) {
        assert UserMapped(f, r, PageAt(va)) && PageKept(f, g, r, PageAt(va));
      }
    }
  }

  lemma SpaceGrown(f: Frames, g: Frames, o: Owners, o': Owners, r: nat, n: nat, n': nat, trampoline: nat,
                   trapframe: nat)
    requires Space(f, o, r, n, trampoline, trapframe) && n <= n' <= TRAPFRAME
    requires GrewUser(f, g, o, o', r, n, n') && forall p :: p in o ==> p in f
    requires forall v: nat :: n <= v < n' ==> V(Leaf(g, r, v)) && OwnLeaf(g, o', r, v, true)
    ensures Space(g, o', r, n', trampoline, trapframe) && PagesKept(f, g, r, n)
  {
    hide Leaf, V, Pte, PageOf;
    forall v: nat | v < MAXVPN && !(n <= v < n') ensures Leaf(g, r, v) == Leaf(f, r, v) {
    }
    forall v: nat | v < n ensures V(Leaf(g, r, v)) && OwnLeaf(g, o', r, v, true) && PageKept(f, g, r, v) {
      assert OwnLeaf(f, o, r, v, true);
    }
    forall u: nat, v: nat | Owns(o', u, UserPage(r, v)) && v >= TRAPFRAME ensures Owns(o, u, UserPage(r, v)) {
    }
    forall v: nat | n' <= v < TRAPFRAME ensures Leaf(g, r, v) == 0 {
      assert Leaf(g, r, v) == Leaf(f, r, v);
    }
    forall u: nat ensures !Owns(o', u, UserPage(r, TRAMPOLINE)) && !Owns(o', u, UserPage(r, TRAPFRAME)) {
      assert !Owns(o, u, UserPage(r, TRAMPOLINE)) && !Owns(o, u, UserPage(r, TRAPFRAME));
    }
    assert Leaf(g, r, TRAMPOLINE) == Leaf(f, r, TRAMPOLINE) && Leaf(g, r, TRAPFRAME) == Leaf(f, r, TRAPFRAME);
  }

  lemma SpaceShrunk(f: Frames, g: Frames, o: Owners, o': Owners, r: nat, n: nat, n': nat, trampoline: nat,
                    trapframe: nat)
    requires Space(f, o, r, n, trampoline, trapframe) && n' <= n
    requires Shrank(f, g, o, o', r, n', n, true) && Unmapped(g, r, n', n) && forall p :: p in o ==> p in f
    ensures Space(g, o', r, n', trampoline, trapframe) && PagesKept(f, g, r, n')
  {
    hide Leaf, V, Pte, PageOf;
    assert Owns(o', r, RootTable);
    forall v: nat | v < n' ensures V(Leaf(g, r, v)) && OwnLeaf(g, o', r, v, true) && PageKept(f, g, r, v) {
      assert OwnLeaf(f, o, r, v, true);
      assert Leaf(g, r, v) == Leaf(f, r, v);
    }
    forall v: nat | n' <= v < TRAPFRAME ensures Leaf(g, r, v) == 0 {
      assert v >= n ==> Leaf(g, r, v) == Leaf(f, r, v);
    }
    forall u: nat ensures !Owns(o', u, UserPage(r, TRAMPOLINE)) && !Owns(o', u, UserPage(r, TRAPFRAME)) {
      assert !Owns(o, u, UserPage(r, TRAMPOLINE)) && !Owns(o, u, UserPage(r, TRAPFRAME));
    }
    assert Leaf(g, r, TRAMPOLINE) == Leaf(f, r, TRAMPOLINE) && Leaf(g, r, TRAPFRAME) == Leaf(f, r, TRAPFRAME);
  }

  lemma SpaceOwn(f: Frames, o: Owners, r: nat, n: nat, trampoline: nat, trapframe: nat)
    requires Space(f, o, r, n, trampoline, trapframe)
    ensures Owns(o, r, RootTable) && n <= TRAPFRAME && Unmapped(f, r, n, TRAPFRAME)
    ensures forall v: nat :: v < n ==> V(Leaf(f, r, v)) && OwnLeaf(f, o, r, v, true)
  {
  }

  lemma UnmappedPart(f: Frames, r: nat, n: nat, m: nat)
    requires Unmapped(f, r, n, TRAPFRAME) && m <= TRAPFRAME
    ensures Unmapped(f, r, n, m)
  {
  }

  // uint64
  const WORD: int := 0x1_0000_0000_0000_0000

  lemma SizeBound(sz: nat)
    requires Pages(sz) <= MAXVPN
    ensures sz < WORD / 2
  {
  }

  class Process {
    const pagetable: nat
    var sz: nat

    ghost predicate Ok(m: Memory, trampoline: nat, trapframe: nat)
      reads this, m
    {
      m.Ok() && Space(m.frames, m.owner, pagetable, Pages(sz), trampoline, trapframe)
    }

    constructor (pagetable: nat)
      ensures this.pagetable == pagetable && sz == 0
    {
      this.pagetable, sz := pagetable, 0;
    }

    // growproc. It fails only when the pool runs out. Growth into the trapframe
    // page ends in a panic of mappages, unless the pool runs out before. A shrink
    // below 0 wraps around and changes nothing.
    method GrowProc(m: Memory, n: int, ghost trampoline: nat, ghost trapframe: nat) returns (ret: int, panic: bool)
      requires Ok(m, trampoline, trapframe) && -0x8000_0000 <= n < 0x8000_0000
      modifies this`sz, m
      ensures panic ==> n > 0 && Pages(old(sz) + n) > TRAPFRAME
      ensures !panic ==>
        && Ok(m, trampoline, trapframe)
        && Only(old(m.frames), m.frames, old(m.owner), m.owner, pagetable)
        && (ret == 0 || (ret == -1 && n > 0 && |m.free| <= Pages(old(sz) + n) - Pages(old(sz))))
        && sz == (if ret == -1 || old(sz) + n < 0 then old(sz) else old(sz) + n)
        && PagesKept(old(m.frames), m.frames, pagetable, if old(sz) <= sz then Pages(old(sz)) else Pages(sz))
        && (n > 0 && ret == 0 ==> AllUser(m.frames, m.owner, pagetable, Pages(old(sz)), Pages(sz), 23, ZERO_PAGE))
      // in bytes
      ensures panic ==> old(sz) + n > TRAPFRAME * PGSIZE
      ensures !panic ==>
        && HasBytes(m.frames, m.owner, pagetable, sz)
        && (UserBytes(old(m.frames), pagetable, old(sz)) ==> UserBytes(m.frames, pagetable, sz))
        && forall v: nat :: old(sz) <= v * PGSIZE < sz ==> UserAt(m.frames, m.owner, pagetable, v, 23, ZERO_PAGE)
    {
      hide Space, Pages, Tree, MemOk, Leaf, GrewUser, AllUser, Shrank, Only, OwnLeaf, PagesKept, UserAt, V;
      hide HasBytes, UserBytes;
      panic := false;
      if n > 0 {
        PagesMonotone(sz, sz + n);
        var reached := Pages(sz + n) > TRAPFRAME;
        var to := if reached then TRAPFRAME * PGSIZE else sz + n;
        Reach(sz, sz + n);
        SpaceOwn(m.frames, m.owner, pagetable, Pages(sz), trampoline, trapframe);
        var ok := GrowTo(m, pagetable, sz, to, trampoline, trapframe);
        if ok && reached {
          var mem := m.Kalloc();
          if mem != 0 {
            return -1, true;
          }
          ghost var f1, o1 := m.frames, m.owner;
          ShrinkTo(m, pagetable, to, sz, trampoline, trapframe);
          OnlyTwice(old(m.frames), f1, m.frames, old(m.owner), o1, m.owner, pagetable);
          KeptTwice(old(m.frames), f1, m.frames, pagetable, Pages(sz));
        }
        if !ok || reached {
          FewerBytes(old(m.frames), m.frames, pagetable, sz, sz);
          SpaceBytes(m.frames, m.owner, pagetable, sz, trampoline, trapframe);
          return -1, false;
        }
        MoreBytes(old(m.frames), m.frames, m.owner, pagetable, sz, to);
        sz := to;
      } else if n < 0 && sz + n >= 0 {
        PagesMonotone(sz + n, sz);
        ShrinkTo(m, pagetable, sz, sz + n, trampoline, trapframe);
        FewerBytes(old(m.frames), m.frames, pagetable, sz, sz + n);
        sz := sz + n;
      } else {
        SpaceOwn(m.frames, m.owner, pagetable, Pages(sz), trampoline, trapframe);
        Wrapped(sz, n);
        var same := m.UvmDealloc(pagetable, sz, (sz + n) % WORD);
        MemPages(m.frames, m.freelist, m.free, m.owner, m.lo, m.hi);
        OnlyNothing(m.frames, m.owner, pagetable);
        ShrankNothing(m.frames, m.owner, pagetable, Pages(sz), true);
        UnmappedNothing(m.frames, pagetable, Pages(sz));
        SpaceShrunk(m.frames, m.frames, m.owner, m.owner, pagetable, Pages(sz), Pages(sz), trampoline, trapframe);
      }
      SpaceBytes(m.frames, m.owner, pagetable, sz, trampoline, trapframe);
      return 0, false;
    }
  }

  lemma Reach(sz: nat, to: nat)
    ensures Pages(TRAPFRAME * PGSIZE) == TRAPFRAME
    ensures Pages(sz) <= TRAPFRAME ==> sz <= TRAPFRAME * PGSIZE
    ensures Pages(to) > TRAPFRAME ==> to > TRAPFRAME * PGSIZE
  {
  }

  // uint64 arithmetic: a shrink below 0 asks for a huge size.
  lemma Wrapped(sz: nat, n: int)
    requires Pages(sz) <= MAXVPN && -0x8000_0000 <= n <= 0 && (n == 0 || sz + n < 0)
    ensures (sz + n) % WORD >= sz
  {
    SizeBound(sz);
  }

  lemma KeptTwice(f: Frames, g: Frames, h: Frames, r: nat, n: nat)
    requires PagesKept(f, g, r, n) && PagesKept(g, h, r, n)
    ensures PagesKept(f, h, r, n)
  {
    forall v: nat | v < n ensures PageKept(f, h, r, v) {
      assert PageKept(f, g, r, v) && PageKept(g, h, r, v);
    }
  }

  // uvmalloc for a process.
  method GrowTo(m: Memory, r: nat, sz: nat, to: nat, ghost trampoline: nat, ghost trapframe: nat) returns (ok: bool)
    requires m.Ok() && Space(m.frames, m.owner, r, Pages(sz), trampoline, trapframe) && sz <= to
    requires Pages(to) <= TRAPFRAME
    modifies m
    ensures m.Ok() && Only(old(m.frames), m.frames, old(m.owner), m.owner, r)
    ensures Space(m.frames, m.owner, r, Pages(if ok then to else sz), trampoline, trapframe)
    ensures PagesKept(old(m.frames), m.frames, r, Pages(sz))
    ensures ok ==> AllUser(m.frames, m.owner, r, Pages(sz), Pages(to), 23, ZERO_PAGE)
    ensures !ok ==> |m.free| <= Pages(to) - Pages(sz)
  {
    hide Space, Pages, Tree, MemOk, Leaf, GrewUser, AllUser, Shrank, Only, OwnLeaf, PagesKept, UserAt, V;
    ghost var f0, o0 := m.frames, m.owner;
    MemPages(f0, m.freelist, m.free, o0, m.lo, m.hi);
    SpaceOwn(f0, o0, r, Pages(sz), trampoline, trapframe);
    PagesMonotone(sz, to);
    UnmappedPart(f0, r, Pages(sz), Pages(to));
    var newsz := m.UvmAlloc(r, sz, to, 4);
    ok := newsz == to;
    GrewUserOnly(f0, m.frames, o0, m.owner, r, Pages(sz), if ok then Pages(to) else Pages(sz));
    if ok {
      AllUserOwn(m.frames, m.owner, r, Pages(sz), Pages(to), 23, ZERO_PAGE);
    }
    SpaceGrown(f0, m.frames, o0, m.owner, r, Pages(sz), if ok then Pages(to) else Pages(sz), trampoline, trapframe);
  }

  // uvmdealloc for a process.
  method ShrinkTo(m: Memory, r: nat, sz: nat, to: nat, ghost trampoline: nat, ghost trapframe: nat)
    requires m.Ok() && Space(m.frames, m.owner, r, Pages(sz), trampoline, trapframe) && to <= sz
    modifies m
    ensures m.Ok() && Only(old(m.frames), m.frames, old(m.owner), m.owner, r)
    ensures Space(m.frames, m.owner, r, Pages(to), trampoline, trapframe)
    ensures PagesKept(old(m.frames), m.frames, r, Pages(to))
    ensures |m.free| == |old(m.free)| + Pages(sz) - Pages(to)
  {
    hide Space, Pages, Tree, MemOk, Leaf, Shrank, Only, OwnLeaf, PagesKept, V;
    ghost var f0, o0 := m.frames, m.owner;
    MemPages(f0, m.freelist, m.free, o0, m.lo, m.hi);
    SpaceOwn(f0, o0, r, Pages(sz), trampoline, trapframe);
    PagesMonotone(to, sz);
    var newsz := m.UvmDealloc(r, sz, to);
    if to == sz {
      OnlyNothing(f0, o0, r);
      ShrankNothing(f0, o0, r, Pages(sz), true);
      UnmappedNothing(f0, r, Pages(sz));
    } else {
      ShrankOnly(f0, m.frames, o0, m.owner, r, Pages(to), Pages(sz), true);
    }
    SpaceShrunk(f0, m.frames, o0, m.owner, r, Pages(sz), Pages(to), trampoline, trapframe);
  }

  lemma OnlyNothing(f: Frames, o: Owners, r: nat)
    ensures Only(f, f, o, o, r)
  {
  }

  // The memory part of fork: the child's address space becomes a page-for-page
  // copy, or stays empty. The parent keeps its own.
  method CopySpace(m: Memory, parent: nat, child: nat, sz: nat, ghost trampoline: nat, ghost tf: nat, ghost tf': nat)
    returns (ok: bool)
    requires m.Ok() && parent != child
    requires Space(m.frames, m.owner, parent, Pages(sz), trampoline, tf)
    requires Space(m.frames, m.owner, child, 0, trampoline, tf')
    modifies m
    ensures m.Ok() && Only(old(m.frames), m.frames, old(m.owner), m.owner, child)
    ensures Space(m.frames, m.owner, parent, Pages(sz), trampoline, tf)
    ensures Space(m.frames, m.owner, child, if ok then Pages(sz) else 0, trampoline, tf')
    ensures ok ==> Copied(m.frames, m.owner, parent, child, Pages(sz))
    ensures ok ==> forall v: nat :: v * PGSIZE < sz ==> CopyAt(m.frames, m.owner, parent, child, v)
    ensures HasBytes(m.frames, m.owner, child, if ok then sz else 0)
    ensures !ok ==> |m.free| <= Pages(sz)
  {
    hide Space, Pages, Tree, MemOk, Leaf, GrewUser, Only, OwnLeaf, Copied, PagesKept, V, CopyAt, HasBytes;
    ghost var f0, o0 := m.frames, m.owner;
    MemPages(f0, m.freelist, m.free, o0, m.lo, m.hi);
    SpaceOwn(f0, o0, parent, Pages(sz), trampoline, tf);
    SpaceOwn(f0, o0, child, 0, trampoline, tf');
    UnmappedPart(f0, child, 0, Pages(sz));
    ok := m.UvmCopy(parent, child, sz);
    ghost var n := if ok then Pages(sz) else 0;
    GrewUserOnly(f0, m.frames, o0, m.owner, child, 0, n);
    SpaceKept(f0, m.frames, o0, m.owner, child, parent, Pages(sz), trampoline, tf);
    if ok {
      CopiedOwn(m.frames, m.owner, parent, child, n);
    }
    SpaceGrown(f0, m.frames, o0, m.owner, child, 0, n, trampoline, tf');
    NoPages();
    SpaceBytes(m.frames, m.owner, child, if ok then sz else 0, trampoline, tf');
  }
}
