/**
 copyin, copyout and copyinstr (kernel/vm.c): moving bytes between the kernel
 and a user address space, page by page.
 */
module CopyUser {
  import opened PageTable
  import opened VirtualMemory
  import opened AddressSpace

  // ---------------------------------------------------------------- the bytes of an address space

  // Whatever user code can reach is a page of its own address space.
  ghost predicate UserOwned(f: Frames, o: Owners, r: nat) {
    forall v: nat :: UserMapped(f, r, v) ==> Owns(o, PageOf(Leaf(f, r, v)), UserPage(r, v))
  }

  // The process address spaces are such.
  lemma SpaceUserOwned(f: Frames, o: Owners, r: nat, n: nat, trampoline: nat, trapframe: nat)
    requires Space(f, o, r, n, trampoline, trapframe)
    ensures UserOwned(f, o, r)
  {
    hide Leaf, Pte, PageOf;
    PteFields(trampoline, 11);
    PteFields(trapframe, 7);
    forall v: nat | UserMapped(f, r, v) ensures Owns(o, PageOf(Leaf(f, r, v)), UserPage(r, v)) {
      if v < n {
        assert OwnLeaf(f, o, r, v, true);
      }
    }
  }

  // The byte user code sees at address va.
  ghost function Byte(f: Frames, r: nat, va: nat): nat {
    var u := PageOf(Leaf(f, r, va / PGSIZE));
    if IsPage(f, u) then f[u].bytes[va % PGSIZE] else 0
  }

  ghost predicate Readable(f: Frames, r: nat, va: nat, len: nat) {
    forall i: nat :: i < len ==> UserMapped(f, r, PageAt(va, i))
  }

  function PageAt(va: nat, i: nat): nat {
    (va + i) / PGSIZE
  }

  ghost predicate BytesAt(f: Frames, r: nat, va: nat, bytes: seq<nat>) {
    forall i: nat :: i < |bytes| ==> bytes[i] == Byte(f, r, va + i)
  }

  lemma InPage(va: nat, i: nat)
    requires va % PGSIZE + i < PGSIZE
    ensures (va + i) / PGSIZE == va / PGSIZE && (va + i) % PGSIZE == va % PGSIZE + i
  {
    assert va + i == va / PGSIZE * PGSIZE + (va % PGSIZE + i);
  }

  // The rest of the page from va on, or len bytes if fewer.
  function Chunk(va: nat, len: nat): (n: nat)
    ensures n <= len && (len > 0 ==> n > 0) && va % PGSIZE + n <= PGSIZE
  {
    if PGSIZE - va % PGSIZE > len then len else PGSIZE - va % PGSIZE
  }

  lemma NextPage(va: nat, len: nat)
    requires Chunk(va, len) < len
    ensures va + Chunk(va, len) == (va / PGSIZE + 1) * PGSIZE
  {
  }

  // ---------------------------------------------------------------- one chunk

  // A chunk lies in one page; it is readable exactly when that page is mapped.
  lemma ChunkReadable(f: Frames, r: nat, va: nat, n: nat)
    requires n > 0 && va % PGSIZE + n <= PGSIZE
    ensures Readable(f, r, va, n) <==> UserMapped(f, r, va / PGSIZE)
  {
    hide UserMapped;
    forall i: nat | i < n ensures PageAt(va, i) == va / PGSIZE {
      InPage(va, i);
    }
    assert PageAt(va, 0) == va / PGSIZE;
  }

  lemma ReadableSplit(f: Frames, r: nat, va: nat, n: nat, len: nat)
    requires n <= len
    ensures Readable(f, r, va, len) <==> Readable(f, r, va, n) && Readable(f, r, va + n, len - n)
  {
    hide UserMapped;
    if Readable(f, r, va, len) {
      var vb := va + n;
      forall i: nat | i < len - n ensures UserMapped(f, r, PageAt(vb, i)) {
        assert PageAt(vb, i) == PageAt(va, n + i);
      }
    }
    if Readable(f, r, va, n) && Readable(f, r, va + n, len - n) {
      forall i: nat | i < len ensures UserMapped(f, r, PageAt(va, i)) {
        if i >= n {
          assert PageAt(va, i) == PageAt(va + n, i - n);
        }
      }
    }
  }

  lemma ChunkBytes(f: Frames, r: nat, va: nat, n: nat, bytes: seq<nat>)
    requires va % PGSIZE + n <= PGSIZE
    requires IsPage(f, PageOf(Leaf(f, r, va / PGSIZE))) && bytes == f[PageOf(Leaf(f, r, va / PGSIZE))].bytes
    ensures BytesAt(f, r, va, bytes[va % PGSIZE..va % PGSIZE + n])
  {
    var c := bytes[va % PGSIZE..va % PGSIZE + n];
    forall i: nat | i < n ensures c[i] == Byte(f, r, va + i) {
      InPage(va, i);
    }
  }

  lemma BytesJoin(f: Frames, r: nat, va: nat, a: seq<nat>, b: seq<nat>)
    requires BytesAt(f, r, va, a) && BytesAt(f, r, va + |a|, b)
    ensures BytesAt(f, r, va, a + b)
  {
    hide Byte;
    forall i: nat | i < |a + b| ensures (a + b)[i] == Byte(f, r, va + i) {
      if i >= |a| {
        assert b[i - |a|] == Byte(f, r, va + |a| + (i - |a|));
      }
    }
  }

  lemma MappedPage(f: Frames, o: Owners, r: nat, v: nat)
    requires Tree(f, o) && UserOwned(f, o, r) && UserMapped(f, r, v)
    ensures IsPage(f, PageOf(Leaf(f, r, v))) && PageOf(Leaf(f, r, v)) in o
  {
    assert PageOk(f, o, PageOf(Leaf(f, r, v)));
  }

  // walkaddr: the user page mapped at v, or 0
  method WalkAddr(m: Memory, r: nat, v: nat) returns (u: nat)
    requires m.Ok() && Owns(m.owner, r, RootTable) && UserOwned(m.frames, m.owner, r)
    ensures u != 0 <==> UserMapped(m.frames, r, v)
    ensures u != 0 ==> u == PageOf(Leaf(m.frames, r, v)) && IsPage(m.frames, u)
  {
    hide Tree, MemOk, V, U, PageOf, UserOwned;
    if v >= MAXVPN { return 0; }
    var q := m.LookUp(r, v);
    if q == 0 {
      NothingMapped();
      return 0;
    }
    TableFrame(m.frames, m.owner, q);
    var e := m.frames[q].ptes[Px(0, v)];
    if !V(e) || !U(e) { return 0; }
    MemPages(m.frames, m.freelist, m.free, m.owner, m.lo, m.hi);
    MappedPage(m.frames, m.owner, r, v);
    return PageOf(e);
  }

  lemma NothingMapped()
    ensures !V(0)
  {
  }

  // ---------------------------------------------------------------- copyin

  // copyin succeeds exactly when every touched page is user-mapped, and delivers
  // the bytes in order. A failed call has delivered a prefix.
  method CopyIn(m: Memory, r: nat, srcva: nat, len: nat) returns (ok: bool, dst: seq<nat>)
    requires m.Ok() && Owns(m.owner, r, RootTable) && UserOwned(m.frames, m.owner, r)
    ensures ok <==> Readable(m.frames, r, srcva, len)
    ensures |dst| <= len && (ok ==> |dst| == len) && BytesAt(m.frames, r, srcva, dst)
  {
    hide Tree, MemOk, UserOwned, UserMapped, Leaf, Readable, BytesAt, IsPage, PageOf, Chunk;
    var va, left := srcva, len;
    dst := [];
    ReadNothing(m.frames, r, srcva);
    while left > 0
      invariant 0 <= left && |dst| + left == len && (left > 0 ==> va == srcva + |dst|)
      invariant Readable(m.frames, r, srcva, |dst|) && BytesAt(m.frames, r, srcva, dst)
    {
      ghost var done := |dst|;
      var va0 := va / PGSIZE;
      var u := WalkAddr(m, r, va0);
      var n := Chunk(va, left);
      ChunkReadable(m.frames, r, va, n);
      ReadableSplit(m.frames, r, srcva, done, len);
      ReadableSplit(m.frames, r, va, n, left);
      if u == 0 {
        return false, dst;
      }
      PageFacts(m.frames, u);
      var c := m.frames[u].bytes[va % PGSIZE..va % PGSIZE + n];
      ChunkBytes(m.frames, r, va, n, m.frames[u].bytes);
      BytesJoin(m.frames, r, srcva, dst, c);
      ReadableSplit(m.frames, r, srcva, done, done + n);
      if n < left { NextPage(va, left); }
      dst := dst + c;
      left := left - n;
      va := (va0 + 1) * PGSIZE;
    }
    return true, dst;
  }

  lemma PageFacts(f: Frames, u: nat)
    requires IsPage(f, u)
    ensures u in f && f[u].Data? && |f[u].bytes| == PGSIZE
  {
  }

  lemma ReadNothing(f: Frames, r: nat, va: nat)
    ensures Readable(f, r, va, 0) && BytesAt(f, r, va, [])
  {
  }

  // ---------------------------------------------------------------- copyout

  // The user bytes va.. of r became src; every other user byte of r, every
  // page not owned by r and every flat map is as it was.
  ghost predicate Written(f: Frames, g: Frames, o: Owners, r: nat, va: nat, src: seq<nat>) {
    && SameLeaves(f, g, o)
    && (forall x: nat :: UserMapped(f, r, PageAt(x, 0)) ==>
          Byte(g, r, x) == if va <= x < va + |src| then src[x - va] else Byte(f, r, x))
    && (forall p :: p in f <==> p in g)
    && (forall p :: p in f && !(p in o && o[p].UserPage? && o[p].root == r) ==> g[p] == f[p])
    && (forall u :: IsPage(f, u) ==> IsPage(g, u))
  }

  lemma WrittenNothing(f: Frames, o: Owners, r: nat, va: nat)
    ensures Written(f, f, o, r, va, [])
  {
  }

  lemma SameMapped(f: Frames, g: Frames, o: Owners, r: nat)
    requires SameLeaves(f, g, o) && Owns(o, r, RootTable)
    ensures forall v: nat :: UserMapped(f, r, v) <==> UserMapped(g, r, v)
    ensures UserOwned(f, o, r) ==> UserOwned(g, o, r)
  {
    hide V, U, Leaf, PageOf;
    forall v: nat ensures UserMapped(f, r, v) <==> UserMapped(g, r, v) {
      assert v < MAXVPN ==> Leaf(g, r, v) == Leaf(f, r, v);
    }
    if UserOwned(f, o, r) {
      forall v: nat | UserMapped(g, r, v) ensures Owns(o, PageOf(Leaf(g, r, v)), UserPage(r, v)) {
        assert UserMapped(f, r, v);
      }
    }
  }

  lemma WrittenTwice(f: Frames, g: Frames, h: Frames, o: Owners, r: nat, va: nat, a: seq<nat>, b: seq<nat>)
    requires Written(f, g, o, r, va, a) && Written(g, h, o, r, va + |a|, b) && Owns(o, r, RootTable)
    ensures Written(f, h, o, r, va, a + b)
  {
    hide Byte, UserMapped, Leaf, IsPage, PageAt, UserOwned;
    SameMapped(f, g, o, r);
    forall s: nat, v: nat | Owns(o, s, RootTable) && v < MAXVPN ensures Leaf(h, s, v) == Leaf(f, s, v) {
      assert Leaf(h, s, v) == Leaf(g, s, v);
      assert Leaf(g, s, v) == Leaf(f, s, v);
    }
    forall x: nat | UserMapped(f, r, PageAt(x, 0))
      ensures Byte(h, r, x) == if va <= x < va + |a + b| then (a + b)[x - va] else Byte(f, r, x)
    {
      assert UserMapped(g, r, PageAt(x, 0));
    }
  }

  function Spliced(bytes: seq<nat>, off: nat, c: seq<nat>): (r: seq<nat>)
    requires off + |c| <= |bytes|
    ensures |r| == |bytes|
    ensures forall i :: 0 <= i < |r| ==> r[i] == if off <= i < off + |c| then c[i - off] else bytes[i]
  {
    bytes[..off] + c + bytes[off + |c|..]
  }

  // Two user pages of one address space are different pages.
  lemma NoAlias(f: Frames, o: Owners, r: nat, v: nat, w: nat)
    requires UserOwned(f, o, r) && UserMapped(f, r, v) && UserMapped(f, r, w)
    requires PageOf(Leaf(f, r, v)) == PageOf(Leaf(f, r, w))
    ensures v == w
  {
  }

  lemma TreeAfterWrite(f: Frames, o: Owners, u: nat, r: nat, v: nat, bytes: seq<nat>)
    requires Tree(f, o) && Owns(o, u, UserPage(r, v)) && |bytes| == PGSIZE
    ensures Tree(f[u := Data(bytes)], o) && SameLeaves(f, f[u := Data(bytes)], o)
  {
    hide Leaf;
    TreeThroughTables(f, f[u := Data(bytes)], o) by {
      forall y | y in o && o[y].UserPage? ensures IsPage(f[u := Data(bytes)], y) {
        assert PageOk(f, o, y);
      }
    }
  }

  lemma ChunkWritten(f: Frames, g: Frames, o: Owners, r: nat, va: nat, c: seq<nat>, u: nat)
    requires Tree(f, o) && UserOwned(f, o, r) && Owns(o, r, RootTable) && UserMapped(f, r, va / PGSIZE)
    requires u == PageOf(Leaf(f, r, va / PGSIZE)) && IsPage(f, u) && va % PGSIZE + |c| <= PGSIZE
    requires g == f[u := Data(Spliced(f[u].bytes, va % PGSIZE, c))]
    ensures Tree(g, o) && Written(f, g, o, r, va, c)
  {
    hide Tree, Leaf, PageOf, V, U;
    var v := va / PGSIZE;
    TreeAfterWrite(f, o, u, r, v, Spliced(f[u].bytes, va % PGSIZE, c));
    forall x: nat | UserMapped(f, r, PageAt(x, 0))
      ensures Byte(g, r, x) == if va <= x < va + |c| then c[x - va] else Byte(f, r, x)
    {
      var w := x / PGSIZE;
      assert Leaf(g, r, w) == Leaf(f, r, w);
      if va <= x < va + |c| {
        InPage(va, x - va);
      }
      if PageOf(Leaf(f, r, w)) == u {
        NoAlias(f, o, r, v, w);
        SamePage(va, x);
      }
    }
  }

  lemma SamePage(va: nat, x: nat)
    requires va / PGSIZE == x / PGSIZE
    ensures x - va == x % PGSIZE - va % PGSIZE
  {
  }

  // copyout writes exactly the first k bytes of src, all of them on success,
  // and succeeds exactly when every touched page is user-mapped.
  method CopyOut(m: Memory, r: nat, dstva: nat, src: seq<nat>) returns (ok: bool, ghost k: nat)
    requires m.Ok() && Owns(m.owner, r, RootTable) && UserOwned(m.frames, m.owner, r)
    modifies m`frames
    ensures m.Ok() && UserOwned(m.frames, m.owner, r)
    ensures ok <==> Readable(old(m.frames), r, dstva, |src|)
    ensures k <= |src| && (ok ==> k == |src|)
    ensures Written(old(m.frames), m.frames, m.owner, r, dstva, src[..k])
  {
    hide Tree, MemOk, UserOwned, UserMapped, Leaf, Readable, IsPage, PageOf, Chunk, Written, Spliced;
    ghost var f0, o := m.frames, m.owner;
    var va, done := dstva, 0;
    ReadNothing(f0, r, dstva);
    WrittenNothing(f0, o, r, dstva);
    while done < |src|
      invariant 0 <= done <= |src| && (done < |src| ==> va == dstva + done)
      invariant m.Ok() && UserOwned(m.frames, o, r)
      invariant Readable(f0, r, dstva, done) && Written(f0, m.frames, o, r, dstva, src[..done])
    {
      ghost var f1 := m.frames;
      var left := |src| - done;
      var va0 := va / PGSIZE;
      WrittenMapped(f0, f1, o, r, dstva, src[..done], va0);
      var u := WalkAddr(m, r, va0);
      var n := Chunk(va, left);
      ChunkReadable(f0, r, va, n);
      ReadableSplit(f0, r, dstva, done, |src|);
      ReadableSplit(f0, r, va, n, left);
      if u == 0 {
        return false, done;
      }
      ReadableSplit(f0, r, dstva, done, done + n);
      PageFacts(m.frames, u);
      UserAtPage(m.frames, o, r, va0);
      var c := src[done..done + n];
      var x := Data(Spliced(m.frames[u].bytes, va % PGSIZE, c));
      ChunkWritten(f1, f1[u := x], o, r, va, c, u);
      SameOwned(f1, f1[u := x], o, r, va, c);
      MemUpdate(f1, m.freelist, m.free, o, m.lo, m.hi, u, x, o[u]);
      assert o[u := o[u]] == o;
      m.frames := m.frames[u := x];
      WrittenTwice(f0, f1, m.frames, o, r, dstva, src[..done], c);
      assert src[..done] + c == src[..done + n];
      if n < left { NextPage(va, left); }
      done := done + n;
      va := (va0 + 1) * PGSIZE;
    }
    return true, done;
  }

  lemma WrittenMapped(f: Frames, g: Frames, o: Owners, r: nat, va: nat, src: seq<nat>, v: nat)
    requires Written(f, g, o, r, va, src) && Owns(o, r, RootTable)
    ensures UserMapped(f, r, v) <==> UserMapped(g, r, v)
  {
    hide V, U, Leaf;
    SameMapped(f, g, o, r);
  }

  lemma SameOwned(f: Frames, g: Frames, o: Owners, r: nat, va: nat, src: seq<nat>)
    requires Written(f, g, o, r, va, src) && Owns(o, r, RootTable) && UserOwned(f, o, r)
    ensures UserOwned(g, o, r)
  {
    hide V, U, Leaf, UserOwned;
    SameMapped(f, g, o, r);
  }

  lemma UserAtPage(f: Frames, o: Owners, r: nat, v: nat)
    requires UserOwned(f, o, r) && UserMapped(f, r, v)
    ensures Owns(o, PageOf(Leaf(f, r, v)), UserPage(r, v))
  {
  }

  // What was written is what is read: copyout then copyin of the same range.
  method RoundTrip(m: Memory, r: nat, va: nat, src: seq<nat>) returns (ok: bool, dst: seq<nat>)
    requires m.Ok() && Owns(m.owner, r, RootTable) && UserOwned(m.frames, m.owner, r)
    modifies m`frames
    ensures ok <==> Readable(old(m.frames), r, va, |src|)
    ensures ok ==> dst == src
  {
    hide Tree, MemOk, UserOwned, UserMapped, Leaf, Byte;
    ghost var f0, k := m.frames, 0;
    dst := [];
    ok, k := CopyOut(m, r, va, src);
    if ok {
      assert src[..k] == src;
      SameMapped(f0, m.frames, m.owner, r);
      ok, dst := CopyIn(m, r, va, |src|);
      forall i: nat | i < |src| ensures dst[i] == src[i] {
        assert UserMapped(f0, r, PageAt(va, i)) && PageAt(va + i, 0) == PageAt(va, i);
      }
    }
  }

  // No other address space sees the write.
  lemma OthersUnseen(f: Frames, g: Frames, o: Owners, r: nat, va: nat, src: seq<nat>, s: nat, x: nat)
    requires Written(f, g, o, r, va, src) && s != r && Owns(o, s, RootTable) && UserOwned(f, o, s)
    requires UserMapped(f, s, x / PGSIZE)
    ensures Byte(g, s, x) == Byte(f, s, x)
  {
    hide V, U, Leaf, PageOf;
    assert Leaf(g, s, x / PGSIZE) == Leaf(f, s, x / PGSIZE);
  }

  // ---------------------------------------------------------------- copyinstr

  // The first k + 1 bytes can be read and the last of them is NUL.
  ghost predicate NulAt(f: Frames, r: nat, va: nat, k: nat) {
    Readable(f, r, va, k + 1) && Byte(f, r, va + k) == 0
  }

  ghost predicate NoNul(bytes: seq<nat>) {
    forall i :: 0 <= i < |bytes| ==> bytes[i] != 0
  }

  // The scan of one page: the bytes before the first NUL among the n at off.
  method ScanPage(bytes: seq<nat>, off: nat, n: nat) returns (k: nat)
    requires off + n <= |bytes|
    ensures k <= n && NoNul(bytes[off..off + k]) && (k < n ==> bytes[off + k] == 0)
  {
    k := 0;
    while k < n && bytes[off + k] != 0
      invariant k <= n && NoNul(bytes[off..off + k])
    {
      assert bytes[off..off + k + 1] == bytes[off..off + k] + [bytes[off + k]];
      k := k + 1;
    }
  }

  // No NUL so far, and the next byte cannot be read or there is none.
  lemma NoString(f: Frames, r: nat, va: nat, bytes: seq<nat>, max: nat)
    requires BytesAt(f, r, va, bytes) && NoNul(bytes) && |bytes| <= max
    requires |bytes| < max ==> !UserMapped(f, r, (va + |bytes|) / PGSIZE)
    ensures forall k: nat :: k < max ==> !NulAt(f, r, va, k)
  {
    hide UserMapped, Byte;
    forall k: nat | k < max ensures !NulAt(f, r, va, k) {
      if k < |bytes| {
        assert bytes[k] == Byte(f, r, va + k);
      } else {
        assert PageAt(va, |bytes|) == (va + |bytes|) / PGSIZE;
      }
    }
  }

  // copyinstr succeeds exactly when a NUL lies within max readable bytes, and
  // delivers the bytes up to and including the first.
  method CopyInStr(m: Memory, r: nat, srcva: nat, max: nat) returns (ok: bool, dst: seq<nat>)
    requires m.Ok() && Owns(m.owner, r, RootTable) && UserOwned(m.frames, m.owner, r)
    ensures ok <==> exists k: nat :: k < max && NulAt(m.frames, r, srcva, k)
    ensures |dst| <= max && BytesAt(m.frames, r, srcva, dst)
    ensures if ok then 0 < |dst| && NoNul(dst[..|dst| - 1]) && dst[|dst| - 1] == 0 else NoNul(dst)
  {
    hide Tree, MemOk, UserOwned, UserMapped, Leaf, Readable, BytesAt, IsPage, PageOf, Chunk, Byte;
    var va, left := srcva, max;
    dst := [];
    ReadNothing(m.frames, r, srcva);
    while left > 0
      invariant 0 <= left && |dst| + left == max && (left > 0 ==> va == srcva + |dst|)
      invariant Readable(m.frames, r, srcva, |dst|) && BytesAt(m.frames, r, srcva, dst) && NoNul(dst)
    {
      ghost var done := |dst|;
      var va0 := va / PGSIZE;
      var u := WalkAddr(m, r, va0);
      if u == 0 {
        NoString(m.frames, r, srcva, dst, max);
        return false, dst;
      }
      var n := Chunk(va, left);
      PageFacts(m.frames, u);
      var bytes, off := m.frames[u].bytes, va % PGSIZE;
      var k := ScanPage(bytes, off, n);
      ChunkReadable(m.frames, r, va, n);
      ReadableSplit(m.frames, r, va, if k < n then k + 1 else k, n);
      ReadableSplit(m.frames, r, srcva, done, done + if k < n then k + 1 else k);
      var c := bytes[off..off + if k < n then k + 1 else k];
      ChunkBytes(m.frames, r, va, if k < n then k + 1 else k, bytes);
      BytesJoin(m.frames, r, srcva, dst, c);
      if k < n {
        FoundNul(m.frames, r, srcva, dst + c, done + k);
        assert c[..k] == bytes[off..off + k];
        assert (dst + c)[..done + k] == dst + c[..k];
        return true, dst + c;
      }
      if n < left { NextPage(va, left); }
      dst := dst + c;
      left := left - n;
      va := (va0 + 1) * PGSIZE;
    }
    NoString(m.frames, r, srcva, dst, max);
    return false, dst;
  }

  lemma FoundNul(f: Frames, r: nat, va: nat, bytes: seq<nat>, k: nat)
    requires BytesAt(f, r, va, bytes) && |bytes| == k + 1 && bytes[k] == 0 && Readable(f, r, va, k + 1)
    ensures NulAt(f, r, va, k)
  {
  }
}
