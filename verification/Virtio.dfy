/**
 The virtio disk driver's descriptors and rings (kernel/virtio_disk.c; sections
 2.6 and 5.2 of the OASIS virtio 1.1 specification). First the driver's own
 loops over descriptors, then requests, an abstract device, and interrupts as
 interleaved steps: each step is one critical section of vdisk_lock, one round
 of the interrupt handler's loop, or one action of the device.
 */
module Virtio {
  import opened Finite

  const NUM: nat := 8
  const WRAP: nat := 0x1_0000   // uint16
  const F_NEXT: nat := 1
  const F_WRITE: nat := 2

  // Where a descriptor points.
  datatype Addr = Null | OpAt(i: nat) | DataAt(b: nat) | StatusAt(k: nat)
  datatype Desc = Desc(addr: Addr, len: nat, flags: nat, next: nat)
  const CLEAR: Desc := Desc(Null, 0, 0, 0)

  // ---------------------------------------------------------------- descriptors

  // alloc_desc: the lowest free descriptor, or -1 if none is free.
  method AllocDesc(free: array<bool>) returns (i: int)
    modifies free
    ensures -1 <= i < free.Length && forall k :: 0 <= k < (if i < 0 then free.Length else i) ==> !old(free[k])
    ensures free[..] == if i < 0 then old(free[..]) else old(free[..])[i := false]
    ensures i >= 0 ==> old(free[i])
  {
    for k := 0 to free.Length
      invariant free[..] == old(free[..]) && forall j :: 0 <= j < k ==> !free[j]
    {
      if free[k] {
        free[k] := false;
        return k;
      }
    }
    return -1;
  }

  // free_desc; its panics demand an index in range that is not free.
  method FreeDesc(free: array<bool>, desc: array<Desc>, i: nat)
    requires i < free.Length == desc.Length && !free[i]
    modifies free, desc
    ensures free[..] == old(free[..])[i := true] && desc[..] == old(desc[..])[i := CLEAR]
  {
    desc[i] := CLEAR;
    free[i] := true;
  }

  // idx are the lowest free descriptors in order.
  ghost predicate Lowest(free: seq<bool>, idx: seq<nat>) {
    && (forall j, k :: 0 <= j < k < |idx| ==> idx[j] < idx[k])
    && (forall j :: 0 <= j < |idx| ==> idx[j] < |free| && free[idx[j]])
    && (forall d :: 0 <= d < |free| && free[d] && idx != [] && d <= idx[|idx| - 1] ==> d in idx)
  }

  // free without idx
  ghost predicate Without(f: seq<bool>, f0: seq<bool>, idx: seq<nat>) {
    |f| == |f0| && forall d :: 0 <= d < |f| ==> f[d] == (f0[d] && d !in idx)
  }

  // The frees on alloc3_desc's failing path.
  method PutBack(free: array<bool>, desc: array<Desc>, idx: seq<nat>, ghost f0: seq<bool>)
    requires free.Length == desc.Length && Without(free[..], f0, idx) && Lowest(f0, idx)
    requires forall j :: 0 <= j < |idx| ==> idx[j] < desc.Length && desc[idx[j]] == CLEAR
    modifies free, desc
    ensures free[..] == f0 && desc[..] == old(desc[..])
  {
    for j := 0 to |idx|
      invariant desc[..] == old(desc[..]) && |free[..]| == |f0|
      invariant forall d :: 0 <= d < |f0| ==> free[d] == (f0[d] && d !in idx[j..])
    {
      assert idx[j..] == [idx[j]] + idx[j + 1..];
      assert idx[j] !in idx[j + 1..];
      FreeDesc(free, desc, idx[j]);
    }
  }

  // alloc3_desc: the three lowest free descriptors, or everything as it was
  // because fewer than three are free.
  method Alloc3Desc(free: array<bool>, desc: array<Desc>) returns (ok: bool, idx: seq<nat>)
    requires free.Length == desc.Length && forall k :: 0 <= k < desc.Length && free[k] ==> desc[k] == CLEAR
    modifies free, desc
    ensures desc[..] == old(desc[..])
    ensures ok ==> |idx| == 3 && Lowest(old(free[..]), idx) && Without(free[..], old(free[..]), idx)
    ensures !ok ==> free[..] == old(free[..]) && !ThreeFree(free[..])
  {
    ghost var f0 := free[..];
    idx := [];
    for i := 0 to 3
      invariant |idx| == i && |f0| == free.Length && desc[..] == old(desc[..])
      invariant Lowest(f0, idx) && Without(free[..], f0, idx)
    {
      ghost var f1 := free[..];
      var d := AllocDesc(free);
      if d < 0 {
        AllTaken(f0, f1, idx);
        PutBack(free, desc, idx, f0);
        return false, [];
      }
      LowestMore(f0, f1, idx, d);
      idx := idx + [d];
    }
    return true, idx;
  }

  ghost predicate ThreeFree(free: seq<bool>) {
    exists a, b, c :: 0 <= a < b < c < |free| && free[a] && free[b] && free[c]
  }

  lemma LowestMore(f0: seq<bool>, f: seq<bool>, idx: seq<nat>, d: nat)
    requires Lowest(f0, idx) && Without(f, f0, idx) && d < |f| && f[d] && forall k :: 0 <= k < d ==> !f[k]
    ensures Lowest(f0, idx + [d]) && Without(f[d := false], f0, idx + [d])
  {
    forall j | 0 <= j < |idx| ensures idx[j] < d {
    }
  }

  lemma AllTaken(f0: seq<bool>, f: seq<bool>, idx: seq<nat>)
    requires Without(f, f0, idx) && |idx| < 3 && forall k :: 0 <= k < |f| ==> !f[k]
    ensures !ThreeFree(f0)
  {
  }

  // ---------------------------------------------------------------- chains

  // c is the chain that starts at c[0]: every descriptor but the last carries
  // NEXT and leads to the following one.
  ghost predicate Chain(desc: seq<Desc>, c: seq<nat>) {
    && c != [] && NoDup(c) && (forall k :: 0 <= k < |c| ==> c[k] < |desc|)
    && (forall k :: 0 <= k < |c| - 1 ==> desc[c[k]].flags % 2 == 1 && desc[c[k]].next == c[k + 1])
    && desc[c[|c| - 1]].flags % 2 == 0
  }

  // The first k descriptors of the chain are free and clear, the others as they were.
  ghost predicate FreedTo(f: seq<bool>, d: seq<Desc>, f0: seq<bool>, d0: seq<Desc>, c: seq<nat>, k: nat) {
    && |f| == |f0| == |d| == |d0| && k <= |c|
    && (forall x :: 0 <= x < |f| ==> f[x] == (f0[x] || x in c[..k]))
    && (forall x :: 0 <= x < |d| ==> d[x] == if x in c[..k] then CLEAR else d0[x])
  }

  lemma FreedNext(f: seq<bool>, d: seq<Desc>, f0: seq<bool>, d0: seq<Desc>, c: seq<nat>, k: nat)
    requires FreedTo(f, d, f0, d0, c, k) && k < |c| && Chain(d0, c) && forall j :: 0 <= j < |c| ==> !f0[c[j]]
    ensures c[k] < |f| && !f[c[k]] && d[c[k]] == d0[c[k]]
    ensures FreedTo(f[c[k] := true], d[c[k] := CLEAR], f0, d0, c, k + 1)
  {
    assert c[k] !in c[..k];
    assert c[..k + 1] == c[..k] + [c[k]];
  }

  // free_chain: the whole chain becomes free and clear, nothing else changes.
  method FreeChain(free: array<bool>, desc: array<Desc>, i0: nat, ghost c: seq<nat>)
    requires free.Length == desc.Length && Chain(desc[..], c) && c[0] == i0
    requires forall k :: 0 <= k < |c| ==> !free[c[k]]
    modifies free, desc
    ensures FreedTo(free[..], desc[..], old(free[..]), old(desc[..]), c, |c|)
  {
    hide FreedTo;
    var i := i0;
    ghost var k, f0, d0 := 0, free[..], desc[..];
    assert FreedTo(f0, d0, f0, d0, c, 0) by {
      FreedNothing(f0, d0, c);
    }
    while true
      invariant 0 <= k < |c| && i == c[k]
      invariant FreedTo(free[..], desc[..], f0, d0, c, k)
      decreases |c| - k
    {
      FreedNext(free[..], desc[..], f0, d0, c, k);
      var flag, nxt := desc[i].flags, desc[i].next;
      FreeDesc(free, desc, i);
      if flag % 2 == 0 {
        return;
      }
      i := nxt;
      k := k + 1;
    }
  }

  lemma FreedNothing(f: seq<bool>, d: seq<Desc>, c: seq<nat>)
    requires |f| == |d|
    ensures FreedTo(f, d, f, d, c, 0)
  {
  }
}
