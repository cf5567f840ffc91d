/**
 The user-level allocator (user/umalloc.c): a circular free list of blocks in
 address order, first fit, with neighbours joined on free. Addresses count
 headers; a block of size n at a is a header at a and n - 1 units behind it.
 The static header base lies below the heap and has size 0.
 */
module Umalloc {

  datatype Header = Header(ptr: nat, size: nat)
  type Headers = map<nat, Header>

  // ---------------------------------------------------------------- the list as a sequence

  function Next(l: seq<nat>, i: nat): nat
    requires i < |l|
  {
    if i + 1 < |l| then l[i + 1] else l[0]
  }

  function InsertAt(l: seq<nat>, t: nat, x: nat): (r: seq<nat>)
    requires t < |l|
    ensures |r| == |l| + 1
  {
    seq(|l| + 1, i requires 0 <= i <= |l| => if i <= t then l[i] else if i == t + 1 then x else l[i - 1])
  }

  function RemoveAt(l: seq<nat>, j: nat): (r: seq<nat>)
    requires j < |l|
    ensures |r| == |l| - 1
  {
    seq(|l| - 1, i requires 0 <= i < |l| - 1 => if i < j then l[i] else l[i + 1])
  }

  ghost predicate Link(h: Headers, l: seq<nat>, i: nat)
    requires i < |l|
  {
    l[i] in h && h[l[i]].ptr == Next(l, i)
  }

  // The list l is linked through the headers in a circle.
  ghost predicate Linked(h: Headers, l: seq<nat>) {
    l != [] && forall i: nat :: i < |l| ==> Link(h, l, i)
  }

  // Block i has a size unless it is base, and ends before the next one begins;
  // only at a seam may the two touch.
  ghost predicate Apart(h: Headers, l: seq<nat>, seams: set<nat>, i: nat)
    requires i < |l|
  {
    && l[i] in h && (if i == 0 then h[l[i]].size == 0 else h[l[i]].size > 0)
    && (i + 1 < |l| ==>
          && l[i] < l[i + 1] && l[i] + h[l[i]].size <= l[i + 1]
          && (i !in seams ==> l[i] + h[l[i]].size < l[i + 1]))
  }

  // In address order, without overlap, neighbours joined except at the seams.
  ghost predicate Ordered(h: Headers, l: seq<nat>, seams: set<nat>) {
    forall i: nat :: i < |l| ==> Apart(h, l, seams, i)
  }

  // A block that is not base: on the free list, or live.
  ghost predicate Block(h: Headers, l: seq<nat>, live: map<nat, nat>, a: nat) {
    a in h && (a in live || exists i: nat :: 0 < i < |l| && l[i] == a)
  }

  // The units of block a are known to be its own.
  ghost predicate Covers(own: map<nat, nat>, a: nat, n: nat) {
    forall u: nat :: a <= u < a + n ==> u in own && own[u] == a
  }

  // own maps every unit obtained from sbrk to the one block it lies in.
  ghost predicate Owned(h: Headers, l: seq<nat>, own: map<nat, nat>, live: map<nat, nat>) {
    && (forall a :: a in live ==> a in h && h[a].size == live[a] > 0 && a !in l)
    && (forall a: nat :: Block(h, l, live, a) ==> Covers(own, a, h[a].size))
    && (forall u :: u in own ==> Block(h, l, live, own[u]) && own[u] <= u < own[u] + h[own[u]].size)
  }

  ghost predicate Good(h: Headers, l: seq<nat>, own: map<nat, nat>, live: map<nat, nat>, base: nat, seams: set<nat>) {
    && Linked(h, l) && Ordered(h, l, seams) && l[0] == base
    && Owned(h, l, own, live) && (forall u :: u in own ==> u > base)
  }

  lemma {:induction false} Ascending(h: Headers, l: seq<nat>, seams: set<nat>, i: nat, j: nat)
    requires Ordered(h, l, seams) && i < j < |l|
    ensures l[i] in h && l[i] < l[j] && l[i] + h[l[i]].size <= l[j]
    decreases j
  {
    assert Apart(h, l, seams, i) && Apart(h, l, seams, j - 1);
    if i + 1 < j {
      Ascending(h, l, seams, i, j - 1);
    }
  }

  ghost predicate AllDifferent(l: seq<nat>) {
    forall i: nat, j: nat :: i < j < |l| ==> l[i] != l[j]
  }

  lemma Different(h: Headers, l: seq<nat>, seams: set<nat>)
    requires Ordered(h, l, seams)
    ensures AllDifferent(l)
  {
    forall i: nat, j: nat | i < j < |l| ensures l[i] != l[j] {
      Ascending(h, l, seams, i, j);
    }
  }

  // ---------------------------------------------------------------- linking

  // bp->s.ptr = p->s.ptr; p->s.ptr = bp
  function Insert(h: Headers, p: nat, x: nat): Headers
    requires p in h && x in h
  {
    h[x := h[x].(ptr := h[p].ptr)][p := h[p].(ptr := x)]
  }

  // p takes over its successor: the size of both, the pointer of the second
  function Join(h: Headers, p: nat): Headers
    requires p in h && h[p].ptr in h
  {
    h[p := Header(h[h[p].ptr].ptr, h[p].size + h[h[p].ptr].size)]
  }

  lemma InsertLinked(h: Headers, l: seq<nat>, t: nat, x: nat)
    requires Linked(h, l) && AllDifferent(l) && t < |l| && x in h && x !in l
    ensures l[t] in h && Linked(Insert(h, l[t], x), InsertAt(l, t, x))
  {
    assert Link(h, l, t);
    var h', r := Insert(h, l[t], x), InsertAt(l, t, x);
    forall i: nat | i < |r| ensures Link(h', r, i) {
      if i < t {
        assert Link(h, l, i) && l[i] != l[t];
      } else if i > t + 1 {
        assert Link(h, l, i - 1) && l[i - 1] != l[t];
      }
    }
  }

  // The successor of l[j] leaves the list.
  lemma RemoveLinked(h: Headers, l: seq<nat>, j: nat, n: nat)
    requires Linked(h, l) && AllDifferent(l) && j + 1 < |l|
    ensures l[j] in h && h[l[j]].ptr == l[j + 1] && l[j + 1] in h
    ensures Linked(h[l[j] := Header(h[l[j + 1]].ptr, n)], RemoveAt(l, j + 1))
  {
    assert Link(h, l, j) && Link(h, l, j + 1);
    var h', r := h[l[j] := Header(h[l[j + 1]].ptr, n)], RemoveAt(l, j + 1);
    forall i: nat | i < |r| ensures Link(h', r, i) {
      if i < j {
        assert Link(h, l, i) && l[i] != l[j];
      } else if i > j {
        assert Link(h, l, i + 1) && l[j] != l[i + 1];
      }
    }
  }

  // ---------------------------------------------------------------- freeing

  // Two blocks do not overlap.
  lemma Disjoint(h: Headers, l: seq<nat>, own: map<nat, nat>, live: map<nat, nat>, a: nat, b: nat)
    requires Owned(h, l, own, live) && Block(h, l, live, a) && Block(h, l, live, b) && a < b && h[b].size > 0
    ensures a + h[a].size <= b
  {
    assert Covers(own, a, h[a].size) && Covers(own, b, h[b].size);
    assert b in own && own[b] == b;
  }

  lemma InsertOrdered(h: Headers, l: seq<nat>, own: map<nat, nat>, live: map<nat, nat>, base: nat, t: nat, x: nat)
    requires Good(h, l, own, live, base, {}) && x in live && t < |l| && l[t] < x && (t + 1 < |l| ==> x < l[t + 1])
    requires l[t] in h
    ensures Ordered(Insert(h, l[t], x), InsertAt(l, t, x), {t, t + 1})
  {
    var h', r, seams := Insert(h, l[t], x), InsertAt(l, t, x), {t, t + 1};
    assert Block(h, l, live, x);
    assert Apart(h, l, {}, t);
    if t > 0 {
      assert Block(h, l, live, l[t]);
      Disjoint(h, l, own, live, l[t], x);
    }
    if t + 1 < |l| {
      assert Apart(h, l, {}, t + 1);
      assert Block(h, l, live, l[t + 1]);
      Disjoint(h, l, own, live, x, l[t + 1]);
    }
    forall i: nat | i < |r| ensures Apart(h', r, seams, i) {
      if i <= t {
        assert Apart(h, l, {}, i);
      } else if i > t + 1 {
        assert Apart(h, l, {}, i - 1);
      }
    }
  }

  // The freed block goes between its neighbours, for the moment touching them.
  lemma InsertGood(h: Headers, l: seq<nat>, own: map<nat, nat>, live: map<nat, nat>, base: nat, t: nat, x: nat)
    requires Good(h, l, own, live, base, {}) && x in live && t < |l| && l[t] < x && (t + 1 < |l| ==> x < l[t + 1])
    ensures l[t] in h && Good(Insert(h, l[t], x), InsertAt(l, t, x), own, live - {x}, base, {t, t + 1})
  {
    Different(h, l, {});
    InsertLinked(h, l, t, x);
    InsertOrdered(h, l, own, live, base, t, x);
    InsertOwned(h, l, own, live, t, x);
  }

  lemma InsertOwned(h: Headers, l: seq<nat>, own: map<nat, nat>, live: map<nat, nat>, t: nat, x: nat)
    requires Owned(h, l, own, live) && x in live && t < |l| && l[t] in h
    ensures Owned(Insert(h, l[t], x), InsertAt(l, t, x), own, live - {x})
  {
    var h', r, live' := Insert(h, l[t], x), InsertAt(l, t, x), live - {x};
    forall a: nat ensures Block(h', r, live', a) <==> Block(h, l, live, a) {
      InsertBlock(h, l, live, t, x, a);
    }
    forall a | a in live' ensures a !in r {
    }
  }

  lemma InsertBlock(h: Headers, l: seq<nat>, live: map<nat, nat>, t: nat, x: nat, a: nat)
    requires x in live && t < |l| && l[t] in h && x in h && x !in l
    ensures Block(Insert(h, l[t], x), InsertAt(l, t, x), live - {x}, a) <==> Block(h, l, live, a)
  {
    var h', r, live' := Insert(h, l[t], x), InsertAt(l, t, x), live - {x};
    if a == x {
      assert r[t + 1] == x;
    } else {
      if i: nat :| 0 < i < |l| && l[i] == a {
        assert r[if i <= t then i else i + 1] == a;
      }
      if i: nat :| 0 < i < |r| && r[i] == a {
        assert l[if i <= t then i else i - 1] == a;
      }
    }
  }

  // own with everything of block x in block p
  function Moved(own: map<nat, nat>, x: nat, p: nat): map<nat, nat> {
    map u | u in own :: if own[u] == x then p else own[u]
  }

  // Block j and its successor touch and become one.
  lemma JoinGood(h: Headers, l: seq<nat>, own: map<nat, nat>, live: map<nat, nat>, base: nat, seams: set<nat>, j: nat)
    requires Good(h, l, own, live, base, seams) && 0 < j && j + 1 < |l| && l[j] in h && l[j] + h[l[j]].size == l[j + 1]
    requires forall k :: k in seams ==> k <= j
    ensures h[l[j]].ptr in h
    ensures Good(Join(h, l[j]), RemoveAt(l, j + 1), Moved(own, l[j + 1], l[j]), live, base, seams - {j})
  {
    Different(h, l, seams);
    assert l[j] in h && l[j + 1] in h by {
      assert Link(h, l, j) && Link(h, l, j + 1);
    }
    RemoveLinked(h, l, j, h[l[j]].size + h[l[j + 1]].size);
    JoinOrdered(h, l, seams, j);
    JoinOwned(h, l, own, live, j);
    assert Apart(h, l, seams, 0) && Apart(h, l, seams, j);
  }

  lemma JoinOrdered(h: Headers, l: seq<nat>, seams: set<nat>, j: nat)
    requires Linked(h, l) && Ordered(h, l, seams) && AllDifferent(l) && 0 < j && j + 1 < |l| && l[j] in h
    requires l[j] + h[l[j]].size == l[j + 1]
    requires h[l[j]].ptr == l[j + 1] && l[j + 1] in h && forall k :: k in seams ==> k <= j
    ensures Ordered(Join(h, l[j]), RemoveAt(l, j + 1), seams - {j})
  {
    var h', r := Join(h, l[j]), RemoveAt(l, j + 1);
    assert Apart(h, l, seams, j + 1);
    forall i: nat | i < |r| ensures Apart(h', r, seams - {j}, i) {
      if i <= j {
        assert Apart(h, l, seams, i);
        assert i < j ==> l[i] != l[j];
      } else {
        assert Apart(h, l, seams, i + 1) && l[j] != l[i + 1];
      }
    }
  }

  lemma JoinOwned(h: Headers, l: seq<nat>, own: map<nat, nat>, live: map<nat, nat>, j: nat)
    requires Owned(h, l, own, live) && AllDifferent(l) && 0 < j && j + 1 < |l| && l[j] in h
    requires l[j] + h[l[j]].size == l[j + 1]
    requires h[l[j]].ptr == l[j + 1] && l[j + 1] in h
    ensures Owned(Join(h, l[j]), RemoveAt(l, j + 1), Moved(own, l[j + 1], l[j]), live)
  {
    var p, x := l[j], l[j + 1];
    var h', r, own' := Join(h, p), RemoveAt(l, j + 1), Moved(own, x, p);
    assert Block(h, l, live, p) && Block(h, l, live, x);
    forall a: nat ensures Block(h', r, live, a) <==> Block(h, l, live, a) && a != x {
      JoinBlock(h, l, live, j, a);
    }
    assert forall a: nat :: Block(h, l, live, a) ==> a in h;
    assert forall a :: a in live ==> a !in l && a != p && a != x;
    forall a | a in live ensures a !in r {
    }
    hide Block, Covers, Moved, RemoveAt, AllDifferent;
    forall a: nat | Block(h', r, live, a) ensures Covers(own', a, h'[a].size) {
      JoinCovers(h, own, p, x, a);
    }
    forall u | u in own' ensures Block(h', r, live, own'[u]) && own'[u] <= u < own'[u] + h'[own'[u]].size {
      JoinUnit(h, own, p, x, u);
    }
  }

  lemma JoinCovers(h: Headers, own: map<nat, nat>, p: nat, x: nat, a: nat)
    requires p in h && x in h && a in h && p != x && a != x && h[p].ptr == x && p + h[p].size == x
    requires Covers(own, a, h[a].size) && Covers(own, x, h[x].size)
    ensures Covers(Moved(own, x, p), a, Join(h, p)[a].size)
  {
  }

  lemma JoinUnit(h: Headers, own: map<nat, nat>, p: nat, x: nat, u: nat)
    requires p in h && x in h && p != x && h[p].ptr == x && p + h[p].size == x
    ensures u in Moved(own, x, p) <==> u in own
    ensures u in own && own[u] in h && own[u] <= u < own[u] + h[own[u]].size ==>
      && Moved(own, x, p)[u] in Join(h, p)
      && Moved(own, x, p)[u] <= u < Moved(own, x, p)[u] + Join(h, p)[Moved(own, x, p)[u]].size
      && Moved(own, x, p)[u] == if own[u] == x then p else own[u]
  {
  }

  lemma JoinBlock(h: Headers, l: seq<nat>, live: map<nat, nat>, j: nat, a: nat)
    requires AllDifferent(l) && 0 < j && j + 1 < |l| && l[j] in h && h[l[j]].ptr == l[j + 1] && l[j + 1] in h
    requires l[j + 1] !in live
    ensures Block(Join(h, l[j]), RemoveAt(l, j + 1), live, a) <==> Block(h, l, live, a) && a != l[j + 1]
  {
    var h', r := Join(h, l[j]), RemoveAt(l, j + 1);
    if i: nat :| 0 < i < |l| && l[i] == a && a != l[j + 1] {
      assert r[if i <= j then i else i - 1] == a;
    }
    if i: nat :| 0 < i < |r| && r[i] == a {
      assert l[if i <= j then i else i + 1] == a;
    }
  }

  // Neighbours that do not touch are no seam.
  lemma NoSeam(h: Headers, l: seq<nat>, own: map<nat, nat>, live: map<nat, nat>, base: nat, seams: set<nat>, j: nat)
    requires Good(h, l, own, live, base, seams) && j < |l| && l[j] in h
    requires j + 1 < |l| ==> l[j] + h[l[j]].size != l[j + 1]
    ensures Good(h, l, own, live, base, seams - {j})
  {
    forall i: nat | i < |l| ensures Apart(h, l, seams - {j}, i) {
      assert Apart(h, l, seams, i);
    }
  }

  // ---------------------------------------------------------------- allocating

  // The headers and own after splitting n units off the end of block p
  function Split(h: Headers, p: nat, n: nat): Headers
    requires p in h && n < h[p].size
  {
    var q := p + h[p].size - n;
    h[p := h[p].(size := h[p].size - n)][q := Header(if q in h then h[q].ptr else 0, n)]
  }

  function Given(own: map<nat, nat>, q: nat, n: nat): map<nat, nat> {
    map u | u in own :: if q <= u < q + n then q else own[u]
  }

  // An address inside a block is no block.
  lemma Inside(h: Headers, l: seq<nat>, own: map<nat, nat>, live: map<nat, nat>, base: nat, p: nat, q: nat)
    requires Good(h, l, own, live, base, {}) && Block(h, l, live, p) && p < q < p + h[p].size
    ensures q !in l && q !in live && !Block(h, l, live, q)
  {
    assert Covers(own, p, h[p].size);
    assert q in own && own[q] == p;
    assert q in live ==> Block(h, l, live, q);
    forall i: nat | i < |l| ensures l[i] != q {
      assert Apart(h, l, {}, i);
      if i > 0 {
        assert Block(h, l, live, l[i]);
        assert Covers(own, l[i], h[l[i]].size);
        assert l[i] in own;
      }
    }
  }

  // p->s.size -= nunits; p += p->s.size; p->s.size = nunits
  lemma SplitGood(h: Headers, l: seq<nat>, own: map<nat, nat>, live: map<nat, nat>, base: nat, i: nat, n: nat)
    requires Good(h, l, own, live, base, {}) && 0 < i < |l| && l[i] in h && 0 < n < h[l[i]].size
    ensures var q := l[i] + h[l[i]].size - n;
            && q !in live && q !in l
            && Good(Split(h, l[i], n), l, Given(own, q, n), live[q := n], base, {})
  {
    var p, q := l[i], l[i] + h[l[i]].size - n;
    var h', own', live' := Split(h, p, n), Given(own, q, n), live[q := n];
    assert Block(h, l, live, p);
    Inside(h, l, own, live, base, p, q);
    Different(h, l, {});
    hide Covers;
    forall k: nat | k < |l| ensures Link(h', l, k) {
      assert Link(h, l, k);
    }
    forall k: nat | k < |l| ensures Apart(h', l, {}, k) {
      assert Apart(h, l, {}, k);
    }
    forall a: nat ensures Block(h', l, live', a) <==> Block(h, l, live, a) || a == q {
    }
    SplitOwned(h, l, own, live, p, q, n);
  }

  lemma SplitOwned(h: Headers, l: seq<nat>, own: map<nat, nat>, live: map<nat, nat>, p: nat, q: nat, n: nat)
    requires Owned(h, l, own, live) && Block(h, l, live, p) && p !in live && p in h && 0 < n < h[p].size
    requires q == p + h[p].size - n
    requires q !in live && q !in l && !Block(h, l, live, q)
    requires forall a: nat :: Block(Split(h, p, n), l, live[q := n], a) <==> Block(h, l, live, a) || a == q
    ensures Owned(Split(h, p, n), l, Given(own, q, n), live[q := n])
  {
    var h', own', live' := Split(h, p, n), Given(own, q, n), live[q := n];
    assert forall a: nat :: Block(h, l, live, a) ==> a in h;
    assert forall a :: a in live ==> Block(h, l, live, a);
    SplitBlocks(h, h', l, own, own', live, live', p, q, n);
    hide Block, Covers, Given;
    forall u | u in own' ensures Block(h', l, live', own'[u]) && own'[u] <= u < own'[u] + h'[own'[u]].size {
      SplitUnit(h, own, p, q, n, u);
    }
  }

  lemma SplitBlocks(h: Headers, h': Headers, l: seq<nat>, own: map<nat, nat>, own': map<nat, nat>,
                    live: map<nat, nat>, live': map<nat, nat>, p: nat, q: nat, n: nat)
    requires Owned(h, l, own, live) && Block(h, l, live, p) && p in h && 0 < n < h[p].size && q == p + h[p].size - n
    requires h' == Split(h, p, n) && own' == Given(own, q, n)
    requires forall a: nat :: Block(h', l, live', a) <==> Block(h, l, live, a) || a == q
    ensures forall a: nat :: Block(h', l, live', a) ==> a in h' && Covers(own', a, h'[a].size)
  {
    assert forall a: nat :: Block(h, l, live, a) ==> a in h;
    hide Block, Covers, Given;
    forall a: nat | Block(h', l, live', a) ensures a in h' && Covers(own', a, h'[a].size) {
      if a != q {
        assert Covers(own, a, h[a].size);
        SplitCovers(h, own, p, q, n, a);
      } else {
        SplitCovers(h, own, p, q, n, p);
      }
    }
  }

  lemma SplitCovers(h: Headers, own: map<nat, nat>, p: nat, q: nat, n: nat, a: nat)
    requires p in h && a in h && a != q && 0 < n < h[p].size && q == p + h[p].size - n
    requires Covers(own, a, h[a].size) && Covers(own, p, h[p].size)
    ensures Covers(Given(own, q, n), a, Split(h, p, n)[a].size)
    ensures Covers(Given(own, q, n), q, n)
  {
  }

  lemma SplitUnit(h: Headers, own: map<nat, nat>, p: nat, q: nat, n: nat, u: nat)
    requires p in h && 0 < n < h[p].size && q == p + h[p].size - n && Covers(own, p, h[p].size)
    requires u in own ==> own[u] != q
    ensures u in Given(own, q, n) <==> u in own
    ensures u in own && own[u] in h && own[u] <= u < own[u] + h[own[u]].size ==>
      var v := Given(own, q, n)[u];
      (v == own[u] || v == q) && v in Split(h, p, n) && v <= u < v + Split(h, p, n)[v].size
  {
  }

  // prevp->s.ptr = p->s.ptr: the whole block is taken.
  lemma TakeGood(h: Headers, l: seq<nat>, own: map<nat, nat>, live: map<nat, nat>, base: nat, j: nat)
    requires Good(h, l, own, live, base, {}) && j + 1 < |l|
    ensures l[j] in h && l[j + 1] in h && h[l[j]].ptr == l[j + 1] && l[j + 1] !in live
    ensures Good(h[l[j] := h[l[j]].(ptr := h[l[j + 1]].ptr)], RemoveAt(l, j + 1), own,
                 live[l[j + 1] := h[l[j + 1]].size], base, {})
  {
    assert Link(h, l, j) && Link(h, l, j + 1) && Apart(h, l, {}, j) && Apart(h, l, {}, j + 1);
    Different(h, l, {});
    RemoveLinked(h, l, j, h[l[j]].size);
    TakeOrdered(h, l, j);
    TakeOwned(h, l, own, live, j);
    assert |l| > 1 && RemoveAt(l, j + 1)[0] == l[0];
    assert l[j + 1] !in live;
    hide Linked, Ordered, Owned;
  }

  lemma TakeOrdered(h: Headers, l: seq<nat>, j: nat)
    requires Ordered(h, l, {}) && AllDifferent(l) && j + 1 < |l| && l[j] in h && l[j + 1] in h
    ensures Ordered(h[l[j] := h[l[j]].(ptr := h[l[j + 1]].ptr)], RemoveAt(l, j + 1), {})
  {
    var h', r := h[l[j] := h[l[j]].(ptr := h[l[j + 1]].ptr)], RemoveAt(l, j + 1);
    assert Apart(h, l, {}, j) && Apart(h, l, {}, j + 1);
    forall i: nat | i < |r| ensures Apart(h', r, {}, i) {
      assert Apart(h, l, {}, if i <= j then i else i + 1);
    }
  }

  lemma TakeOwned(h: Headers, l: seq<nat>, own: map<nat, nat>, live: map<nat, nat>, j: nat)
    requires Owned(h, l, own, live) && AllDifferent(l) && j + 1 < |l| && l[j] in h && l[j + 1] in h
    requires h[l[j + 1]].size > 0
    ensures Owned(h[l[j] := h[l[j]].(ptr := h[l[j + 1]].ptr)], RemoveAt(l, j + 1), own,
                  live[l[j + 1] := h[l[j + 1]].size])
  {
    var x := l[j + 1];
    var h', r, live' := h[l[j] := h[l[j]].(ptr := h[x].ptr)], RemoveAt(l, j + 1), live[x := h[x].size];
    forall a: nat ensures Block(h', r, live', a) <==> Block(h, l, live, a) {
      TakeBlock(h, l, live, j, a);
    }
    forall a | a in live' ensures a !in r {
      forall i: nat | i < |r| ensures r[i] != a {
        assert r[i] == l[if i <= j then i else i + 1];
      }
    }
    assert forall a: nat :: Block(h, l, live, a) ==> a in h;
    hide Covers, Block;
  }

  lemma TakeBlock(h: Headers, l: seq<nat>, live: map<nat, nat>, j: nat, a: nat)
    requires AllDifferent(l) && j + 1 < |l| && l[j] in h && l[j + 1] in h
    ensures var live' := live[l[j + 1] := h[l[j + 1]].size];
            Block(h[l[j] := h[l[j]].(ptr := h[l[j + 1]].ptr)], RemoveAt(l, j + 1), live', a) <==> Block(h, l, live, a)
  {
    var r := RemoveAt(l, j + 1);
    if i: nat :| 0 < i < |l| && l[i] == a && a != l[j + 1] {
      assert r[if i <= j then i else i - 1] == a;
    }
    if i: nat :| 0 < i < |r| && r[i] == a {
      assert l[if i <= j then i else i + 1] == a;
    }
  }

  // sbrk returned the units c..c+n-1, which were nobody's.
  function Grown(own: map<nat, nat>, c: nat, n: nat): (r: map<nat, nat>)
    ensures forall u: nat :: u in r <==> u in own || c <= u < c + n
    ensures forall u: nat :: u in r ==> r[u] == if c <= u < c + n then c else own[u]
  {
    if n == 0 then own else Grown(own, c, n - 1)[c + n - 1 := c]
  }

  // hp->s.size = nu
  lemma GrowGood(h: Headers, l: seq<nat>, own: map<nat, nat>, live: map<nat, nat>, base: nat, c: nat, n: nat, x: Header)
    requires Good(h, l, own, live, base, {}) && base < c && n > 0 && x.size == n
    requires forall u :: u in own ==> u < c
    ensures c !in l && c !in live && Good(h[c := x], l, Grown(own, c, n), live[c := n], base, {})
  {
    var h', live' := h[c := x], live[c := n];
    NewAddress(h, l, own, live, base, c);
    NewBlock(h, h', l, live, live', c);
    hide Block, Grown, Owned;
    forall k: nat | k < |l| ensures Link(h', l, k) && Apart(h', l, {}, k) {
      assert Link(h, l, k) && Apart(h, l, {}, k);
    }
    GrowOwned(h, h', l, own, live, live', c, n);
    GrownAbove(own, c, n, base);
  }

  // An address above every unit is no block.
  lemma NewAddress(h: Headers, l: seq<nat>, own: map<nat, nat>, live: map<nat, nat>, base: nat, c: nat)
    requires Good(h, l, own, live, base, {}) && base < c && forall u :: u in own ==> u < c
    ensures c !in l && c !in live
  {
    assert c in live ==> Block(h, l, live, c);
    assert c in live ==> c in own;
    forall i: nat | i < |l| ensures l[i] != c {
      assert Apart(h, l, {}, i);
      if i > 0 {
        assert Block(h, l, live, l[i]);
        assert Covers(own, l[i], h[l[i]].size);
        assert l[i] in own;
      }
    }
  }

  lemma NewBlock(h: Headers, h': Headers, l: seq<nat>, live: map<nat, nat>, live': map<nat, nat>, c: nat)
    requires c !in l && c !in live && c in h' && c in live' && h' == h[c := h'[c]] && live' == live[c := live'[c]]
    ensures forall a: nat :: Block(h', l, live', a) <==> Block(h, l, live, a) || a == c
  {
  }

  lemma GrownAbove(own: map<nat, nat>, c: nat, n: nat, base: nat)
    requires base < c && forall u :: u in own ==> u > base
    ensures forall u :: u in Grown(own, c, n) ==> u > base
  {
    hide Grown;
  }

  lemma GrowOwned(h: Headers, h': Headers, l: seq<nat>, own: map<nat, nat>, live: map<nat, nat>, live': map<nat, nat>,
                  c: nat, n: nat)
    requires Owned(h, l, own, live) && n > 0 && c !in l && c !in live && forall u :: u in own ==> u < c
    requires c in h' && h'[c].size == n && h' == h[c := h'[c]] && live' == live[c := n]
    requires forall a: nat :: Block(h', l, live', a) <==> Block(h, l, live, a) || a == c
    ensures Owned(h', l, Grown(own, c, n), live')
  {
    hide Block, Covers, Grown;
    GrowBlocks(h, h', l, own, live, live', c, n);
    GrowUnits(h, h', l, own, Grown(own, c, n), live, live', c, n);
  }

  lemma GrowBlocks(h: Headers, h': Headers, l: seq<nat>, own: map<nat, nat>, live: map<nat, nat>, live': map<nat, nat>,
                   c: nat, n: nat)
    requires Owned(h, l, own, live) && forall u :: u in own ==> u < c
    requires c in h' && h'[c].size == n && h' == h[c := h'[c]]
    requires forall a: nat :: Block(h', l, live', a) <==> Block(h, l, live, a) || a == c
    ensures forall a: nat :: Block(h', l, live', a) ==> a in h' && Covers(Grown(own, c, n), a, h'[a].size)
  {
    assert forall a: nat :: Block(h, l, live, a) ==> a in h;
    hide Block, Covers, Grown;
    forall a: nat | Block(h', l, live', a) ensures a in h' && Covers(Grown(own, c, n), a, h'[a].size) {
      if a != c {
        assert Covers(own, a, h[a].size);
        GrownCovers(own, c, n, a, h[a].size);
      } else {
        NewCovers(own, c, n);
      }
    }
  }

  lemma GrowUnits(h: Headers, h': Headers, l: seq<nat>, own: map<nat, nat>, own': map<nat, nat>,
                  live: map<nat, nat>, live': map<nat, nat>, c: nat, n: nat)
    requires Owned(h, l, own, live) && c !in l && c !in live && own' == Grown(own, c, n)
    requires c in h' && h'[c].size == n && h' == h[c := h'[c]]
    requires forall a: nat :: Block(h', l, live', a) <==> Block(h, l, live, a) || a == c
    ensures forall u :: u in own' ==>
      Block(h', l, live', own'[u]) && own'[u] in h' && own'[u] <= u < own'[u] + h'[own'[u]].size
  {
    assert forall a: nat :: Block(h, l, live, a) ==> a in h && a != c;
    hide Block, Covers;
    forall u | u in own'
      ensures Block(h', l, live', own'[u]) && own'[u] in h' && own'[u] <= u < own'[u] + h'[own'[u]].size
    {
      GrownAt(own, c, n, u);
      if c <= u < c + n {
        assert own'[u] == c;
      } else {
        assert Block(h, l, live, own[u]);
      }
    }
  }

  lemma GrownAt(own: map<nat, nat>, c: nat, n: nat, u: nat)
    ensures u in Grown(own, c, n) <==> u in own || c <= u < c + n
    ensures u in Grown(own, c, n) ==> Grown(own, c, n)[u] == if c <= u < c + n then c else own[u]
  {
  }

  lemma GrownCovers(own: map<nat, nat>, c: nat, n: nat, a: nat, m: nat)
    requires Covers(own, a, m) && forall u :: u in own ==> u < c
    ensures Covers(Grown(own, c, n), a, m)
  {
    var own' := Grown(own, c, n);
    forall u: nat | a <= u < a + m ensures u in own' && own'[u] == a {
      assert u in own;
    }
  }

  lemma NewCovers(own: map<nat, nat>, c: nat, n: nat)
    ensures Covers(Grown(own, c, n), c, n)
  {
  }

  // ---------------------------------------------------------------- where a freed block goes

  // The last block below x.
  lemma {:induction false} Place(h: Headers, l: seq<nat>, x: nat, n: nat) returns (t: nat)
    requires Ordered(h, l, {}) && 0 < n <= |l| && l[0] < x && (n < |l| ==> x < l[n]) && x !in l
    ensures t < |l| && l[t] < x && (t + 1 < |l| ==> x < l[t + 1])
    decreases n
  {
    if l[n - 1] < x {
      t := n - 1;
    } else {
      t := Place(h, l, x, n - 1);
    }
  }

  // free's search stops exactly there.
  lemma StopsAt(h: Headers, l: seq<nat>, x: nat, t: nat, i: nat)
    requires Linked(h, l) && Ordered(h, l, {}) && t < |l| && l[t] < x && (t + 1 < |l| ==> x < l[t + 1]) && l[0] < x
    requires i < |l|
    ensures l[i] in h
    ensures var p, next := l[i], h[l[i]].ptr;
            i == t <==> (x > p && x < next) || (p >= next && (x > p || x < next))
  {
    assert Link(h, l, i);
    if i < t {
      Ascending(h, l, {}, i, t);
      Ascending(h, l, {}, i, i + 1);
      if i + 1 < t { Ascending(h, l, {}, i + 1, t); }
    } else if t < i {
      Ascending(h, l, {}, t, i);
      if t + 1 < i { Ascending(h, l, {}, t + 1, i); }
    }
    if 0 < i { Ascending(h, l, {}, 0, i); }
    if i + 1 < |l| { Ascending(h, l, {}, i, i + 1); }
  }

  // The list after freeing x behind l[t]: joined above, below, both or not at all.
  ghost function FreedList(l: seq<nat>, t: nat, x: nat, up: bool, down: bool): seq<nat>
    requires t < |l| && (up ==> t + 1 < |l|)
  {
    var l1 := InsertAt(l, t, x);
    var l2 := if up then RemoveAt(l1, t + 2) else l1;
    if down then RemoveAt(l2, t + 1) else l2
  }

  ghost function FreedOwn(own: map<nat, nat>, l: seq<nat>, t: nat, x: nat, up: bool, down: bool): (r: map<nat, nat>)
    requires t < |l| && (up ==> t + 1 < |l|)
    ensures r.Keys == own.Keys
  {
    var o2 := if up then Moved(own, l[t + 1], x) else own;
    if down then Moved(o2, x, l[t]) else o2
  }

  // What the two if statements of free do to the headers
  function FreedHeaders(h: Headers, p: nat, x: nat): Headers
    requires p in h && x in h && h[p].ptr in h
  {
    var h1 := if x + h[x].size == h[p].ptr then h[x := Header(h[h[p].ptr].ptr, h[x].size + h[h[p].ptr].size)]
              else h[x := h[x].(ptr := h[p].ptr)];
    if p + h1[p].size == x then h1[p := Header(h1[x].ptr, h1[p].size + h1[x].size)] else h1[p := h1[p].(ptr := x)]
  }

  // free keeps the list sorted, joined and apart from the live blocks.
  lemma FreeGood(h: Headers, l: seq<nat>, own: map<nat, nat>, live: map<nat, nat>, base: nat, t: nat, x: nat)
    requires Good(h, l, own, live, base, {}) && x in live && t < |l| && l[t] < x && (t + 1 < |l| ==> x < l[t + 1])
    ensures l[t] in h && x in h && h[l[t]].ptr in h
    ensures var up := x + h[x].size == h[l[t]].ptr;
            var down := l[t] + h[l[t]].size == x;
            && (up ==> t + 1 < |l|)
            && Good(FreedHeaders(h, l[t], x), FreedList(l, t, x, up, down), FreedOwn(own, l, t, x, up, down),
                    live - {x}, base, {})
            && |FreedList(l, t, x, up, down)| > t && FreedList(l, t, x, up, down)[t] == l[t]
            && (if down then FreedHeaders(h, l[t], x)[l[t]].size >= h[x].size
                else
                  && |FreedList(l, t, x, up, down)| > t + 1 && FreedList(l, t, x, up, down)[t + 1] == x
                  && FreedHeaders(h, l[t], x)[x].size >= h[x].size)
  {
    hide Good, Moved;
    var p := l[t];
    FreeFacts(h, l, own, live, base, t, x);
    var up := x + h[x].size == h[p].ptr;
    var down := p + h[p].size == x;
    var h1, l1, live' := Insert(h, p, x), InsertAt(l, t, x), live - {x};
    InsertGood(h, l, own, live, base, t, x);
    FreeUp(h1, l1, own, live', base, t, up, if up then l[t + 1] else 0);
    var h2 := if up then Join(h1, x) else h1;
    var l2 := if up then RemoveAt(l1, t + 2) else l1;
    var o2 := if up then Moved(own, l[t + 1], x) else own;
    FreeDown(h2, l2, o2, live', base, t, down);
    HeadersAgree(h, p, x);
  }

  lemma HeadersAgree(h: Headers, p: nat, x: nat)
    requires p in h && x in h && p != x && h[p].ptr in h && h[p].ptr != x
    requires x + h[x].size == h[p].ptr ==> h[p].ptr != p
    ensures var h1 := Insert(h, p, x);
            var h2 := if x + h[x].size == h[p].ptr then Join(h1, x) else h1;
            FreedHeaders(h, p, x) == if p + h[p].size == x then Join(h2, p) else h2
  {
  }

  lemma FreeFacts(h: Headers, l: seq<nat>, own: map<nat, nat>, live: map<nat, nat>, base: nat, t: nat, x: nat)
    requires Good(h, l, own, live, base, {}) && x in live && t < |l| && l[t] < x && (t + 1 < |l| ==> x < l[t + 1])
    ensures l[t] in h && x in h && h[l[t]].ptr == Next(l, t) && Next(l, t) in h && Next(l, t) != x && base < x
    ensures x + h[x].size == h[l[t]].ptr ==> t + 1 < |l| && l[t] != l[t + 1]
    ensures l[t] + h[l[t]].size == x ==> t > 0
  {
    assert Link(h, l, t) && Link(h, l, 0) && Apart(h, l, {}, t);
    if t > 0 { Ascending(h, l, {}, 0, t); }
    if t + 1 < |l| { assert Link(h, l, t + 1); }
  }

  lemma FreeUp(h: Headers, l: seq<nat>, own: map<nat, nat>, live: map<nat, nat>, base: nat, t: nat, up: bool, next: nat)
    requires Good(h, l, own, live, base, {t, t + 1}) && t + 1 < |l|
    requires l[t + 1] in h && (up ==> t + 2 < |l| && l[t + 2] == next && l[t + 1] + h[l[t + 1]].size == next)
    requires !up && t + 2 < |l| ==> l[t + 1] + h[l[t + 1]].size != l[t + 2]
    ensures up ==> h[l[t + 1]].ptr in h
    ensures Good(if up then Join(h, l[t + 1]) else h, if up then RemoveAt(l, t + 2) else l,
                 if up then Moved(own, next, l[t + 1]) else own, live, base, {t})
  {
    assert {t, t + 1} - {t + 1} == {t};
    if up {
      JoinGood(h, l, own, live, base, {t, t + 1}, t + 1);
    } else {
      NoSeam(h, l, own, live, base, {t, t + 1}, t + 1);
    }
  }

  lemma FreeDown(h: Headers, l: seq<nat>, own: map<nat, nat>, live: map<nat, nat>, base: nat, t: nat, down: bool)
    requires Good(h, l, own, live, base, {t}) && t + 1 < |l| && l[t] in h
    requires down <==> l[t] + h[l[t]].size == l[t + 1]
    requires down ==> t > 0
    ensures down ==> h[l[t]].ptr in h
    ensures Good(if down then Join(h, l[t]) else h, if down then RemoveAt(l, t + 1) else l,
                 if down then Moved(own, l[t + 1], l[t]) else own, live, base, {})
  {
    assert {t} - {t} == {};
    if down {
      JoinGood(h, l, own, live, base, {t}, t);
    } else {
      NoSeam(h, l, own, live, base, {t}, t);
    }
  }

  // ---------------------------------------------------------------- the operations

  // sizeof(Header)
  const UNIT: nat := 16

  function Units(nbytes: nat): (n: nat)
    ensures (n - 1) * UNIT >= nbytes && n > 0
  {
    (nbytes + UNIT - 1) / UNIT + 1
  }

  // ---------------------------------------------------------------- sbrk's argument

  // malloc's parameter is an unsigned int.
  const UINT: nat := 0x1_0000_0000
  // The first number of units that do not fit sbrk's parameter, a signed int
  const LIMIT: nat := 0x800_0000

  // nu * sizeof(Header) converted to int, in units
  function SbrkUnits(nu: nat): int {
    (nu + LIMIT) % (2 * LIMIT) - LIMIT
  }

  // The end of memory after growproc of so many units: a shrink below 0 is no
  // shrink.
  function NewBreak(brk: nat, units: int): nat {
    if brk + units < 0 then brk else brk + units
  }

  lemma UnitsExact(nbytes: nat)
    ensures nbytes <= Units(nbytes) * 16 - 16 < nbytes + 16
  {
  }

  lemma UnitsBound(nbytes: nat)
    requires nbytes < UINT
    ensures Units(nbytes) <= 2 * LIMIT + 1
  {
  }

  // morecore gets the memory it takes exactly when the request fits an int.
  lemma ChunkExists(brk: nat, nu: nat)
    requires 4096 <= nu <= 2 * LIMIT + 1
    ensures brk + nu <= NewBreak(brk, SbrkUnits(nu)) <==> nu < LIMIT
    ensures nu < LIMIT ==> NewBreak(brk, SbrkUnits(nu)) == brk + nu
    ensures nu >= LIMIT ==> NewBreak(brk, SbrkUnits(nu)) <= brk + 1
  {
  }

  // The smallest request for which it does not: 2^31 bytes are passed as -2^31.
  lemma SbrkWraps()
    ensures Units(0x7FFF_FFE0) == LIMIT - 1 && SbrkUnits(LIMIT - 1) == LIMIT - 1
    ensures Units(0x7FFF_FFE1) == Units(0x7FFF_FFF0) == LIMIT && SbrkUnits(LIMIT) == 0 - LIMIT
    ensures forall brk: nat :: NewBreak(brk, SbrkUnits(LIMIT)) == if brk < LIMIT then brk else brk - LIMIT
  {
  }

  class Heap {
    const base: nat
    var h: Headers
    var freep: nat              // 0 before the first malloc
    ghost var l: seq<nat>       // the free list from base on
    ghost var at: nat           // freep is l[at]
    ghost var own: map<nat, nat>
    ghost var live: map<nat, nat>
    ghost var brk: nat          // the end of memory, as far as malloc knows

    ghost predicate Ok()
      reads this
    {
      Good(h, l, own, live, base, {}) && at < |l| && freep == l[at] && 0 < base
    }

    // Every unit lies in the process's memory.
    ghost predicate Backed()
      reads this
    {
      base < brk && forall u :: u in own ==> u < brk
    }

    ghost predicate Valid()
      reads this
    {
      && Backed()
      && if freep == 0 then base in h && 0 < base && l == [] && own == map[] && live == map[] else Ok()
    }

    // Before the first malloc: base lies in the program's data, below brk.
    constructor (base: nat, brk: nat)
      requires 0 < base < brk
      ensures Valid() && own == map[] && live == map[]
    {
      this.base, this.brk := base, brk;
      h, freep := map[base := Header(0, 0)], 0;
      l, at, own, live := [], 0, map[], map[];
    }

    // The search loop of free: it ends at the block after which bp belongs.
    method FindPlace(bp: nat, ghost t: nat) returns (p: nat)
      requires Ok() && base < bp && t < |l| && l[t] < bp && (t + 1 < |l| ==> bp < l[t + 1])
      ensures p == l[t]
    {
      hide Good;
      p := freep;
      ghost var i: nat := at;
      GoodFacts(h, l, own, live, base, i);
      StopsHere(h, l, own, live, base, bp, t, i);
      while !(bp > p && bp < h[p].ptr)
        invariant i < |l| && p == l[i] && p in h && h[p].ptr == Next(l, i)
        invariant i == t <==> (bp > p && bp < h[p].ptr) || (p >= h[p].ptr && (bp > p || bp < h[p].ptr))
        decreases if i <= t then t - i else t + |l| - i
      {
        if p >= h[p].ptr && (bp > p || bp < h[p].ptr) {
          break;
        }
        p := h[p].ptr;
        i := if i + 1 < |l| then i + 1 else 0;
        GoodFacts(h, l, own, live, base, i);
        StopsHere(h, l, own, live, base, bp, t, i);
      }
    }

    // The header updates of free.
    method JoinNeighbours(p: nat, bp: nat)
      requires p in h && bp in h && h[p].ptr in h && p != bp
      modifies this`h
      ensures h == FreedHeaders(old(h), p, bp)
    {
      if bp + h[bp].size == h[p].ptr {
        h := h[bp := Header(h[h[p].ptr].ptr, h[bp].size + h[h[p].ptr].size)];
      } else {
        h := h[bp := h[bp].(ptr := h[p].ptr)];
      }
      if p + h[p].size == bp {
        h := h[p := Header(h[bp].ptr, h[p].size + h[bp].size)];
      } else {
        h := h[p := h[p].(ptr := bp)];
      }
    }

    // free. It ends, the block is free and joined with its free neighbours, and
    // the other live blocks are as they were. k is where the block now lies.
    method Free(ap: nat) returns (ghost k: nat)
      requires Ok() && ap > 0 && ap - 1 in live
      modifies this`h, this`freep, this`l, this`at, this`own, this`live
      ensures Ok() && live == old(live) - {ap - 1} && own.Keys == old(own).Keys
      ensures freep != 0 && (old(Backed()) ==> Valid())
      ensures 0 < k < |l| && l[k] in h && h[l[k]].size >= old(live)[ap - 1]
    {
      hide Good, FreedList, FreedOwn, FreedHeaders;
      var bp := ap - 1;
      ghost var t := FreePlace(h, l, own, live, base, bp);
      var p := FindPlace(bp, t);
      FreeGood(h, l, own, live, base, t, bp);
      LiveSize(h, l, own, live, base, bp);
      ghost var up, down := bp + h[bp].size == h[p].ptr, p + h[p].size == bp;
      JoinNeighbours(p, bp);
      freep := p;
      own := FreedOwn(own, l, t, bp, up, down);
      l := FreedList(l, t, bp, up, down);
      live := live - {bp};
      at := t;
      k := if down then t else t + 1;
      GoodFacts(h, l, own, live, base, k);
      NotBase(h, l, own, live, base, k);
      Positive(h, l, own, live, base, at);
      SameBacking(own, old(own).Keys, brk);
    }

    // morecore; more is what sbrk returns, -1 or the end of memory before the
    // call. The units exist exactly when their number fits sbrk's parameter.
    method MoreCore(nu0: nat, more: int) returns (r: nat, ghost k: nat)
      requires Ok() && Backed() && (more == -1 || more >= brk) && nu0 <= 2 * LIMIT + 1
      modifies this
      ensures Ok() && live == old(live)
      ensures r == 0 <==> more == -1
      ensures r == 0 ==>
        h == old(h) && l == old(l) && own == old(own) && freep == old(freep) && at == old(at) && brk == old(brk)
      ensures r != 0 ==> r == freep && 0 < k < |l| && l[k] in h && h[l[k]].size >= nu0
      ensures r != 0 ==> own.Keys == Chunk(old(own), more, nu0)
      ensures Backed() <==> more == -1 || nu0 < LIMIT
    {
      hide Good, Grown;
      var nu := if nu0 < 4096 then 4096 else nu0;
      k := 0;
      if more == -1 {
        return 0, 0;
      }
      var hp: nat := more;
      GrowGood(h, l, own, live, base, hp, nu, Header(if hp in h then h[hp].ptr else 0, nu));
      GrownBound(own, hp, nu);
      ChunkExists(hp, nu);
      h := h[hp := Header(if hp in h then h[hp].ptr else 0, nu)];
      own, live, brk := Grown(own, hp, nu), live[hp := nu], NewBreak(hp, SbrkUnits(nu));
      Positive(h, l, own, live, base, at);
      ghost var units := own.Keys;
      k := Free(hp + 1);
      assert old(live)[hp := nu] - {hp} == old(live);
      Positive(h, l, own, live, base, at);
      assert hp + nu - 1 in units;
      return freep, k;
    }

    // The part of malloc that takes n units out of block p: its last ones.
    method TakeFrom(prevp: nat, p: nat, n: nat, ghost i: nat) returns (q: nat)
      requires Ok() && 0 < i < |l| && p == l[i] && prevp == l[i - 1] && p in h && h[p].size >= n > 0
      modifies this`h, this`freep, this`l, this`at, this`own, this`live
      ensures Ok() && q !in old(live) && live == old(live)[q := n] && own.Keys == old(own).Keys
      ensures q == p + old(h[p].size) - n
    {
      hide Good;
      if h[p].size == n {
        TakeGood(h, l, own, live, base, i - 1);
        h := h[prevp := h[prevp].(ptr := h[p].ptr)];
        l, live := RemoveAt(l, i), live[p := n];
        q := p;
      } else {
        SplitGood(h, l, own, live, base, i, n);
        GoodFacts(h, l, own, live, base, i);
        q := p + h[p].size - n;
        h := Split(h, p, n);
        own, live := Given(own, q, n), live[q := n];
      }
      freep := prevp;
      at := i - 1;
    }

    // malloc. First fit: the last units of the first block after freep that is
    // large enough; sbrk is asked, once, only when no block is. The other live
    // blocks are as they were, and every unit is still in exactly one block.
    method Malloc(nbytes: nat, more: int) returns (ret: nat)
      requires Valid() && nbytes < UINT && (more == -1 || more >= brk)
      modifies this
      ensures Ok() && (Backed() ==> Valid())
      ensures ret == 0 <==> !old(Fits(h, l, Units(nbytes))) && more == -1
      ensures ret == 0 ==> live == old(live) && own == old(own)
      ensures ret != 0 ==> ret - 1 !in old(live) && live == old(live)[ret - 1 := Units(nbytes)]
      // in bytes: behind its header of 16 the block has room for nbytes and less than 16 more
      ensures ret != 0 ==> nbytes <= live[ret - 1] * 16 - 16 < nbytes + 16
      ensures old(Fits(h, l, Units(nbytes))) ==>
        && own.Keys == old(own).Keys
        && exists c: nat :: FirstFit(old(h), old(l), old(at), Units(nbytes), c, ret)
      ensures !old(Fits(h, l, Units(nbytes))) ==> own.Keys == Chunk(old(own), more, Units(nbytes))
      ensures Backed() <==> old(Fits(h, l, Units(nbytes))) || more == -1 || Units(nbytes) < LIMIT
    {
      hide Good, Chunk, Fits, FirstFit, Units;
      UnitsBound(nbytes);
      UnitsExact(nbytes);
      if freep == 0 {
        h := h[base := Header(base, 0)];
        freep := base;
        l, at := [base], 0;
        EmptyGood(h, base);
        NothingFits(old(h), h, base, Units(nbytes));
      }
      ret := Search(Units(nbytes), more);
      Positive(h, l, own, live, base, at);
    }

    // The loop of malloc.
    method Search(n: nat, more: int) returns (ret: nat)
      requires Ok() && Backed() && 0 < n <= 2 * LIMIT + 1 && (more == -1 || more >= brk)
      modifies this
      ensures Ok()
      ensures ret == 0 <==> !old(Fits(h, l, n)) && more == -1
      ensures ret == 0 ==> live == old(live) && own == old(own)
      ensures ret != 0 ==> ret - 1 !in old(live) && live == old(live)[ret - 1 := n]
      ensures old(Fits(h, l, n)) ==>
        own.Keys == old(own).Keys && exists c: nat :: FirstFit(old(h), old(l), old(at), n, c, ret)
      ensures !old(Fits(h, l, n)) ==> own.Keys == Chunk(old(own), more, n)
      ensures Backed() <==> old(Fits(h, l, n)) || more == -1 || n < LIMIT
    {
      hide Good, Chunk, Fits, FirstFit;
      GoodFacts(h, l, own, live, base, at);
      var prevp := freep;
      var p := h[prevp].ptr;
      ghost var c: nat := 0;                 // blocks looked at since freep
      ghost var grew: bool, fit: nat := false, 0;
      while true
        invariant Ok() && live == old(live)
        invariant c < |l| && p == l[Idx(|l|, at, c)] && prevp == l[Pred(|l|, Idx(|l|, at, c))]
        invariant forall d: nat :: d < c ==> TooSmall(h, l, Idx(|l|, at, d), n)
        invariant grew ==> fit < |l| && !TooSmall(h, l, fit, n) && own.Keys == Chunk(old(own), more, n)
        invariant grew ==> !old(Fits(h, l, n)) && more != -1 && (Backed() <==> n < LIMIT)
        invariant !grew ==> unchanged(this)
        decreases !grew, |l| - c
      {
        ghost var i := Idx(|l|, at, c);
        GoodFacts(h, l, own, live, base, i);
        if h[p].size >= n {
          ghost var units := own.Keys;
          var q := TakeFrom(prevp, p, n, i);
          if !grew {
            FitsHere(old(h), old(l), old(at), n, c, q + 1);
          }
          SameBacking(own, units, brk);
          return q + 1;
        }
        Same(h, l, own, live, base, i, at);
        if p == freep {
          AllLooked(h, l, at, c, n, fit);
          assert !grew;
          NoneFits(h, l, at, c, n);
          ghost var k;
          p, k := MoreCore(n, more);
          if p == 0 {
            NothingNew(own, n);
            return 0;
          }
          GoodFacts(h, l, own, live, base, at);
          grew, fit, c := true, k, 0;
        } else {
          c := c + 1;
        }
        prevp := p;
        p := h[p].ptr;
      }
    }
  }

  lemma SameBacking(own: map<nat, nat>, units: set<nat>, brk: nat)
    requires own.Keys == units
    ensures (forall u :: u in own ==> u < brk) <==> (forall u :: u in units ==> u < brk)
  {
  }

  // Some free block has n units.
  ghost predicate Fits(h: Headers, l: seq<nat>, n: nat) {
    exists i: nat :: i < |l| && l[i] in h && h[l[i]].size >= n
  }

  // The c-th block after freep is the first that is large enough, and ret points
  // into its last n units, behind their header.
  ghost predicate FirstFit(h: Headers, l: seq<nat>, at: nat, n: nat, c: nat, ret: int) {
    && at < |l| && c < |l| && l[Idx(|l|, at, c)] in h
    && (forall d: nat :: d < c ==> TooSmall(h, l, Idx(|l|, at, d), n))
    && var p := l[Idx(|l|, at, c)]; h[p].size >= n && ret == p + h[p].size - n + 1
  }

  lemma FitsHere(h: Headers, l: seq<nat>, at: nat, n: nat, c: nat, ret: nat)
    requires at < |l| && c < |l| && l[Idx(|l|, at, c)] in h
    requires forall d: nat :: d < c ==> TooSmall(h, l, Idx(|l|, at, d), n)
    requires var p := l[Idx(|l|, at, c)]; h[p].size >= n && ret == p + h[p].size - n + 1
    ensures Fits(h, l, n) && FirstFit(h, l, at, n, c, ret)
  {
  }

  lemma NothingFits(h: Headers, h': Headers, base: nat, n: nat)
    requires base in h' && h'[base].size == 0 && n > 0
    ensures !Fits(h, [], n) && !Fits(h', [base], n)
  {
  }

  lemma NoneFits(h: Headers, l: seq<nat>, at: nat, c: nat, n: nat)
    requires at < |l| && c < |l| && Idx(|l|, at, c) == at && TooSmall(h, l, at, n)
    requires forall d: nat :: d < c ==> TooSmall(h, l, Idx(|l|, at, d), n)
    ensures !Fits(h, l, n)
  {
    forall i: nat | i < |l| ensures l[i] in h && h[l[i]].size < n {
      AllLooked(h, l, at, c, n, i);
    }
  }

  lemma NothingNew(own: map<nat, nat>, n: nat)
    ensures Chunk(own, -1, n) == own.Keys
  {
  }

  // The units of the heap after morecore
  ghost function Chunk(own: map<nat, nat>, more: int, nunits: nat): set<nat> {
    if more < 0 then own.Keys else Grown(own, more, if nunits < 4096 then 4096 else nunits).Keys
  }

  // The c-th block after freep in a circle of n
  function Idx(n: nat, at: nat, c: nat): (i: nat)
    ensures at < n && c < n ==> i < n
  {
    if at + 1 + c < n then at + 1 + c else at + 1 + c - n
  }

  function Pred(n: nat, i: nat): (j: nat)
    ensures i < n ==> j < n
  {
    if i > 0 then i - 1 else if n > 0 then n - 1 else 0
  }

  // A block is freep exactly when its place is.
  lemma Same(h: Headers, l: seq<nat>, own: map<nat, nat>, live: map<nat, nat>, base: nat, i: nat, j: nat)
    requires Good(h, l, own, live, base, {}) && i < |l| && j < |l|
    ensures l[i] == l[j] <==> i == j
  {
    Different(h, l, {});
  }

  // Back at freep, every block has been looked at.
  lemma AllLooked(h: Headers, l: seq<nat>, at: nat, c: nat, n: nat, fit: nat)
    requires at < |l| && c < |l| && Idx(|l|, at, c) == at && TooSmall(h, l, at, n)
    requires forall d: nat :: d < c ==> TooSmall(h, l, Idx(|l|, at, d), n)
    ensures fit < |l| ==> TooSmall(h, l, fit, n)
  {
    if fit < |l| && fit != at {
      assert Idx(|l|, at, if fit > at then fit - at - 1 else fit + |l| - at - 1) == fit;
    }
  }

  ghost predicate TooSmall(h: Headers, l: seq<nat>, i: nat, n: nat) {
    i < |l| && l[i] in h && h[l[i]].size < n
  }

  lemma GrownBound(own: map<nat, nat>, c: nat, n: nat)
    requires forall u :: u in own ==> u < c
    ensures forall u :: u in Grown(own, c, n) ==> u < c + n
  {
  }

  lemma Positive(h: Headers, l: seq<nat>, own: map<nat, nat>, live: map<nat, nat>, base: nat, i: nat)
    requires Good(h, l, own, live, base, {}) && i < |l| && base > 0
    ensures l[i] > 0
  {
    if i > 0 { Ascending(h, l, {}, 0, i); }
  }

  lemma EmptyGood(h: Headers, base: nat)
    requires base in h && h[base] == Header(base, 0)
    ensures Good(h, [base], map[], map[], base, {})
  {
  }

  lemma GoodFacts(h: Headers, l: seq<nat>, own: map<nat, nat>, live: map<nat, nat>, base: nat, i: nat)
    requires Good(h, l, own, live, base, {}) && i < |l|
    ensures l[i] in h && h[l[i]].ptr == Next(l, i) && l[0] == base && Next(l, i) in h && (h[l[i]].size > 0 <==> i > 0)
  {
    assert Link(h, l, i) && Apart(h, l, {}, i);
    assert Link(h, l, if i + 1 < |l| then i + 1 else 0);
  }

  lemma FreePlace(h: Headers, l: seq<nat>, own: map<nat, nat>, live: map<nat, nat>, base: nat, x: nat) returns (t: nat)
    requires Good(h, l, own, live, base, {}) && x in live
    ensures t < |l| && l[t] < x && (t + 1 < |l| ==> x < l[t + 1]) && base < x
  {
    assert Block(h, l, live, x);
    assert Covers(own, x, h[x].size);
    assert x in own;
    t := Place(h, l, x, |l|);
  }

  lemma StopsHere(h: Headers, l: seq<nat>, own: map<nat, nat>, live: map<nat, nat>, base: nat, x: nat, t: nat, i: nat)
    requires Good(h, l, own, live, base, {}) && t < |l| && l[t] < x && (t + 1 < |l| ==> x < l[t + 1]) && base < x
    requires i < |l|
    ensures l[i] in h
    ensures var p, next := l[i], h[l[i]].ptr;
            i == t <==> (x > p && x < next) || (p >= next && (x > p || x < next))
  {
    StopsAt(h, l, x, t, i);
  }

  lemma LiveSize(h: Headers, l: seq<nat>, own: map<nat, nat>, live: map<nat, nat>, base: nat, x: nat)
    requires Good(h, l, own, live, base, {}) && x in live
    ensures x in h && h[x].size == live[x] > 0
  {
  }

  // base has no size.
  lemma NotBase(h: Headers, l: seq<nat>, own: map<nat, nat>, live: map<nat, nat>, base: nat, k: nat)
    requires Good(h, l, own, live, base, {}) && k < |l| && l[k] in h && h[l[k]].size > 0
    ensures k > 0
  {
    assert Apart(h, l, {}, 0);
  }

  // What the invariant means: every unit from sbrk lies in exactly one block,
  // free and live blocks do not overlap, and two free blocks never touch.
  lemma HeapLaws(h: Headers, l: seq<nat>, own: map<nat, nat>, live: map<nat, nat>, base: nat, u: nat, a: nat, b: nat)
    requires Good(h, l, own, live, base, {})
    ensures u in own <==> exists c: nat :: Block(h, l, live, c) && c <= u < c + h[c].size
    ensures Block(h, l, live, a) && Block(h, l, live, b) && a <= u < a + h[a].size && b <= u < b + h[b].size ==> a == b
    ensures 0 < a < |l| && 0 < b < |l| && a != b ==> l[a] in h && l[a] + h[l[a]].size != l[b]
    ensures a in live ==> a !in l
  {
    if u in own {
      assert Block(h, l, live, own[u]);
    }
    if c: nat :| Block(h, l, live, c) && c <= u < c + h[c].size {
      assert Covers(own, c, h[c].size);
    }
    if 0 < a < |l| && 0 < b < |l| && a != b {
      FreeApart(h, l, a, b);
    }
    assert Block(h, l, live, a) ==> Covers(own, a, h[a].size);
    assert Block(h, l, live, b) ==> Covers(own, b, h[b].size);
  }

  lemma FreeApart(h: Headers, l: seq<nat>, a: nat, b: nat)
    requires Ordered(h, l, {}) && 0 < a < |l| && 0 < b < |l| && a != b
    ensures l[a] in h && l[a] + h[l[a]].size != l[b]
  {
    assert Apart(h, l, {}, a);
    if b < a {
      Ascending(h, l, {}, b, a);
    } else if a + 1 < b {
      Ascending(h, l, {}, a + 1, b);
    }
  }
}
