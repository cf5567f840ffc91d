/**
 Three-level page tables in physical memory (kernel/vm.c, kernel/riscv.h), as
 a function from frames to the flat map the tree stands for, and the shape
 every operation keeps: interior entries carry only V, leaves sit at level 0,
 no table page is shared between two places of any tree.

 Pages are physical page numbers; 0 is the null pointer. A frame is a table of
 512 entries, a data page, or a free page that holds the next-pointer of the
 free list.
 */
module PageTable {

  const PGSIZE: nat := 4096
  // MAXVA / PGSIZE
  const MAXVPN: nat := 0x400_0000

  datatype Frame = Table(ptes: seq<nat>) | Data(bytes: seq<nat>) | Run(next: nat)
  type Frames = map<nat, Frame>

  // What a page that is not free is used for.
  datatype Owner =
    | RootTable
    | MidTable(root: nat, a: nat)           // behind entry a of the root
    | LowTable(root: nat, a: nat, b: nat)   // behind entry b of that table
    | UserPage(root: nat, vpn: nat)         // mapped and owned by an address space
    | Other
  type Owners = map<nat, Owner>

  // ---------------------------------------------------------------- entries

  // PX(level, va) for va = vpn * PGSIZE
  function Px(level: nat, vpn: nat): (i: nat)
    ensures i < 512
  {
    if level == 2 then vpn / 0x40000 % 512
    else if level == 1 then vpn / 512 % 512
    else vpn % 512
  }

  // Pages below MAXVA are told apart by their three indices.
  lemma PxInjective(v: nat, w: nat)
    requires v < MAXVPN && w < MAXVPN
    requires Px(2, v) == Px(2, w) && Px(1, v) == Px(1, w) && Px(0, v) == Px(0, w)
    ensures v == w
  {
    PxParts(v);
    PxParts(w);
    hide Px;
  }

  lemma PxParts(v: nat)
    requires v < MAXVPN
    ensures v == Px(2, v) * 0x40000 + Px(1, v) * 512 + Px(0, v)
  {
    var d := v / 512;
    assert v == d * 512 + v % 512;
    assert d == d / 512 * 512 + d % 512;
    assert v / 0x40000 == d / 512;
  }

  // Below MAXVA the top index uses 8 of its 9 bits.
  lemma PxTop(v: nat)
    requires v < MAXVPN
    ensures Px(2, v) < 256
  {
  }

  // Every triple of indices is the page of some address.
  function VpnOf(a: nat, b: nat, c: nat): (v: nat)
    requires a < 256 && b < 512 && c < 512
    ensures v < MAXVPN && Px(2, v) == a && Px(1, v) == b && Px(0, v) == c
  {
    a * 0x40000 + b * 512 + c
  }

  // PA2PTE(pa) | flags, PTE2PA and PTE_FLAGS
  function Pte(page: nat, flags: nat): nat {
    page * 1024 + flags
  }

  function PageOf(e: nat): nat { e / 1024 }
  function Flags(e: nat): nat { e % 1024 }
  predicate V(e: nat) { Flags(e) % 2 == 1 }
  predicate RWX(e: nat) { Flags(e) / 2 % 8 != 0 }
  predicate U(e: nat) { Flags(e) / 16 % 2 == 1 }

  lemma PteFields(page: nat, flags: nat)
    requires flags < 1024
    ensures PageOf(Pte(page, flags)) == page && Flags(Pte(page, flags)) == flags
    ensures V(Pte(page, flags)) == V(flags) && RWX(Pte(page, flags)) == RWX(flags) && U(Pte(page, flags)) == U(flags)
  {
  }

  // The bits PTE_V, PTE_R, PTE_W, PTE_X and PTE_U of an entry, lowest first
  lemma PteBits(page: nat, rest: nat, u: nat, x: nat, w: nat, r: nat, v: nat)
    requires rest < 32 && u < 2 && x < 2 && w < 2 && r < 2 && v < 2
    ensures var e := page * 1024 + (rest * 32 + u * 16 + x * 8 + w * 4 + r * 2 + v);
            && PageOf(e) == page && (V(e) <==> v == 1) && (U(e) <==> u == 1)
            && (RWX(e) <==> r == 1 || w == 1 || x == 1)
  {
    var flags := rest * 32 + u * 16 + x * 8 + w * 4 + r * 2 + v;
    var low := x * 8 + w * 4 + r * 2 + v;
    assert flags == (rest * 2 + u) * 16 + low && low < 16;
    assert flags == (rest * 16 + u * 8 + x * 4 + w * 2 + r) * 2 + v;
    assert flags / 16 == rest * 2 + u && flags / 2 == (rest * 2 + u) * 8 + (x * 4 + w * 2 + r);
    hide Pte;
    FlagsOf(page, flags);
  }

  lemma FlagsOf(page: nat, flags: nat)
    requires flags < 1024
    ensures PageOf(page * 1024 + flags) == page && Flags(page * 1024 + flags) == flags == Flags(flags)
  {
  }

  // Entry i of table page p; 0 when there is none.
  function Entry(f: Frames, p: nat, i: nat): nat {
    if p in f && f[p].Table? && i < |f[p].ptes| then f[p].ptes[i] else 0
  }

  function SetEntry(f: Frames, p: nat, i: nat, e: nat): Frames
    requires p in f && f[p].Table? && i < |f[p].ptes|
  {
    f[p := Table(f[p].ptes[i := e])]
  }

  // ---------------------------------------------------------------- the flat map

  // The table behind entry a of the root, behind entry b of that one, and the
  // leaf entry; 0 where the walk stops.
  function MidOf(f: Frames, r: nat, a: nat): nat {
    if V(Entry(f, r, a)) then PageOf(Entry(f, r, a)) else 0
  }

  function LowOf(f: Frames, r: nat, a: nat, b: nat): nat {
    var m := MidOf(f, r, a);
    if m != 0 && V(Entry(f, m, b)) then PageOf(Entry(f, m, b)) else 0
  }

  function Leaf(f: Frames, r: nat, v: nat): nat {
    var q := LowOf(f, r, Px(2, v), Px(1, v));
    if q != 0 then Entry(f, q, Px(0, v)) else 0
  }

  // ---------------------------------------------------------------- shape

  ghost predicate IsTable(f: Frames, p: nat) {
    p in f && f[p].Table? && |f[p].ptes| == 512
  }

  ghost predicate Owns(o: Owners, p: nat, w: Owner) {
    p in o && o[p] == w
  }

  // An interior entry is empty or V alone with the page of the next level.
  ghost predicate Interior(o: Owners, e: nat, w: Owner) {
    e == 0 || (Flags(e) == 1 && PageOf(e) != 0 && Owns(o, PageOf(e), w))
  }

  ghost predicate LeafEntry(e: nat) {
    e == 0 || (V(e) && RWX(e))
  }

  ghost predicate RootOk(f: Frames, o: Owners, r: nat) {
    && IsTable(f, r)
    && forall a: nat :: a < 512 ==> Interior(o, Entry(f, r, a), MidTable(r, a))
  }

  ghost predicate MidOk(f: Frames, o: Owners, m: nat, r: nat, a: nat) {
    && IsTable(f, m) && a < 256 && m != 0
    && Owns(o, r, RootTable) && Entry(f, r, a) == Pte(m, 1)
    && forall b: nat :: b < 512 ==> Interior(o, Entry(f, m, b), LowTable(r, a, b))
  }

  ghost predicate LowOk(f: Frames, o: Owners, q: nat, r: nat, a: nat, b: nat) {
    && IsTable(f, q) && a < 256 && b < 512 && q != 0
    && Owns(o, r, RootTable)
    && Owns(o, MidOf(f, r, a), MidTable(r, a)) && Entry(f, MidOf(f, r, a), b) == Pte(q, 1)
    && forall c: nat :: c < 512 ==> LeafEntry(Entry(f, q, c))
  }

  ghost predicate IsPage(f: Frames, u: nat) {
    u in f && f[u].Data? && |f[u].bytes| == PGSIZE
  }

  // A page owned by an address space is mapped there, at the page it is owned for.
  ghost predicate UserOk(f: Frames, o: Owners, u: nat, r: nat, v: nat) {
    && v < MAXVPN && Owns(o, r, RootTable)
    && V(Leaf(f, r, v)) && PageOf(Leaf(f, r, v)) == u
    && IsPage(f, u)
  }

  ghost predicate PageOk(f: Frames, o: Owners, p: nat)
    requires p in o
  {
    match o[p]
    case RootTable => RootOk(f, o, p)
    case MidTable(r, a) => MidOk(f, o, p, r, a)
    case LowTable(r, a, b) => LowOk(f, o, p, r, a, b)
    case UserPage(r, v) => UserOk(f, o, p, r, v)
    case Other => true
  }

  ghost predicate Tree(f: Frames, o: Owners) {
    forall p :: p in o ==> PageOk(f, o, p)
  }

  // The walk of a well shaped tree stays on the tables owned for its path.
  lemma WalkOwned(f: Frames, o: Owners, r: nat, a: nat, b: nat)
    requires Tree(f, o) && Owns(o, r, RootTable) && a < 512 && b < 512
    ensures Entry(f, r, a) == 0 || V(Entry(f, r, a))
    ensures MidOf(f, r, a) != 0 <==> V(Entry(f, r, a))
    ensures MidOf(f, r, a) != 0 ==> Owns(o, MidOf(f, r, a), MidTable(r, a)) && IsTable(f, MidOf(f, r, a))
    ensures MidOf(f, r, a) != 0 ==> (LowOf(f, r, a, b) != 0 <==> V(Entry(f, MidOf(f, r, a), b)))
    ensures LowOf(f, r, a, b) != 0 ==> Owns(o, LowOf(f, r, a, b), LowTable(r, a, b)) && IsTable(f, LowOf(f, r, a, b))
  {
    assert PageOk(f, o, r);
    assert Interior(o, Entry(f, r, a), MidTable(r, a));
    var m := MidOf(f, r, a);
    if m != 0 {
      assert PageOk(f, o, m);
      assert Interior(o, Entry(f, m, b), LowTable(r, a, b));
    }
  }

  // No sharing: a table page is reached along one path of one tree.
  lemma NoSharing(f: Frames, o: Owners, r: nat, a: nat, b: nat, r': nat, a': nat, b': nat)
    requires Tree(f, o) && Owns(o, r, RootTable) && Owns(o, r', RootTable)
    requires a < 512 && b < 512 && a' < 512 && b' < 512
    ensures MidOf(f, r, a) != 0 && MidOf(f, r, a) == MidOf(f, r', a') ==> r == r' && a == a'
    ensures LowOf(f, r, a, b) != 0 && LowOf(f, r, a, b) == LowOf(f, r', a', b') ==> r == r' && a == a' && b == b'
    ensures MidOf(f, r, a) != 0 ==> MidOf(f, r, a) != LowOf(f, r', a', b') && MidOf(f, r, a) != r'
    ensures LowOf(f, r, a, b) != 0 ==> LowOf(f, r, a, b) != r'
  {
    WalkOwned(f, o, r, a, b);
    WalkOwned(f, o, r', a', b');
  }

  // ---------------------------------------------------------------- what changes what

  predicate TableOwner(w: Owner) {
    w.RootTable? || w.MidTable? || w.LowTable?
  }

  ghost predicate SameTables(f: Frames, g: Frames, o: Owners) {
    forall p :: p in o && TableOwner(o[p]) && p in f ==> p in g && g[p] == f[p]
  }

  // The flat maps of all trees are the same, except at the given page of r.
  ghost predicate SameLeavesBut(f: Frames, g: Frames, o: Owners, r: nat, lo: nat, hi: nat) {
    forall s: nat, v: nat {:trigger Leaf(g, s, v)} ::
      Owns(o, s, RootTable) && v < MAXVPN && !(s == r && lo <= v < hi) ==>
      Leaf(g, s, v) == Leaf(f, s, v)
  }

  ghost predicate SameLeaves(f: Frames, g: Frames, o: Owners) {
    forall s: nat, v: nat {:trigger Leaf(g, s, v)} :: Owns(o, s, RootTable) && v < MAXVPN ==>
      Leaf(g, s, v) == Leaf(f, s, v)
  }

  lemma LeafThroughTables(f: Frames, g: Frames, o: Owners, r: nat, v: nat)
    requires Tree(f, o) && SameTables(f, g, o) && Owns(o, r, RootTable) && v < MAXVPN
    ensures Leaf(g, r, v) == Leaf(f, r, v)
    ensures MidOf(g, r, Px(2, v)) == MidOf(f, r, Px(2, v))
    ensures LowOf(g, r, Px(2, v), Px(1, v)) == LowOf(f, r, Px(2, v), Px(1, v))
  {
    WalkOwned(f, o, r, Px(2, v), Px(1, v));
    assert PageOk(f, o, r);
  }

  // Frames that are not tables of a tree do not matter to any tree.
  lemma TreeThroughTables(f: Frames, g: Frames, o: Owners)
    requires Tree(f, o) && SameTables(f, g, o)
    requires forall u :: u in o && o[u].UserPage? ==> IsPage(g, u)
    ensures Tree(g, o)
    ensures SameLeaves(f, g, o)
  {
    forall s: nat, v: nat | Owns(o, s, RootTable) && v < MAXVPN ensures Leaf(g, s, v) == Leaf(f, s, v) {
      LeafThroughTables(f, g, o, s, v);
    }
    forall p | p in o ensures PageOk(g, o, p) {
      assert PageOk(f, o, p);
      match o[p]
      case RootTable =>
      case MidTable(r, a) => assert PageOk(f, o, r);
      case LowTable(r, a, b) =>
        assert PageOk(f, o, r);
        assert PageOk(f, o, MidOf(f, r, a));
        forall c: nat | c < 512 ensures LeafEntry(Entry(g, p, c)) {
          assert LeafEntry(Entry(f, p, c));
        }
      case UserPage(r, v) =>
      case Other =>
    }
  }

  // Giving up or taking on a page that is no table of a tree.
  lemma TreeDrop(f: Frames, o: Owners, p: nat)
    requires Tree(f, o) && p in o && !TableOwner(o[p])
    ensures Tree(f, o - {p})
  {
    var o' := o - {p};
    forall x | x in o' ensures PageOk(f, o', x) {
      assert PageOk(f, o, x);
      match o[x]
      case RootTable =>
        forall a: nat | a < 512 ensures Interior(o', Entry(f, x, a), MidTable(x, a)) {
          assert Interior(o, Entry(f, x, a), MidTable(x, a));
        }
      case MidTable(r, a) =>
        forall b: nat | b < 512 ensures Interior(o', Entry(f, x, b), LowTable(r, a, b)) {
          assert Interior(o, Entry(f, x, b), LowTable(r, a, b));
        }
      case LowTable(r, a, b) =>
      case UserPage(r, v) =>
      case Other =>
    }
  }

  lemma TreeTake(f: Frames, o: Owners, p: nat, w: Owner)
    requires Tree(f, o) && (p in o ==> !TableOwner(o[p]))
    requires w.Other? || (w.UserPage? && UserOk(f, o, p, w.root, w.vpn))
    ensures Tree(f, o[p := w])
  {
    var o' := o[p := w];
    forall x | x in o' ensures PageOk(f, o', x) {
      if x != p {
        assert PageOk(f, o, x);
        match o[x]
        case RootTable =>
          forall a: nat | a < 512 ensures Interior(o', Entry(f, x, a), MidTable(x, a)) {
            assert Interior(o, Entry(f, x, a), MidTable(x, a));
          }
        case MidTable(r, a) =>
          forall b: nat | b < 512 ensures Interior(o', Entry(f, x, b), LowTable(r, a, b)) {
            assert Interior(o, Entry(f, x, b), LowTable(r, a, b));
          }
        case LowTable(r, a, b) =>
        case UserPage(r, v) =>
        case Other =>
      }
    }
  }

  // ---------------------------------------------------------------- writing a leaf entry

  lemma LeafAfterSet(f: Frames, o: Owners, q: nat, r: nat, v: nat, e: nat, s: nat, w: nat)
    requires Tree(f, o) && v < MAXVPN && w < MAXVPN
    requires Owns(o, q, LowTable(r, Px(2, v), Px(1, v))) && Owns(o, s, RootTable)
    ensures IsTable(f, q) && IsTable(SetEntry(f, q, Px(0, v), e), q)
    ensures var g := SetEntry(f, q, Px(0, v), e);
            && Leaf(g, s, w) == (if s == r && w == v then e else Leaf(f, s, w))
            && MidOf(g, s, Px(2, w)) == MidOf(f, s, Px(2, w))
            && LowOf(g, s, Px(2, w), Px(1, w)) == LowOf(f, s, Px(2, w), Px(1, w))
  {
    assert PageOk(f, o, q) && PageOk(f, o, s) && PageOk(f, o, r);
    WalkOwned(f, o, s, Px(2, w), Px(1, w));
    WalkOwned(f, o, r, Px(2, v), Px(1, v));
    if s == r && Px(2, v) == Px(2, w) && Px(1, v) == Px(1, w) && Px(0, v) == Px(0, w) {
      PxInjective(v, w);
    }
  }

  // Writing entry v of r's tree changes r's flat map at v and nothing else, and
  // keeps the shape when no page is owned for that place or it is the one mapped.
  lemma SetLeaf(f: Frames, o: Owners, q: nat, r: nat, v: nat, e: nat)
    requires Tree(f, o) && v < MAXVPN && Owns(o, q, LowTable(r, Px(2, v), Px(1, v)))
    requires LeafEntry(e)
    requires forall u: nat :: Owns(o, u, UserPage(r, v)) ==> V(e) && PageOf(e) == u
    ensures IsTable(f, q)
    ensures var g := SetEntry(f, q, Px(0, v), e);
            Tree(g, o) && Leaf(g, r, v) == e && SameLeavesBut(f, g, o, r, v, v + 1)
  {
    assert PageOk(f, o, q);
    var g := SetEntry(f, q, Px(0, v), e);
    forall s: nat, w: nat | Owns(o, s, RootTable) && w < MAXVPN
      ensures Leaf(g, s, w) == (if s == r && w == v then e else Leaf(f, s, w))
    {
      LeafAfterSet(f, o, q, r, v, e, s, w);
    }
    forall p | p in o ensures PageOk(g, o, p) {
      assert PageOk(f, o, p);
      match o[p]
      case RootTable =>
      case MidTable(s, a) => assert PageOk(f, o, s);
      case LowTable(s, a, b) =>
        assert PageOk(f, o, s);
        assert PageOk(f, o, MidOf(f, s, a));
        forall c: nat | c < 512 ensures LeafEntry(Entry(g, p, c)) {
          assert LeafEntry(Entry(f, p, c));
        }
      case UserPage(s, w) => assert Owns(o, p, UserPage(s, w));
      case Other =>
    }
  }

  // ---------------------------------------------------------------- adding a table

  function ZeroTable(): (t: Frame)
    ensures t.Table? && |t.ptes| == 512 && forall i :: 0 <= i < 512 ==> t.ptes[i] == 0
  {
    Table(seq(512, _ => 0))
  }

  lemma LeafAfterMid(f: Frames, o: Owners, r: nat, a: nat, m: nat, s: nat, v: nat)
    requires Tree(f, o) && Owns(o, r, RootTable) && a < 256 && Entry(f, r, a) == 0
    requires m != 0 && m in f && m !in o && IsTable(f, r) && m != r
    requires Owns(o, s, RootTable) && v < MAXVPN
    ensures Leaf(SetEntry(f[m := ZeroTable()], r, a, Pte(m, 1)), s, v) == Leaf(f, s, v)
  {
    PteFields(m, 1);
    WalkOwned(f, o, s, Px(2, v), Px(1, v));
    assert PageOk(f, o, s);
  }

  // A fresh page m becomes the table behind an empty entry a of root r.
  lemma AddMid(f: Frames, o: Owners, r: nat, a: nat, m: nat)
    requires Tree(f, o) && Owns(o, r, RootTable) && a < 256 && Entry(f, r, a) == 0
    requires m != 0 && m in f && m !in o
    ensures IsTable(f, r) && m != r
    ensures var g := SetEntry(f[m := ZeroTable()], r, a, Pte(m, 1));
            Tree(g, o[m := MidTable(r, a)]) && SameLeaves(f, g, o) && MidOf(g, r, a) == m
  {
    assert PageOk(f, o, r);
    var g := SetEntry(f[m := ZeroTable()], r, a, Pte(m, 1));
    var o' := o[m := MidTable(r, a)];
    assert forall p: nat, i: nat :: p != m && !(p == r && i == a) ==> Entry(g, p, i) == Entry(f, p, i);
    PteFields(m, 1);
    hide Leaf;
    forall s: nat, v: nat | Owns(o, s, RootTable) && v < MAXVPN ensures Leaf(g, s, v) == Leaf(f, s, v) {
      LeafAfterMid(f, o, r, a, m, s, v);
    }
    forall p | p in o' ensures PageOk(g, o', p) {
      if p != m {
        assert PageOk(f, o, p);
        match o[p]
        case RootTable =>
          forall i: nat | i < 512 ensures Interior(o', Entry(g, p, i), MidTable(p, i)) {
            assert Interior(o, Entry(f, p, i), MidTable(p, i));
          }
        case MidTable(s, i) =>
          assert PageOk(f, o, s);
          forall b: nat | b < 512 ensures Interior(o', Entry(g, p, b), LowTable(s, i, b)) {
            assert Interior(o, Entry(f, p, b), LowTable(s, i, b));
          }
        case LowTable(s, i, b) =>
          assert PageOk(f, o, s);
          assert PageOk(f, o, MidOf(f, s, i));
        case UserPage(s, w) =>
        case Other =>
      }
    }
  }

  lemma LeafAfterLow(f: Frames, o: Owners, r: nat, a: nat, m: nat, b: nat, q: nat, s: nat, v: nat)
    requires Tree(f, o) && Owns(o, m, MidTable(r, a)) && b < 512 && Entry(f, m, b) == 0
    requires q != 0 && q in f && q !in o && IsTable(f, m) && q != m
    requires Owns(o, s, RootTable) && v < MAXVPN
    ensures Leaf(SetEntry(f[q := ZeroTable()], m, b, Pte(q, 1)), s, v) == Leaf(f, s, v)
  {
    var g := SetEntry(f[q := ZeroTable()], m, b, Pte(q, 1));
    PteFields(q, 1);
    WalkOwned(f, o, s, Px(2, v), Px(1, v));
    assert PageOk(f, o, s);
    assert MidOf(g, s, Px(2, v)) == MidOf(f, s, Px(2, v));
    if MidOf(f, s, Px(2, v)) == m && Px(1, v) == b {
      assert LowOf(g, s, Px(2, v), Px(1, v)) == q;
      assert Entry(g, q, Px(0, v)) == 0;
    }
  }

  // A fresh page q becomes the table behind an empty entry b of table m.
  lemma AddLow(f: Frames, o: Owners, r: nat, a: nat, m: nat, b: nat, q: nat)
    requires Tree(f, o) && Owns(o, m, MidTable(r, a)) && b < 512 && Entry(f, m, b) == 0
    requires q != 0 && q in f && q !in o
    ensures IsTable(f, m) && q != m
    ensures var g := SetEntry(f[q := ZeroTable()], m, b, Pte(q, 1));
            Tree(g, o[q := LowTable(r, a, b)]) && SameLeaves(f, g, o)
  {
    assert PageOk(f, o, m) && PageOk(f, o, r);
    var g := SetEntry(f[q := ZeroTable()], m, b, Pte(q, 1));
    var o' := o[q := LowTable(r, a, b)];
    assert forall p: nat, i: nat :: p != q && !(p == m && i == b) ==> Entry(g, p, i) == Entry(f, p, i);
    PteFields(q, 1);
    WalkOwned(f, o, r, a, b);
    hide Leaf;
    forall s: nat, v: nat | Owns(o, s, RootTable) && v < MAXVPN ensures Leaf(g, s, v) == Leaf(f, s, v) {
      LeafAfterLow(f, o, r, a, m, b, q, s, v);
    }
    forall p | p in o' ensures PageOk(g, o', p) {
      if p != q {
        assert PageOk(f, o, p);
        match o[p]
        case RootTable =>
          forall i: nat | i < 512 ensures Interior(o', Entry(g, p, i), MidTable(p, i)) {
            assert Interior(o, Entry(f, p, i), MidTable(p, i));
          }
        case MidTable(s, i) =>
          assert PageOk(f, o, s);
          forall j: nat | j < 512 ensures Interior(o', Entry(g, p, j), LowTable(s, i, j)) {
            assert Interior(o, Entry(f, p, j), LowTable(s, i, j));
          }
        case LowTable(s, i, j) =>
          assert PageOk(f, o, s);
          assert PageOk(f, o, MidOf(f, s, i));
        case UserPage(s, w) =>
        case Other =>
      }
    }
  }
}
