/**
 Whole runs of address-space operations: proc_pagetable, growproc, the copy made
 by fork and proc_freepagetable (kernel/proc.c), in any order and for any number
 of processes. A step of a run is what the operation is proved to do. Once every
 address space that was created has been freed, exactly the pages that were free
 at the start are free.
 */
module AddressRun {
  import opened PageTable
  import opened VirtualMemory
  import opened AddressSpace
  import opened Finite

  datatype Snapshot = Snapshot(frames: Frames, owner: Owners)

  datatype Step =
    | Create(r: nat, trapframe: nat)                        // proc_pagetable
    | Refuse                                                // proc_pagetable without memory
    | Resize(r: nat, from: nat, to: nat, trapframe: nat)    // growproc, in pages
    | Copy(parent: nat, child: nat, n: nat)                 // fork's uvmcopy; n pages, or 0
    | Free(r: nat)                                          // proc_freepagetable

  // What the operation ensures.
  ghost predicate Done(s: Snapshot, t: Snapshot, a: Step, trampoline: nat) {
    match a
    case Create(r, trapframe) =>
      && r !in s.owner && Space(t.frames, t.owner, r, 0, trampoline, trapframe)
      && Only(s.frames, t.frames, s.owner, t.owner, r)
    case Refuse =>
      t.owner == s.owner && SameLeaves(s.frames, t.frames, t.owner) && SameData(s.frames, t.frames, t.owner)
    case Resize(r, from, to, trapframe) =>
      && Space(s.frames, s.owner, r, from, trampoline, trapframe)
      && Space(t.frames, t.owner, r, to, trampoline, trapframe)
      && PagesKept(s.frames, t.frames, r, if from <= to then from else to)
      && Only(s.frames, t.frames, s.owner, t.owner, r)
    case Copy(parent, child, n) =>
      && parent != child && Copied(t.frames, t.owner, parent, child, n)
      && Only(s.frames, t.frames, s.owner, t.owner, child)
    case Free(r) =>
      && Only(s.frames, t.frames, s.owner, t.owner, r)
      && forall p :: p in t.owner ==> Foreign(t.owner, p, r)
  }

  // The address space an operation works on
  function Target(a: Step): set<nat> {
    match a
    case Create(_, _) => {}
    case Refuse => {}
    case Resize(r, _, _, _) => {r}
    case Copy(_, child, _) => {child}
    case Free(r) => {r}
  }

  function After(live: set<nat>, a: Step): set<nat> {
    match a
    case Create(r, _) => live + {r}
    case Free(r) => live - {r}
    case _ => live
  }

  // The address spaces created and not yet freed
  function Alive(steps: seq<Step>): set<nat> {
    if steps == [] then {} else After(Alive(steps[..|steps| - 1]), steps[|steps| - 1])
  }

  // Every operation works on an address space that was created in the run and
  // is not yet freed.
  ghost predicate History(ss: seq<Snapshot>, steps: seq<Step>, trampoline: nat) {
    && |ss| == |steps| + 1
    && (forall i :: 0 <= i < |ss| ==> Tree(ss[i].frames, ss[i].owner))
    && (forall i :: 0 <= i < |steps| ==> Done(ss[i], ss[i + 1], steps[i], trampoline))
    && (forall i :: 0 <= i < |steps| ==> Target(steps[i]) <= Alive(steps[..i]))
  }

  // What no address space of rs owns
  ghost predicate Apart(o: Owners, p: nat, rs: set<nat>) {
    p in o && forall r :: r in rs ==> !Belongs(o[p], p, r)
  }

  // The pages that no living address space owns are those owned at the start.
  ghost predicate OwnedAs(o0: Owners, o: Owners, live: set<nat>) {
    && (forall p :: Apart(o, p, live) <==> p in o0)
    && (forall p :: p in o0 && p in o ==> o[p] == o0[p])
  }

  lemma ChangeOnly(f: Frames, g: Frames, o0: Owners, o: Owners, o': Owners, live: set<nat>, r: nat)
    requires OwnedAs(o0, o, live) && Only(f, g, o, o', r) && r in live
    ensures OwnedAs(o0, o', live)
  {
    forall p ensures Apart(o', p, live) <==> p in o0 {
      if Apart(o', p, live) {
        assert Foreign(o', p, r);
        assert Apart(o, p, live);
      }
      if p in o0 {
        assert Apart(o, p, live) && Foreign(o, p, r);
        assert Apart(o', p, live);
      }
    }
    forall p | p in o0 && p in o' ensures o'[p] == o0[p] {
      assert Apart(o, p, live) && Foreign(o, p, r);
    }
  }

  lemma CreateOnly(f: Frames, g: Frames, o0: Owners, o: Owners, o': Owners, live: set<nat>, r: nat)
    requires OwnedAs(o0, o, live) && Only(f, g, o, o', r) && r !in o && Tree(f, o)
    ensures OwnedAs(o0, o', live + {r})
  {
    NoTreeYet(f, o, r);
    hide Tree;
    forall p ensures Apart(o', p, live + {r}) <==> p in o0 {
      if Apart(o', p, live + {r}) {
        assert Foreign(o', p, r);
        assert Apart(o, p, live);
      }
      if p in o0 {
        assert Apart(o, p, live) && Foreign(o, p, r);
        assert Apart(o', p, live + {r});
      }
    }
    forall p | p in o0 && p in o' ensures o'[p] == o0[p] {
      assert Apart(o, p, live) && Foreign(o, p, r);
    }
  }

  lemma FreeOnly(f: Frames, g: Frames, o0: Owners, o: Owners, o': Owners, live: set<nat>, r: nat)
    requires OwnedAs(o0, o, live) && Only(f, g, o, o', r) && r in live
    requires forall p :: p in o' ==> Foreign(o', p, r)
    ensures OwnedAs(o0, o', live - {r})
  {
    forall p ensures Apart(o', p, live - {r}) <==> p in o0 {
      if Apart(o', p, live - {r}) {
        assert Foreign(o', p, r);
        assert Apart(o, p, live);
      }
      if p in o0 {
        assert Apart(o, p, live) && Foreign(o, p, r);
        assert Apart(o', p, live - {r});
      }
    }
    forall p | p in o0 && p in o' ensures o'[p] == o0[p] {
      assert Apart(o, p, live) && Foreign(o, p, r);
    }
  }

  lemma StepOwners(s: Snapshot, t: Snapshot, a: Step, trampoline: nat, o0: Owners, live: set<nat>)
    requires OwnedAs(o0, s.owner, live) && Done(s, t, a, trampoline) && Tree(s.frames, s.owner) && Target(a) <= live
    ensures OwnedAs(o0, t.owner, After(live, a))
  {
    hide OwnedAs, Only, Tree, Space, Copied, PagesKept, SameLeaves, SameData, Foreign;
    match a
    case Create(r, _) => CreateOnly(s.frames, t.frames, o0, s.owner, t.owner, live, r);
    case Refuse =>
    case Resize(r, _, _, _) =>
      assert r in Target(a);
      ChangeOnly(s.frames, t.frames, o0, s.owner, t.owner, live, r);
    case Copy(_, child, _) =>
      assert child in Target(a);
      ChangeOnly(s.frames, t.frames, o0, s.owner, t.owner, live, child);
    case Free(r) =>
      assert r in Target(a);
      FreeOnly(s.frames, t.frames, o0, s.owner, t.owner, live, r);
  }

  // At every point of a run whatever belongs to none of the living address
  // spaces is what was owned at the start, by the same owner.
  lemma {:induction false} RunOwners(ss: seq<Snapshot>, steps: seq<Step>, trampoline: nat, i: nat)
    requires History(ss, steps, trampoline) && i <= |steps|
    ensures OwnedAs(ss[0].owner, ss[i].owner, Alive(steps[..i]))
  {
    hide OwnedAs, Done, Tree;
    if i == 0 {
      StartOwners(ss[0].owner);
    } else {
      RunOwners(ss, steps, trampoline, i - 1);
      assert steps[..i][..i - 1] == steps[..i - 1];
      StepOwners(ss[i - 1], ss[i], steps[i - 1], trampoline, ss[0].owner, Alive(steps[..i - 1]));
    }
  }

  lemma StartOwners(o: Owners)
    ensures OwnedAs(o, o, {})
  {
  }

  // Conservation: create, grow, shrink, copy and free in any order; once every
  // address space that was created has been freed, every page is owned as at the
  // start, and exactly the same pages are free.
  lemma Conservation(ss: seq<Snapshot>, steps: seq<Step>, trampoline: nat,
                     head: nat, free: seq<nat>, head': nat, free': seq<nat>, lo: nat, hi: nat)
    requires History(ss, steps, trampoline) && Alive(steps) == {}
    requires MemOk(ss[0].frames, head, free, ss[0].owner, lo, hi)
    requires MemOk(ss[|steps|].frames, head', free', ss[|steps|].owner, lo, hi)
    ensures ss[|steps|].owner == ss[0].owner
    ensures forall p :: p in free' <==> p in free
  {
    var s, t := ss[0], ss[|steps|];
    RunOwners(ss, steps, trampoline, |steps|);
    assert steps[..|steps|] == steps;
    hide History, Tree;
    forall p ensures p in t.owner <==> p in s.owner {
      assert Apart(t.owner, p, {}) <==> p in s.owner;
    }
    assert t.owner == s.owner;
    FreeInPool(s.frames, head, free);
    FreeInPool(t.frames, head', free');
  }

  // ---------------------------------------------------------------- the operations make such runs

  lemma RunMore(ss: seq<Snapshot>, steps: seq<Step>, trampoline: nat, t: Snapshot, a: Step)
    requires History(ss, steps, trampoline) && Done(ss[|steps|], t, a, trampoline) && Tree(t.frames, t.owner)
    requires Target(a) <= Alive(steps)
    ensures History(ss + [t], steps + [a], trampoline) && Alive(steps + [a]) == After(Alive(steps), a)
  {
    hide Done, Tree, Target;
    var ss', steps' := ss + [t], steps + [a];
    assert steps'[..|steps|] == steps;
    forall i | 0 <= i < |steps'| ensures Done(ss'[i], ss'[i + 1], steps'[i], trampoline) {
      if i < |steps| {
        assert ss'[i] == ss[i] && ss'[i + 1] == ss[i + 1];
      }
    }
    forall i | 0 <= i < |steps'| ensures Target(steps'[i]) <= Alive(steps'[..i]) {
      if i < |steps| {
        assert steps'[..i] == steps[..i];
      }
    }
  }

  // The i-th process has the address space tables[i] of sizes[i] bytes.
  ghost predicate Spaces(f: Frames, o: Owners, trampoline: nat, tables: seq<nat>, sizes: seq<nat>, tfs: seq<nat>) {
    && |tables| == |sizes| == |tfs| && NoDup(tables)
    && forall i :: 0 <= i < |tables| ==> Space(f, o, tables[i], Pages(sizes[i]), trampoline, tfs[i])
  }

  // An operation on address space r leaves the others.
  lemma OthersKept(f: Frames, g: Frames, o: Owners, o': Owners, r: nat, trampoline: nat,
                   tables: seq<nat>, sizes: seq<nat>, tfs: seq<nat>, i: nat)
    requires Spaces(f, o, trampoline, tables, sizes, tfs) && Only(f, g, o, o', r) && i < |tables| && tables[i] != r
    ensures Space(g, o', tables[i], Pages(sizes[i]), trampoline, tfs[i])
  {
    SpaceKept(f, g, o, o', r, tables[i], Pages(sizes[i]), trampoline, tfs[i]);
  }

  lemma OneChanged(f: Frames, g: Frames, o: Owners, o': Owners, trampoline: nat,
                   tables: seq<nat>, sizes: seq<nat>, tfs: seq<nat>, i: nat, n: nat)
    requires Spaces(f, o, trampoline, tables, sizes, tfs) && i < |tables| && Only(f, g, o, o', tables[i])
    requires Space(g, o', tables[i], Pages(n), trampoline, tfs[i])
    ensures Spaces(g, o', trampoline, tables, sizes[i := n], tfs)
  {
    hide Space, Only, Pages;
    forall j | 0 <= j < |tables| ensures Space(g, o', tables[j], Pages(sizes[i := n][j]), trampoline, tfs[j]) {
      if j != i {
        OthersKept(f, g, o, o', tables[i], trampoline, tables, sizes, tfs, j);
      }
    }
  }

  lemma OneAdded(f: Frames, g: Frames, o: Owners, o': Owners, trampoline: nat,
                 tables: seq<nat>, sizes: seq<nat>, tfs: seq<nat>, r: nat, tf: nat)
    requires Spaces(f, o, trampoline, tables, sizes, tfs) && r !in o && Only(f, g, o, o', r)
    requires Space(g, o', r, 0, trampoline, tf)
    ensures r !in tables && Spaces(g, o', trampoline, tables + [r], sizes + [0], tfs + [tf])
  {
    assert forall i :: 0 <= i < |tables| ==> Owns(o, tables[i], RootTable);
    assert Pages(0) == 0;
    hide Space, Only, Pages;
    var tables', sizes', tfs' := tables + [r], sizes + [0], tfs + [tf];
    forall j | 0 <= j < |tables'| ensures Space(g, o', tables'[j], Pages(sizes'[j]), trampoline, tfs'[j]) {
      if j < |tables| {
        OthersKept(f, g, o, o', r, trampoline, tables, sizes, tfs, j);
      }
    }
  }

  function Drop<T>(s: seq<T>, i: nat): (r: seq<T>)
    requires i < |s|
    ensures |r| == |s| - 1 && forall j :: 0 <= j < |r| ==> r[j] == if j < i then s[j] else s[j + 1]
  {
    s[..i] + s[i + 1..]
  }

  lemma OneGone(f: Frames, g: Frames, o: Owners, o': Owners, trampoline: nat,
                tables: seq<nat>, sizes: seq<nat>, tfs: seq<nat>, i: nat)
    requires Spaces(f, o, trampoline, tables, sizes, tfs) && i < |tables| && Only(f, g, o, o', tables[i])
    ensures Spaces(g, o', trampoline, Drop(tables, i), Drop(sizes, i), Drop(tfs, i))
    ensures Elems(Drop(tables, i)) == Elems(tables) - {tables[i]}
  {
    hide Space, Only, Pages;
    forall j | 0 <= j < |tables| && j != i ensures Space(g, o', tables[j], Pages(sizes[j]), trampoline, tfs[j]) {
      OthersKept(f, g, o, o', tables[i], trampoline, tables, sizes, tfs, j);
    }
    forall p ensures p in Elems(Drop(tables, i)) <==> p in Elems(tables) - {tables[i]} {
      if p in tables && p != tables[i] {
        var j :| 0 <= j < |tables| && tables[j] == p;
        assert Drop(tables, i)[if j < i then j else j - 1] == p;
      }
    }
  }

  // The address spaces of the process table
  class ProcTable {
    const m: Memory
    const trampoline: nat
    var tables: seq<nat>          // p->pagetable
    var sizes: seq<nat>           // p->sz
    ghost var tfs: seq<nat>       // p->trapframe
    ghost var ss: seq<Snapshot>
    ghost var steps: seq<Step>

    ghost predicate Valid()
      reads this, m
    {
      && m.Ok() && Spaces(m.frames, m.owner, trampoline, tables, sizes, tfs) && |ss| == |steps| + 1
      && History(ss, steps, trampoline) && ss[|steps|] == Snapshot(m.frames, m.owner) && Alive(steps) == Elems(tables)
    }

    constructor (m: Memory, trampoline: nat)
      requires m.Ok()
      ensures Valid() && this.m == m && this.trampoline == trampoline
      ensures tables == [] && ss[0] == Snapshot(m.frames, m.owner)
    {
      this.m, this.trampoline := m, trampoline;
      tables, sizes, tfs := [], [], [];
      ss, steps := [Snapshot(m.frames, m.owner)], [];
    }

    // The run goes on with step a, which has just been done.
    ghost method Record(a: Step)
      requires History(ss, steps, trampoline) && Tree(m.frames, m.owner) && Target(a) <= Alive(steps)
      requires Done(ss[|steps|], Snapshot(m.frames, m.owner), a, trampoline)
      modifies this`ss, this`steps
      ensures History(ss, steps, trampoline) && |ss| == |steps| + 1 && ss[|steps|] == Snapshot(m.frames, m.owner)
      ensures Alive(steps) == After(old(Alive(steps)), a) && ss[0] == old(ss[0])
    {
      hide Done, Tree, Target, History;
      RunMore(ss, steps, trampoline, Snapshot(m.frames, m.owner), a);
      RunShape(ss, steps, trampoline);
      ss := ss + [Snapshot(m.frames, m.owner)];
      steps := steps + [a];
    }

    // proc_pagetable for a new process
    method Spawn(trapframe: nat) returns (ok: bool)
      requires Valid()
      modifies this, m
      ensures Valid() && ss[0] == old(ss[0])
      ensures ok ==>
        && |tables| == |old(tables)| + 1 && tables[..|old(tables)|] == old(tables)
        && sizes == old(sizes) + [0]
      ensures !ok ==> tables == old(tables) && sizes == old(sizes)
    {
      hide Spaces, Tree, MemOk, Only, Space, SameLeaves, SameData, History, Pages;
      ghost var f0, o0 := m.frames, m.owner;
      var r := ProcPagetable(m, trampoline, trapframe);
      ok := r != 0;
      if ok {
        OneAdded(f0, m.frames, o0, m.owner, trampoline, tables, sizes, tfs, r, trapframe);
        Record(Create(r, trapframe));
        tables, sizes, tfs := tables + [r], sizes + [0], tfs + [trapframe];
      } else {
        NothingChanged(f0, m.frames, o0, trampoline, tables, sizes, tfs);
        Record(Refuse);
      }
    }

    // growproc of process i; true is its panic
    method Grow(i: nat, n: int) returns (panic: bool)
      requires Valid() && i < |tables| && -0x8000_0000 <= n < 0x8000_0000
      modifies this, m
      ensures panic ==> n > 0 && Pages(old(sizes[i]) + n) > TRAPFRAME
      ensures !panic ==> Valid() && ss[0] == old(ss[0]) && tables == old(tables)
      ensures !panic ==> |sizes| == |old(sizes)| && forall j :: 0 <= j < |sizes| && j != i ==> sizes[j] == old(sizes[j])
      ensures !panic ==> sizes[i] == old(sizes[i]) || sizes[i] == old(sizes[i]) + n
    {
      hide Spaces, Tree, MemOk, Only, Space, History, Pages, PagesKept, AllUser;
      ghost var f0, o0 := m.frames, m.owner;
      SpaceAt(f0, o0, trampoline, tables, sizes, tfs, i);
      var p := new Process(tables[i]);
      p.sz := sizes[i];
      var ret;
      ret, panic := p.GrowProc(m, n, trampoline, tfs[i]);
      if panic {
        return;
      }
      PagesOrder(sizes[i], p.sz);
      OneChanged(f0, m.frames, o0, m.owner, trampoline, tables, sizes, tfs, i, p.sz);
      assert tables[i] in Elems(tables);
      Record(Resize(tables[i], Pages(sizes[i]), Pages(p.sz), tfs[i]));
      sizes := sizes[i := p.sz];
    }

    // proc_freepagetable of process i
    method Exit(i: nat)
      requires Valid() && i < |tables|
      modifies this, m
      ensures Valid() && ss[0] == old(ss[0]) && tables == Drop(old(tables), i)
    {
      hide Spaces, Tree, MemOk, Only, Space, History, Pages, Foreign;
      ghost var f0, o0 := m.frames, m.owner;
      SpaceAt(f0, o0, trampoline, tables, sizes, tfs, i);
      ProcFreePagetable(m, tables[i], sizes[i], trampoline, tfs[i]);
      OneGone(f0, m.frames, o0, m.owner, trampoline, tables, sizes, tfs, i);
      assert tables[i] in Elems(tables);
      Record(Free(tables[i]));
      tables, sizes, tfs := Drop(tables, i), Drop(sizes, i), Drop(tfs, i);
    }

    // The memory part of fork: a new process with a copy of process i's memory, or
    // none.
    method Fork(i: nat, trapframe: nat) returns (ok: bool)
      requires Valid() && i < |tables|
      modifies this, m
      ensures Valid() && ss[0] == old(ss[0])
      ensures ok ==> |tables| == |old(tables)| + 1 && sizes == old(sizes) + [old(sizes[i])]
      ensures !ok ==> tables == old(tables)
    {
      hide Spaces, Tree, MemOk, Only, Space, History, Pages, Copied;
      ok := Spawn(trapframe);
      if !ok {
        return;
      }
      ghost var f0, o0 := m.frames, m.owner;
      var c := |tables| - 1;
      SpaceAt(f0, o0, trampoline, tables, sizes, tfs, i);
      SpaceAt(f0, o0, trampoline, tables, sizes, tfs, c);
      NoPages();
      ok := CopySpace(m, tables[i], tables[c], sizes[i], trampoline, tfs[i], tfs[c]);
      var n := if ok then sizes[i] else 0;
      if !ok {
        CopiedNothing(m.frames, m.owner, tables[i], tables[c]);
      }
      OneChanged(f0, m.frames, o0, m.owner, trampoline, tables, sizes, tfs, c, n);
      assert tables[c] in Elems(tables);
      Record(Copy(tables[i], tables[c], Pages(n)));
      sizes := sizes[c := n];
      if !ok {
        Exit(c);
        assert tables == old(tables);
      }
    }
  }

  lemma SpaceAt(f: Frames, o: Owners, trampoline: nat, tables: seq<nat>, sizes: seq<nat>, tfs: seq<nat>, i: nat)
    requires Spaces(f, o, trampoline, tables, sizes, tfs) && i < |tables|
    ensures |tables| == |sizes| == |tfs| && Space(f, o, tables[i], Pages(sizes[i]), trampoline, tfs[i])
    ensures forall j :: 0 <= j < |tables| && j != i ==> tables[j] != tables[i]
  {
  }

  lemma PagesOrder(a: nat, b: nat)
    ensures Pages(if a <= b then a else b) == if Pages(a) <= Pages(b) then Pages(a) else Pages(b)
  {
    if a <= b {
      PagesMonotone(a, b);
    } else {
      PagesMonotone(b, a);
    }
  }

  datatype Request = Spawn(trapframe: nat) | Grow(i: nat, n: int) | Fork(i: nat, trapframe: nat) | Exit(i: nat)

  // Any sequence of requests, then the exit of every process: no page is lost,
  // no page changes its owner, and the same pages are free.
  method Lifetime(m: Memory, trampoline: nat, script: seq<Request>) returns (panic: bool)
    requires m.Ok()
    modifies m
    ensures !panic ==> m.Ok() && m.owner == old(m.owner) && forall p :: p in m.free <==> p in old(m.free)
  {
    hide Spaces, Tree, MemOk, History;
    var t := new ProcTable(m, trampoline);
    panic := false;
    for k := 0 to |script|
      invariant t.Valid() && t.m == m && t.trampoline == trampoline && fresh(t)
      invariant t.ss[0] == Snapshot(old(m.frames), old(m.owner))
    {
      match script[k]
      case Spawn(tf) =>
        var ok := t.Spawn(tf);
      case Grow(i, n) =>
        if i < |t.tables| && -0x8000_0000 <= n < 0x8000_0000 {
          panic := t.Grow(i, n);
          if panic {
            return;
          }
        }
      case Fork(i, tf) =>
        if i < |t.tables| {
          var ok := t.Fork(i, tf);
        }
      case Exit(i) =>
        if i < |t.tables| {
          t.Exit(i);
        }
    }
    while t.tables != []
      invariant t.Valid() && t.m == m && t.trampoline == trampoline && fresh(t)
      invariant t.ss[0] == Snapshot(old(m.frames), old(m.owner))
      decreases |t.tables|
    {
      t.Exit(0);
    }
    Conservation(t.ss, t.steps, trampoline, old(m.freelist), old(m.free), m.freelist, m.free, m.lo, m.hi);
  }

  lemma RunShape(ss: seq<Snapshot>, steps: seq<Step>, trampoline: nat)
    requires History(ss, steps, trampoline)
    ensures |ss| == |steps| + 1
  {
  }

  lemma NothingChanged(f: Frames, g: Frames, o: Owners, trampoline: nat, tables: seq<nat>, sizes: seq<nat>,
                       tfs: seq<nat>)
    requires Spaces(f, o, trampoline, tables, sizes, tfs) && SameLeaves(f, g, o) && SameData(f, g, o)
    ensures Spaces(g, o, trampoline, tables, sizes, tfs)
  {
    forall i | 0 <= i < |tables| ensures Space(g, o, tables[i], Pages(sizes[i]), trampoline, tfs[i]) {
      SameSpace(f, g, o, tables[i], Pages(sizes[i]), trampoline, tfs[i]);
    }
  }

  lemma SameSpace(f: Frames, g: Frames, o: Owners, r: nat, n: nat, trampoline: nat, tf: nat)
    requires Space(f, o, r, n, trampoline, tf) && SameLeaves(f, g, o)
    ensures Space(g, o, r, n, trampoline, tf)
  {
    hide Leaf, Pte, V, PageOf;
    assert forall v: nat :: v < MAXVPN ==> Leaf(g, r, v) == Leaf(f, r, v);
    forall v: nat | v < n ensures V(Leaf(g, r, v)) && OwnLeaf(g, o, r, v, true) {
      assert OwnLeaf(f, o, r, v, true);
    }
  }
}
