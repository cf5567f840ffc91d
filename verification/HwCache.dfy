/**
 The CPU's two-way write-back cache (lacpu/rtl/mycpu/cache_tag.v and
 cache_data.v) as a clocked circuit: registers, the signals computed from
 them, and the next state. 64 sets, lines of 16 banks of 4 bytes. The bus
 controller is an environment that keeps a contract.
 */
module HwCache {
  import opened Options

  const SETS: nat := 64
  const BANKS: nat := 16
  const LINES: nat := 0x400_0000   // 32-bit addresses, 64-byte lines

  type Word = seq<nat>             // 4 bytes
  type Line = seq<Word>

  datatype Tag = Tag(valid: bool, tag: nat)

  // One way: tag registers, bank memories, and the banks' output registers
  // (None where a bank was written or not yet read).
  datatype Way = Way(tags: seq<Tag>, lines: seq<Line>, out: seq<Option<Word>>)

  datatype Cache = Cache(w0: Way, w1: Way, lru: seq<bool>,
                         hit0r: bool, hit1r: bool, lrur: bool, bankr: nat)

  // cached, sram_en, sram_we, sram_addr, sram_wdata, flush, refresh, cacheline_new
  datatype Input = Input(cached: bool, en: bool, we: seq<bool>, addr: nat, wdata: Word, flush: bool, refresh: bool,
                         newLine: Line)

  // ---------------------------------------------------------------- addresses

  function TagOf(addr: nat): nat { addr / 4096 }
  function IndexOf(addr: nat): (i: nat) ensures i < SETS { addr / 64 % 64 }
  function BankOf(addr: nat): (b: nat) ensures b < BANKS { addr % 64 / 4 }
  function LineOf(addr: nat): nat { addr / 64 }

  // A line is known by its tag and index.
  lemma LineParts(addr: nat)
    ensures LineOf(addr) == TagOf(addr) * 64 + IndexOf(addr)
    ensures LineOf(addr) % 64 == IndexOf(addr) && LineOf(addr) / 64 == TagOf(addr)
  {
    assert addr / 64 / 64 == addr / 4096;
  }

  ghost predicate IsWord(w: Word) { |w| == 4 }
  ghost predicate IsLine(l: Line) { |l| == BANKS && forall b :: 0 <= b < BANKS ==> IsWord(l[b]) }

  ghost predicate WayOk(w: Way) {
    |w.tags| == SETS && |w.lines| == SETS && |w.out| == BANKS && forall i :: 0 <= i < SETS ==> IsLine(w.lines[i])
  }

  ghost predicate CacheOk(c: Cache) {
    WayOk(c.w0) && WayOk(c.w1) && |c.lru| == SETS && c.bankr < BANKS
  }

  ghost predicate InputOk(i: Input) {
    |i.we| == 4 && IsWord(i.wdata) && IsLine(i.newLine) && LineOf(i.addr) < LINES
  }

  // ---------------------------------------------------------------- signals

  predicate HitIn(w: Way, i: Input)
    requires |w.tags| == SETS
  {
    !i.flush && i.cached && i.en && w.tags[IndexOf(i.addr)] == Tag(true, TagOf(i.addr))
  }

  predicate Miss(c: Cache, i: Input)
    requires |c.w0.tags| == SETS && |c.w1.tags| == SETS
  {
    i.cached && i.en && !HitIn(c.w0, i) && !HitIn(c.w1, i) && !i.flush
  }

  // The way that lru points to
  function Victim(c: Cache, i: Input): Way
    requires |c.lru| == SETS
  {
    if c.lru[IndexOf(i.addr)] then c.w1 else c.w0
  }

  predicate WriteBack(c: Cache, i: Input)
    requires |c.w0.tags| == SETS && |c.w1.tags| == SETS && |c.lru| == SETS
  {
    Miss(c, i) && Victim(c, i).tags[IndexOf(i.addr)].valid
  }

  // axi_waddr and axi_raddr, as line numbers
  function WLine(c: Cache, i: Input): nat
    requires |c.w0.tags| == SETS && |c.w1.tags| == SETS && |c.lru| == SETS
  {
    Victim(c, i).tags[IndexOf(i.addr)].tag * 64 + IndexOf(i.addr)
  }

  function RLine(i: Input): nat { LineOf(i.addr) }

  // cacheline_old: the output registers of the way lru pointed to
  function OldLine(c: Cache): seq<Option<Word>> {
    if c.lrur then c.w1.out else c.w0.out
  }

  // sram_rdata
  function ReadData(c: Cache): Option<Word>
    requires |c.w0.out| == BANKS && |c.w1.out| == BANKS && c.bankr < BANKS
  {
    if c.hit0r then c.w0.out[c.bankr] else if c.hit1r then c.w1.out[c.bankr] else None
  }

  // ---------------------------------------------------------------- next state

  function Merge(w: Word, d: Word, we: seq<bool>): (r: Word)
    requires |w| == 4 && |d| == 4 && |we| == 4
    ensures |r| == 4
  {
    seq(4, k requires 0 <= k < 4 => if we[k] then d[k] else w[k])
  }

  const NONE: seq<bool> := [false, false, false, false]
  const ALL: seq<bool> := [true, true, true, true]

  // The bank memories and output registers of one way; mine: this way is the victim.
  function Enabled(i: Input, hit: bool, wb: bool, b: nat): bool {
    (i.cached && i.refresh) || (i.en && BankOf(i.addr) == b && hit) || wb
  }

  function WriteMask(i: Input, wb: bool, mine: bool): (m: seq<bool>)
    requires |i.we| == 4
    ensures |m| == 4
  {
    if i.refresh then (if mine then ALL else NONE) else if wb then NONE else i.we
  }

  function WayTick(w: Way, i: Input, hit: bool, wb: bool, mine: bool): Way
    requires WayOk(w) && InputOk(i)
  {
    var x, m := IndexOf(i.addr), WriteMask(i, wb, mine);
    var line: Line := seq(BANKS, b requires 0 <= b < BANKS =>
      if Enabled(i, hit, wb, b) then Merge(w.lines[x][b], if i.refresh then i.newLine[b] else i.wdata, m)
      else w.lines[x][b]);
    Way(if i.refresh && mine then w.tags[x := Tag(i.cached, TagOf(i.addr))] else w.tags,
        w.lines[x := line],
        seq(BANKS, b requires 0 <= b < BANKS =>
          if !Enabled(i, hit, wb, b) then w.out[b] else if m == NONE then Some(w.lines[x][b]) else None))
  }

  function Tick(c: Cache, i: Input): Cache
    requires CacheOk(c) && InputOk(i)
  {
    var x, h0, h1, wb := IndexOf(i.addr), HitIn(c.w0, i), HitIn(c.w1, i), WriteBack(c, i);
    Cache(WayTick(c.w0, i, h0, wb, !c.lru[x]), WayTick(c.w1, i, h1, wb, c.lru[x]),
          if h0 && !h1 then c.lru[x := true] else if !h0 && h1 then c.lru[x := false]
          else if i.refresh then c.lru[x := !c.lru[x]] else c.lru,
          h0, h1, c.lru[x], BankOf(i.addr))
  }

  // ---------------------------------------------------------------- what a tick does to one way

  lemma MergeNone(w: Word, d: Word)
    requires |w| == 4 && |d| == 4
    ensures Merge(w, d, NONE) == w && Merge(w, d, ALL) == d
  {
  }

  // A refill replaces the line and the tag of the victim and leaves the other way.
  lemma WayRefill(w: Way, i: Input, hit: bool, wb: bool, mine: bool)
    requires WayOk(w) && InputOk(i) && i.refresh && i.cached
    ensures var v, x := WayTick(w, i, hit, wb, mine), IndexOf(i.addr);
            && WayOk(v)
            && v.tags == (if mine then w.tags[x := Tag(true, TagOf(i.addr))] else w.tags)
            && v.lines == (if mine then w.lines[x := i.newLine] else w.lines)
  {
    var v, x := WayTick(w, i, hit, wb, mine), IndexOf(i.addr);
    forall b | 0 <= b < BANKS ensures v.lines[x][b] == if mine then i.newLine[b] else w.lines[x][b] {
      assert IsWord(w.lines[x][b]) && IsWord(i.newLine[b]);
      MergeNone(w.lines[x][b], i.newLine[b]);
    }
    assert v.lines[x] == if mine then i.newLine else w.lines[x];
    assert v.lines == if mine then w.lines[x := i.newLine] else w.lines;
  }

  // The line with the enabled bytes of one bank replaced
  function Stored(l: Line, i: Input): Line
    requires InputOk(i) && |l| == BANKS && |l[BankOf(i.addr)]| == 4
  {
    l[BankOf(i.addr) := Merge(l[BankOf(i.addr)], i.wdata, i.we)]
  }

  // Without refill or write-back a way changes only where it is hit.
  lemma WayAccess(w: Way, i: Input, hit: bool, mine: bool)
    requires WayOk(w) && InputOk(i) && !i.refresh && (hit ==> i.en)
    ensures var v, x, k := WayTick(w, i, hit, false, mine), IndexOf(i.addr), BankOf(i.addr);
            && WayOk(v) && v.tags == w.tags && |w.lines[x][k]| == 4
            && v.lines == (if hit then w.lines[x := Stored(w.lines[x], i)] else w.lines)
            && (hit && i.we == NONE ==> v.out[k] == Some(w.lines[x][k]))
  {
    var v, x, k := WayTick(w, i, hit, false, mine), IndexOf(i.addr), BankOf(i.addr);
    assert IsWord(w.lines[x][k]);
    if hit {
      assert v.lines[x] == Stored(w.lines[x], i);
    } else {
      assert v.lines[x] == w.lines[x];
    }
    assert v.lines == if hit then w.lines[x := Stored(w.lines[x], i)] else w.lines;
  }

  // Write-back reads the whole set out.
  lemma WayReadOut(w: Way, i: Input, hit: bool, mine: bool)
    requires WayOk(w) && InputOk(i) && !i.refresh
    ensures var v, x := WayTick(w, i, hit, true, mine), IndexOf(i.addr);
            && WayOk(v) && v.tags == w.tags && v.lines == w.lines
            && forall b :: 0 <= b < BANKS ==> v.out[b] == Some(w.lines[x][b])
  {
    var v, x := WayTick(w, i, hit, true, mine), IndexOf(i.addr);
    forall b | 0 <= b < BANKS ensures v.lines[x][b] == w.lines[x][b] {
      assert IsWord(w.lines[x][b]);
      MergeNone(w.lines[x][b], i.wdata);
    }
    assert v.lines[x] == w.lines[x];
    assert v.lines == w.lines;
  }

  // ---------------------------------------------------------------- cache, bus and memory

  // seen: the set whose lines the last cycle read out for write-back; stored:
  // the victim of that set has been stored; recent: the way of each set that
  // was hit or filled last, true for way 1.
  datatype System = System(c: Cache, mem: seq<Line>, seen: Option<nat>, stored: bool, recent: seq<Option<bool>>)

  ghost predicate Contract(s: System, i: Input, wb: bool)
    requires CacheOk(s.c)
  {
    // refill only on a miss, with the line at axi_raddr, after storing the victim
    && (i.refresh ==>
          && Miss(s.c, i) && RLine(i) < |s.mem| && i.newLine == s.mem[RLine(i)] && !wb
          && (WriteBack(s.c, i) ==> s.stored && s.seen == Some(IndexOf(i.addr))))
    // the victim is stored when it has been read out
    && (wb ==> WriteBack(s.c, i) && s.seen == Some(IndexOf(i.addr)) && WLine(s.c, i) < |s.mem|)
  }

  function Words(o: seq<Option<Word>>): Line {
    seq(|o|, b requires 0 <= b < |o| => if o[b].Some? then o[b].value else [])
  }

  ghost predicate Hits(s: System, i: Input)
    requires CacheOk(s.c)
  {
    HitIn(s.c.w0, i) || HitIn(s.c.w1, i)
  }

  ghost function Cycle(s: System, i: Input, wb: bool): System
    requires CacheOk(s.c) && InputOk(i) && Contract(s, i, wb) && |s.recent| == SETS
  {
    var x, wait := IndexOf(i.addr), WriteBack(s.c, i) && !i.refresh;
    System(Tick(s.c, i),
           if wb then s.mem[WLine(s.c, i) := Words(OldLine(s.c))] else s.mem,
           if wait then Some(x) else None,
           wait && s.seen == Some(x) && (s.stored || wb),
           if i.refresh then s.recent[x := Some(s.c.lru[x])]
           else if HitIn(s.c.w0, i) then s.recent[x := Some(false)]
           else if HitIn(s.c.w1, i) then s.recent[x := Some(true)]
           else s.recent)
  }

  // What the CPU sees as line n
  ghost function Flat(s: System, n: nat): Line
    requires CacheOk(s.c) && n < |s.mem|
  {
    var x := n % 64;
    if s.c.w0.tags[x] == Tag(true, n / 64) then s.c.w0.lines[x]
    else if s.c.w1.tags[x] == Tag(true, n / 64) then s.c.w1.lines[x]
    else s.mem[n]
  }

  ghost predicate TagFits(t: Tag, x: nat) {
    t.valid ==> t.tag * 64 + x < LINES
  }

  // Set x: no line twice, tags within memory, the victim is not the way used last.
  ghost predicate SetOk(s: System, x: nat)
    requires CacheOk(s.c) && |s.recent| == SETS && x < SETS
  {
    && TagFits(s.c.w0.tags[x], x) && TagFits(s.c.w1.tags[x], x)
    && !(s.c.w0.tags[x].valid && s.c.w0.tags[x] == s.c.w1.tags[x])
    && (s.recent[x].Some? ==> s.c.lru[x] != s.recent[x].value)
  }

  // The lines of set x are in the output registers.
  ghost predicate ReadOut(c: Cache, x: nat)
    requires CacheOk(c) && x < SETS
  {
    && c.lrur == c.lru[x]
    && forall b :: 0 <= b < BANKS ==> c.w0.out[b] == Some(c.w0.lines[x][b]) && c.w1.out[b] == Some(c.w1.lines[x][b])
  }

  ghost predicate VictimStored(s: System, x: nat)
    requires CacheOk(s.c) && x < SETS
  {
    var v := if s.c.lru[x] then s.c.w1 else s.c.w0;
    v.tags[x].valid && v.tags[x].tag * 64 + x < |s.mem| && s.mem[v.tags[x].tag * 64 + x] == v.lines[x]
  }

  ghost predicate Inv(s: System) {
    && CacheOk(s.c) && |s.mem| == LINES && |s.recent| == SETS
    && (forall n :: 0 <= n < LINES ==> IsLine(s.mem[n]))
    && (forall x: nat :: x < SETS ==> SetOk(s, x))
    && (s.seen.Some? ==> s.seen.value < SETS && ReadOut(s.c, s.seen.value))
    && (s.stored ==> s.seen.Some? && VictimStored(s, s.seen.value))
  }

  // The store of a hit
  ghost function Effect(s: System, i: Input, n: nat, l: Line): Line
    requires CacheOk(s.c) && InputOk(i)
  {
    if Hits(s, i) && LineOf(i.addr) == n && IsLine(l) then Stored(l, i) else l
  }

  // A miss hits nothing; a hit is in one way only.
  lemma OneWay(s: System, i: Input)
    requires Inv(s) && InputOk(i)
    ensures !(HitIn(s.c.w0, i) && HitIn(s.c.w1, i))
    ensures i.refresh && Miss(s.c, i) ==> !Hits(s, i)
  {
    assert SetOk(s, IndexOf(i.addr));
  }

  // ---------------------------------------------------------------- every cycle keeps it

  // How a cycle that does not refill changes the cache
  lemma QuietTick(s: System, i: Input)
    requires Inv(s) && InputOk(i) && !i.refresh
    ensures var c, t, x := s.c, Tick(s.c, i), IndexOf(i.addr);
            && CacheOk(t) && t.w0.tags == c.w0.tags && t.w1.tags == c.w1.tags
            && IsLine(c.w0.lines[x]) && IsLine(c.w1.lines[x])
            && t.w0.lines == (if HitIn(c.w0, i) then c.w0.lines[x := Stored(c.w0.lines[x], i)] else c.w0.lines)
            && t.w1.lines == (if HitIn(c.w1, i) then c.w1.lines[x := Stored(c.w1.lines[x], i)] else c.w1.lines)
  {
    var c := s.c;
    if WriteBack(c, i) {
      WayReadOut(c.w0, i, HitIn(c.w0, i), !c.lru[IndexOf(i.addr)]);
      WayReadOut(c.w1, i, HitIn(c.w1, i), c.lru[IndexOf(i.addr)]);
    } else {
      WayAccess(c.w0, i, HitIn(c.w0, i), !c.lru[IndexOf(i.addr)]);
      WayAccess(c.w1, i, HitIn(c.w1, i), c.lru[IndexOf(i.addr)]);
    }
  }

  lemma RefillTick(s: System, i: Input)
    requires Inv(s) && InputOk(i) && i.refresh && Miss(s.c, i)
    ensures var c, t, x := s.c, Tick(s.c, i), IndexOf(i.addr);
            var v := Tag(true, TagOf(i.addr));
            && CacheOk(t) && t.lru == c.lru[x := !c.lru[x]]
            && t.w0.tags == (if c.lru[x] then c.w0.tags else c.w0.tags[x := v])
            && t.w1.tags == (if c.lru[x] then c.w1.tags[x := v] else c.w1.tags)
            && t.w0.lines == (if c.lru[x] then c.w0.lines else c.w0.lines[x := i.newLine])
            && t.w1.lines == (if c.lru[x] then c.w1.lines[x := i.newLine] else c.w1.lines)
  {
    var c := s.c;
    WayRefill(c.w0, i, HitIn(c.w0, i), WriteBack(c, i), !c.lru[IndexOf(i.addr)]);
    WayRefill(c.w1, i, HitIn(c.w1, i), WriteBack(c, i), c.lru[IndexOf(i.addr)]);
  }

  lemma RefillKeeps(s: System, i: Input)
    requires Inv(s) && InputOk(i) && Contract(s, i, false) && i.refresh
    ensures Inv(Cycle(s, i, false))
  {
    hide WayTick, Tick;
    var t, x := Cycle(s, i, false), IndexOf(i.addr);
    RefillTick(s, i);
    LineParts(i.addr);
    forall y: nat | y < SETS ensures SetOk(t, y) {
      assert SetOk(s, y);
    }
  }

  // The line that comes in was in memory, the one that goes out has been stored.
  lemma RefillFlat(s: System, i: Input, n: nat)
    requires Inv(s) && InputOk(i) && Contract(s, i, false) && i.refresh && n < LINES
    ensures CacheOk(Cycle(s, i, false).c) && Flat(Cycle(s, i, false), n) == Flat(s, n)
  {
    hide WayTick, Tick, Inv;
    InvFacts(s);
    var x := IndexOf(i.addr);
    RefillTick(s, i);
    LineParts(i.addr);
    SetFacts(s, x);
    if n % 64 == x && WriteBack(s.c, i) && n == WLine(s.c, i) {
      StoredFacts(s);
    }
  }

  lemma InvFacts(s: System)
    requires Inv(s)
    ensures CacheOk(s.c) && |s.mem| == LINES && |s.recent| == SETS
  {
  }

  lemma SetFacts(s: System, x: nat)
    requires Inv(s) && x < SETS
    ensures CacheOk(s.c) && |s.recent| == SETS && SetOk(s, x)
  {
  }

  lemma StoredFacts(s: System)
    requires Inv(s) && s.stored
    ensures CacheOk(s.c) && s.seen.Some? && s.seen.value < SETS && VictimStored(s, s.seen.value)
  {
  }

  lemma HitKeeps(s: System, i: Input)
    requires Inv(s) && InputOk(i) && Contract(s, i, false) && Hits(s, i)
    ensures Inv(Cycle(s, i, false))
  {
    hide WayTick;
    var t, x := Cycle(s, i, false), IndexOf(i.addr);
    OneWay(s, i);
    QuietTick(s, i);
    forall y: nat | y < SETS ensures SetOk(t, y) {
      assert SetOk(s, y);
    }
  }

  // Waiting: nothing but the output registers and, by the bus, memory changes.
  lemma WaitKeeps(s: System, i: Input, wb: bool)
    requires Inv(s) && InputOk(i) && Contract(s, i, wb) && !i.refresh && WriteBack(s.c, i)
    ensures Inv(Cycle(s, i, wb))
    ensures wb ==> WLine(s.c, i) < |s.mem| && Words(OldLine(s.c)) == Victim(s.c, i).lines[IndexOf(i.addr)]
  {
    var t, x := Cycle(s, i, wb), IndexOf(i.addr);
    QuietTick(s, i);
    WayReadOut(s.c.w0, i, false, !s.c.lru[x]);
    WayReadOut(s.c.w1, i, false, s.c.lru[x]);
    hide WayTick;
    if wb {
      assert Words(OldLine(s.c)) == Victim(s.c, i).lines[x];
    }
    forall y: nat | y < SETS ensures SetOk(t, y) {
      assert SetOk(s, y);
    }
    assert SetOk(s, x);
  }

  // Neither hit nor write-back: only the output registers may change.
  lemma IdleKeeps(s: System, i: Input)
    requires Inv(s) && InputOk(i) && Contract(s, i, false) && !i.refresh && !WriteBack(s.c, i) && !Hits(s, i)
    ensures Inv(Cycle(s, i, false))
  {
    var t := Cycle(s, i, false);
    QuietTick(s, i);
    hide WayTick;
    forall y: nat | y < SETS ensures SetOk(t, y) {
      assert SetOk(s, y);
    }
  }

  // What the bus stores is a line the cache still holds.
  lemma WaitFlat(s: System, i: Input, n: nat)
    requires Inv(s) && InputOk(i) && Contract(s, i, true) && !i.refresh && n < LINES
    ensures CacheOk(Cycle(s, i, true).c) && |Cycle(s, i, true).mem| == LINES && Flat(Cycle(s, i, true), n) == Flat(s, n)
  {
    QuietTick(s, i);
    OneWay(s, i);
    SetFacts(s, IndexOf(i.addr));
    hide WayTick, Tick, Inv, Stored, Words;
    if n == WLine(s.c, i) {
      assert n % 64 == IndexOf(i.addr) && n / 64 == Victim(s.c, i).tags[IndexOf(i.addr)].tag;
    }
  }

  lemma AccessFlat(s: System, i: Input, n: nat)
    requires Inv(s) && InputOk(i) && Contract(s, i, false) && !i.refresh && n < LINES
    ensures CacheOk(Cycle(s, i, false).c) && |Cycle(s, i, false).mem| == LINES
    ensures Flat(Cycle(s, i, false), n) == Effect(s, i, n, Flat(s, n))
  {
    QuietTick(s, i);
    OneWay(s, i);
    LineParts(i.addr);
    SetFacts(s, n % 64);
    FlatLine(s, n);
    hide WayTick, Tick, Inv, Stored, Words, IsLine;
  }

  lemma FlatLine(s: System, n: nat)
    requires Inv(s) && n < LINES
    ensures IsLine(Flat(s, n))
  {
  }

  lemma QuietFlat(s: System, i: Input, wb: bool, n: nat)
    requires Inv(s) && InputOk(i) && Contract(s, i, wb) && !i.refresh && n < LINES
    ensures CacheOk(Cycle(s, i, wb).c) && |Cycle(s, i, wb).mem| == LINES
    ensures Flat(Cycle(s, i, wb), n) == Effect(s, i, n, Flat(s, n))
  {
    InvFacts(s);
    hide Inv, Cycle, Flat, Stored;
    if wb {
      WaitFlat(s, i, n);
    } else {
      AccessFlat(s, i, n);
    }
  }

  lemma Kept(s: System, i: Input, wb: bool)
    requires Inv(s) && InputOk(i) && Contract(s, i, wb)
    ensures Inv(Cycle(s, i, wb))
  {
    if i.refresh {
      RefillKeeps(s, i);
    } else if WriteBack(s.c, i) {
      WaitKeeps(s, i, wb);
    } else if Hits(s, i) {
      HitKeeps(s, i);
    } else {
      IdleKeeps(s, i);
    }
  }

  // One cycle of the cache is one step of a flat memory: a store that hits
  // changes the bytes it enables, nothing else changes any line.
  lemma CycleIsFlatStep(s: System, i: Input, wb: bool, n: nat)
    requires Inv(s) && InputOk(i) && Contract(s, i, wb) && n < LINES
    ensures Inv(Cycle(s, i, wb)) && Flat(Cycle(s, i, wb), n) == Effect(s, i, n, Flat(s, n))
  {
    Kept(s, i, wb);
    if i.refresh {
      RefillFlat(s, i, n);
      OneWay(s, i);
    } else {
      QuietFlat(s, i, wb, n);
    }
  }

  // A load that hits gets, one cycle later, the word of the flat memory.
  lemma LoadReturns(s: System, i: Input, wb: bool)
    requires Inv(s) && InputOk(i) && Contract(s, i, wb) && Hits(s, i) && i.we == NONE
    ensures Inv(Cycle(s, i, wb)) && ReadData(Cycle(s, i, wb).c) == Some(Flat(s, LineOf(i.addr))[BankOf(i.addr)])
  {
    Kept(s, i, wb);
    OneWay(s, i);
    LineParts(i.addr);
    WayAccess(s.c.w0, i, HitIn(s.c.w0, i), !s.c.lru[IndexOf(i.addr)]);
    WayAccess(s.c.w1, i, HitIn(s.c.w1, i), s.c.lru[IndexOf(i.addr)]);
    hide WayTick;
  }

  // ---------------------------------------------------------------- bytes

  // The byte at address x: byte x % 4 of word x / 4 % 16 of line x / 64
  ghost function ByteAt(s: System, x: nat): nat
    requires Inv(s) && x < LINES * 64
  {
    FlatLine(s, x / 64);
    Flat(s, x / 64)[x % 64 / 4][x % 4]
  }

  lemma MergeBytes(w: Word, d: Word, we: seq<bool>, k: nat)
    requires |w| == 4 && |d| == 4 && |we| == 4 && k < 4
    ensures Merge(w, d, we)[k] == if we[k] then d[k] else w[k]
  {
  }

  lemma ByteParts(x: nat, addr: nat)
    ensures x / 4 == addr / 4 <==> x / 64 == LineOf(addr) && x % 64 / 4 == BankOf(addr)
  {
    assert x / 4 == x / 64 * 16 + x % 64 / 4 && addr / 4 == addr / 64 * 16 + addr % 64 / 4;
  }

  // A store that hits changes the enabled bytes of its word; no other byte ever
  // changes.
  lemma StoreBytes(s: System, i: Input, wb: bool, x: nat)
    requires Inv(s) && InputOk(i) && Contract(s, i, wb) && x < LINES * 64
    ensures Inv(Cycle(s, i, wb))
    ensures ByteAt(Cycle(s, i, wb), x) ==
      if Hits(s, i) && x / 4 == i.addr / 4 && i.we[x % 4] then i.wdata[x % 4] else ByteAt(s, x)
  {
    InvFacts(s);
    hide Inv, Cycle, Flat, Contract, Hits, Merge, LineOf, BankOf;
    FlatLine(s, x / 64);
    CycleIsFlatStep(s, i, wb, x / 64);
    ByteParts(x, i.addr);
    if Hits(s, i) && x / 4 == i.addr / 4 {
      MergeBytes(Flat(s, x / 64)[x % 64 / 4], i.wdata, i.we, x % 4);
    }
  }

  // A load that hits returns, one cycle later, the four bytes of its word.
  lemma LoadBytes(s: System, i: Input, wb: bool, k: nat)
    requires Inv(s) && InputOk(i) && Contract(s, i, wb) && Hits(s, i) && i.we == NONE && k < 4
    ensures Inv(Cycle(s, i, wb)) && i.addr / 4 * 4 + k < LINES * 64
    ensures var r := ReadData(Cycle(s, i, wb).c);
            r.Some? && |r.value| == 4 && r.value[k] == ByteAt(s, i.addr / 4 * 4 + k)
  {
    InvFacts(s);
    hide Inv, Cycle, Flat, Contract, Hits;
    FlatLine(s, LineOf(i.addr));
    LoadReturns(s, i, wb);
    WordByte(i.addr, k);
  }

  lemma WordByte(addr: nat, k: nat)
    requires k < 4 && LineOf(addr) < LINES
    ensures var x := addr / 4 * 4 + k;
            x < LINES * 64 && x % 4 == k && x / 64 == LineOf(addr) && x % 64 / 4 == BankOf(addr)
  {
    var x := addr / 4 * 4 + k;
    assert x / 4 == addr / 4;
    ByteParts(x, addr);
  }

  // An access to the cache hits or waits; without one there is neither.
  lemma HitOrMiss(s: System, i: Input)
    requires Inv(s) && InputOk(i)
    ensures CacheOk(s.c) && (i.cached && i.en && !i.flush <==> Hits(s, i) || Miss(s.c, i))
    ensures !(Hits(s, i) && Miss(s.c, i))
  {
  }

  // The wait ends: after the refill every access to the line hits.
  lemma RefillThenHit(s: System, i: Input, j: Input)
    requires Inv(s) && InputOk(i) && Contract(s, i, false) && i.refresh
    requires InputOk(j) && j.cached && j.en && !j.flush && j.addr / 64 == i.addr / 64
    ensures Inv(Cycle(s, i, false)) && Hits(Cycle(s, i, false), j)
  {
    RefillKeeps(s, i);
    RefillTick(s, i);
    LineParts(i.addr);
    LineParts(j.addr);
    hide WayTick, Tick, Inv;
  }

  // ---------------------------------------------------------------- whole runs

  // After reset: no line is valid; memory holds anything.
  ghost predicate Init(s: System) {
    && CacheOk(s.c) && |s.mem| == LINES && |s.recent| == SETS
    && (forall n :: 0 <= n < LINES ==> IsLine(s.mem[n]))
    && (forall x :: 0 <= x < SETS ==>
          !s.c.w0.tags[x].valid && !s.c.w1.tags[x].valid && !s.c.lru[x] && s.recent[x] == None)
    && s.seen == None && !s.stored
  }

  ghost predicate StepOk(s: System, i: Input, wb: bool, s': System) {
    CacheOk(s.c) && |s.recent| == SETS && InputOk(i) && Contract(s, i, wb) && s' == Cycle(s, i, wb)
  }

  ghost predicate Run(ss: seq<System>, ins: seq<Input>, wbs: seq<bool>) {
    && |ss| == |ins| + 1 && |wbs| == |ins| && Init(ss[0])
    && forall t :: 0 <= t < |ins| ==> StepOk(ss[t], ins[t], wbs[t], ss[t + 1])
  }

  lemma {:induction false} RunInv(ss: seq<System>, ins: seq<Input>, wbs: seq<bool>, t: nat)
    requires Run(ss, ins, wbs) && t < |ss|
    ensures Inv(ss[t])
  {
    if t > 0 {
      RunInv(ss, ins, wbs, t - 1);
      assert StepOk(ss[t - 1], ins[t - 1], wbs[t - 1], ss[t - 1 + 1]);
      hide Inv, Cycle;
      Kept(ss[t - 1], ins[t - 1], wbs[t - 1]);
    }
  }

  ghost predicate Typed(ss: seq<System>, ins: seq<Input>) {
    |ss| == |ins| + 1 && forall k :: 0 <= k < |ins| ==> CacheOk(ss[k].c) && InputOk(ins[k])
  }

  lemma RunTyped(ss: seq<System>, ins: seq<Input>, wbs: seq<bool>)
    requires Run(ss, ins, wbs)
    ensures Typed(ss, ins) && |ss[0].mem| == LINES
  {
    forall k | 0 <= k < |ins| ensures CacheOk(ss[k].c) && InputOk(ins[k]) {
      assert StepOk(ss[k], ins[k], wbs[k], ss[k + 1]);
    }
  }

  // The byte at address x of a memory without a cache: the initial one, with the
  // enabled bytes of every store that the cache has acknowledged by a hit
  ghost function Memory(ss: seq<System>, ins: seq<Input>, x: nat, t: nat): nat
    requires Typed(ss, ins) && t <= |ins| && Inv(ss[0]) && x < LINES * 64
  {
    if t == 0 then ByteAt(ss[0], x)
    else
      var i := ins[t - 1];
      if Hits(ss[t - 1], i) && x / 4 == i.addr / 4 && i.we[x % 4] then i.wdata[x % 4] else Memory(ss, ins, x, t - 1)
  }

  // In every run the CPU sees that memory, byte for byte.
  lemma {:induction false} CacheRefinesMemory(ss: seq<System>, ins: seq<Input>, wbs: seq<bool>, x: nat, t: nat)
    requires Run(ss, ins, wbs) && t <= |ins| && x < LINES * 64
    ensures Inv(ss[0]) && Inv(ss[t]) && Typed(ss, ins) && IsLine(ss[0].mem[x / 64])
    ensures ByteAt(ss[0], x) == ss[0].mem[x / 64][x % 64 / 4][x % 4]
    ensures ByteAt(ss[t], x) == Memory(ss, ins, x, t)
  {
    RunInv(ss, ins, wbs, 0);
    RunInv(ss, ins, wbs, t);
    RunTyped(ss, ins, wbs);
    InitFlat(ss[0], x / 64);
    if t > 0 {
      CacheRefinesMemory(ss, ins, wbs, x, t - 1);
      assert StepOk(ss[t - 1], ins[t - 1], wbs[t - 1], ss[t - 1 + 1]);
      RunInv(ss, ins, wbs, t - 1);
      hide Run, Inv, Cycle, ByteAt, Hits;
      StoreBytes(ss[t - 1], ins[t - 1], wbs[t - 1], x);
    }
  }

  // In every run a load that hits returns, one cycle later, the four bytes of
  // that memory.
  lemma LoadsReadMemory(ss: seq<System>, ins: seq<Input>, wbs: seq<bool>, t: nat, k: nat)
    requires Run(ss, ins, wbs) && t < |ins| && k < 4
    ensures Inv(ss[0]) && Inv(ss[t]) && Inv(ss[t + 1]) && Typed(ss, ins) && ins[t].addr / 4 * 4 + k < LINES * 64
    ensures Hits(ss[t], ins[t]) && ins[t].we == NONE ==>
      var r := ReadData(ss[t + 1].c);
      r.Some? && |r.value| == 4 && r.value[k] == Memory(ss, ins, ins[t].addr / 4 * 4 + k, t)
  {
    RunInv(ss, ins, wbs, 0);
    RunInv(ss, ins, wbs, t);
    RunInv(ss, ins, wbs, t + 1);
    RunTyped(ss, ins, wbs);
    assert StepOk(ss[t], ins[t], wbs[t], ss[t + 1]);
    WordByte(ins[t].addr, k);
    hide Inv, Cycle, ByteAt, Memory, Hits;
    CacheRefinesMemory(ss, ins, wbs, ins[t].addr / 4 * 4 + k, t);
    if Hits(ss[t], ins[t]) && ins[t].we == NONE {
      hide Run;
      LoadBytes(ss[t], ins[t], wbs[t], k);
    }
  }

  lemma InitFlat(s: System, n: nat)
    requires Init(s) && n < LINES
    ensures Flat(s, n) == s.mem[n]
  {
  }

  // In every run no set holds a line twice; a stored victim goes to its own
  // line in memory; a refill replaces the way that was not used last.
  lemma VictimRules(ss: seq<System>, ins: seq<Input>, wbs: seq<bool>, t: nat)
    requires Run(ss, ins, wbs) && t < |ins|
    ensures CacheOk(ss[t].c) && |ss[t].recent| == SETS
    ensures var c, x := ss[t].c, IndexOf(ins[t].addr);
            && !(c.w0.tags[x].valid && c.w0.tags[x] == c.w1.tags[x])
            && (ins[t].refresh && ss[t].recent[x].Some? ==> ss[t].recent[x].value != c.lru[x])
            && (wbs[t] ==> Victim(c, ins[t]).tags[x].valid && WLine(c, ins[t]) < |ss[t].mem|
                           && ss[t + 1].mem == ss[t].mem[WLine(c, ins[t]) := Victim(c, ins[t]).lines[x]]
                           && WLine(c, ins[t]) / 64 == Victim(c, ins[t]).tags[x].tag && WLine(c, ins[t]) % 64 == x)
  {
    RunInv(ss, ins, wbs, t);
    assert StepOk(ss[t], ins[t], wbs[t], ss[t + 1]);
    SetFacts(ss[t], IndexOf(ins[t].addr));
    if wbs[t] {
      WaitKeeps(ss[t], ins[t], true);
    }
  }
}
