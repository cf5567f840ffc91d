/**
 Whole runs of the logging layer: any number of concurrent operations that
 begin, log blocks and end; group commit one disk write at a time; crashes at
 any moment, also during recovery; recovery one disk write at a time.

 The history of a run is kept beside the state: done holds the block updates
 of committed transactions, pending those logged since. The run theorem says
 that a disk always recovers to exactly the replay of done, that done never
 splits an operation, and that log space never runs out.
 */
module LogRun {
  import opened RedoLog

  datatype Event = Event(op: nat, bno: nat, data: Block)

  datatype Phase =
    | Running
    | Committing(k: nat, d0: Disk)   // k writes of commit() performed, from disk d0
    | Recovering(k: nat, d1: Disk)   // k writes of recover_from_log() performed
    | Panicked                       // end_op found log.committing set

  datatype State = State(
    disk: Disk,
    view: Disk,                  // contents seen through the buffer cache
    lh: seq<int>,                // log.lh
    ops: map<nat, set<nat>>,     // outstanding operations and the blocks each has logged
    nextOp: nat,
    phase: Phase,
    done: seq<Event>,
    pending: seq<Event>)

  // ---------------------------------------------------------------- history

  function Replay(d: Disk, es: seq<Event>): (r: Disk)
    requires forall e :: e in es ==> e.bno < |d|
    ensures |r| == |d|
  {
    if es == [] then d
    else
      var e := es[|es| - 1];
      assert e in es;
      Replay(d, es[..|es| - 1])[e.bno := e.data]
  }

  ghost predicate OnDisk(n: nat, l: Layout, es: seq<Event>) {
    forall e :: e in es ==> e.bno < n && !InLog(l, e.bno)
  }

  // ---------------------------------------------------------------- steps

  // log_write's absorption
  function Absorb(lh: seq<int>, b: nat): seq<int> {
    if b in lh then lh else lh + [b]
  }

  ghost predicate Begin(s: State, t: State) {
    && s.phase.Running?
    && |s.lh| + (|s.ops| + 1) * MAXOPBLOCKS <= LOGSIZE
    && t == s.(ops := s.ops[s.nextOp := {}], nextOp := s.nextOp + 1)
  }

  // The guard of log_write; otherwise it panics.
  predicate LogWriteAllowed(l: Layout, s: State) {
    |s.lh| < LOGSIZE && |s.lh| < l.size - 1 && |s.ops| >= 1
  }

  // An operation keeps to at most MAXOPBLOCKS distinct home blocks.
  ghost predicate Disciplined(l: Layout, s: State, op: nat, b: nat) {
    && op in s.ops
    && b < |s.disk| && !InLog(l, b)
    && |s.ops[op] + {b}| <= MAXOPBLOCKS
  }

  ghost predicate LogWrite(l: Layout, s: State, t: State, op: nat, b: nat, data: Block) {
    && Disciplined(l, s, op, b) && LogWriteAllowed(l, s)
    && b < |s.view|
    && t == s.(view := s.view[b := data], lh := Absorb(s.lh, b),
               ops := s.ops[op := s.ops[op] + {b}], pending := s.pending + [Event(op, b, data)])
  }

  // end_op, up to its panic or the point where commit() writes its first block
  ghost predicate End(s: State, t: State, op: nat) {
    && op in s.ops
    && var rest := s.ops - {op};
       t == s.(ops := rest,
               phase := if s.phase.Committing? then Panicked
                        else if s.phase.Running? && rest == map[] && s.lh != [] then Committing(0, s.disk)
                        else s.phase)
  }

  ghost predicate CommitStep(l: Layout, s: State, t: State) {
    && s.phase.Committing? && Committable(l, s.phase.d0, s.view, s.lh)
    && s.phase.k < 2 * |s.lh| + 2
    && var w := CommitWrites(l, s.phase.d0, s.view, s.lh)[s.phase.k];
       && w.bno < |s.disk|
       && var u := s.(disk := s.disk[w.bno := w.data], phase := Committing(s.phase.k + 1, s.phase.d0));
          t == if s.phase.k == |s.lh| then u.(done := s.done + s.pending, pending := []) else u
  }

  ghost predicate CommitReturn(s: State, t: State) {
    && s.phase.Committing? && s.phase.k == 2 * |s.lh| + 2
    && t == s.(lh := [], phase := Running)
  }

  // Power fails: memory is lost, the disk stays, and the machine boots.
  ghost predicate Crash(s: State, t: State) {
    t == s.(view := s.disk, lh := [], ops := map[], phase := Recovering(0, s.disk), pending := [])
  }

  ghost predicate RecoverWrite(l: Layout, s: State, t: State) {
    && s.phase.Recovering? && Sound(l, s.phase.d1)
    && s.phase.k < |RecoverWrites(l, s.phase.d1)|
    && var w := RecoverWrites(l, s.phase.d1)[s.phase.k];
       && w.bno < |s.disk|
       && t == s.(disk := s.disk[w.bno := w.data], phase := Recovering(s.phase.k + 1, s.phase.d1))
  }

  ghost predicate RecoverReturn(l: Layout, s: State, t: State) {
    && s.phase.Recovering? && Sound(l, s.phase.d1)
    && s.phase.k == |RecoverWrites(l, s.phase.d1)|
    && t == s.(view := s.disk, phase := Running)
  }

  ghost predicate Next(l: Layout, s: State, t: State) {
    || Begin(s, t)
    || (exists op, b, data :: LogWrite(l, s, t, op, b, data))
    || (exists op :: End(s, t, op))
    || CommitStep(l, s, t)
    || CommitReturn(s, t)
    || Crash(s, t)
    || RecoverWrite(l, s, t)
    || RecoverReturn(l, s, t)
  }

  // A machine that has just booted on a disk whose log is empty.
  ghost predicate Init(l: Layout, d: Disk, s: State) {
    && Sound(l, d) && Head(l, d) == []
    && s == State(d, d, [], map[], 0, Running, [], [])
  }

  // ---------------------------------------------------------------- invariant

  // Home blocks of d hold the replay of es over the initial disk.
  ghost predicate HomeIs(l: Layout, d: Disk, init: Disk, es: seq<Event>) {
    && |d| == |init| && OnDisk(|init|, l, es)
    && forall b :: 0 <= b < |d| && !InLog(l, b) ==> d[b] == Replay(init, es)[b]
  }

  ghost predicate DurableIs(l: Layout, d: Disk, init: Disk, es: seq<Event>) {
    && |d| == |init| && OnDisk(|init|, l, es) && Sound(l, d)
    && forall b :: 0 <= b < |d| && !InLog(l, b) ==> Durable(l, d, b) == Replay(init, es)[b]
  }

  // The disk recovers to the replay of done; memory holds the replay of
  // everything logged; the phase explains the disk.
  ghost predicate Contents(l: Layout, init: Disk, s: State) {
    && DurableIs(l, s.disk, init, s.done)
    && (!s.phase.Recovering? ==> HomeIs(l, s.view, init, s.done + s.pending))
    && match s.phase
       case Running => Committable(l, s.disk, s.view, s.lh)
       case Committing(k, d0) =>
         && Committable(l, d0, s.view, s.lh) && k <= 2 * |s.lh| + 2
         && s.disk == AfterCommit(l, d0, s.view, s.lh, k)
         && (k > |s.lh| ==> s.pending == [])
       case Recovering(k, d1) =>
         && Sound(l, d1) && k <= |RecoverWrites(l, d1)|
         && s.disk == AfterRecover(l, d1, k)
         && s.pending == [] && s.lh == []
       case Panicked => false
  }

  function Unused(blocks: set<nat>): int {
    MAXOPBLOCKS - |blocks|
  }

  // Log space promised to operations in progress and not yet taken.
  ghost function Reserved(ops: map<nat, set<nat>>): int
    decreases |ops|
  {
    if ops == map[] then 0
    else
      var op :| op in ops;
      Unused(ops[op]) + Reserved(ops - {op})
  }

  ghost predicate Admission(s: State) {
    && (forall op :: op in s.ops ==> |s.ops[op]| <= MAXOPBLOCKS && forall b :: b in s.ops[op] ==> b in s.lh)
    && |s.lh| + Reserved(s.ops) <= LOGSIZE
    && (!s.phase.Running? ==> s.ops == map[])
  }

  // Operations whose updates are committed are over for good.
  ghost predicate Whole(s: State) {
    && (forall op :: op in s.ops ==> op < s.nextOp)
    && (forall e :: e in s.done ==> e.op < s.nextOp && e.op !in s.ops)
    && (forall e :: e in s.pending ==> e.op < s.nextOp)
    && (forall e, f :: e in s.done && f in s.pending ==> e.op != f.op)
  }

  ghost predicate Inv(l: Layout, init: Disk, s: State) {
    Contents(l, init, s) && Admission(s) && Whole(s)
  }

  // ---------------------------------------------------------------- replay

  lemma ReplayAppend(l: Layout, d: Disk, es: seq<Event>, e: Event)
    requires OnDisk(|d|, l, es) && e.bno < |d|
    ensures Replay(d, es + [e]) == Replay(d, es)[e.bno := e.data]
  {
    assert (es + [e])[..|es|] == es;
  }

  lemma HomeAfterWrite(l: Layout, view: Disk, init: Disk, es: seq<Event>, e: Event)
    requires HomeIs(l, view, init, es) && e.bno < |view| && !InLog(l, e.bno)
    ensures HomeIs(l, view[e.bno := e.data], init, es + [e])
  {
    ReplayAppend(l, init, es, e);
  }

  // ---------------------------------------------------------------- reservations

  lemma {:induction false} ReservedRemove(ops: map<nat, set<nat>>, x: nat)
    requires x in ops
    ensures Reserved(ops) == Unused(ops[x]) + Reserved(ops - {x})
    decreases |ops|
  {
    var y :| y in ops && Reserved(ops) == Unused(ops[y]) + Reserved(ops - {y});
    if y != x {
      ReservedRemove(ops - {y}, x);
      ReservedRemove(ops - {x}, y);
      assert ops - {y} - {x} == ops - {x} - {y};
    }
  }

  lemma ReservedUpdate(ops: map<nat, set<nat>>, x: nat, v: set<nat>)
    ensures Reserved(ops[x := v]) == Unused(v) + Reserved(ops - {x})
  {
    ReservedRemove(ops[x := v], x);
    assert ops[x := v] - {x} == ops - {x};
  }

  lemma {:induction false} ReservedBound(ops: map<nat, set<nat>>)
    ensures Reserved(ops) <= |ops| * MAXOPBLOCKS
    ensures (forall op :: op in ops ==> |ops[op]| <= MAXOPBLOCKS) ==> Reserved(ops) >= 0
    decreases |ops|
  {
    if ops != map[] {
      var op :| op in ops;
      ReservedRemove(ops, op);
      ReservedBound(ops - {op});
      assert ops.Keys == (ops - {op}).Keys + {op};
    }
  }

  // ---------------------------------------------------------------- contents, step by step

  lemma ContentsInit(l: Layout, d: Disk, s: State)
    requires Init(l, d, s)
    ensures Contents(l, d, s)
  {
  }

  lemma ContentsLogWrite(l: Layout, init: Disk, s: State, t: State, op: nat, b: nat, data: Block)
    requires Contents(l, init, s) && Admission(s) && LogWrite(l, s, t, op, b, data)
    ensures Contents(l, init, t)
  {
    hide DurableIs, HomeIs, Sound, Head;
    var e := Event(op, b, data);
    assert t.done + t.pending == s.done + s.pending + [e];
    HomeSize(l, s.view, init, s.done + s.pending);
    HomeAfterWrite(l, s.view, init, s.done + s.pending, e);
    AbsorbValid(l, |s.disk|, s.lh, b);
  }

  lemma HomeSize(l: Layout, d: Disk, init: Disk, es: seq<Event>)
    requires HomeIs(l, d, init, es)
    ensures |d| == |init|
  {
  }

  lemma AbsorbValid(l: Layout, n: nat, lh: seq<int>, b: nat)
    requires ValidList(l, n, lh) && b < n && !InLog(l, b) && |lh| < LOGSIZE && |lh| < l.size - 1
    ensures ValidList(l, n, Absorb(lh, b)) && b in Absorb(lh, b)
    ensures forall x :: x in lh ==> x in Absorb(lh, b)
  {
  }

  lemma ContentsEnd(l: Layout, init: Disk, s: State, t: State, op: nat)
    requires Contents(l, init, s) && Admission(s) && End(s, t, op)
    ensures Contents(l, init, t)
  {
    hide DurableIs, HomeIs, Sound, Head, Committable;
    if t.phase.Committing? {
      assert CommitWrites(l, s.disk, s.view, s.lh)[..0] == [];
    }
  }

  lemma ContentsCommitStep(l: Layout, init: Disk, s: State, t: State)
    requires Contents(l, init, s) && CommitStep(l, s, t)
    ensures Contents(l, init, t)
  {
    hide Sound, Head, Committable, CommitWrites, Perform;
    var k, d0 := s.phase.k, s.phase.d0;
    PerformStep(d0, CommitWrites(l, d0, s.view, s.lh), k);
    CommitPoint(l, d0, s.view, s.lh, k);
    CommitPoint(l, d0, s.view, s.lh, k + 1);
    assert s.done + s.pending + [] == s.done + s.pending;
    if k > |s.lh| {
      assert s.done + s.pending == s.done;
    }
  }

  lemma ContentsCommitReturn(l: Layout, init: Disk, s: State, t: State)
    requires Contents(l, init, s) && CommitReturn(s, t)
    ensures Contents(l, init, t)
  {
    hide DurableIs, HomeIs, Head;
    CommitDone(l, s.phase.d0, s.view, s.lh);
  }

  lemma ContentsCrash(l: Layout, init: Disk, s: State, t: State)
    requires Contents(l, init, s) && Crash(s, t)
    ensures Contents(l, init, t)
  {
    hide Sound, Head, Committable;
    assert RecoverWrites(l, s.disk)[..0] == [];
  }

  lemma ContentsRecoverWrite(l: Layout, init: Disk, s: State, t: State)
    requires Contents(l, init, s) && RecoverWrite(l, s, t)
    ensures Contents(l, init, t)
  {
    hide Sound, Head, RecoverWrites, Perform;
    var k, d1 := s.phase.k, s.phase.d1;
    PerformStep(d1, RecoverWrites(l, d1), k);
    CrashInRecovery(l, d1, k);
    CrashInRecovery(l, d1, k + 1);
  }

  lemma ContentsRecoverReturn(l: Layout, init: Disk, s: State, t: State)
    requires Contents(l, init, s) && RecoverReturn(l, s, t)
    ensures Contents(l, init, t)
  {
    hide SoundHead, Head, RecoverWrites, Perform;
    RecoveryDone(l, s.phase.d1);
    assert s.done + s.pending == s.done;
  }

  lemma ContentsKept(l: Layout, init: Disk, s: State, t: State)
    requires Contents(l, init, s) && Admission(s) && Next(l, s, t)
    ensures Contents(l, init, t)
  {
    hide DurableIs, HomeIs, Sound, Head, Committable;
    if op, b, data :| LogWrite(l, s, t, op, b, data) {
      ContentsLogWrite(l, init, s, t, op, b, data);
    } else if op :| End(s, t, op) {
      ContentsEnd(l, init, s, t, op);
    } else if CommitStep(l, s, t) {
      ContentsCommitStep(l, init, s, t);
    } else if CommitReturn(s, t) {
      ContentsCommitReturn(l, init, s, t);
    } else if Crash(s, t) {
      ContentsCrash(l, init, s, t);
    } else if RecoverWrite(l, s, t) {
      ContentsRecoverWrite(l, init, s, t);
    } else if RecoverReturn(l, s, t) {
      ContentsRecoverReturn(l, init, s, t);
    }
  }

  // ---------------------------------------------------------------- admission

  lemma AdmissionKept(l: Layout, init: Disk, s: State, t: State)
    requires Contents(l, init, s) && Admission(s) && Whole(s) && Next(l, s, t)
    ensures Admission(t)
  {
    hide Contents;
    if Begin(s, t) {
      ReservedBound(s.ops);
      ReservedUpdate(s.ops, s.nextOp, {});
      assert s.ops - {s.nextOp} == s.ops;
    } else if op, b, data :| LogWrite(l, s, t, op, b, data) {
      AdmissionLogWrite(l, s, t, op, b, data);
    } else if op :| End(s, t, op) {
      ReservedRemove(s.ops, op);
    }
  }

  lemma AdmissionLogWrite(l: Layout, s: State, t: State, op: nat, b: nat, data: Block)
    requires Admission(s) && LogWrite(l, s, t, op, b, data)
    ensures Admission(t)
  {
    var blocks := s.ops[op];
    ReservedRemove(s.ops, op);
    ReservedUpdate(s.ops, op, blocks + {b});
    if b in blocks {
      assert blocks + {b} == blocks;
    } else {
      assert |blocks + {b}| == |blocks| + 1;
    }
    forall x | x in t.ops ensures forall c :: c in t.ops[x] ==> c in t.lh {
      assert forall c :: c in s.lh ==> c in Absorb(s.lh, b);
    }
  }

  lemma WholeKept(l: Layout, s: State, t: State)
    requires Admission(s) && Whole(s) && Next(l, s, t)
    ensures Whole(t)
  {
    if op, b, data :| LogWrite(l, s, t, op, b, data) {
      assert forall e :: e in t.pending ==> e in s.pending || e == Event(op, b, data);
    } else if CommitStep(l, s, t) {
      assert forall e :: e in s.done + s.pending ==> e in s.done || e in s.pending;
    }
  }

  // Every step of every run keeps the invariant.
  lemma InvKept(l: Layout, init: Disk, s: State, t: State)
    requires Inv(l, init, s) && Next(l, s, t)
    ensures Inv(l, init, t)
  {
    hide Contents, Admission, Whole, Next;
    ContentsKept(l, init, s, t);
    AdmissionKept(l, init, s, t);
    WholeKept(l, s, t);
  }

  // ---------------------------------------------------------------- runs

  ghost predicate Run(l: Layout, init: Disk, run: seq<State>) {
    && |run| > 0 && Init(l, init, run[0])
    && forall i :: 0 <= i < |run| - 1 ==> Next(l, run[i], run[i + 1])
  }

  lemma {:induction false} RunInv(l: Layout, init: Disk, run: seq<State>, i: nat)
    requires Run(l, init, run) && i < |run|
    ensures Inv(l, init, run[i])
  {
    hide Next, Inv;
    if i == 0 {
      InitInv(l, init, run[0]);
    } else {
      RunInv(l, init, run, i - 1);
      assert Next(l, run[i - 1], run[i - 1 + 1]);
      InvKept(l, init, run[i - 1], run[i]);
    }
  }

  lemma InitInv(l: Layout, d: Disk, s: State)
    requires Init(l, d, s)
    ensures Inv(l, d, s)
  {
    ContentsInit(l, d, s);
  }

  // Crash safety of whole runs: cut any run short at any state, let any number
  // of recoveries be cut short too; the recovery that completes leaves in the
  // home blocks exactly the updates of the committed transactions, in order.
  lemma RunCrashSafety(l: Layout, init: Disk, run: seq<State>, ks: seq<nat>, c: Disk)
    requires Run(l, init, run)
    requires CrashedRecoveries(l, run[|run| - 1].disk, ks, c)
    ensures Sound(l, c) && |c| == |init| && OnDisk(|init|, l, run[|run| - 1].done)
    ensures forall b :: 0 <= b < |c| && !InLog(l, b) ==>
      AfterRecover(l, c, |RecoverWrites(l, c)|)[b] == Replay(init, run[|run| - 1].done)[b]
  {
    RunInv(l, init, run, |run| - 1);
    RecoveryConverges(l, run[|run| - 1].disk, ks, c);
  }

  // Log space and operation atomicity in every reachable state: committing
  // implies nothing outstanding; a new block of an operation that stays within
  // MAXOPBLOCKS is refused exactly when the log on disk is full; committed
  // operations are over.
  lemma RunAdmission(l: Layout, init: Disk, run: seq<State>, i: nat, op: nat, b: nat)
    requires Run(l, init, run) && i < |run|
    ensures run[i].phase.Committing? ==> run[i].ops == map[]
    ensures |run[i].lh| + Reserved(run[i].ops) <= LOGSIZE
    ensures Disciplined(l, run[i], op, b) && b !in run[i].lh ==>
      |run[i].lh| < LOGSIZE && (LogWriteAllowed(l, run[i]) <==> |run[i].lh| < l.size - 1)
    ensures forall e :: e in run[i].done ==> e.op !in run[i].ops && forall f :: f in run[i].pending ==> e.op != f.op
  {
    RunInv(l, init, run, i);
    var s := run[i];
    if Disciplined(l, s, op, b) && b !in s.lh {
      ReservedRemove(s.ops, op);
      ReservedBound(s.ops - {op});
      assert b !in s.ops[op];
      assert |s.ops[op] + {b}| == |s.ops[op]| + 1;
      assert s.ops.Keys == (s.ops - {op}).Keys + {op};
    }
  }

  // ---------------------------------------------------------------- room for every new block

  // log_write would panic although the operation keeps to its share.
  ghost predicate Refused(l: Layout, s: State, op: nat, b: nat) {
    Disciplined(l, s, op, b) && !LogWriteAllowed(l, s)
  }

  ghost predicate HomeBlocks(l: Layout, n: nat, home: seq<nat>) {
    && (forall i :: 0 <= i < |home| ==> home[i] < n && !InLog(l, home[i]))
    && (forall i, j :: 0 <= i < j < |home| ==> home[i] != home[j])
  }

  // The blocks home[lo..hi]
  function Taken(home: seq<nat>, lo: nat, hi: nat): (r: set<nat>)
    requires lo <= hi <= |home|
    ensures |r| <= hi - lo
  {
    if lo == hi then {} else Taken(home, lo, hi - 1) + {home[hi - 1]}
  }

  function Cap(k: nat, m: nat): nat {
    if k < m then k else m
  }

  // Three operations have logged k blocks between them, each filling its share
  // before the next begins; no contents change.
  function FilledOps(home: seq<nat>, k: nat): map<nat, set<nat>>
    requires k <= |home|
  {
    map op: nat | 0 <= op < 3 :: Taken(home, Cap(k, op * MAXOPBLOCKS), Cap(k, op * MAXOPBLOCKS + MAXOPBLOCKS))
  }

  function FilledEvents(d: Disk, home: seq<nat>, k: nat): seq<Event>
    requires k <= |home| && forall i :: 0 <= i < k ==> home[i] < |d|
  {
    if k == 0 then [] else FilledEvents(d, home, k - 1) + [Event((k - 1) / MAXOPBLOCKS, home[k - 1], d[home[k - 1]])]
  }

  function Filled(d: Disk, home: seq<nat>, k: nat): State
    requires k <= |home| && forall i :: 0 <= i < k ==> home[i] < |d|
  {
    State(d, d, home[..k], FilledOps(home, k), 3, Running, [], FilledEvents(d, home, k))
  }

  // n operations have begun.
  function NoBlocks(n: nat): (ops: map<nat, set<nat>>)
    ensures |ops| == n && forall op: nat :: (op in ops <==> op < n) && (op in ops ==> ops[op] == {})
  {
    if n == 0 then map[] else
    var ops := NoBlocks(n - 1)[n - 1 := {}];
    assert ops.Keys == NoBlocks(n - 1).Keys + {n - 1};
    ops
  }

  function Begun(d: Disk, n: nat): State {
    State(d, d, [], NoBlocks(n), n, Running, [], [])
  }

  lemma OpsStep(home: seq<nat>, k: nat)
    requires k < |home| && k < LOGSIZE
    ensures var op := k / MAXOPBLOCKS;
            && op in FilledOps(home, k) && |FilledOps(home, k)[op] + {home[k]}| <= MAXOPBLOCKS
            && FilledOps(home, k + 1) == FilledOps(home, k)[op := FilledOps(home, k)[op] + {home[k]}]
  {
    var op := k / MAXOPBLOCKS;
    var lo := op * MAXOPBLOCKS;
    assert lo <= k < lo + MAXOPBLOCKS;
    assert FilledOps(home, k)[op] == Taken(home, lo, k);
    assert FilledOps(home, k + 1)[op] == Taken(home, lo, k + 1) == Taken(home, lo, k) + {home[k]};
    forall x: nat | x < 3 && x != op ensures FilledOps(home, k + 1)[x] == FilledOps(home, k)[x] {
      ShareApart(home, k, op, x);
    }
  }

  // The shares of the other operations are full or not begun.
  lemma ShareApart(home: seq<nat>, k: nat, op: nat, x: nat)
    requires k < |home| && op * MAXOPBLOCKS <= k < op * MAXOPBLOCKS + MAXOPBLOCKS && x != op
    ensures Taken(home, Cap(k + 1, x * MAXOPBLOCKS), Cap(k + 1, x * MAXOPBLOCKS + MAXOPBLOCKS))
         == Taken(home, Cap(k, x * MAXOPBLOCKS), Cap(k, x * MAXOPBLOCKS + MAXOPBLOCKS))
  {
    if x < op {
      assert x * MAXOPBLOCKS + MAXOPBLOCKS <= op * MAXOPBLOCKS;
    } else {
      assert x * MAXOPBLOCKS >= op * MAXOPBLOCKS + MAXOPBLOCKS;
    }
  }

  lemma FilledStep(l: Layout, d: Disk, home: seq<nat>, k: nat)
    requires HomeBlocks(l, |d|, home) && k < |home| && k < LOGSIZE && k < l.size - 1
    ensures Next(l, Filled(d, home, k), Filled(d, home, k + 1))
  {
    hide Next, FilledOps, Taken;
    var s, t, op, b := Filled(d, home, k), Filled(d, home, k + 1), k / MAXOPBLOCKS, home[k];
    OpsStep(home, k);
    ThreeOps(home, k);
    assert b !in home[..k];
    assert home[..k + 1] == home[..k] + [b];
    assert d[b := d[b]] == d;
    WriteIsNext(l, s, t, op, b, d[b]);
  }

  lemma ThreeOps(home: seq<nat>, k: nat)
    requires k <= |home|
    ensures 0 in FilledOps(home, k) && |FilledOps(home, k)| >= 1
  {
    assert 0 in FilledOps(home, k).Keys;
  }

  lemma WriteIsNext(l: Layout, s: State, t: State, op: nat, b: nat, data: Block)
    requires LogWrite(l, s, t, op, b, data)
    ensures Next(l, s, t)
  {
    hide LogWrite;
  }

  ghost predicate Reaches(l: Layout, d: Disk, run: seq<State>, s: State) {
    Run(l, d, run) && run[|run| - 1] == s
  }

  lemma RunExtend(l: Layout, d: Disk, run: seq<State>, s: State, t: State)
    requires Reaches(l, d, run, s) && Next(l, s, t)
    ensures Reaches(l, d, run + [t], t)
  {
    hide Next, Init;
    var r := run + [t];
    forall i | 0 <= i < |r| - 1 ensures Next(l, r[i], r[i + 1]) {
      if i < |run| - 1 {
        assert Next(l, run[i], run[i + 1]);
      }
    }
  }

  lemma {:induction false} BegunRun(l: Layout, d: Disk, n: nat) returns (run: seq<State>)
    requires Sound(l, d) && Head(l, d) == [] && n <= 3
    ensures Reaches(l, d, run, Begun(d, n))
  {
    if n == 0 {
      run := [Begun(d, 0)];
    } else {
      run := BegunRun(l, d, n - 1);
      assert Begin(Begun(d, n - 1), Begun(d, n));
      RunExtend(l, d, run, Begun(d, n - 1), Begun(d, n));
      run := run + [Begun(d, n)];
    }
  }

  lemma FilledBegins(d: Disk, home: seq<nat>)
    ensures Filled(d, home, 0) == Begun(d, 3)
  {
    assert FilledOps(home, 0) == NoBlocks(3);
    assert home[..0] == [];
  }

  lemma {:induction false} FilledRun(l: Layout, d: Disk, home: seq<nat>, k: nat) returns (run: seq<State>)
    requires Sound(l, d) && Head(l, d) == [] && HomeBlocks(l, |d|, home) && k <= |home| && k <= LOGSIZE
    requires k <= l.size - 1
    ensures Reaches(l, d, run, Filled(d, home, k))
  {
    hide Filled, Begun, Next, Reaches, Sound, Head;
    if k == 0 {
      run := BegunRun(l, d, 3);
      FilledBegins(d, home);
    } else {
      run := FilledRun(l, d, home, k - 1);
      FilledStep(l, d, home, k - 1);
      RunExtend(l, d, run, Filled(d, home, k - 1), Filled(d, home, k));
      run := run + [Filled(d, home, k)];
    }
  }

  // Reservation keeps every disciplined operation from the panic on a new block
  // exactly when the log area has LOGSIZE + 1 blocks, one more than mkfs gives it.
  lemma NewBlockRoom(l: Layout, d: Disk, home: seq<nat>)
    requires Sound(l, d) && Head(l, d) == [] && HomeBlocks(l, |d|, home) && |home| >= LOGSIZE
    ensures l.size >= LOGSIZE + 1 <==>
      forall run, s, op, b :: Reaches(l, d, run, s) && b !in s.lh ==> !Refused(l, s, op, b)
  {
    if l.size >= LOGSIZE + 1 {
      forall run, s, op, b | Reaches(l, d, run, s) && b !in s.lh ensures !Refused(l, s, op, b) {
        RunAdmission(l, d, run, |run| - 1, op, b);
      }
    } else {
      hide Reaches, Refused, Filled;
      var k := l.size - 1;
      var run := FilledRun(l, d, home, k);
      FilledRefused(l, d, home, k);
    }
  }

  lemma FilledRefused(l: Layout, d: Disk, home: seq<nat>, k: nat)
    requires HomeBlocks(l, |d|, home) && k < |home| && k < LOGSIZE && k == l.size - 1
    ensures Refused(l, Filled(d, home, k), k / MAXOPBLOCKS, home[k]) && home[k] !in Filled(d, home, k).lh
  {
    OpsStep(home, k);
    assert home[k] !in home[..k];
  }

  // A block that is logged already needs no room, but is refused all the same
  // when the log is full: however large the log area, some run gets there.
  lemma AbsorbedRefused(l: Layout, d: Disk, home: seq<nat>) returns (run: seq<State>, s: State)
    requires Sound(l, d) && Head(l, d) == [] && HomeBlocks(l, |d|, home) && |home| >= LOGSIZE && l.size >= LOGSIZE + 1
    ensures Reaches(l, d, run, s) && home[LOGSIZE - 1] in s.lh && Refused(l, s, 2, home[LOGSIZE - 1])
  {
    s := Filled(d, home, LOGSIZE);
    run := FilledRun(l, d, home, LOGSIZE);
    hide Reaches;
    OpsStep(home, LOGSIZE - 1);
    assert home[..LOGSIZE][LOGSIZE - 1] == home[LOGSIZE - 1];
    assert s.ops[2] + {home[LOGSIZE - 1]} == s.ops[2];
  }

  // ---------------------------------------------------------------- commits are undisturbed

  // While a commit is under way no operation is outstanding, so log_write and
  // end_op cannot happen.
  lemma HeaderStep(l: Layout, s: State, t: State)
    requires Next(l, s, t) && s.phase.Committing? && t.phase.Committing? && Admission(s)
    ensures t.lh == s.lh && t.view == s.view && t.ops == map[]
  {
  }

  // In every run the header list and the contents to be committed stay the same
  // from the first to the last write of a commit.
  lemma {:induction false} HeaderStable(l: Layout, init: Disk, run: seq<State>, i: nat, j: nat)
    requires Run(l, init, run) && i <= j < |run| && forall k :: i <= k <= j ==> run[k].phase.Committing?
    ensures run[j].lh == run[i].lh && run[j].view == run[i].view && run[j].ops == map[]
    decreases j
  {
    hide Next, Init, Inv, Admission;
    if i == j {
      RunInv(l, init, run, j);
      NoneOutstanding(l, init, run[j]);
    } else {
      HeaderStable(l, init, run, i, j - 1);
      RunInv(l, init, run, j - 1);
      NoneOutstanding(l, init, run[j - 1]);
      assert Next(l, run[j - 1], run[j - 1 + 1]);
      HeaderStep(l, run[j - 1], run[j]);
    }
  }

  lemma NoneOutstanding(l: Layout, init: Disk, s: State)
    requires Inv(l, init, s) && s.phase.Committing?
    ensures Admission(s) && s.ops == map[]
  {
  }

  // In every run end_op finds log.committing clear.
  lemma NoEndPanic(l: Layout, init: Disk, run: seq<State>, i: nat)
    requires Run(l, init, run) && i < |run|
    ensures !run[i].phase.Panicked?
  {
    RunInv(l, init, run, i);
  }

  // ---------------------------------------------------------------- durability

  // What was logged since the last commit is in the header list, and an idle
  // log has nothing left to commit.
  ghost predicate Settled(s: State) {
    && (s.lh == [] ==> s.pending == [])
    && (s.phase.Running? && s.ops == map[] ==> s.lh == [])
  }

  lemma SettledKept(l: Layout, init: Disk, s: State, t: State)
    requires Inv(l, init, s) && Settled(s) && Next(l, s, t)
    ensures Settled(t)
  {
    hide DurableIs, HomeIs, Committable, CommitWrites, RecoverWrites, Reserved, Whole;
    if Begin(s, t) {
      assert s.nextOp in t.ops;
    } else if op, b, data :| LogWrite(l, s, t, op, b, data) {
      assert t.lh != [] && op in t.ops;
    } else if op :| End(s, t, op) {
      assert t.lh == s.lh && t.pending == s.pending;
    } else if CommitStep(l, s, t) {
      assert t.lh == s.lh;
    }
  }

  // No step takes back a committed update, and only a crash loses a logged one.
  lemma HistoryGrows(l: Layout, s: State, t: State)
    requires Next(l, s, t)
    ensures s.done <= t.done
    ensures !Crash(s, t) ==> s.done + s.pending <= t.done + t.pending
  {
    if op, b, data :| LogWrite(l, s, t, op, b, data) {
      assert t.done + t.pending == s.done + s.pending + [Event(op, b, data)];
    }
  }

  // In every run: while no operation is outstanding and no commit is under way,
  // everything logged has been committed.
  lemma {:induction false} IdleCommitted(l: Layout, init: Disk, run: seq<State>, i: nat)
    requires Run(l, init, run) && i < |run|
    ensures Settled(run[i])
    ensures run[i].phase.Running? && run[i].ops == map[] ==> run[i].lh == [] && run[i].pending == []
  {
    hide Next, Inv;
    if i > 0 {
      IdleCommitted(l, init, run, i - 1);
      RunInv(l, init, run, i - 1);
      assert Next(l, run[i - 1], run[i - 1 + 1]);
      SettledKept(l, init, run[i - 1], run[i]);
    }
  }

  ghost predicate NoCrash(run: seq<State>, i: nat, j: nat)
    requires j < |run|
  {
    forall k :: i <= k < j ==> !Crash(run[k], run[k + 1])
  }

  lemma {:induction false} NothingLost(l: Layout, init: Disk, run: seq<State>, i: nat, j: nat)
    requires Run(l, init, run) && i <= j < |run|
    ensures run[i].done <= run[j].done
    ensures NoCrash(run, i, j) ==> run[i].done + run[i].pending <= run[j].done + run[j].pending
    decreases j
  {
    hide Next, Init, Crash;
    if i < j {
      NothingLost(l, init, run, i, j - 1);
      assert Next(l, run[j - 1], run[j - 1 + 1]);
      HistoryGrows(l, run[j - 1], run[j]);
    }
  }

  // Durability: what an operation logged at step j is committed, and from then
  // on for good, at the first moment without crash at which no operation is
  // outstanding and no commit under way. That is when the last end_op returns.
  lemma LoggedIsDurable(l: Layout, init: Disk, run: seq<State>, j: nat, i: nat, k: nat, op: nat, b: nat, data: Block)
    requires Run(l, init, run) && j < i <= k < |run| && LogWrite(l, run[j], run[j + 1], op, b, data)
    requires NoCrash(run, j + 1, i) && run[i].phase.Running? && run[i].ops == map[]
    ensures Event(op, b, data) in run[i].done && Event(op, b, data) in run[k].done
  {
    hide Run, NoCrash;
    var n := |run[j].done + run[j].pending|;
    assert (run[j + 1].done + run[j + 1].pending)[n] == Event(op, b, data);
    hide LogWrite;
    NothingLost(l, init, run, j + 1, i);
    NothingLost(l, init, run, i, k);
    IdleCommitted(l, init, run, i);
    assert run[i].done + run[i].pending == run[i].done;
    assert run[i].done[n] == Event(op, b, data);
    assert run[k].done[n] == Event(op, b, data);
  }

  lemma NewEvent(l: Layout, s: State, t: State, e: Event)
    requires Next(l, s, t) && e in t.done + t.pending && e !in s.done + s.pending
    ensures LogWrite(l, s, t, e.op, e.bno, e.data)
  {
    hide CommitWrites, RecoverWrites, Committable, Sound, Disciplined;
    assert t.done + t.pending != s.done + s.pending;
  }

  // Only what was logged is ever committed.
  lemma {:induction false} CommittedWasLogged(l: Layout, init: Disk, run: seq<State>, i: nat, e: Event) returns (j: nat)
    requires Run(l, init, run) && i < |run| && e in run[i].done + run[i].pending
    ensures j < i && LogWrite(l, run[j], run[j + 1], e.op, e.bno, e.data)
  {
    hide Next, LogWrite;
    assert i > 0;
    assert Next(l, run[i - 1], run[i - 1 + 1]);
    if e in run[i - 1].done + run[i - 1].pending {
      j := CommittedWasLogged(l, init, run, i - 1, e);
    } else {
      j := i - 1;
      NewEvent(l, run[j], run[i], e);
    }
  }

  // A commit that has started can always be finished, and ends as the single
  // writes say: everything logged is done.
  lemma {:induction false} CommitFinishes(l: Layout, init: Disk, s: State) returns (ss: seq<State>)
    requires Inv(l, init, s) && s.phase.Committing?
    ensures |ss| == 2 * |s.lh| + 4 - s.phase.k && ss[0] == s
    ensures forall i :: 0 <= i < |ss| - 1 ==> Next(l, ss[i], ss[i + 1])
    ensures Committable(l, s.phase.d0, s.view, s.lh)
    ensures var t := ss[|ss| - 1];
            t == s.(disk := AfterCommit(l, s.phase.d0, s.view, s.lh, 2 * |s.lh| + 2), lh := [], phase := Running,
                    done := s.done + s.pending, pending := [])
    decreases 2 * |s.lh| + 2 - s.phase.k
  {
    hide DurableIs, HomeIs, Admission, Whole, Committable, CommitWrites;
    var n, k, d0 := |s.lh|, s.phase.k, s.phase.d0;
    if k == 2 * n + 2 {
      var t := s.(lh := [], phase := Running);
      assert CommitReturn(s, t);
      assert s.done + s.pending == s.done;
      ss := [s, t];
    } else {
      var t := AfterWrite(l, init, s);
      InvKept(l, init, s, t);
      hide CommitStep, Next;
      var rest := CommitFinishes(l, init, t);
      assert s.done + s.pending + [] == s.done + s.pending;
      ss := [s] + rest;
    }
  }

  lemma AfterWrite(l: Layout, init: Disk, s: State) returns (t: State)
    requires Inv(l, init, s) && s.phase.Committing? && s.phase.k < 2 * |s.lh| + 2
    ensures CommitStep(l, s, t) && t.phase == Committing(s.phase.k + 1, s.phase.d0) && t.lh == s.lh && t.view == s.view
    ensures t.ops == s.ops && t.nextOp == s.nextOp && t.done + t.pending == s.done + s.pending
  {
    hide DurableIs, HomeIs, Admission, Whole, Perform;
    var w := CommitWrites(l, s.phase.d0, s.view, s.lh)[s.phase.k];
    assert w in CommitWrites(l, s.phase.d0, s.view, s.lh);
    var u := s.(disk := s.disk[w.bno := w.data], phase := Committing(s.phase.k + 1, s.phase.d0));
    t := if s.phase.k == |s.lh| then u.(done := s.done + s.pending, pending := []) else u;
  }

  // So can a recovery, and it ends with the committed updates in the home blocks
  // and the log empty.
  lemma {:induction false} RecoverFinishes(l: Layout, init: Disk, s: State) returns (ss: seq<State>)
    requires Inv(l, init, s) && s.phase.Recovering?
    ensures |ss| > 0 && ss[0] == s && forall i :: 0 <= i < |ss| - 1 ==> Next(l, ss[i], ss[i + 1])
    ensures var t := ss[|ss| - 1];
            && Inv(l, init, t) && t.phase.Running? && t.lh == [] && t.ops == map[] && t.pending == []
            && t.done == s.done && t.view == t.disk && Head(l, t.disk) == [] && HomeIs(l, t.disk, init, s.done)
    decreases if Sound(l, s.phase.d1) then |RecoverWrites(l, s.phase.d1)| + 1 - s.phase.k else 0
  {
    hide DurableIs, HomeIs, Admission, Whole, Perform;
    var k, d1 := s.phase.k, s.phase.d1;
    if k == |RecoverWrites(l, d1)| {
      var t := s.(view := s.disk, phase := Running);
      assert RecoverReturn(l, s, t);
      InvKept(l, init, s, t);
      RecoveryDone(l, d1);
      NoneLeft(s);
      assert t.done + t.pending == s.done;
      ss := [s, t];
    } else {
      var w := RecoverWrites(l, d1)[k];
      assert w in RecoverWrites(l, d1);
      var t := s.(disk := s.disk[w.bno := w.data], phase := Recovering(k + 1, d1));
      assert RecoverWrite(l, s, t);
      InvKept(l, init, s, t);
      hide RecoverWrite, Next, Inv, RecoverWrites;
      var rest := RecoverFinishes(l, init, t);
      ss := [s] + rest;
    }
  }

  lemma NoneLeft(s: State)
    requires Admission(s) && s.phase.Recovering?
    ensures s.ops == map[]
  {
  }
}
