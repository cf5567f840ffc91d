/**
 The calls of kernel/log.c make the runs of LogRun: begin_op, the update of a
 block through log_write, and end_op with its commit, each on the in-memory log
 of any reachable state of any run.
 */
module LogCalls {
  import opened RedoLog
  import opened BufferCache
  import opened TransactionLog
  import L = LogRun

  // What the file system sees through the cache is what the run says; the cached
  // copies of log blocks are nobody's business.
  ghost predicate SameHome(l: Layout, v: Disk, w: Disk) {
    |v| == |w| && forall b :: 0 <= b < |v| && !InLog(l, b) ==> v[b] == w[b]
  }

  // The log is the one of state s of a run, between calls.
  ghost predicate In(log: Log, l: Layout, init: Disk, s: L.State)
    reads log, log.cache
  {
    && L.Inv(l, init, s) && s.phase.Running? && log.layout == l
    && log.Valid() && PinnedAt(log.cache.buf, log.cache.pins, log.Lh(), log.at)
    && log.cache.disk == s.disk && SameHome(l, log.cache.view, s.view)
    && log.Lh() == s.lh && log.outstanding == |s.ops| && !log.committing
  }

  // begin_op is admitted exactly when a run may begin an operation.
  method BeginOp(log: Log, ghost l: Layout, ghost init: Disk, ghost s: L.State) returns (ok: bool, ghost s': L.State)
    requires In(log, l, init, s)
    modifies log`outstanding
    ensures In(log, l, init, s')
    ensures ok ==> L.Begin(s, s')
    ensures !ok ==> s' == s && forall t :: !L.Begin(s, t)
  {
    hide L.Inv, Cache.Valid, Cache.Coherent, ValidList, PinnedAt, SameHome;
    ok := log.BeginOp();
    s' := s;
    if ok {
      s' := s.(ops := s.ops[s.nextOp := {}], nextOp := s.nextOp + 1);
      NewOp(l, init, s);
      L.InvKept(l, init, s, s');
    }
  }

  lemma NewOp(l: Layout, init: Disk, s: L.State)
    requires L.Inv(l, init, s)
    ensures |s.ops[s.nextOp := {}]| == |s.ops| + 1
  {
    assert s.nextOp !in s.ops;
    assert s.ops[s.nextOp := {}].Keys == s.ops.Keys + {s.nextOp};
  }

  lemma Logged(l: Layout, init: Disk, s: L.State, op: nat, b: nat, data: Block) returns (t: L.State)
    requires L.Inv(l, init, s) && L.Disciplined(l, s, op, b) && L.LogWriteAllowed(l, s) && s.phase.Running?
    ensures L.LogWrite(l, s, t, op, b, data) && L.Inv(l, init, t)
    ensures b < |s.view| && t.view == s.view[b := data] && t.lh == L.Absorb(s.lh, b) && |t.ops| == |s.ops|
    ensures t.phase == s.phase && t.disk == s.disk
  {
    assert |s.view| == |s.disk|;
    hide L.Inv;
    t := s.(view := s.view[b := data], lh := L.Absorb(s.lh, b), ops := s.ops[op := s.ops[op] + {b}],
            pending := s.pending + [L.Event(op, b, data)]);
    assert t.ops.Keys == s.ops.Keys;
    assert L.LogWrite(l, s, t, op, b, data);
    L.InvKept(l, init, s, t);
  }

  // The documented use of log_write, when it need not wait and is not refused
  method Update(log: Log, b: nat, data: Block, ghost l: Layout, ghost init: Disk, ghost s: L.State, ghost op: nat)
    returns (r: Update, ghost s': L.State)
    requires In(log, l, init, s) && L.Disciplined(l, s, op, b)
    modifies log`n, log`block, log`at, log.cache
    ensures r.Done? ==> L.LogWrite(l, s, s', op, b, data) && In(log, l, init, s')
    ensures r.Asleep? || r.NoBuffer? ==> s' == s && In(log, l, init, s')
    ensures r.TooBig? ==> !L.LogWriteAllowed(l, s)
  {
    hide L.Inv, Cache.Valid, Cache.Coherent, ValidList, PinnedAt, L.LogWrite, Released, Caches;
    r := log.UpdateBlock(b, data);
    s' := s;
    if r.Done? {
      s' := Logged(l, init, s, op, b, data);
    }
  }

  // A sequence of steps from s to t
  ghost predicate Steps(l: Layout, ss: seq<L.State>, s: L.State, t: L.State) {
    && |ss| > 0 && ss[0] == s && ss[|ss| - 1] == t
    && forall i :: 0 <= i < |ss| - 1 ==> L.Next(l, ss[i], ss[i + 1])
  }

  // The state behind end_op's first step
  lemma Ended(l: Layout, init: Disk, s: L.State, op: nat) returns (t: L.State)
    requires L.Inv(l, init, s) && L.Settled(s) && s.phase.Running? && op in s.ops
    ensures L.End(s, t, op) && L.Next(l, s, t) && L.Inv(l, init, t) && L.Settled(t) && |t.ops| == |s.ops| - 1
    ensures t.disk == s.disk && t.view == s.view && t.lh == s.lh && t.done == s.done && t.pending == s.pending
    ensures t.phase == if |s.ops| == 1 && s.lh != [] then L.Committing(0, s.disk) else L.Running
  {
    var rest := s.ops - {op};
    assert s.ops.Keys == rest.Keys + {op};
    assert |rest| == |s.ops| - 1 && (rest == map[] <==> |rest| == 0);
    t := s.(ops := rest, phase := if rest == map[] && s.lh != [] then L.Committing(0, s.disk) else s.phase);
    hide L.Inv, L.Settled;
    assert L.End(s, t, op);
    L.InvKept(l, init, s, t);
    L.SettledKept(l, init, s, t);
  }

  lemma {:induction false} StepsKeep(l: Layout, init: Disk, ss: seq<L.State>, s: L.State, t: L.State)
    requires L.Inv(l, init, s) && L.Settled(s) && Steps(l, ss, s, t)
    ensures L.Inv(l, init, t) && L.Settled(t)
    decreases |ss|
  {
    hide L.Inv, L.Settled, L.Next;
    if |ss| > 1 {
      var u := ss[|ss| - 2];
      StepsKeep(l, init, ss[..|ss| - 1], s, u);
      assert L.Next(l, ss[|ss| - 2], ss[|ss| - 2 + 1]);
      L.InvKept(l, init, u, t);
      L.SettledKept(l, init, u, t);
    }
  }

  // The run behind the last end_op: its first step to t, then the whole commit.
  lemma CommitRun(l: Layout, init: Disk, s: L.State, t: L.State) returns (u: L.State, ss: seq<L.State>)
    requires L.Next(l, s, t) && L.Inv(l, init, t) && L.Settled(t) && t.phase == L.Committing(0, t.disk)
    ensures Committable(l, t.disk, t.view, t.lh)
    ensures u == t.(disk := AfterCommit(l, t.disk, t.view, t.lh, 2 * |t.lh| + 2), lh := [], phase := L.Running,
                    done := t.done + t.pending, pending := [])
    ensures Steps(l, ss, s, u) && |ss| > 1 && ss[0] == s && ss[1] == t && L.Inv(l, init, u) && L.Settled(u)
  {
    hide L.Inv, L.Settled, L.Next, Committable;
    var rest := L.CommitFinishes(l, init, t);
    u := rest[|rest| - 1];
    StepsKeep(l, init, rest, t, u);
    ss := [s] + rest;
    forall i | 0 <= i < |ss| - 1 ensures L.Next(l, ss[i], ss[i + 1]) {
      if i > 0 {
        assert L.Next(l, rest[i - 1], rest[i - 1 + 1]);
      }
    }
  }

  // The writes of a commit depend on the home blocks only.
  lemma SameCommit(l: Layout, d: Disk, v: Disk, w: Disk, lh: seq<int>, k: nat)
    requires Committable(l, d, v, lh) && Committable(l, d, w, lh) && SameHome(l, v, w) && k <= 2 * |lh| + 2
    ensures AfterCommit(l, d, v, lh, k) == AfterCommit(l, d, w, lh, k)
  {
    hide Sound, Head, PutHead;
    assert CommitWrites(l, d, v, lh) == CommitWrites(l, d, w, lh);
  }

  lemma AllOps(l: Layout, init: Disk, s: L.State)
    requires L.Inv(l, init, s) && s.phase.Running?
    ensures Committable(l, s.disk, s.view, s.lh) && Sound(l, s.disk) && Head(l, s.disk) == []
  {
  }

  lemma HomeStays(l: Layout, v: Disk, v0: Disk, w: Disk)
    requires SameHome(l, v0, w) && |v| == |v0| && forall b :: 0 <= b < |v| && !InLog(l, b) ==> v[b] == v0[b]
    ensures SameHome(l, v, w)
  {
  }

  // end_op of an operation that is not the last
  method EndOne(log: Log, ghost l: Layout, ghost init: Disk, ghost s: L.State, ghost op: nat)
    returns (ok: bool, ghost s': L.State)
    requires In(log, l, init, s) && L.Settled(s) && op in s.ops && log.outstanding > 1
    modifies log`outstanding, log`committing, log`n, log`at, log.cache
    ensures ok && In(log, l, init, s') && L.Settled(s') && L.End(s, s', op)
    ensures log.outstanding == old(log.outstanding) - 1
  {
    hide L.Inv, Cache.Valid, Cache.Coherent, ValidList, PinnedAt, L.End, L.Settled, SameHome, L.Next;
    hide Committable, Sound, Head, Log.Steady, CommitProgress;
    s' := Ended(l, init, s, op);
    ok := log.EndOp();
  }

  // end_op of the last operation, when its commit need not wait
  method EndLast(log: Log, ghost l: Layout, ghost init: Disk, ghost s: L.State, ghost op: nat)
    returns (ok: bool, ghost s': L.State, ghost ss: seq<L.State>)
    requires In(log, l, init, s) && L.Settled(s) && op in s.ops && log.outstanding == 1 && log.Steady(0)
    modifies log`outstanding, log`committing, log`n, log`at, log.cache
    ensures ok && In(log, l, init, s') && L.Settled(s') && Steps(l, ss, s, s')
    ensures |ss| > 1 && L.End(ss[0], ss[1], op) && log.outstanding == 0
    ensures s'.done == s.done + s.pending && s'.pending == [] && s'.lh == []
  {
    hide L.Inv, Cache.Valid, Cache.Coherent, ValidList, PinnedAt, Committable, Sound, Head, Undisturbed;
    hide L.End, AfterCommit, SameHome, L.Settled, Steps, Spare, CommitWrites;
    s', ss := LastEnded(l, init, s, op);
    ghost var v0, lh := log.cache.view, log.Lh();
    AllOps(l, init, s);
    ok := log.EndOp();
    assert log.Lh() == [] && log.Lh()[0..] == log.Lh() && log.at[0..] == log.at;
    HomeStays(l, log.cache.view, v0, s.view);
    if lh != [] {
      SameCommit(l, s.disk, v0, s.view, lh, 2 * |lh| + 2);
    }
  }

  lemma OneStep(l: Layout, s: L.State, t: L.State)
    requires L.Next(l, s, t)
    ensures Steps(l, [s, t], s, t)
  {
    hide L.Next;
  }

  lemma NothingPending(s: L.State)
    requires L.Settled(s)
    ensures s.lh == [] ==> s.pending == []
  {
  }

  // What the last end_op does to the run
  lemma LastEnded(l: Layout, init: Disk, s: L.State, op: nat) returns (u: L.State, ss: seq<L.State>)
    requires L.Inv(l, init, s) && L.Settled(s) && s.phase.Running? && op in s.ops && |s.ops| == 1
    ensures L.Inv(l, init, u) && L.Settled(u) && Steps(l, ss, s, u) && |ss| > 1 && ss[0] == s && L.End(s, ss[1], op)
    ensures u.phase.Running? && u.view == s.view && |u.ops| == 0
    ensures u.done == s.done + s.pending && u.pending == [] && u.lh == []
    ensures Committable(l, s.disk, s.view, s.lh)
    ensures u.disk == if s.lh == [] then s.disk else AfterCommit(l, s.disk, s.view, s.lh, 2 * |s.lh| + 2)
  {
    hide L.Inv, Committable, L.End, L.Next, AfterCommit, L.Settled, Steps;
    NothingPending(s);
    AllOps(l, init, s);
    var t := Ended(l, init, s, op);
    if s.lh == [] {
      u, ss := t, [s, t];
      OneStep(l, s, t);
      assert s.done + [] == s.done;
    } else {
      u, ss := CommitRun(l, init, s, t);
    }
  }

  // end_op: the run ends the operation and, with the last one, commits write by
  // write; when that returns everything logged so far is committed.
  method EndOp(log: Log, ghost l: Layout, ghost init: Disk, ghost s: L.State, ghost op: nat)
    returns (ok: bool, ghost s': L.State, ghost ss: seq<L.State>)
    requires In(log, l, init, s) && L.Settled(s) && op in s.ops && (log.outstanding == 1 ==> log.Steady(0))
    modifies log`outstanding, log`committing, log`n, log`at, log.cache
    ensures ok && In(log, l, init, s') && L.Settled(s') && Steps(l, ss, s, s')
    ensures |ss| > 1 && L.End(ss[0], ss[1], op)
    ensures log.outstanding == 0 ==> s'.done == s.done + s.pending && s'.pending == [] && s'.lh == []
  {
    assert op in s.ops.Keys;
    hide L.Inv, Log.Valid, PinnedAt, L.End, L.Settled, SameHome, L.Next, Undisturbed;
    if log.outstanding == 1 {
      ok, s', ss := EndLast(log, l, init, s, op);
    } else {
      ok, s' := EndOne(log, l, init, s, op);
      ss := [s, s'];
      EndIsNext(l, s, s', op);
    }
  }

  lemma EndIsNext(l: Layout, s: L.State, t: L.State, op: nat)
    requires L.End(s, t, op)
    ensures L.Next(l, s, t)
  {
  }
}
