/**
 Sleep/wakeup and the sleeplocks built on it (kernel/proc.c, kernel/sleeplock.c),
 as interleaved steps of any number of processes over any number of
 sleeplocks. A step is one critical section of a spinlock, or one statement
 where the order of two locks matters.
 */
module SleepLock {
  import opened Options

  // Where a process is in acquiresleep, sleep, releasesleep or wakeup.
  datatype Pc =
    | Out
    | Want(l: nat)            // acquire(&lk->lk) comes next, on entry or after sleep
    | Test(l: nat)            // while(lk->locked)
    | TakeOwn(l: nat)         // sleep: acquire(&p->lock)
    | DropSpin(l: nat)        // sleep: release(lk)
    | Doze(l: nat)            // sleep: p->chan = chan; p->state = SLEEPING
    | Switch(l: nat)          // sched: the scheduler will release p->lock
    | Asleep(l: nat)          // switched away
    | Tidy(l: nat)            // running again with p->lock: p->chan = 0
    | WantRelease(l: nat)     // releasesleep: acquire(&lk->lk)
    | Clear(l: nat)           // lk->locked = 0; lk->pid = 0
    | Scan(l: nat, k: nat)    // wakeup: process k is next
    | Leave(l: nat)           // release(&lk->lk)

  datatype Status = Running | Sleeping | Runnable

  // plock is p->lock while the process itself, or the scheduler on its behalf, has it.
  datatype Proc = Proc(pc: Pc, status: Status, chan: Option<nat>, plock: bool, holds: set<nat>)

  // spin is lk->lk, pid is lk->pid.
  datatype Lock = Lock(spin: Option<nat>, locked: bool, pid: Option<nat>)

  datatype State = State(procs: seq<Proc>, locks: seq<Lock>)

  datatype Action =
    | CallAcquire(l: nat) | CallRelease(l: nat) | Advance | Kill(k: nat)

  // ---------------------------------------------------------------- steps

  function SetProc(s: State, i: nat, p: Proc): State
    requires i < |s.procs|
  {
    s.(procs := s.procs[i := p])
  }

  function SetBoth(s: State, i: nat, p: Proc, l: nat, k: Lock): State
    requires i < |s.procs| && l < |s.locks|
  {
    State(s.procs[i := p], s.locks[l := k])
  }

  // The body of wakeup's loop: process k, under its p->lock.
  function WakeIfOn(p: Proc, l: nat): Proc {
    if p.status == Sleeping && p.chan == Some(l) then p.(status := Runnable) else p
  }

  // kill: wake whatever it sleeps on.
  function KillOne(p: Proc): Proc {
    if p.status == Sleeping then p.(status := Runnable) else p
  }

  ghost predicate AdvanceStep(s: State, s': State, i: nat)
    requires i < |s.procs|
  {
    var p := s.procs[i];
    match p.pc
    case Out => false
    case Want(l) =>
      l < |s.locks| && s.locks[l].spin == None
      && s' == SetBoth(s, i, p.(pc := Test(l)), l, s.locks[l].(spin := Some(i)))
    case Test(l) =>
      l < |s.locks|
      && s' == if s.locks[l].locked then SetProc(s, i, p.(pc := TakeOwn(l)))
               else SetBoth(s, i, p.(pc := Out, holds := p.holds + {l}), l, Lock(None, true, Some(i)))
    case TakeOwn(l) =>
      !p.plock && s' == SetProc(s, i, p.(pc := DropSpin(l), plock := true))
    case DropSpin(l) =>
      l < |s.locks| && s' == SetBoth(s, i, p.(pc := Doze(l)), l, s.locks[l].(spin := None))
    case Doze(l) =>
      s' == SetProc(s, i, p.(pc := Switch(l), status := Sleeping, chan := Some(l)))
    case Switch(l) =>
      s' == SetProc(s, i, p.(pc := Asleep(l), plock := false))
    case Asleep(l) =>
      p.status == Runnable && !p.plock && s' == SetProc(s, i, p.(pc := Tidy(l), plock := true, status := Running))
    case Tidy(l) =>
      s' == SetProc(s, i, p.(pc := Want(l), plock := false, chan := None))
    case WantRelease(l) =>
      l < |s.locks| && s.locks[l].spin == None
      && s' == SetBoth(s, i, p.(pc := Clear(l)), l, s.locks[l].(spin := Some(i)))
    case Clear(l) =>
      l < |s.locks|
      && s' == SetBoth(s, i, p.(pc := Scan(l, 0), holds := p.holds - {l}), l, s.locks[l].(locked := false, pid := None))
    case Scan(l, k) =>
      if k >= |s.procs| then s' == SetProc(s, i, p.(pc := Leave(l)))
      else if k == i then s' == SetProc(s, i, p.(pc := Scan(l, k + 1)))
      else !s.procs[k].plock && s' == SetProc(SetProc(s, k, WakeIfOn(s.procs[k], l)), i, p.(pc := Scan(l, k + 1)))
    case Leave(l) =>
      l < |s.locks| && s' == SetBoth(s, i, p.(pc := Out), l, s.locks[l].(spin := None))
  }

  ghost predicate Next(s: State, s': State, i: nat, a: Action) {
    && i < |s.procs|
    && match a
       case Advance => AdvanceStep(s, s', i)
       case CallAcquire(l) => s.procs[i].pc == Out && l < |s.locks| && s' == SetProc(s, i, s.procs[i].(pc := Want(l)))
       // brelse and iunlock panic unless the caller holds the lock
       case CallRelease(l) =>
         s.procs[i].pc == Out && l in s.procs[i].holds && s' == SetProc(s, i, s.procs[i].(pc := WantRelease(l)))
       case Kill(k) =>
         s.procs[i].pc == Out && k < |s.procs| && !s.procs[k].plock && s' == SetProc(s, k, KillOne(s.procs[k]))
  }

  ghost predicate Init(s: State) {
    && (forall i :: 0 <= i < |s.procs| ==> s.procs[i] == Proc(Out, Running, None, false, {}))
    && (forall l :: 0 <= l < |s.locks| ==> s.locks[l] == Lock(None, false, None))
  }

  // ---------------------------------------------------------------- invariant

  // The process holds lk->lk of this lock.
  predicate HasSpin(pc: Pc, l: nat) {
    || pc == Test(l) || pc == TakeOwn(l) || pc == DropSpin(l) || pc == Clear(l) || pc == Leave(l)
    || (pc.Scan? && pc.l == l)
  }

  predicate HasOwn(pc: Pc) {
    pc.DropSpin? || pc.Doze? || pc.Switch? || pc.Tidy?
  }

  // On its way to sleep on l past the point where lk->lk is given up, or asleep.
  predicate Committed(p: Proc, l: nat) {
    p.pc == Doze(l) || p.pc == Switch(l) || (p.pc == Asleep(l) && p.status == Sleeping)
  }

  // The holder of lk->lk is in wakeup and has not passed process i.
  ghost predicate StillToScan(s: State, l: nat, i: nat) {
    && l < |s.locks| && s.locks[l].spin.Some? && s.locks[l].spin.value < |s.procs|
    && s.procs[s.locks[l].spin.value].pc.Scan?
    && s.procs[s.locks[l].spin.value].pc.l == l && s.procs[s.locks[l].spin.value].pc.k <= i
  }

  ghost predicate ProcShape(p: Proc) {
    && (p.plock <==> HasOwn(p.pc))
    && (p.status == Sleeping ==> p.pc.Switch? || p.pc.Asleep?)
    && (p.pc.Switch? || p.pc.Asleep? ==> p.chan == Some(p.pc.l))
    && (p.chan.Some? ==> p.pc.Switch? || p.pc.Asleep? || p.pc.Tidy?)
    && (p.pc.Switch? ==> p.status == Sleeping)
    && (p.pc.Asleep? ==> p.status != Running)
    && (p.pc.WantRelease? || p.pc.Clear? ==> p.pc.l in p.holds)
  }

  ghost predicate ProcInv(s: State, i: nat)
    requires i < |s.procs|
  {
    var p := s.procs[i];
    && ProcShape(p)
    && (forall l: nat :: HasSpin(p.pc, l) ==> l < |s.locks| && s.locks[l].spin == Some(i))
    && (forall l: nat :: (p.pc == TakeOwn(l) || p.pc == DropSpin(l)) ==> l < |s.locks| && s.locks[l].locked)
    && (forall l: nat :: Committed(p, l) ==> l < |s.locks| && (s.locks[l].locked || StillToScan(s, l, i)))
    && (forall l :: l in p.holds ==> l < |s.locks| && s.locks[l].locked && s.locks[l].pid == Some(i))
  }

  ghost predicate LockInv(s: State, l: nat)
    requires l < |s.locks|
  {
    var k := s.locks[l];
    && (k.spin.Some? ==> k.spin.value < |s.procs| && HasSpin(s.procs[k.spin.value].pc, l))
    && (k.locked <==> k.pid.Some?)
    && (k.pid.Some? ==> k.pid.value < |s.procs| && l in s.procs[k.pid.value].holds)
  }

  ghost predicate Inv(s: State) {
    && (forall i: nat :: i < |s.procs| ==> ProcInv(s, i))
    && (forall l: nat :: l < |s.locks| ==> LockInv(s, l))
  }

  // ---------------------------------------------------------------- every step keeps it

  // A step of i on its own fields: no spinlock changes hands.
  lemma LocalKeeps(s: State, i: nat, p: Proc)
    requires Inv(s) && i < |s.procs| && ProcShape(p) && p.holds == s.procs[i].holds
    requires !s.procs[i].pc.Scan? && !p.pc.Scan? && forall l: nat :: HasSpin(p.pc, l) <==> HasSpin(s.procs[i].pc, l)
    requires forall l: nat ::
      p.pc == TakeOwn(l) || p.pc == DropSpin(l) || (Committed(p, l) && !Committed(s.procs[i], l)) ==>
      l < |s.locks| && s.locks[l].locked
    ensures Inv(SetProc(s, i, p))
  {
    var s' := SetProc(s, i, p);
    assert ProcInv(s, i);
    forall j: nat, l: nat | StillToScan(s, l, j) ensures StillToScan(s', l, j) {
    }
    forall j: nat | j < |s'.procs| ensures ProcInv(s', j) {
      assert ProcInv(s, j);
    }
    forall l: nat | l < |s'.locks| ensures LockInv(s', l) {
      assert LockInv(s, l);
    }
  }

  lemma SpinTaken(s: State, i: nat, p: Proc, l: nat)
    requires Inv(s) && i < |s.procs| && l < |s.locks| && s.locks[l].spin == None
    requires (s.procs[i].pc == Want(l) && p == s.procs[i].(pc := Test(l)))
          || (s.procs[i].pc == WantRelease(l) && p == s.procs[i].(pc := Clear(l)))
    ensures Inv(SetBoth(s, i, p, l, s.locks[l].(spin := Some(i))))
  {
    var s' := SetBoth(s, i, p, l, s.locks[l].(spin := Some(i)));
    assert ProcInv(s, i) && LockInv(s, l);
    forall j: nat, m: nat | StillToScan(s, m, j) ensures StillToScan(s', m, j) {
    }
    forall j: nat | j < |s'.procs| ensures ProcInv(s', j) {
      assert ProcInv(s, j);
    }
    forall m: nat | m < |s'.locks| ensures LockInv(s', m) {
      assert LockInv(s, m);
    }
  }

  lemma SpinDropped(s: State, i: nat, p: Proc, l: nat)
    requires Inv(s) && i < |s.procs| && l < |s.locks|
    requires (s.procs[i].pc == DropSpin(l) && p == s.procs[i].(pc := Doze(l)))
          || (s.procs[i].pc == Leave(l) && p == s.procs[i].(pc := Out))
    ensures Inv(SetBoth(s, i, p, l, s.locks[l].(spin := None)))
  {
    var s' := SetBoth(s, i, p, l, s.locks[l].(spin := None));
    assert ProcInv(s, i) && HasSpin(s.procs[i].pc, l);
    forall j: nat, m: nat | StillToScan(s, m, j) ensures StillToScan(s', m, j) {
    }
    forall j: nat | j < |s'.procs| ensures ProcInv(s', j) {
      assert ProcInv(s, j);
      forall m: nat | HasSpin(s'.procs[j].pc, m) ensures m < |s.locks| && s'.locks[m].spin == Some(j) {
        assert j == i || HasSpin(s.procs[j].pc, m);
      }
    }
    forall m: nat | m < |s'.locks| ensures LockInv(s', m) {
      assert LockInv(s, m);
    }
  }

  lemma TestFree(s: State, i: nat, l: nat)
    requires Inv(s) && i < |s.procs| && l < |s.locks| && s.procs[i].pc == Test(l) && !s.locks[l].locked
    ensures Inv(SetBoth(s, i, s.procs[i].(pc := Out, holds := s.procs[i].holds + {l}), l, Lock(None, true, Some(i))))
  {
    var s' := SetBoth(s, i, s.procs[i].(pc := Out, holds := s.procs[i].holds + {l}), l, Lock(None, true, Some(i)));
    assert ProcInv(s, i) && HasSpin(s.procs[i].pc, l) && LockInv(s, l);
    forall j: nat, m: nat | StillToScan(s, m, j) ensures StillToScan(s', m, j) {
    }
    forall j: nat | j < |s'.procs| ensures ProcInv(s', j) {
      assert ProcInv(s, j);
      forall m: nat | HasSpin(s'.procs[j].pc, m) ensures m < |s.locks| && s'.locks[m].spin == Some(j) {
        assert HasSpin(s.procs[j].pc, m);
      }
    }
    forall m: nat | m < |s'.locks| ensures LockInv(s', m) {
      assert LockInv(s, m);
    }
  }

  // lk->locked = 0: whoever sleeps on l is still to be scanned.
  lemma Cleared(s: State, i: nat, l: nat)
    requires Inv(s) && i < |s.procs| && l < |s.locks| && s.procs[i].pc == Clear(l)
    ensures Inv(SetBoth(s, i, s.procs[i].(pc := Scan(l, 0), holds := s.procs[i].holds - {l}), l,
                        s.locks[l].(locked := false, pid := None)))
  {
    var s' := SetBoth(s, i, s.procs[i].(pc := Scan(l, 0), holds := s.procs[i].holds - {l}), l,
                      s.locks[l].(locked := false, pid := None));
    assert ProcInv(s, i) && HasSpin(s.procs[i].pc, l);
    forall j: nat, m: nat | StillToScan(s, m, j) || m == l ensures StillToScan(s', m, j) {
    }
    forall j: nat | j < |s'.procs| ensures ProcInv(s', j) {
      assert ProcInv(s, j);
      forall m: nat | HasSpin(s'.procs[j].pc, m) ensures m < |s.locks| && s'.locks[m].spin == Some(j) {
        assert HasSpin(s.procs[j].pc, m);
      }
      forall m: nat | s'.procs[j].pc == TakeOwn(m) || s'.procs[j].pc == DropSpin(m)
        ensures m < |s.locks| && s'.locks[m].locked
      {
        assert HasSpin(s.procs[j].pc, m);
      }
    }
    forall m: nat | m < |s'.locks| ensures LockInv(s', m) {
      assert LockInv(s, m);
    }
  }

  // Process k has been looked at: it does not sleep on l.
  lemma Scanned(s: State, s': State, i: nat, l: nat, k: nat)
    requires Inv(s) && i < |s.procs| && k < |s.procs| && s.procs[i].pc == Scan(l, k) && (k != i ==> !s.procs[k].plock)
    requires s' == SetProc(if k == i then s else SetProc(s, k, WakeIfOn(s.procs[k], l)), i,
                           s.procs[i].(pc := Scan(l, k + 1)))
    ensures Inv(s')
  {
    assert ProcInv(s, i) && HasSpin(s.procs[i].pc, l) && ProcInv(s, k);
    forall j: nat, m: nat | StillToScan(s, m, j) && !(m == l && j == k) ensures StillToScan(s', m, j) {
    }
    forall j: nat | j < |s'.procs| ensures ProcInv(s', j) {
      assert ProcInv(s, j);
      forall m: nat | HasSpin(s'.procs[j].pc, m) ensures m < |s.locks| && s'.locks[m].spin == Some(j) {
        assert HasSpin(s.procs[j].pc, m);
      }
    }
    forall m: nat | m < |s'.locks| ensures LockInv(s', m) {
      assert LockInv(s, m);
    }
  }

  lemma ScanOver(s: State, i: nat, l: nat, k: nat)
    requires Inv(s) && i < |s.procs| && k >= |s.procs| && s.procs[i].pc == Scan(l, k)
    ensures Inv(SetProc(s, i, s.procs[i].(pc := Leave(l))))
  {
    var s' := SetProc(s, i, s.procs[i].(pc := Leave(l)));
    assert ProcInv(s, i) && HasSpin(s.procs[i].pc, l);
    forall j: nat, m: nat | j < |s.procs| && StillToScan(s, m, j) ensures StillToScan(s', m, j) {
    }
    forall j: nat | j < |s'.procs| ensures ProcInv(s', j) {
      assert ProcInv(s, j);
      forall m: nat | HasSpin(s'.procs[j].pc, m) ensures m < |s.locks| && s'.locks[m].spin == Some(j) {
        assert HasSpin(s.procs[j].pc, m);
      }
    }
    forall m: nat | m < |s'.locks| ensures LockInv(s', m) {
      assert LockInv(s, m);
    }
  }

  lemma AdvanceKeeps(s: State, s': State, i: nat)
    requires Inv(s) && i < |s.procs| && AdvanceStep(s, s', i)
    ensures Inv(s')
  {
    hide Inv, StillToScan;
    var p := s.procs[i];
    SpinFacts(s, i);
    match p.pc
    case Want(l) => SpinTaken(s, i, p.(pc := Test(l)), l);
    case Test(l) =>
      if s.locks[l].locked {
        LocalKeeps(s, i, p.(pc := TakeOwn(l)));
      } else {
        TestFree(s, i, l);
      }
    case TakeOwn(l) => LocalKeeps(s, i, s'.procs[i]);
    case DropSpin(l) => SpinDropped(s, i, p.(pc := Doze(l)), l);
    case Doze(l) => LocalKeeps(s, i, s'.procs[i]);
    case Switch(l) => LocalKeeps(s, i, s'.procs[i]);
    case Asleep(l) => LocalKeeps(s, i, s'.procs[i]);
    case Tidy(l) => LocalKeeps(s, i, s'.procs[i]);
    case WantRelease(l) => SpinTaken(s, i, p.(pc := Clear(l)), l);
    case Clear(l) => Cleared(s, i, l);
    case Scan(l, k) =>
      if k >= |s.procs| {
        ScanOver(s, i, l, k);
      } else {
        Scanned(s, s', i, l, k);
      }
    case Leave(l) => SpinDropped(s, i, p.(pc := Out), l);
  }

  lemma SpinFacts(s: State, i: nat)
    requires Inv(s) && i < |s.procs|
    ensures ProcShape(s.procs[i])
    ensures forall l: nat :: s.procs[i].pc == TakeOwn(l) || s.procs[i].pc == DropSpin(l) ==>
      l < |s.locks| && s.locks[l].locked
  {
    assert ProcInv(s, i);
  }

  lemma Kept(s: State, s': State, i: nat, a: Action)
    requires Inv(s) && Next(s, s', i, a)
    ensures Inv(s')
  {
    hide Inv, StillToScan;
    SpinFacts(s, i);
    match a
    case Advance => AdvanceKeeps(s, s', i);
    case CallAcquire(l) => LocalKeeps(s, i, s'.procs[i]);
    case CallRelease(l) => LocalKeeps(s, i, s'.procs[i]);
    case Kill(k) =>
      SpinFacts(s, k);
      if s.procs[k].status == Sleeping {
        LocalKeeps(s, k, KillOne(s.procs[k]));
      } else {
        assert s.procs[k := s.procs[k]] == s.procs;
      }
  }

  // ---------------------------------------------------------------- whole runs

  ghost predicate Run(ss: seq<State>, who: seq<nat>, acts: seq<Action>) {
    && |ss| == |who| + 1 && |acts| == |who|
    && Init(ss[0])
    && forall t :: 0 <= t < |who| ==> Next(ss[t], ss[t + 1], who[t], acts[t])
  }

  lemma {:induction false} RunInv(ss: seq<State>, who: seq<nat>, acts: seq<Action>, t: nat)
    requires Run(ss, who, acts) && t < |ss|
    ensures Inv(ss[t])
  {
    if t > 0 {
      RunInv(ss, who, acts, t - 1);
      assert Next(ss[t - 1], ss[t - 1 + 1], who[t - 1], acts[t - 1]);
      Kept(ss[t - 1], ss[t], who[t - 1], acts[t - 1]);
    } else {
      InitInv(ss[0]);
    }
  }

  lemma InitInv(s: State)
    requires Init(s)
    ensures Inv(s)
  {
  }

  // In every run at most one process holds a sleeplock, and holdingsleep tells
  // the holder from everyone else.
  lemma MutualExclusion(ss: seq<State>, who: seq<nat>, acts: seq<Action>, t: nat, l: nat, i: nat, j: nat)
    requires Run(ss, who, acts) && t < |ss| && i < |ss[t].procs| && j < |ss[t].procs| && l < |ss[t].locks|
    ensures l in ss[t].procs[i].holds && l in ss[t].procs[j].holds ==> i == j
    ensures HoldingSleep(ss[t], l, i) <==> l in ss[t].procs[i].holds
    ensures !ss[t].locks[l].locked ==> l !in ss[t].procs[i].holds
  {
    RunInv(ss, who, acts, t);
    assert ProcInv(ss[t], i) && ProcInv(ss[t], j) && LockInv(ss[t], l);
  }

  // holdingsleep, called by process i
  predicate HoldingSleep(s: State, l: nat, i: nat)
    requires l < |s.locks|
  {
    s.locks[l].locked && s.locks[l].pid == Some(i)
  }

  // No lost wakeup: in every run a process that sleeps on a free sleeplock is
  // still ahead of the one that holds lk->lk and is waking; with lk->lk free
  // there is none. And sleep never waits for its own p->lock.
  lemma NoLostWakeup(ss: seq<State>, who: seq<nat>, acts: seq<Action>, t: nat, l: nat, i: nat)
    requires Run(ss, who, acts) && t < |ss| && i < |ss[t].procs| && l < |ss[t].locks|
    ensures var s := ss[t];
            s.procs[i].status == Sleeping && s.procs[i].chan == Some(l) && !s.locks[l].locked ==>
              s.locks[l].spin.Some? && StillToScan(s, l, i)
    ensures ss[t].procs[i].pc.TakeOwn? ==> !ss[t].procs[i].plock
  {
    RunInv(ss, who, acts, t);
    assert ProcInv(ss[t], i);
    var p := ss[t].procs[i];
    if p.status == Sleeping && p.chan == Some(l) {
      assert Committed(p, l);
    }
  }

  // wakeup and kill, as seen by process j
  lemma SleeperSteps(s: State, s': State, i: nat, a: Action, j: nat)
    requires Next(s, s', i, a) && j < |s.procs| && s.procs[j].status == Sleeping && ProcShape(s.procs[j])
    ensures |s'.procs| == |s.procs|
    ensures var woken := a == Kill(j) ||
                         (a == Advance && s.procs[i].pc.Scan? && s.procs[i].pc.k == j && i != j
                          && s.procs[j].chan == Some(s.procs[i].pc.l));
            s'.procs[j].status == (if woken then Runnable else Sleeping) && s'.procs[j].chan == s.procs[j].chan
  {
  }

  // In every run a sleeping process is woken exactly when kill is called for it
  // or a wakeup on the channel it sleeps on comes to it.
  lemma WokenExactly(ss: seq<State>, who: seq<nat>, acts: seq<Action>, t: nat, j: nat)
    requires Run(ss, who, acts) && t < |who| && j < |ss[t].procs| && ss[t].procs[j].status == Sleeping
    ensures who[t] < |ss[t].procs| == |ss[t + 1].procs|
    ensures var p := ss[t].procs[who[t]];
            ss[t + 1].procs[j].status != Sleeping <==>
              || acts[t] == Kill(j)
              || (acts[t] == Advance && p.pc.Scan? && p.pc.k == j && ss[t].procs[j].chan == Some(p.pc.l))
  {
    RunInv(ss, who, acts, t);
    assert ProcInv(ss[t], j) && Next(ss[t], ss[t + 1], who[t], acts[t]);
    hide Inv;
    SleeperSteps(ss[t], ss[t + 1], who[t], acts[t], j);
  }

  // In every run acquiresleep takes the lock exactly when it finds it free, and
  // releasesleep gives it up.
  lemma TakenWhenFree(ss: seq<State>, who: seq<nat>, acts: seq<Action>, t: nat, l: nat)
    requires Run(ss, who, acts) && t < |who| && acts[t] == Advance && who[t] < |ss[t].procs| && l < |ss[t].locks|
    requires ss[t].procs[who[t]].pc == Test(l)
    ensures who[t] < |ss[t + 1].procs| && l < |ss[t + 1].locks|
    ensures l !in ss[t].procs[who[t]].holds || ss[t].locks[l].locked
    ensures l in ss[t + 1].procs[who[t]].holds && ss[t + 1].procs[who[t]].pc == Out <==> !ss[t].locks[l].locked
    ensures ss[t + 1].locks[l].locked
  {
    RunInv(ss, who, acts, t);
    assert ProcInv(ss[t], who[t]) && Next(ss[t], ss[t + 1], who[t], acts[t]);
  }

  // ---------------------------------------------------------------- nobody is stuck

  // What a process has to wait for: lk->lk of its lock, the p->lock of the process
  // that wakeup has come to, or being woken.
  ghost predicate Waits(s: State, i: nat)
    requires i < |s.procs|
  {
    match s.procs[i].pc
    case Want(l) => l < |s.locks| && s.locks[l].spin.Some?
    case WantRelease(l) => l < |s.locks| && s.locks[l].spin.Some?
    case Scan(_, k) => k < |s.procs| && k != i && s.procs[k].plock
    case Asleep(_) => s.procs[i].status == Sleeping
    case _ => false
  }

  ghost predicate LocksExist(s: State, i: nat)
    requires i < |s.procs|
  {
    s.procs[i].pc != Out ==> s.procs[i].pc.l < |s.locks|
  }

  lemma {:induction false} RunLocks(ss: seq<State>, who: seq<nat>, acts: seq<Action>, t: nat, i: nat)
    requires Run(ss, who, acts) && t < |ss| && i < |ss[t].procs|
    ensures LocksExist(ss[t], i)
    decreases t
  {
    if t > 0 {
      assert Next(ss[t - 1], ss[t - 1 + 1], who[t - 1], acts[t - 1]);
      RunInv(ss, who, acts, t - 1);
      hide Run, Inv, LocksExist;
      LocksStep(ss[t - 1], ss[t], who[t - 1], acts[t - 1]);
      RunLocks(ss, who, acts, t - 1, i);
      if i != who[t - 1] {
        RunLocks(ss, who, acts, t - 1, who[t - 1]);
      }
      LocksKept(ss[t - 1], ss[t], who[t - 1], acts[t - 1], i);
    }
  }

  lemma LocksStep(s: State, s': State, i: nat, a: Action)
    requires Next(s, s', i, a)
    ensures |s'.procs| == |s.procs| && |s'.locks| == |s.locks|
  {
  }

  lemma LocksKept(s: State, s': State, i: nat, a: Action, j: nat)
    requires Inv(s) && Next(s, s', i, a) && j < |s.procs| == |s'.procs| && LocksExist(s, j) && LocksExist(s, i)
    requires |s'.locks| == |s.locks|
    ensures LocksExist(s', j)
  {
    if a.CallRelease? {
      assert ProcInv(s, i);
    }
    hide Inv;
  }

  // In every run a process inside acquiresleep or releasesleep can always take its
  // next step, unless it waits for a spinlock that another holds or is asleep.
  lemma NeverStuck(ss: seq<State>, who: seq<nat>, acts: seq<Action>, t: nat, i: nat) returns (s': State)
    requires Run(ss, who, acts) && t < |ss| && i < |ss[t].procs| && ss[t].procs[i].pc != Out
    requires !Waits(ss[t], i)
    ensures Next(ss[t], s', i, Advance)
  {
    RunInv(ss, who, acts, t);
    RunLocks(ss, who, acts, t, i);
    var s, p := ss[t], ss[t].procs[i];
    assert ProcInv(s, i);
    hide Run, Inv;
    match p.pc
    case Want(l) => s' := SetBoth(s, i, p.(pc := Test(l)), l, s.locks[l].(spin := Some(i)));
    case Test(l) =>
      s' := if s.locks[l].locked then SetProc(s, i, p.(pc := TakeOwn(l)))
            else SetBoth(s, i, p.(pc := Out, holds := p.holds + {l}), l, Lock(None, true, Some(i)));
    case TakeOwn(l) => s' := SetProc(s, i, p.(pc := DropSpin(l), plock := true));
    case DropSpin(l) => s' := SetBoth(s, i, p.(pc := Doze(l)), l, s.locks[l].(spin := None));
    case Doze(l) => s' := SetProc(s, i, p.(pc := Switch(l), status := Sleeping, chan := Some(l)));
    case Switch(l) => s' := SetProc(s, i, p.(pc := Asleep(l), plock := false));
    case Asleep(l) => s' := SetProc(s, i, p.(pc := Tidy(l), plock := true, status := Running));
    case Tidy(l) => s' := SetProc(s, i, p.(pc := Want(l), plock := false, chan := None));
    case WantRelease(l) => s' := SetBoth(s, i, p.(pc := Clear(l)), l, s.locks[l].(spin := Some(i)));
    case Clear(l) =>
      s' := SetBoth(s, i, p.(pc := Scan(l, 0), holds := p.holds - {l}), l, s.locks[l].(locked := false, pid := None));
    case Scan(l, k) =>
      s' := if k >= |s.procs| then SetProc(s, i, p.(pc := Leave(l)))
            else if k == i then SetProc(s, i, p.(pc := Scan(l, k + 1)))
            else SetProc(SetProc(s, k, WakeIfOn(s.procs[k], l)), i, p.(pc := Scan(l, k + 1)));
    case Leave(l) => s' := SetBoth(s, i, p.(pc := Out), l, s.locks[l].(spin := None));
  }

  // In every run releasesleep gets done: each of its steps brings it nearer.
  function ToGo(pc: Pc, n: nat): nat {
    match pc
    case WantRelease(_) => n + 4
    case Clear(_) => n + 3
    case Scan(_, k) => if k <= n then n - k + 2 else 2
    case Leave(_) => 1
    case _ => 0
  }

  lemma ReleaseEnds(s: State, s': State, i: nat)
    requires Next(s, s', i, Advance) && ToGo(s.procs[i].pc, |s.procs|) > 0
    ensures |s'.procs| == |s.procs| && ToGo(s'.procs[i].pc, |s.procs|) < ToGo(s.procs[i].pc, |s.procs|)
    ensures ToGo(s'.procs[i].pc, |s.procs|) == 0 ==> s'.procs[i].pc == Out
  {
  }
}
