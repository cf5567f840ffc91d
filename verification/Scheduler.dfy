/**
 scheduler, sched, yield, sleep and the other users of p->lock (kernel/proc.c)
 as interleaved steps of any number of CPUs over any number of processes.

 swtch(old, new) is two steps: it saves the running thread's continuation in
 old, then continues with the one in new. A continuation says which thread it
 is; once loaded it is stale until the next save.

 acquire and release count the spinlocks a CPU holds in noff and keep its
 interrupts off meanwhile (push_off and pop_off, kernel/spinlock.c).
 */
module Scheduler {
  import opened Options

  datatype ProcState = UNUSED | USED | SLEEPING | RUNNABLE | RUNNING | ZOMBIE

  datatype Context =
    | Stale
    | InProcess(p: nat)              // in p, after its call of swtch (or at forkret)
    | InScheduler(c: nat, p: nat)    // in CPU c's scheduler loop, after switching to p

  // How far a thread of process p has got with its own p->lock.
  datatype Point =
    | Arrived     // just switched to, p->lock still held from the scheduler
    | Free        // p->lock released: kernel or user code
    | Locked      // acquire(&p->lock) in yield, sleep or exit
    | Changed     // p->state set, sched() comes next

  datatype Mode =
    | Scanning(k: nat)              // scheduler: acquire(&p->lock) comes next
    | Checking(k: nat)              // holds p->lock, p->state == RUNNABLE?
    | Entering(p: nat)              // swtch(&c->context, &p->context), first half
    | Loading(p: nat)               // second half
    | Thread(p: nat, at: Point)
    | Saving(p: nat)                // swtch(&p->context, &c->context), first half
    | Returning(p: nat)             // second half
    | Back(p: nat)                  // scheduler: c->proc = 0; release(&p->lock)
    | SchedLocks(p: nat)            // sched panicked: noff != 1
    | Lost                          // a stale context was loaded, or another panic

  // intr says whether interrupts are on.
  datatype Cpu = Cpu(mode: Mode, proc: Option<nat>, context: Context, noff: nat, intr: bool, intena: bool)

  // lock is the CPU that holds p->lock.
  datatype Proc = Proc(state: ProcState, lock: Option<nat>, context: Context)

  datatype State = State(cpus: seq<Cpu>, procs: seq<Proc>)

  // What a running thread may do next.
  datatype Action =
    | Advance
    | GiveUp(to: ProcState)                   // yield, sleep, exit: the new p->state
    | Touch(q: nat, to: ProcState)            // another process, under its p->lock
    | Acquire                                 // some other spinlock
    | Release
    | Interrupts(on: bool)                    // intr_on, intr_off

  // ---------------------------------------------------------------- steps

  function Set(s: State, c: nat, cpu: Cpu, p: nat, proc: Proc): State
    requires c < |s.cpus| && p < |s.procs|
  {
    State(s.cpus[c := cpu], s.procs[p := proc])
  }

  function SetCpu(s: State, c: nat, cpu: Cpu): State
    requires c < |s.cpus|
  {
    s.(cpus := s.cpus[c := cpu])
  }

  // acquire, and then mode m
  function PushOff(u: Cpu, m: Mode): Cpu {
    u.(mode := m, noff := u.noff + 1, intr := false, intena := if u.noff == 0 then u.intr else u.intena)
  }

  // release, and then mode m; the panics of pop_off
  function PopOff(u: Cpu, m: Mode): Cpu {
    if u.intr || u.noff < 1 then u.(mode := Lost)
    else u.(mode := m, noff := u.noff - 1, intr := u.noff == 1 && u.intena)
  }

  // CPU c takes the lock of process p, and then mode m. acquire waits for
  // another CPU's release and panics when this CPU holds the lock.
  ghost predicate Locks(s: State, s': State, c: nat, p: nat, m: Mode)
    requires c < |s.cpus| && p < |s.procs|
  {
    if s.procs[p].lock == Some(c) then s' == SetCpu(s, c, s.cpus[c].(mode := Lost))
    else s.procs[p].lock == None && s' == Set(s, c, PushOff(s.cpus[c], m), p, s.procs[p].(lock := Some(c)))
  }

  // CPU u, which is c, releases the lock of p, and then mode m. release panics
  // when this CPU does not hold the lock.
  function Unlocked(s: State, c: nat, u: Cpu, p: nat, m: Mode): State
    requires c < |s.cpus| && p < |s.procs|
  {
    if s.procs[p].lock != Some(c) then SetCpu(s, c, u.(mode := Lost))
    else Set(s, c, PopOff(u, m), p, s.procs[p].(lock := None))
  }

  // sched's checks, in its order
  function Sched(u: Cpu, c: nat, p: nat, proc: Proc): Mode {
    if proc.lock != Some(c) then Lost
    else if u.noff != 1 then SchedLocks(p)
    else if proc.state == RUNNING || u.intr then Lost
    else Saving(p)
  }

  function Resumed(x: Context): Mode {
    match x
    case InProcess(p) => Thread(p, Arrived)
    case InScheduler(_, p) => Back(p)
    case Stale => Lost
  }

  // wakeup and kill; allocproc, fork and its failure; wait's freeproc
  predicate Touches(x: ProcState, y: ProcState) {
    || (x == SLEEPING && y == RUNNABLE)
    || (x == UNUSED && y == USED) || (x == USED && y == RUNNABLE) || (x == USED && y == UNUSED)
    || (x == ZOMBIE && y == UNUSED)
  }

  ghost predicate AdvanceStep(s: State, s': State, c: nat)
    requires c < |s.cpus|
  {
    var u := s.cpus[c];
    match u.mode
    case Scanning(k) =>
      if k >= |s.procs| then s' == SetCpu(s, c, u.(mode := Scanning(0), intr := true))
      else Locks(s, s', c, k, Checking(k))
    case Checking(k) =>
      k < |s.procs|
      && s' == if s.procs[k].state == RUNNABLE
               then Set(s, c, u.(mode := Entering(k), proc := Some(k)), k, s.procs[k].(state := RUNNING))
               else Unlocked(s, c, u, k, Scanning(k + 1))
    case Entering(p) =>
      s' == SetCpu(s, c, u.(mode := Loading(p), context := InScheduler(c, p)))
    case Loading(p) =>
      // whatever p->context says is what runs next on this CPU
      p < |s.procs| && s' == Set(s, c, u.(mode := Resumed(s.procs[p].context)), p, s.procs[p].(context := Stale))
    case Thread(p, Arrived) =>
      // sched sets intena to what this thread had; at forkret it stays
      p < |s.procs| && exists b: bool :: s' == Unlocked(s, c, u.(intena := b), p, Thread(p, Free))
    case Thread(p, Free) =>
      p < |s.procs| && Locks(s, s', c, p, Thread(p, Locked))
    case Thread(p, Locked) => false
    case Thread(p, Changed) =>
      p < |s.procs| && s' == SetCpu(s, c, u.(mode := Sched(u, c, p, s.procs[p])))
    case Saving(p) =>
      p < |s.procs| && s' == Set(s, c, u.(mode := Returning(p)), p, s.procs[p].(context := InProcess(p)))
    case Returning(p) =>
      s' == SetCpu(s, c, u.(mode := Resumed(u.context), context := Stale))
    case Back(p) =>
      p < |s.procs| && s' == Unlocked(s, c, u.(proc := None), p, Scanning(p + 1))
    case SchedLocks(_) => false
    case Lost => false
  }

  ghost predicate Next(s: State, s': State, c: nat, a: Action) {
    && c < |s.cpus|
    && match a
       case Advance => AdvanceStep(s, s', c)
       case GiveUp(to) =>
         && s.cpus[c].mode.Thread? && s.cpus[c].mode.at == Locked && s.cpus[c].mode.p < |s.procs|
         && (to == RUNNABLE || to == SLEEPING || to == ZOMBIE)
         && var p := s.cpus[c].mode.p;
            s' == Set(s, c, s.cpus[c].(mode := Thread(p, Changed)), p, s.procs[p].(state := to))
       case Touch(q, to) =>
         // by a thread, or by an interrupt handler; a CPU without a process has those too
         && (s.cpus[c].mode.Scanning? || (s.cpus[c].mode.Thread? && s.cpus[c].mode.at == Free))
         && q < |s.procs| && s.procs[q].lock == None && Touches(s.procs[q].state, to)
         && s' == SetState(s, q, to)
       case Acquire =>
         && s.cpus[c].mode.Thread? && s.cpus[c].mode.at == Free
         && s' == SetCpu(s, c, PushOff(s.cpus[c], s.cpus[c].mode))
       case Release =>
         && s.cpus[c].mode.Thread? && Others(s.cpus[c]) > 0
         && s' == SetCpu(s, c, PopOff(s.cpus[c], s.cpus[c].mode))
       case Interrupts(on) =>
         && s.cpus[c].mode.Thread? && s.cpus[c].mode.at == Free && s.cpus[c].noff == 0
         && s' == SetCpu(s, c, s.cpus[c].(intr := on))
  }

  function SetState(s: State, q: nat, to: ProcState): State
    requires q < |s.procs|
  {
    var x := if to == USED then InProcess(q) else s.procs[q].context;
    s.(procs := s.procs[q := s.procs[q].(state := to, context := x)])
  }

  // The spinlocks the CPU holds besides the lock of its process
  function Others(u: Cpu): int {
    if Holds(u.mode).Some? then u.noff - 1 else u.noff
  }

  ghost predicate Init(s: State) {
    && (forall c :: 0 <= c < |s.cpus| ==>
          var u := s.cpus[c]; u.mode == Scanning(0) && u.proc == None && u.context == Stale && u.noff == 0)
    && (forall p :: 0 <= p < |s.procs| ==> s.procs[p].lock == None)
    // userinit has made the first process RUNNABLE at forkret
    && (forall p: nat :: p < |s.procs| ==>
          s.procs[p].state == UNUSED || (p == 0 && s.procs[p].state == RUNNABLE && s.procs[p].context == InProcess(p)))
  }

  // ---------------------------------------------------------------- invariant

  // The process whose thread, or whose switch, CPU c is executing.
  function Engaged(m: Mode): Option<nat> {
    match m
    case Scanning(_) => None
    case Checking(_) => None
    case Entering(p) => Some(p)
    case Loading(p) => Some(p)
    case Thread(p, _) => Some(p)
    case Saving(p) => Some(p)
    case Returning(p) => Some(p)
    case Back(p) => Some(p)
    case SchedLocks(p) => Some(p)
    case Lost => None
  }

  // The process whose p->lock CPU c holds.
  function Holds(m: Mode): Option<nat> {
    match m
    case Scanning(_) => None
    case Checking(k) => Some(k)
    case Thread(p, at) => if at == Free then None else Some(p)
    case _ => Engaged(m)
  }

  ghost predicate CpuInv(s: State, c: nat)
    requires c < |s.cpus|
  {
    var u := s.cpus[c];
    && !u.mode.Lost?
    && (Engaged(u.mode).Some? ==> Engaged(u.mode).value < |s.procs|)
    && (Holds(u.mode).Some? ==> Holds(u.mode).value < |s.procs| && s.procs[Holds(u.mode).value].lock == Some(c))
    && u.proc == Engaged(u.mode)
    && (u.noff > 0 ==> !u.intr) && Counted(u)
    && (u.mode.Thread? || u.mode.Saving? || u.mode.Returning? || u.mode.Loading? ==>
          u.context == InScheduler(c, Engaged(u.mode).value))
    && match u.mode
       case Entering(p) => s.procs[p].state == RUNNING && s.procs[p].context == InProcess(p)
       case Loading(p) => s.procs[p].state == RUNNING && s.procs[p].context == InProcess(p)
       case Thread(p, at) => at != Changed <==> s.procs[p].state == RUNNING
       case Saving(p) => s.procs[p].state != RUNNING
       case Returning(p) => s.procs[p].state != RUNNING && s.procs[p].context == InProcess(p)
       case Back(p) => s.procs[p].state != RUNNING && s.procs[p].context == InProcess(p)
       case _ => true
  }

  // A thread may hold other spinlocks, but not while it switches; the scheduler
  // holds none.
  predicate Counted(u: Cpu) {
    && Others(u) >= 0
    && (u.mode.SchedLocks? ==> Others(u) > 0)
    && (Others(u) > 0 ==> u.mode.SchedLocks? || (u.mode.Thread? && u.mode.at != Arrived))
  }

  // A process that may be resumed and is in nobody's hands has its context saved.
  ghost predicate ProcInv(s: State, p: nat)
    requires p < |s.procs|
  {
    var q := s.procs[p];
    && (q.lock.Some? ==> q.lock.value < |s.cpus| && Holds(s.cpus[q.lock.value].mode) == Some(p))
    && (q.lock == None && (q.state == RUNNABLE || q.state == SLEEPING || q.state == USED) ==> q.context == InProcess(p))
    && (q.lock.Some? && s.cpus[q.lock.value].mode == Checking(p)
          && (q.state == RUNNABLE || q.state == SLEEPING || q.state == USED) ==>
          q.context == InProcess(p))
  }

  ghost predicate Inv(s: State) {
    && (forall c: nat :: c < |s.cpus| ==> CpuInv(s, c))
    && (forall p: nat :: p < |s.procs| ==> ProcInv(s, p))
    && (forall c: nat, d: nat :: c < |s.cpus| && d < |s.cpus| && c != d && Engaged(s.cpus[c].mode).Some? ==>
          Engaged(s.cpus[c].mode) != Engaged(s.cpus[d].mode))
  }

  // ---------------------------------------------------------------- every step keeps it

  // The others do not notice a change of CPU c and of a process that none of
  // them holds or runs.
  lemma OthersKeep(s: State, s': State, c: nat, p: nat)
    requires Inv(s) && c < |s.cpus| && p < |s.procs| && |s'.cpus| == |s.cpus| && |s'.procs| == |s.procs|
    requires forall d: nat :: d < |s.cpus| && d != c ==> s'.cpus[d] == s.cpus[d]
    requires forall q: nat :: q < |s.procs| && q != p ==> s'.procs[q] == s.procs[q]
    requires forall d: nat :: d < |s.cpus| && d != c ==>
      Engaged(s.cpus[d].mode) != Some(p) && Holds(s.cpus[d].mode) != Some(p)
    requires CpuInv(s', c) && ProcInv(s', p)
    requires Engaged(s'.cpus[c].mode) == None || Engaged(s'.cpus[c].mode) == Some(p)
    requires Holds(s.cpus[c].mode) == None || Holds(s.cpus[c].mode) == Some(p)
    ensures Inv(s')
  {
    forall d: nat | d < |s'.cpus| ensures CpuInv(s', d) {
      assert CpuInv(s, d);
    }
    forall q: nat | q < |s'.procs| ensures ProcInv(s', q) {
      assert ProcInv(s, q);
    }
  }

  // Whoever holds p->lock is alone with p, except that its thread may be
  // running without the lock.
  lemma Alone(s: State, c: nat, p: nat)
    requires Inv(s) && c < |s.cpus| && p < |s.procs|
    requires s.procs[p].lock == None || s.procs[p].lock == Some(c)
    requires s.procs[p].state == RUNNING ==> Engaged(s.cpus[c].mode) == Some(p)
    ensures forall d: nat :: d < |s.cpus| && d != c ==>
      Engaged(s.cpus[d].mode) != Some(p) && Holds(s.cpus[d].mode) != Some(p)
  {
    forall d: nat | d < |s.cpus| && d != c
      ensures Engaged(s.cpus[d].mode) != Some(p) && Holds(s.cpus[d].mode) != Some(p)
    {
      assert CpuInv(s, d);
    }
  }

  lemma AdvanceKeeps(s: State, s': State, c: nat)
    requires Inv(s) && c < |s.cpus| && AdvanceStep(s, s', c)
    ensures Inv(s')
  {
    hide Inv;
    Facts(s, c);
    match s.cpus[c].mode
    case Scanning(k) =>
      if k < |s.procs| {
        ProcFacts(s, k);
        Locking(s, s', c, k);
      } else {
        OwnCpu(s, s', c);
      }
    case Checking(k) =>
      ProcFacts(s, k);
      if s.procs[k].state == RUNNABLE {
        Alone(s, c, k);
        OthersKeep(s, s', c, k);
      } else {
        Passed(s, s', c, k);
      }
    case Entering(p) => Step(s, s', c, p);
    case Loading(p) => Step(s, s', c, p);
    case Thread(p, at) => Step(s, s', c, p);
    case Saving(p) => Step(s, s', c, p);
    case Returning(p) => Step(s, s', c, p);
    case Back(p) => Step(s, s', c, p);
    case SchedLocks(p) => Step(s, s', c, p);
  }

  lemma Facts(s: State, c: nat)
    requires Inv(s) && c < |s.cpus|
    ensures CpuInv(s, c)
  {
  }

  lemma ProcFacts(s: State, p: nat)
    requires Inv(s) && p < |s.procs|
    ensures ProcInv(s, p)
  {
  }

  // A step of the CPU that is engaged with p.
  lemma Step(s: State, s': State, c: nat, p: nat)
    requires Inv(s) && c < |s.cpus| && AdvanceStep(s, s', c) && Engaged(s.cpus[c].mode) == Some(p)
    ensures Inv(s')
  {
    hide Inv;
    Facts(s, c);
    ProcFacts(s, p);
    EngagedAlone(s, c, p);
    OthersKeep(s, s', c, p);
  }

  lemma EngagedAlone(s: State, c: nat, p: nat)
    requires Inv(s) && c < |s.cpus| && Engaged(s.cpus[c].mode) == Some(p) && p < |s.procs|
    ensures forall d: nat :: d < |s.cpus| && d != c ==> Engaged(s.cpus[d].mode) != Some(p)
    ensures s.procs[p].lock == None || s.procs[p].lock == Some(c) ==>
      forall d: nat :: d < |s.cpus| && d != c ==> Holds(s.cpus[d].mode) != Some(p)
  {
    forall d: nat | d < |s.cpus| && d != c ensures Engaged(s.cpus[d].mode) != Some(p) {
      assert CpuInv(s, d);
    }
    forall d: nat | d < |s.cpus| && d != c ensures Holds(s.cpus[d].mode) == Some(p) ==> s.procs[p].lock == Some(d) {
      assert CpuInv(s, d);
    }
  }

  // The scheduler takes p->lock: the thread of p may be running without it.
  lemma Locking(s: State, s': State, c: nat, k: nat)
    requires Inv(s) && c < |s.cpus| && s.cpus[c].mode == Scanning(k) && k < |s.procs| && s.procs[k].lock == None
    requires s' == Set(s, c, PushOff(s.cpus[c], Checking(k)), k, s.procs[k].(lock := Some(c)))
    ensures Inv(s')
  {
    forall d: nat | d < |s'.cpus| ensures CpuInv(s', d) {
      assert CpuInv(s, d);
    }
    forall q: nat | q < |s'.procs| ensures ProcInv(s', q) {
      assert ProcInv(s, q);
    }
  }

  lemma Passed(s: State, s': State, c: nat, k: nat)
    requires Inv(s) && c < |s.cpus| && s.cpus[c].mode == Checking(k) && k < |s.procs|
    requires s' == Unlocked(s, c, s.cpus[c], k, Scanning(k + 1))
    ensures Inv(s')
  {
    assert CpuInv(s, c);
    forall d: nat | d < |s'.cpus| ensures CpuInv(s', d) {
      assert CpuInv(s, d);
    }
    forall q: nat | q < |s'.procs| ensures ProcInv(s', q) {
      assert ProcInv(s, q);
    }
  }

  // A step that changes nothing but how far this CPU is with its own affairs.
  lemma OwnCpu(s: State, s': State, c: nat)
    requires Inv(s) && c < |s.cpus| && |s'.cpus| == |s.cpus| && s' == SetCpu(s, c, s'.cpus[c]) && CpuInv(s', c)
    requires Engaged(s'.cpus[c].mode) == Engaged(s.cpus[c].mode) && Holds(s'.cpus[c].mode) == Holds(s.cpus[c].mode)
    requires s'.cpus[c].mode == s.cpus[c].mode || s.cpus[c].mode.Scanning?
    ensures Inv(s')
  {
    forall d: nat | d < |s'.cpus| ensures CpuInv(s', d) {
      assert CpuInv(s, d);
    }
    forall q: nat | q < |s'.procs| ensures ProcInv(s', q) {
      assert ProcInv(s, q);
    }
  }

  // Nobody runs or holds a process that is not RUNNING and whose lock is free.
  lemma Unattended(s: State, q: nat)
    requires Inv(s) && q < |s.procs| && s.procs[q].lock == None && s.procs[q].state != RUNNING
    ensures forall d: nat :: d < |s.cpus| ==> Engaged(s.cpus[d].mode) != Some(q) && Holds(s.cpus[d].mode) != Some(q)
  {
    forall d: nat | d < |s.cpus| ensures Engaged(s.cpus[d].mode) != Some(q) && Holds(s.cpus[d].mode) != Some(q) {
      assert CpuInv(s, d);
    }
  }

  lemma Touched(s: State, s': State, q: nat, to: ProcState)
    requires Inv(s) && q < |s.procs| && s.procs[q].lock == None && Touches(s.procs[q].state, to)
    requires s' == SetState(s, q, to)
    ensures Inv(s')
  {
    Unattended(s, q);
    assert ProcInv(s, q);
    forall d: nat | d < |s'.cpus| ensures CpuInv(s', d) {
      assert CpuInv(s, d);
    }
    forall p: nat | p < |s'.procs| ensures ProcInv(s', p) {
      assert ProcInv(s, p);
    }
  }

  lemma Kept(s: State, s': State, c: nat, a: Action)
    requires Inv(s) && Next(s, s', c, a)
    ensures Inv(s')
  {
    hide Inv;
    Facts(s, c);
    match a
    case Advance => AdvanceKeeps(s, s', c);
    case GiveUp(to) =>
      var p := s.cpus[c].mode.p;
      ProcFacts(s, p);
      EngagedAlone(s, c, p);
      OthersKeep(s, s', c, p);
    case Touch(q, to) => Touched(s, s', q, to);
    case Acquire => OwnCpu(s, s', c);
    case Release => OwnCpu(s, s', c);
    case Interrupts(on) => OwnCpu(s, s', c);
  }

  // ---------------------------------------------------------------- whole runs

  ghost predicate Run(ss: seq<State>, who: seq<nat>, acts: seq<Action>) {
    && |ss| == |who| + 1 && |acts| == |who|
    && Init(ss[0])
    && forall t :: 0 <= t < |who| ==> Next(ss[t], ss[t + 1], who[t], acts[t])
  }

  lemma {:induction false} RunInv(ss: seq<State>, who: seq<nat>, acts: seq<Action>, t: nat)
    requires Run(ss, who, acts) && t < |ss|
    ensures Inv(ss[t])
  {
    hide Inv, Init, Next;
    if t > 0 {
      RunInv(ss, who, acts, t - 1);
      assert Next(ss[t - 1], ss[t - 1 + 1], who[t - 1], acts[t - 1]);
      Kept(ss[t - 1], ss[t], who[t - 1], acts[t - 1]);
    } else {
      InitInv(ss[0]);
    }
  }

  lemma InitInv(s: State)
    requires Init(s)
    ensures Inv(s)
  {
  }

  // In every run no process is current on two CPUs, and none is executed by two.
  lemma OneCpuPerProcess(ss: seq<State>, who: seq<nat>, acts: seq<Action>, t: nat, c: nat, d: nat)
    requires Run(ss, who, acts) && t < |ss| && c < |ss[t].cpus| && d < |ss[t].cpus| && c != d
    ensures var s := ss[t];
            && (s.cpus[c].proc.Some? ==> s.cpus[c].proc != s.cpus[d].proc)
            && s.cpus[c].proc == Engaged(s.cpus[c].mode)
  {
    RunInv(ss, who, acts, t);
    assert CpuInv(ss[t], c) && CpuInv(ss[t], d);
  }

  // In every run a CPU loads a context only after it was saved completely: the
  // process's own when entering it, and on leaving it the one of this very
  // CPU's scheduler, which switched to that very process. So control is never
  // lost, and acquire, release and three of the four checks of sched never
  // panic. The fourth does exactly when the thread still holds a spinlock
  // besides its p->lock.
  lemma OnlySavedContexts(ss: seq<State>, who: seq<nat>, acts: seq<Action>, t: nat, c: nat)
    requires Run(ss, who, acts) && t < |ss| && c < |ss[t].cpus|
    ensures var s, u := ss[t], ss[t].cpus[c];
            && u.mode != Lost
            && (u.mode.SchedLocks? ==> u.noff > 1)
            && (u.mode.Loading? ==> u.mode.p < |s.procs| && s.procs[u.mode.p].context == InProcess(u.mode.p))
            && (u.mode.Returning? ==> u.context == InScheduler(c, u.mode.p))
            && (u.mode.Loading? || u.mode.Returning? ==> u.mode.p < |s.procs| && s.procs[u.mode.p].lock == Some(c))
  {
    RunInv(ss, who, acts, t);
    assert CpuInv(ss[t], c);
  }

  // sched goes through if and only if its caller holds no spinlock but p->lock.
  lemma SchedPasses(ss: seq<State>, who: seq<nat>, acts: seq<Action>, t: nat, p: nat)
    requires Run(ss, who, acts) && t < |who| && acts[t] == Advance && who[t] < |ss[t].cpus|
    requires ss[t].cpus[who[t]].mode == Thread(p, Changed)
    ensures Others(ss[t].cpus[who[t]]) >= 0 && who[t] < |ss[t + 1].cpus|
    ensures ss[t + 1].cpus[who[t]].mode == if Others(ss[t].cpus[who[t]]) == 0 then Saving(p) else SchedLocks(p)
  {
    RunInv(ss, who, acts, t);
    assert CpuInv(ss[t], who[t]) && Next(ss[t], ss[t + 1], who[t], acts[t]);
  }

  // A CPU that holds any spinlock has its interrupts off. So a timer interrupt,
  // and with it yield, finds a thread without spinlocks.
  lemma InterruptsOff(ss: seq<State>, who: seq<nat>, acts: seq<Action>, t: nat, c: nat)
    requires Run(ss, who, acts) && t < |ss| && c < |ss[t].cpus|
    ensures var u := ss[t].cpus[c]; Holds(u.mode).Some? || Others(u) > 0 ==> !u.intr
  {
    RunInv(ss, who, acts, t);
    assert CpuInv(ss[t], c);
  }

  // In every run a process changed through its lock by another - woken, freed
  // as a zombie, started - has left its kernel stack with its context saved.
  lemma TouchedOffStack(ss: seq<State>, who: seq<nat>, acts: seq<Action>, t: nat, q: nat, d: nat)
    requires Run(ss, who, acts) && t < |who| && acts[t].Touch? && acts[t].q == q && d < |ss[t].cpus|
    ensures q < |ss[t].procs| && Engaged(ss[t].cpus[d].mode) != Some(q)
    ensures ss[t].procs[q].state == SLEEPING ==> ss[t].procs[q].context == InProcess(q)
  {
    RunInv(ss, who, acts, t);
    assert Next(ss[t], ss[t + 1], who[t], acts[t]);
    Unattended(ss[t], q);
    assert ProcInv(ss[t], q);
  }

  // ---------------------------------------------------------------- who runs

  // The steps that change the state of process q
  lemma StateSteps(s: State, s': State, c: nat, a: Action, q: nat)
    requires Inv(s) && Next(s, s', c, a) && q < |s.procs|
    ensures |s'.procs| == |s.procs| && |s'.cpus| == |s.cpus|
    ensures s'.procs[q].state != s.procs[q].state ==>
      || (a == Advance && s.cpus[c].mode == Checking(q) && s.procs[q].state == RUNNABLE && s'.procs[q].state == RUNNING)
      || (a.GiveUp? && s.cpus[c].mode == Thread(q, Locked) && s.procs[q].state == RUNNING && s'.procs[q].state == a.to)
      || (a.Touch? && a.q == q && s'.procs[q].state == a.to)
    ensures s'.cpus[c].mode.Entering? ==> s.cpus[c].mode == Checking(s'.cpus[c].mode.p)
  {
    assert CpuInv(s, c);
    hide Inv, ProcInv;
  }

  // In every run the scheduler, looking at process k, takes it if and only if it
  // is RUNNABLE, and otherwise passes on to the next.
  lemma TakesRunnable(ss: seq<State>, who: seq<nat>, acts: seq<Action>, t: nat, k: nat)
    requires Run(ss, who, acts) && t < |who| && acts[t] == Advance && who[t] < |ss[t].cpus|
    requires ss[t].cpus[who[t]].mode == Checking(k)
    ensures k < |ss[t].procs| == |ss[t + 1].procs| && who[t] < |ss[t + 1].cpus|
    ensures var u := ss[t + 1].cpus[who[t]];
            if ss[t].procs[k].state == RUNNABLE
            then u.mode == Entering(k) && u.proc == Some(k) && ss[t + 1].procs[k].state == RUNNING
            else u.mode == Scanning(k + 1) && ss[t + 1].procs[k].state == ss[t].procs[k].state
  {
    RunInv(ss, who, acts, t);
    assert CpuInv(ss[t], who[t]) && Next(ss[t], ss[t + 1], who[t], acts[t]);
  }

  // In every run: a process becomes RUNNING only from RUNNABLE, in the scheduler;
  // it leaves RUNNING only by its own yield, sleep or exit; and it leaves SLEEPING
  // only when another wakes it, to be RUNNABLE.
  lemma StateChanges(ss: seq<State>, who: seq<nat>, acts: seq<Action>, t: nat, q: nat)
    requires Run(ss, who, acts) && t < |who| && q < |ss[t].procs|
    ensures |ss[t + 1].procs| == |ss[t].procs|
    ensures var x, y := ss[t].procs[q].state, ss[t + 1].procs[q].state;
            && (x != RUNNING && y == RUNNING ==> x == RUNNABLE && acts[t] == Advance)
            && (x == RUNNING && y != RUNNING ==>
                  who[t] < |ss[t].cpus| && ss[t].cpus[who[t]].mode == Thread(q, Locked) && acts[t] == GiveUp(y))
            && (x == SLEEPING && y != SLEEPING ==> acts[t] == Touch(q, y) && y == RUNNABLE)
            && (x == RUNNABLE && y != RUNNABLE ==> y == RUNNING)
            && (x == UNUSED && y != UNUSED ==> y == USED)
            && (x == USED && y != USED ==> y == RUNNABLE || y == UNUSED)
            && (x == ZOMBIE && y != ZOMBIE ==> y == UNUSED)
  {
    RunInv(ss, who, acts, t);
    assert Next(ss[t], ss[t + 1], who[t], acts[t]);
    StateSteps(ss[t], ss[t + 1], who[t], acts[t], q);
  }

  // A CPU enters a process only from having found it RUNNABLE.
  lemma EnteredRunnable(ss: seq<State>, who: seq<nat>, acts: seq<Action>, t: nat, c: nat, k: nat)
    requires Run(ss, who, acts) && t < |who| && c < |ss[t].cpus| == |ss[t + 1].cpus|
    requires ss[t].cpus[c].mode != Entering(k) && ss[t + 1].cpus[c].mode == Entering(k)
    ensures c == who[t] && ss[t].cpus[c].mode == Checking(k) && k < |ss[t].procs| && ss[t].procs[k].state == RUNNABLE
  {
    RunInv(ss, who, acts, t);
    assert CpuInv(ss[t], c) && Next(ss[t], ss[t + 1], who[t], acts[t]);
    hide Inv;
  }

  // One pass of the scheduler looks at every process in turn.
  lemma ScansOn(ss: seq<State>, who: seq<nat>, acts: seq<Action>, t: nat, k: nat)
    requires Run(ss, who, acts) && t < |who| && acts[t] == Advance && who[t] < |ss[t].cpus|
    requires ss[t].cpus[who[t]].mode == Scanning(k)
    ensures who[t] < |ss[t + 1].cpus|
    ensures ss[t + 1].cpus[who[t]].mode == if k < |ss[t].procs| then Checking(k) else Scanning(0)
    ensures k >= |ss[t].procs| ==> ss[t + 1].cpus[who[t]].intr
  {
    RunInv(ss, who, acts, t);
    assert CpuInv(ss[t], who[t]) && Next(ss[t], ss[t + 1], who[t], acts[t]);
    if k < |ss[t].procs| {
      assert ProcInv(ss[t], k);
    }
  }

  // And after a process has run, with the next one: no process is passed by.
  lemma GoesRound(ss: seq<State>, who: seq<nat>, acts: seq<Action>, t: nat, p: nat)
    requires Run(ss, who, acts) && t < |who| && acts[t] == Advance && who[t] < |ss[t].cpus|
    requires ss[t].cpus[who[t]].mode == Back(p)
    ensures p < |ss[t].procs| == |ss[t + 1].procs| && who[t] < |ss[t + 1].cpus|
    ensures ss[t + 1].cpus[who[t]].mode == Scanning(p + 1) && ss[t + 1].cpus[who[t]].proc == None
    ensures ss[t + 1].procs[p].lock == None && ss[t + 1].procs[p].state == ss[t].procs[p].state
  {
    RunInv(ss, who, acts, t);
    assert CpuInv(ss[t], who[t]) && Next(ss[t], ss[t + 1], who[t], acts[t]);
  }

  // pop_off undoes push_off: whatever interrupts were on before the first are on
  // again after the last, and they are off in between.
  lemma OffAndOn(u: Cpu, m: Mode, m': Mode)
    requires u.noff > 0 ==> !u.intr
    ensures !PushOff(u, m).intr && PushOff(u, m).noff > 0
    ensures PopOff(PushOff(u, m), m') == u.(mode := m', intena := if u.noff == 0 then u.intr else u.intena)
  {
  }

  // ---------------------------------------------------------------- nobody is stuck

  // In every run a CPU can always take its next step, unless it waits for a
  // p->lock that another CPU holds; a thread with its p->lock is to give up first.
  lemma NeverStuck(ss: seq<State>, who: seq<nat>, acts: seq<Action>, t: nat, c: nat) returns (s': State)
    requires Run(ss, who, acts) && t < |ss| && c < |ss[t].cpus|
    requires var s, m := ss[t], ss[t].cpus[c].mode;
             && !m.SchedLocks? && !(m.Thread? && m.at == Locked)
             && (m.Scanning? && m.k < |s.procs| ==> s.procs[m.k].lock == None)
             && (m.Thread? && m.at == Free && m.p < |s.procs| ==> s.procs[m.p].lock == None)
    ensures Next(ss[t], s', c, Advance)
  {
    RunInv(ss, who, acts, t);
    var s, u := ss[t], ss[t].cpus[c];
    assert CpuInv(s, c);
    hide Run, Inv;
    match u.mode
    case Scanning(k) =>
      s' := if k >= |s.procs| then SetCpu(s, c, u.(mode := Scanning(0), intr := true))
            else Set(s, c, PushOff(u, Checking(k)), k, s.procs[k].(lock := Some(c)));
    case Checking(k) =>
      s' := if s.procs[k].state == RUNNABLE
            then Set(s, c, u.(mode := Entering(k), proc := Some(k)), k, s.procs[k].(state := RUNNING))
            else Unlocked(s, c, u, k, Scanning(k + 1));
    case Entering(p) => s' := SetCpu(s, c, u.(mode := Loading(p), context := InScheduler(c, p)));
    case Loading(p) =>
      s' := Set(s, c, u.(mode := Resumed(s.procs[p].context)), p, s.procs[p].(context := Stale));
    case Thread(p, at) =>
      if at == Arrived {
        s' := Unlocked(s, c, u.(intena := true), p, Thread(p, Free));
      } else if at == Free {
        s' := Set(s, c, PushOff(u, Thread(p, Locked)), p, s.procs[p].(lock := Some(c)));
      } else {
        s' := SetCpu(s, c, u.(mode := Sched(u, c, p, s.procs[p])));
      }
    case Saving(p) => s' := Set(s, c, u.(mode := Returning(p)), p, s.procs[p].(context := InProcess(p)));
    case Returning(p) => s' := SetCpu(s, c, u.(mode := Resumed(u.context), context := Stale));
    case Back(p) => s' := Unlocked(s, c, u.(proc := None), p, Scanning(p + 1));
  }

  // A thread that has its p->lock can give up in each of the three ways.
  lemma CanGiveUp(ss: seq<State>, who: seq<nat>, acts: seq<Action>, t: nat, c: nat, p: nat, to: ProcState)
    returns (s': State)
    requires Run(ss, who, acts) && t < |ss| && c < |ss[t].cpus| && ss[t].cpus[c].mode == Thread(p, Locked)
    requires to == RUNNABLE || to == SLEEPING || to == ZOMBIE
    ensures Next(ss[t], s', c, GiveUp(to)) && p < |s'.procs| && s'.procs[p].state == to
  {
    RunInv(ss, who, acts, t);
    assert CpuInv(ss[t], c);
    s' := Set(ss[t], c, ss[t].cpus[c].(mode := Thread(p, Changed)), p, ss[t].procs[p].(state := to));
  }
}
