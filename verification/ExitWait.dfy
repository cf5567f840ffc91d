/**
 fork, exit, reparent and wait (kernel/proc.c) as interleaved steps of any
 number of processes under wait_lock and the per-process locks. A step is one
 critical section of p->lock, or one statement where the order of locks
 matters. LIVE stands for RUNNABLE and RUNNING.
 */
module ExitWait {
  import opened Options

  datatype Status = UNUSED | USED | LIVE | SLEEPING | ZOMBIE

  datatype Pc =
    | Idle                             // user code, or not started
    | ForkLink(k: nat)                 // fork: np->parent = p, under wait_lock
    | ForkStart(k: nat)                // fork: np->state = RUNNABLE
    | ExitWant                         // exit: acquire(&wait_lock)
    | Reparent(k: nat)                 // reparent: process k is next
    | WakeInit(k: nat, m: nat)         // wakeup(initproc) for child k: process m is next
    | WakeParent(ch: Option<nat>, m: nat)   // wakeup(p->parent)
    | ExitOwn                          // acquire(&p->lock)
    | ExitMark                         // p->state = ZOMBIE
    | ExitDrop                         // release(&wait_lock)
    | ExitSwitch                       // sched: still on its kernel stack
    | Gone                             // the scheduler has released p->lock
    | WaitWant                         // wait: acquire(&wait_lock)
    | WaitScan(k: nat, kids: bool)     // wait: process k is next
    | SleepOwn                         // sleep(p, &wait_lock): acquire(&p->lock)
    | SleepDrop                        // release(&wait_lock)
    | SleepMark                        // p->chan = p; p->state = SLEEPING
    | SleepSwitch                      // sched
    | Asleep                           // the scheduler has released p->lock

  // zombies and frees count how often the slot became a zombie and was freed as
  // one; maker is the process that is forking it.
  datatype Proc = Proc(pc: Pc, status: Status, chan: Option<nat>, parent: Option<nat>,
                       maker: Option<nat>, zombies: nat, frees: nat)

  datatype State = State(procs: seq<Proc>, waitLock: Option<nat>, init: nat)

  datatype Action =
    | Advance
    | Fork(k: nat) | Exit | Wait
    | Kill(k: nat)
    | Abort           // wait returns -1: killed, or copyout failed

  // ---------------------------------------------------------------- steps

  function Set(s: State, i: nat, p: Proc): State
    requires i < |s.procs|
  {
    s.(procs := s.procs[i := p])
  }

  // p->lock is held by the process itself or, after swtch, by the scheduler.
  predicate HasOwn(pc: Pc) {
    pc.ExitMark? || pc.ExitDrop? || pc.ExitSwitch? || pc.SleepDrop? || pc.SleepMark? || pc.SleepSwitch?
  }

  predicate HasWait(pc: Pc) {
    || pc.Reparent? || pc.WakeInit? || pc.WakeParent? || pc.ExitOwn? || pc.ExitMark? || pc.ExitDrop?
    || pc.WaitScan? || pc.SleepOwn? || pc.SleepDrop?
  }

  function WakeIfOn(p: Proc, ch: Option<nat>): Proc {
    if p.status == SLEEPING && p.chan.Some? && p.chan == ch then p.(status := LIVE) else p
  }

  // One round of wakeup's loop, by process i.
  ghost predicate ScanRound(s: State, s': State, i: nat, ch: Option<nat>, m: nat, pc: Pc)
    requires i < |s.procs| && m < |s.procs|
  {
    if m == i then s' == Set(s, i, s.procs[i].(pc := pc))
    else !HasOwn(s.procs[m].pc) && s' == Set(Set(s, m, WakeIfOn(s.procs[m], ch)), i, s.procs[i].(pc := pc))
  }

  ghost predicate AdvanceStep(s: State, s': State, i: nat)
    requires i < |s.procs|
  {
    var p, n := s.procs[i], |s.procs|;
    match p.pc
    case Idle => false
    case ForkLink(k) =>
      s.waitLock == None && k < n && k != i
      && s' == Set(Set(s, k, s.procs[k].(parent := Some(i))), i, p.(pc := ForkStart(k)))
    case ForkStart(k) =>
      k < n && k != i && s' == Set(Set(s, k, s.procs[k].(status := LIVE, maker := None)), i, p.(pc := Idle))
    case ExitWant =>
      s.waitLock == None && s' == Set(s, i, p.(pc := Reparent(0))).(waitLock := Some(i))
    case Reparent(k) =>
      if k >= n then s' == Set(s, i, p.(pc := WakeParent(p.parent, 0)))
      else if s.procs[k].parent == Some(i)
           then k != i && s' == Set(Set(s, k, s.procs[k].(parent := Some(s.init))), i, p.(pc := WakeInit(k, 0)))
           else s' == Set(s, i, p.(pc := Reparent(k + 1)))
    case WakeInit(k, m) =>
      if m >= n then s' == Set(s, i, p.(pc := Reparent(k + 1)))
      else ScanRound(s, s', i, Some(s.init), m, WakeInit(k, m + 1))
    case WakeParent(ch, m) =>
      if m >= n then s' == Set(s, i, p.(pc := ExitOwn)) else ScanRound(s, s', i, ch, m, WakeParent(ch, m + 1))
    case ExitOwn => s' == Set(s, i, p.(pc := ExitMark))
    case ExitMark => s' == Set(s, i, p.(pc := ExitDrop, status := ZOMBIE, zombies := p.zombies + 1))
    case ExitDrop => s' == Set(s, i, p.(pc := ExitSwitch)).(waitLock := None)
    case ExitSwitch => s' == Set(s, i, p.(pc := Gone))
    case Gone => false
    case WaitWant =>
      s.waitLock == None && s' == Set(s, i, p.(pc := WaitScan(0, false))).(waitLock := Some(i))
    case WaitScan(k, kids) =>
      if k >= n then
        s' == if kids then Set(s, i, p.(pc := SleepOwn)) else Set(s, i, p.(pc := Idle)).(waitLock := None)
      else if s.procs[k].parent != Some(i) then s' == Set(s, i, p.(pc := WaitScan(k + 1, kids)))
      else
        // acquire(&pp->lock)
        k != i && !HasOwn(s.procs[k].pc)
        && s' == if s.procs[k].status == ZOMBIE
                 then Set(Set(s, k, Freed(s.procs[k])), i, p.(pc := Idle)).(waitLock := None)
                 else Set(s, i, p.(pc := WaitScan(k + 1, true)))
    case SleepOwn => s' == Set(s, i, p.(pc := SleepDrop))
    case SleepDrop => s' == Set(s, i, p.(pc := SleepMark)).(waitLock := None)
    case SleepMark => s' == Set(s, i, p.(pc := SleepSwitch, status := SLEEPING, chan := Some(i)))
    case SleepSwitch => s' == Set(s, i, p.(pc := Asleep))
    case Asleep => p.status == LIVE && s' == Set(s, i, p.(pc := WaitWant, chan := None))
  }

  // freeproc
  function Freed(p: Proc): Proc {
    p.(pc := Idle, status := UNUSED, chan := None, parent := None, frees := p.frees + 1)
  }

  ghost predicate Next(s: State, s': State, i: nat, a: Action) {
    && i < |s.procs|
    && var p := s.procs[i];
       match a
       case Advance => AdvanceStep(s, s', i)
       case Fork(k) =>
         // allocproc
         p.pc == Idle && p.status == LIVE && k < |s.procs| && k != i && s.procs[k].status == UNUSED
         && s' == Set(Set(s, k, s.procs[k].(status := USED, maker := Some(i))), i, p.(pc := ForkLink(k)))
       case Exit =>
         // init exiting panics
         p.pc == Idle && p.status == LIVE && i != s.init && s' == Set(s, i, p.(pc := ExitWant))
       case Wait => p.pc == Idle && p.status == LIVE && s' == Set(s, i, p.(pc := WaitWant))
       case Kill(k) =>
         p.pc == Idle && p.status == LIVE && k < |s.procs| && !HasOwn(s.procs[k].pc)
         && s' == Set(s, k, if s.procs[k].status == SLEEPING then s.procs[k].(status := LIVE) else s.procs[k])
       case Abort => p.pc.WaitScan? && s' == Set(s, i, p.(pc := Idle)).(waitLock := None)
  }

  ghost predicate Init(s: State) {
    && s.init < |s.procs| && s.waitLock == None
    && forall i :: 0 <= i < |s.procs| ==>
         s.procs[i] == Proc(Idle, if i == s.init then LIVE else UNUSED, None, None, None, 0, 0)
  }

  // ---------------------------------------------------------------- invariant

  predicate Exiting(pc: Pc) {
    || pc.ExitWant? || pc.Reparent? || pc.WakeInit? || Abandoned(pc)
  }

  // Past reparent: it has no children any more.
  predicate Abandoned(pc: Pc) {
    pc.WakeParent? || pc.ExitOwn? || pc.ExitMark? || pc.ExitDrop? || pc.ExitSwitch? || pc.Gone?
  }

  // In wait's sleep, past the release of wait_lock.
  predicate Committed(p: Proc) {
    p.pc.SleepMark? || p.pc.SleepSwitch? || (p.pc.Asleep? && p.status == SLEEPING)
  }

  predicate Alive(p: Proc) {
    p.status == LIVE || p.status == SLEEPING
  }

  // Children below this index are no longer children of an exiting process.
  function GivenAway(pc: Pc): nat {
    match pc case Reparent(k) => k case WakeInit(k, _) => k + 1 case _ => 0
  }

  // The holder of wait_lock is waking init and has not passed it.
  ghost predicate WakingInit(s: State) {
    && s.waitLock.Some? && s.waitLock.value < |s.procs|
    && s.procs[s.waitLock.value].pc.WakeInit? && s.procs[s.waitLock.value].pc.m <= s.init
  }

  // What holds of one process by itself.
  ghost predicate Shape(s: State, i: nat, p: Proc) {
    && (p.status == UNUSED || p.status == USED ==> p.pc == Idle)
    && (p.status == UNUSED ==> p.parent == None)
    && (p.status == ZOMBIE <==> p.pc.ExitDrop? || p.pc.ExitSwitch? || p.pc.Gone?)
    && (p.status == SLEEPING ==> p.pc.SleepSwitch? || p.pc.Asleep?)
    && (p.pc.SleepSwitch? ==> p.status == SLEEPING)
    && (if p.pc.SleepSwitch? || p.pc.Asleep? then p.chan == Some(i) else p.chan == None)
    && (p.status == USED <==> p.maker.Some?)
    && (Exiting(p.pc) ==> i != s.init)
    && (i == s.init ==> p.parent == None && Alive(p))
    && (i != s.init && (Alive(p) || p.status == ZOMBIE) ==> p.parent.Some?)
    && (p.pc.WakeParent? ==> p.pc.ch == p.parent)
    && p.zombies == p.frees + (if p.status == ZOMBIE then 1 else 0)
    && (HasWait(p.pc) <==> s.waitLock == Some(i))
  }

  // What holds between a process and its parent.
  ghost predicate Family(s: State, k: nat, j: nat)
    requires k < |s.procs| && j < |s.procs| && s.procs[k].parent == Some(j)
  {
    var c, p := s.procs[k], s.procs[j];
    && k != j && Alive(p) && !Abandoned(p.pc) && GivenAway(p.pc) <= k
    && (c.status == ZOMBIE ==>
          && !p.pc.SleepOwn? && !p.pc.SleepDrop? && (p.pc.WaitScan? ==> p.pc.k <= k)
          && (Committed(p) ==> j == s.init && WakingInit(s)))
    && (c.pc.ExitOwn? || c.pc.ExitMark? || (c.pc.WakeParent? && j < c.pc.m) ==> !Committed(p))
  }

  // What holds between a process and the one it is forking.
  ghost predicate Making(s: State, j: nat, k: nat)
    requires j < |s.procs|
  {
    s.procs[j].pc == ForkLink(k) || s.procs[j].pc == ForkStart(k) ==>
      && k < |s.procs| && s.procs[k].maker == Some(j)
      && s.procs[k].parent == if s.procs[j].pc.ForkLink? then None else Some(j)
  }

  ghost predicate Shapes(s: State) {
    && s.init < |s.procs|
    && (s.waitLock.Some? ==> s.waitLock.value < |s.procs|)
    && forall i: nat :: i < |s.procs| ==> Shape(s, i, s.procs[i])
  }

  ghost predicate Families(s: State) {
    forall k: nat :: k < |s.procs| && s.procs[k].parent.Some? ==>
      s.procs[k].parent.value < |s.procs| && Family(s, k, s.procs[k].parent.value)
  }

  ghost predicate Makings(s: State) {
    forall j: nat, k: nat :: j < |s.procs| ==> Making(s, j, k)
  }

  ghost predicate Inv(s: State) {
    Shapes(s) && Families(s) && Makings(s)
  }

  // ---------------------------------------------------------------- every step keeps it

  lemma Facts(s: State, i: nat)
    requires Inv(s) && i < |s.procs|
    ensures Shape(s, i, s.procs[i]) && s.init < |s.procs|
    ensures s.procs[i].parent.Some? ==> s.procs[i].parent.value < |s.procs| && Family(s, i, s.procs[i].parent.value)
    ensures forall k: nat :: k < |s.procs| && s.procs[k].parent == Some(i) ==> Family(s, k, i)
  {
  }

  // Only one process has wait_lock.
  lemma OneWaiter(s: State, i: nat, j: nat)
    requires Inv(s) && i < |s.procs| && j < |s.procs| && HasWait(s.procs[i].pc) && HasWait(s.procs[j].pc)
    ensures i == j
  {
    assert Shape(s, i, s.procs[i]) && Shape(s, j, s.procs[j]);
  }

  // One process and wait_lock change; nobody's parent does.
  ghost predicate Local(s: State, s': State, i: nat, p: Proc, w: Option<nat>) {
    && i < |s.procs| && s' == Set(s, i, p).(waitLock := w)
    && (w == s.waitLock || (w == None && s.waitLock == Some(i)) || (s.waitLock == None && w == Some(i)))
    && p.parent == s.procs[i].parent && p.maker == s.procs[i].maker && !p.pc.ForkLink? && !p.pc.ForkStart?
  }

  lemma LocalShapes(s: State, s': State, i: nat, p: Proc, w: Option<nat>)
    requires Shapes(s) && Local(s, s', i, p, w) && Shape(s', i, p)
    ensures Shapes(s')
  {
    forall j: nat | j < |s'.procs| ensures Shape(s', j, s'.procs[j]) {
      assert Shape(s, j, s.procs[j]);
    }
  }

  lemma LocalFamilies(s: State, s': State, i: nat, p: Proc, w: Option<nat>)
    requires Families(s) && Local(s, s', i, p, w)
    requires p.parent.Some? ==> p.parent.value < |s.procs| && Family(s', i, p.parent.value)
    requires forall k: nat :: k < |s.procs| && s'.procs[k].parent == Some(i) ==> Family(s', k, i)
    requires s.init < |s.procs| && (WakingInit(s) ==> WakingInit(s') || !Committed(s'.procs[s.init]))
    ensures Families(s')
  {
    hide WakingInit, Exiting, HasWait, HasOwn;
    forall k: nat | k < |s'.procs| && s'.procs[k].parent.Some?
      ensures s'.procs[k].parent.value < |s'.procs| && Family(s', k, s'.procs[k].parent.value)
    {
      assert k != i ==> Family(s, k, s.procs[k].parent.value);
    }
  }

  lemma LocalMakings(s: State, s': State, i: nat, p: Proc, w: Option<nat>)
    requires Makings(s) && Local(s, s', i, p, w)
    ensures Makings(s')
  {
    forall j: nat, k: nat | j < |s'.procs| ensures Making(s', j, k) {
      assert Making(s, j, k);
    }
  }

  lemma LocalKeeps(s: State, s': State, i: nat, p: Proc, w: Option<nat>)
    requires Inv(s) && Local(s, s', i, p, w) && Shape(s', i, p)
    requires p.parent.Some? ==> p.parent.value < |s.procs| && Family(s', i, p.parent.value)
    requires forall k: nat :: k < |s.procs| && s'.procs[k].parent == Some(i) ==> Family(s', k, i)
    requires s.init < |s.procs| && (WakingInit(s) ==> WakingInit(s') || !Committed(s'.procs[s.init]))
    ensures Inv(s')
  {
    hide Shape, Family, Making, WakingInit, Shapes, Families, Makings, Committed;
    LocalShapes(s, s', i, p, w);
    LocalFamilies(s, s', i, p, w);
    LocalMakings(s, s', i, p, w);
  }

  // A process that sleeps is woken; its p->lock was free.
  lemma WakeKeeps(s: State, m: nat)
    requires Inv(s) && m < |s.procs| && !HasOwn(s.procs[m].pc) && s.procs[m].status == SLEEPING
    ensures Inv(Set(s, m, s.procs[m].(status := LIVE)))
  {
    hide Inv;
    Facts(s, m);
    var s' := Set(s, m, s.procs[m].(status := LIVE));
    LocalKeeps(s, s', m, s.procs[m].(status := LIVE), s.waitLock);
  }

  // While i has wait_lock, neither its parent nor a child of it has.
  lemma Kin(s: State, i: nat)
    requires Inv(s) && i < |s.procs| && HasWait(s.procs[i].pc)
    ensures s.procs[i].parent.Some? ==>
      s.procs[i].parent.value < |s.procs| && !HasWait(s.procs[s.procs[i].parent.value].pc)
    ensures forall k: nat :: k < |s.procs| && s.procs[k].parent == Some(i) ==> !HasWait(s.procs[k].pc)
  {
    hide HasWait;
    Facts(s, i);
    if s.procs[i].parent.Some? && HasWait(s.procs[s.procs[i].parent.value].pc) {
      OneWaiter(s, i, s.procs[i].parent.value);
    }
    forall k: nat | k < |s.procs| && s.procs[k].parent == Some(i) ensures !HasWait(s.procs[k].pc) {
      if HasWait(s.procs[k].pc) {
        OneWaiter(s, i, k);
      }
    }
  }

  // What LocalKeeps asks of the families
  ghost predicate Kindred(s: State, s': State, i: nat)
    requires i < |s.procs| == |s'.procs|
  {
    && (s'.procs[i].parent.Some? ==>
          s'.procs[i].parent.value < |s.procs| && Family(s', i, s'.procs[i].parent.value))
    && (forall k: nat :: k < |s.procs| && s'.procs[k].parent == Some(i) ==> Family(s', k, i))
    && s.init < |s.procs| && (WakingInit(s) ==> WakingInit(s') || !Committed(s'.procs[s.init]))
  }

  // The steps of exit that change no other process
  ghost predicate ExitOnly(s: State, s': State, i: nat) {
    && i < |s.procs| && AdvanceStep(s, s', i) && Exiting(s.procs[i].pc) && !s.procs[i].pc.ExitMark?
    && (s.procs[i].pc.WakeInit? || s.procs[i].pc.WakeParent? ==> s.procs[i].pc.m >= |s.procs|)
    && (s.procs[i].pc.Reparent? && s.procs[i].pc.k < |s.procs| ==> s.procs[s.procs[i].pc.k].parent != Some(i))
  }

  lemma ExitLocal(s: State, s': State, i: nat)
    requires Inv(s) && ExitOnly(s, s', i)
    ensures |s'.procs| == |s.procs| && Local(s, s', i, s'.procs[i], s'.waitLock) && Shape(s', i, s'.procs[i])
  {
    hide Inv, Family;
    Facts(s, i);
  }

  lemma ExitFamily(s: State, s': State, i: nat)
    requires Inv(s) && ExitOnly(s, s', i) && |s'.procs| == |s.procs| && Local(s, s', i, s'.procs[i], s'.waitLock)
    ensures Kindred(s, s', i)
  {
    hide Inv;
    Facts(s, i);
    hide Shape;
  }

  lemma ExitAlone(s: State, s': State, i: nat)
    requires Inv(s) && ExitOnly(s, s', i)
    ensures Inv(s')
  {
    ExitLocal(s, s', i);
    ExitFamily(s, s', i);
    hide Inv, ExitOnly, Local, Shape, Family, WakingInit, Committed;
    LocalKeeps(s, s', i, s'.procs[i], s'.waitLock);
  }

  // p->state = ZOMBIE: the parent has been woken and cannot be asleep again.
  lemma ExitMarks(s: State, s': State, i: nat)
    requires Inv(s) && i < |s.procs| && AdvanceStep(s, s', i) && s.procs[i].pc.ExitMark?
    ensures Inv(s')
  {
    hide Inv;
    Facts(s, i);
    Kin(s, i);
    LocalKeeps(s, s', i, s'.procs[i], s'.waitLock);
  }

  // The steps of wait's search that change no other process
  ghost predicate WaitOnly(s: State, s': State, i: nat) {
    && i < |s.procs| && AdvanceStep(s, s', i) && (s.procs[i].pc.WaitWant? || s.procs[i].pc.WaitScan?)
    && (s.procs[i].pc.WaitScan? && s.procs[i].pc.k < |s.procs| ==>
          s.procs[s.procs[i].pc.k].parent != Some(i) || s.procs[s.procs[i].pc.k].status != ZOMBIE)
  }

  lemma WaitLocal(s: State, s': State, i: nat)
    requires Inv(s) && WaitOnly(s, s', i)
    ensures |s'.procs| == |s.procs| && Local(s, s', i, s'.procs[i], s'.waitLock) && Shape(s', i, s'.procs[i])
  {
    hide Inv, Family;
    Facts(s, i);
  }

  lemma WaitFamily(s: State, s': State, i: nat)
    requires Inv(s) && WaitOnly(s, s', i) && |s'.procs| == |s.procs| && Local(s, s', i, s'.procs[i], s'.waitLock)
    ensures Kindred(s, s', i)
  {
    hide Inv, WakingInit;
    Facts(s, i);
    NotWakingInit(s, s', i);
    hide Shape;
  }

  lemma WaitAlone(s: State, s': State, i: nat)
    requires Inv(s) && WaitOnly(s, s', i)
    ensures Inv(s')
  {
    WaitLocal(s, s', i);
    WaitFamily(s, s', i);
    hide Inv, WaitOnly, Local, Shape, Family, WakingInit, Committed;
    LocalKeeps(s, s', i, s'.procs[i], s'.waitLock);
  }

  lemma NotWakingInit(s: State, s': State, i: nat)
    requires Inv(s) && i < |s.procs| && (s.procs[i].pc.WaitWant? || s.procs[i].pc.WaitScan?) && AdvanceStep(s, s', i)
    ensures !WakingInit(s)
  {
    assert Shape(s, i, s.procs[i]);
  }

  // The steps of wait's sleep
  ghost predicate SleepOnly(s: State, s': State, i: nat) {
    && i < |s.procs| && AdvanceStep(s, s', i)
    && var pc := s.procs[i].pc; pc.SleepOwn? || pc.SleepDrop? || pc.SleepMark? || pc.SleepSwitch? || pc.Asleep?
  }

  lemma SleepLocal(s: State, s': State, i: nat)
    requires Inv(s) && SleepOnly(s, s', i)
    ensures |s'.procs| == |s.procs| && Local(s, s', i, s'.procs[i], s'.waitLock) && Shape(s', i, s'.procs[i])
  {
    hide Inv, Family;
    Facts(s, i);
  }

  lemma SleepFamily(s: State, s': State, i: nat)
    requires Inv(s) && SleepOnly(s, s', i) && |s'.procs| == |s.procs| && Local(s, s', i, s'.procs[i], s'.waitLock)
    ensures Kindred(s, s', i)
  {
    hide Inv;
    Facts(s, i);
    if HasWait(s.procs[i].pc) {
      Kin(s, i);
    }
  }

  lemma SleepAlone(s: State, s': State, i: nat)
    requires Inv(s) && SleepOnly(s, s', i)
    ensures Inv(s')
  {
    SleepLocal(s, s', i);
    SleepFamily(s, s', i);
    hide Inv, SleepOnly, Local, Shape, Family, WakingInit, Committed;
    LocalKeeps(s, s', i, s'.procs[i], s'.waitLock);
  }

  // The next round of a wakeup
  function Further(pc: Pc, m: nat): Pc
    requires pc.WakeInit? || pc.WakeParent?
  {
    if pc.WakeInit? then WakeInit(pc.k, m + 1) else WakeParent(pc.ch, m + 1)
  }

  // One round of wakeup, after process m has been woken if it slept on the channel.
  lemma RoundKeeps(s: State, i: nat, m: nat)
    requires Inv(s) && i < |s.procs| && m < |s.procs|
    requires (s.procs[i].pc.WakeInit? || s.procs[i].pc.WakeParent?) && s.procs[i].pc.m == m
    requires s.procs[i].pc.WakeInit? && m == s.init ==> !Committed(s.procs[m])
    requires s.procs[i].pc.WakeParent? && s.procs[i].parent == Some(m) ==> !Committed(s.procs[m])
    ensures Inv(Set(s, i, s.procs[i].(pc := Further(s.procs[i].pc, m))))
  {
    hide Inv;
    Facts(s, i);
    var p := s.procs[i].(pc := Further(s.procs[i].pc, m));
    LocalKeeps(s, Set(s, i, p), i, p, s.waitLock);
  }

  lemma ScanKeeps(s: State, s': State, i: nat, ch: Option<nat>, m: nat, pc: Pc)
    requires Inv(s) && i < |s.procs| && m < |s.procs| && ScanRound(s, s', i, ch, m, pc)
    requires
      || (s.procs[i].pc.WakeInit? && ch == Some(s.init) && s.procs[i].pc.m == m && pc == Further(s.procs[i].pc, m))
      || (s.procs[i].pc == WakeParent(ch, m) && pc == WakeParent(ch, m + 1))
    ensures Inv(s')
  {
    hide Inv;
    Facts(s, i);
    Facts(s, m);
    if m != i && s.procs[m] != WakeIfOn(s.procs[m], ch) {
      var t := Set(s, m, s.procs[m].(status := LIVE));
      WakeKeeps(s, m);
      RoundKeeps(t, i, m);
    } else {
      assert s.procs[m := s.procs[m]] == s.procs;
      RoundKeeps(s, i, m);
    }
  }

  // ---------------------------------------------------------------- steps on two processes

  // A parent that is not in exit, in wait's search or in its sleep.
  predicate Easy(p: Proc) {
    Alive(p) && !Exiting(p.pc) && !p.pc.SleepOwn? && !p.pc.SleepDrop? && !p.pc.WaitScan? && !Committed(p)
  }

  lemma MakingsKept(s: State, s': State, i: nat, k: nat)
    requires Makings(s) && i < |s.procs| && k < |s.procs| && |s'.procs| == |s.procs| && i != k
    requires forall j: nat :: j < |s.procs| && j != i && j != k ==> s'.procs[j] == s.procs[j]
    requires s'.procs[k].pc == s.procs[k].pc || s'.procs[k].pc == Idle
    requires s'.procs[i].maker == s.procs[i].maker && s'.procs[i].parent == s.procs[i].parent
    requires forall j: nat :: j < |s.procs| && j != i ==> s.procs[j].pc != ForkLink(k) && s.procs[j].pc != ForkStart(k)
    requires forall c: nat :: Making(s', i, c)
    ensures Makings(s')
  {
    forall j: nat, c: nat | j < |s'.procs| ensures Making(s', j, c) {
      assert Making(s, j, c);
    }
  }

  // Nobody but its maker is forking k.
  lemma OneMaker(s: State, i: nat, k: nat)
    requires Makings(s) && k < |s.procs| && (s.procs[k].maker == None || s.procs[k].maker == Some(i))
    ensures forall j: nat :: j < |s.procs| && j != i ==> s.procs[j].pc != ForkLink(k) && s.procs[j].pc != ForkStart(k)
  {
    forall j: nat | j < |s.procs| && j != i ensures s.procs[j].pc != ForkLink(k) && s.procs[j].pc != ForkStart(k) {
      assert Making(s, j, k);
    }
  }

  // A child is handed to init, which is then still to be woken.
  lemma HandedOver(s: State, s': State, i: nat, k: nat)
    requires Inv(s) && i < |s.procs| && k < |s.procs| && s.procs[i].pc == Reparent(k) && s.procs[k].parent == Some(i)
    requires k != i
    requires s' == Set(Set(s, k, s.procs[k].(parent := Some(s.init))), i, s.procs[i].(pc := WakeInit(k, 0)))
    ensures Inv(s')
  {
    assert Shape(s, i, s.procs[i]) && Shape(s, k, s.procs[k]) && Shape(s, s.init, s.procs[s.init]) && Family(s, k, i);
    assert Shapes(s') by {
      forall j: nat | j < |s'.procs| ensures Shape(s', j, s'.procs[j]) {
        assert Shape(s, j, s.procs[j]);
      }
    }
    HandedFamilies(s, s', i, k);
    forall j: nat | j < |s.procs| && j != i ensures s.procs[j].pc != ForkLink(k) && s.procs[j].pc != ForkStart(k) {
      assert Making(s, j, k);
    }
    MakingsKept(s, s', i, k);
  }

  lemma HandedFamilies(s: State, s': State, i: nat, k: nat)
    requires Shapes(s) && Families(s)
    requires i < |s.procs| && k < |s.procs| && s.procs[i].pc == Reparent(k) && s.procs[k].parent == Some(i) && k != i
    requires s' == Set(Set(s, k, s.procs[k].(parent := Some(s.init))), i, s.procs[i].(pc := WakeInit(k, 0)))
    ensures Families(s')
  {
    assert Shape(s, i, s.procs[i]) && Shape(s, k, s.procs[k]) && Shape(s, s.init, s.procs[s.init]);
    assert s.waitLock == Some(i) && WakingInit(s');
    forall c: nat | c < |s'.procs| && s'.procs[c].parent.Some?
      ensures s'.procs[c].parent.value < |s'.procs| && Family(s', c, s'.procs[c].parent.value)
    {
      assert Family(s, c, s.procs[c].parent.value);
      assert Shape(s, c, s.procs[c]);
    }
  }

  // wait frees a zombie child, which has left its kernel stack.
  lemma FreesChild(s: State, s': State, i: nat, k: nat)
    requires Inv(s) && i < |s.procs| && k < |s.procs| && k != i && s.procs[i].pc.WaitScan?
    requires s.procs[k].parent == Some(i) && s.procs[k].status == ZOMBIE && !HasOwn(s.procs[k].pc)
    requires s' == Set(Set(s, k, Freed(s.procs[k])), i, s.procs[i].(pc := Idle)).(waitLock := None)
    ensures Inv(s') && s.procs[k].pc == Gone
  {
    assert Shape(s, i, s.procs[i]) && Shape(s, k, s.procs[k]) && Family(s, k, i);
    assert Shapes(s') by {
      forall j: nat | j < |s'.procs| ensures Shape(s', j, s'.procs[j]) {
        assert Shape(s, j, s.procs[j]);
      }
    }
    EasyFamilies(s, s', i, k);
    OneMaker(s, i, k);
    MakingsKept(s, s', i, k);
  }

  // Process i becomes easy to have as a parent, process k is of no family or a
  // child of i that is no zombie.
  lemma EasyFamilies(s: State, s': State, i: nat, k: nat)
    requires Shapes(s) && Families(s) && i < |s.procs| && k < |s.procs| && i != k
    requires |s'.procs| == |s.procs| && s'.init == s.init && (WakingInit(s) ==> WakingInit(s'))
    requires forall j: nat :: j < |s.procs| && j != i && j != k ==> s'.procs[j] == s.procs[j]
    requires Easy(s'.procs[i]) && s'.procs[i].parent == s.procs[i].parent && s'.procs[i].status != ZOMBIE
    requires s'.procs[k].parent == None || (s'.procs[k].parent == Some(i) && s'.procs[k].status != ZOMBIE)
    requires forall c: nat :: c < |s.procs| && c != k ==> s.procs[c].parent != Some(k)
    ensures Families(s')
  {
    forall c: nat | c < |s'.procs| && s'.procs[c].parent.Some?
      ensures s'.procs[c].parent.value < |s'.procs| && Family(s', c, s'.procs[c].parent.value)
    {
      if c != k {
        assert Family(s, c, s.procs[c].parent.value);
      }
    }
  }

  // The three steps of fork.
  ghost predicate ForkStep(s: State, s': State, i: nat, k: nat, c: Proc, pc: Pc) {
    && i < |s.procs| && k < |s.procs| && k != i && s' == Set(Set(s, k, c), i, s.procs[i].(pc := pc))
    && s.procs[i].status == LIVE
    && (|| (s.procs[i].pc == Idle && pc == ForkLink(k) && s.procs[k].status == UNUSED
            && c == s.procs[k].(status := USED, maker := Some(i)))
        || (s.procs[i].pc == ForkLink(k) && pc == ForkStart(k) && c == s.procs[k].(parent := Some(i)))
        || (s.procs[i].pc == ForkStart(k) && pc == Idle && c == s.procs[k].(status := LIVE, maker := None)))
  }

  lemma ForkKeeps(s: State, s': State, i: nat, k: nat, c: Proc, pc: Pc)
    requires Inv(s) && ForkStep(s, s', i, k, c, pc)
    ensures Inv(s')
  {
    assert Making(s, i, k) && Shape(s, i, s.procs[i]) && Shape(s, k, s.procs[k]);
    NoChildren(s, k);
    OneMaker(s, i, k);
    assert WakingInit(s) ==> WakingInit(s');
    hide Shapes, Families, Makings, WakingInit;
    ForkShapes(s, s', i, k, c, pc);
    EasyFamilies(s, s', i, k);
    MakingsKept(s, s', i, k);
  }

  lemma ForkShapes(s: State, s': State, i: nat, k: nat, c: Proc, pc: Pc)
    requires Shapes(s) && ForkStep(s, s', i, k, c, pc) && Making(s, i, k)
    ensures Shapes(s')
  {
    assert Shape(s, i, s.procs[i]) && Shape(s, k, s.procs[k]);
    forall j: nat | j < |s'.procs| ensures Shape(s', j, s'.procs[j]) {
      assert Shape(s, j, s.procs[j]);
    }
  }

  lemma NoChildren(s: State, k: nat)
    requires Families(s) && k < |s.procs| && !Alive(s.procs[k])
    ensures forall c: nat :: c < |s.procs| ==> s.procs[c].parent != Some(k)
  {
    forall c: nat | c < |s.procs| && s.procs[c].parent.Some? ensures s.procs[c].parent.value != k {
      assert Family(s, c, s.procs[c].parent.value);
    }
  }

  // ---------------------------------------------------------------- all steps

  lemma AdvanceKeeps(s: State, s': State, i: nat)
    requires Inv(s) && i < |s.procs| && AdvanceStep(s, s', i)
    ensures Inv(s')
  {
    hide Inv, Making, Family;
    Facts(s, i);
    match s.procs[i].pc
    case ForkLink(k) => ForkKeeps(s, s', i, k, s.procs[k].(parent := Some(i)), ForkStart(k));
    case ForkStart(k) => ForkKeeps(s, s', i, k, s.procs[k].(status := LIVE, maker := None), Idle);
    case ExitWant => ExitSteps(s, s', i);
    case Reparent(k) => ExitSteps(s, s', i);
    case WakeInit(k, m) => ExitSteps(s, s', i);
    case WakeParent(ch, m) => ExitSteps(s, s', i);
    case ExitOwn => ExitSteps(s, s', i);
    case ExitMark => ExitSteps(s, s', i);
    case ExitDrop => ExitSteps(s, s', i);
    case ExitSwitch => ExitSteps(s, s', i);
    case WaitWant => WaitAlone(s, s', i);
    case WaitScan(k, kids) =>
      if k < |s.procs| && s.procs[k].parent == Some(i) && s.procs[k].status == ZOMBIE {
        FreesChild(s, s', i, k);
      } else {
        WaitAlone(s, s', i);
      }
    case SleepOwn => SleepAlone(s, s', i);
    case SleepDrop => SleepAlone(s, s', i);
    case SleepMark => SleepAlone(s, s', i);
    case SleepSwitch => SleepAlone(s, s', i);
    case Asleep => SleepAlone(s, s', i);
  }

  lemma ExitSteps(s: State, s': State, i: nat)
    requires Inv(s) && i < |s.procs| && AdvanceStep(s, s', i) && Exiting(s.procs[i].pc)
    ensures Inv(s')
  {
    hide Inv;
    match s.procs[i].pc
    case Reparent(k) =>
      if k < |s.procs| && s.procs[k].parent == Some(i) {
        HandedOver(s, s', i, k);
      } else {
        ExitAlone(s, s', i);
      }
    case WakeInit(k, m) =>
      if m < |s.procs| {
        ScanKeeps(s, s', i, Some(s.init), m, WakeInit(k, m + 1));
      } else {
        ExitAlone(s, s', i);
      }
    case WakeParent(ch, m) =>
      if m < |s.procs| {
        ScanKeeps(s, s', i, ch, m, WakeParent(ch, m + 1));
      } else {
        ExitAlone(s, s', i);
      }
    case ExitMark => ExitMarks(s, s', i);
    case _ => ExitAlone(s, s', i);
  }

  lemma CallKeeps(s: State, s': State, i: nat, a: Action)
    requires Inv(s) && Next(s, s', i, a) && (a.Exit? || a.Wait? || a.Abort?)
    ensures Inv(s')
  {
    hide Inv;
    Facts(s, i);
    LocalKeeps(s, s', i, s'.procs[i], s'.waitLock);
  }

  lemma Kept(s: State, s': State, i: nat, a: Action)
    requires Inv(s) && Next(s, s', i, a)
    ensures Inv(s')
  {
    hide Inv, Making, Family;
    match a
    case Advance => AdvanceKeeps(s, s', i);
    case Fork(k) => ForkKeeps(s, s', i, k, s.procs[k].(status := USED, maker := Some(i)), ForkLink(k));
    case Kill(k) =>
      if s.procs[k].status == SLEEPING {
        WakeKeeps(s, k);
      } else {
        assert s.procs[k := s.procs[k]] == s.procs;
      }
    case _ => CallKeeps(s, s', i, a);
  }

  // ---------------------------------------------------------------- whole runs

  ghost predicate Run(ss: seq<State>, who: seq<nat>, acts: seq<Action>) {
    && |ss| == |who| + 1 && |acts| == |who|
    && Init(ss[0])
    && forall t :: 0 <= t < |who| ==> Next(ss[t], ss[t + 1], who[t], acts[t])
  }

  lemma {:induction false} RunInv(ss: seq<State>, who: seq<nat>, acts: seq<Action>, t: nat)
    requires Run(ss, who, acts) && t < |ss|
    ensures Inv(ss[t])
  {
    hide Inv, Init, Next;
    if t > 0 {
      RunInv(ss, who, acts, t - 1);
      assert Next(ss[t - 1], ss[t - 1 + 1], who[t - 1], acts[t - 1]);
      Kept(ss[t - 1], ss[t], who[t - 1], acts[t - 1]);
    } else {
      InitInv(ss[0]);
    }
  }

  lemma InitInv(s: State)
    requires Init(s)
    ensures Inv(s)
  {
  }

  // In every run every process but init has a parent once it runs and until it
  // is freed, and a parent is never a free slot, a zombie or the child itself.
  lemma ParentsLive(ss: seq<State>, who: seq<nat>, acts: seq<Action>, t: nat, k: nat)
    requires Run(ss, who, acts) && t < |ss| && k < |ss[t].procs|
    ensures var s := ss[t];
            && (k != s.init && (Alive(s.procs[k]) || s.procs[k].status == ZOMBIE) ==> s.procs[k].parent.Some?)
            && (s.procs[k].parent.Some? ==>
                  && s.procs[k].parent.value < |s.procs| && s.procs[k].parent.value != k
                  && Alive(s.procs[s.procs[k].parent.value]))
  {
    RunInv(ss, who, acts, t);
    Facts(ss[t], k);
  }

  // In every run, whenever wait_lock is free, no process asleep in wait has a
  // zombie child.
  lemma NoSleeperOverZombie(ss: seq<State>, who: seq<nat>, acts: seq<Action>, t: nat, j: nat, k: nat)
    requires Run(ss, who, acts) && t < |ss| && j < |ss[t].procs| && k < |ss[t].procs|
    requires ss[t].waitLock == None && ss[t].procs[k].parent == Some(j) && ss[t].procs[k].status == ZOMBIE
    ensures ss[t].procs[j].status != SLEEPING
  {
    RunInv(ss, who, acts, t);
    Facts(ss[t], j);
    Facts(ss[t], k);
  }

  // In every run a zombie is freed by a step of its current parent, after the
  // zombie has left its kernel stack, and as often as it became one.
  lemma FreedOnceByParent(ss: seq<State>, who: seq<nat>, acts: seq<Action>, t: nat, k: nat)
    requires Run(ss, who, acts) && t < |who| && k < |ss[t].procs| && |ss[t + 1].procs| == |ss[t].procs|
    ensures ss[t].procs[k].zombies == ss[t].procs[k].frees + if ss[t].procs[k].status == ZOMBIE then 1 else 0
    ensures ss[t].procs[k].status == ZOMBIE && ss[t + 1].procs[k].status != ZOMBIE ==>
      && ss[t].procs[k].parent == Some(who[t]) && ss[t].procs[k].pc == Gone
      && ss[t + 1].procs[k].status == UNUSED && ss[t + 1].procs[k].frees == ss[t].procs[k].frees + 1
    ensures ss[t + 1].procs[k].frees > ss[t].procs[k].frees ==> ss[t].procs[k].status == ZOMBIE
  {
    var s, s', i := ss[t], ss[t + 1], who[t];
    RunInv(ss, who, acts, t);
    assert Next(s, s', i, acts[t]);
    Facts(s, k);
    Facts(s, i);
    if s.procs[i].pc.ForkStart? {
      assert Making(s, i, s.procs[i].pc.k);
      Facts(s, s.procs[i].pc.k);
    }
    hide Inv, Family, Making;
    FreeStep(s, s', i, acts[t], k);
  }

  lemma FreeStep(s: State, s': State, i: nat, a: Action, k: nat)
    requires Next(s, s', i, a) && k < |s.procs|
    requires s.procs[k].status == ZOMBIE <==>
      s.procs[k].pc.ExitDrop? || s.procs[k].pc.ExitSwitch? || s.procs[k].pc.Gone?
    requires s.procs[i].pc.ForkStart? ==> s.procs[i].pc.k < |s.procs| && s.procs[s.procs[i].pc.k].status == USED
    ensures |s'.procs| == |s.procs|
    ensures s.procs[k].status == ZOMBIE && s'.procs[k].status != ZOMBIE ==>
      && s.procs[k].parent == Some(i) && s.procs[k].pc == Gone
      && s'.procs[k].status == UNUSED && s'.procs[k].frees == s.procs[k].frees + 1
    ensures s'.procs[k].frees > s.procs[k].frees ==> s.procs[k].status == ZOMBIE
  {
    if a == Advance {
      match s.procs[i].pc
      case ForkStart(c) =>
      case WakeInit(c, m) =>
      case WakeParent(ch, m) =>
      case WaitScan(c, kids) =>
      case _ =>
    }
  }

  // ---------------------------------------------------------------- what wait has seen

  // wait's havekids: whether one of the processes passed is a child.
  ghost predicate Seen(s: State, i: nat)
    requires i < |s.procs|
  {
    s.procs[i].pc.WaitScan? ==>
      (s.procs[i].pc.kids <==> exists j: nat :: j < s.procs[i].pc.k && ChildOf(s, j, i))
  }

  predicate ChildOf(s: State, j: nat, i: nat) {
    j < |s.procs| && s.procs[j].parent == Some(i)
  }

  // Only the holder of wait_lock changes what the one in wait has seen.
  lemma ChildrenStay(s: State, s': State, i: nat, a: Action, w: nat)
    requires Inv(s) && Next(s, s', i, a) && w < |s.procs| && s.procs[w].pc.WaitScan? && w != i
    ensures |s'.procs| == |s.procs| && s'.procs[w].pc == s.procs[w].pc
    ensures forall j: nat :: ChildOf(s', j, w) <==> ChildOf(s, j, w)
  {
    Facts(s, w);
    Facts(s, i);
    if s.procs[i].pc.ForkLink? || s.procs[i].pc.ForkStart? {
      assert Making(s, i, s.procs[i].pc.k);
      Facts(s, s.procs[i].pc.k);
    }
    hide Inv, Family, Making, Shape;
    StaysStep(s, s', i, a, w);
  }

  lemma StaysStep(s: State, s': State, i: nat, a: Action, w: nat)
    requires Next(s, s', i, a) && w < |s.procs| && s.procs[w].pc.WaitScan? && w != i && s.waitLock.Some?
    requires s.procs[w].status != UNUSED && s.procs[w].status != ZOMBIE && !s.procs[i].pc.Reparent?
    requires !s.procs[i].pc.WaitScan?
    ensures |s'.procs| == |s.procs| && s'.procs[w].pc == s.procs[w].pc
    ensures forall j: nat :: ChildOf(s', j, w) <==> ChildOf(s, j, w)
  {
    if a == Advance {
      match s.procs[i].pc
      case ForkStart(c) =>
      case WakeInit(c, m) =>
      case WakeParent(ch, m) =>
      case _ =>
    }
  }

  // The search goes on: one process passed, or the lock just taken.
  lemma SeenOwn(s: State, s': State, i: nat, a: Action)
    requires Inv(s) && Next(s, s', i, a) && Seen(s, i)
    ensures |s'.procs| == |s.procs| && Seen(s', i)
  {
    hide Inv;
    if s.procs[i].pc.WaitScan? {
      if a == Advance {
        SeenScan(s, s', i);
      }
    } else {
      SeenStart(s, s', i, a);
    }
  }

  lemma SeenScan(s: State, s': State, i: nat)
    requires i < |s.procs| && s.procs[i].pc.WaitScan? && AdvanceStep(s, s', i) && Seen(s, i)
    ensures |s'.procs| == |s.procs| && Seen(s', i)
  {
    var k := s.procs[i].pc.k;
    assert forall j: nat :: j < k + 1 && ChildOf(s, j, i) ==> j < k || j == k;
    if s'.procs[i].pc.WaitScan? {
      assert forall j: nat :: ChildOf(s', j, i) <==> ChildOf(s, j, i);
      assert ChildOf(s, k, i) ==> ChildOf(s', k, i);
    }
  }

  lemma SeenStart(s: State, s': State, i: nat, a: Action)
    requires Next(s, s', i, a) && !s.procs[i].pc.WaitScan?
    ensures |s'.procs| == |s.procs| && (s'.procs[i].pc.WaitScan? ==> s'.procs[i].pc == WaitScan(0, false))
  {
    if a == Advance {
      match s.procs[i].pc
      case ForkLink(c) =>
      case ForkStart(c) =>
      case Reparent(c) =>
      case WakeInit(c, m) =>
      case WakeParent(ch, m) =>
      case _ =>
    }
  }

  lemma SeenOther(s: State, s': State, i: nat, a: Action, w: nat)
    requires Inv(s) && Next(s, s', i, a) && w < |s.procs| && w != i && Seen(s, w)
    ensures |s'.procs| == |s.procs| && Seen(s', w)
  {
    if s.procs[w].pc.WaitScan? {
      ChildrenStay(s, s', i, a, w);
    } else {
      NotScanning(s, s', i, a, w);
    }
  }

  lemma NotScanning(s: State, s': State, i: nat, a: Action, w: nat)
    requires Inv(s) && Next(s, s', i, a) && w < |s.procs| && w != i && !s.procs[w].pc.WaitScan?
    ensures |s'.procs| == |s.procs| && !s'.procs[w].pc.WaitScan?
  {
    hide Inv;
    if a == Advance {
      match s.procs[i].pc
      case ForkLink(c) =>
      case ForkStart(c) =>
      case Reparent(c) =>
      case WakeInit(c, m) =>
      case WakeParent(ch, m) =>
      case WaitScan(c, kids) =>
      case _ =>
    }
  }

  lemma {:induction false} RunSeen(ss: seq<State>, who: seq<nat>, acts: seq<Action>, t: nat, w: nat)
    requires Run(ss, who, acts) && t < |ss| && w < |ss[t].procs|
    ensures Seen(ss[t], w)
    decreases t
  {
    if t > 0 {
      RunInv(ss, who, acts, t - 1);
      hide Inv, Seen;
      assert Next(ss[t - 1], ss[t - 1 + 1], who[t - 1], acts[t - 1]);
      SameCount(ss[t - 1], ss[t], who[t - 1], acts[t - 1]);
      RunSeen(ss, who, acts, t - 1, w);
      if w == who[t - 1] {
        SeenOwn(ss[t - 1], ss[t], w, acts[t - 1]);
      } else {
        SeenOther(ss[t - 1], ss[t], who[t - 1], acts[t - 1], w);
      }
    }
  }

  lemma SameCount(s: State, s': State, i: nat, a: Action)
    requires Next(s, s', i, a)
    ensures |s'.procs| == |s.procs|
  {
    if a == Advance {
      match s.procs[i].pc
      case ForkLink(c) =>
      case Reparent(c) =>
      case WakeInit(c, m) =>
      case WakeParent(ch, m) =>
      case WaitScan(c, kids) =>
      case _ =>
    }
  }

  // In every run, unless it is aborted, wait leaves its search in one of three
  // ways: it returns with a zombie child, which it has freed; it returns without
  // if and only if it has no child at all; it goes to sleep if and only if it has
  // children and none of them is a zombie.
  lemma WaitEnds(ss: seq<State>, who: seq<nat>, acts: seq<Action>, t: nat)
    requires Run(ss, who, acts) && t < |who| && acts[t] == Advance && who[t] < |ss[t].procs|
    requires ss[t].procs[who[t]].pc.WaitScan?
    ensures |ss[t + 1].procs| == |ss[t].procs|
    ensures var s, s', i, k := ss[t], ss[t + 1], who[t], ss[t].procs[who[t]].pc.k;
            if k < |s.procs| then
              if ChildOf(s, k, i) && s.procs[k].status == ZOMBIE
              then s'.procs[i].pc == Idle && s'.procs[k].status == UNUSED && s'.waitLock == None
              else s'.procs[i].pc.WaitScan? && s'.procs[i].pc.k == k + 1
            else
              && (s'.procs[i].pc == Idle || s'.procs[i].pc == SleepOwn)
              && (s'.procs[i].pc == Idle <==> forall j: nat :: !ChildOf(s, j, i))
              && (forall j: nat :: ChildOf(s, j, i) ==> s.procs[j].status != ZOMBIE)
  {
    RunInv(ss, who, acts, t);
    RunSeen(ss, who, acts, t, who[t]);
    assert Next(ss[t], ss[t + 1], who[t], acts[t]);
    Facts(ss[t], who[t]);
    hide Inv, Making;
  }

  // In every run a process asleep in wait is woken only by kill or by a wakeup on
  // its own channel.
  lemma WokenByChild(ss: seq<State>, who: seq<nat>, acts: seq<Action>, t: nat, j: nat)
    requires Run(ss, who, acts) && t < |who| && j < |ss[t].procs| == |ss[t + 1].procs|
    requires ss[t].procs[j].status == SLEEPING && ss[t + 1].procs[j].status != SLEEPING
    ensures who[t] < |ss[t].procs| && ss[t + 1].procs[j].status == LIVE
    ensures var pc := ss[t].procs[who[t]].pc;
            || acts[t] == Kill(j)
            || (pc.WakeInit? && pc.m == j && ss[t].init == j)
            || (pc.WakeParent? && pc.m == j && pc.ch == Some(j) == ss[t].procs[who[t]].parent)
  {
    RunInv(ss, who, acts, t);
    assert Next(ss[t], ss[t + 1], who[t], acts[t]);
    hide Run, Inv, Next;
    WokenStep(ss[t], ss[t + 1], who[t], acts[t], j);
  }

  lemma WokenStep(s: State, s': State, i: nat, a: Action, j: nat)
    requires Inv(s) && Next(s, s', i, a) && j < |s.procs| == |s'.procs|
    requires s.procs[j].status == SLEEPING && s'.procs[j].status != SLEEPING
    ensures i < |s.procs| && s'.procs[j].status == LIVE
    ensures var pc := s.procs[i].pc;
            || a == Kill(j)
            || (pc.WakeInit? && pc.m == j && s.init == j)
            || (pc.WakeParent? && pc.m == j && pc.ch == Some(j) == s.procs[i].parent)
  {
    hide Inv, Family;
    Facts(s, j);
    Facts(s, i);
    if s.procs[i].pc.ForkStart? {
      Maker(s, i);
    }
    hide Shape;
    WokenCases(s, s', i, a, j);
  }

  lemma WokenCases(s: State, s': State, i: nat, a: Action, j: nat)
    requires Next(s, s', i, a) && j < |s.procs| == |s'.procs|
    requires s.procs[j].status == SLEEPING && s'.procs[j].status != SLEEPING
    requires s.procs[j].pc.SleepSwitch? || s.procs[j].pc.Asleep?
    requires s.procs[j].chan == Some(j) && (s.procs[i].pc.WakeParent? ==> s.procs[i].pc.ch == s.procs[i].parent)
    requires s.procs[i].pc.ForkStart? ==> s.procs[i].pc.k < |s.procs| && s.procs[s.procs[i].pc.k].status == USED
    ensures s'.procs[j].status == LIVE
    ensures var pc := s.procs[i].pc;
            || a == Kill(j)
            || (pc.WakeInit? && pc.m == j && s.init == j)
            || (pc.WakeParent? && pc.m == j && pc.ch == Some(j) == s.procs[i].parent)
  {
    if a == Advance {
      match s.procs[i].pc
      case ForkLink(c) =>
      case ForkStart(c) =>
      case Reparent(c) =>
      case WakeInit(c, m) =>
      case WakeParent(ch, m) =>
      case WaitScan(c, kids) =>
      case _ =>
    }
  }

  lemma Maker(s: State, i: nat)
    requires Inv(s) && i < |s.procs| && s.procs[i].pc.ForkStart?
    ensures s.procs[i].pc.k < |s.procs| && s.procs[s.procs[i].pc.k].status == USED
  {
    assert Making(s, i, s.procs[i].pc.k);
    Facts(s, s.procs[i].pc.k);
  }

  // In every run a process gets a parent from the fork that makes it, goes to
  // init when its parent exits, and loses its parent only when that frees it.
  lemma ParentChanges(ss: seq<State>, who: seq<nat>, acts: seq<Action>, t: nat, k: nat)
    requires Run(ss, who, acts) && t < |who| && k < |ss[t].procs|
    ensures who[t] < |ss[t].procs| == |ss[t + 1].procs| && ss[t + 1].init == ss[t].init
    ensures var s, s', i := ss[t], ss[t + 1], who[t];
            s'.procs[k].parent != s.procs[k].parent ==>
              || (s.procs[k].parent == None && s'.procs[k].parent == Some(i) && s.procs[i].pc == ForkLink(k))
              || (s.procs[k].parent == Some(i) && s'.procs[k].parent == Some(s.init) && s.procs[i].pc == Reparent(k))
              || (s.procs[k].parent == Some(i) && s'.procs[k].parent == None && s.procs[k].status == ZOMBIE
                  && s.procs[i].pc.WaitScan? && s'.procs[k].status == UNUSED)
  {
    RunInv(ss, who, acts, t);
    assert Next(ss[t], ss[t + 1], who[t], acts[t]);
    if ss[t].procs[who[t]].pc.ForkLink? {
      assert Making(ss[t], who[t], ss[t].procs[who[t]].pc.k);
    }
    hide Run, Inv, Making;
    ParentStep(ss[t], ss[t + 1], who[t], acts[t], k);
  }

  lemma ParentStep(s: State, s': State, i: nat, a: Action, k: nat)
    requires Next(s, s', i, a) && k < |s.procs|
    requires s.procs[i].pc == ForkLink(k) ==> s.procs[k].parent == None
    ensures |s'.procs| == |s.procs| && s'.init == s.init
    ensures s'.procs[k].parent != s.procs[k].parent ==>
              || (s.procs[k].parent == None && s'.procs[k].parent == Some(i) && s.procs[i].pc == ForkLink(k))
              || (s.procs[k].parent == Some(i) && s'.procs[k].parent == Some(s.init) && s.procs[i].pc == Reparent(k))
              || (s.procs[k].parent == Some(i) && s'.procs[k].parent == None && s.procs[k].status == ZOMBIE
                  && s.procs[i].pc.WaitScan? && s'.procs[k].status == UNUSED)
  {
    if a == Advance {
      match s.procs[i].pc
      case ForkLink(c) =>
      case ForkStart(c) =>
      case Reparent(c) =>
      case WakeInit(c, m) =>
      case WakeParent(ch, m) =>
      case WaitScan(c, kids) =>
      case _ =>
    }
  }

  // In every run exit leaves no child behind: past reparent nobody has the
  // exiting process as parent.
  lemma AllHandedOver(ss: seq<State>, who: seq<nat>, acts: seq<Action>, t: nat, i: nat, k: nat)
    requires Run(ss, who, acts) && t < |ss| && i < |ss[t].procs| && Abandoned(ss[t].procs[i].pc)
    ensures !ChildOf(ss[t], k, i)
  {
    RunInv(ss, who, acts, t);
    Facts(ss[t], i);
  }

  // ---------------------------------------------------------------- nobody is stuck

  // The loops stay within the process table.
  ghost predicate InTable(s: State, i: nat)
    requires i < |s.procs|
  {
    var n := |s.procs|;
    match s.procs[i].pc
    case Reparent(k) => k <= n
    case WakeInit(k, m) => k < n && m <= n
    case WakeParent(_, m) => m <= n
    case WaitScan(k, _) => k <= n
    case _ => true
  }

  lemma InTableOwn(s: State, s': State, i: nat, a: Action)
    requires Next(s, s', i, a) && InTable(s, i)
    ensures |s'.procs| == |s.procs| && InTable(s', i)
  {
    if a == Advance {
      match s.procs[i].pc
      case ForkLink(c) =>
      case ForkStart(c) =>
      case Reparent(c) =>
      case WakeInit(c, m) =>
      case WakeParent(ch, m) =>
      case WaitScan(c, kids) =>
      case _ =>
    }
  }

  lemma InTableOther(s: State, s': State, i: nat, a: Action, w: nat)
    requires Next(s, s', i, a) && w < |s.procs| && w != i && InTable(s, w)
    ensures |s'.procs| == |s.procs| && InTable(s', w)
  {
    if a == Advance {
      match s.procs[i].pc
      case ForkLink(c) =>
      case ForkStart(c) =>
      case Reparent(c) =>
      case WakeInit(c, m) =>
      case WakeParent(ch, m) =>
      case WaitScan(c, kids) =>
      case _ =>
    }
  }

  lemma {:induction false} RunInTable(ss: seq<State>, who: seq<nat>, acts: seq<Action>, t: nat, i: nat)
    requires Run(ss, who, acts) && t < |ss| && i < |ss[t].procs|
    ensures InTable(ss[t], i)
    decreases t
  {
    if t > 0 {
      hide InTable;
      assert Next(ss[t - 1], ss[t - 1 + 1], who[t - 1], acts[t - 1]);
      SameCount(ss[t - 1], ss[t], who[t - 1], acts[t - 1]);
      RunInTable(ss, who, acts, t - 1, i);
      if i == who[t - 1] {
        InTableOwn(ss[t - 1], ss[t], i, acts[t - 1]);
      } else {
        InTableOther(ss[t - 1], ss[t], who[t - 1], acts[t - 1], i);
      }
    }
  }

  // What a process in fork, exit or wait has to wait for: wait_lock, the p->lock
  // of the process it has come to, or being woken.
  ghost predicate Waits(s: State, i: nat)
    requires i < |s.procs|
  {
    match s.procs[i].pc
    case ForkLink(_) => s.waitLock.Some?
    case ExitWant => s.waitLock.Some?
    case WaitWant => s.waitLock.Some?
    case WakeInit(_, m) => m < |s.procs| && m != i && HasOwn(s.procs[m].pc)
    case WakeParent(_, m) => m < |s.procs| && m != i && HasOwn(s.procs[m].pc)
    case WaitScan(k, _) => k < |s.procs| && ChildOf(s, k, i) && HasOwn(s.procs[k].pc)
    case Asleep => s.procs[i].status == SLEEPING
    case _ => false
  }

  // In every run a process inside fork, exit or wait can always take its next
  // step unless it has to wait for one of these.
  lemma NeverStuck(ss: seq<State>, who: seq<nat>, acts: seq<Action>, t: nat, i: nat) returns (s': State)
    requires Run(ss, who, acts) && t < |ss| && i < |ss[t].procs| && !Waits(ss[t], i)
    requires ss[t].procs[i].pc != Idle && ss[t].procs[i].pc != Gone
    ensures Next(ss[t], s', i, Advance)
  {
    RunInv(ss, who, acts, t);
    hide Run, Inv, Waits, Next, AdvanceStep;
    OtherProcess(ss[t], i);
    var s, pc := ss[t], ss[t].procs[i].pc;
    if pc.ForkLink? || pc.ForkStart? {
      s' := ForkGoes(s, i);
    } else if Exiting(pc) {
      s' := ExitGoes(s, i);
    } else {
      s' := WaitGoes(s, i);
    }
    AdvanceIsNext(s, s', i);
  }

  lemma AdvanceIsNext(s: State, s': State, i: nat)
    requires i < |s.procs| && AdvanceStep(s, s', i)
    ensures Next(s, s', i, Advance)
  {
  }

  // The process a step works on is another one.
  lemma OtherProcess(s: State, i: nat)
    requires Inv(s) && i < |s.procs|
    ensures var pc := s.procs[i].pc; pc.ForkLink? || pc.ForkStart? ==> pc.k < |s.procs| && pc.k != i
    ensures !ChildOf(s, i, i)
    ensures s.procs[i].pc.Asleep? ==> s.procs[i].status == LIVE || s.procs[i].status == SLEEPING
  {
    Facts(s, i);
    var pc := s.procs[i].pc;
    if pc.ForkLink? || pc.ForkStart? {
      assert Making(s, i, pc.k);
      Facts(s, pc.k);
    }
  }

  lemma ForkGoes(s: State, i: nat) returns (s': State)
    requires i < |s.procs| && !Waits(s, i) && (s.procs[i].pc.ForkLink? || s.procs[i].pc.ForkStart?)
    requires s.procs[i].pc.k < |s.procs| && s.procs[i].pc.k != i
    ensures AdvanceStep(s, s', i)
  {
    var p, k := s.procs[i], s.procs[i].pc.k;
    if p.pc.ForkLink? {
      s' := Set(Set(s, k, s.procs[k].(parent := Some(i))), i, p.(pc := ForkStart(k)));
    } else {
      s' := Set(Set(s, k, s.procs[k].(status := LIVE, maker := None)), i, p.(pc := Idle));
    }
  }

  lemma ExitGoes(s: State, i: nat) returns (s': State)
    requires i < |s.procs| && !Waits(s, i) && Exiting(s.procs[i].pc) && s.procs[i].pc != Gone && !ChildOf(s, i, i)
    ensures AdvanceStep(s, s', i)
  {
    var p, n := s.procs[i], |s.procs|;
    match p.pc
    case ExitWant => s' := Set(s, i, p.(pc := Reparent(0))).(waitLock := Some(i));
    case Reparent(k) =>
      s' := if k >= n then Set(s, i, p.(pc := WakeParent(p.parent, 0)))
            else if s.procs[k].parent == Some(i)
                 then Set(Set(s, k, s.procs[k].(parent := Some(s.init))), i, p.(pc := WakeInit(k, 0)))
                 else Set(s, i, p.(pc := Reparent(k + 1)));
    case WakeInit(k, m) =>
      s' := if m >= n then Set(s, i, p.(pc := Reparent(k + 1))) else Scanned(s, i, Some(s.init), m, WakeInit(k, m + 1));
    case WakeParent(ch, m) =>
      s' := if m >= n then Set(s, i, p.(pc := ExitOwn)) else Scanned(s, i, ch, m, WakeParent(ch, m + 1));
    case ExitOwn => s' := Set(s, i, p.(pc := ExitMark));
    case ExitMark => s' := Set(s, i, p.(pc := ExitDrop, status := ZOMBIE, zombies := p.zombies + 1));
    case ExitDrop => s' := Set(s, i, p.(pc := ExitSwitch)).(waitLock := None);
    case ExitSwitch => s' := Set(s, i, p.(pc := Gone));
  }

  lemma WaitGoes(s: State, i: nat) returns (s': State)
    requires i < |s.procs| && !Waits(s, i) && !Exiting(s.procs[i].pc) && !ChildOf(s, i, i)
    requires !s.procs[i].pc.ForkLink? && !s.procs[i].pc.ForkStart? && s.procs[i].pc != Idle
    requires s.procs[i].pc.Asleep? ==> s.procs[i].status == LIVE || s.procs[i].status == SLEEPING
    ensures AdvanceStep(s, s', i)
  {
    var p, n := s.procs[i], |s.procs|;
    match p.pc
    case WaitWant => s' := Set(s, i, p.(pc := WaitScan(0, false))).(waitLock := Some(i));
    case WaitScan(k, kids) =>
      s' := if k >= n then
              (if kids then Set(s, i, p.(pc := SleepOwn)) else Set(s, i, p.(pc := Idle)).(waitLock := None))
            else if s.procs[k].parent != Some(i) then Set(s, i, p.(pc := WaitScan(k + 1, kids)))
            else if s.procs[k].status == ZOMBIE then
              Set(Set(s, k, Freed(s.procs[k])), i, p.(pc := Idle)).(waitLock := None)
            else Set(s, i, p.(pc := WaitScan(k + 1, true)));
    case SleepOwn => s' := Set(s, i, p.(pc := SleepDrop));
    case SleepDrop => s' := Set(s, i, p.(pc := SleepMark)).(waitLock := None);
    case SleepMark => s' := Set(s, i, p.(pc := SleepSwitch, status := SLEEPING, chan := Some(i)));
    case SleepSwitch => s' := Set(s, i, p.(pc := Asleep));
    case Asleep => s' := Set(s, i, p.(pc := WaitWant, chan := None));
  }

  // One round of wakeup
  function Scanned(s: State, i: nat, ch: Option<nat>, m: nat, pc: Pc): State
    requires i < |s.procs| && m < |s.procs|
  {
    if m == i then Set(s, i, s.procs[i].(pc := pc))
    else Set(Set(s, m, WakeIfOn(s.procs[m], ch)), i, s.procs[i].(pc := pc))
  }

  // How far exit is from its end: stage, then processes to reparent, then
  // processes to wake
  function ToGo(pc: Pc, n: nat): (nat, int, int) {
    match pc
    case ExitWant => (7, 0, 0)
    case Reparent(k) => (6, 2 * (n - k) + 1, 0)
    case WakeInit(k, m) => (6, 2 * (n - k), n - m)
    case WakeParent(_, m) => (5, 0, n - m)
    case ExitOwn => (4, 0, 0)
    case ExitMark => (3, 0, 0)
    case ExitDrop => (2, 0, 0)
    case ExitSwitch => (1, 0, 0)
    case _ => (0, 0, 0)
  }

  // In every run exit gets done: each of its steps brings it nearer.
  lemma ExitEnds(ss: seq<State>, who: seq<nat>, acts: seq<Action>, t: nat)
    requires Run(ss, who, acts) && t < |who| && acts[t] == Advance && who[t] < |ss[t].procs|
    requires Exiting(ss[t].procs[who[t]].pc) && ss[t].procs[who[t]].pc != Gone
    ensures |ss[t + 1].procs| == |ss[t].procs| && Exiting(ss[t + 1].procs[who[t]].pc)
    ensures var n := |ss[t].procs|;
            var (a, b, c) := ToGo(ss[t].procs[who[t]].pc, n);
            var (a', b', c') := ToGo(ss[t + 1].procs[who[t]].pc, n);
            && b >= 0 && c >= 0 && b' >= 0 && c' >= 0
            && (a' < a || (a' == a && b' < b) || (a' == a && b' == b && c' < c))
  {
    assert Next(ss[t], ss[t + 1], who[t], acts[t]);
    SameCount(ss[t], ss[t + 1], who[t], acts[t]);
    RunInTable(ss, who, acts, t, who[t]);
    RunInTable(ss, who, acts, t + 1, who[t]);
    hide Run;
    ExitNearer(ss[t], ss[t + 1], who[t]);
  }

  lemma ExitNearer(s: State, s': State, i: nat)
    requires i < |s.procs| == |s'.procs| && AdvanceStep(s, s', i) && Exiting(s.procs[i].pc)
    requires InTable(s, i) && InTable(s', i)
    ensures Exiting(s'.procs[i].pc)
    ensures var (a, b, c) := ToGo(s.procs[i].pc, |s.procs|);
            var (a', b', c') := ToGo(s'.procs[i].pc, |s.procs|);
            && b >= 0 && c >= 0 && b' >= 0 && c' >= 0
            && (a' < a || (a' == a && b' < b) || (a' == a && b' == b && c' < c))
  {
    match s.procs[i].pc
    case Reparent(c) =>
    case WakeInit(c, m) =>
    case WakeParent(ch, m) =>
    case _ =>
  }

  // A live process can fork whenever a slot is free.
  lemma CanFork(s: State, i: nat, k: nat) returns (s': State)
    requires i < |s.procs| && k < |s.procs| && s.procs[i].pc == Idle && s.procs[i].status == LIVE
    requires s.procs[k].status == UNUSED
    ensures Next(s, s', i, Fork(k)) && s'.procs[k].status == USED
  {
    s' := Set(Set(s, k, s.procs[k].(status := USED, maker := Some(i))), i, s.procs[i].(pc := ForkLink(k)));
  }
}
