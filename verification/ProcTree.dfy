// fork, exit, wait, kill and the sleep they use (xv6/kernel/proc.c) as a step system over the
// process table. Every spinlock has an explicit holder; slot 0 is initproc.

module ProcTree {
  datatype PState = UNUSED | USED | SLEEPING | RUNNABLE | RUNNING | ZOMBIE

  /** The statement that the process in a slot executes next. */
  datatype Pc =
    | Idle                            // the slot is UNUSED, or USED and not yet started
    | User                            // outside the calls modelled here
    | UserAsleep                      // asleep there, on some other channel
    // fork
    | ForkScan(i: nat)                // allocproc looks at slot i
    | ForkGot(c: nat)                 // holds the new slot's lock
    | ForkLink(c: nat)                // acquire(&wait_lock)
    | ForkSet(c: nat)                 // np->parent = p
    | ForkUnlock(c: nat)              // release(&wait_lock)
    | ForkRun(c: nat)                 // np->state = RUNNABLE under np->lock
    // exit
    | ExitLock                        // acquire(&wait_lock)
    | Reparent(i: nat)
    | WakeInit(i: nat, j: nat)        // wakeup(initproc) inside reparent, at slot j
    | WakeParent(j: nat)              // wakeup(p->parent), at slot j
    | ExitSelf                        // acquire(&p->lock)
    | ExitZombie                      // p->state = ZOMBIE
    | ExitUnlock                      // release(&wait_lock)
    | ExitSched                       // sched(): the scheduler releases p->lock
    | Dead
    // wait
    | WaitLock                        // acquire(&wait_lock)
    | Scan(i: nat, kids: bool)
    | Reap(c: nat)                    // found a ZOMBIE, holds its lock
    | WaitUnlock                      // release(&wait_lock) and return
    | WaitSleep                       // sleep: acquire(&p->lock)
    | SleepUnlock                     // sleep: release(&wait_lock)
    | Window                          // sleep: p->chan = p; p->state = SLEEPING
    | SleepSched                      // sched()
    | Asleep
    | Waking                          // p->chan = 0; release(&p->lock)

  /** `parent` and `chan` are slots, -1 for null; `lock` is the slot of the holder of p->lock. */
  datatype Proc = Proc(pc: Pc, state: PState, parent: int, chan: int, killed: bool, lock: int)

  datatype State = State(procs: seq<Proc>, wait: int /* holder of wait_lock, or -1 */)

  datatype Step =
    | Advance(p: nat)
    | Fail(p: nat)            // fork runs out of memory, or wait's copyout fails
    | Schedule(p: nat)
    | Yield(p: nat)
    | StartFork(p: nat)
    | StartExit(p: nat)
    | StartWait(p: nat)
    | SleepElsewhere(p: nat)
    | WakeElsewhere(p: nat)
    | Kill(v: nat)

  predicate HoldsWait(pc: Pc) {
    || pc.ForkSet? || pc.ForkUnlock?
    || pc.Reparent? || pc.WakeInit? || pc.WakeParent? || pc.ExitSelf? || pc.ExitZombie? || pc.ExitUnlock?
    || pc.Scan? || pc.Reap? || pc.WaitUnlock? || pc.WaitSleep? || pc.SleepUnlock?
  }

  /** Process `p` at `pc` holds the lock of slot `i`. */
  predicate HoldsLock(pc: Pc, p: int, i: int) {
    || (pc.ForkGot? && pc.c == i) || (pc.Reap? && pc.c == i)
    || (p == i && (pc.ExitZombie? || pc.ExitUnlock? || pc.ExitSched?
                   || pc.SleepUnlock? || pc.Window? || pc.SleepSched? || pc.Waking?))
  }

  predicate HoldsAnyLock(pc: Pc) {
    || HoldsWait(pc) || pc.ForkGot? || pc.ExitSched? || pc.Window? || pc.SleepSched? || pc.Waking?
  }

  predicate Free(s: State, i: nat) { i < |s.procs| && s.procs[i].lock == -1 }

  predicate Enabled(s: State, t: Step) {
    match t
    case Advance(p) =>
      && p < |s.procs|
      && var pr := s.procs[p];
         (match pr.pc
          case ForkScan(i) => pr.state == RUNNING && (i < |s.procs| ==> Free(s, i))
          case ForkRun(c) => pr.state == RUNNING && Free(s, c)
          case ForkGot(c) => pr.state == RUNNING && c < |s.procs|
          case ForkLink(c) => pr.state == RUNNING && s.wait == -1
          case ForkSet(c) => pr.state == RUNNING && c < |s.procs|
          case ExitLock => pr.state == RUNNING && s.wait == -1
          case WakeInit(i, j) => pr.state == RUNNING && (j < |s.procs| && j != p ==> Free(s, j))
          case WakeParent(j) => pr.state == RUNNING && (j < |s.procs| && j != p ==> Free(s, j))
          case ExitSelf => pr.state == RUNNING && Free(s, p)
          case WaitLock => pr.state == RUNNING && s.wait == -1
          case Scan(i, kids) => pr.state == RUNNING && (i < |s.procs| && s.procs[i].parent == p ==> Free(s, i))
          case Reap(c) => pr.state == RUNNING && c < |s.procs|
          case WaitSleep => pr.state == RUNNING && Free(s, p)
          case ExitUnlock => true
          case ExitSched => true
          case SleepSched => true
          case _ => pr.state == RUNNING)
    case Fail(p) =>
      && p < |s.procs| && s.procs[p].state == RUNNING
      && ((s.procs[p].pc.ForkGot? && s.procs[p].pc.c < |s.procs|) || (s.procs[p].pc.Reap? && s.procs[p].pc.c < |s.procs|))
    case Schedule(p) => Free(s, p) && s.procs[p].state == RUNNABLE
    case Yield(p) => Free(s, p) && s.procs[p].state == RUNNING && !HoldsAnyLock(s.procs[p].pc)
    case StartFork(p) => p < |s.procs| && s.procs[p].state == RUNNING && s.procs[p].pc.User?
    case StartExit(p) => 0 < p < |s.procs| && s.procs[p].state == RUNNING && s.procs[p].pc.User?
    case StartWait(p) => p < |s.procs| && s.procs[p].state == RUNNING && s.procs[p].pc.User?
    case SleepElsewhere(p) => Free(s, p) && s.procs[p].state == RUNNING && s.procs[p].pc.User?
    case WakeElsewhere(p) => Free(s, p) && s.procs[p].state == SLEEPING && s.procs[p].pc.UserAsleep?
    case Kill(v) => Free(s, v)
  }

  function Put(s: State, p: nat, pr: Proc): State
    requires p < |s.procs|
  {
    s.(procs := s.procs[p := pr])
  }

  function Goto(s: State, p: nat, pc: Pc): State
    requires p < |s.procs|
  {
    Put(s, p, s.procs[p].(pc := pc))
  }

  /** freeproc, then release of the slot's lock. */
  function FreeProc(s: State, c: nat): State
    requires c < |s.procs|
  {
    Put(s, c, Proc(Idle, UNUSED, -1, -1, false, -1))
  }

  /** One turn of the loop in wakeup(chan) by process `p`. */
  function WakeOne(s: State, p: nat, j: nat, chan: int): State
    requires j < |s.procs|
  {
    if j != p && s.procs[j].state == SLEEPING && s.procs[j].chan == chan && chan >= 0
    then Put(s, j, s.procs[j].(state := RUNNABLE)) else s
  }

  function Do(s: State, t: Step): State
    requires Enabled(s, t)
  {
    match t
    case Advance(p) => Statement(s, p)
    case Fail(p) =>
      var c := s.procs[p].pc.c;
      if s.procs[p].pc.ForkGot? then Goto(FreeProc(s, c), p, User)
      else Goto(Put(s, c, s.procs[c].(lock := -1)), p, WaitUnlock)
    case Schedule(p) =>
      var pr := s.procs[p].(state := RUNNING);
      Put(s, p, if pr.pc.Asleep? then pr.(pc := Waking, lock := p)
                else if pr.pc.UserAsleep? then pr.(pc := User) else pr)
    case Yield(p) => Put(s, p, s.procs[p].(state := RUNNABLE))
    case StartFork(p) => Goto(s, p, ForkScan(0))
    case StartExit(p) => Goto(s, p, ExitLock)
    case StartWait(p) => Goto(s, p, WaitLock)
    case SleepElsewhere(p) => Put(s, p, s.procs[p].(pc := UserAsleep, state := SLEEPING))
    case WakeElsewhere(p) => Put(s, p, s.procs[p].(state := RUNNABLE))
    case Kill(v) =>
      var pr := s.procs[v].(killed := true);
      Put(s, v, if pr.state == SLEEPING then pr.(state := RUNNABLE) else pr)
  }

  function Statement(s: State, p: nat): State
    requires Enabled(s, Advance(p))
  {
    var pr, n := s.procs[p], |s.procs|;
    match pr.pc
    case ForkScan(i) =>
      if i >= n then Goto(s, p, User)
      else if s.procs[i].state == UNUSED
      then Goto(Put(s, i, s.procs[i].(state := USED, lock := p)), p, ForkGot(i))
      else Goto(s, p, ForkScan(i + 1))
    case ForkGot(c) => Goto(Put(s, c, s.procs[c].(lock := -1)), p, ForkLink(c))
    case ForkLink(c) => Goto(s, p, ForkSet(c)).(wait := p)
    case ForkSet(c) => Goto(Put(s, c, s.procs[c].(parent := p)), p, ForkUnlock(c))
    case ForkUnlock(c) => Goto(s, p, ForkRun(c)).(wait := -1)
    case ForkRun(c) => Goto(Put(s, c, s.procs[c].(state := RUNNABLE, pc := User)), p, User)
    case ExitLock => Goto(s, p, Reparent(0)).(wait := p)
    case Reparent(i) =>
      if i >= n then Goto(s, p, WakeParent(0))
      else if s.procs[i].parent == p
      then Goto(Put(s, i, s.procs[i].(parent := 0)), p, WakeInit(i, 0))
      else Goto(s, p, Reparent(i + 1))
    case WakeInit(i, j) =>
      if j >= n then Goto(s, p, Reparent(i + 1))
      else Goto(WakeOne(s, p, j, 0), p, WakeInit(i, j + 1))
    case WakeParent(j) =>
      if j >= n then Goto(s, p, ExitSelf)
      else Goto(WakeOne(s, p, j, pr.parent), p, WakeParent(j + 1))
    case ExitSelf => Put(s, p, pr.(pc := ExitZombie, lock := p))
    case ExitZombie => Put(s, p, pr.(pc := ExitUnlock, state := ZOMBIE))
    case ExitUnlock => Goto(s, p, ExitSched).(wait := -1)
    case ExitSched => Put(s, p, pr.(pc := Dead, lock := -1))
    case WaitLock => Goto(s, p, Scan(0, false)).(wait := p)
    case Scan(i, kids) =>
      if i >= n then Goto(s, p, if !kids || pr.killed then WaitUnlock else WaitSleep)
      else if s.procs[i].parent != p then Goto(s, p, Scan(i + 1, kids))
      else if s.procs[i].state == ZOMBIE
      then Goto(Put(s, i, s.procs[i].(lock := p)), p, Reap(i))
      else Goto(s, p, Scan(i + 1, true))
    case Reap(c) => Goto(FreeProc(s, c), p, WaitUnlock)
    case WaitUnlock => Goto(s, p, User).(wait := -1)
    case WaitSleep => Put(s, p, pr.(pc := SleepUnlock, lock := p))
    case SleepUnlock => Goto(s, p, Window).(wait := -1)
    case Window => Put(s, p, pr.(pc := SleepSched, chan := p, state := SLEEPING))
    case SleepSched => Put(s, p, pr.(pc := Asleep, lock := -1))
    case Waking => Put(s, p, pr.(pc := WaitLock, chan := -1, lock := -1))
    case _ => s
  }

  ghost predicate Init(s: State) {
    && |s.procs| > 0 && s.wait == -1
    && s.procs[0] == Proc(User, RUNNABLE, -1, -1, false, -1)
    && forall p :: 0 < p < |s.procs| ==> s.procs[p] == Proc(Idle, UNUSED, -1, -1, false, -1)
  }

  ghost predicate Next(s: State, s': State) {
    exists t :: Enabled(s, t) && s' == Do(s, t)
  }

  ghost predicate IsRun(run: seq<State>) {
    && |run| > 0 && Init(run[0])
    && forall i :: 0 <= i < |run| - 1 ==> Next(run[i], run[i + 1])
  }

  // ---- the invariant ----------------------------------------------------------------------------

  ghost predicate InvLocks(s: State) {
    && -1 <= s.wait < |s.procs|
    && (forall p :: 0 <= p < |s.procs| ==> (HoldsWait(s.procs[p].pc) <==> s.wait == p))
    && (forall i :: 0 <= i < |s.procs| ==> -1 <= s.procs[i].lock < |s.procs|)
    && (forall i, p :: 0 <= i < |s.procs| && 0 <= p < |s.procs| ==>
          (HoldsLock(s.procs[p].pc, p, i) <==> s.procs[i].lock == p))
  }

  /** The process runs, or will run again. */
  predicate Alive(pc: Pc) { !pc.Idle? && !pc.Dead? && !pc.ExitUnlock? && !pc.ExitSched? }

  predicate StateFits(p: int, pr: Proc) {
    && (pr.pc.Idle? <==> pr.state == UNUSED || pr.state == USED)
    && (!Alive(pr.pc) && !pr.pc.Idle? <==> pr.state == ZOMBIE)
    && (pr.state == SLEEPING ==> pr.pc.SleepSched? || pr.pc.Asleep? || pr.pc.UserAsleep?)
    && (pr.pc.SleepSched? ==> pr.state == SLEEPING)
    && (pr.pc.Asleep? || pr.pc.UserAsleep? ==> pr.state != RUNNING)
    && (Alive(pr.pc) && HoldsAnyLock(pr.pc) && !pr.pc.SleepSched? ==> pr.state == RUNNING)
    && pr.chan == if pr.pc.SleepSched? || pr.pc.Asleep? || pr.pc.Waking? then p else -1
  }

  ghost predicate InvState(s: State) {
    && |s.procs| > 0
    && forall p :: 0 <= p < |s.procs| ==> StateFits(p, s.procs[p])
  }

  /** Process at `pc` is creating slot `c`. */
  predicate Creates(pc: Pc, c: int) {
    || (pc.ForkGot? && pc.c == c) || (pc.ForkLink? && pc.c == c) || (pc.ForkSet? && pc.c == c)
    || (pc.ForkUnlock? && pc.c == c) || (pc.ForkRun? && pc.c == c)
  }

  predicate Linked(pc: Pc) { pc.ForkUnlock? || pc.ForkRun? }

  predicate Forking(pc: Pc) {
    pc.ForkGot? || pc.ForkLink? || pc.ForkSet? || pc.ForkUnlock? || pc.ForkRun?
  }

  ghost predicate InvFork(s: State) {
    && (forall p :: 0 <= p < |s.procs| && Forking(s.procs[p].pc) ==> s.procs[p].pc.c < |s.procs|)
    && (forall p, c :: 0 <= p < |s.procs| && 0 <= c < |s.procs| && Creates(s.procs[p].pc, c) ==>
          s.procs[c].state == USED && s.procs[c].parent == if Linked(s.procs[p].pc) then p else -1)
    && (forall p, q, c | 0 <= p < |s.procs| && 0 <= q < |s.procs| && 0 <= c < |s.procs| ::
          Creates(s.procs[p].pc, c) && Creates(s.procs[q].pc, c) ==> p == q)
    && (forall c :: 0 <= c < |s.procs| && s.procs[c].state == UNUSED ==> s.procs[c].parent == -1)
  }

  predicate Exiting(pc: Pc) {
    pc.ExitLock? || pc.Reparent? || pc.WakeInit? || pc.WakeParent? || pc.ExitSelf? || pc.ExitZombie?
  }

  /** Slot `i` may still have the process at `pc` as its parent. */
  predicate MayParent(pc: Pc, i: int) {
    && Alive(pc)
    && (pc.Reparent? ==> i >= pc.i) && (pc.WakeInit? ==> i > pc.i)
    && !pc.WakeParent? && !pc.ExitSelf? && !pc.ExitZombie?
  }

  ghost predicate InvTree(s: State) {
    && |s.procs| > 0 && s.procs[0].parent == -1 && Alive(s.procs[0].pc) && !Exiting(s.procs[0].pc)
    && (forall i :: 0 <= i < |s.procs| ==> -1 <= s.procs[i].parent < |s.procs| && s.procs[i].parent != i)
    && (forall i :: 0 <= i < |s.procs| && s.procs[i].parent >= 0 ==> MayParent(s.procs[s.procs[i].parent].pc, i))
    && (forall p :: 0 <= p < |s.procs| && s.procs[p].pc.Reap? ==>
          s.procs[p].pc.c < |s.procs| && s.procs[s.procs[p].pc.c].state == ZOMBIE
          && s.procs[s.procs[p].pc.c].parent == p)
  }

  /** Past its scan and on the way to sleep in wait(), or asleep there. */
  predicate Parked(pr: Proc) {
    pr.pc.Window? || pr.pc.SleepSched? || (pr.pc.Asleep? && pr.state == SLEEPING)
  }

  predicate ZombieChild(s: State, c: int, q: int) {
    0 <= c < |s.procs| && s.procs[c].state == ZOMBIE && s.procs[c].parent == q
  }

  ghost predicate InvWake(s: State) {
    && (forall c, q :: 0 <= q < |s.procs| && ZombieChild(s, c, q) && Parked(s.procs[q]) ==>
          q == 0 && 0 <= s.wait < |s.procs| && s.procs[s.wait].pc.WakeInit? && s.procs[s.wait].pc.j == 0)
    && (forall p, c :: 0 <= p < |s.procs| && s.procs[p].pc.Scan? && ZombieChild(s, c, p) ==> c >= s.procs[p].pc.i)
    && (forall p, c :: 0 <= p < |s.procs| && ZombieChild(s, c, p) ==>
          !s.procs[p].pc.WaitSleep? && !s.procs[p].pc.SleepUnlock?)
    && (forall r :: 0 <= r < |s.procs| && 0 <= s.procs[r].parent < |s.procs| && Parked(s.procs[s.procs[r].parent]) ==>
          && (s.procs[r].pc.WakeParent? ==> s.procs[r].pc.j <= s.procs[r].parent)
          && !s.procs[r].pc.ExitSelf? && !s.procs[r].pc.ExitZombie?)
  }

  ghost predicate Inv(s: State) { InvLocks(s) && InvState(s) && InvFork(s) && InvTree(s) && InvWake(s) }
}
