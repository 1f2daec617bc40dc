// Sleep locks (xv6/kernel/sleeplock.c) over sleep, wakeup and kill (xv6/kernel/proc.c), as a
// step system of any number of processes and one sleep lock. Spinlocks have explicit holders;
// a critical section under another process's p->lock is one step.

module SleepLock {
  datatype RunState = Runnable | Running | Sleeping
  datatype Chan = NoChan | TheLock | OtherChan

  /** Where a process is. Window: in sleep(), after release(lk) and before it becomes SLEEPING. */
  datatype Pc =
    | Outside
    | OutsideAsleep
    | Acquire             // acquiresleep: acquire(&lk->lk)
    | Test                // while(lk->locked)
    | SleepLockSelf       // sleep: acquire(&p->lock)
    | SleepUnlock         // sleep: release(lk)
    | Window              // sleep: p->chan = chan; p->state = SLEEPING
    | SleepSched          // sched(): the scheduler releases p->lock
    | Asleep
    | Waking              // p->chan = 0; release(&p->lock)
    | Owner               // between acquiresleep and releasesleep
    | Release             // releasesleep: acquire(&lk->lk)
    | Clear               // lk->locked = 0; lk->pid = 0
    | WakeLoop(next: nat) // wakeup(lk)
    | Unlock              // release(&lk->lk)

  datatype Proc = Proc(pc: Pc, run: RunState, chan: Chan, locked: bool /* p->lock */, killed: bool)

  datatype State = State(procs: seq<Proc>, spin: int /* holder of lk->lk, or -1 */, locked: bool, pid: int)

  datatype Step =
    | Advance(p: nat)        // the next statement of process p
    | Schedule(p: nat)       // the scheduler picks p
    | Yield(p: nat)
    | EnterAcquire(p: nat)
    | EnterRelease(p: nat)
    | SleepElsewhere(p: nat)
    | WakeElsewhere(p: nat)
    | Kill(v: nat)

  predicate HoldsSpin(pc: Pc) {
    pc.Test? || pc.SleepLockSelf? || pc.SleepUnlock? || pc.Clear? || pc.WakeLoop? || pc.Unlock?
  }

  predicate HoldsSelf(pc: Pc) {
    pc.SleepUnlock? || pc.Window? || pc.SleepSched? || pc.Waking?
  }

  /** The process owns the sleep lock. */
  predicate Owns(pc: Pc) { pc.Owner? || pc.Release? || pc.Clear? }

  predicate Enabled(s: State, t: Step) {
    match t
    case Advance(p) =>
      && p < |s.procs|
      && var pr := s.procs[p];
         if pr.pc.SleepSched? then true
         else
           && pr.run.Running?
           && (match pr.pc
               case Acquire => s.spin == -1
               case Release => s.spin == -1
               case SleepLockSelf => !pr.locked
               case WakeLoop(i) => i < |s.procs| && i != p ==> !s.procs[i].locked
               case _ => !pr.pc.Outside? && !pr.pc.OutsideAsleep? && !pr.pc.Asleep? && !pr.pc.Owner?)
    case Schedule(p) => p < |s.procs| && s.procs[p].run.Runnable? && !s.procs[p].locked
    case Yield(p) =>
      && p < |s.procs| && s.procs[p].run.Running?
      && !HoldsSpin(s.procs[p].pc) && !HoldsSelf(s.procs[p].pc)
    case EnterAcquire(p) => p < |s.procs| && s.procs[p].run.Running? && s.procs[p].pc.Outside?
    case EnterRelease(p) => p < |s.procs| && s.procs[p].run.Running? && s.procs[p].pc.Owner?
    case SleepElsewhere(p) =>
      p < |s.procs| && s.procs[p].run.Running? && s.procs[p].pc.Outside? && !s.procs[p].locked
    case WakeElsewhere(p) =>
      p < |s.procs| && s.procs[p].run.Sleeping? && s.procs[p].chan.OtherChan? && !s.procs[p].locked
    case Kill(v) => v < |s.procs| && !s.procs[v].locked
  }

  function Set(s: State, p: nat, pr: Proc): State
    requires p < |s.procs|
  {
    s.(procs := s.procs[p := pr])
  }

  function Do(s: State, t: Step): State
    requires Enabled(s, t)
  {
    match t
    case Advance(p) => Statement(s, p)
    case Schedule(p) =>
      var pr := s.procs[p];
      // a process that slept in sleep() finds itself holding p->lock
      if pr.pc.Asleep? then Set(s, p, pr.(run := Running, pc := Waking, locked := true))
      else if pr.pc.OutsideAsleep? then Set(s, p, pr.(run := Running, pc := Outside, chan := NoChan))
      else Set(s, p, pr.(run := Running))
    case Yield(p) => Set(s, p, s.procs[p].(run := Runnable))
    case EnterAcquire(p) => Set(s, p, s.procs[p].(pc := Acquire))
    case EnterRelease(p) => Set(s, p, s.procs[p].(pc := Release))
    case SleepElsewhere(p) => Set(s, p, s.procs[p].(pc := OutsideAsleep, run := Sleeping, chan := OtherChan))
    case WakeElsewhere(p) => Set(s, p, s.procs[p].(run := Runnable))
    case Kill(v) =>
      var pr := s.procs[v].(killed := true);
      Set(s, v, if pr.run.Sleeping? then pr.(run := Runnable) else pr)
  }

  /** acquiresleep, sleep, releasesleep and wakeup, one statement at a time. */
  function Statement(s: State, p: nat): State
    requires Enabled(s, Advance(p))
  {
    var pr := s.procs[p];
    match pr.pc
    case Acquire => Set(s, p, pr.(pc := Test)).(spin := p)
    case Test =>
      if s.locked then Set(s, p, pr.(pc := SleepLockSelf))
      else Set(s, p, pr.(pc := Owner)).(locked := true, pid := p, spin := -1)
    case SleepLockSelf => Set(s, p, pr.(pc := SleepUnlock, locked := true))
    case SleepUnlock => Set(s, p, pr.(pc := Window)).(spin := -1)
    case Window => Set(s, p, pr.(pc := SleepSched, chan := TheLock, run := Sleeping))
    case SleepSched => Set(s, p, pr.(pc := Asleep, locked := false))
    case Waking => Set(s, p, pr.(pc := Acquire, chan := NoChan, locked := false))
    case Release => Set(s, p, pr.(pc := Clear)).(spin := p)
    case Clear => Set(s, p, pr.(pc := WakeLoop(0))).(locked := false, pid := 0)
    case WakeLoop(i) =>
      if i >= |s.procs| then Set(s, p, pr.(pc := Unlock))
      else
        var next := Set(s, p, pr.(pc := WakeLoop(i + 1)));
        if i != p && s.procs[i].run.Sleeping? && s.procs[i].chan.TheLock?
        then Set(next, i, s.procs[i].(run := Runnable)) else next
    case Unlock => Set(s, p, pr.(pc := Outside)).(spin := -1)
    case _ => s
  }

  ghost predicate Init(s: State) {
    && s.spin == -1 && !s.locked
    && forall p :: 0 <= p < |s.procs| ==>
         && s.procs[p].pc.Outside? && !s.procs[p].locked
         && !s.procs[p].run.Sleeping? && s.procs[p].chan.NoChan?
  }

  ghost predicate IsRun(run: seq<State>) {
    && |run| > 0 && Init(run[0])
    && forall i :: 0 <= i < |run| - 1 ==> Next(run[i], run[i + 1])
  }

  ghost predicate Next(s: State, s': State) {
    exists t :: Enabled(s, t) && s' == Do(s, t)
  }

  // ---- the invariant ----------------------------------------------------------------------------

  ghost predicate InvLocks(s: State) {
    && -1 <= s.spin < |s.procs|
    && (forall p :: 0 <= p < |s.procs| ==> (HoldsSpin(s.procs[p].pc) <==> s.spin == p))
    && (forall p :: 0 <= p < |s.procs| ==> (HoldsSelf(s.procs[p].pc) <==> s.procs[p].locked))
  }

  ghost predicate InvRun(s: State) {
    forall p :: 0 <= p < |s.procs| ==> RunFits(s.procs[p])
  }

  /** The run state and the channel of a process fit its place. */
  predicate RunFits(pr: Proc) {
    && (HoldsSpin(pr.pc) || pr.pc.Window? || pr.pc.Waking? ==> pr.run.Running?)
    && (pr.run.Sleeping? ==> pr.pc.SleepSched? || pr.pc.Asleep? || pr.pc.OutsideAsleep?)
    && (pr.chan.TheLock? <==> pr.pc.SleepSched? || pr.pc.Asleep? || pr.pc.Waking?)
    && (pr.pc.SleepSched? ==> pr.run.Sleeping?)
    && (pr.pc.Asleep? || pr.pc.OutsideAsleep? ==> !pr.run.Running?)
  }

  ghost predicate InvOwner(s: State) {
    && (forall p :: 0 <= p < |s.procs| && Owns(s.procs[p].pc) ==> s.locked && s.pid == p)
    && (s.locked ==> 0 <= s.pid < |s.procs| && Owns(s.procs[s.pid].pc))
    && (forall p :: 0 <= p < |s.procs| && (s.procs[p].pc.SleepLockSelf? || s.procs[p].pc.SleepUnlock?) ==> s.locked)
  }

  /** Past its test inside sleep(), or asleep on the lock: it counts on a wakeup. */
  predicate CountsOnWakeup(pr: Proc) {
    pr.pc.Window? || (pr.run.Sleeping? && pr.chan.TheLock?)
  }

  /** The holder of lk->lk is in wakeup and has not passed process `p`. */
  predicate WakeupPending(s: State, p: nat) {
    0 <= s.spin < |s.procs| && s.procs[s.spin].pc.WakeLoop? && s.procs[s.spin].pc.next <= p
  }

  ghost predicate InvWake(s: State) {
    forall p :: 0 <= p < |s.procs| && CountsOnWakeup(s.procs[p]) ==> s.locked || WakeupPending(s, p)
  }

  ghost predicate Inv(s: State) { InvLocks(s) && InvRun(s) && InvOwner(s) && InvWake(s) }

  lemma InitInv(s: State)
    requires Init(s)
    ensures Inv(s)
  {
  }

  lemma StepInv(s: State, t: Step)
    requires Inv(s) && Enabled(s, t)
    ensures Inv(Do(s, t))
  {
    StepLocks(s, t);
    StepRun(s, t);
    StepOwner(s, t);
    StepWake(s, t);
  }

  /** The process whose own statement a step executes. */
  function Actor(t: Step): nat {
    match t
    case Advance(p) => p
    case Schedule(p) => p
    case Yield(p) => p
    case EnterAcquire(p) => p
    case EnterRelease(p) => p
    case SleepElsewhere(p) => p
    case WakeElsewhere(p) => p
    case Kill(v) => v
  }

  /** To any other process a step can at most do one thing: make it RUNNABLE from SLEEPING. */
  lemma OthersKept(s: State, t: Step)
    requires Enabled(s, t)
    ensures |Do(s, t).procs| == |s.procs|
    ensures forall q :: 0 <= q < |s.procs| && q != Actor(t) ==>
              Do(s, t).procs[q] == s.procs[q] ||
              (s.procs[q].run.Sleeping? && !s.procs[q].locked && Do(s, t).procs[q] == s.procs[q].(run := Runnable))
    ensures forall q :: 0 <= q < |s.procs| && q != Actor(t) ==> Do(s, t).procs[q].pc == s.procs[q].pc
  {
  }

  lemma StepLocks(s: State, t: Step)
    requires Inv(s) && Enabled(s, t)
    ensures InvLocks(Do(s, t))
  {
    hide InvRun, InvOwner, InvWake, Enabled, Do, HoldsSelf, HoldsSpin;
    OthersKept(s, t);
    ActorLocks(s, t);
  }

  lemma ActorLocks(s: State, t: Step)
    requires InvLocks(s) && Enabled(s, t)
    ensures var s', a := Do(s, t), Actor(t);
            && a < |s'.procs| == |s.procs| && (HoldsSelf(s'.procs[a].pc) <==> s'.procs[a].locked)
            && (HoldsSpin(s'.procs[a].pc) <==> s'.spin == a)
            && (s'.spin != a ==> s'.spin == s.spin || (s'.spin == -1 && s.spin == a))
            && (s'.spin == a ==> s.spin == a || s.spin == -1)
  {
  }

  lemma StepRun(s: State, t: Step)
    requires Inv(s) && Enabled(s, t)
    ensures InvRun(Do(s, t))
  {
    hide InvOwner, InvWake, Enabled, Do, HoldsSpin;
    OthersKept(s, t);
    ActorRun(s, t);
    var s' := Do(s, t);
    forall p | 0 <= p < |s'.procs| ensures RunFits(s'.procs[p]) {
      assert RunFits(s.procs[p]);
    }
  }

  lemma ActorRun(s: State, t: Step)
    requires InvLocks(s) && InvRun(s) && Enabled(s, t)
    ensures Actor(t) < |Do(s, t).procs| && RunFits(Do(s, t).procs[Actor(t)])
  {
    assert RunFits(s.procs[Actor(t)]);
  }

  /** Only the holder of the spinlock takes or gives up the sleep lock. */
  lemma ActorOwner(s: State, t: Step)
    requires Inv(s) && Enabled(s, t)
    ensures var s', a := Do(s, t), Actor(t);
            && a < |s'.procs| == |s.procs|
            && (Owns(s'.procs[a].pc) ==> s'.locked && s'.pid == a)
            && (s'.procs[a].pc.SleepLockSelf? || s'.procs[a].pc.SleepUnlock? ==> s'.locked)
            && (s'.locked && !Owns(s'.procs[a].pc) ==> s.locked && s'.pid == s.pid != a)
            && (s'.locked && !s.locked ==> s'.pid == a && Owns(s'.procs[a].pc))
            && (s.locked && s'.locked ==> s'.pid == s.pid)
            && (s.locked && !s'.locked ==> s.pid == a && s.spin == a)
  {
    hide InvRun, InvWake;
  }

  lemma SpinHolderOnly(s: State, a: nat)
    requires InvLocks(s) && s.spin == a
    ensures forall p | 0 <= p < |s.procs| && p != a :: !s.procs[p].pc.SleepLockSelf? && !s.procs[p].pc.SleepUnlock?
  {
    forall p | 0 <= p < |s.procs| && p != a ensures !s.procs[p].pc.SleepLockSelf? && !s.procs[p].pc.SleepUnlock? {
      assert !HoldsSpin(s.procs[p].pc);
    }
  }

  lemma StepOwner(s: State, t: Step)
    requires Inv(s) && Enabled(s, t)
    ensures InvOwner(Do(s, t))
  {
    hide InvLocks, InvRun, InvWake, Do, Enabled;
    ActorOwner(s, t);
    OthersKept(s, t);
    if s.spin == Actor(t) { SpinHolderOnly(s, Actor(t)); }
  }

  lemma StepWake(s: State, t: Step)
    requires Inv(s) && Enabled(s, t)
    ensures InvWake(Do(s, t))
  {
  }

  lemma NextInv(s: State, s': State)
    requires Inv(s) && Next(s, s')
    ensures Inv(s')
  {
    hide Inv;
    var t :| Enabled(s, t) && s' == Do(s, t);
    StepInv(s, t);
  }

  lemma {:induction false} RunInv(run: seq<State>)
    requires IsRun(run)
    ensures Inv(run[|run| - 1])
  {
    var n := |run| - 1;
    if n == 0 {
      InitInv(run[0]);
    } else {
      hide Inv, Next, Init;
      assert IsRun(run[..n]) by {
        forall i | 0 <= i < n - 1 ensures Next(run[..n][i], run[..n][i + 1]) {
          assert Next(run[i], run[i + 1]);
        }
      }
      RunInv(run[..n]);
      assert Next(run[n - 1], run[n - 1 + 1]);
      NextInv(run[n - 1], run[n]);
    }
  }

  // ---- the guarantees ---------------------------------------------------------------------------

  /** No lost wakeup: after any run, with kills anywhere, when the spinlock is free and the
      sleep lock is not taken, no process sleeps on the lock or is on its way to. */
  lemma NoLostWakeup(run: seq<State>, p: nat)
    requires IsRun(run)
    ensures var s := run[|run| - 1];
            s.spin == -1 && !s.locked && p < |s.procs| ==>
            && !(s.procs[p].run.Sleeping? && s.procs[p].chan.TheLock?)
            && !s.procs[p].pc.Window? && !s.procs[p].pc.SleepSched?
  {
    RunInv(run);
  }

  /** At most one process owns the lock, and `locked` and `pid` say which. */
  lemma MutualExclusion(run: seq<State>, p: nat, q: nat)
    requires IsRun(run)
    ensures var s := run[|run| - 1];
            p < |s.procs| && q < |s.procs| && Owns(s.procs[p].pc) ==>
            && s.locked && s.pid == p
            && (Owns(s.procs[q].pc) ==> q == p)
  {
    RunInv(run);
  }

  /** While somebody counts on a wakeup, somebody can still give it: an owner that has not
      released, or a releaser that has not yet reached the sleeper. */
  lemma SleeperHasWaker(run: seq<State>, p: nat)
    requires IsRun(run)
    ensures var s := run[|run| - 1];
            p < |s.procs| && CountsOnWakeup(s.procs[p]) ==>
            exists q :: 0 <= q < |s.procs| && q != p &&
                        (Owns(s.procs[q].pc) || (s.procs[q].pc.WakeLoop? && s.procs[q].pc.next <= p))
  {
    RunInv(run);
    var s := run[|run| - 1];
    if p < |s.procs| && CountsOnWakeup(s.procs[p]) {
      var q: nat := if s.locked then s.pid else s.spin;
      assert Owns(s.procs[q].pc) || (s.procs[q].pc.WakeLoop? && s.procs[q].pc.next <= p);
    }
  }
}
