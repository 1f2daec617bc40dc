// Waiting for the log (xv6/kernel/log.c over sleep and wakeup of xv6/kernel/proc.c): begin_op() sleeps
// while a commit runs or the space is reserved, end_op() wakes. Any number of processes; the statements
// under log.lock are steps, log_write() is one step.

module LogSleep {
  import opened Common
  import opened LogDisk
  import SL = SleepLock

  datatype Chan = NoChan | TheLog | OtherChan

  /** Where a process is. Window: in sleep(), after release(lk) and before it becomes SLEEPING. */
  datatype Pc =
    | Outside
    | Begin               // begin_op: acquire(&log.lock)
    | Test                // the two conditions of the loop
    | SleepLockSelf       // sleep: acquire(&p->lock)
    | SleepUnlock         // sleep: release(lk)
    | Window              // sleep: p->chan = chan; p->state = SLEEPING
    | SleepSched          // sched(): the scheduler releases p->lock
    | Asleep
    | Waking              // p->chan = 0; release(&p->lock)
    | InOp                // between begin_op and end_op
    | InOpAsleep          // asleep elsewhere, on a buffer or the disk
    | End                 // end_op: acquire(&log.lock)
    | Leave               // log.outstanding -= 1 and what follows from it
    | CommitUnlock        // release(&log.lock), then commit
    | Commit              // commit(), without locks
    | Committed           // acquire(&log.lock)
    | Clear               // log.committing = 0
    | WakeLoop(next: nat) // wakeup(&log)
    | Unlock              // release(&log.lock)

  datatype Proc = Proc(pc: Pc, run: SL.RunState, chan: Chan, locked: bool /* p->lock */)

  /** `n` is log.lh.n; `committer` remembers who set log.committing. */
  datatype State = State(
    procs: seq<Proc>, spin: int /* holder of log.lock, or -1 */, committing: bool, outstanding: int, n: nat, committer: int)

  datatype Step =
    | Advance(p: nat)     // the next statement of process p
    | Schedule(p: nat)    // the scheduler picks p
    | Yield(p: nat)
    | EnterBegin(p: nat)
    | LogWrite(p: nat)    // a block is added to the log
    | EnterEnd(p: nat)
    | SleepElsewhere(p: nat)
    | WakeElsewhere(p: nat)
    | Kill(p: nat)

  predicate HoldsSpin(pc: Pc) {
    pc.Test? || pc.SleepLockSelf? || pc.SleepUnlock? || pc.Leave? || pc.CommitUnlock? || pc.Clear? || pc.WakeLoop? || pc.Unlock?
  }

  predicate HoldsSelf(pc: Pc) { pc.SleepUnlock? || pc.Window? || pc.SleepSched? || pc.Waking? }

  /** The process has begun an operation and not counted it out yet. */
  predicate HasOp(pc: Pc) { pc.InOp? || pc.InOpAsleep? || pc.End? || pc.Leave? }

  predicate Commits(pc: Pc) { pc.CommitUnlock? || pc.Commit? || pc.Committed? || pc.Clear? }

  /** begin_op() has to wait. */
  predicate Blocked(s: State) { s.committing || s.n + (s.outstanding + 1) * MAXOPBLOCKS > LOGSIZE }

  predicate Enabled(s: State, t: Step) {
    && t.p < |s.procs|
    && var pr := s.procs[t.p];
       match t
       case Advance(p) =>
         if pr.pc.SleepSched? then true
         else
           && pr.run.Running?
           && (match pr.pc
               case Begin => s.spin == -1
               case End => s.spin == -1
               case Committed => s.spin == -1
               case SleepLockSelf => !pr.locked
               case WakeLoop(i) => i < |s.procs| && i != p ==> !s.procs[i].locked
               case _ => !pr.pc.Outside? && !pr.pc.Asleep? && !pr.pc.InOp? && !pr.pc.InOpAsleep?)
       case Schedule(p) => pr.run.Runnable? && !pr.locked
       case Yield(p) => pr.run.Running? && !HoldsSpin(pr.pc) && !HoldsSelf(pr.pc)
       case EnterBegin(p) => pr.run.Running? && pr.pc.Outside?
       case LogWrite(p) => pr.run.Running? && pr.pc.InOp? && s.spin == -1
       case EnterEnd(p) => pr.run.Running? && pr.pc.InOp?
       case SleepElsewhere(p) => pr.run.Running? && pr.pc.InOp? && !pr.locked
       case WakeElsewhere(p) => pr.run.Sleeping? && pr.chan.OtherChan? && !pr.locked
       case Kill(p) => !pr.locked
  }

  function Set(s: State, p: nat, pr: Proc): State
    requires p < |s.procs|
  {
    s.(procs := s.procs[p := pr])
  }

  function Do(s: State, t: Step): State
    requires Enabled(s, t)
  {
    var pr := s.procs[t.p];
    match t
    case Advance(p) => Statement(s, p)
    case Schedule(p) =>
      // a process that slept in sleep() finds itself holding p->lock
      if pr.pc.Asleep? then Set(s, p, pr.(run := SL.Running, pc := Waking, locked := true))
      else if pr.pc.InOpAsleep? then Set(s, p, pr.(run := SL.Running, pc := InOp, chan := NoChan))
      else Set(s, p, pr.(run := SL.Running))
    case Yield(p) => Set(s, p, pr.(run := SL.Runnable))
    case EnterBegin(p) => Set(s, p, pr.(pc := Begin))
    case LogWrite(p) => s.(n := s.n + 1)
    case EnterEnd(p) => Set(s, p, pr.(pc := End))
    case SleepElsewhere(p) => Set(s, p, pr.(pc := InOpAsleep, run := SL.Sleeping, chan := OtherChan))
    case WakeElsewhere(p) => Set(s, p, pr.(run := SL.Runnable))
    case Kill(p) => Set(s, p, if pr.run.Sleeping? then pr.(run := SL.Runnable) else pr)
  }

  /** begin_op, end_op, sleep and wakeup, one statement at a time. */
  function Statement(s: State, p: nat): State
    requires Enabled(s, Advance(p))
  {
    var pr := s.procs[p];
    match pr.pc
    case Begin => Set(s, p, pr.(pc := Test)).(spin := p)
    case Test =>
      if Blocked(s) then Set(s, p, pr.(pc := SleepLockSelf))
      else Set(s, p, pr.(pc := InOp)).(outstanding := s.outstanding + 1, spin := -1)
    case SleepLockSelf => Set(s, p, pr.(pc := SleepUnlock, locked := true))
    case SleepUnlock => Set(s, p, pr.(pc := Window)).(spin := -1)
    case Window => Set(s, p, pr.(pc := SleepSched, chan := TheLog, run := SL.Sleeping))
    case SleepSched => Set(s, p, pr.(pc := Asleep, locked := false))
    case Waking => Set(s, p, pr.(pc := Begin, chan := NoChan, locked := false))
    case End => Set(s, p, pr.(pc := Leave)).(spin := p)
    case Leave =>
      if s.outstanding == 1 then Set(s, p, pr.(pc := CommitUnlock)).(outstanding := 0, committing := true, committer := p)
      else Set(s, p, pr.(pc := WakeLoop(0))).(outstanding := s.outstanding - 1)
    case CommitUnlock => Set(s, p, pr.(pc := Commit)).(spin := -1)
    case Commit => Set(s, p, pr.(pc := Committed)).(n := 0)
    case Committed => Set(s, p, pr.(pc := Clear)).(spin := p)
    case Clear => Set(s, p, pr.(pc := WakeLoop(0))).(committing := false, committer := -1)
    case WakeLoop(i) =>
      if i >= |s.procs| then Set(s, p, pr.(pc := Unlock))
      else
        var next := Set(s, p, pr.(pc := WakeLoop(i + 1)));
        if i != p && s.procs[i].run.Sleeping? && s.procs[i].chan.TheLog?
        then Set(next, i, s.procs[i].(run := SL.Runnable)) else next
    case Unlock => Set(s, p, pr.(pc := Outside)).(spin := -1)
    case _ => s
  }

  ghost predicate Init(s: State) {
    && s.spin == -1 && !s.committing && s.outstanding == 0 && s.n == 0 && s.committer == -1
    && forall p | 0 <= p < |s.procs| ::
         s.procs[p].pc.Outside? && !s.procs[p].locked && !s.procs[p].run.Sleeping? && s.procs[p].chan.NoChan?
  }

  ghost predicate IsRun(run: seq<State>, steps: seq<Step>) {
    && |run| == |steps| + 1 && Init(run[0])
    && forall i | 0 <= i < |steps| :: Enabled(run[i], steps[i]) && run[i + 1] == Do(run[i], steps[i])
  }

  // ---- the invariant ----------------------------------------------------------------------------------

  ghost predicate InvLocks(s: State) {
    && -1 <= s.spin < |s.procs|
    && (forall p | 0 <= p < |s.procs| :: HoldsSpin(s.procs[p].pc) <==> s.spin == p)
    && (forall p | 0 <= p < |s.procs| :: HoldsSelf(s.procs[p].pc) <==> s.procs[p].locked)
  }

  /** The run state and the channel of a process fit its place. */
  predicate RunFits(pr: Proc) {
    && (HoldsSpin(pr.pc) || pr.pc.Window? || pr.pc.Waking? ==> pr.run.Running?)
    && (pr.run.Sleeping? ==> pr.pc.SleepSched? || pr.pc.Asleep? || pr.pc.InOpAsleep?)
    && (pr.chan.TheLog? <==> pr.pc.SleepSched? || pr.pc.Asleep? || pr.pc.Waking?)
    && (pr.pc.SleepSched? ==> pr.run.Sleeping?)
    && (pr.pc.Asleep? || pr.pc.InOpAsleep? ==> !pr.run.Running?)
  }

  ghost predicate InvRun(s: State) { forall p | 0 <= p < |s.procs| :: RunFits(s.procs[p]) }

  ghost function Ops(s: State): set<nat> { set p: nat | p < |s.procs| && HasOp(s.procs[p].pc) }

  /** log.outstanding counts the operations; one process commits, when there are none; what is in the
      log belongs to operations or to the commit. */
  ghost predicate InvLog(s: State) {
    && s.outstanding == |Ops(s)|
    && (s.committing ==> s.outstanding == 0 && 0 <= s.committer < |s.procs| && Commits(s.procs[s.committer].pc))
    && (forall p | 0 <= p < |s.procs| && Commits(s.procs[p].pc) :: s.committing && s.committer == p)
    && (forall p | 0 <= p < |s.procs| && (s.procs[p].pc.Committed? || s.procs[p].pc.Clear?) :: s.n == 0)
    && (s.outstanding == 0 && !s.committing ==> s.n == 0)
  }

  /** Past its test inside sleep(), or asleep on the log: it counts on a wakeup. */
  predicate CountsOnWakeup(pr: Proc) { pr.pc.Window? || (pr.run.Sleeping? && pr.chan.TheLog?) }

  /** The holder of log.lock is in wakeup and has not passed process `p`. */
  predicate WakeupPending(s: State, p: nat) {
    0 <= s.spin < |s.procs| && s.procs[s.spin].pc.WakeLoop? && s.procs[s.spin].pc.next <= p
  }

  ghost predicate InvWake(s: State) {
    && (forall p | 0 <= p < |s.procs| && (s.procs[p].pc.SleepLockSelf? || s.procs[p].pc.SleepUnlock?) :: Blocked(s))
    && (forall p | 0 <= p < |s.procs| && CountsOnWakeup(s.procs[p]) :: Blocked(s) || WakeupPending(s, p))
  }

  ghost predicate Inv(s: State) { InvLocks(s) && InvRun(s) && InvLog(s) && InvWake(s) }

  lemma InitInv(s: State)
    requires Init(s)
    ensures Inv(s)
  {
    assert Ops(s) == {};
  }

  /** To any other process a step can at most do one thing: make it RUNNABLE from SLEEPING. */
  lemma OthersKept(s: State, t: Step)
    requires Enabled(s, t)
    ensures t.p < |Do(s, t).procs| == |s.procs|
    ensures forall q | 0 <= q < |s.procs| && q != t.p ::
              Do(s, t).procs[q] == s.procs[q] ||
              (s.procs[q].run.Sleeping? && !s.procs[q].locked && Do(s, t).procs[q] == s.procs[q].(run := SL.Runnable))
    ensures forall q | 0 <= q < |s.procs| && q != t.p :: Do(s, t).procs[q].pc == s.procs[q].pc
  {
  }

  lemma StepLocks(s: State, t: Step)
    requires Inv(s) && Enabled(s, t)
    ensures InvLocks(Do(s, t))
  {
    hide InvRun, InvLog, InvWake, Enabled, Do, HoldsSelf, HoldsSpin;
    OthersKept(s, t);
    ActorLocks(s, t);
  }

  lemma ActorLocks(s: State, t: Step)
    requires InvLocks(s) && Enabled(s, t)
    ensures var s' := Do(s, t);
            && t.p < |s'.procs| == |s.procs| && (HoldsSelf(s'.procs[t.p].pc) <==> s'.procs[t.p].locked)
            && (HoldsSpin(s'.procs[t.p].pc) <==> s'.spin == t.p)
            && (s'.spin != t.p ==> s'.spin == s.spin || (s'.spin == -1 && s.spin == t.p))
            && (s'.spin == t.p ==> s.spin == t.p || s.spin == -1)
  {
  }

  lemma StepRun(s: State, t: Step)
    requires Inv(s) && Enabled(s, t)
    ensures InvRun(Do(s, t))
  {
    hide InvLog, InvWake, Enabled, Do, HoldsSpin;
    OthersKept(s, t);
    ActorRun(s, t);
    var s' := Do(s, t);
    forall p | 0 <= p < |s'.procs| ensures RunFits(s'.procs[p]) {
      assert RunFits(s.procs[p]);
    }
  }

  lemma ActorRun(s: State, t: Step)
    requires InvLocks(s) && InvRun(s) && Enabled(s, t)
    ensures t.p < |Do(s, t).procs| && RunFits(Do(s, t).procs[t.p])
  {
    assert RunFits(s.procs[t.p]);
  }

  /** What the step's own process does to the log. */
  lemma ActorOps(s: State, t: Step)
    requires Inv(s) && Enabled(s, t)
    ensures t.p < |Do(s, t).procs|
    ensures Do(s, t).outstanding == s.outstanding + One(HasOp(Do(s, t).procs[t.p].pc)) - One(HasOp(s.procs[t.p].pc))
  {
    hide InvRun, InvWake, InvLog, Ops;
  }

  lemma ActorCommit(s: State, t: Step)
    requires Inv(s) && Enabled(s, t)
    ensures var s' := Do(s, t);
            && (s'.committing ==> s'.outstanding == 0 && 0 <= s'.committer < |s'.procs| && Commits(s'.procs[s'.committer].pc))
            && (s.committing && s.committer != t.p ==> s'.committing && s'.committer == s.committer)
            && (!s.committing && s'.committing ==> s'.committer == t.p)
  {
    hide InvRun, InvWake, Ops, InvLocks;
    if HasOp(s.procs[t.p].pc) { OpsCount(s, t.p); }
  }

  lemma CommitterActs(s: State, t: Step)
    requires Inv(s) && Enabled(s, t)
    ensures t.p < |Do(s, t).procs|
    ensures Commits(Do(s, t).procs[t.p].pc) ==> Do(s, t).committing && Do(s, t).committer == t.p
  {
    hide Inv, Blocked;
    if Commits(s.procs[t.p].pc) { CommitterIs(s, t.p); }
  }

  lemma CommitterIs(s: State, p: nat)
    requires Inv(s) && p < |s.procs| && Commits(s.procs[p].pc)
    ensures s.committing && s.committer == p
  {
    hide InvRun, InvWake, Ops, InvLocks;
  }

  lemma ActorBlocks(s: State, t: Step)
    requires Inv(s) && Enabled(s, t)
    ensures var s', a, b := Do(s, t), s.procs[t.p].pc, Do(s, t).procs[t.p].pc;
            && (b.Committed? || b.Clear? ==> s'.n == 0) && (s.n == 0 ==> s'.n == 0 || HasOp(a))
            && (s'.outstanding == 0 && !s'.committing ==> s'.n == 0)
  {
    hide InvRun, InvWake, Ops, InvLocks;
    if HasOp(s.procs[t.p].pc) { OpsCount(s, t.p); }
  }

  function One(b: bool): nat { if b then 1 else 0 }

  lemma OpsCount(s: State, p: nat)
    requires p < |s.procs| && HasOp(s.procs[p].pc)
    ensures |Ops(s)| >= 1
  {
    assert p in Ops(s);
  }

  ghost function OtherOps(s: State, p: nat): set<nat> { set q: nat | q < |s.procs| && q != p && HasOp(s.procs[q].pc) }

  lemma OpsSplit(s: State, p: nat)
    requires p < |s.procs|
    ensures |Ops(s)| == |OtherOps(s, p)| + One(HasOp(s.procs[p].pc))
  {
    hide HasOp;
    assert Ops(s) == OtherOps(s, p) + if HasOp(s.procs[p].pc) then {p} else {};
  }

  lemma OpsStep(s: State, t: Step)
    requires Enabled(s, t)
    ensures t.p < |Do(s, t).procs|
    ensures |Ops(Do(s, t))| == |Ops(s)| + One(HasOp(Do(s, t).procs[t.p].pc)) - One(HasOp(s.procs[t.p].pc))
  {
    hide HasOp, Do, Enabled, Ops;
    OthersKept(s, t);
    OpsSplit(s, t.p);
    OpsSplit(Do(s, t), t.p);
    assert OtherOps(Do(s, t), t.p) == OtherOps(s, t.p);
  }

  lemma StepLog(s: State, t: Step)
    requires Inv(s) && Enabled(s, t)
    ensures InvLog(Do(s, t))
  {
    hide InvLocks, InvRun, InvWake, Enabled, Do, Ops, HasOp;
    OthersKept(s, t);
    ActorOps(s, t);
    ActorCommit(s, t);
    CommitterActs(s, t);
    ActorBlocks(s, t);
    OpsStep(s, t);
    if HasOp(s.procs[t.p].pc) { OpsCount(s, t.p); }
  }

  /** Only a step that begins a wakeup ends the reason to wait. */
  lemma BlockedStays(s: State, t: Step)
    requires Inv(s) && Enabled(s, t) && Blocked(s)
    ensures var s' := Do(s, t);
            t.p < |s'.procs| && (Blocked(s') || (s'.spin == t.p && s'.procs[t.p].pc == WakeLoop(0)))
  {
    hide InvRun, InvWake, Ops, HasOp;
  }

  lemma ActorTests(s: State, t: Step)
    requires Inv(s) && Enabled(s, t)
    ensures t.p < |Do(s, t).procs|
    ensures Do(s, t).procs[t.p].pc.SleepLockSelf? || Do(s, t).procs[t.p].pc.SleepUnlock? ==> Blocked(Do(s, t))
  {
    hide InvLog, InvRun;
  }

  lemma ActorWake(s: State, t: Step)
    requires Inv(s) && Enabled(s, t)
    ensures t.p < |Do(s, t).procs|
    ensures CountsOnWakeup(Do(s, t).procs[t.p]) ==> Blocked(Do(s, t)) || WakeupPending(Do(s, t), t.p)
  {
    hide InvLog;
    assert RunFits(s.procs[t.p]);
  }

  /** The loop of wakeup() passes nobody who counts on it. */
  lemma PendingStep(s: State, t: Step, q: nat)
    requires Inv(s) && Enabled(s, t) && q < |s.procs| && q != t.p && WakeupPending(s, q) && CountsOnWakeup(s.procs[q])
    ensures q < |Do(s, t).procs| && (WakeupPending(Do(s, t), q) || !CountsOnWakeup(Do(s, t).procs[q]))
  {
    hide InvLog;
  }

  lemma StepWake(s: State, t: Step)
    requires Inv(s) && Enabled(s, t)
    ensures InvWake(Do(s, t))
  {
    hide InvLog, InvRun, Enabled, Do, Blocked;
    var s' := Do(s, t);
    OthersKept(s, t);
    ActorTests(s, t);
    ActorWake(s, t);
    StepLocks(s, t);
    if Blocked(s) { BlockedStays(s, t); }
    forall q: nat | q < |s'.procs| && q != t.p && CountsOnWakeup(s'.procs[q]) ensures Blocked(s') || WakeupPending(s', q) {
      assert CountsOnWakeup(s.procs[q]);
      if WakeupPending(s, q) { PendingStep(s, t, q); }
    }
  }

  lemma StepInv(s: State, t: Step)
    requires Inv(s) && Enabled(s, t)
    ensures Inv(Do(s, t))
  {
    hide InvLocks, InvRun, InvLog, InvWake, Enabled, Do;
    StepLocks(s, t);
    StepRun(s, t);
    StepLog(s, t);
    StepWake(s, t);
  }

  lemma {:induction false} RunInv(run: seq<State>, steps: seq<Step>, n: nat)
    requires IsRun(run, steps) && n < |run|
    ensures Inv(run[n])
  {
    hide Inv, Enabled, Do, Init;
    if n > 0 {
      RunInv(run, steps, n - 1);
      StepInv(run[n - 1], steps[n - 1]);
    } else {
      InitInv(run[0]);
    }
  }

  // ---- the guarantees -----------------------------------------------------------------------------------

  /** No lost wakeup: when log.lock is free and begin_op() need not wait, no process sleeps on the log
      or is on its way to. */
  lemma NoLostWakeup(run: seq<State>, steps: seq<Step>, n: nat, p: nat)
    requires IsRun(run, steps) && n < |run| && p < |run[n].procs| && run[n].spin == -1 && !Blocked(run[n])
    ensures !CountsOnWakeup(run[n].procs[p])
  {
    RunInv(run, steps, n);
  }

  /** In particular not when no operation is outstanding and no commit runs: then the log is empty. */
  lemma IdleLogWakesAll(run: seq<State>, steps: seq<Step>, n: nat, p: nat)
    requires IsRun(run, steps) && n < |run| && p < |run[n].procs|
    requires run[n].spin == -1 && !run[n].committing && run[n].outstanding == 0
    ensures run[n].n == 0 && !CountsOnWakeup(run[n].procs[p])
  {
    hide Init, Enabled, Do;
    RunInv(run, steps, n);
  }

  /** While somebody counts on a wakeup, another process can still give it: it commits, or has an
      operation to end, or is in wakeup and has not reached the sleeper. */
  lemma SleeperHasWaker(run: seq<State>, steps: seq<Step>, n: nat, p: nat)
    requires IsRun(run, steps) && n < |run| && p < |run[n].procs| && CountsOnWakeup(run[n].procs[p])
    ensures exists q :: 0 <= q < |run[n].procs| && q != p && CanWake(run[n].procs[q].pc, p)
  {
    hide Init, Enabled, Do;
    RunInv(run, steps, n);
    var s := run[n];
    assert RunFits(s.procs[p]);
    var q: nat;
    if s.committing {
      q := s.committer;
    } else if WakeupPending(s, p) {
      q := s.spin;
    } else {
      q :| q in Ops(s);
    }
    assert CanWake(s.procs[q].pc, p);
  }

  predicate CanWake(pc: Pc, p: nat) { Commits(pc) || HasOp(pc) || (pc.WakeLoop? && pc.next <= p) }

  /** The panic in end_op() is not reachable, and only one process commits. */
  lemma NoPanic(run: seq<State>, steps: seq<Step>, n: nat, p: nat, q: nat)
    requires IsRun(run, steps) && n < |run| && p < |run[n].procs| && q < |run[n].procs|
    ensures run[n].procs[p].pc.Leave? ==> !run[n].committing
    ensures Commits(run[n].procs[p].pc) && Commits(run[n].procs[q].pc) ==> p == q
  {
    hide Init, Enabled, Do;
    RunInv(run, steps, n);
    if HasOp(run[n].procs[p].pc) { OpsCount(run[n], p); }
  }
}
