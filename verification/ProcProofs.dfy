// Every step of ProcTree keeps the invariant. Most steps change one slot only; what such a
// step must respect is stated once for each part of the invariant.

module ProcProofs {
  import opened ProcTree

  lemma InitInv(s: State)
    requires Init(s)
    ensures Inv(s)
  {
    InitLocks(s);
    InitOthers(s);
    InitTree(s);
  }

  lemma InitOthers(s: State)
    requires Init(s)
    ensures InvState(s) && InvFork(s)
  {
    forall p | 0 <= p < |s.procs| ensures StateFits(p, s.procs[p]) {}
  }

  lemma InitTree(s: State)
    requires Init(s)
    ensures InvTree(s) && InvWake(s)
  {
    forall p | 0 <= p < |s.procs| ensures s.procs[p].parent == -1 && (s.procs[p].pc.Idle? || s.procs[p].pc.User?) {}
  }

  lemma InitLocks(s: State)
    requires Init(s)
    ensures InvLocks(s)
  {
  }

  // ---- steps that change the slot of one process only ---------------------------------------

  ghost predicate Own(s: State, s': State, p: nat) {
    && p < |s.procs| && |s'.procs| == |s.procs|
    && s'.procs == s.procs[p := s'.procs[p]]
    && s'.procs[p].parent == s.procs[p].parent
  }

  /** Locks taken and released agree with the place in the code. */
  ghost predicate LockMove(s: State, s': State, p: nat)
    requires Own(s, s', p)
  {
    var o, n := s.procs[p], s'.procs[p];
    && (HoldsWait(n.pc) <==> s'.wait == p)
    && (s'.wait == s.wait || (s.wait == -1 && s'.wait == p) || (s.wait == p && s'.wait == -1))
    && (n.lock == o.lock || (o.lock == -1 && n.lock == p) || (o.lock == p && n.lock == -1))
    && (HoldsLock(n.pc, p, p) <==> n.lock == p)
    && (forall i :: i != p ==> (HoldsLock(n.pc, p, i) <==> HoldsLock(o.pc, p, i)))
  }

  lemma OwnLocks(s: State, s': State, p: nat)
    requires InvLocks(s) && Own(s, s', p) && LockMove(s, s', p)
    ensures InvLocks(s')
  {
    forall i, q | 0 <= i < |s'.procs| && 0 <= q < |s'.procs|
      ensures HoldsLock(s'.procs[q].pc, q, i) <==> s'.procs[i].lock == q
    {
      assert HoldsLock(s.procs[q].pc, q, i) <==> s.procs[i].lock == q;
    }
  }

  /** The step neither starts nor finishes a fork. */
  ghost predicate ForkKept(o: Proc, n: Proc) {
    && (forall c :: Creates(n.pc, c) <==> Creates(o.pc, c))
    && (Forking(n.pc) <==> Forking(o.pc)) && (Linked(n.pc) <==> Linked(o.pc))
    && (n.state == USED <==> o.state == USED) && (n.state == UNUSED <==> o.state == UNUSED)
  }

  lemma OwnFork(s: State, s': State, p: nat)
    requires InvFork(s) && Own(s, s', p) && ForkKept(s.procs[p], s'.procs[p])
    ensures InvFork(s')
  {
    forall q, c | 0 <= q < |s.procs| && 0 <= c < |s.procs| && Creates(s'.procs[q].pc, c)
      ensures Creates(s.procs[q].pc, c) && (Linked(s'.procs[q].pc) <==> Linked(s.procs[q].pc))
    {}
    forall q | 0 <= q < |s.procs| && Forking(s'.procs[q].pc) ensures s'.procs[q].pc.c < |s.procs| {
      assert Creates(s'.procs[q].pc, s'.procs[q].pc.c) && Creates(s.procs[q].pc, s'.procs[q].pc.c);
    }
  }

  /** The process stays a possible parent of its children. */
  ghost predicate TreeKept(s: State, o: Proc, n: Proc, p: nat) {
    && (forall i :: 0 <= i < |s.procs| && s.procs[i].parent == p && MayParent(o.pc, i) ==> MayParent(n.pc, i))
    && (n.pc.Reap? ==> o.pc.Reap? && n.pc.c == o.pc.c)
    && (o.state == ZOMBIE ==> n.state == ZOMBIE)
    && (p == 0 ==> Alive(n.pc) && !Exiting(n.pc))
  }

  lemma OwnTree(s: State, s': State, p: nat)
    requires InvTree(s) && Own(s, s', p) && TreeKept(s, s.procs[p], s'.procs[p], p)
    ensures InvTree(s')
  {
    forall i | 0 <= i < |s'.procs| && s'.procs[i].parent >= 0
      ensures MayParent(s'.procs[s'.procs[i].parent].pc, i)
    {
      assert s'.procs[i].parent == s.procs[i].parent;
      assert MayParent(s.procs[s.procs[i].parent].pc, i);
    }
  }

  /** Nothing new to wake: no process parks, no zombie appears, no wakeup is skipped. */
  ghost predicate WakeKept(s: State, s': State, p: nat)
    requires Own(s, s', p)
  {
    var o, n := s.procs[p], s'.procs[p];
    && (Parked(n) ==> Parked(o))
    && (n.state == ZOMBIE ==> o.state == ZOMBIE)
    && (o.pc.WakeInit? && o.pc.j == 0 && s.wait == p ==>
          (n.pc.WakeInit? && n.pc.j == 0 && s'.wait == p) || !Parked(s'.procs[0]))
    && (!(o.pc.WakeInit? && s.wait == p) ==> s'.wait == s.wait || s.wait == -1 || s.wait == p)
    && (n.pc.Scan? ==> forall c :: ZombieChild(s, c, p) ==> c >= n.pc.i)
    && (n.pc.WaitSleep? || n.pc.SleepUnlock? ==> forall c :: !ZombieChild(s, c, p))
    && (0 <= o.parent < |s.procs| && Parked(s.procs[o.parent]) ==>
          && (n.pc.WakeParent? ==> n.pc.j <= o.parent) && !n.pc.ExitSelf? && !n.pc.ExitZombie?)
  }

  lemma OwnWake(s: State, s': State, p: nat)
    requires |s.procs| > 0 && InvWake(s) && InvLocks(s) && Own(s, s', p) && WakeKept(s, s', p)
    ensures InvWake(s')
  {
    assert forall c, q :: ZombieChild(s', c, q) ==> ZombieChild(s, c, q);
    forall c, q | 0 <= q < |s'.procs| && ZombieChild(s', c, q) && Parked(s'.procs[q])
      ensures q == 0 && 0 <= s'.wait < |s'.procs| && s'.procs[s'.wait].pc.WakeInit? && s'.procs[s'.wait].pc.j == 0
    {
      assert Parked(s.procs[q]) && ZombieChild(s, c, q);
    }
    forall r | 0 <= r < |s'.procs| && 0 <= s'.procs[r].parent < |s'.procs| && Parked(s'.procs[s'.procs[r].parent])
      ensures (s'.procs[r].pc.WakeParent? ==> s'.procs[r].pc.j <= s'.procs[r].parent)
              && !s'.procs[r].pc.ExitSelf? && !s'.procs[r].pc.ExitZombie?
    {
      assert Parked(s.procs[s.procs[r].parent]);
    }
  }

  lemma OwnInv(s: State, s': State, p: nat)
    requires Inv(s) && Own(s, s', p) && StateFits(p, s'.procs[p])
    requires LockMove(s, s', p) && ForkKept(s.procs[p], s'.procs[p])
    requires TreeKept(s, s.procs[p], s'.procs[p], p) && WakeKept(s, s', p)
    ensures Inv(s')
  {
    OwnLocks(s, s', p);
    OwnFork(s, s', p);
    OwnTree(s, s', p);
    OwnWake(s, s', p);
  }

  // ---- the statements of fork, exit and wait that change their own slot -----------------------

  lemma ForkLinkInv(s: State, p: nat)
    requires Inv(s) && Enabled(s, Advance(p)) && s.procs[p].pc.ForkLink?
    ensures Inv(Do(s, Advance(p)))
  {
    OwnInv(s, Do(s, Advance(p)), p);
  }

  lemma ForkUnlockInv(s: State, p: nat)
    requires Inv(s) && Enabled(s, Advance(p)) && s.procs[p].pc.ForkUnlock?
    ensures Inv(Do(s, Advance(p)))
  {
    OwnInv(s, Do(s, Advance(p)), p);
  }

  lemma ExitLockInv(s: State, p: nat)
    requires Inv(s) && Enabled(s, Advance(p)) && s.procs[p].pc.ExitLock?
    ensures Inv(Do(s, Advance(p)))
  {
    OwnInv(s, Do(s, Advance(p)), p);
  }

  lemma ExitSelfInv(s: State, p: nat)
    requires Inv(s) && Enabled(s, Advance(p)) && s.procs[p].pc.ExitSelf?
    ensures Inv(Do(s, Advance(p)))
  {
    OwnInv(s, Do(s, Advance(p)), p);
  }

  lemma ExitUnlockInv(s: State, p: nat)
    requires Inv(s) && Enabled(s, Advance(p)) && s.procs[p].pc.ExitUnlock?
    ensures Inv(Do(s, Advance(p)))
  {
    OwnInv(s, Do(s, Advance(p)), p);
  }

  lemma ExitSchedInv(s: State, p: nat)
    requires Inv(s) && Enabled(s, Advance(p)) && s.procs[p].pc.ExitSched?
    ensures Inv(Do(s, Advance(p)))
  {
    OwnInv(s, Do(s, Advance(p)), p);
  }

  lemma WaitLockInvTree(s: State, p: nat)
    requires Inv(s) && Enabled(s, Advance(p)) && s.procs[p].pc.WaitLock?
    ensures var s' := Do(s, Advance(p));
            Own(s, s', p) && ForkKept(s.procs[p], s'.procs[p]) && TreeKept(s, s.procs[p], s'.procs[p], p)
  {
    hide InvLocks, InvState, InvFork, InvWake;
  }

  lemma WaitLockInv(s: State, p: nat)
    requires Inv(s) && Enabled(s, Advance(p)) && s.procs[p].pc.WaitLock?
    ensures Inv(Do(s, Advance(p)))
  {
    hide ForkKept, TreeKept;
    WaitLockInvTree(s, p);
    OwnInv(s, Do(s, Advance(p)), p);
  }

  lemma WaitUnlockInv(s: State, p: nat)
    requires Inv(s) && Enabled(s, Advance(p)) && s.procs[p].pc.WaitUnlock?
    ensures Inv(Do(s, Advance(p)))
  {
    OwnInv(s, Do(s, Advance(p)), p);
  }

  lemma WaitSleepInv(s: State, p: nat)
    requires Inv(s) && Enabled(s, Advance(p)) && s.procs[p].pc.WaitSleep?
    ensures Inv(Do(s, Advance(p)))
  {
    OwnInv(s, Do(s, Advance(p)), p);
  }

  /** Letting go of wait_lock on the way to sleep: a scan has found no ZOMBIE child, and no child
      can be past its wakeup of the parent. */
  lemma SleepUnlockInv(s: State, p: nat)
    requires Inv(s) && Enabled(s, Advance(p)) && s.procs[p].pc.SleepUnlock?
    ensures Inv(Do(s, Advance(p)))
  {
    hide InvLocks, InvFork, InvTree, InvWake, ForkKept, TreeKept, LockMove;
    var s' := Do(s, Advance(p));
    SleepUnlockTree(s, p);
    SleepUnlockLocks(s, p);
    SleepUnlockWake(s, p);
    OwnLocks(s, s', p);
    OwnFork(s, s', p);
    OwnTree(s, s', p);
  }

  lemma SleepUnlockTree(s: State, p: nat)
    requires Inv(s) && Enabled(s, Advance(p)) && s.procs[p].pc.SleepUnlock?
    ensures var s' := Do(s, Advance(p));
            Own(s, s', p) && ForkKept(s.procs[p], s'.procs[p]) && TreeKept(s, s.procs[p], s'.procs[p], p)
  {
    hide InvLocks, InvWake, InvFork;
  }

  lemma SleepUnlockLocks(s: State, p: nat)
    requires Inv(s) && Enabled(s, Advance(p)) && s.procs[p].pc.SleepUnlock?
    ensures var s' := Do(s, Advance(p)); Own(s, s', p) && LockMove(s, s', p) && InvState(s')
  {
    hide InvTree, InvFork, InvWake;
  }

  lemma SleepUnlockWake(s: State, p: nat)
    requires Inv(s) && Enabled(s, Advance(p)) && s.procs[p].pc.SleepUnlock?
    ensures InvWake(Do(s, Advance(p)))
  {
    hide InvFork, InvState, InvTree, Creates, Linked, MayParent, StateFits;
    var s' := Do(s, Advance(p));
    assert forall c, q :: ZombieChild(s', c, q) ==> ZombieChild(s, c, q);
    assert forall r :: 0 <= r < |s.procs| && r != p ==> !HoldsWait(s'.procs[r].pc);
  }

  lemma WindowInv(s: State, p: nat)
    requires Inv(s) && Enabled(s, Advance(p)) && s.procs[p].pc.Window?
    ensures Inv(Do(s, Advance(p)))
  {
    OwnInv(s, Do(s, Advance(p)), p);
  }

  lemma SleepSchedInv(s: State, p: nat)
    requires Inv(s) && Enabled(s, Advance(p)) && s.procs[p].pc.SleepSched?
    ensures Inv(Do(s, Advance(p)))
  {
    OwnInv(s, Do(s, Advance(p)), p);
  }

  lemma WakingInv(s: State, p: nat)
    requires Inv(s) && Enabled(s, Advance(p)) && s.procs[p].pc.Waking?
    ensures Inv(Do(s, Advance(p)))
  {
    OwnInv(s, Do(s, Advance(p)), p);
  }

  /** A slot goes from SLEEPING to RUNNABLE. */
  function Rouse(s: State, v: nat): State
    requires v < |s.procs|
  {
    Put(s, v, s.procs[v].(state := RUNNABLE))
  }

  lemma RouseInv(s: State, v: nat)
    requires Inv(s) && Free(s, v) && s.procs[v].state == SLEEPING
    ensures Inv(Rouse(s, v))
  {
    OwnInv(s, Rouse(s, v), v);
  }

  // ---- kill, the scheduler, and calls -------------------------------------------------------------

  lemma StartForkInv(s: State, p: nat)
    requires Inv(s) && Enabled(s, StartFork(p))
    ensures Inv(Do(s, StartFork(p)))
  {
    OwnInv(s, Do(s, StartFork(p)), p);
  }

  lemma StartExitInv(s: State, p: nat)
    requires Inv(s) && Enabled(s, StartExit(p))
    ensures Inv(Do(s, StartExit(p)))
  {
    OwnInv(s, Do(s, StartExit(p)), p);
  }

  lemma StartWaitInv(s: State, p: nat)
    requires Inv(s) && Enabled(s, StartWait(p))
    ensures Inv(Do(s, StartWait(p)))
  {
    OwnInv(s, Do(s, StartWait(p)), p);
  }

  lemma YieldInv(s: State, t: Step)
    requires Inv(s) && Enabled(s, t) && (t.SleepElsewhere? || t.WakeElsewhere? || t.Yield?)
    ensures Inv(Do(s, t))
  {
    hide Inv;
    var p := t.p;
    if t.SleepElsewhere? {
      SleepElsewhereAt(s, p);
    } else if t.WakeElsewhere? {
      RouseInv(s, p);
    } else {
      YieldAt(s, p);
    }
  }

  lemma SleepElsewhereAt(s: State, p: nat)
    requires Inv(s) && Free(s, p) && s.procs[p].state == RUNNING && s.procs[p].pc.User?
    ensures Inv(Put(s, p, s.procs[p].(pc := UserAsleep, state := SLEEPING)))
  {
    OwnInv(s, Put(s, p, s.procs[p].(pc := UserAsleep, state := SLEEPING)), p);
  }

  lemma YieldAt(s: State, p: nat)
    requires Inv(s) && Free(s, p) && s.procs[p].state == RUNNING && !HoldsAnyLock(s.procs[p].pc)
    ensures Inv(Put(s, p, s.procs[p].(state := RUNNABLE)))
  {
    OwnInv(s, Put(s, p, s.procs[p].(state := RUNNABLE)), p);
  }

  lemma ScheduleInvTree(s: State, p: nat)
    requires Inv(s) && Enabled(s, Schedule(p))
    ensures var s' := Do(s, Schedule(p));
            Own(s, s', p) && ForkKept(s.procs[p], s'.procs[p]) && TreeKept(s, s.procs[p], s'.procs[p], p)
  {
    hide InvLocks, InvState, InvFork, InvWake;
  }

  lemma ScheduleInv(s: State, p: nat)
    requires Inv(s) && Enabled(s, Schedule(p))
    ensures Inv(Do(s, Schedule(p)))
  {
    hide ForkKept, TreeKept;
    ScheduleInvTree(s, p);
    OwnInv(s, Do(s, Schedule(p)), p);
  }

  lemma KillInv(s: State, v: nat)
    requires Inv(s) && Enabled(s, Kill(v))
    ensures Inv(Do(s, Kill(v)))
  {
    OwnInv(s, Do(s, Kill(v)), v);
  }

  // ---- steps of process `p` on another slot `c` ---------------------------------------------------

  ghost predicate Pair(s: State, s': State, p: nat, c: nat) {
    && p < |s.procs| && c < |s.procs| && c != p && |s'.procs| == |s.procs|
    && s'.procs == s.procs[c := s'.procs[c]][p := s'.procs[p]]
    && s'.procs[p].(pc := s.procs[p].pc) == s.procs[p]
    && s'.wait == s.wait
  }

  ghost predicate PairLockMove(s: State, s': State, p: nat, c: nat)
    requires Pair(s, s', p, c)
  {
    var o, n := s.procs[p], s'.procs[p];
    && (HoldsWait(n.pc) <==> HoldsWait(o.pc)) && (HoldsWait(s'.procs[c].pc) <==> HoldsWait(s.procs[c].pc))
    && (s'.procs[c].lock == s.procs[c].lock
        || (s.procs[c].lock == -1 && s'.procs[c].lock == p) || (s.procs[c].lock == p && s'.procs[c].lock == -1))
    && (HoldsLock(n.pc, p, c) <==> s'.procs[c].lock == p)
    && (forall i :: i != c ==> (HoldsLock(n.pc, p, i) <==> HoldsLock(o.pc, p, i)))
    && (forall i :: HoldsLock(s'.procs[c].pc, c, i) <==> HoldsLock(s.procs[c].pc, c, i))
  }

  lemma PairLocks(s: State, s': State, p: nat, c: nat)
    requires InvLocks(s) && Pair(s, s', p, c) && PairLockMove(s, s', p, c)
    ensures InvLocks(s')
  {
    forall i, q | 0 <= i < |s'.procs| && 0 <= q < |s'.procs|
      ensures HoldsLock(s'.procs[q].pc, q, i) <==> s'.procs[i].lock == q
    {
      assert HoldsLock(s.procs[q].pc, q, i) <==> s.procs[i].lock == q;
    }
  }

  ghost predicate PairTreeKept(s: State, s': State, p: nat, c: nat)
    requires Pair(s, s', p, c)
  {
    var n, m := s'.procs[p], s'.procs[c];
    && -1 <= m.parent < |s.procs| && m.parent != c
    && (m.parent >= 0 ==> MayParent(s'.procs[m.parent].pc, c))
    && (forall i :: 0 <= i < |s.procs| && i != c && s.procs[i].parent == p ==> MayParent(n.pc, i))
    && (forall i :: 0 <= i < |s.procs| && i != c && s.procs[i].parent == c ==> MayParent(m.pc, i))
    && (n.pc.Reap? ==> n.pc.c == c && m.state == ZOMBIE && m.parent == p)
    && !m.pc.Reap? && (forall q :: 0 <= q < |s.procs| && q != p && s.procs[q].pc.Reap? ==> s.procs[q].pc.c != c)
    && (p == 0 ==> Alive(n.pc) && !Exiting(n.pc))
    && (c == 0 ==> Alive(m.pc) && !Exiting(m.pc) && m.parent == -1)
  }

  lemma PairTree(s: State, s': State, p: nat, c: nat)
    requires InvTree(s) && Pair(s, s', p, c) && PairTreeKept(s, s', p, c)
    ensures InvTree(s')
  {
    forall i | 0 <= i < |s'.procs| && s'.procs[i].parent >= 0
      ensures MayParent(s'.procs[s'.procs[i].parent].pc, i)
    {
      if i != c {
        assert s'.procs[i].parent == s.procs[i].parent;
        assert MayParent(s.procs[s.procs[i].parent].pc, i);
      }
    }
    forall q | 0 <= q < |s'.procs| && q != p && s'.procs[q].pc.Reap?
      ensures s'.procs[q].pc.c < |s.procs| && s'.procs[s'.procs[q].pc.c].state == ZOMBIE
              && s'.procs[s'.procs[q].pc.c].parent == q
    {
      assert s'.procs[q] == s.procs[q];
    }
  }

  /** No zombie appears or changes parent, nobody parks, and `c` is not on its way out. */
  ghost predicate PairWakeKept(s: State, s': State, p: nat, c: nat)
    requires Pair(s, s', p, c)
  {
    var o, n, m := s.procs[p], s'.procs[p], s'.procs[c];
    && (m.state == ZOMBIE ==> s.procs[c].state == ZOMBIE && m.parent == s.procs[c].parent)
    && !Parked(m) && !Parked(n) && !o.pc.WakeInit?
    && !(s.procs[c].pc.WakeInit? && s.wait == c)
    && (n.pc.Scan? ==> o.pc.Scan? && n.pc.i == o.pc.i) && !m.pc.Scan?
    && !n.pc.WaitSleep? && !n.pc.SleepUnlock? && !m.pc.WaitSleep? && !m.pc.SleepUnlock?
    && !n.pc.WakeParent? && !n.pc.ExitSelf? && !n.pc.ExitZombie?
    && !m.pc.WakeParent? && !m.pc.ExitSelf? && !m.pc.ExitZombie?
  }

  lemma PairWake(s: State, s': State, p: nat, c: nat)
    requires InvWake(s) && Pair(s, s', p, c) && PairWakeKept(s, s', p, c)
    ensures InvWake(s')
  {
    assert forall x, q :: ZombieChild(s', x, q) ==> ZombieChild(s, x, q);
    forall x, q | 0 <= q < |s'.procs| && ZombieChild(s', x, q) && Parked(s'.procs[q])
      ensures q == 0 && 0 <= s'.wait < |s'.procs| && s'.procs[s'.wait].pc.WakeInit? && s'.procs[s'.wait].pc.j == 0
    {
      assert Parked(s.procs[q]) && ZombieChild(s, x, q);
    }
    forall r | 0 <= r < |s'.procs| && 0 <= s'.procs[r].parent < |s'.procs| && Parked(s'.procs[s'.procs[r].parent])
      ensures (s'.procs[r].pc.WakeParent? ==> s'.procs[r].pc.j <= s'.procs[r].parent)
              && !s'.procs[r].pc.ExitSelf? && !s'.procs[r].pc.ExitZombie?
    {
      if r != c && r != p { assert Parked(s.procs[s.procs[r].parent]); }
    }
  }

  lemma PairState(s: State, s': State, p: nat, c: nat)
    requires InvState(s) && Pair(s, s', p, c) && StateFits(p, s'.procs[p]) && StateFits(c, s'.procs[c])
    ensures InvState(s')
  {
  }

  ghost predicate ForkPcKept(o: Pc, n: Pc) {
    && (forall c :: Creates(n, c) <==> Creates(o, c))
    && (Forking(n) <==> Forking(o)) && (Linked(n) <==> Linked(o))
  }

  /** The step neither starts nor ends a fork, nor touches a slot being created. */
  lemma PairForkKept(s: State, s': State, p: nat, c: nat)
    requires InvFork(s) && Pair(s, s', p, c)
    requires ForkPcKept(s.procs[p].pc, s'.procs[p].pc) && ForkPcKept(s.procs[c].pc, s'.procs[c].pc)
    requires forall q :: 0 <= q < |s.procs| ==> !Creates(s.procs[q].pc, c)
    requires s'.procs[c].state == UNUSED ==> s'.procs[c].parent == -1
    ensures InvFork(s')
  {
    forall q, x | 0 <= q < |s.procs| && 0 <= x < |s.procs| && Creates(s'.procs[q].pc, x)
      ensures Creates(s.procs[q].pc, x) && (Linked(s'.procs[q].pc) <==> Linked(s.procs[q].pc))
    {}
    forall q | 0 <= q < |s.procs| && Forking(s'.procs[q].pc) ensures s'.procs[q].pc.c < |s.procs| {
      assert Creates(s'.procs[q].pc, s'.procs[q].pc.c) && Creates(s.procs[q].pc, s'.procs[q].pc.c);
    }
  }

  lemma PairInv(s: State, s': State, p: nat, c: nat)
    requires Inv(s) && Pair(s, s', p, c) && StateFits(p, s'.procs[p]) && StateFits(c, s'.procs[c])
    requires PairLockMove(s, s', p, c) && PairTreeKept(s, s', p, c) && PairWakeKept(s, s', p, c) && InvFork(s')
    ensures Inv(s')
  {
    hide InvLocks, InvState, InvFork, InvTree, InvWake;
    PairLocks(s, s', p, c);
    PairState(s, s', p, c);
    PairTree(s, s', p, c);
    PairWake(s, s', p, c);
  }

  // ---- fork -----------------------------------------------------------------------------------------

  lemma ForkOther(s: State, s': State, p: nat, c: nat, q: nat, x: nat)
    requires InvFork(s) && Pair(s, s', p, c) && !Forking(s'.procs[c].pc)
    requires s.procs[c].state == UNUSED || Creates(s.procs[p].pc, c)
    requires q < |s.procs| && x < |s.procs| && q != p && Creates(s'.procs[q].pc, x)
    ensures q != c && Creates(s.procs[q].pc, x) && x != c && s'.procs[x].state == USED
            && s'.procs[x].parent == (if Linked(s'.procs[q].pc) then q else -1)
  {
    assert q != c && s'.procs[q] == s.procs[q];
  }

  /** fork moves on with slot `c`: it finds it, gives up its lock, links it, starts it or gives up. */
  lemma ForkMove(s: State, s': State, p: nat, c: nat)
    requires InvFork(s) && Pair(s, s', p, c)
    requires s'.procs[c].state == USED ==> Creates(s'.procs[p].pc, c)
    requires Forking(s.procs[p].pc) ==> Creates(s.procs[p].pc, c)
    requires s.procs[c].state == UNUSED || Creates(s.procs[p].pc, c)
    requires Forking(s'.procs[p].pc) ==> Creates(s'.procs[p].pc, c) && s'.procs[c].state == USED
    requires s'.procs[c].state == USED ==> s'.procs[c].parent == if Linked(s'.procs[p].pc) then p else -1
    requires s'.procs[c].state == UNUSED ==> s'.procs[c].parent == -1
    requires !Forking(s.procs[c].pc) && !Forking(s'.procs[c].pc)
    ensures InvFork(s')
  {
    forall q, x | 0 <= q < |s.procs| && 0 <= x < |s.procs| && q != p && Creates(s'.procs[q].pc, x)
      ensures q != c && Creates(s.procs[q].pc, x) && x != c && s'.procs[x].state == USED
              && s'.procs[x].parent == (if Linked(s'.procs[q].pc) then q else -1)
    {
      ForkOther(s, s', p, c, q, x);
    }
    forall q | 0 <= q < |s.procs| && Forking(s'.procs[q].pc) ensures s'.procs[q].pc.c < |s.procs| {
      if q != p && q != c { assert s'.procs[q] == s.procs[q]; }
    }
  }
  lemma ForkScanOnInv(s: State, p: nat)
    requires Inv(s) && Enabled(s, Advance(p)) && s.procs[p].pc.ForkScan?
    requires s.procs[p].pc.i < |s.procs| ==> s.procs[s.procs[p].pc.i].state != UNUSED
    ensures Inv(Do(s, Advance(p)))
  {
    hide Inv;
    PlainMove(s, p, User);
    PlainMove(s, p, ForkScan(s.procs[p].pc.i + 1));
  }

  /** Moves between places that hold no lock and have no slot in hand. */
  lemma PlainMoveTree(s: State, p: nat, n: Pc)
    requires Inv(s) && p < |s.procs| && s.procs[p].state == RUNNING
    requires (s.procs[p].pc.User? || s.procs[p].pc.ForkScan?) && (n.User? || n.ForkScan?)
    ensures var s' := Goto(s, p, n);
            Own(s, s', p) && ForkKept(s.procs[p], s'.procs[p]) && TreeKept(s, s.procs[p], s'.procs[p], p)
  {
    hide InvLocks, InvState, InvFork, InvWake;
  }

  lemma PlainMove(s: State, p: nat, n: Pc)
    requires Inv(s) && p < |s.procs| && s.procs[p].state == RUNNING
    requires (s.procs[p].pc.User? || s.procs[p].pc.ForkScan?) && (n.User? || n.ForkScan?)
    ensures Inv(Goto(s, p, n))
  {
    hide ForkKept, TreeKept, InvTree, InvFork;
    PlainMoveTree(s, p, n);
    OwnInv(s, Goto(s, p, n), p);
  }

  lemma ForkFoundInv(s: State, p: nat)
    requires Inv(s) && Enabled(s, Advance(p)) && s.procs[p].pc.ForkScan? && s.procs[p].pc.i < |s.procs|
             && s.procs[s.procs[p].pc.i].state == UNUSED
    ensures Inv(Do(s, Advance(p)))
  {
    hide Inv;
    var c := s.procs[p].pc.i;
    ForkFoundAt(s, p, c);
    assert Do(s, Advance(p)) == Goto(Put(s, c, s.procs[c].(state := USED, lock := p)), p, ForkGot(c));
  }

  lemma ForkFoundTree(s: State, p: nat, c: nat)
    requires Inv(s) && p < |s.procs| && c < |s.procs| && s.procs[p].state == RUNNING
             && s.procs[p].pc == ForkScan(c) && s.procs[c].state == UNUSED && s.procs[c].lock == -1
    ensures var s' := Goto(Put(s, c, s.procs[c].(state := USED, lock := p)), p, ForkGot(c));
            Pair(s, s', p, c) && PairTreeKept(s, s', p, c)
  {
    hide InvLocks, InvWake;
  }

  lemma ForkFoundRest(s: State, p: nat, c: nat)
    requires Inv(s) && p < |s.procs| && c < |s.procs| && s.procs[p].state == RUNNING
             && s.procs[p].pc == ForkScan(c) && s.procs[c].state == UNUSED && s.procs[c].lock == -1
    ensures var s' := Goto(Put(s, c, s.procs[c].(state := USED, lock := p)), p, ForkGot(c));
            && Pair(s, s', p, c) && PairLockMove(s, s', p, c) && PairWakeKept(s, s', p, c)
            && StateFits(p, s'.procs[p]) && StateFits(c, s'.procs[c])
  {
  }

  lemma ForkFoundAt(s: State, p: nat, c: nat)
    requires Inv(s) && p < |s.procs| && c < |s.procs| && s.procs[p].state == RUNNING
             && s.procs[p].pc == ForkScan(c) && s.procs[c].state == UNUSED && s.procs[c].lock == -1
    ensures Inv(Goto(Put(s, c, s.procs[c].(state := USED, lock := p)), p, ForkGot(c)))
  {
    hide InvLocks, InvTree, InvWake, PairLockMove, PairTreeKept, PairWakeKept;
    var s' := Goto(Put(s, c, s.procs[c].(state := USED, lock := p)), p, ForkGot(c));
    ForkFoundTree(s, p, c);
    ForkFoundRest(s, p, c);
    ForkMove(s, s', p, c);
    PairInv(s, s', p, c);
  }

  lemma ForkGotInv(s: State, p: nat)
    requires Inv(s) && Enabled(s, Advance(p)) && s.procs[p].pc.ForkGot?
    ensures Inv(Do(s, Advance(p)))
  {
    hide Inv;
    var c := s.procs[p].pc.c;
    ForkGotAt(s, p, c);
    assert Do(s, Advance(p)) == Goto(Put(s, c, s.procs[c].(lock := -1)), p, ForkLink(c));
  }

  lemma ForkGotTree(s: State, p: nat, c: nat)
    requires Inv(s) && p < |s.procs| && c < |s.procs| && s.procs[p].state == RUNNING && s.procs[p].pc == ForkGot(c)
    ensures var s' := Goto(Put(s, c, s.procs[c].(lock := -1)), p, ForkLink(c));
            Pair(s, s', p, c) && PairTreeKept(s, s', p, c)
  {
    hide InvLocks, InvWake;
  }

  lemma ForkGotRest(s: State, p: nat, c: nat)
    requires Inv(s) && p < |s.procs| && c < |s.procs| && s.procs[p].state == RUNNING && s.procs[p].pc == ForkGot(c)
    ensures var s' := Goto(Put(s, c, s.procs[c].(lock := -1)), p, ForkLink(c));
            && Pair(s, s', p, c) && PairLockMove(s, s', p, c) && PairWakeKept(s, s', p, c)
            && StateFits(p, s'.procs[p]) && StateFits(c, s'.procs[c])
  {
  }

  lemma ForkGotAt(s: State, p: nat, c: nat)
    requires Inv(s) && p < |s.procs| && c < |s.procs| && s.procs[p].state == RUNNING && s.procs[p].pc == ForkGot(c)
    ensures Inv(Goto(Put(s, c, s.procs[c].(lock := -1)), p, ForkLink(c)))
  {
    hide InvLocks, InvTree, InvWake, PairLockMove, PairTreeKept, PairWakeKept;
    var s' := Goto(Put(s, c, s.procs[c].(lock := -1)), p, ForkLink(c));
    ForkGotTree(s, p, c);
    ForkGotRest(s, p, c);
    ForkMove(s, s', p, c);
    PairInv(s, s', p, c);
  }

  lemma ForkSetInv(s: State, p: nat)
    requires Inv(s) && Enabled(s, Advance(p)) && s.procs[p].pc.ForkSet?
    ensures Inv(Do(s, Advance(p)))
  {
    hide Inv;
    var c := s.procs[p].pc.c;
    ForkSetAt(s, p, c);
    assert Do(s, Advance(p)) == Goto(Put(s, c, s.procs[c].(parent := p)), p, ForkUnlock(c));
  }

  lemma ForkSetTree(s: State, p: nat, c: nat)
    requires Inv(s) && p < |s.procs| && c < |s.procs| && s.procs[p].state == RUNNING && s.procs[p].pc == ForkSet(c)
    ensures var s' := Goto(Put(s, c, s.procs[c].(parent := p)), p, ForkUnlock(c));
            Pair(s, s', p, c) && PairTreeKept(s, s', p, c)
  {
    hide InvLocks, InvWake;
  }

  lemma ForkSetRest(s: State, p: nat, c: nat)
    requires Inv(s) && p < |s.procs| && c < |s.procs| && s.procs[p].state == RUNNING && s.procs[p].pc == ForkSet(c)
    ensures var s' := Goto(Put(s, c, s.procs[c].(parent := p)), p, ForkUnlock(c));
            && Pair(s, s', p, c) && PairLockMove(s, s', p, c) && PairWakeKept(s, s', p, c)
            && StateFits(p, s'.procs[p]) && StateFits(c, s'.procs[c])
  {
  }

  lemma ForkSetAt(s: State, p: nat, c: nat)
    requires Inv(s) && p < |s.procs| && c < |s.procs| && s.procs[p].state == RUNNING && s.procs[p].pc == ForkSet(c)
    ensures Inv(Goto(Put(s, c, s.procs[c].(parent := p)), p, ForkUnlock(c)))
  {
    hide InvLocks, InvTree, InvWake, PairLockMove, PairTreeKept, PairWakeKept;
    var s' := Goto(Put(s, c, s.procs[c].(parent := p)), p, ForkUnlock(c));
    ForkSetTree(s, p, c);
    ForkSetRest(s, p, c);
    ForkMove(s, s', p, c);
    PairInv(s, s', p, c);
  }

  lemma ForkRunInv(s: State, p: nat)
    requires Inv(s) && Enabled(s, Advance(p)) && s.procs[p].pc.ForkRun?
    ensures Inv(Do(s, Advance(p)))
  {
    hide Inv;
    var c := s.procs[p].pc.c;
    ForkRunAt(s, p, c);
    assert Do(s, Advance(p)) == Goto(Put(s, c, s.procs[c].(state := RUNNABLE, pc := User)), p, User);
  }

  lemma ForkRunTree(s: State, p: nat, c: nat)
    requires Inv(s) && p < |s.procs| && c < |s.procs| && s.procs[p].state == RUNNING
             && s.procs[p].pc == ForkRun(c) && s.procs[c].lock == -1
    ensures var s' := Goto(Put(s, c, s.procs[c].(state := RUNNABLE, pc := User)), p, User);
            Pair(s, s', p, c) && PairTreeKept(s, s', p, c)
  {
    hide InvLocks, InvWake;
  }

  lemma ForkRunRest(s: State, p: nat, c: nat)
    requires Inv(s) && p < |s.procs| && c < |s.procs| && s.procs[p].state == RUNNING
             && s.procs[p].pc == ForkRun(c) && s.procs[c].lock == -1
    ensures var s' := Goto(Put(s, c, s.procs[c].(state := RUNNABLE, pc := User)), p, User);
            && Pair(s, s', p, c) && PairLockMove(s, s', p, c) && PairWakeKept(s, s', p, c)
            && StateFits(p, s'.procs[p]) && StateFits(c, s'.procs[c])
  {
  }

  lemma ForkRunAt(s: State, p: nat, c: nat)
    requires Inv(s) && p < |s.procs| && c < |s.procs| && s.procs[p].state == RUNNING
             && s.procs[p].pc == ForkRun(c) && s.procs[c].lock == -1
    ensures Inv(Goto(Put(s, c, s.procs[c].(state := RUNNABLE, pc := User)), p, User))
  {
    hide InvLocks, InvTree, InvWake, PairLockMove, PairTreeKept, PairWakeKept;
    var s' := Goto(Put(s, c, s.procs[c].(state := RUNNABLE, pc := User)), p, User);
    ForkRunTree(s, p, c);
    ForkRunRest(s, p, c);
    ForkMove(s, s', p, c);
    PairInv(s, s', p, c);
  }

  lemma ForkFailTree(s: State, p: nat)
    requires Inv(s) && Enabled(s, Fail(p)) && s.procs[p].pc.ForkGot?
    ensures Pair(s, Do(s, Fail(p)), p, s.procs[p].pc.c)
    ensures PairTreeKept(s, Do(s, Fail(p)), p, s.procs[p].pc.c)
    ensures s.procs[s.procs[p].pc.c].state == if s.procs[p].pc.Reap? then ZOMBIE else USED
  {
    hide InvLocks, InvWake;
  }

  lemma ForkFailWake(s: State, p: nat)
    requires Inv(s) && Enabled(s, Fail(p)) && s.procs[p].pc.ForkGot?
    ensures Pair(s, Do(s, Fail(p)), p, s.procs[p].pc.c)
    ensures PairWakeKept(s, Do(s, Fail(p)), p, s.procs[p].pc.c)
    ensures s.procs[s.procs[p].pc.c].state == if s.procs[p].pc.Reap? then ZOMBIE else USED
  {
  }

  lemma ForkFailInv(s: State, p: nat)
    requires Inv(s) && Enabled(s, Fail(p)) && s.procs[p].pc.ForkGot?
    ensures Inv(Do(s, Fail(p)))
  {
    hide InvTree, InvWake, PairTreeKept, PairWakeKept;
    var s', c := Do(s, Fail(p)), s.procs[p].pc.c;
    ForkFailTree(s, p);
    ForkFailWake(s, p);
    ForkMove(s, s', p, c);
    PairInv(s, s', p, c);
  }

  // ---- wait -----------------------------------------------------------------------------------------

  lemma ScanReapInv(s: State, p: nat)
    requires Inv(s) && Enabled(s, Advance(p)) && s.procs[p].pc.Scan? && s.procs[p].pc.i < |s.procs|
             && s.procs[s.procs[p].pc.i].parent == p && s.procs[s.procs[p].pc.i].state == ZOMBIE
    ensures Inv(Do(s, Advance(p)))
  {
    hide Inv;
    var c := s.procs[p].pc.i;
    ScanReapAt(s, p, c);
    assert Do(s, Advance(p)) == Goto(Put(s, c, s.procs[c].(lock := p)), p, Reap(c));
  }

  lemma ScanReapTree(s: State, p: nat, c: nat)
    requires Inv(s) && p < |s.procs| && c < |s.procs| && s.procs[p].state == RUNNING && s.procs[p].pc.Scan?
             && s.procs[p].pc.i == c && s.procs[c].parent == p && s.procs[c].state == ZOMBIE && s.procs[c].lock == -1
    ensures var s' := Goto(Put(s, c, s.procs[c].(lock := p)), p, Reap(c));
            Pair(s, s', p, c) && PairTreeKept(s, s', p, c)
  {
    hide InvLocks, InvWake;
  }

  lemma ScanReapRest(s: State, p: nat, c: nat)
    requires Inv(s) && p < |s.procs| && c < |s.procs| && s.procs[p].state == RUNNING && s.procs[p].pc.Scan?
             && s.procs[p].pc.i == c && s.procs[c].parent == p && s.procs[c].state == ZOMBIE && s.procs[c].lock == -1
    ensures var s' := Goto(Put(s, c, s.procs[c].(lock := p)), p, Reap(c));
            && Pair(s, s', p, c) && PairLockMove(s, s', p, c) && PairWakeKept(s, s', p, c)
            && StateFits(p, s'.procs[p]) && StateFits(c, s'.procs[c])
  {
  }

  lemma ScanReapAt(s: State, p: nat, c: nat)
    requires Inv(s) && p < |s.procs| && c < |s.procs| && s.procs[p].state == RUNNING && s.procs[p].pc.Scan?
             && s.procs[p].pc.i == c && s.procs[c].parent == p && s.procs[c].state == ZOMBIE && s.procs[c].lock == -1
    ensures Inv(Goto(Put(s, c, s.procs[c].(lock := p)), p, Reap(c)))
  {
    hide InvLocks, InvTree, InvWake, PairLockMove, PairTreeKept, PairWakeKept;
    var s' := Goto(Put(s, c, s.procs[c].(lock := p)), p, Reap(c));
    ScanReapTree(s, p, c);
    ScanReapRest(s, p, c);
    PairForkKept(s, s', p, c);
    PairInv(s, s', p, c);
  }

  lemma ReapTree(s: State, p: nat)
    requires Inv(s) && Enabled(s, Advance(p)) && s.procs[p].pc.Reap?
    ensures Pair(s, Do(s, Advance(p)), p, s.procs[p].pc.c)
    ensures PairTreeKept(s, Do(s, Advance(p)), p, s.procs[p].pc.c)
    ensures s.procs[s.procs[p].pc.c].state == if s.procs[p].pc.Reap? then ZOMBIE else USED
  {
    hide InvWake, InvFork;
  }

  lemma ReapWake(s: State, p: nat)
    requires Inv(s) && Enabled(s, Advance(p)) && s.procs[p].pc.Reap?
    ensures Pair(s, Do(s, Advance(p)), p, s.procs[p].pc.c)
    ensures PairWakeKept(s, Do(s, Advance(p)), p, s.procs[p].pc.c)
    ensures s.procs[s.procs[p].pc.c].state == if s.procs[p].pc.Reap? then ZOMBIE else USED
  {
  }

  lemma ReapInv(s: State, p: nat)
    requires Inv(s) && Enabled(s, Advance(p)) && s.procs[p].pc.Reap?
    ensures Inv(Do(s, Advance(p)))
  {
    hide InvTree, InvWake, PairTreeKept, PairWakeKept;
    var s', c := Do(s, Advance(p)), s.procs[p].pc.c;
    ReapTree(s, p);
    ReapWake(s, p);
    PairForkKept(s, s', p, c);
    PairInv(s, s', p, c);
  }

  lemma ReapFailInv(s: State, p: nat)
    requires Inv(s) && Enabled(s, Fail(p)) && s.procs[p].pc.Reap?
    ensures Inv(Do(s, Fail(p)))
  {
    hide Inv;
    var c := s.procs[p].pc.c;
    ReapFailAt(s, p, c);
    assert Do(s, Fail(p)) == Goto(Put(s, c, s.procs[c].(lock := -1)), p, WaitUnlock);
  }

  lemma ReapFailTree(s: State, p: nat, c: nat)
    requires Inv(s) && p < |s.procs| && c < |s.procs| && s.procs[p].state == RUNNING && s.procs[p].pc == Reap(c)
    ensures var s' := Goto(Put(s, c, s.procs[c].(lock := -1)), p, WaitUnlock);
            Pair(s, s', p, c) && PairTreeKept(s, s', p, c) && s.procs[c].state == ZOMBIE
  {
    hide InvLocks, InvWake;
  }

  lemma ReapFailRest(s: State, p: nat, c: nat)
    requires Inv(s) && p < |s.procs| && c < |s.procs| && s.procs[p].state == RUNNING && s.procs[p].pc == Reap(c)
    ensures var s' := Goto(Put(s, c, s.procs[c].(lock := -1)), p, WaitUnlock);
            && Pair(s, s', p, c) && PairLockMove(s, s', p, c) && PairWakeKept(s, s', p, c)
            && StateFits(p, s'.procs[p]) && StateFits(c, s'.procs[c])
  {
  }

  lemma ReapFailAt(s: State, p: nat, c: nat)
    requires Inv(s) && p < |s.procs| && c < |s.procs| && s.procs[p].state == RUNNING && s.procs[p].pc == Reap(c)
    ensures Inv(Goto(Put(s, c, s.procs[c].(lock := -1)), p, WaitUnlock))
  {
    hide InvLocks, InvTree, InvWake, PairLockMove, PairTreeKept, PairWakeKept;
    var s' := Goto(Put(s, c, s.procs[c].(lock := -1)), p, WaitUnlock);
    ReapFailTree(s, p, c);
    ReapFailRest(s, p, c);
    PairForkKept(s, s', p, c);
    PairInv(s, s', p, c);
  }

  /** The scan in wait() moves on from a slot that holds no ZOMBIE child, or ends. */
  lemma ScanOnInvTree(s: State, p: nat)
    requires Inv(s) && Enabled(s, Advance(p)) && s.procs[p].pc.Scan?
    requires s.procs[p].pc.i < |s.procs| ==> !ZombieChild(s, s.procs[p].pc.i, p)
    ensures var s' := Do(s, Advance(p));
            Own(s, s', p) && ForkKept(s.procs[p], s'.procs[p]) && TreeKept(s, s.procs[p], s'.procs[p], p)
  {
    hide InvLocks, InvState, InvFork, InvWake;
  }

  lemma ScanOnInv(s: State, p: nat)
    requires Inv(s) && Enabled(s, Advance(p)) && s.procs[p].pc.Scan?
    requires s.procs[p].pc.i < |s.procs| ==> !ZombieChild(s, s.procs[p].pc.i, p)
    ensures Inv(Do(s, Advance(p)))
  {
    hide ForkKept, TreeKept, InvTree, InvFork;
    ScanOnInvTree(s, p);
    OwnInv(s, Do(s, Advance(p)), p);
  }

  // ---- exit -----------------------------------------------------------------------------------------

  /** reparent moves on from a slot that is not a child. */
  lemma ReparentOnInvTree(s: State, p: nat)
    requires Inv(s) && Enabled(s, Advance(p)) && s.procs[p].pc.Reparent?
    requires s.procs[p].pc.i < |s.procs| ==> s.procs[s.procs[p].pc.i].parent != p
    ensures var s' := Do(s, Advance(p));
            Own(s, s', p) && ForkKept(s.procs[p], s'.procs[p]) && TreeKept(s, s.procs[p], s'.procs[p], p)
  {
    hide InvLocks, InvState, InvFork, InvWake;
  }

  lemma ReparentOnInv(s: State, p: nat)
    requires Inv(s) && Enabled(s, Advance(p)) && s.procs[p].pc.Reparent?
    requires s.procs[p].pc.i < |s.procs| ==> s.procs[s.procs[p].pc.i].parent != p
    ensures Inv(Do(s, Advance(p)))
  {
    hide ForkKept, TreeKept, InvFork;
    ReparentOnInvTree(s, p);
    OwnInv(s, Do(s, Advance(p)), p);
  }

  /** A child goes to init. If it is a ZOMBIE and init sleeps in wait(), a wakeup is now due. */
  lemma ReparentInv(s: State, p: nat)
    requires Inv(s) && Enabled(s, Advance(p)) && s.procs[p].pc.Reparent?
    requires s.procs[p].pc.i < |s.procs| && s.procs[s.procs[p].pc.i].parent == p
    ensures Inv(Do(s, Advance(p)))
  {
    hide InvTree, InvFork, InvWake, PairTreeKept;
    var s', c := Do(s, Advance(p)), s.procs[p].pc.i;
    ReparentTree(s, p);
    assert StateFits(p, s'.procs[p]) && StateFits(c, s'.procs[c]);
    assert PairLockMove(s, s', p, c);
    ReparentFork(s, p);
    ReparentWake(s, p);
    PairLocks(s, s', p, c);
    PairState(s, s', p, c);
    PairTree(s, s', p, c);
    PairForkKept(s, s', p, c);
  }

  lemma ReparentTree(s: State, p: nat)
    requires Inv(s) && Enabled(s, Advance(p)) && s.procs[p].pc.Reparent?
    requires s.procs[p].pc.i < |s.procs| && s.procs[s.procs[p].pc.i].parent == p
    ensures var s', c := Do(s, Advance(p)), s.procs[p].pc.i;
            Pair(s, s', p, c) && PairTreeKept(s, s', p, c)
  {
    hide InvWake, InvFork;
  }

  lemma ReparentFork(s: State, p: nat)
    requires Inv(s) && Enabled(s, Advance(p)) && s.procs[p].pc.Reparent?
    requires s.procs[p].pc.i < |s.procs| && s.procs[s.procs[p].pc.i].parent == p
    ensures var s', c := Do(s, Advance(p)), s.procs[p].pc.i;
            && ForkPcKept(s.procs[p].pc, s'.procs[p].pc) && ForkPcKept(s.procs[c].pc, s'.procs[c].pc)
            && s.procs[c].state != UNUSED
            && forall q :: 0 <= q < |s.procs| ==> !Creates(s.procs[q].pc, c)
  {
  }

  lemma ReparentWake(s: State, p: nat)
    requires Inv(s) && Enabled(s, Advance(p)) && s.procs[p].pc.Reparent?
    requires s.procs[p].pc.i < |s.procs| && s.procs[s.procs[p].pc.i].parent == p
    ensures InvWake(Do(s, Advance(p)))
  {
    var s', c := Do(s, Advance(p)), s.procs[p].pc.i;
    ReparentOthers(s, p);
    NoneParked(s, p);
    hide Inv, Do;
    forall r | 0 <= r < |s'.procs| && r != p
      ensures !s'.procs[r].pc.WakeParent? && !s'.procs[r].pc.ExitSelf? && !s'.procs[r].pc.ExitZombie?
      ensures !s'.procs[r].pc.Scan? && !s'.procs[r].pc.WaitSleep? && !s'.procs[r].pc.SleepUnlock?
    {
      assert !HoldsWait(s'.procs[r].pc);
    }
  }

  /** While the holder of wait_lock is not waking init, every parked process has no ZOMBIE child. */
  lemma NoneParked(s: State, p: nat)
    requires InvWake(s) && s.wait == p && p < |s.procs| && !s.procs[p].pc.WakeInit?
    ensures forall x, q :: 0 <= q < |s.procs| && ZombieChild(s, x, q) ==> !Parked(s.procs[q])
  {
  }

  lemma ReparentOthers(s: State, p: nat)
    requires Inv(s) && Enabled(s, Advance(p)) && s.procs[p].pc.Reparent?
    requires s.procs[p].pc.i < |s.procs| && s.procs[s.procs[p].pc.i].parent == p
    ensures var s', c := Do(s, Advance(p)), s.procs[p].pc.i;
            && c != p && |s'.procs| == |s.procs| && s'.wait == p && s'.procs[p].pc == WakeInit(c, 0)
            && s'.procs[c] == s.procs[c].(parent := 0)
            && (forall r :: 0 <= r < |s.procs| && r != p ==>
                 !HoldsWait(s'.procs[r].pc) && Parked(s'.procs[r]) == Parked(s.procs[r]))
            && (forall x, q :: ZombieChild(s', x, q) ==> ZombieChild(s, x, q) || (x == c && q == 0))
            && s.wait == p
  {
  }

  /** A process that holds no lock of its own and counts on a wakeup is asleep on its own slot. */
  lemma ParkedFree(s: State, q: nat)
    requires InvLocks(s) && InvState(s) && Free(s, q)
    ensures Parked(s.procs[q]) ==> s.procs[q].state == SLEEPING && s.procs[q].chan == q
  {
    assert !HoldsLock(s.procs[q].pc, q, q);
  }

  /** wakeup(chan) has dealt with slot `j`. */
  lemma WakeOneInv(s: State, p: nat, j: nat, chan: int)
    requires Inv(s) && p < |s.procs| && j < |s.procs| && (j != p ==> Free(s, j)) && s.procs[p].state == RUNNING
    ensures Inv(WakeOne(s, p, j, chan))
    ensures j == chan && j != p ==> !Parked(WakeOne(s, p, j, chan).procs[j])
    ensures WakeOne(s, p, j, chan).procs[p] == s.procs[p] && WakeOne(s, p, j, chan).wait == s.wait
  {
    if j != p && s.procs[j].state == SLEEPING && s.procs[j].chan == chan && chan >= 0 {
      RouseInv(s, j);
    }
    if j != p { ParkedFree(s, j); }
  }

  lemma WakerShape(s: State, p: nat)
    requires Inv(s) && p < |s.procs| && (s.procs[p].pc.WakeInit? || s.procs[p].pc.WakeParent?)
    ensures p != 0 && s.procs[p].parent != p && s.procs[p].state == RUNNING
  {
  }

  lemma WakeInitInv(s: State, p: nat)
    requires Inv(s) && Enabled(s, Advance(p)) && s.procs[p].pc.WakeInit?
    ensures Inv(Do(s, Advance(p)))
  {
    hide Inv;
    var j := s.procs[p].pc.j;
    WakerShape(s, p);
    if j < |s.procs| {
      assert Do(s, Advance(p)) == Statement(s, p);
      assert Statement(s, p) == Goto(WakeOne(s, p, j, 0), p, WakeInit(s.procs[p].pc.i, j + 1));
      WakeOneInv(s, p, j, 0);
      WakeInitNext(s, WakeOne(s, p, j, 0), p);
    } else {
      WakeInitDone(s, p);
    }
  }

  /** The loop in wakeup(initproc) goes on; init is awake once slot 0 has been visited. */
  lemma WakeInitNext(s: State, s1: State, p: nat)
    requires Inv(s) && Inv(s1) && p < |s.procs| && s.procs[p].pc.WakeInit? && |s1.procs| == |s.procs|
    requires s1.procs[p] == s.procs[p] && s1.wait == s.wait && s.procs[p].state == RUNNING
    requires s.procs[p].pc.j == 0 ==> !Parked(s1.procs[0])
    ensures Inv(Goto(s1, p, WakeInit(s.procs[p].pc.i, s.procs[p].pc.j + 1)))
  {
    OwnInv(s1, Goto(s1, p, WakeInit(s.procs[p].pc.i, s.procs[p].pc.j + 1)), p);
  }

  lemma WakeInitDone(s: State, p: nat)
    requires Inv(s) && Enabled(s, Advance(p)) && s.procs[p].pc.WakeInit? && s.procs[p].pc.j >= |s.procs|
    ensures Inv(Do(s, Advance(p)))
  {
    OwnInv(s, Do(s, Advance(p)), p);
  }

  lemma WakeParentInv(s: State, p: nat)
    requires Inv(s) && Enabled(s, Advance(p)) && s.procs[p].pc.WakeParent?
    ensures Inv(Do(s, Advance(p)))
  {
    hide Inv;
    var j := s.procs[p].pc.j;
    WakerShape(s, p);
    if j < |s.procs| {
      assert Do(s, Advance(p)) == Goto(WakeOne(s, p, j, s.procs[p].parent), p, WakeParent(j + 1));
      WakeOneInv(s, p, j, s.procs[p].parent);
      WakeParentNext(s, WakeOne(s, p, j, s.procs[p].parent), p);
    } else {
      WakeParentDone(s, p);
    }
  }

  lemma WakeParentNext(s: State, s1: State, p: nat)
    requires Inv(s) && Inv(s1) && p < |s.procs| && s.procs[p].pc.WakeParent? && |s1.procs| == |s.procs|
    requires s1.procs[p] == s.procs[p] && s1.wait == s.wait && s.procs[p].state == RUNNING
    requires s.procs[p].pc.j == s.procs[p].parent && s.procs[p].pc.j < |s.procs| ==> !Parked(s1.procs[s.procs[p].pc.j])
    ensures Inv(Goto(s1, p, WakeParent(s.procs[p].pc.j + 1)))
  {
    OwnInv(s1, Goto(s1, p, WakeParent(s.procs[p].pc.j + 1)), p);
  }

  lemma WakeParentDone(s: State, p: nat)
    requires Inv(s) && Enabled(s, Advance(p)) && s.procs[p].pc.WakeParent? && s.procs[p].pc.j >= |s.procs|
    ensures Inv(Do(s, Advance(p)))
  {
    OwnInv(s, Do(s, Advance(p)), p);
  }

  /** Becoming a ZOMBIE: the parent has been woken, and wait_lock keeps it from sleeping again. */
  lemma ExitZombieKept(s: State, p: nat)
    requires Inv(s) && Enabled(s, Advance(p)) && s.procs[p].pc.ExitZombie?
    ensures var s' := Do(s, Advance(p));
            && Own(s, s', p) && LockMove(s, s', p) && StateFits(p, s'.procs[p])
            && ForkKept(s.procs[p], s'.procs[p]) && TreeKept(s, s.procs[p], s'.procs[p], p)
  {
    hide InvWake;
  }

  lemma ExitZombieInv(s: State, p: nat)
    requires Inv(s) && Enabled(s, Advance(p)) && s.procs[p].pc.ExitZombie?
    ensures Inv(Do(s, Advance(p)))
  {
    hide InvLocks, InvFork, InvTree, InvWake, LockMove, ForkKept, TreeKept;
    var s' := Do(s, Advance(p));
    ExitZombieKept(s, p);
    ExitZombieWake(s, p);
    OwnLocks(s, s', p);
    OwnFork(s, s', p);
    OwnTree(s, s', p);
  }

  lemma ExitZombieWake(s: State, p: nat)
    requires Inv(s) && Enabled(s, Advance(p)) && s.procs[p].pc.ExitZombie?
    ensures InvWake(Do(s, Advance(p)))
  {
    hide InvLocks, InvState, InvFork, InvTree, InvWake, Do, Enabled;
    var s' := Do(s, Advance(p));
    ExitZombieOthers(s, p);
    NoneParked(s, p);
    ExitZombieShape(s, s', p);
  }

  lemma ExitZombieShape(s: State, s': State, p: nat)
    requires p < |s.procs| == |s'.procs| && s'.wait == p && s'.procs[p].pc == ExitUnlock
    requires forall r :: 0 <= r < |s.procs| && r != p ==>
               !HoldsWait(s'.procs[r].pc) && Parked(s'.procs[r]) == Parked(s.procs[r])
    requires forall x, q :: ZombieChild(s', x, q) ==> ZombieChild(s, x, q) || (x == p && q == s.procs[p].parent)
    requires forall x, q :: 0 <= q < |s.procs| && ZombieChild(s, x, q) ==> !Parked(s.procs[q])
    requires s.procs[p].parent != p && (0 <= s.procs[p].parent < |s.procs| ==> !Parked(s.procs[s.procs[p].parent]))
    ensures InvWake(s')
  {
    forall r | 0 <= r < |s'.procs| && r != p
      ensures !s'.procs[r].pc.WakeParent? && !s'.procs[r].pc.ExitSelf? && !s'.procs[r].pc.ExitZombie?
      ensures !s'.procs[r].pc.Scan? && !s'.procs[r].pc.WaitSleep? && !s'.procs[r].pc.SleepUnlock?
    {
      assert !HoldsWait(s'.procs[r].pc);
    }
    forall x, q | 0 <= q < |s'.procs| && ZombieChild(s', x, q) ensures !Parked(s'.procs[q]) {
      assert ZombieChild(s, x, q) || q == s.procs[p].parent;
    }
  }

  lemma ExitZombieOthers(s: State, p: nat)
    requires Inv(s) && Enabled(s, Advance(p)) && s.procs[p].pc.ExitZombie?
    ensures var s' := Do(s, Advance(p));
            && |s'.procs| == |s.procs| && s'.wait == p && s.wait == p && s'.procs[p].pc == ExitUnlock && InvWake(s)
            && (forall r :: 0 <= r < |s.procs| && r != p ==>
                 !HoldsWait(s'.procs[r].pc) && Parked(s'.procs[r]) == Parked(s.procs[r]))
            && (forall x, q :: ZombieChild(s', x, q) ==> ZombieChild(s, x, q) || (x == p && q == s.procs[p].parent))
            && s.procs[p].parent != p
            && (0 <= s.procs[p].parent < |s.procs| ==> !Parked(s.procs[s.procs[p].parent]))
            && p < |s.procs|
  {
    hide InvState, InvFork;
  }

  // ---- all steps ------------------------------------------------------------------------------------

  lemma AdvanceInv(s: State, p: nat)
    requires Inv(s) && Enabled(s, Advance(p))
    ensures Inv(Do(s, Advance(p)))
  {
    hide Inv;
    match s.procs[p].pc
    case ForkScan(i) =>
      if i < |s.procs| && s.procs[i].state == UNUSED { ForkFoundInv(s, p); } else { ForkScanOnInv(s, p); }
    case ForkGot(c) => ForkGotInv(s, p);
    case ForkLink(c) => ForkLinkInv(s, p);
    case ForkSet(c) => ForkSetInv(s, p);
    case ForkUnlock(c) => ForkUnlockInv(s, p);
    case ForkRun(c) => ForkRunInv(s, p);
    case ExitLock => ExitLockInv(s, p);
    case Reparent(i) =>
      if i < |s.procs| && s.procs[i].parent == p { ReparentInv(s, p); } else { ReparentOnInv(s, p); }
    case WakeInit(i, j) => WakeInitInv(s, p);
    case WakeParent(j) => WakeParentInv(s, p);
    case ExitSelf => ExitSelfInv(s, p);
    case ExitZombie => ExitZombieInv(s, p);
    case ExitUnlock => ExitUnlockInv(s, p);
    case ExitSched => ExitSchedInv(s, p);
    case WaitLock => WaitLockInv(s, p);
    case Scan(i, kids) =>
      if i < |s.procs| && ZombieChild(s, i, p) { ScanReapInv(s, p); } else { ScanOnInv(s, p); }
    case Reap(c) => ReapInv(s, p);
    case WaitUnlock => WaitUnlockInv(s, p);
    case WaitSleep => WaitSleepInv(s, p);
    case SleepUnlock => SleepUnlockInv(s, p);
    case Window => WindowInv(s, p);
    case SleepSched => SleepSchedInv(s, p);
    case Waking => WakingInv(s, p);
    case _ =>
  }

  lemma StepInv(s: State, t: Step)
    requires Inv(s) && Enabled(s, t)
    ensures Inv(Do(s, t))
  {
    hide Inv;
    match t
    case Advance(p) => AdvanceInv(s, p);
    case Fail(p) => if s.procs[p].pc.ForkGot? { ForkFailInv(s, p); } else { ReapFailInv(s, p); }
    case Schedule(p) => ScheduleInv(s, p);
    case Yield(p) => YieldInv(s, t);
    case StartFork(p) => StartForkInv(s, p);
    case StartExit(p) => StartExitInv(s, p);
    case StartWait(p) => StartWaitInv(s, p);
    case SleepElsewhere(p) => YieldInv(s, t);
    case WakeElsewhere(p) => YieldInv(s, t);
    case Kill(v) => KillInv(s, v);
  }

  lemma {:induction false} RunInv(run: seq<State>)
    requires IsRun(run)
    ensures Inv(run[|run| - 1])
  {
    hide Inv, Next, Init;
    var n := |run| - 1;
    if n == 0 {
      InitInv(run[0]);
    } else {
      assert IsRun(run[..n]) by {
        forall i | 0 <= i < n - 1 ensures Next(run[..n][i], run[..n][i + 1]) {
          assert Next(run[i], run[i + 1]);
        }
      }
      RunInv(run[..n]);
      assert Next(run[n - 1], run[n - 1 + 1]);
      NextInv(run[n - 1], run[n]);
    }
  }

  lemma NextInv(s: State, s': State)
    requires Inv(s) && Next(s, s')
    ensures Inv(s')
  {
    hide Inv;
    var t :| Enabled(s, t) && s' == Do(s, t);
    StepInv(s, t);
  }

  // ---- the guarantees -------------------------------------------------------------------------------

  /** After any run the parent of any slot is itself a live process: neither UNUSED, nor USED,
      nor ZOMBIE, even while a parent is busy exiting. */
  lemma ParentsLive(run: seq<State>, i: nat)
    requires IsRun(run)
    ensures var s := run[|run| - 1];
            i < |s.procs| && s.procs[i].parent >= 0 ==>
            && s.procs[i].parent < |s.procs| && s.procs[i].parent != i
            && var q := s.procs[s.procs[i].parent]; q.state == SLEEPING || q.state == RUNNABLE || q.state == RUNNING
  {
    RunInv(run);
    var s := run[|run| - 1];
    if i < |s.procs| && s.procs[i].parent >= 0 {
      assert MayParent(s.procs[s.procs[i].parent].pc, i);
    }
  }

  /** Whenever wait_lock is free, nobody sleeps in wait(), or is on the way there, while it has a
      ZOMBIE child. */
  lemma NoSleepOnZombie(run: seq<State>, c: nat, q: nat)
    requires IsRun(run)
    ensures var s := run[|run| - 1];
            s.wait == -1 && q < |s.procs| && ZombieChild(s, c, q) ==> !Parked(s.procs[q])
  {
    RunInv(run);
  }

  /** wait() frees a slot only when its process has left the processor for good. */
  lemma ReapedIsDead(run: seq<State>, p: nat)
    requires IsRun(run)
    ensures var s := run[|run| - 1];
            p < |s.procs| && s.procs[p].pc.Reap? ==>
            s.procs[p].pc.c < |s.procs| && s.procs[s.procs[p].pc.c].pc.Dead?
            && s.procs[s.procs[p].pc.c].parent == p
  {
    RunInv(run);
    var s := run[|run| - 1];
    if p < |s.procs| && s.procs[p].pc.Reap? {
      var c := s.procs[p].pc.c;
      assert HoldsLock(s.procs[p].pc, p, c);
      assert !HoldsLock(s.procs[c].pc, c, c);
    }
  }
}
