// What the logging protocol guarantees over whole runs.

module LogTheorems {
  import opened Common
  import opened LogDisk
  import opened LogMachine
  import opened LogProofs

  lemma {:induction false} RunInv(g: LogArea, base: Disk, run: seq<State>)
    requires IsRun(g, base, run)
    ensures Inv(g, base, run[|run| - 1])
  {
    var n := |run| - 1;
    if n == 0 {
      InitInv(g, base, run[0]);
    } else {
      assert IsRun(g, base, run[..n]) by {
        forall i | 0 <= i < n - 1 ensures Next(g, run[..n][i], run[..n][i + 1]) {
          assert Next(g, run[i], run[i + 1]);
        }
      }
      RunInv(g, base, run[..n]);
      assert Next(g, run[n - 1], run[n - 1 + 1]);
      var t :| Enabled(g, run[n - 1], t) && run[n] == Do(g, run[n - 1], t);
      StepInv(g, base, run[n - 1], t);
    }
  }

  lemma ReachableInv(g: LogArea, base: Disk, s: State)
    requires Reachable(g, base, s)
    ensures Inv(g, base, s)
  {
    var run :| IsRun(g, base, run) && run[|run| - 1] == s;
    RunInv(g, base, run);
  }

  lemma RunExtends(g: LogArea, base: Disk, run: seq<State>, t: Step)
    requires IsRun(g, base, run)
    requires ValidArea(g) && |run[|run| - 1].disk| == g.diskSize && Enabled(g, run[|run| - 1], t)
    ensures IsRun(g, base, run + [Do(g, run[|run| - 1], t)])
  {
    var longer := run + [Do(g, run[|run| - 1], t)];
    forall i | 0 <= i < |longer| - 1 ensures Next(g, longer[i], longer[i + 1]) {
      if i < |run| - 1 { assert Next(g, run[i], run[i + 1]); }
    }
  }

  // ---- crash atomicity ----------------------------------------------------------------------

  /** Stop the machine anywhere, in a commit or in the middle of any number of interrupted
      recoveries: recovering from the disk gives exactly the writes of the operations in
      `durable`, all of which had called end_op. */
  lemma CrashAtomicity(g: LogArea, base: Disk, s: State)
    requires Reachable(g, base, s)
    ensures ValidImage(g, s.disk) && |base| == |s.disk| == g.diskSize
    ensures forall b :: Home(g, b) ==> Recover(g, s.disk)[b] == Effect(base, s.history, s.durable)[b]
    ensures s.phase.Running? ==> forall b :: Home(g, b) ==> s.disk[b] == Effect(base, s.history, s.durable)[b]
    ensures s.durable <= s.ended
  {
    ReachableInv(g, base, s);
    RecoversToIsRecover(g, s.disk, Target(base, s));
  }

  /** How a step changes the set of operations that survive a crash: a header write makes the
      whole open transaction durable at once, only a crash may lose it, and an operation that
      has ended adds nothing to the history. */
  lemma DurabilityStep(g: LogArea, base: Disk, s: State, t: Step)
    requires Reachable(g, base, s) && ValidArea(g) && |s.disk| == g.diskSize && Enabled(g, s, t)
    ensures var s' := Do(g, s, t);
            && s.durable <= s'.durable
            && (s'.durable == s.durable || (s'.durable == s.durable + s.group && s.group <= s'.ended))
            && (t.WriteHead? ==> s'.durable == s.durable + s.group)
            && (!t.Crash? ==> s.group <= s'.group + s'.durable)
            && s.history <= s'.history
            && (forall i :: |s.history| <= i < |s'.history| ==> s'.history[i].id !in s.ended)
  {
    hide InvHeld, InvDisk, InvCache, InvBlocks, InvReserve, Reachable;
    ReachableInv(g, base, s);
    StepInv(g, base, s, t);
    var s' := Do(g, s, t);
    if t.WriteHead? || (t.EndOp? && s'.phase.Finishing?) {
      forall x | x in s.group ensures x in s'.ended {
        if x !in s.ended && t.EndOp? {
          LastOpEnds(g, s, t.p, x);
        }
      }
    }
  }

  lemma LastOpEnds(g: LogArea, s: State, p: nat, x: nat)
    requires ValidArea(g) && |s.disk| == g.diskSize && InvCount(s)
    requires Enabled(g, s, EndOp(p)) && s.outstanding == 1 && ActiveId(s, x)
    ensures x == s.ops[p].id
  {
    SlotUpdate(s.ops, p, Idle);
    NoneActive(s.ops[p := Idle]);
    var q :| 0 <= q < |s.ops| && s.ops[q].Active? && s.ops[q].id == x;
    assert s.ops[p := Idle][q].Idle?;
  }

  /** Between commits an operation reads, through the cache, the effect of every log_write so
      far that a crash did not lose: the in-memory state runs ahead of the disk consistently. */
  lemma ReadsSeeLog(g: LogArea, base: Disk, s: State, b: Word)
    requires Reachable(g, base, s) && s.phase.Running? && Home(g, b) && !Held(s, b)
    ensures |s.disk| == |base| == g.diskSize
    ensures (if b in s.cache then s.cache[b] else s.disk[b]) == Effect(base, s.history, s.durable + s.group)[b]
  {
    ReachableInv(g, base, s);
    if b in s.lh {
      var j :| 0 <= j < |s.lh| && s.lh[j] == b;
    }
  }

  // ---- reservation --------------------------------------------------------------------------

  /** Operation `p` is about to add block `b` to the log, and with it no operation will have
      logged more than ten distinct blocks. */
  ghost predicate AddingWrite(s: State, p: nat, b: Word) {
    && p < |s.ops| && s.ops[p].Active? && b in s.ops[p].held && b !in s.lh
    && Within(s) && |Blocks(s.history, s.ops[p].id) + {b}| <= MAXOPBLOCKS
  }

  /** An operation takes no more of the log than the distinct blocks it writes. */
  lemma AddedAtMostWritten(g: LogArea, base: Disk, s: State, p: nat)
    requires Reachable(g, base, s) && p < |s.ops| && s.ops[p].Active?
    ensures s.ops[p].added <= |Blocks(s.history, s.ops[p].id)|
    ensures forall b :: b in Blocks(s.history, s.ops[p].id) ==> b in s.lh
  {
    ReachableInv(g, base, s);
  }

  ghost predicate AddingWritesNeverPanic(g: LogArea, base: Disk, n: nat) {
    forall s, p, b :: Reachable(g, base, s) && |s.ops| == n && AddingWrite(s, p, b) ==> !LogWritePanics(g, s)
  }

  /** The reservation made by begin_op is sound exactly when the log area has room for LOGSIZE
      blocks besides its header. */
  lemma ReservationExact(g: LogArea, base: Disk, n: nat)
    requires ValidArea(g) && |base| == g.diskSize && HeaderFits(base[g.start])
    requires DecodeHeader(base[g.start]) == []
    requires n >= 3 && g.start + g.size + LOGSIZE <= g.diskSize
    ensures AddingWritesNeverPanic(g, base, n) <==> g.size > LOGSIZE
  {
    if g.size > LOGSIZE {
      forall s, p, b | Reachable(g, base, s) && |s.ops| == n && AddingWrite(s, p, b)
        ensures !LogWritePanics(g, s)
      {
        RoomForAddingWrite(g, base, s, p, b);
      }
    } else {
      var s, p, b := SmallLogPanics(g, base, n);
    }
  }

  lemma RoomForAddingWrite(g: LogArea, base: Disk, s: State, p: nat, b: Word)
    requires Reachable(g, base, s) && AddingWrite(s, p, b)
    ensures |s.lh| < LOGSIZE
  {
    ReachableInv(g, base, s);
    AddedWithin(s);
    ClaimReserved(s.ops, p);
    assert |Blocks(s.history, s.ops[p].id) + {b}| == |Blocks(s.history, s.ops[p].id)| + 1;
  }

  lemma SmallLogPanics(g: LogArea, base: Disk, n: nat) returns (s: State, p: nat, b: Word)
    requires ValidArea(g) && |base| == g.diskSize && HeaderFits(base[g.start])
    requires DecodeHeader(base[g.start]) == []
    requires n >= 3 && g.start + g.size + LOGSIZE <= g.diskSize && g.size <= LOGSIZE
    ensures Reachable(g, base, s) && |s.ops| == n && AddingWrite(s, p, b) && LogWritePanics(g, s)
  {
    var k: nat := g.size - 1;
    var s0 := Fill(g, base, n, k);
    p, b := k / 10, g.start + g.size + k;
    s := FillHold(g, base, s0, n, k, p, b);
    SameWithin(s0, s);
    FilledWithin(g, s0, n, k);
    assert |Blocks(s0.history, s0.ops[p].id)| == Spread(k, p) < 10;
    assert |Blocks(s0.history, s0.ops[p].id) + {b}| <= |Blocks(s0.history, s0.ops[p].id)| + 1;
  }

  lemma FilledWithin(g: LogArea, s: State, n: nat, k: nat)
    requires Filled(g, s, n, k)
    ensures Within(s)
  {
    hide Blocks;
    forall id: nat ensures |Blocks(s.history, id)| <= MAXOPBLOCKS {
      if forall p :: 0 <= p < 3 ==> s.ops[p].id != id {
        assert Blocks(s.history, id) == {};
      }
    }
  }

  /** From a filled log, operation `p` locks and changes block `b`. */
  lemma FillHold(g: LogArea, base: Disk, s: State, n: nat, k: nat, p: nat, b: Word) returns (s': State)
    requires Reachable(g, base, s) && Filled(g, s, n, k) && p < 3 && Home(g, b) && |base| > 0
    ensures Reachable(g, base, s') && |s'.disk| == g.diskSize && |s'.ops| == n && s'.lh == s.lh
    ensures s'.phase.Running? && s'.history == s.history && b in s'.cache && s'.cache[b] == base[0]
    ensures s'.ops == s.ops[p := s.ops[p].(held := {b})]
  {
    hide Blocks, Spread, Reachable;
    NoOneElse(s, p, b);
    assert s.ops[p].Active? && s.ops[p].held + {b} == {b};
    ReachableStep(g, base, s, Modify(p, b, base[0]));
    s' := Do(g, s, Modify(p, b, base[0]));
  }

  /** log_write tests for room before it looks for absorption, so a full log panics even on a
      write that adds no block; with a large enough log this is the only panic. */
  lemma AbsorbedWriteCanPanic(g: LogArea, base: Disk, n: nat)
    requires ValidArea(g) && |base| == g.diskSize && HeaderFits(base[g.start])
    requires DecodeHeader(base[g.start]) == []
    requires n >= 3 && g.start + g.size + LOGSIZE <= g.diskSize && g.size > LOGSIZE
    ensures exists s, b :: Reachable(g, base, s) && |s.ops| == n && s.ops[0].Active? && b in s.ops[0].held
                           && b in s.lh && LogWritePanics(g, s)
    ensures forall s :: Reachable(g, base, s) ==> (LogWritePanics(g, s) <==> |s.lh| == LOGSIZE)
  {
    var s0 := Fill(g, base, n, LOGSIZE);
    var b: Word := g.start + g.size;
    var s := FillHold(g, base, s0, n, LOGSIZE, 0, b);
    assert s.lh[0] == b;
    assert Reachable(g, base, s) && |s.ops| == n && s.ops[0].Active? && b in s.ops[0].held && b in s.lh && LogWritePanics(g, s);
    forall r | Reachable(g, base, r) ensures LogWritePanics(g, r) <==> |r.lh| == LOGSIZE {
      LogNeverOverfull(g, base, r);
    }
  }

  lemma LogNeverOverfull(g: LogArea, base: Disk, s: State)
    requires Reachable(g, base, s)
    ensures |s.lh| <= LOGSIZE && |s.lh| <= g.size - 1
  {
    ReachableInv(g, base, s);
  }

  lemma ReachableStep(g: LogArea, base: Disk, s: State, t: Step)
    requires Reachable(g, base, s) && ValidArea(g) && |s.disk| == g.diskSize && Enabled(g, s, t)
    ensures Reachable(g, base, Do(g, s, t))
  {
    var run :| IsRun(g, base, run) && run[|run| - 1] == s;
    RunExtends(g, base, run, t);
  }

  ghost predicate NothingHeld(s: State) {
    forall p :: 0 <= p < |s.ops| && s.ops[p].Active? ==> s.ops[p].held == {}
  }

  lemma NoOneElse(s: State, p: nat, b: Word)
    requires NothingHeld(s)
    ensures !HeldByOther(s, p, b)
  {
  }

  function Spread(k: nat, p: nat): nat {
    if k <= 10 * p then 0 else if k >= 10 * p + 10 then 10 else k - 10 * p
  }

  ghost predicate Filled(g: LogArea, s: State, n: nat, k: nat) {
    && ValidArea(g) && |s.disk| == g.diskSize && s.phase.Running? && |s.ops| == n >= 3 && |s.lh| == k
    && (forall i :: 0 <= i < k ==> s.lh[i] == g.start + g.size + i)
    && (forall p :: 0 <= p < 3 ==> s.ops[p].Active? && |Blocks(s.history, s.ops[p].id)| == Spread(k, p))
    && (forall id: nat :: (forall p :: 0 <= p < 3 ==> s.ops[p].id != id) ==> Blocks(s.history, id) == {})
    && (forall id: nat, b :: b in Blocks(s.history, id) ==> b in s.lh)
    && NothingHeld(s)
  }

  /** Three operations that between them log `k` distinct blocks. */
  lemma {:induction false} Fill(g: LogArea, base: Disk, n: nat, k: nat) returns (s: State)
    requires ValidArea(g) && |base| == g.diskSize && HeaderFits(base[g.start])
    requires DecodeHeader(base[g.start]) == []
    requires n >= 3 && g.start + g.size + LOGSIZE <= g.diskSize
    requires k <= LOGSIZE && k <= g.size - 1
    ensures Reachable(g, base, s) && Filled(g, s, n, k)
  {
    if k == 0 {
      s := ThreeOps(g, base, n);
    } else {
      var s0 := Fill(g, base, n, k - 1);
      s := FillOne(g, base, s0, n, k, (k - 1) / 10, g.start + g.size + (k - 1));
    }
  }

  lemma FillOne(g: LogArea, base: Disk, s0: State, n: nat, k: nat, p: nat, b: Word) returns (s: State)
    requires Reachable(g, base, s0) && 0 < k <= LOGSIZE && k <= g.size - 1 && Filled(g, s0, n, k - 1)
    requires p == (k - 1) / 10 < 3 && b == g.start + g.size + (k - 1) < g.diskSize && |base| == g.diskSize
    ensures Reachable(g, base, s) && Filled(g, s, n, k)
  {
    hide Blocks, Spread, Reachable;
    var s1 := FillHold(g, base, s0, n, k - 1, p, b);
    assert b !in s1.lh;
    ReachableStep(g, base, s1, LogWrite(p, b));
    s := Do(g, s1, LogWrite(p, b));
    assert s.ops[p].held == {};
    FillBlocks(g, base, s0, s, n, k, p, b);
  }

  lemma FillBlocks(g: LogArea, base: Disk, s0: State, s: State, n: nat, k: nat, p: nat, b: Word)
    requires 0 < k && p == (k - 1) / 10 < 3 && Reachable(g, base, s0) && Filled(g, s0, n, k - 1)
    requires b !in s0.lh && s.lh == s0.lh + [b] && |s.ops| == n && |base| > 0
    requires s.history == s0.history + [Write(s0.ops[p].id, b, base[0])]
    requires forall q :: 0 <= q < 3 ==> s.ops[q].Active? && s.ops[q].id == s0.ops[q].id
    ensures forall q :: 0 <= q < 3 ==> |Blocks(s.history, s.ops[q].id)| == Spread(k, q)
    ensures forall id: nat :: (forall q :: 0 <= q < 3 ==> s.ops[q].id != id) ==> Blocks(s.history, id) == {}
    ensures forall id: nat, c :: c in Blocks(s.history, id) ==> c in s.lh
  {
    hide Blocks, Spread, Reachable;
    ThreeIds(g, base, s0);
    SpreadStep(k, p);
    forall id: nat
      ensures Blocks(s.history, id) ==
              if s0.ops[p].id == id then Blocks(s0.history, id) + {b} else Blocks(s0.history, id)
    {
      BlocksSnoc(s0.history, Write(s0.ops[p].id, b, base[0]), id);
    }
    assert |Blocks(s0.history, s0.ops[p].id) + {b}| == |Blocks(s0.history, s0.ops[p].id)| + 1;
  }

  lemma ThreeIds(g: LogArea, base: Disk, s: State)
    requires Reachable(g, base, s) && |s.ops| >= 3
    ensures forall p, q :: 0 <= p < q < 3 && s.ops[p].Active? && s.ops[q].Active? ==> s.ops[p].id != s.ops[q].id
  {
    hide InvHeld, InvDisk, InvCache, InvBlocks, InvReserve, Reachable;
    ReachableInv(g, base, s);
  }

  lemma SpreadStep(k: nat, p: nat)
    requires 0 < k && p == (k - 1) / 10
    ensures forall q: nat :: Spread(k, q) == Spread(k - 1, q) + if q == p then 1 else 0
  {
  }

  lemma ThreeOps(g: LogArea, base: Disk, n: nat) returns (s: State)
    requires ValidArea(g) && |base| == g.diskSize && HeaderFits(base[g.start])
    requires DecodeHeader(base[g.start]) == [] && n >= 3
    ensures Reachable(g, base, s) && Filled(g, s, n, 0)
  {
    hide Reachable;
    s := Booted(g, base, n);
    s := Begin(g, base, s, 0);
    s := Begin(g, base, s, 1);
    s := Begin(g, base, s, 2);
  }

  lemma Booted(g: LogArea, base: Disk, n: nat) returns (s: State)
    requires ValidArea(g) && |base| == g.diskSize && HeaderFits(base[g.start])
    requires DecodeHeader(base[g.start]) == []
    ensures Reachable(g, base, s) && |s.disk| == g.diskSize && s.phase.Running? && s.history == []
    ensures s.lh == [] && s.outstanding == 0 && s.ops == AllIdle(n)
  {
    s := State(base, map[], [], AllIdle(n), 0, Down, 0, [], {}, {}, {});
    FirstRun(g, base, s);
    ReachableStep(g, base, s, ReadHead);
    s := Do(g, s, ReadHead);
    ReachableStep(g, base, s, EraseHead);
    s := Do(g, s, EraseHead);
  }

  lemma FirstRun(g: LogArea, base: Disk, s: State)
    requires Init(g, base, s)
    ensures IsRun(g, base, [s]) && Reachable(g, base, s)
  {
    assert IsRun(g, base, [s]) && [s][|[s]| - 1] == s;
  }

  lemma Begin(g: LogArea, base: Disk, s: State, p: nat) returns (s': State)
    requires Reachable(g, base, s) && ValidArea(g) && |s.disk| == g.diskSize && s.phase.Running?
    requires s.lh == [] && s.outstanding == p < 3 <= |s.ops|
    requires forall q :: 0 <= q < |s.ops| ==> s.ops[q].Active? == (q < p)
    requires forall q :: 0 <= q < p ==> s.ops[q].held == {}
    ensures Reachable(g, base, s') && |s'.disk| == g.diskSize && s'.phase.Running?
    ensures s'.lh == [] && s'.outstanding == p + 1 && |s'.ops| == |s.ops|
    ensures forall q :: 0 <= q < |s'.ops| ==> s'.ops[q].Active? == (q < p + 1)
    ensures forall q :: 0 <= q < p + 1 ==> s'.ops[q].held == {}
    ensures s'.history == s.history
  {
    ReachableStep(g, base, s, BeginOp(p));
    s' := Do(g, s, BeginOp(p));
  }
}
