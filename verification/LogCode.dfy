// The code of xv6/kernel/log.c. Each method is a run of LogMachine with one machine step per
// disk write, so every image the disk passes through is covered by LogTheorems.

module LogCode {
  import opened Common
  import opened LogDisk
  import opened LogMachine
  import opened LogProofs
  import opened LogTheorems

  class Log {
    const g: LogArea
    ghost const base: Disk
    var disk: Disk
    var cache: map<Word, Words>
    var lh: seq<Word>
    var outstanding: nat
    var committing: bool
    ghost var trace: seq<State>  // every state since the disk was formatted

    ghost predicate Valid()
      reads this
    {
      && |trace| > 0 && IsRun(g, base, trace) && ValidArea(g) && |base| == |disk| == g.diskSize
      && var s := trace[|trace| - 1];
         && disk == s.disk && cache == s.cache && lh == s.lh && outstanding == s.outstanding
         && committing == (s.phase.Copying? || s.phase.Installing? || s.phase.Finishing?)
    }

    ghost function Now(): State
      requires |trace| > 0
      reads this
    {
      trace[|trace| - 1]
    }

    /** Append the effect of step `t` to the trace; the fields have already been updated. */
    ghost method Took(t: Step)
      requires IsRun(g, base, trace)
      requires ValidArea(g) && |Now().disk| == g.diskSize && Enabled(g, Now(), t)
      modifies this`trace
      ensures IsRun(g, base, trace) && trace == old(trace) + [Do(g, old(Now()), t)]
      ensures Now() == Do(g, old(Now()), t) && old(trace) <= trace
    {
      RunExtends(g, base, trace, t);
      trace := trace + [Do(g, Now(), t)];
    }

    /** The machine is switched on with a disk whose log is empty, as mkfs leaves it. */
    constructor (g: LogArea, disk: Disk, ghost nproc: nat)
      requires ValidArea(g) && |disk| == g.diskSize
      requires HeaderFits(disk[g.start]) && DecodeHeader(disk[g.start]) == []
      ensures Valid() && this.g == g && base == disk == this.disk
      ensures Now() == State(disk, map[], [], AllIdle(nproc), 0, Down, 0, [], {}, {}, {})
    {
      this.g, base, this.disk := g, disk, disk;
      cache, lh, outstanding, committing := map[], [], 0, false;
      trace := [State(disk, map[], [], AllIdle(nproc), 0, Down, 0, [], {}, {}, {})];
    }

    /** An operation changes a block in the cache, holding its sleep lock. */
    method Modify(ghost p: nat, b: Word, data: Words)
      requires Valid() && Enabled(g, Now(), Step.Modify(p, b, data))
      modifies this
      ensures Valid() && old(trace) <= trace && disk == old(disk)
      ensures Now() == Do(g, old(Now()), Step.Modify(p, b, data))
      ensures b in cache && cache[b] == data && b in Now().ops[p].held
    {
      cache := cache[b := data];
      Took(Step.Modify(p, b, data));
    }

    /** The machine stops: memory is lost, the disk stays. */
    method Crash()
      requires Valid()
      modifies this
      ensures Valid() && old(trace) <= trace && disk == old(disk)
      ensures Now() == Do(g, old(Now()), Step.Crash) && Now().phase.Down?
    {
      cache, lh, outstanding, committing := map[], [], 0, false;
      Took(Step.Crash);
    }

    // ---- transactions -------------------------------------------------------------------------

    /** One turn of the loop in begin_op: `ok` means the operation has started, otherwise the
        caller sleeps and tries again. */
    method BeginOp(ghost p: nat) returns (ok: bool)
      requires Valid() && p < |Now().ops| && Now().ops[p].Idle?
      requires !Now().phase.Down? && !Now().phase.Replaying?
      modifies this
      ensures Valid() && old(trace) <= trace
      ensures ok <==> !old(committing) && |old(lh)| + (old(outstanding) + 1) * MAXOPBLOCKS <= LOGSIZE
      ensures if ok then Now() == Do(g, old(Now()), Step.BeginOp(p)) else trace == old(trace)
    {
      if committing {
        ok := false;
      } else if |lh| + (outstanding + 1) * MAXOPBLOCKS > LOGSIZE {
        ok := false;
      } else {
        outstanding := outstanding + 1;
        Took(Step.BeginOp(p));
        ok := true;
      }
    }

    /** log_write; `panicked` is "too big a transaction". Within a transaction "log_write outside of
        trans" does not arise. */
    method LogWrite(ghost p: nat, b: Word) returns (panicked: bool)
      requires Valid() && p < |Now().ops| && Now().ops[p].Active?
      requires b in Now().ops[p].held && b in cache
      modifies this
      ensures Valid() && old(trace) <= trace
      ensures panicked <==> LogWritePanics(g, old(Now()))
      ensures if panicked then trace == old(trace) else Now() == Do(g, old(Now()), Step.LogWrite(p, b))
    {
      ActiveCounts(g, base, Now(), p) by { Here(); }
      if |lh| >= LOGSIZE || |lh| >= g.size - 1 || outstanding < 1 {
        return true;
      }
      var i := 0;
      while i < |lh| && lh[i] != b
        invariant 0 <= i <= |lh| && b !in lh[..i]
      {
        i := i + 1;
      }
      if i == |lh| {
        assert lh[..i] == lh;
        lh := lh + [b];
      } else {
        lh := lh[i := b];
      }
      Took(Step.LogWrite(p, b));
      panicked := false;
    }

    /** end_op, with the commit made by the last operation. On return of that commit, every
        write of every operation that has ended and that no crash lost is in its home block. */
    method EndOp(ghost p: nat)
      requires Valid() && p < |Now().ops| && Now().ops[p].Active? && Now().ops[p].held == {}
      modifies this
      ensures Valid() && old(trace) <= trace
      ensures outstanding == old(outstanding) - 1 && !committing
      ensures Now().ended == old(Now().ended) + {old(Now().ops[p].id)} && Now().history == old(Now().history)
      ensures outstanding == 0 ==>
        && lh == [] && Now().durable == old(Now().durable + Now().group)
        && forall b :: Home(g, b) ==> disk[b] == Effect(base, old(Now().history), Now().durable)[b]
      ensures outstanding > 0 ==> disk == old(disk)
    {
      hide IsRun, Effect, Recover, Reached;
      ActiveCounts(g, base, Now(), p) by { Here(); }
      outstanding := outstanding - 1;
      if outstanding == 0 {
        committing := true;
      }
      Took(Step.EndOp(p));
      assert Valid();
      if outstanding == 0 {
        Commit();
        committing := false;
        Took(FinishCommit);
        CrashAtomicity(g, base, Now()) by { Here(); }
      }
    }

    // ---- commit -------------------------------------------------------------------------------

    method Commit()
      requires Valid() && committing && outstanding == 0
      requires (Now().phase.Finishing? && lh == []) || (Now().phase == Copying(0) && |lh| > 0)
      modifies this
      ensures Valid() && old(trace) <= trace
      ensures Now().phase.Finishing? && lh == [] && outstanding == 0
      ensures Now().durable == old(Now().durable + Now().group)
      ensures Now().history == old(Now().history) && Now().ended == old(Now().ended)
    {
      CommitShape(g, base, Now()) by { Here(); }
      if |lh| > 0 {
        WriteLog();
        WriteHead();
        Took(Step.WriteHead);
        InstallTrans(false);
        lh := [];
        WriteHead();
        Took(EraseHead);
      }
    }

    /** write_log: copy the modified blocks from the cache to the log. */
    method WriteLog()
      requires Valid() && Now().phase == Copying(0)
      modifies this
      ensures Valid() && old(trace) <= trace
      ensures Now() == old(Now()).(disk := disk, phase := Copying(|lh|)) && lh == old(lh)
    {
      var tail := 0;
      while tail < |lh|
        invariant 0 <= tail <= |lh| && lh == old(lh)
        invariant Valid() && old(trace) <= trace
        invariant Now() == old(Now()).(disk := disk, phase := Copying(tail))
      {
        CanCopy(g, base, Now()) by { Here(); }
        disk := disk[g.start + tail + 1 := cache[lh[tail]]];
        Took(CopyBlock);
        tail := tail + 1;
      }
    }

    /** write_head. */
    method WriteHead()
      requires |disk| == g.diskSize && ValidArea(g) && |lh| <= LOGSIZE
      modifies this`disk
      ensures disk == old(disk)[g.start := EncodeHeader(old(disk)[g.start], lh)]
    {
      ghost var h := disk[g.start];
      var hb: seq<Word> := disk[g.start];
      hb := hb[0 := |lh|];
      var i := 0;
      while i < |lh|
        invariant 0 <= i <= |lh|
        invariant hb == [|lh|] + lh[..i] + h[1 + i..]
      {
        hb := hb[1 + i := lh[i]];
        i := i + 1;
      }
      assert lh[..|lh|] == lh;
      disk := disk[g.start := hb];
    }

    /** install_trans: copy the logged blocks home, unpinning them unless recovering. */
    method InstallTrans(recovering: bool)
      requires Valid() && Now().phase == if recovering then Replaying(0) else Installing(0)
      modifies this
      ensures Valid() && old(trace) <= trace && lh == old(lh)
      ensures Now() == old(Now()).(disk := disk, cache := cache,
                                   phase := if recovering then Replaying(|lh|) else Installing(|lh|))
      ensures recovering ==> cache == old(cache)
    {
      hide IsRun, Reached;
      var tail := 0;
      while tail < |lh|
        invariant 0 <= tail <= |lh| && lh == old(lh) && (recovering ==> cache == old(cache))
        invariant Valid() && old(trace) <= trace
        invariant Now() == old(Now()).(disk := disk, cache := cache,
                                       phase := if recovering then Replaying(tail) else Installing(tail))
      {
        CanInstall(g, base, Now()) by { Here(); }
        disk := disk[lh[tail] := disk[g.start + tail + 1]];
        if !recovering {
          cache := cache - {lh[tail]};
        }
        Took(InstallBlock);
        tail := tail + 1;
      }
    }

    // ---- recovery -----------------------------------------------------------------------------

    /** recover_from_log after a reboot: the home blocks become exactly what Recover says, which
        by LogTheorems.CrashAtomicity is the effect of the durable operations. */
    method RecoverFromLog()
      requires Valid() && Now().phase.Down?
      modifies this
      ensures Valid() && old(trace) <= trace && Now().phase.Running?
      ensures lh == [] && HeaderFits(disk[g.start]) && DecodeHeader(disk[g.start]) == []
      ensures ValidImage(g, old(disk)) && |disk| == g.diskSize
      ensures forall b :: Home(g, b) ==> disk[b] == Recover(g, old(disk))[b]
      ensures Now() == old(Now()).(disk := disk, lh := [], phase := Running)
    {
      hide IsRun, Effect, Recover, Reached;
      CrashAtomicity(g, base, Now()) by { Here(); }
      lh := DecodeHeader(disk[g.start]);  // read_head
      Took(ReadHead);
      InstallTrans(true);
      CommitShape(g, base, Now()) by { Here(); }
      lh := [];
      WriteHead();
      Took(EraseHead);
      CrashAtomicity(g, base, Now()) by { Here(); }
    }

    // ---- what reachability gives here ------------------------------------------------------------

    ghost predicate Reached()
      requires |trace| > 0
      reads this
    {
      Reachable(g, base, Now())
    }

    lemma Here()
      requires Valid()
      ensures Reached()
    {
    }
  }

  /** Power-on with an empty log, by a machine with one process. */
  method Boot(g: LogArea, disk: Disk) returns (log: Log)
    requires ValidArea(g) && |disk| == g.diskSize
    requires HeaderFits(disk[g.start]) && DecodeHeader(disk[g.start]) == []
    ensures fresh(log) && log.Valid() && log.g == g && log.base == disk
    ensures log.Now() == State(log.disk, map[], [], AllIdle(1), 0, Running, 0, [], {}, {}, {})
  {
    hide IsRun, Recover, Reachable;
    log := new Log(g, disk, 1);
    log.RecoverFromLog();
  }

  /** From power-on through one operation that writes block `b`, a power failure after end_op and
      the next boot: the block has the new contents, every other home block its old ones. */
  method WriteThenCrash(g: LogArea, disk: Disk, b: Word, data: Words) returns (log: Log, panicked: bool)
    requires ValidArea(g) && |disk| == g.diskSize && Home(g, b)
    requires HeaderFits(disk[g.start]) && DecodeHeader(disk[g.start]) == []
    ensures panicked <==> g.size < 2
    ensures !panicked ==> |log.disk| == |disk| && forall c :: Home(g, c) ==> log.disk[c] == disk[b := data][c]
  {
    hide IsRun, Recover, Reachable, Effect, Log.Reached;
    log := Boot(g, disk);
    var started := log.BeginOp(0);
    assert log.Now().ops == [Active(0, 0, {})];
    log.Modify(0, b, data);
    assert log.Now().ops[0] == Active(0, 0, {} + {b}) && {} + {b} == {b};
    panicked := log.LogWrite(0, b);
    if panicked {
      return;
    }
    assert log.Now().ops == [Active(0, 1, {})];
    assert log.Now().history == [Write(0, b, data)];
    log.EndOp(0);
    log.Crash();
    OneWrite(g, disk, log.Now(), b, data) by { log.Here(); }
    log.RecoverFromLog();
  }

  lemma OneWrite(g: LogArea, base: Disk, s: State, b: Word, data: Words)
    requires Reachable(g, base, s) && s.history == [Write(0, b, data)] && 0 in s.durable && b < g.diskSize
    ensures ValidImage(g, s.disk) && |base| == |s.disk| == g.diskSize
    ensures forall c :: Home(g, c) ==> Recover(g, s.disk)[c] == base[b := data][c]
  {
    CrashAtomicity(g, base, s);
    assert s.history == [] + [Write(0, b, data)];
    EffectSnoc(base, [], Write(0, b, data), s.durable);
  }

  lemma CommitShape(g: LogArea, base: Disk, s: State)
    requires Reachable(g, base, s)
    ensures |s.lh| <= LOGSIZE && |s.lh| <= g.size - 1
    ensures s.phase.Finishing? ==> s.lh == [] && s.group == {}
    ensures s.phase.Installing? ==> s.group == {}
    ensures s.outstanding > 0 ==> s.phase.Running?
    ensures s.phase.Running? && s.outstanding == 0 && s.lh == [] ==> s.cache == map[]
  {
    ReachableInv(g, base, s);
    if s.outstanding > 0 {
      if !s.phase.Running? { IdleSums(s.ops); }
    }
    if s.outstanding == 0 {
      NoneActive(s.ops);
      NoneHeld(s);
    }
  }

  lemma ActiveCounts(g: LogArea, base: Disk, s: State, p: nat)
    requires Reachable(g, base, s) && p < |s.ops| && s.ops[p].Active?
    ensures s.outstanding >= 1 && s.phase.Running?
  {
    ReachableInv(g, base, s);
    SlotUpdate(s.ops, p, Idle);
  }

  lemma CanCopy(g: LogArea, base: Disk, s: State)
    requires Reachable(g, base, s) && s.phase.Copying? && s.phase.i < |s.lh|
    ensures ValidArea(g) && |s.disk| == g.diskSize && Enabled(g, s, CopyBlock)
  {
    ReachableInv(g, base, s);
  }

  lemma CanInstall(g: LogArea, base: Disk, s: State)
    requires Reachable(g, base, s) && (s.phase.Installing? || s.phase.Replaying?) && s.phase.i < |s.lh|
    ensures ValidArea(g) && |s.disk| == g.diskSize && Enabled(g, s, InstallBlock)
  {
    ReachableInv(g, base, s);
    assert Home(g, s.lh[s.phase.i]);
  }
}
