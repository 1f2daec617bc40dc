// Every step of the logging protocol keeps the invariant; the claims about whole runs follow.

module LogProofs {
  import opened Common
  import opened LogDisk
  import opened LogMachine

  lemma InitInv(g: LogArea, base: Disk, s: State)
    requires Init(g, base, s)
    ensures Inv(g, base, s)
  {
    IdleSums(s.ops);
  }

  // ---- steps of one operation: slot `p` changes and the phase is Running ---------------

  ghost predicate SlotStep(s: State, s': State, p: nat) {
    && p < |s.ops| && |s'.ops| == |s.ops| && s'.ops == s.ops[p := s'.ops[p]]
    && s'.disk == s.disk && s.phase.Running?
  }

  /** Who holds a buffer before and after. */
  lemma HeldUpdate(s: State, s': State, p: nat)
    requires SlotStep(s, s', p)
    ensures forall b :: Held(s, b) <==> HeldByOther(s, p, b) || (s.ops[p].Active? && b in s.ops[p].held)
    ensures forall b :: Held(s', b) <==> HeldByOther(s, p, b) || (s'.ops[p].Active? && b in s'.ops[p].held)
  {
    forall b
      ensures Held(s', b) <==> HeldByOther(s, p, b) || (s'.ops[p].Active? && b in s'.ops[p].held)
    {
      if HeldByOther(s, p, b) {
        var q :| 0 <= q < |s.ops| && q != p && s.ops[q].Active? && b in s.ops[q].held;
        assert s'.ops[q] == s.ops[q];
      }
      if Held(s', b) {
        var q :| 0 <= q < |s'.ops| && s'.ops[q].Active? && b in s'.ops[q].held;
        assert q != p ==> s'.ops[q] == s.ops[q];
      }
    }
  }

  lemma SlotCount(s: State, s': State, p: nat)
    requires InvCount(s) && SlotStep(s, s', p)
    requires s'.outstanding == s.outstanding + (if s'.ops[p].Active? then 1 else 0) - (if s.ops[p].Active? then 1 else 0)
    requires s'.phase.Running? || s'.outstanding == 0
    ensures InvCount(s')
  {
    SlotUpdate(s.ops, p, s'.ops[p]);
    if s'.outstanding == 0 { NoneActive(s'.ops); }
  }

  /** Modify and log_write keep the bookkeeping of operation numbers. */
  lemma SlotIds(s: State, s': State, p: nat)
    requires InvIds(s) && SlotStep(s, s', p)
    requires s.ops[p].Active? && s'.ops[p].Active? && s'.ops[p].id == s.ops[p].id
    requires (s'.nextId, s'.ended, s'.group, s'.durable) == (s.nextId, s.ended, s.group, s.durable)
    requires |s.history| <= |s'.history| <= |s.history| + 1 && s'.history[..|s.history|] == s.history
    requires |s'.history| > |s.history| ==> s'.history[|s.history|].id == s.ops[p].id
    ensures InvIds(s')
  {
    forall x | x in s'.group && x !in s'.ended ensures ActiveId(s', x) {
      var q :| 0 <= q < |s.ops| && s.ops[q].Active? && s.ops[q].id == x;
      assert s'.ops[q].id == x;
    }
    forall i | 0 <= i < |s'.history| ensures s'.history[i].id < s'.nextId {
      if i < |s.history| { assert s'.history[i] == s'.history[..|s.history|][i]; }
    }
  }

  lemma SlotHeld(g: LogArea, s: State, s': State, p: nat)
    requires InvHeld(g, s) && SlotStep(s, s', p) && s.cache.Keys <= s'.cache.Keys
    requires s'.ops[p].Active? ==>
      forall b :: b in s'.ops[p].held ==> Home(g, b) && b in s'.cache && !HeldByOther(s, p, b)
    ensures InvHeld(g, s')
  {
    forall q, b | 0 <= q < |s'.ops| && q != p && s'.ops[q].Active? && b in s'.ops[q].held && s'.ops[p].Active?
      ensures b !in s'.ops[p].held
    {
      assert s'.ops[q] == s.ops[q];
      assert HeldByOther(s, p, b);
    }
  }

  // ---- begin_op ---------------------------------------------------------------------------

  lemma BeginOpCore(g: LogArea, base: Disk, s: State, p: nat)
    requires Core(g, base, s) && Enabled(g, s, BeginOp(p))
    ensures Core(g, base, Do(g, s, BeginOp(p)))
  {
    var s' := Do(g, s, BeginOp(p));
    SlotCount(s, s', p);
    BeginOpIds(g, s, p);
    SlotHeld(g, s, s', p);
    assert View(base, s') == View(base, s) by {
      EffectCongruence(base, s.history, s.durable + s.group, s'.durable + s'.group);
    }
    HeldUpdate(s, s', p);
    assert CacheAgrees(s', View(base, s'));
  }

  lemma BeginOpIds(g: LogArea, s: State, p: nat)
    requires ValidArea(g) && |s.disk| == g.diskSize
    requires InvIds(s) && Enabled(g, s, BeginOp(p))
    ensures InvIds(Do(g, s, BeginOp(p)))
  {
    var s' := Do(g, s, BeginOp(p));
    forall x | x in s'.group ensures x in s'.ended || ActiveId(s', x) {
      if x == s.nextId {
        assert s'.ops[p].id == x;
      } else if x !in s.ended {
        var q :| 0 <= q < |s.ops| && s.ops[q].Active? && s.ops[q].id == x;
        assert s'.ops[q] == s.ops[q];
      }
    }
  }

  // ---- changing a buffer and log_write ------------------------------------------------------

  lemma ModifyCore(g: LogArea, base: Disk, s: State, p: nat, b: Word, data: Words)
    requires Core(g, base, s) && Enabled(g, s, Modify(p, b, data))
    ensures Core(g, base, Do(g, s, Modify(p, b, data)))
  {
    var s' := Do(g, s, Modify(p, b, data));
    assert s.phase.Running?;
    SlotCount(s, s', p);
    SlotIds(s, s', p);
    SlotHeld(g, s, s', p) by { assert InvHeld(g, s); ModifyHeld(g, s, p, b, data); }
    HeldUpdate(s, s', p);
    assert CacheAgrees(s', View(base, s'));
  }

  lemma ModifyHeld(g: LogArea, s: State, p: nat, b: Word, data: Words)
    requires ValidArea(g) && |s.disk| == g.diskSize
    requires InvHeld(g, s) && Enabled(g, s, Modify(p, b, data))
    ensures forall c :: c in s.ops[p].held ==> Home(g, c) && c in s.cache && !HeldByOther(s, p, c)
  {
  }

  lemma LogWriteCore(g: LogArea, base: Disk, s: State, p: nat, b: Word)
    requires Core(g, base, s) && Enabled(g, s, LogWrite(p, b))
    ensures Core(g, base, Do(g, s, LogWrite(p, b)))
  {
    var s' := Do(g, s, LogWrite(p, b));
    assert s.phase.Running?;
    SlotCount(s, s', p);
    SlotIds(s, s', p);
    SlotHeld(g, s, s', p) by { LogWriteHeld(g, s, p, b); }
    LogWriteDisk(g, base, s, p, b);
    LogWriteCache(g, base, s, p, b);
  }

  lemma LogWriteHeld(g: LogArea, s: State, p: nat, b: Word)
    requires ValidArea(g) && |s.disk| == g.diskSize
    requires InvHeld(g, s) && Enabled(g, s, LogWrite(p, b))
    ensures forall c :: c in s.ops[p].held ==> Home(g, c) && c in s.cache && !HeldByOther(s, p, c)
  {
  }

  lemma ValidListAppend(g: LogArea, lh: seq<Word>, b: Word)
    requires ValidList(g, lh) && Home(g, b) && b !in lh && |lh| < LOGSIZE && |lh| < g.size - 1
    ensures ValidList(g, lh + [b])
  {
  }

  lemma LogWriteDisk(g: LogArea, base: Disk, s: State, p: nat, b: Word)
    requires Core(g, base, s) && Enabled(g, s, LogWrite(p, b)) && s.phase.Running?
    ensures InvDisk(g, base, Do(g, s, LogWrite(p, b)))
    ensures Target(base, Do(g, s, LogWrite(p, b))) == Target(base, s)
  {
    EffectSnoc(base, s.history, Write(s.ops[p].id, b, s.cache[b]), s.durable);
    assert s.ops[p].id !in s.durable;
    if b !in s.lh {
      ValidListAppend(g, s.lh, b);
    }
  }

  lemma LogWriteView(g: LogArea, base: Disk, s: State, p: nat, b: Word)
    requires Core(g, base, s) && Enabled(g, s, LogWrite(p, b))
    ensures Home(g, b) && View(base, Do(g, s, LogWrite(p, b))) == View(base, s)[b := s.cache[b]]
  {
    hide InvCount, InvDisk, InvCache, Effect, LogWritePanics;
    EffectSnoc(base, s.history, Write(s.ops[p].id, b, s.cache[b]), s.durable + s.group);
  }

  /** After log_write the logged contents of `b` are those in the cache, which nobody is changing. */
  lemma LogWriteAgrees(g: LogArea, s: State, p: nat, b: Word, view: Disk)
    requires ValidArea(g) && |s.disk| == g.diskSize && Enabled(g, s, LogWrite(p, b)) && s.phase.Running?
    requires CacheAgrees(s, view) && b < |view| && !HeldByOther(s, p, b)
    ensures CacheAgrees(Do(g, s, LogWrite(p, b)), view[b := s.cache[b]])
  {
    hide Held, HeldByOther, LogWritePanics;
    var s' := Do(g, s, LogWrite(p, b));
    HeldUpdate(s, s', p);
    assert b in s'.lh;
  }

  lemma LogWriteCache(g: LogArea, base: Disk, s: State, p: nat, b: Word)
    requires Core(g, base, s) && Enabled(g, s, LogWrite(p, b)) && s.phase.Running?
    ensures InvCache(g, base, Do(g, s, LogWrite(p, b)))
  {
    hide InvCount, InvIds, InvHeld, InvDisk, CacheAgrees, Effect, LogWritePanics;
    LogWriteDisk(g, base, s, p, b);
    LogWriteView(g, base, s, p, b);
    NotHeldTwice(g, s, p, b);
    LogWriteAgrees(g, s, p, b, View(base, s));
    assert b in Do(g, s, LogWrite(p, b)).lh;
  }

  lemma NotHeldTwice(g: LogArea, s: State, p: nat, b: Word)
    requires InvHeld(g, s) && p < |s.ops| && s.ops[p].Active? && b in s.ops[p].held
    ensures !HeldByOther(s, p, b)
  {
  }

  // ---- end_op -----------------------------------------------------------------------------

  lemma EndOpCore(g: LogArea, base: Disk, s: State, p: nat)
    requires Core(g, base, s) && Enabled(g, s, EndOp(p))
    ensures Core(g, base, Do(g, s, EndOp(p)))
  {
    var s' := Do(g, s, EndOp(p));
    SlotCount(s, s', p);
    EndOpIds(g, s, p);
    SlotHeld(g, s, s', p);
    HeldUpdate(s, s', p);
    if s'.outstanding == 0 {
      NoneHeld(s');
    }
    if s'.phase.Finishing? {
      assert s'.durable == s.durable + s.group;
      assert s.cache == map[];
    } else {
      assert CacheAgrees(s', View(base, s'));
    }
  }

  lemma NoneHeld(s: State)
    requires forall p :: 0 <= p < |s.ops| ==> s.ops[p].Idle?
    ensures forall b :: !Held(s, b)
  {
  }

  lemma EndOpIds(g: LogArea, s: State, p: nat)
    requires ValidArea(g) && |s.disk| == g.diskSize
    requires InvIds(s) && InvCount(s) && Enabled(g, s, EndOp(p)) && SlotStep(s, Do(g, s, EndOp(p)), p)
    ensures InvIds(Do(g, s, EndOp(p)))
  {
    var s' := Do(g, s, EndOp(p));
    SlotUpdate(s.ops, p, Idle);
    if s'.outstanding == 0 { NoneActive(s'.ops); }
    forall x | x in s.group && x !in s'.ended ensures ActiveId(s', x) {
      var q :| 0 <= q < |s.ops| && s.ops[q].Active? && s.ops[q].id == x;
      assert s'.ops[q].id == x;
    }
  }

  // ---- commit and recovery ------------------------------------------------------------------

  /** A block written into a log slot is invisible to recovery while the header is empty. */
  lemma CopyRecovers(g: LogArea, d: Disk, target: Disk, i: nat, data: Words)
    requires RecoversTo(g, d, target) && DecodeHeader(d[g.start]) == [] && i + 1 < g.size
    ensures RecoversTo(g, d[g.start + 1 + i := data], target)
  {
  }

  lemma CopyBlockCore(g: LogArea, base: Disk, s: State)
    requires Core(g, base, s) && Enabled(g, s, CopyBlock)
    ensures Core(g, base, Do(g, s, CopyBlock))
  {
    hide InvDisk, RecoversTo, Effect;
    var s' := Do(g, s, CopyBlock);
    CopyBlockDisk(g, base, s);
    assert forall b :: Held(s, b) <==> Held(s', b);
    assert InvCache(g, base, s');
  }

  lemma CopyBlockDisk(g: LogArea, base: Disk, s: State)
    requires Core(g, base, s) && Enabled(g, s, CopyBlock)
    ensures |Do(g, s, CopyBlock).disk| == g.diskSize && InvDisk(g, base, Do(g, s, CopyBlock))
  {
    hide InvCount, InvIds, InvHeld, InvCache, Effect;
    CopyRecovers(g, s.disk, Target(base, s), s.phase.i, s.cache[s.lh[s.phase.i]]);
  }

  lemma WriteHeadCore(g: LogArea, base: Disk, s: State)
    requires Core(g, base, s) && Enabled(g, s, WriteHead)
    ensures Core(g, base, Do(g, s, WriteHead))
  {
    hide InvDisk, RecoversTo, Effect;
    var s' := Do(g, s, WriteHead);
    WriteHeadDisk(g, base, s);
    assert s'.durable == s.durable + s.group;
    NoneHeld(s);
  }

  lemma WriteHeadDisk(g: LogArea, base: Disk, s: State)
    requires Core(g, base, s) && Enabled(g, s, WriteHead)
    ensures |Do(g, s, WriteHead).disk| == g.diskSize && InvDisk(g, base, Do(g, s, WriteHead))
  {
    hide InvIds, InvHeld, Effect;
    HeaderRoundTrip(s.disk[g.start], s.lh);
    assert Target(base, Do(g, s, WriteHead)) == View(base, s);
    NoneHeld(s);
  }

  /** Copying a log slot home changes nothing that a recovery would see. */
  lemma InstallRecovers(g: LogArea, d: Disk, target: Disk, i: nat)
    requires RecoversTo(g, d, target) && i < |DecodeHeader(d[g.start])|
    ensures var lh := DecodeHeader(d[g.start]);
            var d' := d[lh[i] := d[g.start + 1 + i]];
            RecoversTo(g, d', target) && d'[g.start] == d[g.start]
  {
    var lh := DecodeHeader(d[g.start]);
    assert Home(g, lh[i]);
  }

  lemma InstallProgress(g: LogArea, d: Disk, lh: seq<Word>, target: Disk, i: nat)
    requires ValidImage(g, d) && lh == DecodeHeader(d[g.start]) && |target| == |d| && i < |lh|
    requires forall j :: 0 <= j < i ==> d[lh[j]] == target[lh[j]]
    requires d[g.start + 1 + i] == target[lh[i]]
    ensures forall j :: 0 <= j < i + 1 ==> d[lh[i] := d[g.start + 1 + i]][lh[j]] == target[lh[j]]
  {
  }

  lemma InstallDisk(g: LogArea, base: Disk, s: State)
    requires ValidArea(g) && |base| == g.diskSize && |s.disk| == g.diskSize
    requires InvDisk(g, base, s) && Enabled(g, s, InstallBlock)
    ensures InvDisk(g, base, Do(g, s, InstallBlock))
  {
    var s', i, target := Do(g, s, InstallBlock), s.phase.i, Target(base, s);
    InstallRecovers(g, s.disk, target, i);
    InstallProgress(g, s.disk, s.lh, target, i);
    var d' := s.disk[s.lh[i] := s.disk[g.start + 1 + i]];
    assert s'.disk == d' && s'.lh == s.lh && s'.phase.i == i + 1;
    assert Target(base, s') == target;
    assert RecoversTo(g, d', target);
    assert DecodeHeader(d'[g.start]) == s.lh;
  }

  lemma InstallBlockCore(g: LogArea, base: Disk, s: State)
    requires Core(g, base, s) && Enabled(g, s, InstallBlock)
    ensures Core(g, base, Do(g, s, InstallBlock))
  {
    InstallDisk(g, base, s);
    InstallCache(g, base, s);
  }

  lemma InstallCache(g: LogArea, base: Disk, s: State)
    requires ValidArea(g) && |base| == g.diskSize && |s.disk| == g.diskSize
    requires InvCache(g, base, s) && Enabled(g, s, InstallBlock)
    ensures InvCache(g, base, Do(g, s, InstallBlock))
  {
    if s.phase.Installing? {
      var i := s.phase.i;
      assert s.lh[i..] == [s.lh[i]] + s.lh[i + 1..];
    }
  }

  lemma EraseHeadCore(g: LogArea, base: Disk, s: State)
    requires Core(g, base, s) && Enabled(g, s, EraseHead)
    ensures Core(g, base, Do(g, s, EraseHead))
  {
    HeaderRoundTrip(s.disk[g.start], []);
    IdleSums(s.ops);
    assert s.durable + s.group == s.durable;
  }

  lemma CrashCore(g: LogArea, base: Disk, s: State)
    requires Core(g, base, s)
    ensures Core(g, base, Do(g, s, Crash))
  {
    IdleSums(Do(g, s, Crash).ops);
  }

  lemma StepCore(g: LogArea, base: Disk, s: State, t: Step)
    requires Core(g, base, s) && Enabled(g, s, t)
    ensures Core(g, base, Do(g, s, t))
  {
    match t
    case BeginOp(p) => BeginOpCore(g, base, s, p);
    case Modify(p, b, data) => ModifyCore(g, base, s, p, b, data);
    case LogWrite(p, b) => LogWriteCore(g, base, s, p, b);
    case EndOp(p) => EndOpCore(g, base, s, p);
    case CopyBlock => CopyBlockCore(g, base, s);
    case WriteHead => WriteHeadCore(g, base, s);
    case InstallBlock => InstallBlockCore(g, base, s);
    case EraseHead => EraseHeadCore(g, base, s);
    case FinishCommit => assert s.durable + s.group == s.durable;
    case Crash => CrashCore(g, base, s);
    case ReadHead => IdleSums(s.ops);
  }

  // ---- the reservation ------------------------------------------------------------------------

  lemma BlocksSnoc(h: seq<Write>, w: Write, id: nat)
    ensures Blocks(h + [w], id) == if w.id == id then Blocks(h, id) + {w.block} else Blocks(h, id)
  {
    var a, b := Blocks(h + [w], id), if w.id == id then Blocks(h, id) + {w.block} else Blocks(h, id);
    forall x | x in a ensures x in b {
      var i :| 0 <= i < |h + [w]| && (h + [w])[i].id == id && (h + [w])[i].block == x;
      assert i < |h| ==> h[i] == (h + [w])[i];
    }
    forall x | x in b ensures x in a {
      if x in Blocks(h, id) {
        var i :| 0 <= i < |h| && h[i].id == id && h[i].block == x;
        assert (h + [w])[i] == h[i];
      } else {
        assert (h + [w])[|h|] == w;
      }
    }
  }

  lemma WithinBefore(s: State, s': State, w: Write)
    requires s'.history == s.history + [w] && Within(s')
    ensures Within(s)
  {
    forall id: nat ensures |Blocks(s.history, id)| <= MAXOPBLOCKS {
      BlocksSnoc(s.history, w, id);
      assert |Blocks(s'.history, id)| <= MAXOPBLOCKS;
      if w.id == id && w.block !in Blocks(s.history, id) {
        assert |Blocks(s.history, id) + {w.block}| == |Blocks(s.history, id)| + 1;
      } else {
        assert Blocks(s'.history, id) == Blocks(s.history, id);
      }
    }
  }

  lemma LogWriteReserve(g: LogArea, base: Disk, s: State, p: nat, b: Word)
    requires Inv(g, base, s) && Enabled(g, s, LogWrite(p, b))
    ensures InvBlocks(Do(g, s, LogWrite(p, b))) && InvReserve(Do(g, s, LogWrite(p, b)))
  {
    hide InvCount, InvHeld, InvDisk, InvCache, Blocks, Within, Reserved, LogWritePanics;
    var s', w := Do(g, s, LogWrite(p, b)), Write(s.ops[p].id, b, s.cache[b]);
    forall q | 0 <= q < |s'.ops| && s'.ops[q].Active?
      ensures forall c :: c in Blocks(s'.history, s'.ops[q].id) ==> c in s'.lh
      ensures s'.ops[q].added <= |Blocks(s'.history, s'.ops[q].id)|
    {
      BlocksSnoc(s.history, w, s'.ops[q].id);
      if q == p && b !in s.lh {
        assert |Blocks(s.history, w.id) + {b}| == |Blocks(s.history, w.id)| + 1;
      }
    }
    SlotUpdate(s.ops, p, s'.ops[p]);
    if Within(s') { WithinBefore(s, s', w); }
  }

  lemma BeginOpReserve(g: LogArea, base: Disk, s: State, p: nat)
    requires Inv(g, base, s) && Enabled(g, s, BeginOp(p))
    ensures InvBlocks(Do(g, s, BeginOp(p))) && InvReserve(Do(g, s, BeginOp(p)))
  {
    hide InvHeld, InvDisk, InvCache, Reserved, Within;
    var s' := Do(g, s, BeginOp(p));
    assert Blocks(s.history, s.nextId) == {};
    SlotUpdate(s.ops, p, s'.ops[p]);
    ReservedAtMost(s.ops);
    assert Within(s') == Within(s) by { SameWithin(s, s'); }
  }

  lemma SameWithin(s: State, s': State)
    requires s'.history == s.history
    ensures Within(s') == Within(s)
  {
  }

  lemma EndOpReserve(g: LogArea, base: Disk, s: State, p: nat)
    requires Inv(g, base, s) && Enabled(g, s, EndOp(p))
    ensures InvBlocks(Do(g, s, EndOp(p))) && InvReserve(Do(g, s, EndOp(p)))
  {
    hide InvHeld, InvDisk, InvCache, InvIds, Reserved, Blocks, Within;
    var s' := Do(g, s, EndOp(p));
    SlotUpdate(s.ops, p, s'.ops[p]);
    SameWithin(s, s');
    if Within(s) {
      AddedWithin(s);
      ClaimReserved(s.ops, p);
    }
  }

  lemma AddedWithin(s: State)
    requires InvBlocks(s) && Within(s)
    ensures forall p :: 0 <= p < |s.ops| && s.ops[p].Active? ==> s.ops[p].added <= MAXOPBLOCKS
  {
    hide Blocks;
  }

  lemma ModifyReserve(g: LogArea, s: State, p: nat, b: Word, data: Words)
    requires ValidArea(g) && |s.disk| == g.diskSize && InvBlocks(s) && InvReserve(s)
    requires Enabled(g, s, Modify(p, b, data))
    ensures InvBlocks(Do(g, s, Modify(p, b, data))) && InvReserve(Do(g, s, Modify(p, b, data)))
  {
    hide Blocks, Reserved, Within;
    var s' := Do(g, s, Modify(p, b, data));
    SlotUpdate(s.ops, p, s'.ops[p]);
    SameWithin(s, s');
  }

  lemma IdleReserve(g: LogArea, base: Disk, s: State)
    requires Core(g, base, s) && forall p :: 0 <= p < |s.ops| ==> s.ops[p].Idle?
    ensures InvBlocks(s) && InvReserve(s)
  {
    hide InvHeld, InvCache, InvIds, RecoversTo;
    IdleSums(s.ops);
  }

  lemma StepInv(g: LogArea, base: Disk, s: State, t: Step)
    requires Inv(g, base, s) && Enabled(g, s, t)
    ensures Inv(g, base, Do(g, s, t))
  {
    hide InvHeld, InvDisk, InvCache, InvIds, InvReserve, Blocks;
    StepCore(g, base, s, t);
    match t
    case BeginOp(p) => BeginOpReserve(g, base, s, p);
    case Modify(p, b, data) => ModifyReserve(g, s, p, b, data);
    case LogWrite(p, b) => LogWriteReserve(g, base, s, p, b);
    case EndOp(p) => EndOpReserve(g, base, s, p);
    case _ => IdleReserve(g, base, Do(g, s, t));
  }
}
