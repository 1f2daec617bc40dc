// The logging protocol of xv6/kernel/log.c as a step system: file system operations run
// concurrently, the last one commits, and the machine may crash between any two disk writes.

module LogMachine {
  import opened Common
  import opened LogDisk

  /** One log_write: operation `id` recorded `data` for `block`. */
  datatype Write = Write(id: nat, block: Word, data: Words)

  /** A caller between begin_op and end_op. `held` are the buffers it has locked and modified but
      not yet passed to log_write; the history variable `added` counts the blocks it added. */
  datatype Op = Idle | Active(id: nat, added: nat, held: set<Word>)

  /** Copying: write_log. Installing: install_trans(0). Finishing: commit is done and
      log.committing is still set. Down: crashed. Replaying: install_trans(1). */
  datatype Phase = Running | Copying(i: nat) | Installing(i: nat) | Finishing | Down | Replaying(i: nat)

  datatype State = State(
    disk: Disk,
    cache: map<Word, Words>,  // buffers that are pinned or locked
    lh: seq<Word>,            // log.lh
    ops: seq<Op>,
    outstanding: nat,
    phase: Phase,
    // history variables, read by no step
    nextId: nat,
    history: seq<Write>,
    ended: set<nat>,    // operations that called end_op
    group: set<nat>,    // operations of the transaction being collected
    durable: set<nat>)  // operations whose transaction header reached the disk

  datatype Step =
    | BeginOp(p: nat)
    | Modify(p: nat, b: Word, data: Words)
    | LogWrite(p: nat, b: Word)
    | EndOp(p: nat)
    | CopyBlock
    | WriteHead
    | InstallBlock
    | EraseHead
    | FinishCommit
    | Crash
    | ReadHead

  /** The test at the top of log_write. */
  predicate LogWritePanics(g: LogArea, s: State) {
    |s.lh| >= LOGSIZE || |s.lh| >= g.size - 1
  }

  ghost predicate Held(s: State, b: Word) {
    exists p :: 0 <= p < |s.ops| && s.ops[p].Active? && b in s.ops[p].held
  }

  ghost predicate HeldByOther(s: State, p: nat, b: Word) {
    exists q :: 0 <= q < |s.ops| && q != p && s.ops[q].Active? && b in s.ops[q].held
  }

  ghost predicate Enabled(g: LogArea, s: State, t: Step)
    requires ValidArea(g) && |s.disk| == g.diskSize
  {
    match t
    case BeginOp(p) =>
      && p < |s.ops| && s.ops[p].Idle?
      && s.phase.Running?
      && |s.lh| + (s.outstanding + 1) * MAXOPBLOCKS <= LOGSIZE
    case Modify(p, b, data) =>
      && p < |s.ops| && s.ops[p].Active? && Home(g, b) && !HeldByOther(s, p, b)
    case LogWrite(p, b) =>
      && p < |s.ops| && s.ops[p].Active? && b in s.ops[p].held && b in s.cache
      && !LogWritePanics(g, s)
    case EndOp(p) =>
      p < |s.ops| && s.ops[p].Active? && s.ops[p].held == {} && s.outstanding >= 1
    case CopyBlock =>
      s.phase.Copying? && s.phase.i < |s.lh| && s.phase.i + 1 < g.size && s.lh[s.phase.i] in s.cache
    case WriteHead =>
      s.phase.Copying? && s.phase.i == |s.lh| && |s.lh| <= LOGSIZE
    case InstallBlock =>
      && (s.phase.Installing? || s.phase.Replaying?)
      && s.phase.i < |s.lh| && s.phase.i + 1 < g.size && s.lh[s.phase.i] < g.diskSize
    case EraseHead =>
      (s.phase.Installing? || s.phase.Replaying?) && s.phase.i == |s.lh|
    case FinishCommit =>
      s.phase.Finishing?
    case Crash =>
      true
    case ReadHead =>
      s.phase.Down? && HeaderFits(s.disk[g.start])
  }

  function AllIdle(n: nat): (r: seq<Op>)
    ensures |r| == n && forall p :: 0 <= p < n ==> r[p].Idle?
  {
    seq(n, _ => Idle)
  }

  ghost function Do(g: LogArea, s: State, t: Step): (r: State)
    requires ValidArea(g) && |s.disk| == g.diskSize
    requires Enabled(g, s, t)
    ensures |r.disk| == g.diskSize
  {
    match t
    case BeginOp(p) =>
      s.(ops := s.ops[p := Active(s.nextId, 0, {})], outstanding := s.outstanding + 1,
         nextId := s.nextId + 1, group := s.group + {s.nextId})
    case Modify(p, b, data) =>
      s.(cache := s.cache[b := data], ops := s.ops[p := s.ops[p].(held := s.ops[p].held + {b})])
    case LogWrite(p, b) =>
      var o := s.ops[p];
      s.(lh := if b in s.lh then s.lh else s.lh + [b],
         ops := s.ops[p := Active(o.id, if b in s.lh then o.added else o.added + 1, o.held - {b})],
         history := s.history + [Write(o.id, b, s.cache[b])])
    case EndOp(p) =>
      var s1 := s.(ops := s.ops[p := Idle], outstanding := s.outstanding - 1, ended := s.ended + {s.ops[p].id});
      if s1.outstanding > 0 then s1
      else if |s.lh| > 0 then s1.(phase := Copying(0))
      else s1.(phase := Finishing, durable := s.durable + s.group, group := {})
    case CopyBlock =>
      var i := s.phase.i;
      s.(disk := s.disk[g.start + 1 + i := s.cache[s.lh[i]]], phase := Copying(i + 1))
    case WriteHead =>
      s.(disk := s.disk[g.start := EncodeHeader(s.disk[g.start], s.lh)], phase := Installing(0),
         durable := s.durable + s.group, group := {})
    case InstallBlock =>
      var i := s.phase.i;
      var s1 := s.(disk := s.disk[s.lh[i] := s.disk[g.start + 1 + i]]);
      if s.phase.Installing? then s1.(phase := Installing(i + 1), cache := s.cache - {s.lh[i]})
      else s1.(phase := Replaying(i + 1))
    case EraseHead =>
      s.(lh := [], disk := s.disk[g.start := EncodeHeader(s.disk[g.start], [])],
         phase := if s.phase.Installing? then Finishing else Running)
    case FinishCommit =>
      s.(phase := Running)
    case Crash =>
      s.(cache := map[], lh := [], ops := AllIdle(|s.ops|), outstanding := 0, phase := Down, group := {})
    case ReadHead =>
      s.(lh := DecodeHeader(s.disk[g.start]), phase := Replaying(0))
  }

  ghost predicate Init(g: LogArea, base: Disk, s: State) {
    && ValidArea(g) && |base| == g.diskSize
    && HeaderFits(base[g.start]) && DecodeHeader(base[g.start]) == []
    && s == State(base, map[], [], AllIdle(|s.ops|), 0, Down, 0, [], {}, {}, {})
  }

  ghost predicate Next(g: LogArea, s: State, s': State) {
    && ValidArea(g) && |s.disk| == g.diskSize
    && exists t :: Enabled(g, s, t) && s' == Do(g, s, t)
  }

  ghost predicate IsRun(g: LogArea, base: Disk, run: seq<State>) {
    && |run| > 0
    && Init(g, base, run[0])
    && forall i :: 0 <= i < |run| - 1 ==> Next(g, run[i], run[i + 1])
  }

  ghost predicate Reachable(g: LogArea, base: Disk, s: State) {
    exists run :: IsRun(g, base, run) && run[|run| - 1] == s
  }

  // ---- the reference: what a set of operations does to the disk ------------------------

  /** `base` with every write of the operations in `who` applied, in order, and no other. */
  ghost function Effect(base: Disk, h: seq<Write>, who: set<nat>): (r: Disk)
    ensures |r| == |base|
  {
    if h == [] then base
    else
      var w, d := h[|h| - 1], Effect(base, h[..|h| - 1], who);
      if w.id in who && w.block < |d| then d[w.block := w.data] else d
  }

  lemma {:induction false} EffectCongruence(base: Disk, h: seq<Write>, a: set<nat>, b: set<nat>)
    requires forall i :: 0 <= i < |h| ==> (h[i].id in a <==> h[i].id in b)
    ensures Effect(base, h, a) == Effect(base, h, b)
  {
    if h != [] {
      EffectCongruence(base, h[..|h| - 1], a, b);
      assert h[|h| - 1].id in a <==> h[|h| - 1].id in b;
    }
  }

  lemma EffectSnoc(base: Disk, h: seq<Write>, w: Write, who: set<nat>)
    ensures Effect(base, h + [w], who) ==
            var d := Effect(base, h, who);
            if w.id in who && w.block < |d| then d[w.block := w.data] else d
  {
    assert (h + [w])[..|h|] == h;
  }

  /** The disk that the transactions on stable storage stand for. */
  ghost function Target(base: Disk, s: State): Disk {
    Effect(base, s.history, s.durable)
  }

  /** What running operations see: the same plus the open transaction. */
  ghost function View(base: Disk, s: State): Disk {
    Effect(base, s.history, s.durable + s.group)
  }

  // ---- reservation ------------------------------------------------------------------------

  ghost function CountActive(ops: seq<Op>): nat {
    if ops == [] then 0 else CountActive(ops[..|ops| - 1]) + if ops[|ops| - 1].Active? then 1 else 0
  }

  ghost function Claim(o: Op): int {
    if o.Active? then MAXOPBLOCKS - o.added else 0
  }

  /** Log space that the running operations may still use. */
  ghost function Reserved(ops: seq<Op>): int {
    if ops == [] then 0 else Reserved(ops[..|ops| - 1]) + Claim(ops[|ops| - 1])
  }

  lemma {:induction false} SlotUpdate(ops: seq<Op>, p: nat, o: Op)
    requires p < |ops|
    ensures CountActive(ops[p := o]) + (if ops[p].Active? then 1 else 0) == CountActive(ops) + if o.Active? then 1 else 0
    ensures Reserved(ops[p := o]) == Reserved(ops) - Claim(ops[p]) + Claim(o)
  {
    var n := |ops| - 1;
    if p == n {
      assert ops[p := o][..n] == ops[..n];
    } else {
      SlotUpdate(ops[..n], p, o);
      assert ops[p := o][..n] == ops[..n][p := o];
    }
  }

  lemma {:induction false} NoneActive(ops: seq<Op>)
    requires CountActive(ops) == 0
    ensures forall p :: 0 <= p < |ops| ==> ops[p].Idle?
  {
    if ops != [] {
      NoneActive(ops[..|ops| - 1]);
      forall p | 0 <= p < |ops| - 1 ensures ops[p] == ops[..|ops| - 1][p] {}
    }
  }

  lemma {:induction false} ReservedAtMost(ops: seq<Op>)
    ensures Reserved(ops) <= MAXOPBLOCKS * CountActive(ops)
  {
    if ops != [] { ReservedAtMost(ops[..|ops| - 1]); }
  }

  lemma {:induction false} ClaimReserved(ops: seq<Op>, p: nat)
    requires p < |ops| && forall q :: 0 <= q < |ops| && ops[q].Active? ==> ops[q].added <= MAXOPBLOCKS
    ensures 0 <= Claim(ops[p]) <= Reserved(ops)
  {
    var n := |ops| - 1;
    if n > 0 {
      ClaimReserved(ops[..n], if p == n then 0 else p);
    }
  }

  lemma {:induction false} IdleSums(ops: seq<Op>)
    requires forall p :: 0 <= p < |ops| ==> ops[p].Idle?
    ensures CountActive(ops) == 0 && Reserved(ops) == 0
  {
    if ops != [] { IdleSums(ops[..|ops| - 1]); }
  }

  // ---- the invariant ------------------------------------------------------------------------

  ghost predicate InvCount(s: State) {
    && s.outstanding == CountActive(s.ops)
    && (!s.phase.Running? ==> forall p :: 0 <= p < |s.ops| ==> s.ops[p].Idle?)
  }

  /** The distinct blocks that operation `id` has logged. */
  ghost function Blocks(h: seq<Write>, id: nat): set<Word> {
    set i | 0 <= i < |h| && h[i].id == id :: h[i].block
  }

  /** What a running operation wrote is in the log, and all that it added is among it. */
  ghost predicate InvBlocks(s: State) {
    forall p :: 0 <= p < |s.ops| && s.ops[p].Active? ==>
      && (forall b :: b in Blocks(s.history, s.ops[p].id) ==> b in s.lh)
      && s.ops[p].added <= |Blocks(s.history, s.ops[p].id)|
  }

  /** No operation so far logged more than MAXOPBLOCKS distinct blocks. */
  ghost predicate Within(s: State) {
    forall id: nat :: |Blocks(s.history, id)| <= MAXOPBLOCKS
  }

  ghost predicate InvReserve(s: State) {
    Within(s) ==> |s.lh| + Reserved(s.ops) <= LOGSIZE
  }

  ghost predicate ActiveId(s: State, id: nat) {
    exists p :: 0 <= p < |s.ops| && s.ops[p].Active? && s.ops[p].id == id
  }

  ghost predicate InvIds(s: State) {
    && (forall p :: 0 <= p < |s.ops| && s.ops[p].Active? ==> s.ops[p].id in s.group && s.ops[p].id !in s.ended)
    && (forall p, q :: 0 <= p < q < |s.ops| && s.ops[p].Active? && s.ops[q].Active? ==> s.ops[p].id != s.ops[q].id)
    && (forall x :: x in s.group ==> x < s.nextId && x !in s.durable && (x in s.ended || ActiveId(s, x)))
    && s.durable <= s.ended
    && (forall x :: x in s.ended ==> x < s.nextId)
    && (forall i :: 0 <= i < |s.history| ==> s.history[i].id < s.nextId)
  }

  ghost predicate InvHeld(g: LogArea, s: State) {
    && (forall p, b :: 0 <= p < |s.ops| && s.ops[p].Active? && b in s.ops[p].held ==> Home(g, b) && b in s.cache)
    && (forall p, q :: 0 <= p < q < |s.ops| && s.ops[p].Active? && s.ops[q].Active? ==> s.ops[p].held !! s.ops[q].held)
  }

  ghost predicate InvDisk(g: LogArea, base: Disk, s: State) {
    && RecoversTo(g, s.disk, Target(base, s))
    && ValidList(g, s.lh)
    && var hdr := DecodeHeader(s.disk[g.start]);
    && (s.phase.Running? || s.phase.Copying? || s.phase.Finishing? ==> hdr == [])
    && (s.phase.Finishing? || s.phase.Down? ==> s.lh == [])
    && (s.phase.Installing? || s.phase.Replaying? ==>
         && hdr == s.lh && s.phase.i <= |s.lh|
         && forall j :: 0 <= j < s.phase.i ==> s.disk[s.lh[j]] == Target(base, s)[s.lh[j]])
    && (s.phase.Copying? ==>
         && 0 < |s.lh| && s.phase.i <= |s.lh|
         && forall j :: 0 <= j < s.phase.i ==> s.lh[j] in s.cache && s.disk[g.start + 1 + j] == s.cache[s.lh[j]])
  }

  /** In-memory contents of the logged blocks agree with `view`, unless somebody is changing them. */
  ghost predicate CacheAgrees(s: State, view: Disk) {
    && (forall j :: 0 <= j < |s.lh| ==> s.lh[j] in s.cache && s.lh[j] < |view|)
    && (forall j :: 0 <= j < |s.lh| && !Held(s, s.lh[j]) ==> s.cache[s.lh[j]] == view[s.lh[j]])
    && (forall b :: b in s.cache ==> b in s.lh || Held(s, b))
  }

  ghost predicate InvCache(g: LogArea, base: Disk, s: State)
    requires |base| == g.diskSize
  {
    && (s.phase.Running? || s.phase.Copying? ==>
          && CacheAgrees(s, View(base, s))
          && (forall b :: Home(g, b) && b !in s.lh ==> View(base, s)[b] == Target(base, s)[b]))
    && (!s.phase.Running? && !s.phase.Copying? ==> s.group == {})
    && (s.phase.Installing? && s.phase.i <= |s.lh| ==> forall b :: b in s.cache ==> b in s.lh[s.phase.i..])
    && (s.phase.Finishing? || s.phase.Down? || s.phase.Replaying? ==> s.cache == map[])
  }

  /** What crash atomicity rests on. */
  ghost predicate Core(g: LogArea, base: Disk, s: State) {
    && ValidArea(g) && |base| == g.diskSize && |s.disk| == g.diskSize
    && InvCount(s) && InvIds(s) && InvHeld(g, s) && InvDisk(g, base, s) && InvCache(g, base, s)
  }

  ghost predicate Inv(g: LogArea, base: Disk, s: State) {
    Core(g, base, s) && InvBlocks(s) && InvReserve(s)
  }
}
