// xv6/kernel/bio.c: the buffer cache, a ring of buffers in the order of their last release. The
// critical sections under bcache.lock are single steps.

module BufferCache {
  import opened Common
  import opened ListRing
  import opened FsBlock

  const NBUF := 30
  const HEAD := 30  // the address of bcache.head; buffers have addresses 0 to NBUF - 1

  /** The name of a disk block. */
  datatype Id = Id(dev: nat, blockno: nat)

  datatype Buf = Buf(id: Id, valid: bool, refcnt: nat, data: Block)

  /** The buffers, the disks, the order on the ring from the most recently released buffer, and
      when each buffer was last put in front. */
  datatype State = State(buf: seq<Buf>, disk: map<Id, Block>, order: seq<int>, stamp: seq<nat>, clock: nat)

  function OnDisk(disk: map<Id, Block>, id: Id): Block { if id in disk then disk[id] else Zero() }

  // ---- what holds between steps ---------------------------------------------------------------------------

  /** The ring holds every buffer once. */
  ghost predicate Permutation(order: seq<int>) {
    && |order| == NBUF && NoDup(order) && (forall i | 0 <= i < NBUF :: 0 <= order[i] < NBUF)
    && (forall x | 0 <= x < NBUF :: x in order)
  }

  /** No block of a device other than 0 has two buffers. */
  ghost predicate Unique(buf: seq<Buf>) {
    forall i, j | 0 <= i < |buf| && 0 <= j < |buf| && buf[i].id.dev != 0 && buf[i].id == buf[j].id :: i == j
  }

  /** Nearer to the head means released later. */
  ghost predicate Recent(order: seq<int>, stamp: seq<nat>) {
    forall i, j | 0 <= i < j < |order| && 0 <= order[i] < |stamp| && 0 <= order[j] < |stamp| ::
      stamp[order[i]] > stamp[order[j]]
  }

  ghost predicate Good(s: State) {
    && |s.buf| == |s.stamp| == NBUF && Permutation(s.order) && Unique(s.buf) && Recent(s.order, s.stamp)
    && forall i | 0 <= i < NBUF :: s.stamp[i] < s.clock
  }

  ghost predicate Cached(s: State, id: Id) { exists i :: 0 <= i < |s.buf| && s.buf[i].id == id }

  /** The unreferenced buffer that was released longest ago. */
  ghost predicate IsOldest(s: State, b: int) {
    && 0 <= b < |s.buf| == |s.stamp| && s.buf[b].refcnt == 0
    && forall i | 0 <= i < |s.buf| && i != b && s.buf[i].refcnt == 0 :: s.stamp[i] > s.stamp[b]
  }

  ghost predicate AllBusy(s: State) { forall i | 0 <= i < |s.buf| :: s.buf[i].refcnt > 0 }

  predicate InUse(s: State, b: nat) { b < |s.buf| && s.buf[b].refcnt > 0 }

  // ---- steps and runs -------------------------------------------------------------------------------------

  /** Get: bget, which answers `b`. Load: bread reads an invalid buffer. Modify: the holder of a
      buffer changes its data. Save: bwrite. */
  datatype Step =
    | Get(id: Id, b: nat)
    | Load(b: nat)
    | Modify(b: nat, data: Block)
    | Save(b: nat)
    | Release(b: nat)
    | Pin(b: nat)
    | Unpin(b: nat)

  ghost predicate Enabled(s: State, t: Step) {
    && t.b < |s.buf| == |s.stamp| == NBUF
    && match t
       case Get(id, b) => if Cached(s, id) then s.buf[b].id == id else IsOldest(s, b)
       case Load(b) => s.buf[b].refcnt > 0 && !s.buf[b].valid
       case Modify(b, _) => s.buf[b].refcnt > 0 && s.buf[b].valid
       case Save(b) => s.buf[b].refcnt > 0 && s.buf[b].valid
       case Release(b) => s.buf[b].refcnt > 0
       case Pin(b) => true
       case Unpin(b) => s.buf[b].refcnt > 0
  }

  function Without(order: seq<int>, b: int): seq<int> {
    if order == [] then [] else if order[0] == b then order[1..] else [order[0]] + Without(order[1..], b)
  }

  function Do(s: State, t: Step): State
    requires t.b < |s.buf| == |s.stamp|
    requires t.Release? || t.Unpin? ==> s.buf[t.b].refcnt > 0
  {
    var u := s.buf[t.b];
    match t
    case Get(id, b) =>
      s.(buf := s.buf[b := if u.id == id then u.(refcnt := u.refcnt + 1) else Buf(id, false, 1, u.data)])
    case Load(b) => s.(buf := s.buf[b := u.(valid := true, data := OnDisk(s.disk, u.id))])
    case Modify(b, data) => s.(buf := s.buf[b := u.(data := data)])
    case Save(b) => s.(disk := s.disk[u.id := u.data])
    case Release(b) =>
      var s1 := s.(buf := s.buf[b := u.(refcnt := u.refcnt - 1)]);
      if u.refcnt > 1 then s1
      else s1.(order := [b as int] + Without(s.order, b), stamp := s.stamp[b := s.clock], clock := s.clock + 1)
    case Pin(b) => s.(buf := s.buf[b := u.(refcnt := u.refcnt + 1)])
    case Unpin(b) => s.(buf := s.buf[b := u.(refcnt := u.refcnt - 1)])
  }

  /** The state that binit leaves. */
  ghost predicate Initial(s: State) {
    && Good(s) && forall i | 0 <= i < NBUF :: s.buf[i] == Buf(Id(0, 0), false, 0, Zero())
  }

  ghost predicate IsRun(run: seq<State>, steps: seq<Step>) {
    && |run| == |steps| + 1 && Initial(run[0])
    && forall i | 0 <= i < |steps| :: Enabled(run[i], steps[i]) && run[i + 1] == Do(run[i], steps[i])
  }

  /** Every step keeps the ring, the order and the uniqueness of buffers. */
  lemma StepGood(s: State, t: Step)
    requires Good(s) && Enabled(s, t)
    ensures Good(Do(s, t))
  {
    hide Permutation, Recent, Unique, IsOldest;
    StepUnique(s, t);
    if t.Release? && s.buf[t.b].refcnt == 1 {
      var k := Position(s.order, t.b);
      WithoutAt(s.order, k);
      FrontOrder(s.order, s.stamp, k, s.clock);
    }
  }

  lemma StepUnique(s: State, t: Step)
    requires Good(s) && Enabled(s, t)
    ensures Unique(Do(s, t).buf)
  {
    hide Permutation, Recent, IsOldest, Without;
    if t.Get? && !Cached(s, t.id) {
      assert forall i | 0 <= i < NBUF :: s.buf[i].id != t.id;
    }
  }

  /** A step leaves a buffer in use to its block; only Modify and Load change its data. */
  lemma StepKeeps(s: State, t: Step, b: nat)
    requires Good(s) && Enabled(s, t) && b < NBUF && s.buf[b].refcnt > 0
    ensures Do(s, t).buf[b].id == s.buf[b].id
    ensures s.buf[b].valid ==> Do(s, t).buf[b].valid
    ensures s.buf[b].valid && (!t.Modify? || t.b != b) ==> Do(s, t).buf[b].data == s.buf[b].data
    ensures t.Get? && t.id == s.buf[b].id && t.id.dev != 0 ==> t.b == b
  {
    hide Permutation, Recent, Without;
    if t.Get? && t.id == s.buf[b].id {
      assert Cached(s, t.id);
    }
  }

  lemma {:induction false} RunGood(run: seq<State>, steps: seq<Step>, n: nat)
    requires IsRun(run, steps) && n < |run|
    ensures Good(run[n])
  {
    hide Good, Enabled, Do;
    if n > 0 {
      RunGood(run, steps, n - 1);
      StepGood(run[n - 1], steps[n - 1]);
    } else {
      assert Good(run[0]);
    }
  }

  /** A buffer that stays referenced between two points of a run, for example by a pin of the log,
      stays the only buffer of its block, its data changes only by its holders, and whoever asks
      for the block gets this buffer. */
  lemma {:induction false} PinnedStays(run: seq<State>, steps: seq<Step>, from: nat, to: nat, b: nat)
    requires IsRun(run, steps) && from <= to < |run| && b < NBUF
    requires forall i | from <= i < to :: InUse(run[i], b)
    ensures b < |run[from].buf| && b < |run[to].buf|
    ensures run[to].buf[b].id == run[from].buf[b].id
    ensures run[from].buf[b].valid ==> run[to].buf[b].valid
    ensures run[from].buf[b].valid && (forall i | from <= i < to :: !steps[i].Modify? || steps[i].b != b) ==>
              run[to].buf[b].data == run[from].buf[b].data
    ensures run[from].buf[b].id.dev != 0 ==>
              && (forall i | 0 <= i < |run[to].buf| && run[to].buf[i].id == run[from].buf[b].id :: i == b)
              && (forall i | from <= i < to && steps[i].Get? && steps[i].id == run[from].buf[b].id :: steps[i].b == b)
  {
    hide Enabled, Do, Permutation, Recent;
    RunGood(run, steps, from);
    RunGood(run, steps, to);
    if from < to {
      PinnedStays(run, steps, from, to - 1, b);
      RunGood(run, steps, to - 1);
      StepKeeps(run[to - 1], steps[to - 1], b);
    }
  }

  // ---- what reads return ----------------------------------------------------------------------------------

  /** A buffer that loses its last reference holds what its disk block holds: it was written, or
      never changed. This is what callers of brelse and bunpin have to see to. */
  ghost predicate Careful(s: State, t: Step) {
    t.b < |s.buf| && (t.Release? || t.Unpin?) && s.buf[t.b].refcnt == 1 && s.buf[t.b].id.dev != 0 ==> Clean(s, t.b)
  }

  ghost predicate Clean(s: State, b: nat)
    requires b < |s.buf|
  {
    s.buf[b].valid ==> s.buf[b].data == OnDisk(s.disk, s.buf[b].id)
  }

  /** What a step makes of the contents that the clients see. */
  function After(s: State, t: Step, logical: map<Id, Block>): map<Id, Block>
    requires t.b < |s.buf|
  {
    if t.Modify? then logical[s.buf[t.b].id := t.data] else logical
  }

  /** The disks as the clients see them: the first ones with every modification made at once. */
  ghost function Logical(run: seq<State>, steps: seq<Step>, n: nat): map<Id, Block>
    requires |run| == |steps| + 1 && n <= |steps|
    requires forall i | 0 <= i < n :: steps[i].b < |run[i].buf|
  {
    if n == 0 then run[0].disk
    else
      After(run[n - 1], steps[n - 1], Logical(run, steps, n - 1))
  }

  ghost predicate BuffersAgree(s: State, logical: map<Id, Block>) {
    forall b | 0 <= b < |s.buf| && s.buf[b].id.dev != 0 && s.buf[b].valid ::
      s.buf[b].data == OnDisk(logical, s.buf[b].id)
  }

  ghost predicate NoneValid(s: State, id: Id) {
    forall b | 0 <= b < |s.buf| && s.buf[b].id == id :: !s.buf[b].valid
  }

  ghost predicate DiskAgrees(s: State, logical: map<Id, Block>) {
    forall id: Id | id.dev != 0 && NoneValid(s, id) :: OnDisk(s.disk, id) == OnDisk(logical, id)
  }

  /** Valid buffers hold the clients' contents; so does the disk where there is no valid buffer. */
  ghost predicate Agrees(s: State, logical: map<Id, Block>) {
    && BuffersAgree(s, logical) && DiskAgrees(s, logical)
    && forall b | 0 <= b < |s.buf| && s.buf[b].refcnt == 0 && s.buf[b].id.dev != 0 :: Clean(s, b)
  }

  lemma StepAgrees(s: State, t: Step, logical: map<Id, Block>)
    requires Good(s) && Enabled(s, t) && Agrees(s, logical) && Careful(s, t)
    ensures Agrees(Do(s, t), After(s, t, logical))
  {
    hide Permutation, Recent, Without, BuffersAgree, DiskAgrees;
    StepBuffersAgree(s, t, logical);
    StepDiskAgrees(s, t, logical);
    forall b | 0 <= b < |s.buf| && Do(s, t).buf[b].refcnt == 0 && Do(s, t).buf[b].id.dev != 0
      ensures Clean(Do(s, t), b)
    {
      assert Clean(s, b);
    }
  }

  lemma StepBuffersAgree(s: State, t: Step, logical: map<Id, Block>)
    requires Good(s) && Enabled(s, t) && BuffersAgree(s, logical) && DiskAgrees(s, logical)
    ensures BuffersAgree(Do(s, t), After(s, t, logical))
  {
    hide Permutation, Recent, Without;
    if t.Load? {
      forall i | 0 <= i < |s.buf| && s.buf[i].id == s.buf[t.b].id && s.buf[i].id.dev != 0 ensures !s.buf[i].valid {
        assert i == t.b;
      }
      assert s.buf[t.b].id.dev != 0 ==> NoneValid(s, s.buf[t.b].id);
    }
  }

  lemma StepDiskAgrees(s: State, t: Step, logical: map<Id, Block>)
    requires Good(s) && Enabled(s, t) && Agrees(s, logical) && Careful(s, t)
    ensures DiskAgrees(Do(s, t), After(s, t, logical))
  {
    hide Permutation, Recent, Without;
    var s' := Do(s, t);
    forall id: Id | id.dev != 0 && NoneValid(s', id)
      ensures OnDisk(s'.disk, id) == OnDisk(After(s, t, logical), id)
    {
      assert s'.buf[t.b].id == id ==> !s'.buf[t.b].valid;
      if !NoneValid(s, id) {
        var b :| 0 <= b < |s.buf| && s.buf[b].id == id && s.buf[b].valid;
        assert s'.buf[b] != s.buf[b];
        assert t == Get(t.id, b) && Clean(s, b);
      }
    }
  }

  /** Whatever the clients see before, they still see. */
  ghost predicate Preserves(s: State, s': State) {
    forall logical {:trigger Agrees(s', logical)} :: Agrees(s, logical) ==> Agrees(s', logical)
  }

  lemma StepPreserves(s: State, t: Step)
    requires Good(s) && Enabled(s, t) && Careful(s, t) && !t.Modify?
    ensures Preserves(s, Do(s, t))
  {
    hide Permutation, Unique, Recent, Careful, Agrees;
    forall logical | Agrees(s, logical) ensures Agrees(Do(s, t), logical) {
      StepAgrees(s, t, logical);
    }
  }

  /** What a client finds in a valid buffer. */
  lemma ReadsLogical(s: State, s': State, b: nat)
    requires Preserves(s, s') && b < |s'.buf| && s'.buf[b].valid && s'.buf[b].id.dev != 0
    ensures forall logical :: Agrees(s, logical) ==> s'.buf[b].data == OnDisk(logical, s'.buf[b].id)
  {
    forall logical | Agrees(s, logical) ensures s'.buf[b].data == OnDisk(logical, s'.buf[b].id) {
      assert Agrees(s', logical);
    }
  }

  /** Over any run whose last releases leave clean buffers behind, a valid buffer holds what was
      last stored into its block, also after the block left the cache and came back. */
  lemma {:induction false} ReadsSeeWrites(run: seq<State>, steps: seq<Step>, n: nat)
    requires IsRun(run, steps) && n < |run|
    requires forall i | 0 <= i < n :: Careful(run[i], steps[i])
    ensures Agrees(run[n], Logical(run, steps, n))
  {
    hide Good, Agrees, Do, Careful;
    if n > 0 {
      ReadsSeeWrites(run, steps, n - 1);
      RunGood(run, steps, n - 1);
      StepAgrees(run[n - 1], steps[n - 1], Logical(run, steps, n - 1));
    } else {
      FirstAgrees(run[0]);
    }
  }

  lemma FirstAgrees(s: State)
    requires Initial(s)
    ensures Agrees(s, s.disk)
  {
  }

  // ---- the code -------------------------------------------------------------------------------------------

  class Cache {
    const ring: ListMem
    var buf: seq<Buf>
    var disk: map<Id, Block>
    ghost var order: seq<int>
    ghost var stamp: seq<nat>
    ghost var clock: nat

    ghost function S(): State
      reads this
    {
      State(buf, disk, order, stamp, clock)
    }

    ghost predicate Valid()
      reads this, ring
    {
      Good(S()) && IsRing(ring.next, ring.prev, HEAD, order)
    }

    /** binit */
    constructor (disk: map<Id, Block>)
      ensures Valid() && fresh(ring) && Initial(S()) && this.disk == disk
    {
      ring := new ListMem();
      buf := seq(NBUF, _ => Buf(Id(0, 0), false, 0, Zero()));
      this.disk := disk;
      order, stamp, clock := [], seq(NBUF, i => i), NBUF;
      new;
      ring.Init(HEAD);
      var b := 0;
      while b < NBUF
        invariant 0 <= b <= NBUF && |order| == b && IsRing(ring.next, ring.prev, HEAD, order)
        invariant forall i | 0 <= i < b :: order[i] == b - 1 - i
        invariant buf == seq(NBUF, _ => Buf(Id(0, 0), false, 0, Zero())) && this.disk == disk
        invariant stamp == seq(NBUF, i => i) && clock == NBUF
        modifies this`order, ring
      {
        ring.Push(HEAD, b, order);
        order := [b] + order;
        b := b + 1;
      }
      forall x | 0 <= x < NBUF ensures x in order {
        assert order[NBUF - 1 - x] == x;
      }
    }

    /** bget up to the release of bcache.lock. */
    method Bget(id: Id) returns (b: nat, panicked: bool)
      requires Valid()
      modifies this`buf
      ensures Valid()
      ensures panicked <==> !Cached(old(S()), id) && AllBusy(old(S()))
      ensures panicked ==> buf == old(buf)
      ensures !panicked ==> Enabled(old(S()), Get(id, b)) && S() == Do(old(S()), Get(id, b))
      ensures !panicked ==> b < NBUF && buf[b].id == id && buf[b].refcnt > 0
      ensures !panicked && Cached(old(S()), id) ==> old(buf)[b].id == id
      ensures !panicked && !Cached(old(S()), id) ==> IsOldest(old(S()), b) && !buf[b].valid
      ensures Preserves(old(S()), S())
    {
      hide Permutation, Recent, Unique, IsOldest, IsRing, At, Cached, AllBusy, Enabled, Agrees;
      ghost var k := 0;
      Ends(ring.next, ring.prev, order);
      var p := ring.next[HEAD];
      while p != HEAD
        invariant 0 <= k <= NBUF && p == At(HEAD, order, k + 1) && buf == old(buf)
        invariant forall i | 0 <= i < k :: 0 <= order[i] < NBUF && buf[order[i]].id != id
        decreases NBUF - k
      {
        Inside(ring.next, ring.prev, order, k);
        if buf[p].id == id {
          HitEnabled(S(), id, p);
          buf := buf[p := buf[p].(refcnt := buf[p].refcnt + 1)];
          StepGood(old(S()), Get(id, p));
          StepPreserves(old(S()), Get(id, p));
          return p, false;
        }
        p, k := ring.next[p], k + 1;
      }
      if k < NBUF { Inside(ring.next, ring.prev, order, k); }
      NotCached(S(), id, k);
      k := NBUF;
      p := ring.prev[HEAD];
      while p != HEAD
        invariant 0 <= k <= NBUF && p == At(HEAD, order, k) && buf == old(buf)
        invariant forall i | k <= i < NBUF :: 0 <= order[i] < NBUF && buf[order[i]].refcnt > 0
        decreases k
      {
        Inside(ring.next, ring.prev, order, k - 1);
        if buf[p].refcnt == 0 {
          Oldest(S(), k - 1);
          OldestEnabled(S(), id, p);
          buf := buf[p := Buf(id, false, 1, buf[p].data)];
          StepGood(old(S()), Get(id, p));
          StepPreserves(old(S()), Get(id, p));
          return p, false;
        }
        p, k := ring.prev[p], k - 1;
      }
      if k > 0 { Inside(ring.next, ring.prev, order, k - 1); }
      EachBusy(S());
      b, panicked := 0, true;
    }

    /** bread, when nobody else holds the buffer's sleep lock in between. */
    method Bread(id: Id) returns (b: nat, panicked: bool)
      requires Valid()
      modifies this`buf
      ensures Valid()
      ensures panicked <==> !Cached(old(S()), id) && AllBusy(old(S()))
      ensures !panicked ==>
        && Enabled(old(S()), Get(id, b))
        && var s1 := Do(old(S()), Get(id, b)); S() == if s1.buf[b].valid then s1 else Do(s1, Load(b))
      ensures !panicked ==> b < NBUF && buf[b].id == id && buf[b].valid && buf[b].refcnt > 0
      ensures Preserves(old(S()), S())
      ensures !panicked && id.dev != 0 ==>
                forall logical :: Agrees(old(S()), logical) ==> buf[b].data == OnDisk(logical, id)
    {
      hide Permutation, Recent, Unique, IsRing, Agrees;
      b, panicked := Bget(id);
      if !panicked && !buf[b].valid {
        StepGood(S(), Load(b));
        StepPreserves(S(), Load(b));
        buf := buf[b := buf[b].(valid := true, data := OnDisk(disk, buf[b].id))];
      }
      if !panicked && id.dev != 0 { ReadsLogical(old(S()), S(), b); }
    }

    /** bwrite by the holder of the buffer. */
    method Bwrite(b: nat)
      requires Valid() && Enabled(S(), Save(b))
      modifies this`disk
      ensures Valid() && S() == Do(old(S()), Save(b)) && Clean(S(), b) && Preserves(old(S()), S())
    {
      StepPreserves(S(), Save(b));
      disk := disk[buf[b].id := buf[b].data];
    }

    /** The critical section of brelse. */
    method Brelse(b: nat)
      requires Valid() && Enabled(S(), Release(b))
      modifies this, ring
      ensures Valid() && S() == Do(old(S()), Release(b))
      ensures buf[b].refcnt == 0 ==>
                order[0] == b && forall i | 0 <= i < NBUF && i != b :: stamp[i] == old(stamp)[i] < stamp[b]
      ensures Careful(old(S()), Release(b)) ==> Preserves(old(S()), S())
    {
      hide Permutation, Recent, IsRing, Unique, Preserves, Careful;
      StepGood(S(), Release(b));
      if Careful(S(), Release(b)) { StepPreserves(S(), Release(b)); }
      buf := buf[b := buf[b].(refcnt := buf[b].refcnt - 1)];
      if buf[b].refcnt == 0 {
        ghost var k := Position(order, b);
        RestOrder(order, k);
        WithoutAt(order, k);
        ring.Remove(b, HEAD, order, k);
        ring.Push(HEAD, b, order[..k] + order[k + 1..]);
        order, stamp, clock := [b as int] + Without(order, b), stamp[b := clock], clock + 1;
      }
    }

    method Bpin(b: nat)
      requires Valid() && b < NBUF
      modifies this`buf
      ensures Valid() && S() == Do(old(S()), Pin(b)) && InUse(S(), b) && Preserves(old(S()), S())
    {
      StepGood(S(), Pin(b));
      StepPreserves(S(), Pin(b));
      buf := buf[b := buf[b].(refcnt := buf[b].refcnt + 1)];
    }

    method Bunpin(b: nat)
      requires Valid() && Enabled(S(), Unpin(b))
      modifies this`buf
      ensures Valid() && S() == Do(old(S()), Unpin(b))
      ensures Careful(old(S()), Unpin(b)) ==> Preserves(old(S()), S())
    {
      hide Preserves, Careful;
      StepGood(S(), Unpin(b));
      if Careful(S(), Unpin(b)) { StepPreserves(S(), Unpin(b)); }
      buf := buf[b := buf[b].(refcnt := buf[b].refcnt - 1)];
    }
  }

  lemma Ends(next: Links, prev: Links, order: seq<int>)
    requires IsRing(next, prev, HEAD, order) && Permutation(order)
    ensures |order| == NBUF
    ensures HEAD in next && next[HEAD] == At(HEAD, order, 1) && HEAD in prev && prev[HEAD] == At(HEAD, order, NBUF)
    ensures At(HEAD, order, NBUF + 1) == HEAD == At(HEAD, order, 0)
  {
    assert next[At(HEAD, order, 0)] == At(HEAD, order, 1);
    assert prev[At(HEAD, order, NBUF + 1)] == At(HEAD, order, NBUF);
  }

  /** The links of the k-th buffer on the ring. */
  lemma Inside(next: Links, prev: Links, order: seq<int>, k: nat)
    requires IsRing(next, prev, HEAD, order) && Permutation(order) && k < NBUF
    ensures At(HEAD, order, k + 1) == order[k] && 0 <= order[k] < NBUF
    ensures order[k] in next && next[order[k]] == At(HEAD, order, k + 2)
    ensures order[k] in prev && prev[order[k]] == At(HEAD, order, k)
  {
    assert order[k] in order;
    assert next[At(HEAD, order, k + 1)] == At(HEAD, order, k + 2);
    assert prev[At(HEAD, order, k + 1)] == At(HEAD, order, k);
  }

  lemma HitEnabled(s: State, id: Id, b: nat)
    requires Good(s) && b < NBUF && s.buf[b].id == id
    ensures Cached(s, id) && Enabled(s, Get(id, b))
  {
  }

  lemma OldestEnabled(s: State, id: Id, b: nat)
    requires Good(s) && b < NBUF && !Cached(s, id) && IsOldest(s, b)
    ensures s.buf[b].id != id && !AllBusy(s) && Enabled(s, Get(id, b))
  {
  }

  /** The search over the whole ring found nothing. */
  lemma NotCached(s: State, id: Id, k: nat)
    requires Good(s) && k == NBUF && forall i | 0 <= i < k :: 0 <= s.order[i] < NBUF && s.buf[s.order[i]].id != id
    ensures !Cached(s, id)
  {
    forall x | 0 <= x < |s.buf| ensures s.buf[x].id != id {
      assert x in s.order;
      var i :| 0 <= i < |s.order| && s.order[i] == x;
    }
  }

  /** The unreferenced buffer nearest to the end of the ring is the oldest one. */
  lemma Oldest(s: State, k: nat)
    requires Good(s) && k < NBUF && 0 <= s.order[k] < NBUF && s.buf[s.order[k]].refcnt == 0
    requires forall i | k < i < NBUF :: 0 <= s.order[i] < NBUF && s.buf[s.order[i]].refcnt > 0
    ensures IsOldest(s, s.order[k])
  {
    forall x | 0 <= x < |s.buf| && x != s.order[k] && s.buf[x].refcnt == 0 ensures s.stamp[x] > s.stamp[s.order[k]] {
      assert x in s.order;
      var i :| 0 <= i < |s.order| && s.order[i] == x;
      assert i < k;
    }
  }

  lemma EachBusy(s: State)
    requires Good(s) && forall i | 0 <= i < NBUF :: 0 <= s.order[i] < NBUF && s.buf[s.order[i]].refcnt > 0
    ensures AllBusy(s)
  {
    forall x | 0 <= x < |s.buf| ensures s.buf[x].refcnt > 0 {
      assert x in s.order;
      var i :| 0 <= i < |s.order| && s.order[i] == x;
    }
  }

  lemma Position(order: seq<int>, b: int) returns (k: nat)
    requires Permutation(order) && 0 <= b < NBUF
    ensures k < |order| == NBUF && order[k] == b && NoDup(order)
  {
    assert b in order;
    k :| 0 <= k < |order| && order[k] == b;
  }

  lemma {:induction false} WithoutAt(order: seq<int>, k: nat)
    requires k < |order| && NoDup(order)
    ensures Without(order, order[k]) == order[..k] + order[k + 1..]
  {
    if k > 0 {
      assert order[0] != order[k];
      WithoutAt(order[1..], k - 1);
      assert order[..k] + order[k + 1..] == [order[0]] + (order[1..][..k - 1] + order[1..][k..]);
    }
  }

  lemma RestOrder(order: seq<int>, k: nat)
    requires Permutation(order) && k < |order|
    ensures order[k] !in order[..k] + order[k + 1..]
  {
  }

  /** Moving a buffer to the front with a new stamp keeps the ring a permutation in order of stamps. */
  lemma FrontOrder(order: seq<int>, stamp: seq<nat>, k: nat, now: nat)
    requires Permutation(order) && Recent(order, stamp) && |stamp| == NBUF && k < |order|
    requires forall i | 0 <= i < NBUF :: stamp[i] < now
    ensures var order' := [order[k]] + (order[..k] + order[k + 1..]);
            Permutation(order') && Recent(order', stamp[order[k] := now])
  {
    assert order[k] in order;
    FrontPermutation(order, k);
    FrontRecent(order, stamp, k, now);
  }

  lemma FrontAt(order: seq<int>, k: nat)
    requires k < |order|
    ensures var order' := [order[k]] + (order[..k] + order[k + 1..]);
            |order'| == |order|
            && forall i | 0 <= i < |order'| :: order'[i] == order[if i == 0 then k else if i <= k then i - 1 else i]
  {
  }

  lemma FrontPermutation(order: seq<int>, k: nat)
    requires Permutation(order) && k < |order|
    ensures Permutation([order[k]] + (order[..k] + order[k + 1..]))
  {
    var order' := [order[k]] + (order[..k] + order[k + 1..]);
    FrontAt(order, k);
    forall x | 0 <= x < NBUF ensures x in order' {
      assert x in order;
      var i :| 0 <= i < |order| && order[i] == x;
      assert order'[if i == k then 0 else if i < k then i + 1 else i] == x;
    }
  }

  lemma FrontRecent(order: seq<int>, stamp: seq<nat>, k: nat, now: nat)
    requires NoDup(order) && Recent(order, stamp) && k < |order| && 0 <= order[k] < |stamp|
    requires forall i | 0 <= i < |stamp| :: stamp[i] < now
    ensures Recent([order[k]] + (order[..k] + order[k + 1..]), stamp[order[k] := now])
  {
    FrontAt(order, k);
  }
}
