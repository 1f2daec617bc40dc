// The log over the buffer cache: log_write() pins a buffer and install_trans() unpins it
// (xv6/kernel/log.c over xv6/kernel/bio.c). Holders of a buffer write or log what they modified
// before they let go of it.

module LogCache {
  import opened Common
  import opened FsBlock
  import opened LogDisk
  import BC = BufferCache

  const LOGDEV := 1

  /** The cache; the references that processes hold; the buffers modified since they were last written
      or logged; the logged blocks, with the copies that write_log() made and the number that
      install_trans() has installed; and the contents that the clients see. */
  datatype State = State(
    c: BC.State, holds: seq<nat>, unsaved: set<nat>, lh: seq<nat>, copies: seq<Block>, installed: nat, committing: bool,
    logical: map<BC.Id, Block>)

  /** Copy: write_log() puts a logged block into the log. Install: install_trans() writes it home and
      unpins it. */
  datatype Step =
    | Get(id: BC.Id, b: nat)
    | Load(b: nat)
    | Modify(b: nat, data: Block)
    | Save(b: nat)
    | Release(b: nat)
    | LogWrite(b: nat)
    | StartCommit
    | Copy(b: nat)
    | Install(b: nat)
    | Finish

  /** Logged and not installed yet. */
  predicate Pinned(s: State, n: nat) { s.installed <= |s.lh| && n in s.lh[s.installed..] }

  predicate PinnedId(s: State, id: BC.Id) { id.dev == LOGDEV && Pinned(s, id.blockno) }

  predicate Held(s: State, b: nat) { b < |s.c.buf| && b < |s.holds| && s.holds[b] > 0 && s.c.buf[b].valid }

  predicate HeldFor(s: State, b: nat, k: nat) { Held(s, b) && k < |s.lh| && s.c.buf[b].id == BC.Id(LOGDEV, s.lh[k]) }

  predicate Refs(s: State, b: nat) { b < |s.c.buf| == |s.c.stamp| == BC.NBUF && s.c.buf[b].refcnt > 0 }

  /** What callers have to see to: a buffer is used by those who hold it, no logged block is modified
      during a commit, and what was modified is written or logged before it is released. That Release
      and Install find a reference is no condition; see ReferenceThere. */
  ghost predicate Enabled(s: State, t: Step) {
    match t
    case Get(id, b) => b < |s.holds| && BC.Enabled(s.c, BC.Get(id, b))
    case Load(b) => b < |s.holds| && s.holds[b] > 0 && BC.Enabled(s.c, BC.Load(b))
    case Modify(b, _) => Held(s, b) && Refs(s, b) && (s.committing ==> !PinnedId(s, s.c.buf[b].id))
    case Save(b) => Held(s, b) && Refs(s, b)
    case Release(b) => b < |s.holds| && s.holds[b] > 0 && Refs(s, b) && b !in s.unsaved
    case LogWrite(b) => Held(s, b) && Refs(s, b) && !s.committing && s.c.buf[b].id.dev == LOGDEV && |s.lh| < LOGSIZE
    case StartCommit => !s.committing
    case Copy(b) => s.committing && HeldFor(s, b, |s.copies|)
    case Install(b) => s.committing && |s.copies| == |s.lh| && Refs(s, b) && HeldFor(s, b, s.installed)
    case Finish => s.committing && s.installed == |s.lh|
  }

  /** A step of the cache. */
  function Cache(s: State, t: BC.Step): State
    requires Refs(s, t.b) || t.Get?
    requires t.b < |s.c.buf| == |s.c.stamp|
  {
    s.(c := BC.Do(s.c, t), logical := BC.After(s.c, t, s.logical))
  }

  /** memmove, bwrite and bunpin in install_trans(). */
  function Written(s: State, b: nat, data: Block): State
    requires Refs(s, b)
  {
    Cache(Cache(s, BC.Modify(b, data)), BC.Save(b))
  }

  function Do(s: State, t: Step): State
    requires Enabled(s, t)
  {
    match t
    case Get(id, b) => Cache(s, BC.Get(id, b)).(holds := s.holds[b := s.holds[b] + 1])
    case Load(b) => Cache(s, BC.Load(b))
    case Modify(b, data) => Cache(s, BC.Modify(b, data)).(unsaved := s.unsaved + {b})
    case Save(b) => Cache(s, BC.Save(b)).(unsaved := s.unsaved - {b})
    case Release(b) => Cache(s, BC.Release(b)).(holds := s.holds[b := s.holds[b] - 1])
    case LogWrite(b) =>
      var n, s1 := s.c.buf[b].id.blockno, s.(unsaved := s.unsaved - {b});
      if n in s.lh then s1 else Cache(s1, BC.Pin(b)).(lh := s.lh + [n])
    case StartCommit => s.(committing := true)
    case Copy(b) => s.(copies := s.copies + [s.c.buf[b].data])
    case Install(b) =>
      Cache(Written(s, b, s.copies[s.installed]), BC.Unpin(b)).(installed := s.installed + 1, unsaved := s.unsaved - {b})
    case Finish => s.(committing := false, lh := [], copies := [], installed := 0)
  }

  // ---- the invariant -------------------------------------------------------------------------------------

  /** A buffer is referenced by its holders and by at most one pin. */
  ghost predicate RefAt(s: State, b: nat)
    requires |s.c.buf| == |s.holds|
  {
    b < |s.c.buf| ==> s.c.buf[b].refcnt == s.holds[b] + if PinnedId(s, s.c.buf[b].id) then 1 else 0
  }

  ghost predicate InBuffer(s: State, n: nat, b: nat) { b < |s.c.buf| && s.c.buf[b].id == BC.Id(LOGDEV, n) && s.c.buf[b].valid }

  /** A pinned block is in the cache. */
  ghost predicate PinAt(s: State, n: nat) { Pinned(s, n) ==> exists b :: InBuffer(s, n, b) }

  /** What differs from the disk is pinned, or its holder is not done with it. */
  ghost predicate SettledAt(s: State, b: nat) {
    b < |s.c.buf| && s.c.buf[b].id.dev != 0 ==> BC.Clean(s.c, b) || PinnedId(s, s.c.buf[b].id) || b in s.unsaved
  }

  /** The copy in the log of a block that is not installed yet is what its buffer holds. */
  ghost predicate CopyAt(s: State, k: nat, b: nat) {
    s.installed <= k < |s.copies| && k < |s.lh| && InBuffer(s, s.lh[k], b) ==> s.c.buf[b].data == s.copies[k]
  }

  ghost predicate Lists(s: State) {
    && NoDup(s.lh) && s.installed <= |s.copies| <= |s.lh|
    && (!s.committing ==> s.installed == 0 && s.copies == [])
    && forall b | b in s.unsaved :: b < |s.holds| && s.holds[b] > 0
  }

  ghost predicate Good(s: State) {
    && BC.Good(s.c) && |s.holds| == BC.NBUF && Lists(s) && BC.Agrees(s.c, s.logical)
    && (forall b {:trigger RefAt(s, b)} :: RefAt(s, b)) && (forall n {:trigger PinAt(s, n)} :: PinAt(s, n))
    && (forall b {:trigger SettledAt(s, b)} :: SettledAt(s, b)) && (forall k, b {:trigger CopyAt(s, k, b)} :: CopyAt(s, k, b))
  }

  /** Those who hold a buffer, and the pin of a logged block, have a reference to give back. */
  lemma ReferenceThere(s: State, b: nat)
    requires Good(s) && b < |s.holds| && (s.holds[b] > 0 || PinnedId(s, s.c.buf[b].id))
    ensures Refs(s, b)
  {
    hide BC.Permutation, BC.Recent, BC.Unique, BC.Agrees;
    assert RefAt(s, b);
  }

  // ---- the steps keep it ------------------------------------------------------------------------------------

  /** The last release leaves a clean buffer behind, so the cache may hand it to another block. */
  lemma ReleaseCareful(s: State, b: nat)
    requires Good(s) && Enabled(s, Release(b))
    ensures BC.Careful(s.c, BC.Release(b))
  {
    hide BC.Permutation, BC.Recent, BC.Unique, BC.Agrees;
    assert RefAt(s, b) && SettledAt(s, b);
  }

  lemma InstallCareful(s: State, b: nat, data: Block)
    requires Refs(s, b)
    ensures BC.Careful(Written(s, b, data).c, BC.Unpin(b))
  {
  }

  lemma StepCache(s: State, t: Step)
    requires Good(s) && Enabled(s, t)
    ensures BC.Good(Do(s, t).c) && BC.Agrees(Do(s, t).c, Do(s, t).logical)
  {
    hide BC.Permutation, BC.Recent, BC.Unique, BC.Agrees, BC.Do, BC.Careful, BC.After;
    match t
    case Get(id, b) => CacheKeeps(s, BC.Get(id, b)) by { NotLast(s, BC.Get(id, b)); }
    case Load(b) => CacheKeeps(s, BC.Load(b)) by { NotLast(s, BC.Load(b)); }
    case Modify(b, data) => CacheKeeps(s, BC.Modify(b, data)) by { NotLast(s, BC.Modify(b, data)); }
    case Save(b) => CacheKeeps(s, BC.Save(b)) by { NotLast(s, BC.Save(b)); }
    case Release(b) => CacheKeeps(s, BC.Release(b)) by { ReleaseCareful(s, b); }
    case LogWrite(b) => CacheKeeps(s, BC.Pin(b)) by { NotLast(s, BC.Pin(b)); }
    case Install(b) => InstallKeeps(s, b);
    case _ =>
  }

  lemma NotLast(s: State, t: BC.Step)
    requires !t.Release? && !t.Unpin?
    ensures t.b < |s.c.buf| ==> BC.Careful(s.c, t)
  {
  }

  lemma CacheKeeps(s: State, t: BC.Step)
    requires BC.Good(s.c) && BC.Enabled(s.c, t) && BC.Agrees(s.c, s.logical) && BC.Careful(s.c, t)
    requires Refs(s, t.b) || t.Get?
    ensures BC.Good(Cache(s, t).c) && BC.Agrees(Cache(s, t).c, Cache(s, t).logical)
  {
    hide BC.Permutation, BC.Recent, BC.Unique, BC.Agrees, BC.Do, BC.After;
    BC.StepGood(s.c, t);
    BC.StepAgrees(s.c, t, s.logical);
  }

  lemma InstallKeeps(s: State, b: nat)
    requires Good(s) && Enabled(s, Install(b))
    ensures BC.Good(Do(s, Install(b)).c) && BC.Agrees(Do(s, Install(b)).c, Do(s, Install(b)).logical)
  {
    hide BC.Permutation, BC.Recent, BC.Unique, BC.Agrees, BC.Careful;
    var data := s.copies[s.installed];
    var s1 := Cache(s, BC.Modify(b, data));
    var s2 := Cache(s1, BC.Save(b));
    NotLast(s, BC.Modify(b, data));
    CacheKeeps(s, BC.Modify(b, data));
    NotLast(s1, BC.Save(b));
    CacheKeeps(s1, BC.Save(b));
    InstallCareful(s, b, data);
    CacheKeeps(s2, BC.Unpin(b));
  }

  /** What a step does to one buffer: only Get gives it to another block, and only when it is not
      referenced. */
  lemma BufferKept(s: State, t: Step, b: nat)
    requires Good(s) && Enabled(s, t) && b < BC.NBUF
    ensures |Do(s, t).c.buf| == |s.c.buf| == BC.NBUF == |Do(s, t).holds|
    ensures s.c.buf[b].refcnt > 0 ==> Do(s, t).c.buf[b].id == s.c.buf[b].id && (s.c.buf[b].valid ==> Do(s, t).c.buf[b].valid)
    ensures Do(s, t).c.buf[b].id != s.c.buf[b].id ==> t == Get(Do(s, t).c.buf[b].id, b) && !BC.Cached(s.c, t.id)
    ensures s.c.buf[b].valid && Do(s, t).c.buf[b].data != s.c.buf[b].data ==> (t.Modify? || t.Install?) && t.b == b
  {
    hide BC.Permutation, BC.Recent, BC.Unique, BC.Agrees, BC.IsOldest;
    if t.Get? && !BC.Cached(s.c, t.id) { Unreferenced(s.c, t.b); }
  }

  lemma Unreferenced(c: BC.State, b: nat)
    requires BC.IsOldest(c, b)
    ensures c.buf[b].refcnt == 0
  {
  }

  /** Which blocks are pinned afterwards. */
  lemma PinsAfter(s: State, t: Step, n: nat)
    requires Lists(s) && Enabled(s, t)
    ensures t.LogWrite? ==> (Pinned(Do(s, t), n) <==> Pinned(s, n) || n == s.c.buf[t.b].id.blockno)
    ensures t.Install? ==> (Pinned(Do(s, t), n) <==> Pinned(s, n) && n != s.lh[s.installed])
    ensures t.Finish? ==> !Pinned(Do(s, t), n) && !Pinned(s, n)
    ensures !t.LogWrite? && !t.Install? ==> (Pinned(Do(s, t), n) <==> Pinned(s, n))
  {
  }

  lemma StepLists(s: State, t: Step)
    requires Good(s) && Enabled(s, t)
    ensures Lists(Do(s, t)) && |Do(s, t).holds| == BC.NBUF
  {
    hide BC.Permutation, BC.Recent, BC.Unique, BC.Agrees, BC.Do;
  }

  /** A pinned block has one buffer. */
  lemma OneBuffer(s: State, n: nat, b: nat)
    requires Good(s) && Pinned(s, n)
    ensures BC.Cached(s.c, BC.Id(LOGDEV, n))
    ensures b < BC.NBUF && s.c.buf[b].id == BC.Id(LOGDEV, n) ==> InBuffer(s, n, b) && s.c.buf[b].refcnt > 0
  {
    hide BC.Permutation, BC.Recent, BC.Agrees;
    assert PinAt(s, n);
    var x :| InBuffer(s, n, x);
    if b < BC.NBUF && s.c.buf[b].id == BC.Id(LOGDEV, n) {
      assert x == b;
      assert RefAt(s, b);
    }
  }

  lemma StepPins(s: State, t: Step, n: nat)
    requires Good(s) && Enabled(s, t)
    ensures PinAt(Do(s, t), n)
  {
    hide BC.Agrees, BC.Do, BC.Good, BC.Cached, Do, Pinned;
    Sizes(s);
    PinsAfter(s, t, n);
    if Pinned(Do(s, t), n) {
      var b: nat;
      if Pinned(s, n) {
        assert PinAt(s, n);
        b :| InBuffer(s, n, b);
        OneBuffer(s, n, b);
      } else {
        b := t.b;
      }
      BufferKept(s, t, b);
      assert InBuffer(Do(s, t), n, b);
    }
  }

  lemma Sizes(s: State)
    requires Good(s)
    ensures |s.c.buf| == |s.c.stamp| == |s.holds| == BC.NBUF
  {
    hide BC.Permutation, BC.Recent, BC.Unique, BC.Agrees;
  }

  /** How the references of a buffer change. */
  lemma RefsAfter(s: State, t: Step, b: nat)
    requires Good(s) && Enabled(s, t) && b < BC.NBUF
    ensures |Do(s, t).c.buf| == |s.c.buf| == BC.NBUF == |Do(s, t).holds| == |s.holds|
    ensures var s', u, v := Do(s, t), s.c.buf[b], Do(s, t).c.buf[b];
            if t.Get? && t.b == b then
              s'.holds[b] == s.holds[b] + 1 && v.refcnt == if u.id == t.id then u.refcnt + 1 else 1
            else
              && s'.holds[b] == (if t.Release? && t.b == b then s.holds[b] - 1 else s.holds[b])
              && v.refcnt == (if t.LogWrite? && t.b == b && u.id.blockno !in s.lh then u.refcnt + 1
                              else if (t.Release? || t.Install?) && t.b == b then u.refcnt - 1 else u.refcnt)
  {
    hide BC.Permutation, BC.Recent, BC.Unique, BC.Agrees, BC.IsOldest, BC.Cached;
  }

  lemma StepRefs(s: State, t: Step, b: nat)
    requires Good(s) && Enabled(s, t)
    ensures |Do(s, t).c.buf| == |Do(s, t).holds| && RefAt(Do(s, t), b)
  {
    hide BC.Agrees, BC.Do, BC.Good, Do, Pinned;
    Sizes(s);
    BufferKept(s, t, 0);
    if b < BC.NBUF {
      BufferKept(s, t, b);
      RefsAfter(s, t, b);
      assert RefAt(s, b);
      PinsAfter(s, t, s.c.buf[b].id.blockno);
      if Do(s, t).c.buf[b].id != s.c.buf[b].id {
        FreshBuffer(s, t, b);
        PinsAfter(s, t, t.id.blockno);
      } else if t.LogWrite? || t.Install? {
        if s.c.buf[t.b].id == s.c.buf[b].id { SameBuffer(s, t.b, b); }
        PinnedIsLogged(s, s.c.buf[b].id.blockno);
      }
    }
  }

  /** A buffer that Get gives to another block was free, and the new block is not pinned. */
  lemma FreshBuffer(s: State, t: Step, b: nat)
    requires Good(s) && t.Get? && t.b == b && b < BC.NBUF && Enabled(s, t) && s.c.buf[b].id != t.id
    ensures s.holds[b] == 0 && s.c.buf[b].refcnt == 0 && !PinnedId(s, t.id)
  {
    hide BC.Permutation, BC.Recent, BC.Unique, BC.Agrees, Pinned;
    if BC.Cached(s.c, t.id) {
      assert false;
    }
    Unreferenced(s.c, b);
    assert RefAt(s, b);
    if PinnedId(s, t.id) { OneBuffer(s, t.id.blockno, 0); }
  }

  lemma SameBuffer(s: State, a: nat, b: nat)
    requires Good(s) && a < BC.NBUF && b < BC.NBUF && s.c.buf[a].id.dev != 0 && s.c.buf[a].id == s.c.buf[b].id
    ensures a == b
  {
    hide BC.Permutation, BC.Recent, BC.Agrees;
  }

  lemma PinnedIsLogged(s: State, n: nat)
    requires Lists(s)
    ensures Pinned(s, n) ==> n in s.lh
    ensures !s.committing ==> (Pinned(s, n) <==> n in s.lh)
    ensures s.installed < |s.lh| ==> Pinned(s, s.lh[s.installed])
  {
  }

  /** Buffers and disk blocks that a step leaves alone stay as clean as they were. */
  lemma CleanKept(s: State, t: Step, b: nat)
    requires Good(s) && Enabled(s, t) && b < BC.NBUF && s.c.buf[b].id.dev != 0 && BC.Clean(s.c, b)
    requires t.Modify? ==> t.b != b
    ensures |Do(s, t).c.buf| == BC.NBUF
    ensures Do(s, t).c.buf[b].id == s.c.buf[b].id ==> BC.Clean(Do(s, t).c, b)
  {
    hide BC.Permutation, BC.Recent, BC.Agrees, BC.IsOldest, BC.Cached, Pinned;
  }

  lemma CleanMade(s: State, t: Step, b: nat)
    requires Good(s) && Enabled(s, t) && b < BC.NBUF && (t.Save? || t.Install? || t.Load?) && t.b == b
    ensures |Do(s, t).c.buf| == BC.NBUF && BC.Clean(Do(s, t).c, b)
  {
    hide BC.Permutation, BC.Recent, BC.Agrees, BC.IsOldest, BC.Cached, Pinned;
  }

  lemma StepSettled(s: State, t: Step, b: nat)
    requires Good(s) && Enabled(s, t)
    ensures SettledAt(Do(s, t), b)
  {
    hide BC.Agrees, BC.Do, BC.Good, BC.Clean, BC.After, Pinned;
    Sizes(s);
    BufferKept(s, t, 0);
    if b < BC.NBUF && Do(s, t).c.buf[b].id.dev != 0 {
      BufferKept(s, t, b);
      assert SettledAt(s, b);
      PinsAfter(s, t, s.c.buf[b].id.blockno);
      if Do(s, t).c.buf[b].id != s.c.buf[b].id {
        NewClean(s, t, b);
      } else {
        if BC.Clean(s.c, b) && !(t.Modify? && t.b == b) { CleanKept(s, t, b); }
        if (t.Save? || t.Install? || t.Load?) && t.b == b { CleanMade(s, t, b); }
        if t.Install? && s.c.buf[t.b].id == s.c.buf[b].id { SameBuffer(s, t.b, b); }
      }
    }
  }

  lemma NewClean(s: State, t: Step, b: nat)
    requires Good(s) && Enabled(s, t) && b < BC.NBUF && Do(s, t).c.buf[b].id != s.c.buf[b].id
    ensures |Do(s, t).c.buf| == BC.NBUF && BC.Clean(Do(s, t).c, b)
  {
    hide BC.Permutation, BC.Recent, BC.Agrees, BC.IsOldest, BC.Cached, Pinned;
  }

  lemma StepCopies(s: State, t: Step, k: nat, b: nat)
    requires Good(s) && Enabled(s, t)
    ensures CopyAt(Do(s, t), k, b)
  {
    hide BC.Agrees, BC.Do, BC.Good, BC.Clean, BC.After, Pinned;
    Sizes(s);
    BufferKept(s, t, 0);
    StepLists(s, t);
    var s' := Do(s, t);
    if s'.installed <= k < |s'.copies| && k < |s'.lh| && b < BC.NBUF && InBuffer(s', s'.lh[k], b) {
      BufferKept(s, t, b);
      ListsKept(s, t);
      StillPinned(s, k);
      if s'.c.buf[b].id != s.c.buf[b].id { FreshBuffer(s, t, b); }
      OneBuffer(s, s.lh[k], b);
      assert CopyAt(s, k, b);
      if t.Copy? && k == |s.copies| {
        SameBuffer(s, t.b, b);
        CopyAppends(s, t);
      } else if t.Install? && t.b == b {
        NotTwice(s, k);
      }
    }
  }

  lemma ListsKept(s: State, t: Step)
    requires Good(s) && Enabled(s, t)
    ensures !t.Finish? ==> s.lh <= Do(s, t).lh && s.copies <= Do(s, t).copies && s.installed <= Do(s, t).installed
    ensures Do(s, t).copies != [] ==> Do(s, t).lh == s.lh
  {
    hide BC.Agrees, BC.Do, BC.Good;
  }

  lemma CopyAppends(s: State, t: Step)
    requires t.Copy? && Enabled(s, t)
    ensures Do(s, t).c == s.c && Do(s, t).copies == s.copies + [s.c.buf[t.b].data]
  {
  }

  lemma StillPinned(s: State, k: nat)
    requires s.installed <= k < |s.lh|
    ensures Pinned(s, s.lh[k])
  {
    assert s.lh[s.installed..][k - s.installed] == s.lh[k];
  }

  lemma NotTwice(s: State, k: nat)
    requires Lists(s) && s.installed < k < |s.lh|
    ensures s.lh[k] != s.lh[s.installed]
  {
  }

  lemma StepGood(s: State, t: Step)
    requires Good(s) && Enabled(s, t)
    ensures Good(Do(s, t))
  {
    hide BC.Good, BC.Agrees, Enabled, Do, Lists, RefAt, PinAt, SettledAt, CopyAt;
    StepCache(s, t);
    StepLists(s, t);
    Sizes(s);
    StepRefs(s, t, 0);
    forall b ensures RefAt(Do(s, t), b) { StepRefs(s, t, b); }
    forall n ensures PinAt(Do(s, t), n) { StepPins(s, t, n); }
    forall b ensures SettledAt(Do(s, t), b) { StepSettled(s, t, b); }
    forall k, b ensures CopyAt(Do(s, t), k, b) { StepCopies(s, t, k, b); }
  }

  // ---- runs -------------------------------------------------------------------------------------------------

  ghost predicate Initial(s: State) {
    && BC.Initial(s.c) && s.holds == seq(BC.NBUF, _ => 0) && s.unsaved == {} && s.lh == [] && s.copies == []
    && s.installed == 0 && !s.committing && s.logical == s.c.disk
  }

  ghost predicate IsRun(run: seq<State>, steps: seq<Step>) {
    && |run| == |steps| + 1 && Initial(run[0])
    && forall i | 0 <= i < |steps| :: Enabled(run[i], steps[i]) && run[i + 1] == Do(run[i], steps[i])
  }

  lemma InitialGood(s: State)
    requires Initial(s)
    ensures Good(s)
  {
    hide BC.Permutation, BC.Recent, BC.Agrees;
    BC.FirstAgrees(s.c);
  }

  lemma {:induction false} RunGood(run: seq<State>, steps: seq<Step>, n: nat)
    requires IsRun(run, steps) && n < |run|
    ensures Good(run[n])
  {
    hide Good, Enabled, Do, Initial;
    if n > 0 {
      RunGood(run, steps, n - 1);
      StepGood(run[n - 1], steps[n - 1]);
    } else {
      InitialGood(run[0]);
    }
  }

  /** From its log_write() until install_trans() reaches it a block stays in the same buffer, its only
      one, and the buffer holds what the clients wrote. */
  lemma {:induction false} LoggedStays(run: seq<State>, steps: seq<Step>, from: nat, to: nat, n: nat, b: nat)
    requires IsRun(run, steps) && from <= to < |run| && InBuffer(run[from], n, b)
    requires forall i | from <= i <= to :: Pinned(run[i], n)
    ensures InBuffer(run[to], n, b) && run[to].c.buf[b].refcnt > 0
    ensures run[to].c.buf[b].data == BC.OnDisk(run[to].logical, BC.Id(LOGDEV, n))
    ensures forall x | InBuffer(run[to], n, x) :: x == b
  {
    hide Good, Enabled, Do, Initial, Pinned;
    RunGood(run, steps, to);
    if from < to {
      LoggedStays(run, steps, from, to - 1, n, b);
      RunGood(run, steps, to - 1);
      Sizes(run[to - 1]);
      BufferKept(run[to - 1], steps[to - 1], b);
    }
    Sizes(run[to]);
    OneBuffer(run[to], n, b);
    forall x | InBuffer(run[to], n, x) ensures x == b { SameBuffer(run[to], x, b); }
    BufferAgrees(run[to], b);
  }

  lemma BufferAgrees(s: State, b: nat)
    requires Good(s) && b < BC.NBUF && |s.c.buf| == BC.NBUF && s.c.buf[b].id.dev != 0 && s.c.buf[b].valid
    ensures s.c.buf[b].data == BC.OnDisk(s.logical, s.c.buf[b].id)
  {
    hide BC.Good, BC.DiskAgrees;
  }

  /** In every run all valid buffers hold what was last written into their blocks, and so does the disk
      where there is no valid buffer, although logged blocks go home late. */
  lemma RunAgrees(run: seq<State>, steps: seq<Step>, n: nat)
    requires IsRun(run, steps) && n < |run|
    ensures BC.Agrees(run[n].c, run[n].logical)
    ensures forall i | 0 <= i < n :: !steps[i].Modify? && !steps[i].Install? ==> run[i + 1].logical == run[i].logical
  {
    hide BC.Good, BC.Agrees, BC.Do;
    RunGood(run, steps, n);
  }

  /** install_trans() brings the clients' contents to the home block, changes nothing that they see,
      and leaves a clean buffer to the cache. */
  lemma InstallWritesBack(s: State, b: nat)
    requires Good(s) && Enabled(s, Install(b))
    ensures var id, s' := BC.Id(LOGDEV, s.lh[s.installed]), Do(s, Install(b));
            && BC.OnDisk(s'.c.disk, id) == BC.OnDisk(s.logical, id) && !PinnedId(s', id)
            && (forall x :: BC.OnDisk(s'.logical, x) == BC.OnDisk(s.logical, x))
            && b < |s'.c.buf| && s'.c.buf[b].data == s.c.buf[b].data
  {
    hide BC.Good, BC.Agrees, Pinned;
    Sizes(s);
    assert CopyAt(s, s.installed, b);
    BufferAgrees(s, b);
    PinsAfter(s, Install(b), s.lh[s.installed]);
  }
}
