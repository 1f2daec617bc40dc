// xv6/kernel/vm.c: user memory. Pages are conserved, on failure paths too: every page is
// free, or a table of exactly one tree, or mapped by exactly one user address.

module UserMemory {
  import opened Common
  import opened Sv39
  import opened PageAlloc
  import opened VirtualMemory

  function RoundUp(sz: nat): nat { (sz + PGSIZE - 1) / PGSIZE }  // PGROUNDUP, in pages

  // ---- accounting ---------------------------------------------------------------------------

  /** The page that `vpn` is mapped to. */
  ghost function Frame(mem: Memory, root: nat, vpn: nat): nat {
    var e := Lookup(mem, root, vpn);
    if e.None? then 0 else Ppn(e.value)
  }

  ghost function Frames(mem: Memory, root: nat, first: nat, n: nat): set<nat> {
    set v: nat | first <= v < first + n :: Frame(mem, root, v)
  }

  /** A page number below MAXVA with a leaf entry: what uvmunmap accepts. */
  ghost predicate IsLeaf(mem: Memory, root: nat, v: nat) {
    v < NVPN && Lookup(mem, root, v).Some? && Flags(Lookup(mem, root, v).value) != PTE_V
  }

  /** The leaves among the `n` page numbers from `first` map distinct pages, owned by this table
      alone: neither free nor used as tables. */
  ghost predicate OwnsLeaves(low: nat, mem: Memory, root: nat, sh: Shape, free: seq<nat>, first: nat, n: nat) {
    && (forall v: nat | first <= v < first + n && IsLeaf(mem, root, v) ::
          InRam(low, Frame(mem, root, v)) && Frame(mem, root, v) !in sh.Values && Frame(mem, root, v) !in free)
    && (forall v: nat, w: nat | first <= v < w < first + n && IsLeaf(mem, root, v) && IsLeaf(mem, root, w) ::
          Frame(mem, root, v) != Frame(mem, root, w))
  }

  /** All of the `n` page numbers from `first` are leaves, with pages owned by this table. */
  ghost predicate OwnsRange(low: nat, mem: Memory, root: nat, sh: Shape, free: seq<nat>, first: nat, n: nat) {
    && (forall v: nat | first <= v < first + n :: IsLeaf(mem, root, v))
    && OwnsLeaves(low, mem, root, sh, free, first, n)
  }

  /** `k` page numbers from `first` were taken out of the map. */
  ghost predicate Removed(m0: Memory, m1: Memory, root: nat, first: nat, k: nat) {
    forall v: nat | v < NVPN ::
      Lookup(m1, root, v) == if first <= v < first + k then None else Lookup(m0, root, v)
  }

  /** Only the pages of `touched` may have changed. */
  ghost predicate Untouched(m0: Memory, m1: Memory, touched: set<nat>) {
    m1.Keys == m0.Keys && forall p :: p in m0 && p !in touched ==> m1[p] == m0[p]
  }

  /** Leaves are owned as long as their translations stay and their frames are not handed out. */
  lemma LeavesFrame(low: nat, m0: Memory, m1: Memory, root: nat, s0: Shape, s1: Shape, f0: seq<nat>, f1: seq<nat>,
                    first: nat, n: nat)
    requires OwnsLeaves(low, m0, root, s0, f0, first, n)
    requires forall v: nat | first <= v < first + n && v < NVPN :: Lookup(m1, root, v) == Lookup(m0, root, v)
    requires forall v: nat | first <= v < first + n && IsLeaf(m0, root, v) ::
               Frame(m0, root, v) !in s1.Values && Frame(m0, root, v) !in f1
    ensures OwnsLeaves(low, m1, root, s1, f1, first, n)
    ensures forall v: nat | first <= v < first + n ::
              IsLeaf(m1, root, v) == IsLeaf(m0, root, v)
              && (IsLeaf(m0, root, v) ==> Frame(m1, root, v) == Frame(m0, root, v))
  {
    hide Lookup, IsLeaf, Frame;
    forall v: nat | first <= v < first + n
      ensures IsLeaf(m1, root, v) == IsLeaf(m0, root, v)
      ensures IsLeaf(m0, root, v) ==> Frame(m1, root, v) == Frame(m0, root, v)
    {
      LeafFrame(m0, m1, root, v);
    }
  }

  lemma LeafFrame(m0: Memory, m1: Memory, root: nat, v: nat)
    requires v < NVPN ==> Lookup(m1, root, v) == Lookup(m0, root, v)
    ensures IsLeaf(m1, root, v) == IsLeaf(m0, root, v)
    ensures IsLeaf(m0, root, v) ==> Frame(m1, root, v) == Frame(m0, root, v)
  {
    hide Lookup;
  }

  lemma OwnsFrame(low: nat, m0: Memory, m1: Memory, root: nat, s0: Shape, s1: Shape, f0: seq<nat>, f1: seq<nat>,
                  first: nat, n: nat)
    requires OwnsRange(low, m0, root, s0, f0, first, n)
    requires forall v: nat | first <= v < first + n :: Lookup(m1, root, v) == Lookup(m0, root, v)
    requires forall v: nat | first <= v < first + n :: Frame(m0, root, v) !in s1.Values && Frame(m0, root, v) !in f1
    ensures OwnsRange(low, m1, root, s1, f1, first, n)
    ensures Frames(m1, root, first, n) == Frames(m0, root, first, n)
  {
    hide Lookup, IsLeaf, Frame, OwnsLeaves;
    LeavesFrame(low, m0, m1, root, s0, s1, f0, f1, first, n);
    forall v: nat | first <= v < first + n ensures Frame(m1, root, v) == Frame(m0, root, v) {
      assert IsLeaf(m0, root, v);
    }
  }

  // ---- uvmunmap -----------------------------------------------------------------------------

  /** One turn of the loop in uvmunmap; it panics unless it finds a leaf. */
  method UnmapPage(mm: PhysMem, root: nat, vpn: nat, doFree: bool, ghost sh: Shape) returns (panicked: bool)
    requires Has(mm, root, sh)
    requires doFree && IsLeaf(mm.mem, root, vpn) ==>
      var p := Frame(mm.mem, root, vpn);
      InRam(mm.low, p) && p !in sh.Values && p !in mm.free
    modifies mm
    ensures panicked <==> !IsLeaf(old(mm.mem), root, vpn)
    ensures panicked ==> mm.mem == old(mm.mem) && mm.free == old(mm.free)
    ensures Has(mm, root, sh)
    ensures !panicked ==> Removed(old(mm.mem), mm.mem, root, vpn, 1)
    ensures !panicked ==> mm.free == if doFree then [Frame(old(mm.mem), root, vpn)] + old(mm.free) else old(mm.free)
    ensures !panicked ==>
      Untouched(old(mm.mem), mm.mem, sh.Values + if doFree then {Frame(old(mm.mem), root, vpn)} else {})
  {
    hide Has, At, Px, Lookup, Frame, Removed, Untouched;
    if vpn >= NVPN {
      return true;  // walk
    }
    PageNo(vpn);
    ghost var same;
    var page, i;
    page, i, same := Walk(mm, root, vpn * PGSIZE, false, sh);
    FoundEntry(mm, root, sh, vpn);
    if page == 0 {
      return true;  // walk
    }
    var pte := mm.mem[page][i];
    if !Valid(pte) || Flags(pte) == PTE_V {
      return true;  // not mapped, not a leaf
    }
    FrameOf(mm.mem, root, vpn);
    DropLeaf(mm, root, vpn, page, i, doFree, sh);
    panicked := false;
  }

  /** Freeing the page of a leaf and clearing its entry. */
  method DropLeaf(mm: PhysMem, root: nat, vpn: nat, page: nat, i: nat, doFree: bool, ghost sh: Shape)
    requires Has(mm, root, sh) && vpn < NVPN && Lookup(mm.mem, root, vpn).Some?
    requires At(0, vpn) in sh && page == sh[At(0, vpn)] && i == Px(0, vpn)
    requires doFree ==>
      var p := Frame(mm.mem, root, vpn);
      InRam(mm.low, p) && p !in sh.Values && p !in mm.free
    modifies mm
    ensures Has(mm, root, sh) && Removed(old(mm.mem), mm.mem, root, vpn, 1)
    ensures mm.free == if doFree then [Frame(old(mm.mem), root, vpn)] + old(mm.free) else old(mm.free)
    ensures Untouched(old(mm.mem), mm.mem, sh.Values + if doFree then {Frame(old(mm.mem), root, vpn)} else {})
  {
    hide FreeList, At, Px, Lookup, Frame, Tree, InRam, Removed;
    FrameOf(mm.mem, root, vpn);
    LeafHere(mm.low, mm.mem, root, sh, vpn);
    TablesIn(mm.low, mm.mem, root, sh);
    ghost var m0 := mm.mem;
    if doFree {
      var pa := Ppn(mm.mem[page][i]);
      mm.Kfree(pa);
      TreeFrame(mm.low, m0, mm.mem, root, sh);
    }
    ghost var m1 := mm.mem;
    assert page in sh.Values && page !in ToSet(mm.free);
    mm.Store(page, i, 0);
    SetLeafTree(mm.low, m1, root, sh, At(0, vpn), i, 0);
    Cleared(mm.low, m0, m1, root, sh, vpn);
  }

  lemma TablesIn(low: nat, mem: Memory, root: nat, sh: Shape)
    requires Tree(low, mem, root, sh)
    ensures forall p :: p in sh.Values ==> p in mem
  {
  }

  lemma Cleared(low: nat, m0: Memory, m1: Memory, root: nat, sh: Shape, vpn: nat)
    requires Tree(low, m1, root, sh) && vpn < NVPN && At(0, vpn) in sh && sh[At(0, vpn)] in m1
    requires forall v: nat :: Lookup(m1, root, v) == Lookup(m0, root, v)
    ensures Removed(m0, SetEntry(m1, sh[At(0, vpn)], Px(0, vpn), 0), root, vpn, 1)
  {
    hide Lookup, At, Px, Tree, SetEntry;
    forall v: nat | v < NVPN
      ensures Lookup(SetEntry(m1, sh[At(0, vpn)], Px(0, vpn), 0), root, v)
              == if v == vpn then None else Lookup(m0, root, v)
    {
      SetLeafLookup(low, m1, root, sh, vpn, 0, v);
    }
  }

  lemma PageNo(vpn: nat)
    ensures vpn * PGSIZE / PGSIZE == vpn && vpn * PGSIZE % PGSIZE == 0
  {
  }

  lemma LeafHere(low: nat, mem: Memory, root: nat, sh: Shape, vpn: nat)
    requires Tree(low, mem, root, sh) && Lookup(mem, root, vpn).Some?
    ensures At(0, vpn) in sh && At(0, vpn).Lowest? && sh[At(0, vpn)] in mem
    ensures Lookup(mem, root, vpn) == Some(mem[sh[At(0, vpn)]][Px(0, vpn)])
  {
    TableIs(low, mem, root, sh, vpn);
  }

  /** What walk's answer says about the entry of `vpn`. */
  lemma FoundEntry(mm: PhysMem, root: nat, sh: Shape, vpn: nat)
    requires Has(mm, root, sh)
    ensures At(0, vpn) in sh ==> sh[At(0, vpn)] in mm.mem && sh[At(0, vpn)] != 0
    ensures Lookup(mm.mem, root, vpn) ==
            if At(0, vpn) in sh && Valid(mm.mem[sh[At(0, vpn)]][Px(0, vpn)])
            then Some(mm.mem[sh[At(0, vpn)]][Px(0, vpn)]) else None
  {
    TableIs(mm.low, mm.mem, root, sh, vpn);
  }

  /** uvmunmap panics exactly when it is asked for an address that is not page aligned or meets a
      page number that is not a leaf; it stops at the first of these, `k` pages on. The pages up
      to there leave the map and, if asked, their frames are given back once. */
  method UvmUnmap(mm: PhysMem, root: nat, va: nat, npages: nat, doFree: bool, ghost sh: Shape)
    returns (panicked: bool, ghost k: nat)
    requires Has(mm, root, sh)
    requires doFree ==> OwnsLeaves(mm.low, mm.mem, root, sh, mm.free, va / PGSIZE, npages)
    modifies mm
    ensures panicked <==>
            va % PGSIZE != 0
            || exists v: nat :: va / PGSIZE <= v < va / PGSIZE + npages && !IsLeaf(old(mm.mem), root, v)
    ensures k <= npages && (!panicked ==> k == npages)
    ensures va % PGSIZE != 0 ==> k == 0
    ensures panicked && va % PGSIZE == 0 ==> k < npages && !IsLeaf(old(mm.mem), root, va / PGSIZE + k)
    ensures Has(mm, root, sh) && Removed(old(mm.mem), mm.mem, root, va / PGSIZE, k)
    ensures var freed := if doFree then Frames(old(mm.mem), root, va / PGSIZE, k) else {};
            && ToSet(mm.free) == ToSet(old(mm.free)) + freed
            && |mm.free| == |old(mm.free)| + (if doFree then k else 0)
            && Untouched(old(mm.mem), mm.mem, sh.Values + freed)
  {
    hide Has, Lookup, UnmapState, IsLeaf;
    var first := va / PGSIZE;
    var n := 0;
    k := 0;
    UnmapStart(mm.low, mm.mem, mm.free, root, sh, first, npages, doFree);
    UnmapReady(mm.low, mm.mem, mm.free, mm.mem, mm.free, root, sh, first, 0, npages, doFree);
    if va % PGSIZE != 0 {
      return true, 0;
    }
    while n < npages
      invariant 0 <= n <= npages && Has(mm, root, sh)
      invariant UnmapState(mm.low, old(mm.mem), old(mm.free), mm.mem, mm.free, root, sh, first, n, npages, doFree)
    {
      ghost var m1, f1 := mm.mem, mm.free;
      UnmapReady(mm.low, old(mm.mem), old(mm.free), m1, f1, root, sh, first, n, npages, doFree);
      panicked := UnmapPage(mm, root, first + n, doFree, sh);
      if panicked {
        return true, n;
      }
      UnmapStep(mm.low, old(mm.mem), old(mm.free), m1, f1, mm.mem, mm.free, root, sh, first, n, npages, doFree);
      n := n + 1;
    }
    UnmapReady(mm.low, old(mm.mem), old(mm.free), mm.mem, mm.free, root, sh, first, npages, npages, doFree);
    panicked, k := false, npages;
  }

  /** After `k` turns of the loop in uvmunmap. */
  ghost predicate UnmapState(low: nat, m0: Memory, f0: seq<nat>, m: Memory, f: seq<nat>, root: nat, sh: Shape,
                             first: nat, k: nat, n: nat, doFree: bool)
    requires k <= n
  {
    && Removed(m0, m, root, first, k)
    && (forall v: nat | first <= v < first + k :: IsLeaf(m0, root, v))
    && (doFree ==> OwnsLeaves(low, m, root, sh, f, first + k, n - k))
    && Freed(m0, f0, m, f, root, sh, first, k, doFree)
  }

  /** The frames of the first `k` pages went to the free list, if asked. */
  ghost predicate Freed(m0: Memory, f0: seq<nat>, m: Memory, f: seq<nat>, root: nat, sh: Shape,
                        first: nat, k: nat, doFree: bool)
  {
    var freed := if doFree then Frames(m0, root, first, k) else {};
    && ToSet(f) == ToSet(f0) + freed
    && |f| == |f0| + (if doFree then k else 0)
    && Untouched(m0, m, sh.Values + freed)
  }

  lemma UnmapStart(low: nat, m0: Memory, f0: seq<nat>, root: nat, sh: Shape, first: nat, n: nat, doFree: bool)
    requires doFree ==> OwnsLeaves(low, m0, root, sh, f0, first, n)
    ensures UnmapState(low, m0, f0, m0, f0, root, sh, first, 0, n, doFree)
  {
    hide Lookup, Frame, OwnsLeaves, IsLeaf;
    assert Frames(m0, root, first, 0) == {};
  }

  lemma UnmapReady(low: nat, m0: Memory, f0: seq<nat>, m: Memory, f: seq<nat>, root: nat, sh: Shape,
                   first: nat, k: nat, n: nat, doFree: bool)
    requires k <= n && UnmapState(low, m0, f0, m, f, root, sh, first, k, n, doFree)
    ensures k < n ==> IsLeaf(m, root, first + k) == IsLeaf(m0, root, first + k)
    ensures k < n && doFree && IsLeaf(m, root, first + k) ==>
              var p := Frame(m, root, first + k);
              InRam(low, p) && p !in sh.Values && p !in f
    ensures forall v: nat | first <= v < first + k :: IsLeaf(m0, root, v)
    ensures Removed(m0, m, root, first, k)
    ensures var freed := if doFree then Frames(m0, root, first, k) else {};
            && ToSet(f) == ToSet(f0) + freed
            && |f| == |f0| + (if doFree then k else 0)
            && Untouched(m0, m, sh.Values + freed)
  {
    hide Lookup, Frame, IsLeaf;
    LeafFrame(m0, m, root, first + k);
  }

  lemma UnmapStep(low: nat, m0: Memory, f0: seq<nat>, m1: Memory, f1: seq<nat>, m2: Memory, f2: seq<nat>,
                  root: nat, sh: Shape, first: nat, k: nat, n: nat, doFree: bool)
    requires k < n && UnmapState(low, m0, f0, m1, f1, root, sh, first, k, n, doFree)
    requires IsLeaf(m1, root, first + k) && Removed(m1, m2, root, first + k, 1)
    requires f2 == if doFree then [Frame(m1, root, first + k)] + f1 else f1
    requires Untouched(m1, m2, sh.Values + if doFree then {Frame(m1, root, first + k)} else {})
    ensures UnmapState(low, m0, f0, m2, f2, root, sh, first, k + 1, n, doFree)
  {
    hide Lookup, Frame, IsLeaf, OwnsLeaves, Freed, Removed, Untouched;
    RemovedOne(m0, m1, m2, root, first, k);
    FreedOne(m0, f0, m1, f1, m2, f2, root, sh, first, k, doFree);
    if doFree {
      OwnsRest(low, m1, m2, root, sh, f1, first + k, n - k);
    }
  }

  lemma RemovedOne(m0: Memory, m1: Memory, m2: Memory, root: nat, first: nat, k: nat)
    requires Removed(m0, m1, root, first, k) && Removed(m1, m2, root, first + k, 1)
    ensures Removed(m0, m2, root, first, k + 1)
    ensures IsLeaf(m1, root, first + k) ==>
              IsLeaf(m0, root, first + k) && Frame(m0, root, first + k) == Frame(m1, root, first + k)
  {
    hide Lookup;
  }

  lemma FreedOne(m0: Memory, f0: seq<nat>, m1: Memory, f1: seq<nat>, m2: Memory, f2: seq<nat>, root: nat, sh: Shape,
                 first: nat, k: nat, doFree: bool)
    requires Freed(m0, f0, m1, f1, root, sh, first, k, doFree)
    requires Frame(m0, root, first + k) == Frame(m1, root, first + k)
    requires f2 == if doFree then [Frame(m1, root, first + k)] + f1 else f1
    requires Untouched(m1, m2, sh.Values + if doFree then {Frame(m1, root, first + k)} else {})
    ensures Freed(m0, f0, m2, f2, root, sh, first, k + 1, doFree)
  {
    hide Frame, Frames, ToSet;
    if doFree {
      ToSetCons(Frame(m1, root, first + k), f1);
      FramesSnoc(m0, m1, root, first, k);
    }
  }

  lemma FramesSnoc(m0: Memory, m1: Memory, root: nat, first: nat, k: nat)
    requires Frame(m1, root, first + k) == Frame(m0, root, first + k)
    ensures Frames(m0, root, first, k + 1) == Frames(m0, root, first, k) + {Frame(m1, root, first + k)}
  {
    hide Frame;
    var a, b := Frames(m0, root, first, k + 1), Frames(m0, root, first, k) + {Frame(m1, root, first + k)};
    forall x | x in b ensures x in a {
      if x == Frame(m1, root, first + k) {
        assert x == Frame(m0, root, first + k);
      } else {
        var v: nat :| first <= v < first + k && Frame(m0, root, v) == x;
      }
    }
  }

  lemma OwnsRest(low: nat, m1: Memory, m2: Memory, root: nat, sh: Shape, f1: seq<nat>, first: nat, n: nat)
    requires OwnsLeaves(low, m1, root, sh, f1, first, n) && n > 0
    requires IsLeaf(m1, root, first) && Removed(m1, m2, root, first, 1)
    ensures OwnsLeaves(low, m2, root, sh, [Frame(m1, root, first)] + f1, first + 1, n - 1)
  {
    hide Lookup, IsLeaf, Frame;
    LeavesFrame(low, m1, m2, root, sh, sh, f1, [Frame(m1, root, first)] + f1, first + 1, n - 1);
  }

  lemma ToSetCons(p: nat, s: seq<nat>)
    ensures ToSet([p] + s) == {p} + ToSet(s)
  {
  }

  // ---- growing and shrinking ------------------------------------------------------------------

  /** From (m0, f0, s0) to (m1, f1, s1): the pages of `used` were handed out, other free pages
      became tables, nothing was lost, and no page outside the tables and the free list changed. */
  ghost predicate Accounts(m0: Memory, f0: seq<nat>, s0: Shape, m1: Memory, f1: seq<nat>, s1: Shape, used: set<nat>) {
    && s1.Values + ToSet(f1) + used == s0.Values + ToSet(f0)
    && used !! s1.Values && used !! ToSet(f1)
    && (forall n :: n in s0 ==> n in s1 && s1[n] == s0[n])
    && Untouched(m0, m1, s0.Values + ToSet(f0))
  }

  lemma AccountsTrans(m0: Memory, f0: seq<nat>, s0: Shape, m1: Memory, f1: seq<nat>, s1: Shape, u1: set<nat>,
                      m2: Memory, f2: seq<nat>, s2: Shape, u2: set<nat>)
    requires Accounts(m0, f0, s0, m1, f1, s1, u1) && Accounts(m1, f1, s1, m2, f2, s2, u2)
    ensures Accounts(m0, f0, s0, m2, f2, s2, u1 + u2)
    ensures forall p :: p in u1 && p in m1 ==> p in m2 && m2[p] == m1[p]
  {
    forall p | p in u1 ensures p !in s1.Values + ToSet(f1) {}
    assert s1.Values + ToSet(f1) <= s0.Values + ToSet(f0);
  }

  const UPERM := PTE_W + PTE_X + PTE_R + PTE_U

  /** One turn of the loop in uvmalloc, and in uvmcopy with other contents and flags: take a
      page, fill it with `data`, map it at `vpn`; give it back when a table is missing. */
  method GrowPage(mm: PhysMem, root: nat, vpn: nat, data: Page, perm: nat, ghost sh: Shape)
    returns (ok: bool, ghost sh': Shape, ghost page: nat)
    requires Has(mm, root, sh) && vpn < NVPN && perm < 1024
    modifies mm
    ensures Has(mm, root, sh')
    ensures ok ==> Mapped(old(mm.mem), mm.mem, root, vpn, 1, page, perm)
    ensures ok ==> InRam(mm.low, page) && page in mm.mem && mm.mem[page] == data
    ensures !ok ==> forall v: nat | v < NVPN :: Lookup(mm.mem, root, v) == Lookup(old(mm.mem), root, v)
    ensures Accounts(old(mm.mem), old(mm.free), sh, mm.mem, mm.free, sh', if ok then {page} else {})
  {
    ghost var m0, f0 := mm.mem, mm.free;
    FreeHead(mm);
    var mem := mm.Kalloc();
    sh', page := sh, mem;
    if mem == 0 {
      return false, sh', 0;
    }
    KallocAccounts(mm, m0, f0, root, sh, mem);
    mm.StorePage(mem, data);
    KallocAccounts(mm, m0, f0, root, sh, mem);
    ghost var m1, f1 := mm.mem, mm.free;
    ok, sh' := MapPage(mm, root, vpn, mem, perm, sh);
    BuiltAccounts(mm.low, m1, f1, sh, mm.mem, mm.free, sh', root);
    AccountsTrans(m0, f0, sh, m1, f1, sh, {mem}, mm.mem, mm.free, sh', {});
    if !ok {
      ghost var m2, f2 := mm.mem, mm.free;
      mm.Kfree(mem);
      KfreeAccounts(mm, m0, f0, sh, m2, f2, root, sh', mem);
    }
  }

  lemma KallocAccounts(mm: PhysMem, m0: Memory, f0: seq<nat>, root: nat, sh: Shape, page: nat)
    requires mm.Valid() && Tree(mm.low, m0, root, sh) && sh.Values !! ToSet(f0) && NoDup(f0)
    requires f0 != [] && page == f0[0] && mm.free == f0[1..] && page in m0 && page in mm.mem
    requires mm.mem == m0[page := mm.mem[page]]
    ensures Has(mm, root, sh) && page !in mm.free && page !in sh.Values
    ensures Accounts(m0, f0, sh, mm.mem, mm.free, sh, {page})
    ensures forall v: nat :: Lookup(mm.mem, root, v) == Lookup(m0, root, v)
  {
    hide Lookup, FreeList;
    assert f0 == [page] + f0[1..];
    assert page in ToSet(f0);
    TreeFrame(mm.low, m0, mm.mem, root, sh);
  }

  lemma BuiltAccounts(low: nat, m0: Memory, f0: seq<nat>, s0: Shape, m1: Memory, f1: seq<nat>, s1: Shape, root: nat)
    requires Built(low, m0, f0, s0, m1, f1, s1, root)
    ensures Accounts(m0, f0, s0, m1, f1, s1, {})
  {
  }

  lemma KfreeAccounts(mm: PhysMem, m0: Memory, f0: seq<nat>, s0: Shape, m2: Memory, f2: seq<nat>, root: nat,
                      sh: Shape, page: nat)
    requires mm.Valid() && Tree(mm.low, m2, root, sh) && sh.Values !! ToSet(f2)
    requires Accounts(m0, f0, s0, m2, f2, sh, {page})
    requires mm.free == [page] + f2 && page in m2 && page in mm.mem && mm.mem == m2[page := mm.mem[page]]
    ensures Has(mm, root, sh)
    ensures Accounts(m0, f0, s0, mm.mem, mm.free, sh, {})
    ensures forall v: nat :: Lookup(mm.mem, root, v) == Lookup(m2, root, v)
  {
    ToSetCons(page, f2);
    TreeFrame(mm.low, m2, mm.mem, root, sh);
    assert page in s0.Values + ToSet(f0);
  }

  /** Number of pages from `newsz` up to `oldsz`, both rounded up. */
  function Excess(oldsz: nat, newsz: nat): nat {
    if RoundUp(newsz) < RoundUp(oldsz) then RoundUp(oldsz) - RoundUp(newsz) else 0
  }

  /** Some page number from RoundUp(newsz) up to RoundUp(oldsz) is not a leaf. */
  ghost predicate DeallocPanics(mem: Memory, root: nat, oldsz: nat, newsz: nat) {
    newsz < oldsz && exists v: nat :: RoundUp(newsz) <= v < RoundUp(oldsz) && !IsLeaf(mem, root, v)
  }

  /** uvmdealloc. Its comment lets `oldsz` exceed the process size; see DeallocPanicsIff. */
  method UvmDealloc(mm: PhysMem, root: nat, oldsz: nat, newsz: nat, ghost sh: Shape)
    returns (r: nat, panicked: bool)
    requires Has(mm, root, sh)
    requires OwnsLeaves(mm.low, mm.mem, root, sh, mm.free, RoundUp(newsz), Excess(oldsz, newsz))
    modifies mm
    ensures panicked <==> DeallocPanics(old(mm.mem), root, oldsz, newsz)
    ensures Has(mm, root, sh)
    ensures !panicked ==>
      var freed := Frames(old(mm.mem), root, RoundUp(newsz), Excess(oldsz, newsz));
      && r == (if newsz >= oldsz then oldsz else newsz)
      && Removed(old(mm.mem), mm.mem, root, RoundUp(newsz), Excess(oldsz, newsz))
      && ToSet(mm.free) == ToSet(old(mm.free)) + freed
      && |mm.free| == |old(mm.free)| + Excess(oldsz, newsz)
      && Untouched(old(mm.mem), mm.mem, sh.Values + freed)
  {
    hide Has, Lookup, Frame, IsLeaf, OwnsLeaves;
    RoundedUp(oldsz, newsz);
    panicked, r := false, newsz;
    if newsz >= oldsz {
      return oldsz, false;
    }
    if RoundUp(newsz) < RoundUp(oldsz) {
      PageNo(RoundUp(newsz));
      ghost var k;
      panicked, k := UvmUnmap(mm, root, RoundUp(newsz) * PGSIZE, RoundUp(oldsz) - RoundUp(newsz), true, sh);
    }
  }

  lemma RoundedUp(oldsz: nat, newsz: nat)
    ensures newsz >= oldsz ==> RoundUp(newsz) >= RoundUp(oldsz)
  {
  }

  /** For a process of size `sz`, of whose pages below `oldsz` exactly those below RoundUp(sz) are
      mapped: shrinking panics if and only if it reaches for pages beyond the size. */
  lemma DeallocPanicsIff(mem: Memory, root: nat, sz: nat, oldsz: nat, newsz: nat)
    requires forall v: nat | v < RoundUp(oldsz) :: IsLeaf(mem, root, v) <==> v < RoundUp(sz)
    ensures DeallocPanics(mem, root, oldsz, newsz) <==>
            newsz < oldsz && RoundUp(sz) < RoundUp(oldsz) && RoundUp(newsz) < RoundUp(oldsz)
  {
    hide IsLeaf, RoundUp;
    if newsz < oldsz && RoundUp(sz) < RoundUp(oldsz) && RoundUp(newsz) < RoundUp(oldsz) {
      assert !IsLeaf(mem, root, RoundUp(oldsz) - 1);
    }
  }

  type Perm = p: nat | 2 <= p < 1024 witness 2

  /** After `k` pages were grown at `first`: page `v` holds data(v) and is mapped with perm(v). */
  ghost predicate GrowState(low: nat, m0: Memory, f0: seq<nat>, s0: Shape, m: Memory, f: seq<nat>, s: Shape,
                            root: nat, first: nat, k: nat, data: nat -> Page, perm: nat -> Perm)
  {
    && (forall v: nat | v < NVPN && !(first <= v < first + k) :: Lookup(m, root, v) == Lookup(m0, root, v))
    && OwnsRange(low, m, root, s, f, first, k)
    && Accounts(m0, f0, s0, m, f, s, Frames(m, root, first, k))
    && forall v: nat | first <= v < first + k ::
         && Lookup(m, root, v) == Some(MkPte(Frame(m, root, v), perm(v)))
         && Frame(m, root, v) in m && m[Frame(m, root, v)] == data(v)
  }

  lemma GrowStart(mm: PhysMem, root: nat, sh: Shape, first: nat, data: nat -> Page, perm: nat -> Perm)
    requires Has(mm, root, sh)
    ensures GrowState(mm.low, mm.mem, mm.free, sh, mm.mem, mm.free, sh, root, first, 0, data, perm)
  {
    hide Lookup, Frame;
    assert Frames(mm.mem, root, first, 0) == {};
  }

  /** One more owned page at the end of an owned range. */
  lemma OwnsSnoc(low: nat, m1: Memory, f1: seq<nat>, s1: Shape, m2: Memory, f2: seq<nat>, s2: Shape,
                 root: nat, first: nat, k: nat, page: nat, perm: Perm)
    requires OwnsRange(low, m1, root, s1, f1, first, k) && first + k < NVPN
    requires Mapped(m1, m2, root, first + k, 1, page, perm) && InRam(low, page)
    requires Accounts(m1, f1, s1, m2, f2, s2, {page})
    ensures OwnsRange(low, m2, root, s2, f2, first, k + 1)
    ensures Frames(m2, root, first, k + 1) == Frames(m1, root, first, k) + {page}
    ensures Frame(m2, root, first + k) == page
  {
    hide Lookup, IsLeaf, Frame, OwnsRange, Mapped, Accounts;
    NewLeaf(m1, m2, root, first + k, page, perm);
    FramesApart(low, m1, f1, s1, m2, f2, s2, root, first, k, page);
    OwnsFrame(low, m1, m2, root, s1, s2, f1, f2, first, k);
    FramesSnoc(m2, m2, root, first, k);
    OwnsExtend(low, m2, root, s2, f2, first, k);
  }

  lemma NewLeaf(m1: Memory, m2: Memory, root: nat, vpn: nat, page: nat, perm: Perm)
    requires Mapped(m1, m2, root, vpn, 1, page, perm) && vpn < NVPN
    ensures IsLeaf(m2, root, vpn) && Frame(m2, root, vpn) == page
    ensures forall v: nat | v < vpn :: Lookup(m2, root, v) == Lookup(m1, root, v)
  {
    hide Lookup;
    assert Lookup(m2, root, vpn) == Some(MkPte(page, perm));
  }

  /** The page handed out is none of the frames owned before, and these are handed out no more. */
  lemma FramesApart(low: nat, m1: Memory, f1: seq<nat>, s1: Shape, m2: Memory, f2: seq<nat>, s2: Shape,
                    root: nat, first: nat, k: nat, page: nat)
    requires OwnsRange(low, m1, root, s1, f1, first, k) && Accounts(m1, f1, s1, m2, f2, s2, {page})
    ensures page !in s2.Values && page !in f2 && page !in Frames(m1, root, first, k)
    ensures forall v: nat | first <= v < first + k :: Frame(m1, root, v) !in s2.Values && Frame(m1, root, v) !in f2
  {
    hide Lookup, IsLeaf, Frame, Untouched;
    assert page in {page} && page !in ToSet(f2);
    assert page in s1.Values + ToSet(f1);
    forall v: nat | first <= v < first + k
      ensures Frame(m1, root, v) !in s2.Values && Frame(m1, root, v) !in f2 && Frame(m1, root, v) != page
    {
      assert IsLeaf(m1, root, v);
      assert Frame(m1, root, v) !in s1.Values + ToSet(f1);
      assert Frame(m1, root, v) !in s2.Values + ToSet(f2) + {page};
    }
  }

  lemma OwnsExtend(low: nat, m: Memory, root: nat, sh: Shape, f: seq<nat>, first: nat, k: nat)
    requires OwnsRange(low, m, root, sh, f, first, k) && IsLeaf(m, root, first + k)
    requires var p := Frame(m, root, first + k);
             InRam(low, p) && p !in sh.Values && p !in f && p !in Frames(m, root, first, k)
    ensures OwnsRange(low, m, root, sh, f, first, k + 1)
  {
    hide IsLeaf, Frame, InRam;
    forall v: nat | first <= v < first + k ensures Frame(m, root, v) != Frame(m, root, first + k) {
      assert Frame(m, root, v) in Frames(m, root, first, k);
    }
  }

  lemma GrowStep(low: nat, m0: Memory, f0: seq<nat>, s0: Shape, m1: Memory, f1: seq<nat>, s1: Shape,
                 m2: Memory, f2: seq<nat>, s2: Shape, root: nat, first: nat, k: nat,
                 data: nat -> Page, perm: nat -> Perm, page: nat)
    requires first + k < NVPN && GrowState(low, m0, f0, s0, m1, f1, s1, root, first, k, data, perm)
    requires Mapped(m1, m2, root, first + k, 1, page, perm(first + k))
    requires InRam(low, page) && page in m2 && m2[page] == data(first + k)
    requires Accounts(m1, f1, s1, m2, f2, s2, {page})
    ensures GrowState(low, m0, f0, s0, m2, f2, s2, root, first, k + 1, data, perm)
  {
    hide Lookup, Frame, OwnsRange, Accounts;
    var used := Frames(m1, root, first, k);
    OwnsSnoc(low, m1, f1, s1, m2, f2, s2, root, first, k, page, perm(first + k));
    AccountsTrans(m0, f0, s0, m1, f1, s1, used, m2, f2, s2, {page});
    forall v: nat | first <= v < first + k
      ensures Lookup(m2, root, v) == Lookup(m1, root, v)
      ensures Frame(m2, root, v) == Frame(m1, root, v) && Frame(m1, root, v) in used
    {
      FrameOfLookup(m1, m2, root, v);
    }
    assert Lookup(m2, root, first + k) == Some(MkPte(page, perm(first + k)));
  }

  lemma FrameOfLookup(m1: Memory, m2: Memory, root: nat, v: nat)
    requires Lookup(m2, root, v) == Lookup(m1, root, v)
    ensures Frame(m2, root, v) == Frame(m1, root, v)
  {
  }

  /** A failed attempt to grow by one more page. */
  lemma GrowStuck(low: nat, m0: Memory, f0: seq<nat>, s0: Shape, m1: Memory, f1: seq<nat>, s1: Shape,
                  m2: Memory, f2: seq<nat>, s2: Shape, root: nat, first: nat, k: nat,
                  data: nat -> Page, perm: nat -> Perm)
    requires first + k < NVPN && GrowState(low, m0, f0, s0, m1, f1, s1, root, first, k, data, perm)
    requires forall v: nat | v < NVPN :: Lookup(m2, root, v) == Lookup(m1, root, v)
    requires Accounts(m1, f1, s1, m2, f2, s2, {})
    ensures GrowState(low, m0, f0, s0, m2, f2, s2, root, first, k, data, perm)
  {
    hide Lookup, Frame, Accounts, OwnsRange, IsLeaf;
    var used := Frames(m1, root, first, k);
    forall v: nat | first <= v < first + k ensures Frame(m1, root, v) in used {}
    FramesKept(low, m1, f1, s1, m2, f2, s2, root, first, k);
    OwnsFrame(low, m1, m2, root, s1, s2, f1, f2, first, k);
    forall v: nat | first <= v < first + k ensures Frame(m2, root, v) == Frame(m1, root, v) {
      FrameOfLookup(m1, m2, root, v);
    }
    AccountsTrans(m0, f0, s0, m1, f1, s1, used, m2, f2, s2, {});
    assert used + {} == used;
  }

  lemma FramesKept(low: nat, m1: Memory, f1: seq<nat>, s1: Shape, m2: Memory, f2: seq<nat>, s2: Shape,
                   root: nat, first: nat, k: nat)
    requires OwnsRange(low, m1, root, s1, f1, first, k) && Accounts(m1, f1, s1, m2, f2, s2, {})
    ensures forall v: nat | first <= v < first + k :: Frame(m1, root, v) !in s2.Values && Frame(m1, root, v) !in f2
  {
    hide Lookup, IsLeaf, Frame, Untouched;
    forall v: nat | first <= v < first + k
      ensures Frame(m1, root, v) !in s2.Values && Frame(m1, root, v) !in f2
    {
      assert IsLeaf(m1, root, v);
      assert Frame(m1, root, v) !in s1.Values + ToSet(f1);
      assert Frame(m1, root, v) !in s2.Values + ToSet(f2);
    }
  }

  /** Unmapping everything that was grown leaves the old map, and the tables that were added. */
  lemma GrowUndone(low: nat, m0: Memory, f0: seq<nat>, s0: Shape, m1: Memory, f1: seq<nat>, s1: Shape,
                   m2: Memory, f2: seq<nat>, root: nat, first: nat, k: nat, data: nat -> Page, perm: nat -> Perm)
    requires first + k <= NVPN && GrowState(low, m0, f0, s0, m1, f1, s1, root, first, k, data, perm)
    requires forall v: nat | first <= v < first + k :: Lookup(m0, root, v) == None
    requires Removed(m1, m2, root, first, k)
    requires ToSet(f2) == ToSet(f1) + Frames(m1, root, first, k)
    requires Untouched(m1, m2, s1.Values + Frames(m1, root, first, k))
    ensures forall v: nat | v < NVPN :: Lookup(m2, root, v) == Lookup(m0, root, v)
    ensures Accounts(m0, f0, s0, m2, f2, s1, {})
  {
    hide Lookup, Frame;
  }

  /** uvmalloc. If `ok`, the new pages are zeroed, mapped to distinct owned frames and nothing
      else is; if not, the map is as before. No page is lost either way. */
  method UvmAlloc(mm: PhysMem, root: nat, oldsz: nat, newsz: nat, ghost sh: Shape)
    returns (r: nat, ghost ok: bool, ghost sh': Shape)
    requires Has(mm, root, sh) && newsz <= MAXVA
    requires forall v: nat | RoundUp(oldsz) <= v < RoundUp(newsz) :: Lookup(mm.mem, root, v) == None
    modifies mm
    ensures Has(mm, root, sh')
    ensures newsz < oldsz ==> r == oldsz && mm.mem == old(mm.mem) && mm.free == old(mm.free) && sh' == sh
    ensures newsz >= oldsz ==> r == if ok then newsz else 0
    ensures newsz >= oldsz && ok ==>
      GrowState(mm.low, old(mm.mem), old(mm.free), sh, mm.mem, mm.free, sh', root,
                RoundUp(oldsz), Excess(newsz, oldsz), _ => ZeroPage(), _ => UPERM)
    ensures newsz >= oldsz && !ok ==>
      && (forall v: nat | v < NVPN :: Lookup(mm.mem, root, v) == Lookup(old(mm.mem), root, v))
      && Accounts(old(mm.mem), old(mm.free), sh, mm.mem, mm.free, sh', {})
  {
    hide Has, Lookup, GrowState, Accounts, OwnsRange, Removed, Untouched, RoundUp, IsLeaf;
    PagesLeft(RoundUp(oldsz), newsz);
    RoundedUp(newsz, oldsz);
    sh', ok := sh, false;
    if newsz < oldsz {
      return oldsz, false, sh;
    }
    var first := RoundUp(oldsz);
    var k := 0;
    ghost var data: nat -> Page := _ => ZeroPage();
    ghost var perm: nat -> Perm := _ => UPERM;
    GrowStart(mm, root, sh, first, data, perm);
    while (first + k) * PGSIZE < newsz
      invariant (first + k) * PGSIZE < newsz <==> first + k < RoundUp(newsz)
      invariant k <= Excess(newsz, oldsz) && Has(mm, root, sh')
      invariant GrowState(mm.low, old(mm.mem), old(mm.free), sh, mm.mem, mm.free, sh', root, first, k, data, perm)
      decreases newsz - (first + k) * PGSIZE
    {
      ghost var m1, f1, s1 := mm.mem, mm.free, sh';
      ghost var page;
      var got;
      got, sh', page := GrowPage(mm, root, first + k, ZeroPage(), UPERM, sh');
      if !got {
        GrowStuck(mm.low, old(mm.mem), old(mm.free), sh, m1, f1, s1, mm.mem, mm.free, sh', root, first, k, data, perm);
        ghost var m2, f2 := mm.mem, mm.free;
        RoundedPages(first);
        RoundedPages(first + k);
        GrowOwns(mm.low, old(mm.mem), old(mm.free), sh, m2, f2, sh', root, first, k, data, perm);
        var _, panicked := UvmDealloc(mm, root, (first + k) * PGSIZE, first * PGSIZE, sh');
        assert !panicked;
        GrowUndone(mm.low, old(mm.mem), old(mm.free), sh, m2, f2, sh', mm.mem, mm.free, root, first, k, data, perm);
        return 0, false, sh';
      }
      GrowStep(mm.low, old(mm.mem), old(mm.free), sh, m1, f1, s1, mm.mem, mm.free, sh', root, first, k, data, perm, page);
      k := k + 1;
      PagesLeft(first + k, newsz);
    }
    r, ok := newsz, true;
  }

  /** The loops of uvmalloc and uvmcopy go on for as long as a whole page number is left. */
  lemma PagesLeft(v: nat, sz: nat)
    ensures v * PGSIZE < sz <==> v < RoundUp(sz)
  {
  }

  lemma RoundedPages(v: nat)
    ensures RoundUp(v * PGSIZE) == v
  {
  }

  lemma GrowOwns(low: nat, m0: Memory, f0: seq<nat>, s0: Shape, m: Memory, f: seq<nat>, s: Shape,
                 root: nat, first: nat, k: nat, data: nat -> Page, perm: nat -> Perm)
    requires GrowState(low, m0, f0, s0, m, f, s, root, first, k, data, perm)
    ensures OwnsRange(low, m, root, s, f, first, k)
  {
  }

  // ---- uvmcopy --------------------------------------------------------------------------------

  ghost function PageAt(mem: Memory, root: nat, vpn: nat): Page {
    if Frame(mem, root, vpn) in mem then mem[Frame(mem, root, vpn)] else ZeroPage()
  }

  ghost function PermAt(mem: Memory, root: nat, vpn: nat): Perm {
    var e := Lookup(mem, root, vpn);
    if e.Some? && Flags(e.value) >= 2 then Flags(e.value) else 2
  }

  /** Another table, and the frames it owns, do not notice pages being handed out. */
  lemma OtherKept(low: nat, m0: Memory, f0: seq<nat>, s0: Shape, m: Memory, f: seq<nat>, s: Shape, used: set<nat>,
                  root: nat, sh: Shape, n: nat)
    requires Accounts(m0, f0, s0, m, f, s, used)
    requires Tree(low, m0, root, sh) && sh.Values !! s0.Values && sh.Values !! ToSet(f0)
    requires OwnsRange(low, m0, root, sh, f0, 0, n) && Frames(m0, root, 0, n) !! s0.Values
    requires forall p :: InRam(low, p) ==> p in m0
    ensures Tree(low, m, root, sh) && sh.Values !! ToSet(f)
    ensures forall v: nat :: Lookup(m, root, v) == Lookup(m0, root, v)
    ensures forall v: nat | v < n :: Frame(m, root, v) in m && m[Frame(m, root, v)] == PageAt(m0, root, v)
    ensures forall v: nat | v < n :: PageAt(m, root, v) == PageAt(m0, root, v)
  {
    forall p | p in sh.Values ensures p in m0 && p in m && m[p] == m0[p] {
      assert p !in s0.Values + ToSet(f0);
      var t :| t in sh && sh[t] == p;
    }
    TreeFrame(low, m0, m, root, sh);
    forall p | p in ToSet(f) ensures p !in sh.Values {
      assert p in s0.Values + ToSet(f0);
    }
    forall v: nat | v < n ensures Frame(m, root, v) in m && m[Frame(m, root, v)] == PageAt(m0, root, v) {
      FrameOfLookup(m0, m, root, v);
      assert Frame(m0, root, v) in Frames(m0, root, 0, n);
      assert Frame(m0, root, v) !in s0.Values + ToSet(f0);
    }
  }

  /** walk without allocation, then the entry it finds. */
  method ReadEntry(mm: PhysMem, root: nat, vpn: nat, ghost sh: Shape) returns (pte: nat)
    requires Has(mm, root, sh) && vpn < NVPN && Lookup(mm.mem, root, vpn).Some?
    modifies mm
    ensures mm.mem == old(mm.mem) && mm.free == old(mm.free)
    ensures forall r, s :: old(Has(mm, r, s)) ==> Has(mm, r, s)
    ensures Lookup(mm.mem, root, vpn) == Some(pte)
  {
    assert vpn * PGSIZE / PGSIZE == vpn;
    LeafHere(mm.low, mm.mem, root, sh, vpn);
    ghost var same;
    var page, i;
    page, i, same := Walk(mm, root, vpn * PGSIZE, false, sh);
    pte := mm.mem[page][i];
  }

  lemma FrameOf(mem: Memory, root: nat, vpn: nat)
    ensures Lookup(mem, root, vpn).Some? ==> Frame(mem, root, vpn) == Ppn(Lookup(mem, root, vpn).value)
  {
  }

  /** One turn of uvmcopy's loop: read the parent's entry, copy its page, map the copy. */
  method CopyPage(mm: PhysMem, parent: nat, child: nat, i: nat, ghost n: nat, ghost m0: Memory, ghost f0: seq<nat>,
                  ghost shp: Shape, ghost shc: Shape, ghost sh: Shape,
                  ghost data: nat -> Page, ghost perm: nat -> Perm) returns (ok: bool, ghost sh': Shape)
    requires i < n <= NVPN && data(i) == PageAt(m0, parent, i) && perm(i) == PermAt(m0, parent, i)
    requires Has(mm, child, sh) && GrowState(mm.low, m0, f0, shc, mm.mem, mm.free, sh, child, 0, i, data, perm)
    requires Tree(mm.low, m0, parent, shp) && shp.Values !! shc.Values && shp.Values !! ToSet(f0)
    requires OwnsRange(mm.low, m0, parent, shp, f0, 0, n) && Frames(m0, parent, 0, n) !! shc.Values
    requires forall p :: InRam(mm.low, p) ==> p in m0
    modifies mm
    ensures Has(mm, child, sh')
    ensures GrowState(mm.low, m0, f0, shc, mm.mem, mm.free, sh', child, 0, if ok then i + 1 else i, data, perm)
  {
    hide Has, Lookup, Frame, Frames, GrowState, Accounts, OwnsRange, Mapped, PermAt, PageAt, Tree, ToSet, Ppn, Flags;
    CopySource(mm, m0, f0, shc, sh, parent, shp, child, i, n, data, perm);
    var pte := ReadEntry(mm, parent, i, shp);
    FrameOf(mm.mem, parent, i);
    ghost var m1, f1 := mm.mem, mm.free;
    ghost var copy;
    ok, sh', copy := GrowPage(mm, child, i, mm.mem[Ppn(pte)], Flags(pte), sh);
    if ok {
      GrowStep(mm.low, m0, f0, shc, m1, f1, sh, mm.mem, mm.free, sh', child, 0, i, data, perm, copy);
    } else {
      GrowStuck(mm.low, m0, f0, shc, m1, f1, sh, mm.mem, mm.free, sh', child, 0, i, data, perm);
    }
  }

  /** The err label of uvmcopy: unmap and free the pages copied so far. */
  method CopyUndo(mm: PhysMem, child: nat, i: nat, ghost m0: Memory, ghost f0: seq<nat>, ghost shc: Shape,
                  ghost sh: Shape, ghost data: nat -> Page, ghost perm: nat -> Perm)
    requires Has(mm, child, sh) && i <= NVPN && forall v: nat | v < i :: Lookup(m0, child, v) == None
    requires GrowState(mm.low, m0, f0, shc, mm.mem, mm.free, sh, child, 0, i, data, perm)
    modifies mm
    ensures Has(mm, child, sh) && Accounts(m0, f0, shc, mm.mem, mm.free, sh, {})
    ensures forall v: nat | v < NVPN :: Lookup(mm.mem, child, v) == Lookup(m0, child, v)
  {
    hide Has, Lookup, Frame, Frames, GrowState, Accounts, OwnsRange, Removed, Untouched;
    ghost var m, f := mm.mem, mm.free;
    GrowOwns(mm.low, m0, f0, shc, m, f, sh, child, 0, i, data, perm);
    var panicked, stopped := UvmUnmap(mm, child, 0, i, true, sh);
    assert !panicked;
    GrowUndone(mm.low, m0, f0, shc, m, f, sh, mm.mem, mm.free, child, 0, i, data, perm);
  }

  /** uvmcopy. On success page `v` of the child holds a copy of page `v` of the parent on a
      fresh frame with the same flags; on failure the child's map is as before. The parent's
      table and pages do not change and no page is lost. */
  method UvmCopy(mm: PhysMem, parent: nat, child: nat, sz: nat, ghost shp: Shape, ghost shc: Shape)
    returns (r: int, ghost shc': Shape)
    requires Has(mm, parent, shp) && Has(mm, child, shc) && shp.Values !! shc.Values
    requires RoundUp(sz) <= NVPN && OwnsRange(mm.low, mm.mem, parent, shp, mm.free, 0, RoundUp(sz))
    requires Frames(mm.mem, parent, 0, RoundUp(sz)) !! shc.Values
    requires forall v: nat | v < RoundUp(sz) :: Lookup(mm.mem, child, v) == None
    modifies mm
    ensures r == 0 || r == -1
    ensures Has(mm, parent, shp) && Has(mm, child, shc')
    ensures forall v: nat :: Lookup(mm.mem, parent, v) == Lookup(old(mm.mem), parent, v)
    ensures forall v: nat | v < RoundUp(sz) :: PageAt(mm.mem, parent, v) == PageAt(old(mm.mem), parent, v)
    ensures r == 0 ==>
      GrowState(mm.low, old(mm.mem), old(mm.free), shc, mm.mem, mm.free, shc', child, 0, RoundUp(sz),
                v => PageAt(old(mm.mem), parent, v), v => PermAt(old(mm.mem), parent, v))
    ensures r == -1 ==>
      && (forall v: nat | v < NVPN :: Lookup(mm.mem, child, v) == Lookup(old(mm.mem), child, v))
      && Accounts(old(mm.mem), old(mm.free), shc, mm.mem, mm.free, shc', {})
  {
    hide Has, PhysMem.Valid, Lookup, Frame, Frames, GrowState, Accounts, OwnsRange, Removed, Untouched, PermAt, PageAt,
         Tree, InRam, ToSet, Ppn, Flags;
    var n := RoundUp(sz);
    ghost var m0, f0 := mm.mem, mm.free;
    ghost var data: nat -> Page := v => PageAt(m0, parent, v);
    ghost var perm: nat -> Perm := v => PermAt(m0, parent, v);
    shc' := shc;
    var i := 0;
    GrowStart(mm, child, shc, 0, data, perm);
    HasParts(mm, parent, shp);
    while i * PGSIZE < sz
      invariant i <= n && Has(mm, child, shc')
      invariant GrowState(mm.low, m0, f0, shc, mm.mem, mm.free, shc', child, 0, i, data, perm)
      decreases sz - i * PGSIZE
    {
      var ok;
      ok, shc' := CopyPage(mm, parent, child, i, n, m0, f0, shp, shc, shc', data, perm);
      if !ok {
        CopyUndo(mm, child, i, m0, f0, shc, shc', data, perm);
        CopyFailed(mm, m0, f0, shc, shc', parent, shp, child, n);
        return -1, shc';
      }
      i := i + 1;
    }
    CopySource(mm, m0, f0, shc, shc', parent, shp, child, i, n, data, perm);
    r := 0;
  }

  lemma HasParts(mm: PhysMem, root: nat, sh: Shape)
    requires Has(mm, root, sh)
    ensures Tree(mm.low, mm.mem, root, sh) && sh.Values !! ToSet(mm.free)
    ensures forall p :: InRam(mm.low, p) ==> p in mm.mem
  {
  }

  lemma CopyFailed(mm: PhysMem, m0: Memory, f0: seq<nat>, shc: Shape, shc': Shape, parent: nat, shp: Shape,
                   child: nat, n: nat)
    requires Has(mm, child, shc') && Accounts(m0, f0, shc, mm.mem, mm.free, shc', {})
    requires Tree(mm.low, m0, parent, shp) && shp.Values !! shc.Values && shp.Values !! ToSet(f0)
    requires OwnsRange(mm.low, m0, parent, shp, f0, 0, n) && Frames(m0, parent, 0, n) !! shc.Values
    requires forall p :: InRam(mm.low, p) ==> p in m0
    ensures Has(mm, parent, shp)
    ensures forall v: nat :: Lookup(mm.mem, parent, v) == Lookup(m0, parent, v)
    ensures forall v: nat | v < n :: PageAt(mm.mem, parent, v) == PageAt(m0, parent, v)
  {
    hide Lookup, OwnsRange, PageAt;
    OtherKept(mm.low, m0, f0, shc, mm.mem, mm.free, shc', {}, parent, shp, n);
  }

  /** What uvmcopy reads from the parent while it copies. */
  lemma CopySource(mm: PhysMem, m0: Memory, f0: seq<nat>, shc: Shape, shc': Shape, parent: nat, shp: Shape, child: nat,
                   i: nat, n: nat, data: nat -> Page, perm: nat -> Perm)
    requires Has(mm, child, shc') && GrowState(mm.low, m0, f0, shc, mm.mem, mm.free, shc', child, 0, i, data, perm)
    requires Tree(mm.low, m0, parent, shp) && shp.Values !! shc.Values && shp.Values !! ToSet(f0)
    requires OwnsRange(mm.low, m0, parent, shp, f0, 0, n) && Frames(m0, parent, 0, n) !! shc.Values
    requires forall p :: InRam(mm.low, p) ==> p in m0
    ensures Has(mm, parent, shp)
    ensures forall v: nat :: Lookup(mm.mem, parent, v) == Lookup(m0, parent, v)
    ensures forall v: nat | v < n ::
              && PageAt(mm.mem, parent, v) == PageAt(m0, parent, v)
              && Frame(mm.mem, parent, v) in mm.mem && mm.mem[Frame(mm.mem, parent, v)] == PageAt(m0, parent, v)
              && Lookup(m0, parent, v).Some? && Flags(Lookup(m0, parent, v).value) == PermAt(m0, parent, v)
  {
    hide Lookup, OwnsRange;
    OtherKept(mm.low, m0, f0, shc, mm.mem, mm.free, shc', Frames(mm.mem, child, 0, i), parent, shp, n);
    forall v: nat | v < n
      ensures Lookup(m0, parent, v).Some? && Flags(Lookup(m0, parent, v).value) == PermAt(m0, parent, v)
    {
      OwnedFlags(mm.low, m0, f0, parent, shp, n, v);
    }
  }

  lemma OwnedFlags(low: nat, m: Memory, f: seq<nat>, root: nat, sh: Shape, n: nat, v: nat)
    requires OwnsRange(low, m, root, sh, f, 0, n) && v < n
    ensures Lookup(m, root, v).Some? && Flags(Lookup(m, root, v).value) == PermAt(m, root, v)
  {
    hide Lookup, OwnsLeaves, Frame;
    assert IsLeaf(m, root, v);
    var e := Lookup(m, root, v).value;
    FoundValid(m, root, v);
    OddFlags(e);
  }

  lemma FoundValid(m: Memory, root: nat, v: nat)
    ensures Lookup(m, root, v).Some? ==> Valid(Lookup(m, root, v).value)
  {
  }

  lemma OddFlags(e: nat)
    requires Valid(e)
    ensures Flags(e) % 2 == 1
  {
    OddRem(512 * (e / 1024), e % 1024, e);
  }

  lemma OddRem(h: nat, r: nat, x: nat)
    requires x == 2 * h + r && x % 2 == 1
    ensures r % 2 == 1
  {
  }
}
