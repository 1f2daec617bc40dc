// The page table of a process (xv6/kernel/proc.c): the trampoline and the trapframe at the top, user
// memory below. Making one takes three pages, and taking it apart gives all of them back.

module ProcTable {
  import opened Common
  import opened Sv39
  import opened PageAlloc
  import opened VirtualMemory
  import opened UserMemory
  import opened TableFree

  const TRAMPOLINE := MAXVA - PGSIZE
  const TRAPFRAME := TRAMPOLINE - PGSIZE

  /** The two pages at the top. */
  ghost predicate TopMapped(mem: Memory, root: nat, trampoline: nat, trapframe: nat) {
    && Lookup(mem, root, NVPN - 1) == Some(MkPte(trampoline / PGSIZE, PTE_R + PTE_X))
    && Lookup(mem, root, NVPN - 2) == Some(MkPte(trapframe / PGSIZE, PTE_R + PTE_W))
  }

  /** No page from `first` up to page number `end` is mapped. */
  ghost predicate NoneMapped(mem: Memory, root: nat, first: nat, end: nat) {
    forall v: nat | first <= v < end :: Lookup(mem, root, v) == None
  }

  // ---- counting pages ------------------------------------------------------------------------------

  lemma {:induction false} ValuesSize(sh: Shape)
    requires Injective(sh)
    ensures |sh.Values| == |sh|
  {
    if sh != map[] {
      var n :| n in sh;
      var rest := sh - {n};
      ValuesSize(rest);
      forall p | p in sh.Values ensures p in rest.Values + {sh[n]} {
        var m :| m in sh && sh[m] == p;
        assert m != n ==> rest[m] == p;
      }
      assert sh.Values == rest.Values + {sh[n]};
      assert sh.Keys == rest.Keys + {n};
      assert sh[n] !in rest.Values;
      assert |rest| == |rest.Keys|;
    }
  }

  lemma {:induction false} ToSetSize(s: seq<nat>)
    requires NoDup(s)
    ensures |ToSet(s)| == |s|
  {
    if s != [] {
      ToSetSize(s[1..]);
      assert s == [s[0]] + s[1..];
      ToSetCons(s[0], s[1..]);
    }
  }

  /** Every page that left the free list became a table. */
  lemma TablesTaken(low: nat, m0: Memory, f0: seq<nat>, s0: Shape, m1: Memory, f1: seq<nat>, s1: Shape, root: nat)
    requires Built(low, m0, f0, s0, m1, f1, s1, root) && Injective(s0) && s0.Values !! ToSet(f0) && NoDup(f0) && NoDup(f1)
    ensures |s1| + |f1| == |s0| + |f0|
  {
    hide ToSet, NoDup;
    assert Injective(s1) by { hide Linked, Covered; }
    ValuesSize(s0);
    ValuesSize(s1);
    ToSetSize(f0);
    ToSetSize(f1);
    assert |s1.Values + ToSet(f1)| == |s1.Values| + |ToSet(f1)|;
    assert |s0.Values + ToSet(f0)| == |s0.Values| + |ToSet(f0)|;
  }

  // ---- making a table --------------------------------------------------------------------------------

  /** uvmcreate */
  method UvmCreate(mm: PhysMem) returns (root: nat, ghost sh: Shape)
    requires mm.Valid()
    modifies mm
    ensures mm.Valid() && (root == 0 <==> old(mm.free) == [])
    ensures root == 0 ==> mm.mem == old(mm.mem) && mm.free == old(mm.free)
    ensures root != 0 ==>
      && Has(mm, root, sh) && sh == map[Root := root] && old(mm.free) == [root] + mm.free
      && mm.mem == old(mm.mem)[root := ZeroPage()] && mm.mem.Keys == old(mm.mem).Keys
      && forall v: nat :: Lookup(mm.mem, root, v) == None
  {
    hide Tree, Lookup, Px;
    FreeHead(mm);
    ghost var f0 := mm.free;
    root := mm.Kalloc();
    sh := map[Root := root];
    if root != 0 {
      assert f0 == [root] + mm.free;
      mm.StorePage(root, ZeroPage());
      EmptyTable(mm.low, mm.mem, root);
    }
  }

  lemma EmptyTable(low: nat, mem: Memory, root: nat)
    requires InRam(low, root) && root in mem && mem[root] == ZeroPage()
    ensures Tree(low, mem, root, map[Root := root]) && map[Root := root].Values == {root}
    ensures forall v: nat :: Lookup(mem, root, v) == None
  {
    hide Px;
    var sh: Shape := map[Root := root];
    assert sh[Root] == root;
    assert forall v: nat :: !Valid(ZeroPage()[Px(2, v)]);
  }

  /** The tables that the two top pages need are the same three. */
  function TopTables(): set<Node> { {Root, At(1, NVPN - 1), At(0, NVPN - 1)} }

  lemma TopWalk(n: Node, v: nat)
    requires NVPN - 2 <= v < NVPN && OnWalk(n, v)
    ensures n in TopTables() && |TopTables()| == 3
    ensures n == At(0, v) <==> n == At(0, NVPN - 1)
  {
  }

  /** After the trampoline is mapped all three are there. */
  lemma AllTopTables(low: nat, mem: Memory, root: nat, sh: Shape, s0: Shape)
    requires Tree(low, mem, root, sh) && Lookup(mem, root, NVPN - 1).Some?
    requires s0.Keys == {Root} && Adds(s0, sh, NVPN - 1, 1)
    ensures sh.Keys == TopTables() && |sh| == 3
  {
    hide Lookup, At, Px;
    LeafHere(low, mem, root, sh, NVPN - 1);
    TopUp();
    OnlyTopTables(sh, s0);
  }

  lemma TopUp()
    ensures !At(0, NVPN - 1).Root? && Up(At(0, NVPN - 1)) == At(1, NVPN - 1) && |TopTables()| == 3
  {
  }

  lemma OnlyTopTables(sh: Shape, s0: Shape)
    requires s0.Keys == {Root} && Adds(s0, sh, NVPN - 1, 1)
    ensures sh.Keys <= TopTables()
    ensures At(0, NVPN - 1) !in sh ==> |sh| <= 2
  {
    hide At, Px;
    forall n | n in sh ensures n in TopTables() {}
    if At(0, NVPN - 1) !in sh {
      assert sh.Keys <= {Root, At(1, NVPN - 1)};
      SubsetSize(sh.Keys, {Root, At(1, NVPN - 1)});
    }
    assert |sh| == |sh.Keys|;
  }

  /** No other table is needed for the trapframe. */
  lemma SameTopTables(low: nat, m1: Memory, f1: seq<nat>, s1: Shape, m2: Memory, f2: seq<nat>, root: nat, s2: Shape)
    requires Built(low, m1, f1, s1, m2, f2, s2, root) && s1.Keys == TopTables() && Adds(s1, s2, NVPN - 2, 1)
    ensures At(0, NVPN - 2) in s2 && |s2| == |s1|
  {
    hide At, Px, Tree, ToSet;
    TopWalk(At(0, NVPN - 2), NVPN - 2);
    forall n | n in s2 ensures n in s1 {
      if n !in s1 { TopWalk(n, NVPN - 2); }
    }
    assert s2.Keys == s1.Keys;
    assert |s1| == |s1.Keys| && |s2| == |s2.Keys|;
  }

  /** The pages that left the free list `f0` are the tables of `sh`. */
  ghost predicate Taken(m0: Memory, f0: seq<nat>, m: Memory, f: seq<nat>, sh: Shape) {
    sh.Values + ToSet(f) == ToSet(f0) && |sh| + |f| == |f0| && Untouched(m0, m, ToSet(f0))
  }

  lemma TakenParts(m0: Memory, f0: seq<nat>, m: Memory, f: seq<nat>, sh: Shape)
    requires Taken(m0, f0, m, f, sh)
    ensures sh.Values + ToSet(f) == ToSet(f0) && |sh| + |f| == |f0| && Untouched(m0, m, ToSet(f0))
  {
    hide ToSet, Untouched;
  }

  lemma Refl(m: Memory, f: seq<nat>)
    ensures Untouched(m, m, ToSet(f))
  {
  }

  lemma Created(mm: PhysMem, m0: Memory, f0: seq<nat>, root: nat, sh: Shape)
    requires Has(mm, root, sh) && sh == map[Root := root] && f0 == [root] + mm.free && mm.mem == m0[root := ZeroPage()]
    requires m0.Keys == mm.mem.Keys
    ensures Taken(m0, f0, mm.mem, mm.free, sh) && NoDup(mm.free) && Injective(sh) && sh.Values !! ToSet(mm.free)
    ensures sh.Keys == {Root}
  {
    hide Tree;
    ToSetCons(root, mm.free);
    assert sh[Root] == root;
    assert sh.Values == {root};
    FreeHead(mm);
  }

  lemma StillTaken(mm: PhysMem, m0: Memory, f0: seq<nat>, m1: Memory, f1: seq<nat>, s1: Shape, root: nat, sh: Shape)
    requires Taken(m0, f0, m1, f1, s1) && Built(mm.low, m1, f1, s1, mm.mem, mm.free, sh, root) && Has(mm, root, sh)
    requires NoDup(f1) && Injective(s1) && s1.Values !! ToSet(f1)
    ensures Taken(m0, f0, mm.mem, mm.free, sh) && NoDup(mm.free) && Injective(sh) && sh.Values !! ToSet(mm.free)
  {
    hide NoDup, ToSet, Tree;
    FreeHead(mm);
    TablesTaken(mm.low, m1, f1, s1, mm.mem, mm.free, sh, root);
    TreeInjective(mm.low, mm.mem, root, sh);
    BuiltAccounts(mm.low, m1, f1, s1, mm.mem, mm.free, sh, root);
    assert s1.Values + ToSet(f1) == ToSet(f0);
  }

  lemma TreeInjective(low: nat, mem: Memory, root: nat, sh: Shape)
    requires Tree(low, mem, root, sh)
    ensures Injective(sh)
  {
    hide Injective, Linked, Covered;
  }

  lemma TopPages()
    ensures TRAMPOLINE / PGSIZE == (TRAMPOLINE + PGSIZE - 1) / PGSIZE == NVPN - 1
    ensures TRAPFRAME / PGSIZE == (TRAPFRAME + PGSIZE - 1) / PGSIZE == NVPN - 2
  {
  }

  /** The first mapping failed: nothing is mapped. */
  lemma NothingAdded(mm: PhysMem, m1: Memory, root: nat, sh: Shape, v: nat, ppn: nat, perm: nat)
    requires perm < 1024 && Mapped(m1, mm.mem, root, v, 0, ppn, perm) && forall v: nat :: Lookup(m1, root, v) == None
    ensures RoundUp(0) == 0 && OwnsRange(mm.low, mm.mem, root, sh, mm.free, 0, RoundUp(0))
    ensures forall v: nat | v < NVPN :: Lookup(mm.mem, root, v) == None
  {
    hide Lookup, IsLeaf, Frame;
  }

  lemma AllBack(m0: Memory, f0: seq<nat>, m2: Memory, f2: seq<nat>, root: nat, sh: Shape, m3: Memory, f3: seq<nat>)
    requires Taken(m0, f0, m2, f2, sh) && ToSet(f3) == ToSet(f2) + sh.Values + Frames(m2, root, 0, RoundUp(0))
    requires Untouched(m2, m3, sh.Values + Frames(m2, root, 0, RoundUp(0)))
    ensures ToSet(f3) == ToSet(f0) && Untouched(m0, m3, ToSet(f0))
  {
    hide ToSet, Frame;
    assert Frames(m2, root, 0, RoundUp(0)) == {};
  }

  lemma TopMappedOnce(mm: PhysMem, m1: Memory, root: nat, sh: Shape, s0: Shape, ppn: nat, perm: nat)
    requires Has(mm, root, sh) && perm < 1024 && Mapped(m1, mm.mem, root, NVPN - 1, 1, ppn, perm)
    requires s0.Keys == {Root} && Adds(s0, sh, NVPN - 1, 1) && forall v: nat :: Lookup(m1, root, v) == None
    ensures sh.Keys == TopTables() && |sh| == 3 && Lookup(mm.mem, root, NVPN - 2) == None
  {
    hide Lookup, Tree, PhysMem.Valid;
    AllTopTables(mm.low, mm.mem, root, sh, s0);
  }

  lemma BothMapped(m1: Memory, m2: Memory, m3: Memory, root: nat, trampoline: nat, trapframe: nat)
    requires Mapped(m1, m2, root, NVPN - 1, 1, trampoline / PGSIZE, PTE_R + PTE_X)
    requires Mapped(m2, m3, root, NVPN - 2, 1, trapframe / PGSIZE, PTE_R + PTE_W)
    requires forall v: nat :: Lookup(m1, root, v) == None
    ensures TopMapped(m3, root, trampoline, trapframe) && NoneMapped(m3, root, 0, NVPN - 2)
  {
    hide Lookup;
  }

  /** proc_pagetable: it fails exactly when fewer than three pages are free, and then loses none. Once
      the trampoline is mapped the trapframe finds its tables, so the third failure cannot happen. */
  method ProcPagetable(mm: PhysMem, trampoline: nat, trapframe: nat) returns (root: nat, ghost sh: Shape)
    requires mm.Valid()
    modifies mm
    ensures root == 0 <==> |old(mm.free)| < 3
    ensures root == 0 ==> mm.Valid() && ToSet(mm.free) == ToSet(old(mm.free))
    ensures root != 0 ==>
      && Has(mm, root, sh) && TopMapped(mm.mem, root, trampoline, trapframe) && NoneMapped(mm.mem, root, 0, NVPN - 2)
      && sh.Values + ToSet(mm.free) == ToSet(old(mm.free)) && |mm.free| == |old(mm.free)| - 3
    ensures Untouched(old(mm.mem), mm.mem, ToSet(old(mm.free)))
  {
    hide Has, Lookup, Adds, At, Mapped, Built, ToSet, Untouched, OwnsRange, Injective, NoDup, PhysMem.Valid, TopTables, Frames,
         Taken;
    ghost var m0, f0 := mm.mem, mm.free;
    root, sh := UvmCreate(mm);
    if root == 0 {
      Refl(mm.mem, f0);
      return;
    }
    ghost var s0, m1, f1 := sh, mm.mem, mm.free;
    Created(mm, m0, f0, root, sh);
    TopPages();
    var r;
    ghost var k;
    r, sh, k := MapPages(mm, root, TRAMPOLINE, PGSIZE, trampoline, PTE_R + PTE_X, s0);
    StillTaken(mm, m0, f0, m1, f1, s0, root, sh);
    if r < 0 {
      OnlyTopTables(sh, s0);
      NothingAdded(mm, m1, root, sh, NVPN - 1, trampoline / PGSIZE, PTE_R + PTE_X);
      ghost var m2, f2 := mm.mem, mm.free;
      UvmFree(mm, root, 0, sh);
      AllBack(m0, f0, m2, f2, root, sh, mm.mem, mm.free);
      TakenParts(m0, f0, m2, f2, sh);
      return 0, sh;
    }
    ghost var s1, m2, f2 := sh, mm.mem, mm.free;
    TopMappedOnce(mm, m1, root, sh, s0, trampoline / PGSIZE, PTE_R + PTE_X);
    r, sh, k := MapPages(mm, root, TRAPFRAME, PGSIZE, trapframe, PTE_R + PTE_W, s1);
    SameTopTables(mm.low, m2, f2, s1, mm.mem, mm.free, root, sh);
    if r < 0 {
      assert false;
    }
    StillTaken(mm, m0, f0, m2, f2, s1, root, sh);
    TakenParts(m0, f0, mm.mem, mm.free, sh);
    BothMapped(m1, m2, mm.mem, root, trampoline, trapframe);
  }

  // ---- taking it apart -------------------------------------------------------------------------------

  /** proc_freepagetable for a process of size `sz`: the tables and the user pages become free, the
      trampoline and the trapframe do not. */
  method ProcFreepagetable(mm: PhysMem, root: nat, sz: nat, ghost sh: Shape)
    requires Has(mm, root, sh) && RoundUp(sz) <= NVPN - 2
    requires IsLeaf(mm.mem, root, NVPN - 1) && IsLeaf(mm.mem, root, NVPN - 2)
    requires OwnsRange(mm.low, mm.mem, root, sh, mm.free, 0, RoundUp(sz)) && NoneMapped(mm.mem, root, RoundUp(sz), NVPN - 2)
    modifies mm
    ensures mm.Valid()
    ensures ToSet(mm.free) == ToSet(old(mm.free)) + sh.Values + Frames(old(mm.mem), root, 0, RoundUp(sz))
    ensures Untouched(old(mm.mem), mm.mem, sh.Values + Frames(old(mm.mem), root, 0, RoundUp(sz)))
  {
    hide Has, Lookup, IsLeaf, OwnsRange, Removed, Untouched, ToSet, Frames, RoundUp, PhysMem.Valid;
    ghost var m0, f0 := mm.mem, mm.free;
    TopPages();
    var panicked;
    ghost var k;
    panicked, k := UvmUnmap(mm, root, TRAMPOLINE, 1, false, sh);
    ghost var m1 := mm.mem;
    LeafStays(m0, m1, root, NVPN - 1, NVPN - 2);
    panicked, k := UvmUnmap(mm, root, TRAPFRAME, 1, false, sh);
    ghost var m2 := mm.mem;
    BottomStays(mm.low, m0, m1, m2, root, sh, f0, mm.free, sz);
    UvmFree(mm, root, sz, sh);
    UnmappedBoth(m0, m1, m2, mm.mem, sh.Values, Frames(m0, root, 0, RoundUp(sz)));
  }

  lemma LeafStays(m0: Memory, m1: Memory, root: nat, top: nat, v: nat)
    requires v < NVPN && v != top && Removed(m0, m1, root, top, 1) && IsLeaf(m0, root, v)
    ensures IsLeaf(m1, root, v)
  {
    hide Lookup;
  }

  lemma BottomStays(low: nat, m0: Memory, m1: Memory, m2: Memory, root: nat, sh: Shape, f0: seq<nat>, f2: seq<nat>, sz: nat)
    requires RoundUp(sz) <= NVPN - 2 && OwnsRange(low, m0, root, sh, f0, 0, RoundUp(sz)) && ToSet(f2) == ToSet(f0)
    requires Removed(m0, m1, root, NVPN - 1, 1) && Removed(m1, m2, root, NVPN - 2, 1)
    requires NoneMapped(m0, root, RoundUp(sz), NVPN - 2)
    ensures OwnsRange(low, m2, root, sh, f2, 0, RoundUp(sz))
    ensures Frames(m2, root, 0, RoundUp(sz)) == Frames(m0, root, 0, RoundUp(sz))
    ensures forall v: nat | RoundUp(sz) <= v < NVPN :: Lookup(m2, root, v) == None
  {
    hide Lookup, IsLeaf, Frame, RoundUp, Frames, ToSet;
    forall v: nat | v < RoundUp(sz)
      ensures Lookup(m2, root, v) == Lookup(m0, root, v) && Frame(m0, root, v) !in sh.Values && Frame(m0, root, v) !in f2
    {
      assert IsLeaf(m0, root, v);
      SameMembers(f0, f2, Frame(m0, root, v));
    }
    OwnsFrame(low, m0, m2, root, sh, sh, f0, f2, 0, RoundUp(sz));
  }

  lemma SameMembers(f: seq<nat>, g: seq<nat>, p: nat)
    requires ToSet(f) == ToSet(g)
    ensures p in f <==> p in g
  {
    assert p in f <==> p in ToSet(f);
  }

  lemma UnmappedBoth(m0: Memory, m1: Memory, m2: Memory, m3: Memory, tables: set<nat>, frames: set<nat>)
    requires Untouched(m0, m1, tables + {}) && Untouched(m1, m2, tables + {}) && Untouched(m2, m3, tables + frames)
    ensures Untouched(m0, m3, tables + frames)
  {
  }

  // ---- shrinking a new process -------------------------------------------------------------------------

  /** A new process has size 0. Shrinking it from `oldsz`, as the comment of uvmdealloc() allows,
      panics as soon as a whole page is to go. */
  method ShrinkNewProcess(mm: PhysMem, trampoline: nat, trapframe: nat, oldsz: nat, newsz: nat)
    returns (root: nat, panicked: bool, ghost sh: Shape)
    requires mm.Valid() && |mm.free| >= 3 && oldsz <= TRAPFRAME
    modifies mm
    ensures Has(mm, root, sh)
    ensures panicked <==> newsz < oldsz && RoundUp(newsz) < RoundUp(oldsz)
  {
    hide Has, Lookup, DeallocPanics, OwnsLeaves, RoundUp, Untouched;
    root, sh := ProcPagetable(mm, trampoline, trapframe);
    BelowTop(mm.low, mm.mem, root, sh, mm.free, oldsz, newsz);
    DeallocPanicsIff(mm.mem, root, 0, oldsz, newsz);
    var r;
    r, panicked := UvmDealloc(mm, root, oldsz, newsz, sh);
  }

  lemma BelowTop(low: nat, mem: Memory, root: nat, sh: Shape, free: seq<nat>, oldsz: nat, newsz: nat)
    requires NoneMapped(mem, root, 0, NVPN - 2) && oldsz <= TRAPFRAME
    ensures RoundUp(0) == 0 && RoundUp(oldsz) <= NVPN - 2
    ensures forall v: nat | v < RoundUp(oldsz) :: !IsLeaf(mem, root, v)
    ensures OwnsLeaves(low, mem, root, sh, free, RoundUp(newsz), Excess(oldsz, newsz))
  {
    hide Lookup, Frame;
  }
}
