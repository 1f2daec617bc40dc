// xv6/kernel/vm.c: building and taking apart page tables. A three-level tree in physical
// pages behaves as one finite map from page numbers to entries.

module VirtualMemory {
  import opened Common
  import opened Sv39
  import opened PageAlloc

  // ---- what building a table does to memory ------------------------------------------------

  /** From (mem, free, sh) to (mem', free', sh'): some free pages became tables, in list order;
      nothing else was taken, lost or written. */
  ghost predicate Built(low: nat, mem: Memory, free: seq<nat>, sh: Shape,
                        mem': Memory, free': seq<nat>, sh': Shape, root: nat)
  {
    && Tree(low, mem', root, sh')
    && sh'.Values !! ToSet(free')
    && (forall n :: n in sh ==> n in sh' && sh'[n] == sh[n])
    && |free'| <= |free| && free' == free[|free| - |free'|..]
    && sh'.Values + ToSet(free') == sh.Values + ToSet(free)
    && mem'.Keys == mem.Keys
    && (forall p :: p in mem && p !in sh.Values && p !in free ==> mem'[p] == mem[p])
  }

  lemma BuiltRefl(low: nat, mem: Memory, free: seq<nat>, sh: Shape, root: nat)
    requires Tree(low, mem, root, sh) && sh.Values !! ToSet(free)
    ensures Built(low, mem, free, sh, mem, free, sh, root)
  {
  }

  /** A free page, whatever it holds, becomes an empty table. */
  lemma GrowTree(low: nat, mem: Memory, sh: Shape, root: nat, n: Node, i: nat, page: nat, junk: Page)
    requires Tree(low, mem, root, sh) && n in sh && Interior(n) && i < 512 && Down(n, i) !in sh
    requires InRam(low, page) && page in mem && page !in sh.Values && (n.Root? ==> i < 256)
    ensures sh[n] in mem && sh[n] != page
    ensures var mem2 := AddTable(mem[page := junk], sh[n], i, page);
            && Tree(low, mem2, root, sh[Down(n, i) := page])
            && (forall v: nat :: Lookup(mem2, root, v) == Lookup(mem, root, v))
  {
    assert sh[n] in sh.Values;
    var memj := mem[page := junk];
    TreeFrame(low, mem, memj, root, sh);
    AddTableTree(low, memj, root, sh, n, i, page);
    forall v: nat ensures Lookup(AddTable(memj, sh[n], i, page), root, v) == Lookup(mem, root, v) {
      AddTableLookup(low, memj, root, sh, n, i, page, v);
    }
  }

  /** Taking the first free page for a new table. */
  lemma BuiltStep(low: nat, mem: Memory, free: seq<nat>, sh: Shape,
                  mem1: Memory, free1: seq<nat>, sh1: Shape,
                  mem2: Memory, free2: seq<nat>, sh2: Shape, root: nat, n: Node, child: Node)
    requires Built(low, mem, free, sh, mem1, free1, sh1, root)
    requires free1 != [] && NoDup(free1) && free2 == free1[1..]
    requires n in sh1 && child !in sh1 && sh2 == sh1[child := free1[0]] && Tree(low, mem2, root, sh2)
    requires mem2.Keys == mem1.Keys
    requires forall p :: p in mem1 && p != free1[0] && p != sh1[n] ==> mem2[p] == mem1[p]
    ensures Built(low, mem, free, sh, mem2, free2, sh2, root)
  {
    hide Tree, Built, ToSet, NoDup;
    BuiltParts(low, mem, free, sh, mem1, free1, sh1, root);
    BuiltSets(free1, sh1, child);
    assert free2 == free[|free| - |free2|..];
    BuiltFrame(low, mem, free, sh, mem1, free1, sh1, mem2, root, n);
    assert sh2.Values + ToSet(free2) == sh1.Values + ToSet(free1);
    BuiltFrom(low, mem, free, sh, mem2, free2, sh2, root);
  }

  lemma BuiltParts(low: nat, mem: Memory, free: seq<nat>, sh: Shape,
                   mem': Memory, free': seq<nat>, sh': Shape, root: nat)
    requires Built(low, mem, free, sh, mem', free', sh', root)
    ensures sh'.Values !! ToSet(free') && sh'.Values + ToSet(free') == sh.Values + ToSet(free) && mem'.Keys == mem.Keys
    ensures forall n :: n in sh ==> n in sh' && sh'[n] == sh[n]
    ensures |free'| <= |free| && free' == free[|free| - |free'|..]
  {
    hide Tree, ToSet;
  }

  lemma BuiltFrom(low: nat, mem: Memory, free: seq<nat>, sh: Shape,
                  mem': Memory, free': seq<nat>, sh': Shape, root: nat)
    requires Tree(low, mem', root, sh') && sh'.Values !! ToSet(free') && mem'.Keys == mem.Keys
    requires sh'.Values + ToSet(free') == sh.Values + ToSet(free)
    requires forall n :: n in sh ==> n in sh' && sh'[n] == sh[n]
    requires |free'| <= |free| && free' == free[|free| - |free'|..]
    requires forall p :: p in mem && p !in sh.Values && p !in free ==> mem'[p] == mem[p]
    ensures Built(low, mem, free, sh, mem', free', sh', root)
  {
    hide Tree, ToSet;
  }

  lemma BuiltFrame(low: nat, mem: Memory, free: seq<nat>, sh: Shape,
                   mem1: Memory, free1: seq<nat>, sh1: Shape, mem2: Memory, root: nat, n: Node)
    requires Built(low, mem, free, sh, mem1, free1, sh1, root) && free1 != [] && n in sh1 && mem2.Keys == mem1.Keys
    requires forall p :: p in mem1 && p != free1[0] && p != sh1[n] ==> mem2[p] == mem1[p]
    ensures forall p :: p in mem && p !in sh.Values && p !in free ==> mem2[p] == mem[p]
  {
    hide Tree;
    forall p | p in mem && p !in sh.Values && p !in free ensures mem2[p] == mem[p] {
      assert p !in sh1.Values + ToSet(free1);
      assert sh1[n] in sh1.Values && free1[0] in ToSet(free1);
    }
  }

  lemma BuiltSets(free: seq<nat>, sh: Shape, child: Node)
    requires free != [] && NoDup(free) && child !in sh && sh.Values !! ToSet(free)
    ensures sh[child := free[0]].Values == sh.Values + {free[0]}
    ensures ToSet(free) == {free[0]} + ToSet(free[1..])
    ensures sh[child := free[0]].Values !! ToSet(free[1..])
  {
    var sh' := sh[child := free[0]];
    assert sh'[child] == free[0];
    forall p | p in sh.Values ensures p in sh'.Values {
      var m :| m in sh && sh[m] == p;
      assert sh'[m] == p;
    }
    assert free == [free[0]] + free[1..];
  }

  /** The tables of `root` are the pages of `sh`, none of them free. */
  ghost predicate Has(mm: PhysMem, root: nat, sh: Shape)
    reads mm
  {
    mm.Valid() && Tree(mm.low, mm.mem, root, sh) && sh.Values !! ToSet(mm.free)
  }

  lemma BuiltHas(mm: PhysMem, m0: Memory, f0: seq<nat>, s0: Shape, sh: Shape, root: nat)
    requires mm.Valid() && Built(mm.low, m0, f0, s0, mm.mem, mm.free, sh, root)
    ensures Has(mm, root, sh)
  {
  }

  // ---- walk ---------------------------------------------------------------------------------

  lemma FreeHead(mm: PhysMem)
    requires mm.Valid()
    ensures NoDup(mm.free)
    ensures mm.free != [] ==> InRam(mm.low, mm.free[0]) && mm.free[0] in mm.mem
  {
  }

  /** The allocating branch of walk at entry `i` of page `table`; 0 when no page is left. */
  method NewTable(mm: PhysMem, ghost root: nat, table: nat, i: nat, ghost n: Node,
                  ghost mem0: Memory, ghost free0: seq<nat>, ghost sh0: Shape, ghost sh: Shape)
    returns (child: nat)
    requires mm.Valid() && Built(mm.low, mem0, free0, sh0, mm.mem, mm.free, sh, root)
    requires n in sh && Interior(n) && i < 512 && Down(n, i) !in sh && table == sh[n]
    requires n.Root? ==> i < 256
    modifies mm
    ensures mm.Valid()
    ensures child == 0 ==> mm.free == [] && mm.mem == old(mm.mem) && old(mm.free) == []
    ensures child != 0 ==>
      && Built(mm.low, mem0, free0, sh0, mm.mem, mm.free, sh[Down(n, i) := child], root)
      && forall v: nat :: Lookup(mm.mem, root, v) == Lookup(old(mm.mem), root, v)
  {
    hide FreeList, Lookup, Built, Tree;
    ghost var mem1, free1 := mm.mem, mm.free;
    BuiltHas(mm, mem0, free0, sh0, sh, root);
    TableUsed(mm.low, mm.mem, root, sh, n);
    FreeHead(mm);
    child := mm.Kalloc();
    if child != 0 {
      assert child in ToSet(free1);
      GrowTree(mm.low, mem1, sh, root, n, i, child, mm.mem[child]);
      assert child !in mm.free && table !in mm.free by {
        assert child == free1[0] && table !in ToSet(free1);
      }
      mm.StorePage(child, ZeroPage());
      mm.Store(table, i, child * 1024 + PTE_V);
      assert mm.mem == AddTable(mem1[child := Fill(0x0505050505050505)], table, i, child);
      BuiltStep(mm.low, mem0, free0, sh0, mem1, free1, sh, mm.mem, mm.free, sh[Down(n, i) := child], root, n, Down(n, i));
    }
  }

  /** walk: the place of the entry for `va`, as a page and an index; page 0 stands for the null
      pointer. Tables that were missing are allocated when `alloc` is set, and stay when the
      allocator runs dry half way. No translation changes. */
  method Walk(mm: PhysMem, root: nat, va: nat, alloc: bool, ghost sh: Shape)
    returns (page: nat, i: nat, ghost sh': Shape)
    requires Has(mm, root, sh)
    requires va < MAXVA
    modifies mm
    ensures Has(mm, root, sh') && Built(mm.low, old(mm.mem), old(mm.free), sh, mm.mem, mm.free, sh', root)
    ensures forall v: nat :: Lookup(mm.mem, root, v) == Lookup(old(mm.mem), root, v)
    ensures i < 512
    ensures page != 0 ==> At(0, va / PGSIZE) in sh' && page == sh'[At(0, va / PGSIZE)] && i == Px(0, va / PGSIZE)
    ensures page == 0 ==> At(0, va / PGSIZE) !in sh' && (alloc ==> mm.free == [])
    ensures Adds(sh, sh', va / PGSIZE, 1)
    ensures !alloc ==> mm.mem == old(mm.mem) && mm.free == old(mm.free) && sh' == sh
  {
    hide Built, Lookup, FreeList, At, Px, Tree, Adds;
    var vpn := va / PGSIZE;
    AddsNone(sh, vpn);
    var table := root;
    var level := 2;
    sh' := sh;
    BuiltRefl(mm.low, mm.mem, mm.free, sh, root);
    RootTable(mm.low, mm.mem, root, sh, vpn);
    while level > 0
      invariant 0 <= level <= 2
      invariant Has(mm, root, sh') && Built(mm.low, old(mm.mem), old(mm.free), sh, mm.mem, mm.free, sh', root)
      invariant forall v: nat :: Lookup(mm.mem, root, v) == Lookup(old(mm.mem), root, v)
      invariant At(level, vpn) in sh' && table == sh'[At(level, vpn)] && Adds(sh, sh', vpn, 1)
      invariant !alloc ==> mm.mem == old(mm.mem) && mm.free == old(mm.free) && sh' == sh
    {
      ghost var n := At(level, vpn);
      NextTable(level, vpn);
      EntryLeads(mm.low, mm.mem, root, sh', n, Px(level, vpn));
      var pte := mm.mem[table][Px(level, vpn)];
      if Valid(pte) {
        PointerEntry(sh'[At(level - 1, vpn)]);
        table := Ppn(pte);
      } else {
        NoLower(mm.low, mm.mem, root, sh', level, vpn);
        if !alloc {
          return 0, 0, sh';
        }
        TopIndex(vpn);
        var child: nat := NewTable(mm, root, table, Px(level, vpn), n, old(mm.mem), old(mm.free), sh, sh');
        if child == 0 {
          return 0, 0, sh';
        }
        BuiltHas(mm, old(mm.mem), old(mm.free), sh, sh'[At(level - 1, vpn) := child], root);
        AddsTable(sh, sh', vpn, level - 1, child);
        sh' := sh'[At(level - 1, vpn) := child];
        table := child;
      }
      level := level - 1;
    }
    TableUsed(mm.low, mm.mem, root, sh', At(0, vpn));
    page, i := table, Px(0, vpn);
  }

  /** A table below the root on the way to page number `v`. */
  predicate OnWalk(n: Node, v: nat) { n == At(1, v) || n == At(0, v) }

  /** The new tables lie on the ways to `n` page numbers from `first`. */
  ghost predicate Adds(sh: Shape, sh': Shape, first: nat, n: nat) {
    forall m | m in sh' && m !in sh :: exists v: nat :: first <= v < first + n && OnWalk(m, v)
  }

  lemma AddsNone(sh: Shape, v: nat)
    ensures Adds(sh, sh, v, 1)
  {
  }

  lemma AddsTable(sh: Shape, sh': Shape, v: nat, level: nat, page: nat)
    requires Adds(sh, sh', v, 1) && level <= 1
    ensures Adds(sh, sh'[At(level, v) := page], v, 1)
  {
    assert OnWalk(At(level, v), v);
  }

  lemma AddsTrans(s0: Shape, s1: Shape, s2: Shape, first: nat, k: nat)
    requires Adds(s0, s1, first, k) && Adds(s1, s2, first + k, 1)
    ensures Adds(s0, s2, first, k + 1)
  {
    hide OnWalk;
  }

  lemma RootTable(low: nat, mem: Memory, root: nat, sh: Shape, vpn: nat)
    requires Tree(low, mem, root, sh)
    ensures At(2, vpn) in sh && sh[At(2, vpn)] == root
  {
  }

  lemma TableUsed(low: nat, mem: Memory, root: nat, sh: Shape, n: Node)
    requires Tree(low, mem, root, sh) && n in sh
    ensures sh[n] in mem && sh[n] in sh.Values && sh[n] != 0
  {
  }

  lemma NextTable(level: nat, vpn: nat)
    requires 0 < level <= 2
    ensures Interior(At(level, vpn)) && Down(At(level, vpn), Px(level, vpn)) == At(level - 1, vpn)
    ensures At(level, vpn).Root? <==> level == 2
  {
  }

  lemma TopIndex(vpn: nat)
    requires vpn < NVPN
    ensures Px(2, vpn) < 256
  {
  }

  lemma NoLower(low: nat, mem: Memory, root: nat, sh: Shape, level: nat, vpn: nat)
    requires Tree(low, mem, root, sh) && 0 < level <= 2 && At(level - 1, vpn) !in sh
    ensures At(0, vpn) !in sh
  {
    if level == 2 { assert Up(At(0, vpn)) == At(1, vpn); }
  }

  // ---- mappages -----------------------------------------------------------------------------

  lemma BuiltTrans(low: nat, m0: Memory, f0: seq<nat>, s0: Shape, m1: Memory, f1: seq<nat>, s1: Shape,
                   m2: Memory, f2: seq<nat>, s2: Shape, root: nat)
    requires Built(low, m0, f0, s0, m1, f1, s1, root) && Built(low, m1, f1, s1, m2, f2, s2, root)
    ensures Built(low, m0, f0, s0, m2, f2, s2, root)
  {
    assert f2 == f0[|f0| - |f2|..];
    forall p | p in m0 && p !in s0.Values && p !in f0 ensures m2[p] == m0[p] {
      assert p !in s1.Values + ToSet(f1);
    }
  }

  /** Writing a leaf entry takes no page. */
  lemma BuiltLeaf(low: nat, m0: Memory, f0: seq<nat>, s0: Shape, m1: Memory, f1: seq<nat>, s1: Shape,
                  root: nat, n: Node, i: nat, pte: nat)
    requires Built(low, m0, f0, s0, m1, f1, s1, root) && n in s1 && n.Lowest? && i < 512
    ensures s1[n] in m1 && s1[n] !in f1
    ensures Built(low, m0, f0, s0, SetEntry(m1, s1[n], i, pte), f1, s1, root)
  {
    SetLeafTree(low, m1, root, s1, n, i, pte);
    assert s1[n] in s1.Values;
    assert s1[n] !in ToSet(f1);
    forall p | p in m0 && p !in s0.Values && p !in f0 ensures p != s1[n] {
      assert p !in s1.Values + ToSet(f1);
    }
  }

  /** The entry that mappages writes for page number `v` when `first` is mapped to `ppn`. */
  function RangePte(first: nat, ppn: nat, perm: nat, v: nat): nat
    requires perm < 1024 && first <= v
  {
    MkPte(ppn + (v - first), perm)
  }

  /** The translation of every page number after the first `k` pages were mapped at `first`. */
  ghost predicate Mapped(mem: Memory, mem': Memory, root: nat, first: nat, k: nat, ppn: nat, perm: nat)
    requires perm < 1024
  {
    forall v: nat | v < NVPN ::
      Lookup(mem', root, v) ==
      if first <= v < first + k then Some(RangePte(first, ppn, perm, v)) else Lookup(mem, root, v)
  }

  /** One turn of the loop in mappages: find or make the entry for `vpn` and fill it. */
  method MapPage(mm: PhysMem, root: nat, vpn: nat, ppn: nat, perm: nat, ghost sh: Shape)
    returns (ok: bool, ghost sh': Shape)
    requires Has(mm, root, sh) && vpn < NVPN && perm < 1024
    modifies mm
    ensures Has(mm, root, sh') && Built(mm.low, old(mm.mem), old(mm.free), sh, mm.mem, mm.free, sh', root)
    ensures !ok ==> mm.free == [] && At(0, vpn) !in sh'
    ensures Adds(sh, sh', vpn, 1)
    ensures Mapped(old(mm.mem), mm.mem, root, vpn, if ok then 1 else 0, ppn, perm)
  {
    hide Built, Tree, Lookup, At, Px, FreeList, Adds;
    assert vpn * PGSIZE / PGSIZE == vpn;
    var page, i;
    page, i, sh' := Walk(mm, root, vpn * PGSIZE, true, sh);
    if page == 0 {
      return false, sh';
    }
    LeafWrite(mm.low, old(mm.mem), old(mm.free), sh, mm.mem, mm.free, sh', root, vpn, ppn, perm);
    mm.Store(page, i, MkPte(ppn, perm));
    BuiltHas(mm, old(mm.mem), old(mm.free), sh, sh', root);
    ok := true;
  }

  /** Filling the entry that walk found for `vpn`. */
  lemma LeafWrite(low: nat, m0: Memory, f0: seq<nat>, s0: Shape, m1: Memory, f1: seq<nat>, s1: Shape,
                  root: nat, vpn: nat, ppn: nat, perm: nat)
    requires Built(low, m0, f0, s0, m1, f1, s1, root) && At(0, vpn) in s1 && vpn < NVPN && perm < 1024
    requires forall v: nat :: Lookup(m1, root, v) == Lookup(m0, root, v)
    ensures var page := s1[At(0, vpn)];
            && page in m1 && page !in f1
            && var m2 := SetEntry(m1, page, Px(0, vpn), MkPte(ppn, perm));
               && Tree(low, m2, root, s1)
               && Built(low, m0, f0, s0, m2, f1, s1, root)
               && Mapped(m0, m2, root, vpn, 1, ppn, perm)
  {
    BuiltLeaf(low, m0, f0, s0, m1, f1, s1, root, At(0, vpn), Px(0, vpn), MkPte(ppn, perm));
    MapStep(low, m0, m1, SetEntry(m1, s1[At(0, vpn)], Px(0, vpn), MkPte(ppn, perm)), root, s1, vpn, 0, ppn, perm);
  }

  lemma MapStep(low: nat, mem: Memory, mem1: Memory, mem2: Memory, root: nat, sh: Shape,
                first: nat, k: nat, ppn: nat, perm: nat)
    requires perm < 1024 && Mapped(mem, mem1, root, first, k, ppn, perm)
    requires Tree(low, mem1, root, sh) && first + k < NVPN && At(0, first + k) in sh && sh[At(0, first + k)] in mem1
    requires mem2 == SetEntry(mem1, sh[At(0, first + k)], Px(0, first + k), MkPte(ppn + k, perm))
    ensures Mapped(mem, mem2, root, first, k + 1, ppn, perm)
  {
    forall v: nat | v < NVPN
      ensures Lookup(mem2, root, v) ==
        if first <= v < first + k + 1 then Some(RangePte(first, ppn, perm, v)) else Lookup(mem, root, v)
    {
      SetLeafLookup(low, mem1, root, sh, first + k, MkPte(ppn + k, perm), v);
    }
  }

  lemma MappedTrans(m0: Memory, m1: Memory, m2: Memory, root: nat, first: nat, k: nat, j: nat, ppn: nat, perm: nat)
    requires perm < 1024 && Mapped(m0, m1, root, first, k, ppn, perm) && Mapped(m1, m2, root, first + k, j, ppn + k, perm)
    ensures Mapped(m0, m2, root, first, k + j, ppn, perm)
  {
    hide Lookup;
  }

  /** mappages. On success exactly the requested range is added to the map; on failure a proper
      prefix of it, and the allocator is empty. The panic "remap" is a precondition. */
  method MapPages(mm: PhysMem, root: nat, va: nat, size: nat, pa: nat, perm: nat, ghost sh: Shape)
    returns (r: int, ghost sh': Shape, ghost k: nat)
    requires Has(mm, root, sh)
    requires size >= 1 && va + size - 1 < MAXVA && perm < 1024
    requires forall v: nat :: va / PGSIZE <= v <= (va + size - 1) / PGSIZE ==> Lookup(mm.mem, root, v) == None
    modifies mm
    ensures Has(mm, root, sh') && Built(mm.low, old(mm.mem), old(mm.free), sh, mm.mem, mm.free, sh', root)
    ensures Mapped(old(mm.mem), mm.mem, root, va / PGSIZE, k, pa / PGSIZE, perm)
    ensures r == 0 || r == -1
    ensures r == 0 ==> k == (va + size - 1) / PGSIZE - va / PGSIZE + 1
    ensures r == -1 ==> k < (va + size - 1) / PGSIZE - va / PGSIZE + 1 && mm.free == [] && At(0, va / PGSIZE + k) !in sh'
    ensures Adds(sh, sh', va / PGSIZE, if r == 0 then k else k + 1)
  {
    hide Has, Mapped, Lookup, Built, Tree, FreeList, RangePte, Adds, At;
    var a, last, p := va / PGSIZE, (va + size - 1) / PGSIZE, pa / PGSIZE;  // in pages
    ghost var first := a;
    sh', k := sh, 0;
    StartMapping(mm, root, sh, first, p, perm);
    while true
      invariant a == first + k && a <= last < NVPN && p == pa / PGSIZE + k
      invariant Has(mm, root, sh') && Built(mm.low, old(mm.mem), old(mm.free), sh, mm.mem, mm.free, sh', root)
      invariant Mapped(old(mm.mem), mm.mem, root, first, k, pa / PGSIZE, perm) && Adds(sh, sh', first, k)
      decreases last - a
    {
      ghost var m1, f1, s1 := mm.mem, mm.free, sh';
      var ok;
      ok, sh' := MapPage(mm, root, a, p, perm, sh');
      BuiltTrans(mm.low, old(mm.mem), old(mm.free), sh, m1, f1, s1, mm.mem, mm.free, sh', root);
      AddsTrans(sh, s1, sh', first, k);
      MappedTrans(old(mm.mem), m1, mm.mem, root, first, k, if ok then 1 else 0, pa / PGSIZE, perm);
      if !ok {
        return -1, sh', k;
      }
      k := k + 1;
      if a == last {
        break;
      }
      a, p := a + 1, p + 1;
    }
    r := 0;
  }

  lemma StartMapping(mm: PhysMem, root: nat, sh: Shape, first: nat, ppn: nat, perm: nat)
    requires Has(mm, root, sh) && perm < 1024
    ensures Built(mm.low, mm.mem, mm.free, sh, mm.mem, mm.free, sh, root)
    ensures Mapped(mm.mem, mm.mem, root, first, 0, ppn, perm) && Adds(sh, sh, first, 0)
  {
  }
}
