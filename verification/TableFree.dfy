// xv6/kernel/vm.c: freewalk and uvmfree give every page of a table back exactly once.

module TableFree {
  import opened Common
  import opened Sv39
  import opened PageAlloc
  import opened VirtualMemory
  import opened UserMemory

  /** `m` is `n` or a table below it. */
  predicate Below(m: Node, n: Node) {
    n.Root? || m == n || (n.Middle? && m.Lowest? && m.i2 == n.i2)
  }

  /** The entry of `n` through which `m` is reached. */
  function Branch(m: Node, n: Node): nat
    requires Below(m, n) && m != n
  {
    if n.Root? then m.i2 else m.i1
  }

  ghost function SubPages(sh: Shape, n: Node): set<nat> {
    set m | m in sh && Below(m, n) :: sh[m]
  }

  /** Pages of the tables reached through the first `k` entries of `n`. */
  ghost function FirstPages(sh: Shape, n: Node, k: nat): set<nat> {
    set m | m in sh && Below(m, n) && m != n && Branch(m, n) < k :: sh[m]
  }

  /** The tables from `n` down are in memory, none free, and hold no leaf. */
  ghost predicate SubTree(low: nat, mem: Memory, sh: Shape, free: seq<nat>, n: Node) {
    && n in sh && Injective(sh)
    && (forall m :: m in sh && Below(m, n) ==> InRam(low, sh[m]) && sh[m] in mem && sh[m] !in free)
    && (forall m, i :: m in sh && Below(m, n) && Interior(m) && 0 <= i < 512 ==>
          && (Valid(mem[sh[m]][i]) <==> Down(m, i) in sh)
          && (Down(m, i) in sh ==> mem[sh[m]][i] == sh[Down(m, i)] * 1024 + PTE_V))
    && (forall m, i :: m in sh && Below(m, n) && m.Lowest? && 0 <= i < 512 ==> !Valid(mem[sh[m]][i]))
    && (forall m :: m in sh && Below(m, n) && m != n ==> Slot(m) < 512 && Up(m) in sh)
  }

  function Height(n: Node): nat { if n.Root? then 2 else if n.Middle? then 1 else 0 }

  /** freewalk; its panic on a leaf is unreachable here. */
  method FreeWalk(mm: PhysMem, table: nat, ghost n: Node, ghost sh: Shape)
    requires mm.Valid() && SubTree(mm.low, mm.mem, sh, mm.free, n) && table == sh[n]
    modifies mm
    ensures mm.Valid()
    ensures ToSet(mm.free) == ToSet(old(mm.free)) + SubPages(sh, n)
    ensures Untouched(old(mm.mem), mm.mem, SubPages(sh, n))
    decreases Height(n)
  {
    hide FreeList, InRam, SubTree, SubPages, FirstPages;
    var i := 0;
    FreeStart(mm.low, mm.mem, mm.free, sh, n);
    while i < 512
      invariant 0 <= i <= 512 && mm.Valid()
      invariant FreeState(mm.low, old(mm.mem), old(mm.free), mm.mem, mm.free, sh, n, i)
    {
      ghost var m1, f1 := mm.mem, mm.free;
      FreeReady(mm.low, old(mm.mem), old(mm.free), m1, f1, sh, n, i);
      var pte := mm.mem[table][i];
      if Valid(pte) && Flags(pte) / 2 % 8 == 0 {
        FreeWalk(mm, Ppn(pte), Down(n, i), sh);
        FreeStep(mm.low, old(mm.mem), old(mm.free), m1, f1, mm.mem, mm.free, sh, n, i);
        mm.Store(table, i, 0);
      }
      i := i + 1;
    }
    FreeDone(mm.low, old(mm.mem), old(mm.free), mm.mem, mm.free, sh, n);
    mm.Kfree(table);
  }

  /** After the loop in freewalk has visited `k` entries of `n`. */
  ghost predicate FreeState(low: nat, m0: Memory, f0: seq<nat>, m: Memory, f: seq<nat>, sh: Shape, n: Node, k: nat) {
    && SubTree(low, m0, sh, f0, n)
    && m.Keys == m0.Keys
    && ToSet(f) == ToSet(f0) + FirstPages(sh, n, k)
    && sh[n] in m && (forall j :: k <= j < 512 ==> m[sh[n]][j] == m0[sh[n]][j])
    && Untouched(m0, m, FirstPages(sh, n, k) + {sh[n]})
  }

  lemma FreeStart(low: nat, m: Memory, f: seq<nat>, sh: Shape, n: Node)
    requires SubTree(low, m, sh, f, n)
    ensures FreeState(low, m, f, m, f, sh, n, 0)
  {
    assert FirstPages(sh, n, 0) == {};
    assert Below(n, n);
  }

  /** A table outside the first `k` branches is not among the pages freed so far. */
  lemma NotFreed(low: nat, m0: Memory, f0: seq<nat>, f: seq<nat>, sh: Shape, n: Node, k: nat, t: Node)
    requires SubTree(low, m0, sh, f0, n) && ToSet(f) == ToSet(f0) + FirstPages(sh, n, k)
    requires t in sh && Below(t, n) && (t != n ==> Branch(t, n) >= k)
    ensures sh[t] !in FirstPages(sh, n, k) && sh[t] !in f
  {
    assert sh[t] !in ToSet(f0);
    assert sh[t] !in ToSet(f);
  }

  lemma BelowDown(n: Node, i: nat, m: Node)
    requires Interior(n)
    ensures Below(Down(n, i), n) && Down(n, i) != n && Branch(Down(n, i), n) == i
    ensures (Below(m, n) && m != n && Branch(m, n) == i) <==> Below(m, Down(n, i))
  {
  }

  lemma FirstPagesStep(sh: Shape, n: Node, k: nat)
    requires Interior(n) && forall m :: m in sh && Below(m, n) && m != n ==> Up(m) in sh
    ensures FirstPages(sh, n, k + 1) == FirstPages(sh, n, k) + SubPages(sh, Down(n, k))
    ensures Down(n, k) !in sh ==> SubPages(sh, Down(n, k)) == {}
  {
    forall m ensures (Below(m, n) && m != n && Branch(m, n) == k) <==> Below(m, Down(n, k)) {
      BelowDown(n, k, m);
    }
    if Down(n, k) !in sh {
      forall m | Below(m, Down(n, k)) ensures m !in sh {
        assert m != Down(n, k) ==> Up(m) == Down(n, k);
      }
    }
  }

  /** What the loop in freewalk finds at entry `k`. */
  lemma FreeReady(low: nat, m0: Memory, f0: seq<nat>, m: Memory, f: seq<nat>, sh: Shape, n: Node, k: nat)
    requires FreeState(low, m0, f0, m, f, sh, n, k) && k < 512
    ensures sh[n] in m && sh[n] !in f
    ensures Valid(m[sh[n]][k]) ==> Interior(n) && Down(n, k) in sh && m[sh[n]][k] == sh[Down(n, k)] * 1024 + PTE_V
    ensures Valid(m[sh[n]][k]) ==> SubTree(low, m, sh, f, Down(n, k))
    ensures !Valid(m[sh[n]][k]) ==> FreeState(low, m0, f0, m, f, sh, n, k + 1)
  {
    assert Below(n, n);
    NotFreed(low, m0, f0, f, sh, n, k, n);
    if n.Lowest? {
      assert FirstPages(sh, n, k + 1) == FirstPages(sh, n, k);
    } else {
      FirstPagesStep(sh, n, k);
      if Valid(m[sh[n]][k]) {
        SubTreeDown(low, m0, f0, m, f, sh, n, k);
      }
    }
  }

  lemma SubTreeDown(low: nat, m0: Memory, f0: seq<nat>, m: Memory, f: seq<nat>, sh: Shape, n: Node, k: nat)
    requires FreeState(low, m0, f0, m, f, sh, n, k) && k < 512 && Interior(n) && Down(n, k) in sh
    ensures SubTree(low, m, sh, f, Down(n, k))
  {
    forall t | t in sh && Below(t, Down(n, k))
      ensures Below(t, n) && t != n && sh[t] in m && m[sh[t]] == m0[sh[t]] && sh[t] !in f
    {
      BelowDown(n, k, t);
      NotFreed(low, m0, f0, f, sh, n, k, t);
      assert sh[t] != sh[n];
    }
  }

  lemma FreeStep(low: nat, m0: Memory, f0: seq<nat>, m1: Memory, f1: seq<nat>, m2: Memory, f2: seq<nat>,
                 sh: Shape, n: Node, k: nat)
    requires FreeState(low, m0, f0, m1, f1, sh, n, k) && k < 512 && Interior(n) && Down(n, k) in sh
    requires ToSet(f2) == ToSet(f1) + SubPages(sh, Down(n, k)) && Untouched(m1, m2, SubPages(sh, Down(n, k)))
    ensures sh[n] in m2 && sh[n] !in f2
    ensures FreeState(low, m0, f0, SetEntry(m2, sh[n], k, 0), f2, sh, n, k + 1)
  {
    FirstPagesStep(sh, n, k);
    assert Below(n, n);
    NotFreed(low, m0, f0, f2, sh, n, k + 1, n);
    assert sh[n] !in SubPages(sh, Down(n, k));
  }

  lemma FreeDone(low: nat, m0: Memory, f0: seq<nat>, m: Memory, f: seq<nat>, sh: Shape, n: Node)
    requires FreeState(low, m0, f0, m, f, sh, n, 512)
    ensures InRam(low, sh[n]) && sh[n] !in f && sh[n] in m && sh[n] in SubPages(sh, n)
    ensures ToSet([sh[n]] + f) == ToSet(f0) + SubPages(sh, n)
    ensures Untouched(m0, m, SubPages(sh, n))
  {
    assert Below(n, n);
    NotFreed(low, m0, f0, f, sh, n, 512, n);
    forall m | m in sh && Below(m, n) && m != n ensures Branch(m, n) < 512 {
      assert Branch(m, n) == Slot(m) || Branch(m, n) == Slot(Up(m));
    }
    assert FirstPages(sh, n, 512) + {sh[n]} == SubPages(sh, n);
    ToSetCons(sh[n], f);
  }

  // ---- uvmfree ----------------------------------------------------------------------------------

  /** A tree without translations is a tree of empty tables. */
  lemma EmptyTree(low: nat, mem: Memory, root: nat, sh: Shape, free: seq<nat>)
    requires Tree(low, mem, root, sh) && sh.Values !! ToSet(free)
    requires forall v: nat | v < NVPN :: Lookup(mem, root, v) == None
    ensures SubTree(low, mem, sh, free, Root) && SubPages(sh, Root) == sh.Values
  {
    forall m, i | m in sh && Interior(m) && 0 <= i < 512
      ensures Valid(mem[sh[m]][i]) <==> Down(m, i) in sh
      ensures Down(m, i) in sh ==> mem[sh[m]][i] == sh[Down(m, i)] * 1024 + PTE_V
    {
      EntryLeads(low, mem, root, sh, m, i);
    }
    forall m, i | m in sh && m.Lowest? && 0 <= i < 512 ensures !Valid(mem[sh[m]][i]) {
      assert Up(m) in sh && m.i1 < 512 && m.i2 < 256;
      var v := PageNumber(m.i2, m.i1, i);
      TableIs(low, mem, root, sh, v);
      assert Lookup(mem, root, v) == None;
    }
    forall m | m in sh ensures sh[m] !in free {
      assert sh[m] in sh.Values;
    }
  }

  /** The page number with given indices. */
  lemma PageNumber(i2: nat, i1: nat, i0: nat) returns (v: nat)
    requires i2 < 256 && i1 < 512 && i0 < 512
    ensures v < NVPN && At(0, v) == Lowest(i2, i1) && Px(0, v) == i0
  {
    v := i2 * 0x4_0000 + i1 * 512 + i0;
    assert v / 512 == i2 * 512 + i1;
    assert v / 0x4_0000 == i2;
  }

  /** uvmfree: every user page and every table page becomes free, each once (the free list never
      holds a page twice). */
  method UvmFree(mm: PhysMem, root: nat, sz: nat, ghost sh: Shape)
    requires Has(mm, root, sh) && RoundUp(sz) <= NVPN
    requires OwnsRange(mm.low, mm.mem, root, sh, mm.free, 0, RoundUp(sz))
    requires forall v: nat | RoundUp(sz) <= v < NVPN :: Lookup(mm.mem, root, v) == None
    modifies mm
    ensures mm.Valid()
    ensures ToSet(mm.free) == ToSet(old(mm.free)) + sh.Values + Frames(old(mm.mem), root, 0, RoundUp(sz))
    ensures Untouched(old(mm.mem), mm.mem, sh.Values + Frames(old(mm.mem), root, 0, RoundUp(sz)))
  {
    hide Lookup, SubTree, FreeList;
    if sz > 0 {
      var panicked, k := UvmUnmap(mm, root, 0, RoundUp(sz), true, sh);
      assert !panicked;
    } else {
      assert Frames(mm.mem, root, 0, 0) == {};
    }
    EmptyTree(mm.low, mm.mem, root, sh, mm.free);
    FreeWalk(mm, root, Root, sh);
  }
}
