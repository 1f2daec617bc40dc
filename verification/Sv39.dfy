// Sv39 page tables as they lie in physical memory (xv6/kernel/riscv.h, xv6/kernel/vm.c), and
// the tree shape that the kernel keeps. See sections 4.3.2 and 4.4 of the RISC-V Privileged
// Architecture.

module Sv39 {
  import opened Common

  const PGSIZE := 4096
  const PTE_V := 1
  const PTE_R := 2
  const PTE_W := 4
  const PTE_X := 8
  const PTE_U := 16
  const MAXVA := 0x40_0000_0000            // 2^38
  const NVPN := 0x400_0000                 // MAXVA / PGSIZE
  const STOPPAGE := 0x88000                // PHYSTOP / PGSIZE

  /** A page seen as 512 64-bit words; pages are named by their physical page number. */
  type Page = s: seq<nat> | |s| == 512 witness seq(512, _ => 0)
  type Memory = map<nat, Page>

  // ---- page table entries ---------------------------------------------------------------

  predicate Valid(pte: nat) { pte % 2 == 1 }

  function Ppn(pte: nat): nat { pte / 1024 }

  function Flags(pte: nat): nat { pte % 1024 }

  /** PA2PTE(pa) | perm | PTE_V for a page-aligned pa: the low ten bits of PA2PTE are zero. */
  function MkPte(ppn: nat, perm: nat): (pte: nat)
    requires perm < 1024
    ensures Valid(pte) && Ppn(pte) == ppn && Flags(pte) == if Valid(perm) then perm else perm + 1
  {
    ppn * 1024 + if Valid(perm) then perm else perm + 1
  }

  /** The entry that walk writes for a new table. */
  lemma PointerEntry(ppn: nat)
    ensures Valid(ppn * 1024 + PTE_V) && Ppn(ppn * 1024 + PTE_V) == ppn
  {
    OddOf(512 * ppn, 1024 * ppn + PTE_V);
    QuotientOf(ppn, PTE_V, 1024 * ppn + PTE_V);
  }

  lemma OddOf(q: nat, x: nat)
    requires x == 2 * q + 1
    ensures x % 2 == 1
  {
  }

  lemma QuotientOf(q: nat, r: nat, x: nat)
    requires x == 1024 * q + r && r < 1024
    ensures x / 1024 == q
  {
  }

  // ---- the flat view --------------------------------------------------------------------

  /** PX(level, va) for the page number `vpn` of va. */
  function Px(level: nat, vpn: nat): (i: nat)
    requires level <= 2
    ensures i < 512
  {
    if level == 0 then vpn % 512 else if level == 1 then vpn / 512 % 512 else vpn / 0x4_0000 % 512
  }

  /** The level-0 table page that a walk from `root` reaches for `vpn`. */
  function Table(mem: Memory, root: nat, vpn: nat): Option<nat> {
    if root !in mem then None
    else
      var e2 := mem[root][Px(2, vpn)];
      if !Valid(e2) || Ppn(e2) !in mem then None
      else
        var e1 := mem[Ppn(e2)][Px(1, vpn)];
        if !Valid(e1) || Ppn(e1) !in mem then None else Some(Ppn(e1))
  }

  /** The valid leaf entry for `vpn`, if there is one. */
  function Lookup(mem: Memory, root: nat, vpn: nat): Option<nat> {
    var t := Table(mem, root, vpn);
    if t.None? || t.value !in mem || !Valid(mem[t.value][Px(0, vpn)]) then None
    else Some(mem[t.value][Px(0, vpn)])
  }

  // ---- the tree -------------------------------------------------------------------------

  /** A table of the tree, named by the indices that lead to it from the root. */
  datatype Node = Root | Middle(i2: nat) | Lowest(i2: nat, i1: nat)

  predicate Interior(n: Node) { !n.Lowest? }

  /** The table that entry `i` of interior table `n` leads to. */
  function Down(n: Node, i: nat): Node
    requires Interior(n)
  {
    if n.Root? then Middle(i) else Lowest(n.i2, i)
  }

  function Up(n: Node): Node
    requires !n.Root?
  {
    if n.Middle? then Root else Middle(n.i2)
  }

  /** The index in Up(n) of the entry that leads to `n`. */
  function Slot(n: Node): nat
    requires !n.Root?
  {
    if n.Middle? then n.i2 else n.i1
  }

  /** The table that a walk for `vpn` consults at `level`. */
  function At(level: nat, vpn: nat): Node
    requires level <= 2
  {
    if level == 2 then Root else if level == 1 then Middle(Px(2, vpn)) else Lowest(Px(2, vpn), Px(1, vpn))
  }

  /** Which page holds which table. */
  type Shape = map<Node, nat>

  predicate InRam(low: nat, p: nat) { 0x80000 <= low <= p < STOPPAGE }

  ghost predicate Injective(sh: Shape) {
    forall m, n :: m in sh && n in sh && m != n ==> sh[m] != sh[n]
  }

  /** Every table but the root is referenced by the entry of its parent ... */
  ghost predicate Linked(mem: Memory, sh: Shape) {
    forall n :: n in sh ==>
      && sh[n] in mem
      && (!n.Root? ==>
            && Slot(n) < 512 && Up(n) in sh && sh[Up(n)] in mem
            && mem[sh[Up(n)]][Slot(n)] == sh[n] * 1024 + PTE_V)
  }

  /** ... and every valid entry above the lowest level refers to a table of the tree. */
  ghost predicate Covered(mem: Memory, sh: Shape) {
    forall n, i :: n in sh && Interior(n) && 0 <= i < 512 && sh[n] in mem && Valid(mem[sh[n]][i]) ==>
      Down(n, i) in sh
  }

  /** Addresses below MAXVA use the lower half of the root table. */
  ghost predicate LowerHalf(sh: Shape) {
    forall n :: n in sh && !n.Root? ==> n.i2 < 256
  }

  /** A page table rooted at page `root`: each table page is referenced by exactly one entry. */
  ghost predicate Tree(low: nat, mem: Memory, root: nat, sh: Shape) {
    && Root in sh && sh[Root] == root
    && Injective(sh) && LowerHalf(sh) && Linked(mem, sh) && Covered(mem, sh)
    && forall n :: n in sh ==> InRam(low, sh[n])
  }

  /** Where the entries of a table lead. */
  lemma EntryLeads(low: nat, mem: Memory, root: nat, sh: Shape, n: Node, i: nat)
    requires Tree(low, mem, root, sh) && n in sh && Interior(n) && i < 512
    ensures sh[n] in mem
    ensures Valid(mem[sh[n]][i]) <==> Down(n, i) in sh
    ensures Down(n, i) in sh ==> mem[sh[n]][i] == sh[Down(n, i)] * 1024 + PTE_V && sh[Down(n, i)] in mem
  {
    var d := Down(n, i);
    assert Up(d) == n && Slot(d) == i;
    if d in sh {
      PointerEntry(sh[d]);
    }
  }

  /** In a tree the walk reaches exactly the tables of the shape. */
  lemma TableIs(low: nat, mem: Memory, root: nat, sh: Shape, vpn: nat)
    requires Tree(low, mem, root, sh)
    ensures Table(mem, root, vpn) == if At(0, vpn) in sh then Some(sh[At(0, vpn)]) else None
    ensures At(0, vpn) in sh ==> sh[At(0, vpn)] in mem
  {
    EntryLeads(low, mem, root, sh, Root, Px(2, vpn));
    if At(1, vpn) in sh {
      EntryLeads(low, mem, root, sh, At(1, vpn), Px(1, vpn));
    } else {
      assert At(1, vpn) == Up(At(0, vpn));
    }
  }

  // ---- what changes to table pages do -----------------------------------------------------

  function ZeroPage(): Page { seq(512, _ => 0) }

  /** Hanging zeroed page `page` under entry `i` of page `p`. */
  function AddTable(mem: Memory, p: nat, i: nat, page: nat): Memory
    requires p in mem && i < 512
  {
    mem[page := ZeroPage()][p := mem[p][i := page * 1024 + PTE_V]]
  }

  lemma AddTableTree(low: nat, mem: Memory, root: nat, sh: Shape, n: Node, i: nat, page: nat)
    requires Tree(low, mem, root, sh) && n in sh && Interior(n) && i < 512 && Down(n, i) !in sh
    requires InRam(low, page) && page !in sh.Values && (n.Root? ==> i < 256)
    ensures sh[n] in mem
    ensures Tree(low, AddTable(mem, sh[n], i, page), root, sh[Down(n, i) := page])
  {
    var child, mem', sh' := Down(n, i), AddTable(mem, sh[n], i, page), sh[Down(n, i) := page];
    forall m | m in sh ensures sh[m] != page { assert sh[m] in sh.Values; }
    forall m | m in sh' && !m.Root?
      ensures Slot(m) < 512 && Up(m) in sh' && sh'[Up(m)] in mem' && mem'[sh'[Up(m)]][Slot(m)] == sh'[m] * 1024 + PTE_V
    {
      if m == child {
        assert Up(m) == n && Slot(m) == i;
      } else {
        assert m in sh;
        assert Up(m) in sh;
        assert Up(m) == n ==> Slot(m) != i;
      }
    }
    forall m, k | m in sh' && Interior(m) && 0 <= k < 512 && sh'[m] in mem' && Valid(mem'[sh'[m]][k])
      ensures Down(m, k) in sh'
    {
      if m != child && !(m == n && k == i) {
        assert mem'[sh'[m]][k] == mem[sh[m]][k];
      }
    }
  }

  /** Adding an empty table changes no translation. */
  lemma AddTableLookup(low: nat, mem: Memory, root: nat, sh: Shape, n: Node, i: nat, page: nat, v: nat)
    requires Tree(low, mem, root, sh) && n in sh && Interior(n) && i < 512 && Down(n, i) !in sh
    requires InRam(low, page) && page !in sh.Values && sh[n] in mem && (n.Root? ==> i < 256)
    ensures Lookup(AddTable(mem, sh[n], i, page), root, v) == Lookup(mem, root, v)
  {
    var mem' := AddTable(mem, sh[n], i, page);
    AddTableTree(low, mem, root, sh, n, i, page);
    TableIs(low, mem, root, sh, v);
    TableIs(low, mem', root, sh[Down(n, i) := page], v);
    var leaf := At(0, v);
    if leaf in sh {
      assert sh[leaf] != page by { assert sh[leaf] in sh.Values; }
      assert mem'[sh[leaf]] == mem[sh[leaf]];
    }
  }

  function SetEntry(mem: Memory, p: nat, i: nat, pte: nat): Memory
    requires p in mem && i < 512
  {
    mem[p := mem[p][i := pte]]
  }

  /** Writing an entry of a lowest table keeps the tree ... */
  lemma SetLeafTree(low: nat, mem: Memory, root: nat, sh: Shape, n: Node, i: nat, pte: nat)
    requires Tree(low, mem, root, sh) && n in sh && n.Lowest? && i < 512
    ensures sh[n] in mem
    ensures Tree(low, SetEntry(mem, sh[n], i, pte), root, sh)
  {
    var mem' := SetEntry(mem, sh[n], i, pte);
    forall m, k | m in sh && Interior(m) && 0 <= k < 512 && sh[m] in mem' && Valid(mem'[sh[m]][k])
      ensures Down(m, k) in sh
    {
      assert mem'[sh[m]][k] == mem[sh[m]][k];
    }
    assert Linked(mem', sh);
  }

  /** Page numbers are determined by the indices of their walk. */
  lemma SameWalk(v: nat, w: nat)
    requires v < NVPN && w < NVPN && At(0, v) == At(0, w) && Px(0, v) == Px(0, w)
    ensures v == w
  {
    Digits(v);
    Digits(w);
  }

  lemma Digits(v: nat)
    requires v < NVPN
    ensures v == Px(2, v) * 0x4_0000 + Px(1, v) * 512 + Px(0, v)
  {
    assert v / 0x4_0000 == v / 512 / 512;
    assert v / 0x4_0000 < 512;
  }

  /** ... and changes the translation of one page number only. */
  lemma SetLeafLookup(low: nat, mem: Memory, root: nat, sh: Shape, vpn: nat, pte: nat, v: nat)
    requires Tree(low, mem, root, sh) && vpn < NVPN && v < NVPN && At(0, vpn) in sh && sh[At(0, vpn)] in mem
    ensures Lookup(SetEntry(mem, sh[At(0, vpn)], Px(0, vpn), pte), root, v) ==
            if v != vpn then Lookup(mem, root, v) else if Valid(pte) then Some(pte) else None
  {
    var mem' := SetEntry(mem, sh[At(0, vpn)], Px(0, vpn), pte);
    SetLeafTree(low, mem, root, sh, At(0, vpn), Px(0, vpn), pte);
    TableIs(low, mem, root, sh, v);
    TableIs(low, mem', root, sh, v);
    if At(0, v) == At(0, vpn) && Px(0, v) == Px(0, vpn) {
      SameWalk(v, vpn);
    }
  }

  /** A tree depends on its own table pages only. */
  lemma TreeFrame(low: nat, mem: Memory, mem': Memory, root: nat, sh: Shape)
    requires Tree(low, mem, root, sh)
    requires forall p :: p in sh.Values ==> p in mem && p in mem' && mem'[p] == mem[p]
    ensures Tree(low, mem', root, sh)
    ensures forall v: nat :: Lookup(mem', root, v) == Lookup(mem, root, v)
  {
    forall n | n in sh ensures sh[n] in mem && sh[n] in mem' && mem'[sh[n]] == mem[sh[n]] {
      assert sh[n] in sh.Values;
    }
    assert Linked(mem', sh) && Covered(mem', sh);
    forall v: nat ensures Lookup(mem', root, v) == Lookup(mem, root, v) {
      TableIs(low, mem, root, sh, v);
      TableIs(low, mem', root, sh, v);
    }
  }
}
