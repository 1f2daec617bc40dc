// The emulated MMU (semu/semu.c, cpu_translate) reads the tables that the kernel builds
// (xv6/kernel/vm.c) exactly as the kernel does.

module Mmu {
  import opened Common
  import opened Sv39

  const RAM_BASE := 0x8000_0000
  const CLINT_BASE := 0x200_0000
  const CLINT_SIZE := 0x1_0000
  const PLIC_BASE := 0xc00_0000
  const PLIC_SIZE := 0x400_0000
  const UART_BASE := 0x1000_0000
  const UART_SIZE := 0x100
  const VIRTIO_BASE := 0x1000_1000
  const VIRTIO_SIZE := 0x1000
  const PPNMASK := 0x1000_0000_0000  // 2^44: the mask 0x0fffffffffff keeps what is below

  datatype Result = Ok(value: nat) | Fault(cause: nat)

  const LOAD_ACCESS_FAULT := 5

  predicate InRange(x: nat, base: nat, size: nat) { base <= x < base + size }

  /** What a 64-bit load from a device register at this address returns. */
  type Devices = nat -> Result

  /** bus_load of 64 bits at an aligned address; `mem` must hold all RAM that is read. */
  function BusLoad(mem: Memory, devices: Devices, addr: nat): Result
    requires addr >= RAM_BASE ==> addr / PGSIZE in mem
  {
    if InRange(addr, CLINT_BASE, CLINT_SIZE) then devices(addr)
    else if InRange(addr, PLIC_BASE, PLIC_SIZE) then devices(addr)
    else if InRange(addr, UART_BASE, UART_SIZE) then devices(addr)
    else if InRange(addr, VIRTIO_BASE, VIRTIO_SIZE) then devices(addr)
    else if RAM_BASE <= addr then Ok(mem[addr / PGSIZE][addr % PGSIZE / 8])
    else Fault(LOAD_ACCESS_FAULT)
  }

  predicate BitR(pte: nat) { pte / 2 % 2 == 1 }
  predicate BitW(pte: nat) { pte / 4 % 2 == 1 }
  predicate BitX(pte: nat) { pte / 8 % 2 == 1 }

  /** A leaf that the hardware accepts: readable or executable, and not write-only. */
  predicate Accepts(pte: nat) {
    (BitR(pte) || BitX(pte)) && (BitR(pte) || !BitW(pte))
  }

  /** The fields that cpu_update_paging keeps when satp is written. */
  function SatpRoot(satp: nat): nat { satp % PPNMASK }

  predicate SatpEnables(satp: nat) { satp / 0x1000_0000_0000_0000 == 8 }

  /** MAKE_SATP for the table on page `root`. */
  function MakeSatp(root: nat): nat { 0x8000_0000_0000_0000 + root }

  lemma SatpRoundTrip(root: nat)
    requires root < PPNMASK
    ensures SatpEnables(MakeSatp(root)) && SatpRoot(MakeSatp(root)) == root
  {
    assert 0x8000_0000_0000_0000 == PPNMASK * 0x8_0000;
  }

  /** cpu_translate. For a table built by the kernel and an address below MAXVA it succeeds
      exactly when the kernel's walk finds a valid leaf that the hardware accepts, and then gives
      the leaf's page plus the page offset; otherwise it raises the given page fault. */
  method CpuTranslate(mem: Memory, devices: Devices, satp: nat, addr: nat, e: nat,
                      ghost low: nat, ghost sh: Shape) returns (r: Result)
    requires SatpEnables(satp) ==> Tree(low, mem, SatpRoot(satp), sh) && addr < MAXVA
    ensures !SatpEnables(satp) ==> r == Ok(addr)
    ensures SatpEnables(satp) ==>
      var leaf := Lookup(mem, SatpRoot(satp), addr / PGSIZE);
      r == if leaf.Some? && Accepts(leaf.value)
           then Ok(Ppn(leaf.value) % PPNMASK * PGSIZE + addr % PGSIZE)
           else Fault(e)
  {
    if !SatpEnables(satp) {
      return Ok(addr);
    }
    hide Px, At, Table, Lookup, Tree, BusLoad, BitR, BitW, BitX, SatpRoot, SatpEnables;
    var vpn := addr / PGSIZE;
    ghost var root := SatpRoot(satp);
    var a := SatpRoot(satp) * PGSIZE;
    var level := 2;
    var pte := 0;
    RootFirst(low, mem, root, sh, vpn);
    while true
      invariant 0 <= level <= 2
      invariant At(level, vpn) in sh && a == sh[At(level, vpn)] * PGSIZE
      decreases level
    {
      LoadInTable(low, mem, devices, root, sh, At(level, vpn), Px(level, vpn));
      var loaded := BusLoad(mem, devices, a + Px(level, vpn) * 8);
      if loaded.Fault? {
        return loaded;
      }
      pte := loaded.value;
      if !Valid(pte) || (!BitR(pte) && BitW(pte)) {
        Stops(low, mem, root, sh, level, vpn);
        return Fault(e);
      }
      GoesOn(low, mem, root, sh, level, vpn);
      if BitR(pte) || BitX(pte) {
        break;
      }
      a := Ppn(pte) % PPNMASK * PGSIZE;
      level := level - 1;
      if level < 0 {
        return Fault(e);
      }
    }
    assert level == 0;  // so the superpage cases of the code do not arise
    r := Ok(Ppn(pte) % PPNMASK * PGSIZE + addr % PGSIZE);
  }

  lemma RootFirst(low: nat, mem: Memory, root: nat, sh: Shape, vpn: nat)
    requires Tree(low, mem, root, sh)
    ensures At(2, vpn) in sh && sh[At(2, vpn)] == root
  {
  }

  /** A valid entry leads to the next table, or is the leaf. */
  lemma GoesOn(low: nat, mem: Memory, root: nat, sh: Shape, level: nat, vpn: nat)
    requires Tree(low, mem, root, sh) && level <= 2 && At(level, vpn) in sh && sh[At(level, vpn)] in mem
    requires Valid(mem[sh[At(level, vpn)]][Px(level, vpn)])
    ensures var pte := mem[sh[At(level, vpn)]][Px(level, vpn)];
            if level == 0 then Lookup(mem, root, vpn) == Some(pte)
            else !BitR(pte) && !BitX(pte) && At(level - 1, vpn) in sh && Ppn(pte) == sh[At(level - 1, vpn)]
                 && Ppn(pte) < PPNMASK
  {
    if level == 0 {
      TableIs(low, mem, root, sh, vpn);
    } else {
      EntryLeads(low, mem, root, sh, At(level, vpn), Px(level, vpn));
      PointerFlags(sh[At(level - 1, vpn)]);
      assert InRam(low, sh[At(level - 1, vpn)]);
    }
  }

  lemma PointerFlags(ppn: nat)
    ensures var pte := ppn * 1024 + PTE_V;
            !BitR(pte) && !BitW(pte) && !BitX(pte) && Ppn(pte) == ppn
  {
  }

  /** Loads from table pages go to RAM. */
  lemma LoadInTable(low: nat, mem: Memory, devices: Devices, root: nat, sh: Shape, n: Node, i: nat)
    requires Tree(low, mem, root, sh) && n in sh && i < 512
    ensures sh[n] in mem && (sh[n] * PGSIZE + i * 8) / PGSIZE == sh[n]
    ensures BusLoad(mem, devices, sh[n] * PGSIZE + i * 8) == Ok(mem[sh[n]][i])
    ensures sh[n] < PPNMASK
  {
    var addr := sh[n] * PGSIZE + i * 8;
    assert addr / PGSIZE == sh[n] && addr % PGSIZE == i * 8;
    assert InRam(low, sh[n]);
  }

  /** An invalid entry on the way ends the kernel's walk too. */
  lemma Stops(low: nat, mem: Memory, root: nat, sh: Shape, level: nat, vpn: nat)
    requires Tree(low, mem, root, sh) && level <= 2 && At(level, vpn) in sh && sh[At(level, vpn)] in mem
    requires var pte := mem[sh[At(level, vpn)]][Px(level, vpn)]; !Valid(pte) || (!BitR(pte) && BitW(pte))
    ensures var leaf := Lookup(mem, root, vpn); leaf.None? || !Accepts(leaf.value)
  {
    TableIs(low, mem, root, sh, vpn);
    if level > 0 {
      EntryLeads(low, mem, root, sh, At(level, vpn), Px(level, vpn));
      if At(level - 1, vpn) in sh {
        PointerFlags(sh[At(level - 1, vpn)]);
      } else if level == 2 {
        assert Up(At(0, vpn)) == At(1, vpn);
      }
    }
  }
}
