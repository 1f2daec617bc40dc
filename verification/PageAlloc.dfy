// xv6/kernel/kalloc.c: the free list of physical pages, threaded through the pages themselves.

module PageAlloc {
  import opened Common
  import opened Sv39

  ghost function ToSet(s: seq<nat>): set<nat> { set p | p in s }

  /** The `next` word of the i-th free page. */
  function NextAddr(free: seq<nat>, i: nat): nat {
    if i < |free| then free[i] * PGSIZE else 0
  }

  /** kmem.freelist == `head` heads a list through the pages `free`. */
  ghost predicate FreeList(low: nat, mem: Memory, head: nat, free: seq<nat>) {
    && NoDup(free)
    && head == NextAddr(free, 0)
    && forall i :: 0 <= i < |free| ==>
         InRam(low, free[i]) && free[i] in mem && mem[free[i]][0] == NextAddr(free, i + 1)
  }

  function Fill(word: nat): Page { seq(512, _ => word) }

  class PhysMem {
    const low: nat        // first page after the kernel image
    var mem: Memory
    var freelist: nat     // address of the first free page, 0 if there is none
    ghost var free: seq<nat>

    ghost predicate Valid()
      reads this
    {
      && 0x80000 <= low <= STOPPAGE
      && (forall p :: InRam(low, p) ==> p in mem)
      && FreeList(low, mem, freelist, free)
    }

    /** kalloc: page number of a page filled with junk, 0 if no page is left. */
    method Kalloc() returns (page: nat)
      requires Valid()
      modifies this
      ensures Valid()
      ensures old(free) == [] ==> page == 0 && mem == old(mem) && free == []
      ensures old(free) != [] ==> page == old(free)[0] && free == old(free)[1..]
                                  && mem == old(mem)[page := Fill(0x0505050505050505)]
    {
      page := freelist / PGSIZE;
      if freelist != 0 {
        freelist := mem[page][0];
        mem := mem[page := Fill(0x0505050505050505)];
        free := free[1..];
      }
    }

    /** kfree: the panics on pages outside the managed range are preconditions. */
    method Kfree(page: nat)
      requires Valid() && InRam(low, page) && page !in free
      modifies this
      ensures Valid() && free == [page] + old(free)
      ensures page in mem && mem == old(mem)[page := mem[page]]
    {
      mem := mem[page := Fill(0x0101010101010101)[0 := freelist]];
      freelist := page * PGSIZE;
      free := [page] + free;
    }

    /** A store to word `i` of a page in use. */
    method Store(page: nat, i: nat, word: nat)
      requires Valid() && page in mem && page !in free && i < 512
      modifies this`mem
      ensures Valid() && mem == old(mem)[page := old(mem)[page][i := word]]
    {
      mem := mem[page := mem[page][i := word]];
    }

    /** memset or memmove of a whole page in use. */
    method StorePage(page: nat, data: Page)
      requires Valid() && page in mem && page !in free
      modifies this`mem
      ensures Valid() && mem == old(mem)[page := data]
    {
      mem := mem[page := data];
    }
  }
}
