// The split tree that the bits and free lists of xv7/kernel/buddy.c encode, in units of the
// smallest block (LEAF_SIZE bytes).

module BuddySpec {
  import opened Common

  /** Block `i` of size class `k`: units i * 2^k up to (i + 1) * 2^k. */
  datatype Blk = Blk(k: nat, i: nat)

  datatype Heap = Heap(top: nat, alloc: set<Blk>, split: set<Blk>, free: set<Blk>)

  /** The block of class `k` that holds unit `u`. */
  function Idx(u: nat, k: nat): nat {
    if k == 0 then u else Idx(u, k - 1) / 2
  }

  function Parent(b: Blk): Blk { Blk(b.k + 1, b.i / 2) }

  function Buddy(b: Blk): Blk { Blk(b.k, if b.i % 2 == 0 then b.i + 1 else b.i - 1) }

  function Left(b: Blk): Blk
    requires b.k > 0
  {
    Blk(b.k - 1, 2 * b.i)
  }

  function Right(b: Blk): Blk
    requires b.k > 0
  {
    Blk(b.k - 1, 2 * b.i + 1)
  }

  /** Start of a block, in units. */
  function Start(b: Blk): nat { b.i * Pow2(b.k) }

  predicate InHeap(h: Heap, b: Blk) { b.k <= h.top && b.i < Pow2(h.top - b.k) }

  /** The block is a node of the split tree. */
  predicate Exists(h: Heap, b: Blk) { InHeap(h, b) && (b.k == h.top || Parent(b) in h.split) }

  predicate IsLeaf(h: Heap, b: Blk) { Exists(h, b) && b !in h.split }

  /** The split blocks form a tree from the top. */
  ghost predicate UpClosed(h: Heap) { forall b :: b in h.split ==> Exists(h, b) }

  /** Bits, lists and the set of blocks in use (handed out or reserved) agree; two buddies are
      never both free; the unit at the bottom is reserved. */
  ghost predicate WF(h: Heap, used: set<Blk>) {
    && UpClosed(h)
    && (forall b :: b in h.split ==> b.k > 0 && b in h.alloc)
    && (forall b :: b in h.alloc ==> Exists(h, b))
    && (forall b :: b in h.free <==> Exists(h, b) && b !in h.alloc)
    && (forall b :: b in used <==> b in h.alloc && b !in h.split)
    && (forall b :: b in h.free && b.k < h.top ==> Buddy(b) !in h.free)
    && Blk(0, 0) in used
  }

  // ---- arithmetic of the tree -------------------------------------------------------------------

  lemma {:induction false} IdxIsDiv(u: nat, k: nat)
    ensures Idx(u, k) == u / Pow2(k)
  {
    if k > 0 {
      IdxIsDiv(u, k - 1);
      HalfDiv(u, Pow2(k - 1));
    }
  }

  lemma HalfDiv(u: nat, p: nat)
    requires p > 0
    ensures (u / p) / 2 == u / (2 * p)
  {
    var m, q, r := u % p, (u / p) / 2, (u / p) % 2;
    Halves(u, p, u / p, m, q, r);
    DivUnique(u, 2 * p, q, r * p + m);
  }

  lemma Halves(u: nat, p: nat, d: nat, m: nat, q: nat, r: nat)
    requires u == d * p + m && m < p && d == 2 * q + r && r < 2
    ensures u == q * (2 * p) + (r * p + m) && r * p + m < 2 * p
  {
    assert (2 * q + r) * p == q * (2 * p) + r * p;
  }

  lemma DivUnique(u: nat, d: nat, q: nat, r: nat)
    requires d > 0 && u == q * d + r && r < d
    ensures u / d == q
  {
    var x := q - u / d;
    assert x * d == q * d - (u / d) * d;
    SmallMultiple(x, d);
  }

  lemma SmallMultiple(x: int, d: nat)
    ensures x >= 1 ==> x * d >= d
    ensures x <= -1 ==> x * d + d <= 0
  {
  }

  /** The ancestors of a block, seen from its first unit. */
  lemma {:induction false} IdxStart(b: Blk, j: nat)
    ensures j <= b.k ==> Idx(Start(b), j) == b.i * Pow2(b.k - j)
    decreases j
  {
    if 0 < j <= b.k {
      IdxStart(b, j - 1);
      assert b.i * Pow2(b.k - (j - 1)) == 2 * (b.i * Pow2(b.k - j));
    }
  }

  lemma {:induction false} IdxInHeap(u: nat, k: nat, top: nat)
    requires k <= top && u < Pow2(top)
    ensures Idx(u, k) < Pow2(top - k)
  {
    if k > 0 { IdxInHeap(u, k - 1, top); }
  }

  /** Every ancestor of a node is split. */
  lemma {:induction false} AncestorSplit(h: Heap, u: nat, k: nat, j: nat)
    requires UpClosed(h) && k < j <= h.top && Exists(h, Blk(k, Idx(u, k)))
    ensures Blk(j, Idx(u, j)) in h.split
    decreases j - k
  {
    hide Pow2;
    assert Parent(Blk(k, Idx(u, k))) == Blk(k + 1, Idx(u, k + 1));
    if k + 1 < j {
      assert Exists(h, Blk(k + 1, Idx(u, k + 1)));
      AncestorSplit(h, u, k + 1, j);
    }
  }

  // ---- partition --------------------------------------------------------------------------------

  ghost predicate Covers(b: Blk, u: nat) { Idx(u, b.k) == b.i }

  /** Descend from a node that holds unit `u` to the leaf that does. */
  lemma {:induction false} LeafBelow(h: Heap, used: set<Blk>, u: nat, k: nat) returns (b: Blk)
    requires WF(h, used) && u < Pow2(h.top) && k <= h.top && Exists(h, Blk(k, Idx(u, k)))
    ensures IsLeaf(h, b) && Covers(b, u) && b.k <= k
    decreases k
  {
    hide Pow2;
    b := Blk(k, Idx(u, k));
    if b in h.split {
      IdxInHeap(u, k - 1, h.top);
      assert Parent(Blk(k - 1, Idx(u, k - 1))) == b;
      b := LeafBelow(h, used, u, k - 1);
    }
  }

  /** Free blocks and blocks in use partition the heap: every unit lies in exactly one of them,
      and no block is both. */
  lemma Partition(h: Heap, used: set<Blk>, u: nat)
    requires WF(h, used) && u < Pow2(h.top)
    ensures exists b :: (b in h.free || b in used) && Covers(b, u)
    ensures forall b, c ::
              (b in h.free || b in used) && (c in h.free || c in used) && Covers(b, u) && Covers(c, u) ==> b == c
    ensures h.free !! used
  {
    IdxInHeap(u, h.top, h.top);
    var b := LeafBelow(h, used, u, h.top);
    assert b in h.free || b in used;
    forall b, c | (b in h.free || b in used) && (c in h.free || c in used) && Covers(b, u) && Covers(c, u)
      ensures b == c
    {
      if b.k < c.k { AncestorSplit(h, u, b.k, c.k); }
      if c.k < b.k { AncestorSplit(h, u, c.k, b.k); }
    }
  }

  /** A block in use other than the reserved one is smaller than the heap. */
  lemma BelowTop(h: Heap, used: set<Blk>, b: Blk)
    requires WF(h, used) && b in used && b != Blk(0, 0)
    ensures b.k < h.top
  {
    if b.k == h.top {
      assert Pow2(h.top - b.k) == 1;
      IdxZero(h.top);
      if h.top > 0 { AncestorSplit(h, 0, 0, h.top); }
    }
  }

  lemma {:induction false} IdxZero(k: nat)
    ensures Idx(0, k) == 0
  {
    if k > 0 { IdxZero(k - 1); }
  }

  // ---- size() -----------------------------------------------------------------------------------

  /** What size() looks for: the split bit above class `j` is set for the first time at the class
      of the block that starts at the given unit. */
  lemma SizeFinds(h: Heap, used: set<Blk>, b: Blk, j: nat)
    requires WF(h, used) && b in used && b.k < h.top && j <= b.k
    ensures InHeap(h, Blk(j + 1, Idx(Start(b), j + 1)))
    ensures Blk(j + 1, Idx(Start(b), j + 1)) in h.split <==> j == b.k
  {
    hide Pow2, Start, Covers, WF;
    UsedHere(h, used, b);
    StartInHeap(h, b);
    IdxInHeap(Start(b), j + 1, h.top);
    if j == b.k { ParentIdx(b); } else { NotSplitBelow(h, used, b, j); }
  }

  lemma NotSplitBelow(h: Heap, used: set<Blk>, b: Blk, j: nat)
    requires WF(h, used) && b in used && b.k < h.top && j < b.k
    ensures Blk(j + 1, Idx(Start(b), j + 1)) !in h.split
  {
    hide Pow2, InHeap, Start, Covers, Exists;
    UsedHere(h, used, b);
    StartOf(b);
    var c := Blk(j + 1, Idx(Start(b), j + 1));
    if c in h.split && j + 1 < b.k {
      assert Exists(h, c);
      AncestorSplit(h, Start(b), j + 1, b.k);
    }
  }

  lemma UsedHere(h: Heap, used: set<Blk>, b: Blk)
    requires WF(h, used) && b in used
    ensures InHeap(h, b) && b !in h.split && (b.k < h.top ==> Parent(b) in h.split)
  {
    assert Exists(h, b);
  }

  lemma ParentIdx(b: Blk)
    ensures Parent(b) == Blk(b.k + 1, Idx(Start(b), b.k + 1))
  {
    StartOf(b);
  }

  lemma StartInHeap(h: Heap, b: Blk)
    requires InHeap(h, b)
    ensures Start(b) < Pow2(h.top)
  {
    PowSum(h.top - b.k, b.k);
    MulMono(b.i + 1, Pow2(h.top - b.k), Pow2(b.k));
    assert (b.i + 1) * Pow2(b.k) == Start(b) + Pow2(b.k);
  }

  lemma MulMono(a: nat, b: nat, d: nat)
    requires a <= b
    ensures a * d <= b * d
  {
  }

  /** A block's first unit lies in the block. */
  lemma StartOf(b: Blk)
    ensures Idx(Start(b), b.k) == b.i && Covers(b, Start(b))
  {
    IdxStart(b, b.k);
    assert Pow2(0) == 1;
  }

  lemma {:induction false} PowSum(a: nat, b: nat)
    ensures Pow2(a) * Pow2(b) == Pow2(a + b)
  {
    if a > 0 {
      PowSum(a - 1, b);
      DoubleLeft(Pow2(a - 1), Pow2(b));
    }
  }

  lemma DoubleLeft(a: nat, b: nat)
    ensures (2 * a) * b == 2 * (a * b)
  {
  }

  // ---- canonical form ---------------------------------------------------------------------------

  /** Below a split block some block is in use: else two free buddies would be left unmerged. */
  lemma {:induction false} SplitHoldsUsed(h: Heap, used: set<Blk>, b: Blk) returns (c: Blk, u: nat)
    requires WF(h, used) && b in h.split
    ensures c in used && c.k < b.k && Covers(c, u) && Covers(b, u)
    decreases b.k
  {
    var d := ChildInUse(h, used, b);
    hide WF, Pow2, Start;
    if d in h.split {
      c, u := SplitHoldsUsed(h, used, d);
    } else {
      c, u := d, Start(d);
      StartOf(c);
    }
    assert Idx(u, b.k) == Idx(u, d.k) / 2;
  }

  lemma ChildInUse(h: Heap, used: set<Blk>, b: Blk) returns (c: Blk)
    requires WF(h, used) && b in h.split
    ensures b.k > 0 && c.k == b.k - 1 && c.i / 2 == b.i && (c in h.split || c in used)
  {
    hide Pow2, Exists, InHeap;
    ChildrenExist(h, used, b);
    BuddyOfLeft(b);
    NotBothFree(h, used, Left(b));
    c := if Left(b) in h.alloc then Left(b) else Right(b);
    assert c in h.alloc;
  }

  lemma BuddyOfLeft(b: Blk)
    requires b.k > 0
    ensures Buddy(Left(b)) == Right(b) && Left(b).i / 2 == b.i && Right(b).i / 2 == b.i
  {
  }

  lemma NotBothFree(h: Heap, used: set<Blk>, b: Blk)
    requires WF(h, used) && b.k < h.top && Exists(h, b) && Exists(h, Buddy(b))
    ensures b in h.alloc || Buddy(b) in h.alloc
  {
    hide Pow2, Exists, InHeap, Buddy;
    assert b in h.free || b in h.alloc;
  }

  lemma ChildrenExist(h: Heap, used: set<Blk>, b: Blk)
    requires WF(h, used) && b in h.split
    ensures b.k > 0 && Left(b).k < h.top && Exists(h, Left(b)) && Exists(h, Right(b))
  {
    ChildInHeap(h, b);
    assert Parent(Left(b)) == b && Parent(Right(b)) == b;
  }

  /** The split bits, and with them everything else, depend on the set of blocks in use only. */
  lemma SameSplit(g: Heap, h: Heap, used: set<Blk>, b: Blk)
    requires WF(g, used) && WF(h, used) && g.top == h.top && b in g.split
    ensures b in h.split
  {
    var c, u := SplitHoldsUsed(g, used, b);
    assert Exists(h, c);
    AncestorSplit(h, u, c.k, b.k);
  }

  /** Two allocator states with the same blocks in use are the same: so bd_free undoes bd_malloc,
      and freeing everything in any order leads back to the initial bits and free sets. */
  lemma Canonical(g: Heap, h: Heap, used: set<Blk>)
    requires WF(g, used) && WF(h, used) && g.top == h.top
    ensures g == h
  {
    forall b ensures b in g.split <==> b in h.split {
      if b in g.split { SameSplit(g, h, used, b); }
      if b in h.split { SameSplit(h, g, used, b); }
    }
    assert g.split == h.split;
    forall b ensures Exists(g, b) <==> Exists(h, b) {}
    forall b ensures b in g.alloc <==> b in h.alloc {
      assert b in used <==> b in g.alloc && b !in g.split;
    }
    assert g.alloc == h.alloc && g.free == h.free;
  }

  // ---- the steps of bd_malloc and bd_free -------------------------------------------------------

  /** bd_malloc pops a free block and sets its alloc bit. */
  function Take(h: Heap, b: Blk): Heap {
    h.(alloc := h.alloc + {b}, free := h.free - {b})
  }

  /** bd_malloc splits a block it has taken: the left half stays taken, the right half is free. */
  function SplitOff(h: Heap, b: Blk): Heap
    requires b.k > 0
  {
    h.(split := h.split + {b}, alloc := h.alloc + {Left(b)}, free := h.free + {Right(b)})
  }

  /** bd_free finds the buddy free: both become their parent, which now counts as taken. */
  function Merge(h: Heap, b: Blk): Heap {
    h.(alloc := h.alloc - {b}, free := h.free - {Buddy(b)}, split := h.split - {Parent(b)})
  }

  /** bd_free finds the buddy taken: the block goes on the free list. */
  function Drop(h: Heap, b: Blk): Heap {
    h.(alloc := h.alloc - {b}, free := h.free + {b})
  }

  lemma TakeWF(h: Heap, used: set<Blk>, b: Blk)
    requires WF(h, used) && b in h.free
    ensures WF(Take(h, b), used + {b}) && b !in used
  {
    hide Pow2, Buddy;
    forall c ensures Exists(Take(h, b), c) <==> Exists(h, c) {}
  }

  lemma DropWF(h: Heap, used: set<Blk>, b: Blk)
    requires WF(h, used) && b in used && b != Blk(0, 0) && b.k < h.top && Buddy(b) in h.alloc
    ensures WF(Drop(h, b), used - {b})
  {
    hide Pow2, InHeap, Exists, Buddy;
    var g := Drop(h, b);
    DropExists(h, b);
    forall c | c in g.free && c.k < g.top ensures Buddy(c) !in g.free {
      BuddyTwice(c);
      BuddyTwice(b);
    }
  }

  lemma DropExists(h: Heap, b: Blk)
    ensures forall c :: Exists(Drop(h, b), c) <==> Exists(h, c)
  {
  }

  lemma BuddyTwice(b: Blk)
    ensures Buddy(Buddy(b)) == b && Buddy(b) != b && Parent(Buddy(b)) == Parent(b)
    ensures forall c :: Parent(c) == Parent(b) && c != b ==> c == Buddy(b)
  {
  }

  lemma SplitOffWF(h: Heap, used: set<Blk>, b: Blk)
    requires WF(h, used) && b in used && b.k > 0
    ensures WF(SplitOff(h, b), used - {b} + {Left(b)})
  {
    hide Pow2, InHeap, Exists, Buddy;
    var g, l, r := SplitOff(h, b), Left(b), Right(b);
    SplitOffExists(h, used, b);
    BuddyOfLeft(b);
    assert l !in h.alloc && r !in h.alloc && l !in h.split;
    assert forall c :: c in g.split ==> Exists(g, c);
    forall c | c in g.free && c.k < g.top ensures Buddy(c) !in g.free {
      BuddyTwice(c);
      BuddyTwice(l);
    }
  }

  lemma SplitOffExists(h: Heap, used: set<Blk>, b: Blk)
    requires WF(h, used) && b in used && b.k > 0
    ensures forall c :: Exists(SplitOff(h, b), c) <==> Exists(h, c) || c == Left(b) || c == Right(b)
    ensures !Exists(h, Left(b)) && !Exists(h, Right(b))
  {
    var g := SplitOff(h, b);
    assert Exists(h, b);
    ChildInHeap(h, b);
    hide Pow2, InHeap;
    forall c ensures InHeap(g, c) == InHeap(h, c) { SameTop(g, h, c); }
    forall c ensures Parent(c) == b <==> c == Left(b) || c == Right(b) { ChildrenOf(b, c); }
  }

  lemma SameTop(g: Heap, h: Heap, c: Blk)
    requires g.top == h.top
    ensures InHeap(g, c) == InHeap(h, c)
  {
  }

  lemma ChildrenOf(b: Blk, c: Blk)
    requires b.k > 0
    ensures Parent(c) == b <==> c == Left(b) || c == Right(b)
  {
  }

  lemma ChildInHeap(h: Heap, b: Blk)
    requires InHeap(h, b) && b.k > 0
    ensures InHeap(h, Left(b)) && InHeap(h, Right(b)) && Left(b).k < h.top
  {
    assert Pow2(h.top - Left(b).k) == 2 * Pow2(h.top - b.k);
  }

  lemma MergeWF(h: Heap, used: set<Blk>, b: Blk)
    requires WF(h, used) && b in used && b != Blk(0, 0) && b.k < h.top && Buddy(b) in h.free
    ensures WF(Merge(h, b), used - {b} + {Parent(b)}) && Parent(b) !in used
  {
    hide Pow2, InHeap, Exists, Buddy;
    var g, p := Merge(h, b), Parent(b);
    MergeExists(h, used, b);
    BuddyTwice(b);
    assert p in h.split && p in h.alloc;
    assert UpClosed(g) by {
      forall c | c in g.split ensures Exists(g, c) {
        assert Exists(h, c) && c != b && c != Buddy(b);
      }
    }
    forall c ensures c in g.free <==> Exists(g, c) && c !in g.alloc {}
    forall c ensures c in used - {b} + {p} <==> c in g.alloc && c !in g.split {}
  }

  lemma MergeExists(h: Heap, used: set<Blk>, b: Blk)
    requires WF(h, used) && b in used && b.k < h.top && Buddy(b) in h.free
    ensures forall c :: Exists(Merge(h, b), c) <==> Exists(h, c) && c != b && c != Buddy(b)
    ensures Parent(b) in h.split
  {
    hide Pow2, Buddy, InHeap;
    BuddyTwice(b);
    forall c ensures InHeap(Merge(h, b), c) == InHeap(h, c) { SameTop(Merge(h, b), h, c); }
  }

}
