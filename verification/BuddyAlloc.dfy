// The code of xv7/kernel/buddy.c over packed bit vectors and intrusive free lists. Addresses are
// counted in units of LEAF_SIZE bytes from bd_base.

module BuddyAlloc {
  import opened Common
  import opened BitVector
  import opened BuddySpec
  import LR = ListRing

  const LEAF_SIZE := 16
  const WORD := 0x1_0000_0000_0000_0000  // 2^64

  // ---- bit vectors and sets of blocks ---------------------------------------------------------------

  predicate BitTells(arr: seq<Bits>, k: nat, i: nat, isIn: bool)
    requires k < |arr|
  {
    i / 8 < |arr[k]| && (BitIsSet(arr[k], i) <==> isIn)
  }

  /** The bit vectors from class `low` up say which blocks are in `s`. */
  ghost predicate BitsMatch(top: nat, low: nat, arr: seq<Bits>, s: set<Blk>) {
    && |arr| == top + 1
    && forall k: nat, i: nat :: low <= k <= top && i < Pow2(top - k) ==> BitTells(arr, k, i, Blk(k, i) in s)
  }

  lemma BitsMatchSet(top: nat, low: nat, arr: seq<Bits>, s: set<Blk>, b: Blk)
    requires BitsMatch(top, low, arr, s) && low <= b.k <= top && b.i < Pow2(top - b.k)
    ensures |arr| == top + 1 && b.i / 8 < |arr[b.k]|
    ensures BitsMatch(top, low, arr[b.k := BitSet(arr[b.k], b.i)], s + {b})
  {
    assert BitTells(arr, b.k, b.i, Blk(b.k, b.i) in s);
    var arr' := arr[b.k := BitSet(arr[b.k], b.i)];
    hide BitIsSet, BitSet, BitClear;
    forall k: nat, i: nat | low <= k <= top && i < Pow2(top - k)
      ensures BitTells(arr', k, i, Blk(k, i) in s + {b})
    {
      assert BitTells(arr, k, i, Blk(k, i) in s);
      if k == b.k { BitOps(arr[k], b.i, i); }
    }
  }

  lemma BitsMatchClear(top: nat, low: nat, arr: seq<Bits>, s: set<Blk>, b: Blk)
    requires BitsMatch(top, low, arr, s) && low <= b.k <= top && b.i < Pow2(top - b.k)
    ensures |arr| == top + 1 && b.i / 8 < |arr[b.k]|
    ensures BitsMatch(top, low, arr[b.k := BitClear(arr[b.k], b.i)], s - {b})
  {
    assert BitTells(arr, b.k, b.i, Blk(b.k, b.i) in s);
    var arr' := arr[b.k := BitClear(arr[b.k], b.i)];
    hide BitIsSet, BitSet, BitClear;
    forall k: nat, i: nat | low <= k <= top && i < Pow2(top - k)
      ensures BitTells(arr', k, i, Blk(k, i) in s - {b})
    {
      assert BitTells(arr, k, i, Blk(k, i) in s);
      if k == b.k { BitOps(arr[k], b.i, i); }
    }
  }

  // ---- free lists -----------------------------------------------------------------------------------

  function Head(k: nat): int { -1 - k }

  /** The list of class `k` holds the first units of the free blocks of that class. */
  ghost predicate ListsMatch(top: nat, next: LR.Links, prev: LR.Links, lists: seq<seq<int>>, free: set<Blk>) {
    && |lists| == top + 1
    && (forall k: nat :: k <= top ==> LR.IsRing(next, prev, Head(k), lists[k]))
    && (forall k: nat, x :: k <= top && x in lists[k] ==> exists i: nat :: Blk(k, i) in free && x == Start(Blk(k, i)))
    && (forall b :: b in free ==> b.k <= top && Start(b) in lists[b.k])
    && (forall j: nat, k: nat, x :: j < k <= top && x in lists[j] ==> x !in lists[k])
  }

  lemma StartInjective(k: nat, i: nat, j: nat)
    requires Start(Blk(k, i)) == Start(Blk(k, j))
    ensures i == j
  {
    StartOf(Blk(k, i));
    StartOf(Blk(k, j));
  }

  /** After the list of class `b.k` gained `b` in front. */
  lemma ListsPush(top: nat, next: LR.Links, prev: LR.Links, next': LR.Links, prev': LR.Links,
                  lists: seq<seq<int>>, free: set<Blk>, b: Blk)
    requires ListsMatch(top, next, prev, lists, free) && b.k <= top
    requires forall k: nat :: k <= top ==> Start(b) !in lists[k]
    requires LR.IsRing(next', prev', Head(b.k), [Start(b)] + lists[b.k])
    requires LR.OnlyChanged(next, next', LR.Nodes(Head(b.k), lists[b.k]) + {Start(b)})
    requires LR.OnlyChanged(prev, prev', LR.Nodes(Head(b.k), lists[b.k]) + {Start(b)})
    ensures ListsMatch(top, next', prev', lists[b.k := [Start(b)] + lists[b.k]], free + {b})
  {
    var lists' := lists[b.k := [Start(b)] + lists[b.k]];
    forall k: nat | k <= top ensures LR.IsRing(next', prev', Head(k), lists'[k]) {
      if k != b.k { OtherList(top, next, prev, next', prev', lists, free, b.k, {Start(b)}, k); }
    }
    forall k: nat, x | k <= top && x in lists'[k]
      ensures exists i: nat :: Blk(k, i) in free + {b} && x == Start(Blk(k, i))
    {
      if k == b.k && x == Start(b) {
        assert Blk(k, b.i) in free + {b};
      } else {
        assert x in lists[k];
        var i: nat :| Blk(k, i) in free && x == Start(Blk(k, i));
        assert Blk(k, i) in free + {b};
      }
    }
  }

  /** Work on the list of class `k0` leaves the list of another class alone. */
  lemma OtherList(top: nat, next: LR.Links, prev: LR.Links, next': LR.Links, prev': LR.Links,
                  lists: seq<seq<int>>, free: set<Blk>, k0: nat, more: set<int>, k: nat)
    requires ListsMatch(top, next, prev, lists, free) && k0 <= top && k <= top && k != k0
    requires forall x :: x in more ==> x >= 0 && x !in lists[k]
    requires LR.OnlyChanged(next, next', LR.Nodes(Head(k0), lists[k0]) + more)
    requires LR.OnlyChanged(prev, prev', LR.Nodes(Head(k0), lists[k0]) + more)
    ensures LR.IsRing(next', prev', Head(k), lists[k])
  {
    forall x | x in LR.Nodes(Head(k), lists[k])
      ensures x !in LR.Nodes(Head(k0), lists[k0]) + more && x in next && x in prev
    {
      if x == Head(k) {
        forall y | y in lists[k0] ensures y >= 0 {
          var i: nat :| Blk(k0, i) in free && y == Start(Blk(k0, i));
        }
      } else {
        assert x in lists[k];
        var i: nat :| Blk(k, i) in free && x == Start(Blk(k, i));
        assert k < k0 ==> x !in lists[k0];
        assert k0 < k ==> x !in lists[k0];
      }
    }
    LR.RingFrame(next, prev, next', prev', Head(k), lists[k]);
  }

  /** After element `at` of the list of class `b.k`, which is block `b`, was removed. */
  lemma ListsRemove(top: nat, next: LR.Links, prev: LR.Links, next': LR.Links, prev': LR.Links,
                    lists: seq<seq<int>>, free: set<Blk>, b: Blk, at: nat)
    requires ListsMatch(top, next, prev, lists, free) && b in free
    requires b.k <= top && at < |lists[b.k]| && lists[b.k][at] == Start(b)
    requires LR.IsRing(next', prev', Head(b.k), lists[b.k][..at] + lists[b.k][at + 1..])
    requires LR.OnlyChanged(next, next', LR.Nodes(Head(b.k), lists[b.k]))
    requires LR.OnlyChanged(prev, prev', LR.Nodes(Head(b.k), lists[b.k]))
    ensures ListsMatch(top, next', prev', lists[b.k := lists[b.k][..at] + lists[b.k][at + 1..]], free - {b})
  {
    var before, after := lists[b.k], lists[b.k][..at] + lists[b.k][at + 1..];
    var lists' := lists[b.k := after];
    assert LR.IsRing(next, prev, Head(b.k), before);
    forall x ensures x in after <==> x in before && x != Start(b) { RemoveElem(before, at, x); }
    forall k: nat | k <= top ensures LR.IsRing(next', prev', Head(k), lists'[k]) {
      if k != b.k {
        assert LR.Nodes(Head(b.k), lists[b.k]) + {} == LR.Nodes(Head(b.k), lists[b.k]);
        OtherList(top, next, prev, next', prev', lists, free, b.k, {}, k);
      }
    }
    forall k: nat, x | k <= top && x in lists'[k]
      ensures exists i: nat :: Blk(k, i) in free - {b} && x == Start(Blk(k, i))
    {
      assert x in lists[k];
      var i: nat :| Blk(k, i) in free && x == Start(Blk(k, i));
      assert Blk(k, i) in free - {b};
    }
    forall c | c in free - {b} ensures c.k <= top && Start(c) in lists'[c.k] {
      if c.k == b.k && Start(c) == Start(b) { StartInjective(c.k, c.i, b.i); }
    }
  }

  lemma RemoveElem(s: seq<int>, at: nat, x: int)
    requires at < |s| && NoDup(s)
    ensures x in s[..at] + s[at + 1..] <==> x in s && x != s[at]
  {
    var t := s[..at] + s[at + 1..];
    if x in s && x != s[at] {
      var i :| 0 <= i < |s| && s[i] == x;
      assert t[if i < at then i else i - 1] == x;
    }
  }

  // ---- the allocator --------------------------------------------------------------------------------

  /** blk_index */
  function BlkIndex(k: nat, p: nat): (i: nat) {
    DivNat(p, Pow2(k));
    p / Pow2(k)
  }

  lemma DivNat(a: nat, d: nat)
    requires d > 0
    ensures 0 <= a / d
  {
  }

  /** The index of a block in use or free, computed from its address. */
  lemma BlkIndexStart(b: Blk)
    ensures BlkIndex(b.k, Start(b)) == b.i
  {
    DivUnique(Start(b), Pow2(b.k), b.i, 0);
  }

  lemma BlkIndexIdx(u: nat, k: nat)
    ensures BlkIndex(k, u) == Idx(u, k)
  {
    IdxIsDiv(u, k);
  }

  /** What firstk() computes: the smallest class whose blocks hold `n` bytes. */
  ghost predicate IsFirstK(n: nat, k: nat) {
    LEAF_SIZE * Pow2(k) >= n && (k > 0 ==> LEAF_SIZE * Pow2(k - 1) < n)
  }

  /** firstk: the smallest class that holds `n` bytes, in 64-bit arithmetic. */
  method FirstK(n: nat) returns (k: nat)
    requires n <= WORD / 2
    ensures IsFirstK(n, k)
  {
    k := 0;
    var size := LEAF_SIZE;
    while size < n
      invariant size == LEAF_SIZE * Pow2(k)
      invariant k > 0 ==> LEAF_SIZE * Pow2(k - 1) < n
      decreases n - size
    {
      k := k + 1;
      size := size * 2 % WORD;
    }
  }

  function Twice(size: nat): nat { size * 2 % WORD }

  /** The value of `size` after `k` turns. */
  function Doubled(k: nat): nat { if k == 0 then LEAF_SIZE else Twice(Doubled(k - 1)) }

  /** The loop of firstk stops for no other sizes: `size` wraps to zero and stays below `n`. */
  lemma FirstKStops(n: nat)
    ensures (exists k: nat :: Doubled(k) >= n) <==> n <= WORD / 2
  {
    hide Pow2, Doubled;
    forall k: nat ensures Doubled(k) <= WORD / 2 { DoubledIs(k); }
    DoubledIs(59);
    PowStep(0);
  }

  predicate Halves(size: nat, m: nat) { size * m == WORD / 2 }

  lemma {:induction false} DoubledIs(k: nat)
    ensures if k <= 59 then Halves(Doubled(k), Pow2(59 - k)) else Doubled(k) == 0
    ensures Doubled(k) <= WORD / 2
  {
    hide Pow2, Twice, Halves;
    if k == 0 {
      Pow59();
      return;
    }
    DoubledIs(k - 1);
    if k <= 59 {
      PowStep(59 - k);
      TwiceFits(Doubled(k - 1), Pow2(59 - k), Pow2(60 - k));
    } else {
      PowStep(0);
      TwiceWraps(Doubled(k - 1));
    }
  }

  lemma TwiceFits(d: nat, m: nat, m2: nat)
    requires Halves(d, m2) && m2 == 2 * m && m >= 1
    ensures Halves(Twice(d), m) && Twice(d) <= WORD / 2
  {
    assert d * (2 * m) == (d * 2) * m;
    AtLeast(d * 2, m);
  }

  lemma TwiceWraps(d: nat)
    requires d == 0 || Halves(d, 1)
    ensures Twice(d) == 0
  {
  }

  lemma AtLeast(x: nat, m: nat)
    requires m >= 1
    ensures x * m >= x
  {
  }

  lemma PowStep(k: nat)
    ensures Pow2(k + 1) == 2 * Pow2(k) && Pow2(0) == 1
  {
  }

  lemma Pow59()
    ensures Halves(LEAF_SIZE, Pow2(59))
  {
    hide Pow2;
    PowStep(0);
    PowStep(1);
    PowStep(2);
    PowStep(3);
    PowStep(4);
    PowSum(5, 5);
    PowSum(10, 10);
    PowSum(20, 20);
    PowSum(40, 10);
    PowSum(50, 5);
    PowSum(55, 4);
  }

  class Allocator {
    const top: nat             // MAXSIZE
    var alloc: seq<Bits>
    var split: seq<Bits>       // no vector for class 0
    const mem: LR.ListMem
    ghost var lists: seq<seq<int>>
    ghost var h: Heap

    ghost predicate Listed(free: set<Blk>)
      reads this, mem
    {
      ListsMatch(top, mem.next, mem.prev, lists, free)
    }

    ghost predicate Valid()
      reads this, mem
    {
      && h.top == top
      && BitsMatch(top, 0, alloc, h.alloc) && BitsMatch(top, 1, split, h.split)
      && Listed(h.free)
    }

    /** An allocator that bd_init has set up. */
    constructor (top: nat, alloc: seq<Bits>, split: seq<Bits>, mem: LR.ListMem, ghost lists: seq<seq<int>>, ghost h: Heap)
      requires h.top == top && BitsMatch(top, 0, alloc, h.alloc) && BitsMatch(top, 1, split, h.split)
      requires ListsMatch(top, mem.next, mem.prev, lists, h.free)
      ensures Valid() && this.h == h && this.mem == mem && this.top == top
    {
      this.top, this.alloc, this.split, this.mem := top, alloc, split, mem;
      this.lists, this.h := lists, h;
    }

    // ---- size() -------------------------------------------------------------------------------------

    /** size(): the class of the block in use that starts at `p`; no bit vector above the top
        class is read. */
    method Size(p: nat, ghost used: set<Blk>, ghost b: Blk) returns (k: nat)
      requires Valid() && WF(h, used) && b in used && b != Blk(0, 0) && p == Start(b)
      ensures k == b.k && k < top
    {
      BelowTop(h, used, b);
      hide BitIsSet, BlkIndex, WF, Start;
      k := 0;
      while true
        invariant k <= b.k < top
        decreases b.k - k
      {
        SizeBit(p, used, b, k);
        if BitIsSet(split[k + 1], BlkIndex(k + 1, p)) {
          return k;
        }
        k := k + 1;
      }
    }

    lemma SizeBit(p: nat, used: set<Blk>, b: Blk, k: nat)
      requires Valid() && WF(h, used) && b in used && b.k < top && p == Start(b) && k <= b.k
      ensures k + 1 < |split| && BlkIndex(k + 1, p) / 8 < |split[k + 1]|
      ensures BitIsSet(split[k + 1], BlkIndex(k + 1, p)) <==> k == b.k
    {
      hide BitIsSet, BlkIndex, WF, Start, Idx, ListsMatch, Pow2;
      SizeFinds(h, used, b, k);
      BlkIndexIdx(p, k + 1);
      assert BitTells(split, k + 1, BlkIndex(k + 1, p), Blk(k + 1, BlkIndex(k + 1, p)) in h.split);
    }

    // ---- the free lists -----------------------------------------------------------------------------

    /** lst_push on the list of class `b.k` */
    method PushFree(p: int, ghost free: set<Blk>, ghost b: Blk, k: nat)
      requires Listed(free) && k == b.k <= top && p == Start(b)
      requires forall j: nat :: j <= top ==> p !in lists[j]
      modifies this`lists, mem
      ensures Listed(free + {b})
    {
      ghost var n0, p0 := mem.next, mem.prev;
      mem.Push(Head(k), p, lists[k]);
      ListsPush(top, n0, p0, mem.next, mem.prev, lists, free, b);
      lists := lists[k := [p] + lists[k]];
    }

    /** lst_pop from the list of class `k` */
    lemma FirstBlock(free: set<Blk>, k: nat) returns (b: Blk)
      requires Listed(free) && k <= top && |lists| == top + 1 && lists[k] != []
      ensures b in free && b.k == k && lists[k][0] == Start(b)
      ensures LR.IsRing(mem.next, mem.prev, Head(k), lists[k])
    {
      assert lists[k][0] in lists[k];
      var i: nat :| Blk(k, i) in free && lists[k][0] == Start(Blk(k, i));
      b := Blk(k, i);
    }

    lemma ListCount(free: set<Blk>)
      requires Listed(free)
      ensures |lists| == top + 1
    {
    }

    method PopFree(k: nat, ghost free: set<Blk>) returns (p: int, ghost b: Blk)
      requires Listed(free) && k <= top && lists[k] != []
      modifies this`lists, mem
      ensures b in free && b.k == k && p == Start(b) && Listed(free - {b})
    {
      hide ListsMatch, Start, LR.OnlyChanged, LR.Nodes, LR.IsRing;
      ListCount(free);
      b := FirstBlock(free, k);
      ghost var n0, p0 := mem.next, mem.prev;
      p := mem.Pop(Head(k), lists[k]);
      assert lists[k][..0] + lists[k][1..] == lists[k][1..];
      ListsRemove(top, n0, p0, mem.next, mem.prev, lists, free, b, 0);
      lists := lists[k := lists[k][1..]];
    }

    /** lst_remove of a free block, wherever it is on its list */
    method RemoveFree(q: int, ghost free: set<Blk>, ghost b: Blk)
      requires Listed(free) && b in free && q == Start(b)
      modifies this`lists, mem
      ensures Listed(free - {b})
    {
      ghost var at :| 0 <= at < |lists[b.k]| && lists[b.k][at] == q;
      ghost var n0, p0 := mem.next, mem.prev;
      mem.Remove(q, Head(b.k), lists[b.k], at);
      ListsRemove(top, n0, p0, mem.next, mem.prev, lists, free, b, at);
      lists := lists[b.k := lists[b.k][..at] + lists[b.k][at + 1..]];
    }

    /** lst_empty on the list of class `k`: it is empty when no block of the class is free. */
    method NoneFree(k: nat) returns (none: bool)
      requires Valid() && k <= top
      ensures none <==> forall c :: c in h.free ==> c.k != k
      ensures none <==> lists[k] == []
    {
      none := mem.Empty(Head(k), lists[k]);
      if lists[k] != [] {
        ghost var c := FirstBlock(h.free, k);
      } else {
        forall c | c in h.free ensures c.k != k {
          assert Start(c) in lists[c.k];
        }
      }
    }

    // ---- bd_malloc ----------------------------------------------------------------------------------

    /** bd_malloc. `p` is -1 exactly when no free block is large enough; otherwise a block of the
        smallest sufficient class comes into use and nothing else changes hands. */
    method BdMalloc(nbytes: nat, ghost used: set<Blk>) returns (p: int, ghost b: Blk)
      requires Valid() && WF(h, used) && nbytes <= WORD / 2
      modifies this, mem
      ensures Valid()
      ensures IsFirstK(nbytes, b.k)
      ensures p == -1 || p >= 0
      ensures p == -1 <==> forall c :: c in old(h.free) ==> c.k < b.k
      ensures p == -1 ==> h == old(h)
      ensures p >= 0 ==> p == Start(b) && b !in used && WF(h, used + {b})
    {
      hide WF, IsFirstK, Start, ListsMatch, BitsMatch, Pow2;
      var fk := FirstK(nbytes);
      var k := fk;
      FreeBelowTop(used);
      while k < top + 1
        invariant Valid() && h == old(h) && fk <= k && (k <= top + 1 || k == fk)
        invariant forall c :: c in h.free ==> !(fk <= c.k < k)
      {
        var none := NoneFree(k);
        if !none {
          break;
        }
        k := k + 1;
      }
      b := Blk(fk, 0);
      if k >= top + 1 {
        return -1, b;
      }
      ghost var c :| c in h.free && c.k == k;
      p, b := TakeFirst(k, used);
      while k > fk
        invariant fk <= k == b.k <= top && p >= 0 && p == Start(b)
        invariant Valid() && b !in used && WF(h, used + {b})
        decreases k
      {
        SplitFirst(p, k, used, b);
        b := Left(b);
        k := k - 1;
      }
    }

    lemma FreeBelowTop(used: set<Blk>)
      requires Valid() && WF(h, used)
      ensures forall c :: c in h.free ==> c.k <= top
    {
    }

    lemma InRange(used: set<Blk>, b: Blk)
      requires WF(h, used) && h.top == top && (b in h.free || b in used)
      ensures b.k <= top && b.i < Pow2(top - b.k) && BlkIndex(b.k, Start(b)) == b.i
    {
      assert Exists(h, b);
      BlkIndexStart(b);
    }

    /** Pop the first block of class `k` and mark it allocated. */
    method TakeFirst(k: nat, ghost used: set<Blk>) returns (p: int, ghost b: Blk)
      requires Valid() && WF(h, used) && k <= top && exists c :: c in h.free && c.k == k
      modifies this, mem
      ensures Valid()
      ensures b.k == k && p >= 0 && p == Start(b) && b !in used && WF(h, used + {b})
    {
      hide WF, Start, ListsMatch, BlkIndex, BitSet, BitsMatch, Pow2;
      var none := NoneFree(k);
      p, b := PopFree(k, h.free);
      TakeWF(h, used, b);
      InRange(used, b);
      BitsMatchSet(top, 0, alloc, h.alloc, b);
      alloc := alloc[k := BitSet(alloc[k], BlkIndex(k, p))];
      h := Take(h, b);
    }

    /** One turn of the splitting loop: block `b` at `p` keeps its left half. */
    method SplitFirst(p: nat, k: nat, ghost used: set<Blk>, ghost b: Blk)
      requires Valid() && b !in used && WF(h, used + {b}) && 0 < k == b.k <= top && p == Start(b)
      modifies this, mem
      ensures Valid()
      ensures Left(b) !in used && Start(Left(b)) == p && WF(h, used + {Left(b)})
    {
      hide WF, Start, Left, Right, BlkIndex, BitSet, ListsMatch, BitsMatch, Pow2;
      ghost var l, r := Left(b), Right(b);
      SplitFacts(used, b);
      var q := p + Pow2(k - 1);
      BitsMatchSet(top, 1, split, h.split, b);
      BitsMatchSet(top, 0, alloc, h.alloc, l);
      PushFree(q, h.free, r, k - 1);
      split := split[k := BitSet(split[k], BlkIndex(k, p))];
      alloc := alloc[k - 1 := BitSet(alloc[k - 1], BlkIndex(k - 1, p))];
      h := SplitOff(h, b);
    }

    lemma SplitFacts(used: set<Blk>, b: Blk)
      requires Valid() && b !in used && WF(h, used + {b}) && 0 < b.k <= top
      ensures var l, r := Left(b), Right(b);
              && WF(SplitOff(h, b), used + {l}) && l !in used
              && l.k == r.k == b.k - 1
              && b.i < Pow2(top - b.k) && l.i < Pow2(top - l.k)
              && BlkIndex(b.k, Start(b)) == b.i && BlkIndex(l.k, Start(b)) == l.i
              && Start(l) == Start(b) && Start(r) == Start(b) + Pow2(b.k - 1)
              && |lists| == top + 1 && forall k: nat :: k <= top ==> Start(r) !in lists[k]
    {
      hide WF, Start, Covers, ListsMatch, BitsMatch, SplitOff, BlkIndex;
      var l, r := Left(b), Right(b);
      SplitOffWF(h, used + {b}, b);
      SplitOffExists(h, used + {b}, b);
      UsedExists(h, used + {b}, b);
      ChildInHeap(h, b);
      HalfStarts(b);
      BlkIndexStart(b);
      BlkIndexStart(l);
      NotListed(used + {b}, b, r);
      NewLeft(used, b);
    }

    lemma UsedExists(h: Heap, used: set<Blk>, b: Blk)
      requires WF(h, used) && b in used
      ensures Exists(h, b)
    {
    }

    lemma NewLeft(used: set<Blk>, b: Blk)
      requires b !in used && WF(h, used + {b}) && 0 < b.k
      ensures Left(b) !in used && used + {b} - {b} + {Left(b)} == used + {Left(b)}
    {
      SplitOffExists(h, used + {b}, b);
      hide Left, Exists;
      assert !Exists(h, Left(b));
    }

    /** No free block starts inside a block in use. */
    lemma NotListed(used: set<Blk>, b: Blk, c: Blk)
      requires Valid() && WF(h, used) && b in used && InHeap(h, c) && Covers(b, Start(c))
      ensures |lists| == top + 1 && forall k: nat | k <= top :: Start(c) !in lists[k]
    {
      StartInHeap(h, c);
      Partition(h, used, Start(c));
      forall k: nat, i: nat | Blk(k, i) in h.free ensures Start(c) != Start(Blk(k, i)) {
        StartOf(Blk(k, i));
      }
    }

    // ---- bd_free ------------------------------------------------------------------------------------

    /** bd_free: block `b` at `p` goes out of use, merged with free buddies as far as possible. */
    method BdFree(p: nat, ghost used: set<Blk>, ghost b: Blk)
      requires Valid() && WF(h, used) && b in used && b != Blk(0, 0) && p == Start(b)
      modifies this, mem
      ensures Valid() && WF(h, used - {b})
    {
      hide WF, Start, Buddy, Parent, ListsMatch, BitsMatch, BlkIndex, BitIsSet, BitClear, Pow2;
      var k := Size(p, used, b);
      var p := p;
      ghost var cur, rest := b, used - {b};
      assert rest + {cur} == used;
      while k < top
        invariant k == cur.k <= top && p == Start(cur) && cur != Blk(0, 0) && cur !in rest
        invariant Valid() && WF(h, rest + {cur})
        invariant rest == used - {b}
        decreases top - k
      {
        FreeFacts(rest, cur);
        var bi := BlkIndex(k, p);
        var buddy := if bi % 2 == 0 then bi + 1 else bi - 1;
        BitsMatchClear(top, 0, alloc, h.alloc, cur);
        BuddyBit(cur, bi, buddy);
        alloc := alloc[k := BitClear(alloc[k], bi)];
        if BitIsSet(alloc[k], buddy) {
          PushFree(p, h.free, cur, k);
          h := Drop(h, cur);
          return;
        }
        var q := buddy * Pow2(k);  // addr(k, buddy)
        RemoveFree(q, h.free, Buddy(cur));
        if buddy % 2 == 0 {
          p := q;
        }
        BitsMatchClear(top, 1, split, h.split, Parent(cur));
        split := split[k + 1 := BitClear(split[k + 1], BlkIndex(k + 1, p))];
        h := Merge(h, cur);
        cur := Parent(cur);
        k := k + 1;
      }
      BelowTop(h, rest + {cur}, cur);
      assert false;  // the reserved block keeps the loop from reaching the top class
    }

    /** What bd_free relies on at each class. */
    lemma FreeFacts(rest: set<Blk>, cur: Blk)
      requires Valid() && WF(h, rest + {cur}) && cur !in rest && cur != Blk(0, 0) && cur.k < top
      ensures BlkIndex(cur.k, Start(cur)) == cur.i
      ensures cur.i < Pow2(top - cur.k) && Buddy(cur).i < Pow2(top - cur.k) && Buddy(cur).k == cur.k
      ensures Buddy(cur).i == if cur.i % 2 == 0 then cur.i + 1 else cur.i - 1
      ensures Buddy(cur) in h.alloc ==>
                WF(Drop(h, cur), rest) && |lists| == top + 1 && forall k: nat | k <= top :: Start(cur) !in lists[k]
      ensures Buddy(cur) !in h.alloc ==>
        && Buddy(cur) in h.free && Start(Buddy(cur)) == Buddy(cur).i * Pow2(cur.k)
        && WF(Merge(h, cur), rest + {Parent(cur)}) && Parent(cur) !in rest && Parent(cur) != Blk(0, 0)
        && Parent(cur).k == cur.k + 1 && Parent(cur).i < Pow2(top - Parent(cur).k)
        && var p := if Buddy(cur).i % 2 == 0 then Start(Buddy(cur)) else Start(cur);
           p == Start(Parent(cur)) && BlkIndex(cur.k + 1, p) == Parent(cur).i
    {
      hide WF, BitsMatch, ListsMatch, Pow2, Start, Exists, Take, Drop, Merge;
      InRange(rest + {cur}, cur);
      BuddyExists(rest + {cur}, cur);
      BuddyInRange(cur);
      if Buddy(cur) in h.alloc {
        DropFacts(rest, cur);
      } else {
        MergeFacts(rest, cur);
      }
    }

    lemma BuddyInRange(b: Blk)
      requires h.top == top && Exists(h, Buddy(b))
      ensures Buddy(b).i < Pow2(top - b.k)
    {
      hide Pow2;
    }

    lemma DropFacts(rest: set<Blk>, cur: Blk)
      requires Valid() && WF(h, rest + {cur}) && cur !in rest && cur != Blk(0, 0) && cur.k < top && Buddy(cur) in h.alloc
      ensures WF(Drop(h, cur), rest) && |lists| == top + 1 && forall k: nat | k <= top :: Start(cur) !in lists[k]
    {
      hide BitsMatch, ListsMatch, Pow2, Start, Drop, Buddy, Covers;
      DropWF(h, rest + {cur}, cur);
      assert rest + {cur} - {cur} == rest;
      StartOf(cur);
      assert Exists(h, cur);
      NotListed(rest + {cur}, cur, cur);
    }

    lemma MergeFacts(rest: set<Blk>, cur: Blk)
      requires Valid() && WF(h, rest + {cur}) && cur !in rest && cur != Blk(0, 0) && cur.k < top && Buddy(cur) in h.free
      ensures WF(Merge(h, cur), rest + {Parent(cur)}) && Parent(cur) !in rest && Parent(cur) != Blk(0, 0)
      ensures Start(Buddy(cur)) == Buddy(cur).i * Pow2(cur.k)
      ensures var p := if Buddy(cur).i % 2 == 0 then Start(Buddy(cur)) else Start(cur);
              p == Start(Parent(cur)) && BlkIndex(cur.k + 1, p) == Parent(cur).i
    {
      hide WF, BitsMatch, ListsMatch, Pow2, Merge;
      MergeWF(h, rest + {cur}, cur);
      assert rest + {cur} - {cur} + {Parent(cur)} == rest + {Parent(cur)};
      MergedStart(cur);
      BlkIndexStart(Parent(cur));
    }

    lemma BuddyExists(used: set<Blk>, b: Blk)
      requires WF(h, used) && b in used && b.k < top && h.top == top
      ensures Exists(h, Buddy(b)) && Parent(b).i < Pow2(top - Parent(b).k)
      ensures Buddy(b) !in h.alloc ==> Buddy(b) in h.free
    {
      assert Exists(h, b) && Parent(b) in h.split && Exists(h, Parent(b));
      ChildInHeap(h, Parent(b));
      ChildrenOf(Parent(b), b);
      BuddyTwice(b);
      ChildrenOf(Parent(b), Buddy(b));
    }

    lemma MergedStart(b: Blk)
      ensures Start(Parent(b)) == if Buddy(b).i % 2 == 0 then Start(Buddy(b)) else Start(b)
    {
      var e := b.i - b.i % 2;
      assert Pow2(b.k + 1) == 2 * Pow2(b.k);
      assert e == 2 * (b.i / 2);
      assert (b.i / 2) * (2 * Pow2(b.k)) == e * Pow2(b.k);
    }

    /** The alloc bit of the buddy, read after the block's own bit was cleared. */
    lemma BuddyBit(cur: Blk, bi: nat, buddy: nat)
      requires Valid() && cur.k <= top && bi == cur.i && bi < Pow2(top - cur.k) && buddy < Pow2(top - cur.k)
      requires Buddy(cur) == Blk(cur.k, buddy) && buddy != bi
      ensures |alloc| == top + 1 && bi / 8 < |alloc[cur.k]| && buddy / 8 < |BitClear(alloc[cur.k], bi)|
      ensures BitIsSet(BitClear(alloc[cur.k], bi), buddy) <==> Buddy(cur) in h.alloc
    {
      assert BitTells(alloc, cur.k, bi, Blk(cur.k, bi) in h.alloc);
      assert BitTells(alloc, cur.k, buddy, Blk(cur.k, buddy) in h.alloc);
      BitOps(alloc[cur.k], bi, buddy);
    }

    lemma HalfStarts(b: Blk)
      requires b.k > 0
      ensures Start(Left(b)) == Start(b) && Start(Right(b)) == Start(b) + Pow2(b.k - 1)
      ensures Covers(b, Start(Right(b)))
    {
      assert Pow2(b.k) == 2 * Pow2(b.k - 1);
      assert (2 * b.i + 1) * Pow2(b.k - 1) == 2 * b.i * Pow2(b.k - 1) + Pow2(b.k - 1);
      assert 2 * b.i * Pow2(b.k - 1) == b.i * (2 * Pow2(b.k - 1));
      StartOf(Right(b));
    }
  }

  // ---- runs of calls ------------------------------------------------------------------------------------

  predicate SameBit(arr: seq<Bits>, arr': seq<Bits>, k: nat, i: nat)
    requires k < |arr| && k < |arr'|
  {
    i / 8 < |arr[k]| && i / 8 < |arr'[k]| && (BitIsSet(arr'[k], i) <==> BitIsSet(arr[k], i))
  }

  /** The vectors have the same bits for all blocks of the heap. */
  ghost predicate SameBits(top: nat, low: nat, arr: seq<Bits>, arr': seq<Bits>) {
    && |arr'| == |arr| == top + 1
    && forall k: nat, i: nat :: low <= k <= top && i < Pow2(top - k) ==> SameBit(arr, arr', k, i)
  }

  lemma BitsDetermined(top: nat, low: nat, arr: seq<Bits>, arr': seq<Bits>, s: set<Blk>)
    requires BitsMatch(top, low, arr, s) && BitsMatch(top, low, arr', s)
    ensures SameBits(top, low, arr, arr')
  {
    hide BitIsSet;
    forall k: nat, i: nat | low <= k <= top && i < Pow2(top - k)
      ensures SameBit(arr, arr', k, i)
    {
      assert BitTells(arr, k, i, Blk(k, i) in s) && BitTells(arr', k, i, Blk(k, i) in s);
    }
  }

  /** bd_free straight after bd_malloc: the bits and the free sets are what they were. */
  method MallocThenFree(a: Allocator, nbytes: nat, ghost used: set<Blk>)
    requires a.Valid() && WF(a.h, used) && nbytes <= WORD / 2
    modifies a, a.mem
    ensures a.Valid() && a.h == old(a.h)
    ensures SameBits(a.top, 0, old(a.alloc), a.alloc) && SameBits(a.top, 1, old(a.split), a.split)
  {
    hide WF, Start, BitsMatch, ListsMatch, IsFirstK;
    ghost var alloc, split, h := a.alloc, a.split, a.h;
    var p, b := a.BdMalloc(nbytes, used);
    if p >= 0 {
      ReservedUsed(h, used);
      a.BdFree(p, used + {b}, b);
      assert used + {b} - {b} == used;
      Canonical(h, a.h, used);
    }
    BitsDetermined(a.top, 0, alloc, a.alloc, h.alloc);
    BitsDetermined(a.top, 1, split, a.split, h.split);
  }

  lemma ReservedUsed(h: Heap, used: set<Blk>)
    requires WF(h, used)
    ensures Blk(0, 0) in used
  {
  }

  ghost function Members(bs: seq<Blk>): set<Blk> { set b | b in bs }

  /** Blocks in use are given back in any order; what is left depends on the other blocks only.
      With all blocks given back this is the heap before the first bd_malloc. */
  method FreeAll(a: Allocator, ps: seq<nat>, ghost bs: seq<Blk>, ghost used: set<Blk>, ghost h0: Heap)
    requires a.Valid() && WF(h0, used) && h0.top == a.top && |bs| == |ps|
    requires WF(a.h, used + Members(bs))
    requires forall i | 0 <= i < |ps| :: ps[i] == Start(bs[i]) && bs[i] !in used
    requires forall i, j | 0 <= i < j < |bs| :: bs[i] != bs[j]
    modifies a, a.mem
    ensures a.Valid() && a.h == h0
  {
    hide WF, Start, BitsMatch, ListsMatch, Exists;
    ReservedUsed(h0, used);
    var i := 0;
    assert bs[0..] == bs;
    while i < |ps|
      invariant 0 <= i <= |ps| && a.Valid() && WF(a.h, used + Members(bs[i..]))
    {
      assert bs[i] in bs[i..] && bs[i..] == [bs[i]] + bs[i + 1..];
      a.BdFree(ps[i], used + Members(bs[i..]), bs[i]);
      assert used + Members(bs[i..]) - {bs[i]} == used + Members(bs[i + 1..]);
      i := i + 1;
    }
    assert used + Members(bs[i..]) == used;
    Canonical(a.h, h0, used);
  }
}
