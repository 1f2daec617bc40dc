// The code of xv6/user/umalloc.c. A block is named by the address of its header; the pointer that a
// program gets is one unit further.

module UmallocCode {
  import opened Common
  import opened UmallocSpec
  import opened UmallocProofs

  const HEADER := 16      // sizeof(Header)
  const MIN_UNITS := 4096 // least number of units asked from sbrk()

  /** The position after `k` on a ring of `n`. */
  function After(k: nat, n: nat): nat { if k + 1 < n then k + 1 else 0 }

  /** How many steps on a ring of `n` lead from `k` to `j`. */
  function Steps(k: nat, j: nat, n: nat): nat
    requires k < n
  {
    if k <= j then j - k else n - k + j
  }

  /** Asking sbrk() for room for `nu` units overflows its int argument. */
  predicate Wraps(nu: nat) { Asked(nu) * HEADER >= 0x8000_0000 }

  class Allocator {
    var ptr: map<nat, nat>
    var size: map<nat, nat>
    var freep: nat
    ghost var list: seq<nat>
    ghost var own: map<nat, nat>
    ghost var live: map<nat, nat>

    ghost function H(): Heap
      reads this
    {
      Heap(ptr, size, list, own, live)
    }

    ghost predicate Valid()
      reads this
    {
      if freep == 0 then list == [] && own == map[] && live == map[] else Good(H()) && freep in list
    }

    constructor ()
      ensures Valid() && freep == 0 && live == map[]
    {
      ptr, size, freep := map[], map[], 0;
      list, own, live := [], map[], map[];
    }

    // ---- free ------------------------------------------------------------------------------------------

    /** The loop of free(): the last block of the list below `bp`. */
    method FindPlace(bp: nat) returns (p: nat, ghost j: nat)
      requires Good(H()) && freep in list && bp in live
      ensures Between(list, j, bp) && HasPlace(H(), j) && p == list[j]
    {
      hide Good, Sound, Between;
      ghost var k: nat := PositionOf(H(), freep);
      j := PlaceOf(H(), bp);
      p := freep;
      AtGood(H(), k);
      AtGood(H(), j);
      PlaceTest(H(), k, j, bp);
      while !(bp > p && bp < ptr[p])
        invariant k < |list| && p == list[k] && HasPlace(H(), k) && ptr[p] in ptr
        invariant ((bp > p && bp < ptr[p]) || (p >= ptr[p] && (bp > p || bp < ptr[p]))) <==> k == j
        decreases Steps(k, j, |list|)
      {
        if p >= ptr[p] && (bp > p || bp < ptr[p]) {
          break;
        }
        AtGood(H(), k);
        p, k := ptr[p], After(k, |list|);
        AtGood(H(), k);
        PlaceTest(H(), k, j, bp);
      }
    }

    /** free */
    method Free(bp: nat)
      requires Valid() && bp in live
      modifies this
      ensures Valid() && freep != 0 && live == old(live) - {bp} && own.Keys == old(own.Keys)
      ensures HasBlock(H(), old(live)[bp])
    {
      hide Good, Between, HasBlock, FreeResult, Sound, Gap, Ordered, Ring, Partition;
      ghost var h := H();
      var p;
      ghost var j;
      p, j := FindPlace(bp);
      FreeGood(h, j, bp);
      FreeBig(h, j, bp);
      FreeEffect(h, j, bp);
      AboveNull(h, j);
      if bp + size[bp] == ptr[p] {
        size := size[bp := size[bp] + size[ptr[p]]];
        ptr := ptr[bp := ptr[ptr[p]]];
      } else {
        ptr := ptr[bp := ptr[p]];
      }
      if p + size[p] == bp {
        size := size[p := size[p] + size[bp]];
        ptr := ptr[p := ptr[bp]];
      } else {
        ptr := ptr[p := bp];
      }
      freep := p;
      ghost var r := FreeResult(h, j, bp);
      list, own, live := r.list, r.own, r.live;
    }

    // ---- malloc ----------------------------------------------------------------------------------------

    /** morecore; `more` is what sbrk() answers, the address of the new units or a failure. */
    method MoreCore(nu: nat, more: Option<nat>) returns (p: nat, wrapped: bool)
      requires Valid() && freep != 0 && (more.Some? ==> Above(H(), more.value))
      modifies this
      ensures wrapped <==> Wraps(nu)
      ensures Valid() && freep != 0 && live == old(live) && p == if wrapped || more.None? then 0 else freep
      ensures wrapped || more.None? ==> H() == old(H()) && freep == old(freep)
      ensures !wrapped && more.Some? ==> own.Keys == old(own.Keys) + Units(more.value, Asked(nu)) && HasBlock(H(), nu)
    {
      hide Good, HasBlock, Ordered, Ring, Partition;
      var n := if nu < MIN_UNITS then MIN_UNITS else nu;
      if n * HEADER >= 0x8000_0000 {
        return 0, true;
      }
      wrapped := false;
      if more.None? {
        return 0, false;
      }
      ghost var h := H();
      GrowSound(h, more.value, n);
      size := size[more.value := n];
      own, live := Grow(h, more.value, n).own, Grow(h, more.value, n).live;
      Free(more.value);
      HasLess(H(), n, nu);
      p := freep;
    }

    /** What the loop of malloc() knows: the blocks from `freep` to `p` are too small. */
    ghost predicate Searching(prevp: nat, p: nat, n: nat, f: nat, k: nat)
      reads this
    {
      && Valid() && freep != 0 && f < |list| && k < |list| && list[f] == freep && list[k] == p
      && prevp == list[Back(k, |list|)]
      && forall i {:trigger TooSmall(H(), i, n)} | 0 <= i < |list| && Passed(f, k, i) :: TooSmall(H(), i, n)
    }

    /** malloc: the pointer is one unit behind the header of a new block of just enough units. It fails
        only when no free block is large enough and sbrk() fails. */
    method Malloc(nbytes: nat, more: Option<nat>) returns (r: nat, wrapped: bool)
      requires Valid() && nbytes < 0x1_0000_0000
      requires more.Some? ==> more.value > BASE && forall a | a in own :: a < more.value
      modifies this
      ensures Valid() && freep != 0
      ensures wrapped <==> Wraps(UnitsFor(nbytes)) && !HasBlock(old(H()), UnitsFor(nbytes))
      ensures wrapped ==> r == 0
      ensures r == 0 ==> (wrapped || more.None?) && live == old(live) && own.Keys == old(own.Keys) && !HasBlock(H(), UnitsFor(nbytes))
      ensures r != 0 ==> r - 1 !in old(live) && live == old(live)[(r - 1) as nat := UnitsFor(nbytes)]
      ensures r != 0 ==> own.Keys == old(own.Keys)
                         || (more.Some? && own.Keys == old(own.Keys) + Units(more.value, Asked(UnitsFor(nbytes))))
    {
      hide Good, HasBlock, Ordered, Ring, Partition, UnitsFor, Wraps;
      var nunits := (nbytes + HEADER - 1) / HEADER + 1;
      assert nunits == UnitsFor(nbytes) by { Rounded(nbytes); }
      var prevp: nat := freep;
      if prevp == 0 {
        NoBlock(H(), nunits);
        ptr, size := ptr[BASE := BASE], size[BASE := 0];
        freep, prevp := BASE, BASE;
        list := [BASE];
        FirstGood(H());
        NoBlock(H(), nunits);
      }
      r, wrapped := Search(prevp, nunits, more);
    }

    /** The loop of malloc, once around the ring and again after morecore. */
    method Search(prevp0: nat, nunits: nat, more: Option<nat>) returns (r: nat, wrapped: bool)
      requires Valid() && freep != 0 && prevp0 == freep && nunits > 0
      requires more.Some? ==> more.value > BASE && forall a | a in own :: a < more.value
      modifies this
      ensures Valid() && freep != 0
      ensures wrapped <==> Wraps(nunits) && !HasBlock(old(H()), nunits)
      ensures wrapped ==> r == 0
      ensures r == 0 ==> (wrapped || more.None?) && live == old(live) && own.Keys == old(own.Keys) && !HasBlock(H(), nunits)
      ensures r != 0 ==> r - 1 !in old(live) && live == old(live)[(r - 1) as nat := nunits]
      ensures r != 0 ==> own.Keys == old(own.Keys)
                         || (more.Some? && own.Keys == old(own.Keys) + Units(more.value, Asked(nunits)))
    {
      hide Good, HasBlock, Ordered, Ring, Partition, Passed, TooSmall, Asked, Wraps, Units;
      var prevp := prevp0;
      wrapped := false;
      ghost var h0 := H();
      ghost var grown, f: nat := false, 0;
      f := PositionOf(H(), freep);
      ghost var k: nat := After(f, |list|);
      BackAfter(f, |list|);
      AtGood(H(), f);
      SearchStart(H(), f, nunits);
      var p: nat := ptr[prevp];
      while true
        invariant Searching(prevp, p, nunits, f, k) && live == old(live) && (grown ==> HasBlock(H(), nunits))
        invariant if grown then more.Some? && !Wraps(nunits) else H() == h0
        invariant own.Keys == if grown then old(own.Keys) + Units(more.value, Asked(nunits)) else old(own.Keys)
        decreases if grown then 0 else 1, Steps(k, f, |list|)
      {
        AtGood(H(), k);
        if size[p] >= nunits {
          if !grown { FoundBlock(h0, k, nunits); }
          r := TakeFrom(prevp, p, nunits, f, k);
          return r, false;
        }
        if p == freep {
          AllSmall(H(), f, k, nunits);
          p, wrapped := MoreCore(nunits, more);
          if p == 0 {
            return 0, wrapped;
          }
          grown := true;
          f := PositionOf(H(), freep);
          k := f;
          AtGood(H(), k);
          SearchStart(H(), f, nunits);
        } else {
          SearchNext(H(), f, k, nunits);
        }
        BackAfter(k, |list|);
        prevp, p := p, ptr[p];
        k := After(k, |list|);
      }
    }

    /** The block `p` is large enough: it is taken from the list, or its end is cut off. */
    method TakeFrom(prevp: nat, p: nat, nunits: nat, ghost f: nat, ghost k: nat) returns (r: nat)
      requires Searching(prevp, p, nunits, f, k) && p in size && size[p] >= nunits > 0
      modifies this
      ensures Valid() && freep != 0 && r > 0 && r - 1 !in old(live) && own.Keys == old(own.Keys)
      ensures live == old(live)[(r - 1) as nat := nunits]
    {
      hide Good, HasBlock, Ordered, Ring, Partition, TooSmall, Passed, Sound, Gap;
      ghost var h := H();
      AtGood(h, k);
      AtGood(h, Back(k, |list|));
      AboveNull(h, Back(k, |list|));
      assert k > 0;
      var q := p;
      if size[p] == nunits {
        UnlinkSound(h, k);
        ptr := ptr[prevp := ptr[p]];
        list, live := Unlink(h, k).list, Unlink(h, k).live;
        assert H() == Unlink(h, k) && list[k - 1] == prevp;
      } else {
        SplitSound(h, k, nunits);
        size := size[p := size[p] - nunits];
        q := p + size[p];
        size := size[q := nunits];
        own, live := Split(h, k, nunits).own, Split(h, k, nunits).live;
        assert H() == Split(h, k, nunits) && list[k - 1] == prevp;
      }
      freep := prevp;
      return q + 1;
    }
  }

  /** The position before `k` on a ring of `n`. */
  function Back(k: nat, n: nat): nat { if k > 0 then k - 1 else if n > 0 then n - 1 else 0 }

  function Asked(nu: nat): nat { if nu < MIN_UNITS then MIN_UNITS else nu }

  /** The units of a block for `nbytes` bytes, its header included. */
  function UnitsFor(nbytes: nat): nat { (nbytes + HEADER - 1) / HEADER + 1 }

  /** Position `i` lies strictly between `f` and `k` on the ring. */
  predicate Passed(f: nat, k: nat, i: nat) { if f < k then f < i < k else i > f || i < k }

  ghost predicate TooSmall(h: Heap, i: nat, n: nat) { i < |h.list| && h.list[i] in h.size ==> h.size[h.list[i]] < n }

  lemma BackAfter(k: nat, n: nat)
    requires k < n
    ensures Back(After(k, n), n) == k && After(k, n) < n
  {
  }

  /** At the start of a search nothing was passed. */
  lemma SearchStart(h: Heap, f: nat, n: nat)
    requires f < |h.list|
    ensures forall i | 0 <= i < |h.list| :: !Passed(f, After(f, |h.list|), i)
  {
  }

  lemma SearchNext(h: Heap, f: nat, k: nat, n: nat)
    requires f < |h.list| && k < |h.list| && k != f && h.list[k] in h.size && h.size[h.list[k]] < n
    requires forall i {:trigger TooSmall(h, i, n)} | 0 <= i < |h.list| && Passed(f, k, i) :: TooSmall(h, i, n)
    ensures forall i {:trigger TooSmall(h, i, n)} | 0 <= i < |h.list|
             && Passed(f, After(k, |h.list|), i) :: TooSmall(h, i, n)
    ensures Steps(After(k, |h.list|), f, |h.list|) < Steps(k, f, |h.list|)
  {
  }

  /** Back at `freep`, every block was too small. */
  lemma AllSmall(h: Heap, f: nat, k: nat, n: nat)
    requires Good(h) && f < |h.list| && k < |h.list| && h.list[f] == h.list[k] && h.list[k] in h.size
             && h.size[h.list[k]] < n
    requires forall i {:trigger TooSmall(h, i, n)} | 0 <= i < |h.list| && Passed(f, k, i) :: TooSmall(h, i, n)
    ensures !HasBlock(h, n) && k == f
  {
    ListDistinct(h);
    forall i | 0 <= i < |h.list| && h.list[i] in h.size ensures h.size[h.list[i]] < n {
      if i != k { assert TooSmall(h, i, n); }
    }
  }

  /** `base` alone is a free list. */
  lemma FirstGood(h: Heap)
    requires h.list == [BASE] && BASE in h.ptr && h.ptr[BASE] == BASE && BASE in h.size && h.size[BASE] == 0
    requires h.own == map[] && h.live == map[]
    ensures Good(h)
  {
  }

  lemma Rounded(nbytes: nat)
    ensures (nbytes + HEADER - 1) / HEADER + 1 == UnitsFor(nbytes) > 0
  {
  }

  /** The requests for which sbrk() would be given a wrapped number. */
  lemma WrapsAbove(nbytes: nat)
    ensures Wraps(UnitsFor(nbytes)) <==> nbytes > 0x7fff_ffe0
  {
    var q, r := (nbytes + HEADER - 1) / HEADER, (nbytes + HEADER - 1) % HEADER;
    assert nbytes + HEADER - 1 == HEADER * q + r && r < HEADER;
  }

  lemma NoBlock(h: Heap, n: nat)
    requires n > 0 && (h.list == [] || (h.list == [BASE] && BASE in h.size && h.size[BASE] == 0))
    ensures !HasBlock(h, n)
  {
  }

  lemma FoundBlock(h: Heap, k: nat, n: nat)
    requires k < |h.list| && h.list[k] in h.size && h.size[h.list[k]] >= n
    ensures HasBlock(h, n)
  {
  }

  lemma HasLess(h: Heap, m: nat, n: nat)
    requires HasBlock(h, m) && n <= m
    ensures HasBlock(h, n)
  {
    var i :| 0 <= i < |h.list| && h.list[i] in h.size && h.size[h.list[i]] >= m;
  }

  lemma PositionOf(h: Heap, p: nat) returns (k: nat)
    requires p in h.list
    ensures k < |h.list| && h.list[k] == p
  {
    k :| 0 <= k < |h.list| && h.list[k] == p;
  }

  /** What the loops read at a position of the list. */
  lemma AtGood(h: Heap, i: nat)
    requires Good(h) && i < |h.list|
    ensures HasPlace(h, i) && h.ptr[h.list[i]] == h.list[After(i, |h.list|)] && HasPlace(h, After(i, |h.list|))
    ensures i == 0 ==> h.list[i] == BASE && h.size[BASE] == 0
  {
    At(h, i);
    At(h, After(i, |h.list|));
  }

  /** A block in use has exactly one place in the list. */
  lemma PlaceOf(h: Heap, b: nat) returns (j: nat)
    requires Good(h) && b in h.live
    ensures Between(h.list, j, b)
  {
    assert LiveBlock(h, b);
    assert InOrder(h.size, h.list, 0);
    j := 0;
    while j + 1 < |h.list| && h.list[j + 1] < b
      invariant j < |h.list| && h.list[j] < b
    {
      j := j + 1;
    }
    if j + 1 < |h.list| { NotThere(h, j + 1, b); }
  }

  lemma NotThere(h: Heap, i: nat, b: nat)
    requires Good(h) && b in h.live && i < |h.list|
    ensures h.list[i] != b
  {
    assert LiveBlock(h, b);
  }

  /** The tests of free()'s loop hold at that place only. */
  lemma PlaceTest(h: Heap, k: nat, j: nat, b: nat)
    requires Good(h) && b in h.live && k < |h.list| && Between(h.list, j, b)
    ensures HasPlace(h, k)
    ensures var p := h.list[k]; var q := h.ptr[p];
            ((b > p && b < q) || (p >= q && (b > p || b < q))) <==> k == j
  {
    AtGood(h, k);
    AtGood(h, 0);
    NotThere(h, k, b);
    NotThere(h, After(k, |h.list|), b);
    NotThere(h, 0, b);
    var next := After(k, |h.list|);
    if k < next { Apart(h.size, h.list, k, next); }
    if next < k { Apart(h.size, h.list, next, k); }
    if k < j { Apart(h.size, h.list, k, j); }
    if next < j { Apart(h.size, h.list, next, j); }
    if j + 1 < k { Apart(h.size, h.list, j + 1, k); }
    if 0 < j { Apart(h.size, h.list, 0, j); }
  }

  /** The two tests of free() are the two joins. */
  lemma FreeEffect(h: Heap, j: nat, b: nat)
    requires Good(h) && b in h.live && Between(h.list, j, b) && HasPlace(h, j)
    ensures b in h.size && h.ptr[h.list[j]] in h.ptr && h.ptr[h.list[j]] in h.size
    ensures var r, p := FreeResult(h, j, b), h.list[j];
            var q := h.ptr[p];
            var up, down := b + h.size[b] == q, p + h.size[p] == b;
            var size1 := if up then h.size[b := h.size[b] + h.size[q]] else h.size;
            var ptr1 := h.ptr[b := if up then h.ptr[q] else q];
            && r.size == (if down then size1[p := size1[p] + size1[b]] else size1)
            && r.ptr == ptr1[p := if down then ptr1[b] else b]
  {
    hide Good, Partition, Ordered, Ring;
    LiveSizeGood(h, b);
    UpEffect(h, j, b);
    DownEffect(h, j, b);
  }

  lemma LiveSizeGood(h: Heap, b: nat)
    requires Good(h) && b in h.live
    ensures b in h.size && h.size[b] == h.live[b] > 0 && b > BASE && b !in h.list
  {
    assert LiveBlock(h, b);
  }

  lemma AboveNull(h: Heap, j: nat)
    requires Good(h) && j < |h.list|
    ensures h.list[j] > 0
  {
    At(h, j);
  }

  lemma UpEffect(h: Heap, j: nat, b: nat)
    requires Good(h) && b in h.live && Between(h.list, j, b) && HasPlace(h, j) && b in h.size
    ensures h.ptr[h.list[j]] in h.ptr && h.ptr[h.list[j]] in h.size
    ensures var h2, p := JoinUp(Link(h, j, b), j + 1), h.list[j];
            var q := h.ptr[p];
            var up := b + h.size[b] == q;
            && h2.size == (if up then h.size[b := h.size[b] + h.size[q]] else h.size)
            && h2.ptr == h.ptr[p := b][b := if up then h.ptr[q] else q]
            && j + 1 < |h2.list| && h2.list[j] == p && h2.list[j + 1] == b
  {
    AtGood(h, j);
    LiveSizeGood(h, b);
    AtGood(h, After(j, |h.list|));
    hide Good, Between;
    var h1 := Link(h, j, b);
    assert h1.list[j + 1] == b && h1.list[j] == h.list[j];
    if j + 1 < |h.list| {
      assert h1.list[j + 2] == h.list[j + 1];
      NotThere(h, j + 1, b);
    }
    NotThere(h, j, b);
    assert h1.ptr == h.ptr[h.list[j] := b][b := h.ptr[h.list[j]]];
  }

  lemma DownEffect(h: Heap, j: nat, b: nat)
    requires Good(h) && b in h.live && Between(h.list, j, b) && HasPlace(h, j) && b in h.size
    ensures var h2, p := JoinUp(Link(h, j, b), j + 1), h.list[j];
            var r := JoinUp(h2, j);
            var down := p + h.size[p] == b;
            && p in h2.size && b in h2.size && b in h2.ptr && h2.size[p] == h.size[p]
            && r.size == (if down then h2.size[p := h2.size[p] + h2.size[b]] else h2.size)
            && r.ptr == (if down then h2.ptr[p := h2.ptr[b]] else h2.ptr)
  {
    UpEffect(h, j, b);
    AtGood(h, j);
    LiveSizeGood(h, b);
    NotThere(h, j, b);
    hide Good, Between, Link;
  }
}
