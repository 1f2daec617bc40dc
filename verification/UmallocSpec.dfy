// The arena of xv6/user/umalloc.c. Addresses count header units; `base` lies below everything that
// sbrk() returns, and 0 is the null pointer.

module UmallocSpec {
  const BASE := 1

  /** The fields of the headers, the free list in address order from `base` on, the block that each
      unit obtained from sbrk() belongs to, and the sizes of the blocks in use. */
  datatype Heap = Heap(ptr: map<nat, nat>, size: map<nat, nat>, list: seq<nat>, own: map<nat, nat>, live: map<nat, nat>)

  // ---- the invariant --------------------------------------------------------------------------------------

  /** The block at position `i` has its units between its header and the next one in the list. */
  ghost predicate InOrder(size: map<nat, nat>, list: seq<nat>, i: nat) {
    i < |list| ==>
      && list[i] in size && (if i == 0 then list[i] == BASE && size[BASE] == 0 else size[list[i]] > 0 && list[i] > BASE)
      && (i + 1 < |list| ==> list[i] < list[i + 1] && list[i] + size[list[i]] <= list[i + 1])
  }

  /** Address order from `base`. */
  ghost predicate Ordered(size: map<nat, nat>, list: seq<nat>) {
    list != [] && forall i {:trigger InOrder(size, list, i)} :: InOrder(size, list, i)
  }

  lemma {:induction false} Apart(size: map<nat, nat>, list: seq<nat>, i: nat, j: nat)
    requires Ordered(size, list) && i < j < |list|
    ensures list[i] in size && list[i] < list[j] && list[i] + size[list[i]] <= list[j]
    decreases j
  {
    assert InOrder(size, list, i) && InOrder(size, list, j - 1) && InOrder(size, list, j);
    if j > i + 1 { Apart(size, list, i, j - 1); }
  }

  /** The block at position `i` ends before the next one starts. */
  ghost predicate Gap(h: Heap, i: nat) {
    i + 1 < |h.list| && h.list[i] in h.size ==> h.list[i] + h.size[h.list[i]] < h.list[i + 1]
  }

  /** The pointers run through the list and from its end back to `base`. */
  ghost predicate Points(ptr: map<nat, nat>, list: seq<nat>, i: nat) {
    i < |list| ==> list[i] in ptr && ptr[list[i]] == list[if i + 1 < |list| then i + 1 else 0]
  }

  ghost predicate Ring(ptr: map<nat, nat>, list: seq<nat>) {
    forall i {:trigger Points(ptr, list, i)} :: Points(ptr, list, i)
  }

  /** All units of a block belong to it. */
  ghost predicate Owns(own: map<nat, nat>, h: nat, n: nat) { forall a | h <= a < h + n :: a in own && own[a] == h }

  ghost predicate FreeBlock(h: Heap, b: nat) { b in h.list && b != BASE && b in h.size }

  ghost predicate LiveBlock(h: Heap, b: nat) { b in h.live && b in h.size && h.size[b] == h.live[b] > 0 && b !in h.list }

  ghost predicate UnitAt(h: Heap, a: nat) {
    a in h.own ==>
      && BASE < h.own[a] <= a && (FreeBlock(h, h.own[a]) || LiveBlock(h, h.own[a])) && h.own[a] in h.size
      && a < h.own[a] + h.size[h.own[a]]
  }

  /** Every unit obtained is in exactly one block, free or in use, and blocks consist of such units. */
  ghost predicate Partition(h: Heap) {
    && (forall a {:trigger UnitAt(h, a)} :: UnitAt(h, a))
    && (forall b {:trigger FreeBlock(h, b)} | FreeBlock(h, b) :: Owns(h.own, b, h.size[b]))
    && (forall b {:trigger LiveBlock(h, b)} | b in h.live :: LiveBlock(h, b) && b > BASE && Owns(h.own, b, h.size[b]))
  }

  ghost predicate Sound(h: Heap) { Ordered(h.size, h.list) && Ring(h.ptr, h.list) && Partition(h) }

  /** No two free blocks are adjacent. */
  ghost predicate Good(h: Heap) { Sound(h) && forall i: nat :: Gap(h, i) }

  /** Blocks in use are disjoint from each other and from the free list. */
  lemma LiveApart(h: Heap, b: nat, c: nat)
    requires Sound(h) && b in h.live && b != c && (c in h.live || FreeBlock(h, c))
    ensures b in h.size && c in h.size && (b + h.size[b] <= c || c + h.size[c] <= b)
  {
    assert LiveBlock(h, b);
    if c in h.live {
      assert LiveBlock(h, c);
    } else {
      InList(h, c);
    }
    Disjoint(h.own, b, h.size[b], c, h.size[c]);
  }

  /** Blocks that own their units do not overlap. */
  lemma Disjoint(own: map<nat, nat>, b: nat, m: nat, c: nat, n: nat)
    requires Owns(own, b, m) && Owns(own, c, n) && b != c && m > 0 && n > 0
    ensures b + m <= c || c + n <= b
  {
    assert b in own && own[b] == b && c in own && own[c] == c;
  }

  lemma InList(h: Heap, c: nat)
    requires Sound(h) && FreeBlock(h, c)
    ensures c > BASE && h.size[c] > 0
  {
    var i :| 0 <= i < |h.list| && h.list[i] == c;
    assert InOrder(h.size, h.list, i);
  }

  // ---- the changes ----------------------------------------------------------------------------------------

  /** The place of a block in the list: after `list[j]`. */
  ghost predicate Between(list: seq<nat>, j: nat, b: nat) {
    j < |list| && list[j] < b && (j + 1 < |list| ==> b < list[j + 1])
  }

  ghost predicate HasPlace(h: Heap, j: nat) { j < |h.list| && h.list[j] in h.ptr && h.list[j] in h.size }

  /** A block in use joins the list after position `j`. */
  function Link(h: Heap, j: nat, b: nat): Heap
    requires HasPlace(h, j)
  {
    var p := h.list[j];
    h.(ptr := h.ptr[b := h.ptr[p]][p := b], list := h.list[..j + 1] + [b] + h.list[j + 1..], live := h.live - {b})
  }

  /** The blocks at positions `i` and `i + 1`, which are adjacent, become one. */
  function Merge(h: Heap, i: nat): Heap
    requires HasPlace(h, i) && HasPlace(h, i + 1)
  {
    var a, c := h.list[i], h.list[i + 1];
    h.(ptr := h.ptr[a := h.ptr[c]], size := h.size[a := h.size[a] + h.size[c]],
       list := h.list[..i + 1] + h.list[i + 2..],
       own := map x | x in h.own :: if h.own[x] == c then a else h.own[x])
  }

  /** The block at position `i` leaves the list and is in use. */
  function Unlink(h: Heap, i: nat): Heap
    requires i > 0 && HasPlace(h, i - 1) && HasPlace(h, i)
  {
    var b := h.list[i];
    h.(ptr := h.ptr[h.list[i - 1] := h.ptr[b]], list := h.list[..i] + h.list[i + 1..], live := h.live[b := h.size[b]])
  }

  /** The last `n` units of the block at position `i` become a block in use. */
  function Split(h: Heap, i: nat, n: nat): Heap
    requires HasPlace(h, i) && 0 < n < h.size[h.list[i]]
  {
    var b := h.list[i];
    var c := b + h.size[b] - n;
    h.(size := h.size[b := h.size[b] - n][c := n], live := h.live[c := n],
       own := map x | x in h.own :: if c <= x < c + n then c else h.own[x])
  }

  /** sbrk() added `n` units at `p`, which form a block in use. */
  function Grow(h: Heap, p: nat, n: nat): Heap {
    h.(size := h.size[p := n], live := h.live[p := n], own := NewUnits(h.own, p, n))
  }

  function NewUnits(own: map<nat, nat>, p: nat, n: nat): map<nat, nat> {
    if n == 0 then own else NewUnits(own, p, n - 1)[p + n - 1 := p]
  }

  function Units(p: nat, n: nat): set<nat> { if n == 0 then {} else Units(p, n - 1) + {p + n - 1} }

  lemma {:induction false} UnitsAt(p: nat, n: nat, a: nat)
    ensures a in Units(p, n) <==> p <= a < p + n
  {
    if n > 0 { UnitsAt(p, n - 1, a); }
  }

  lemma {:induction false} NewUnitsAt(own: map<nat, nat>, p: nat, n: nat, a: nat)
    ensures a in NewUnits(own, p, n) <==> a in own || p <= a < p + n
    ensures p <= a < p + n ==> NewUnits(own, p, n)[a] == p
    ensures a in own && !(p <= a < p + n) ==> NewUnits(own, p, n)[a] == own[a]
  {
    if n > 0 { NewUnitsAt(own, p, n - 1, a); }
  }
}
