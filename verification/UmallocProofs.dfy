// The changes that malloc() and free() make keep the arena in order.

module UmallocProofs {
  import opened UmallocSpec

  /** Facts about a position of the list. */
  lemma At(h: Heap, i: nat)
    requires Sound(h) && i < |h.list|
    ensures HasPlace(h, i) && h.ptr[h.list[i]] == h.list[if i + 1 < |h.list| then i + 1 else 0]
    ensures if i == 0 then h.list[i] == BASE && h.size[BASE] == 0
            else h.list[i] > BASE && FreeBlock(h, h.list[i]) && h.size[h.list[i]] > 0 && Owns(h.own, h.list[i], h.size[h.list[i]])
    ensures h.list[i] !in h.live
  {
    assert InOrder(h.size, h.list, i) && Points(h.ptr, h.list, i);
    assert i > 0 ==> FreeBlock(h, h.list[i]);
    assert h.list[i] in h.live ==> LiveBlock(h, h.list[i]);
  }

  // ---- Link -------------------------------------------------------------------------------------------------

  /** A block in use between two positions fits there. */
  lemma Fits(h: Heap, j: nat, b: nat)
    requires Sound(h) && b in h.live && Between(h.list, j, b)
    ensures b > BASE && b in h.size && h.size[b] > 0 && HasPlace(h, j) && h.list[j] + h.size[h.list[j]] <= b
    ensures j + 1 < |h.list| ==> b + h.size[b] <= h.list[j + 1]
    ensures forall i | 0 <= i < |h.list| :: h.list[i] != b
  {
    assert LiveBlock(h, b);
    At(h, j);
    if j > 0 { LiveApart(h, b, h.list[j]); }
    if j + 1 < |h.list| {
      At(h, j + 1);
      LiveApart(h, b, h.list[j + 1]);
    }
  }

  lemma LinkOrdered(h: Heap, j: nat, b: nat)
    requires Sound(h) && b in h.live && Between(h.list, j, b) && HasPlace(h, j)
    ensures Ordered(Link(h, j, b).size, Link(h, j, b).list)
  {
    hide Sound;
    Fits(h, j, b);
    var s := Link(h, j, b);
    forall i: nat ensures InOrder(s.size, s.list, i) {
      SoundAt(h, i);
      if i > 0 { SoundAt(h, i - 1); }
    }
  }

  lemma SoundAt(h: Heap, i: nat)
    requires Sound(h)
    ensures InOrder(h.size, h.list, i) && Points(h.ptr, h.list, i)
  {
  }

  lemma ListDistinct(h: Heap)
    requires Sound(h)
    ensures forall i, j | 0 <= i < |h.list| && 0 <= j < |h.list| && h.list[i] == h.list[j] :: i == j
  {
    forall i, j | 0 <= i < |h.list| && 0 <= j < |h.list| && h.list[i] == h.list[j] ensures i == j {
      if i < j { Apart(h.size, h.list, i, j); }
      if j < i { Apart(h.size, h.list, j, i); }
    }
  }

  lemma LinkRing(h: Heap, j: nat, b: nat)
    requires Sound(h) && b in h.live && Between(h.list, j, b) && HasPlace(h, j)
    ensures Ring(Link(h, j, b).ptr, Link(h, j, b).list)
  {
    hide Sound;
    Fits(h, j, b);
    ListDistinct(h);
    SoundAt(h, j);
    var s := Link(h, j, b);
    forall i: nat ensures Points(s.ptr, s.list, i) {
      SoundAt(h, i);
      if i > 0 { SoundAt(h, i - 1); }
    }
  }

  lemma LinkPartition(h: Heap, j: nat, b: nat)
    requires Sound(h) && b in h.live && Between(h.list, j, b) && HasPlace(h, j)
    ensures Partition(Link(h, j, b))
  {
    hide Ordered, Ring;
    var s := Link(h, j, b);
    assert LiveBlock(h, b);
    assert forall x :: x in s.list <==> x in h.list || x == b by {
      assert h.list == h.list[..j + 1] + h.list[j + 1..];
    }
    forall a ensures UnitAt(s, a) { assert UnitAt(h, a); }
    forall x | FreeBlock(s, x) ensures Owns(s.own, x, s.size[x]) {
      if x != b { assert FreeBlock(h, x); }
    }
    forall x | x in s.live ensures LiveBlock(s, x) && x > BASE && Owns(s.own, x, s.size[x]) { assert LiveBlock(h, x); }
  }

  lemma LinkSound(h: Heap, j: nat, b: nat)
    requires Good(h) && b in h.live && Between(h.list, j, b) && HasPlace(h, j)
    ensures Sound(Link(h, j, b)) && forall i: nat | i != j && i != j + 1 :: Gap(Link(h, j, b), i)
  {
    hide Partition, Ordered, Ring;
    LinkOrdered(h, j, b);
    LinkRing(h, j, b);
    LinkPartition(h, j, b);
    var s := Link(h, j, b);
    forall i: nat | i != j && i != j + 1 ensures Gap(s, i) {
      assert Gap(h, i) && (i > 0 ==> Gap(h, i - 1));
    }
  }

  // ---- Merge ------------------------------------------------------------------------------------------------

  ghost predicate Adjacent(h: Heap, i: nat) {
    HasPlace(h, i) && HasPlace(h, i + 1) && i > 0 && h.list[i] + h.size[h.list[i]] == h.list[i + 1]
  }

  lemma MergeOrdered(h: Heap, i: nat)
    requires Sound(h) && Adjacent(h, i)
    ensures Ordered(Merge(h, i).size, Merge(h, i).list) && Ring(Merge(h, i).ptr, Merge(h, i).list)
  {
    hide Sound;
    ListDistinct(h);
    SoundAt(h, i);
    SoundAt(h, i + 1);
    var s := Merge(h, i);
    forall k: nat ensures InOrder(s.size, s.list, k) {
      SoundAt(h, k);
      SoundAt(h, k + 1);
    }
    forall k: nat ensures Points(s.ptr, s.list, k) {
      SoundAt(h, k);
      SoundAt(h, k + 1);
    }
  }

  lemma MergeIn(h: Heap, i: nat)
    requires Sound(h) && Adjacent(h, i)
    ensures forall x :: x in Merge(h, i).list <==> x in h.list && x != h.list[i + 1]
  {
    ListDistinct(h);
    hide Sound;
    var l, m := h.list, Merge(h, i).list;
    forall x | x in l && x != l[i + 1] ensures x in m {
      var k :| 0 <= k < |l| && l[k] == x;
      assert m[if k <= i then k else k - 1] == x;
    }
    forall x | x in m ensures x in l && x != l[i + 1] {
      var k :| 0 <= k < |m| && m[k] == x;
      assert l[if k <= i then k else k + 1] == x;
    }
  }

  lemma MergePartition(h: Heap, i: nat)
    requires Sound(h) && Adjacent(h, i)
    ensures Partition(Merge(h, i))
  {
    hide Ordered, Ring;
    At(h, i);
    At(h, i + 1);
    MergeIn(h, i);
    var s, a, c := Merge(h, i), h.list[i], h.list[i + 1];
    forall x ensures UnitAt(s, x) {
      assert UnitAt(h, x);
    }
    forall x | FreeBlock(s, x) ensures Owns(s.own, x, s.size[x]) { assert FreeBlock(h, x); }
    forall x | x in s.live ensures LiveBlock(s, x) && x > BASE && Owns(s.own, x, s.size[x]) {
      assert LiveBlock(h, x);
    }
  }

  lemma MergeSound(h: Heap, i: nat)
    requires Sound(h) && Adjacent(h, i)
    ensures Sound(Merge(h, i))
    ensures forall k: nat | k < i && Gap(h, k) :: Gap(Merge(h, i), k)
    ensures forall k: nat | k >= i && Gap(h, k + 1) :: Gap(Merge(h, i), k)
  {
    hide Partition, Ordered, Ring;
    MergeOrdered(h, i);
    MergePartition(h, i);
    At(h, i);
    ListDistinct(h);
    var s := Merge(h, i);
    forall k: nat | k < i && Gap(h, k) ensures Gap(s, k) {}
    forall k: nat | k >= i && Gap(h, k + 1) ensures Gap(s, k) {}
  }

  // ---- free -------------------------------------------------------------------------------------------------

  /** The next block is joined when it is adjacent. */
  function JoinUp(h: Heap, i: nat): Heap {
    if i > 0 && HasPlace2(h, i) && h.list[i] + h.size[h.list[i]] == h.list[i + 1] then Merge(h, i) else h
  }

  predicate HasPlace2(h: Heap, i: nat) {
    i + 1 < |h.list| && h.list[i] in h.ptr && h.list[i] in h.size && h.list[i + 1] in h.ptr && h.list[i + 1] in h.size
  }

  lemma JoinUpSound(h: Heap, i: nat)
    requires Sound(h)
    ensures Sound(JoinUp(h, i)) && JoinUp(h, i).live == h.live && JoinUp(h, i).own.Keys == h.own.Keys
    ensures Gap(h, i + 1) ==> Gap(JoinUp(h, i), i)
    ensures forall k: nat | k < i && Gap(h, k) :: Gap(JoinUp(h, i), k)
    ensures (forall k: nat | k > i :: Gap(h, k)) ==> forall k: nat | k > i :: Gap(JoinUp(h, i), k)
  {
    hide Partition, Ordered, Ring;
    if i + 1 < |h.list| {
      At(h, i);
      At(h, i + 1);
      Step(h, i);
      if i > 0 && h.list[i] + h.size[h.list[i]] == h.list[i + 1] { MergeSound(h, i); }
    }
  }

  lemma Step(h: Heap, i: nat)
    requires Sound(h) && i + 1 < |h.list|
    ensures h.list[i] in h.size && h.list[i] + h.size[h.list[i]] <= h.list[i + 1]
    ensures i == 0 ==> h.list[i] + h.size[h.list[i]] < h.list[i + 1]
  {
    assert InOrder(h.size, h.list, i);
  }

  /** The arena after free() of block `b`, whose place is after position `j`. */
  function FreeResult(h: Heap, j: nat, b: nat): Heap
    requires HasPlace(h, j)
  {
    JoinUp(JoinUp(Link(h, j, b), j + 1), j)
  }

  lemma FreeGood(h: Heap, j: nat, b: nat)
    requires Good(h) && b in h.live && Between(h.list, j, b) && HasPlace(h, j)
    ensures var r := FreeResult(h, j, b);
            Good(r) && r.live == h.live - {b} && r.own.Keys == h.own.Keys && j < |r.list| && r.list[j] == h.list[j]
  {
    hide Partition, Ordered, Ring, Gap;
    var h1 := Link(h, j, b);
    LinkSound(h, j, b);
    var h2 := JoinUp(h1, j + 1);
    JoinUpSound(h1, j + 1);
    assert Gap(h1, j + 2);
    assert Gap(h2, j + 1);
    JoinUpSound(h2, j);
    JoinUpShape(h1, j + 1);
    JoinUpShape(h2, j);
    var r := JoinUp(h2, j);
    assert r.list[..j + 1] == h2.list[..j + 1] == h1.list[..j + 1] == h.list[..j + 1];
    assert r.list[..j + 1][j] == h.list[..j + 1][j];
    forall k: nat ensures Gap(r, k) {
      if k < j { assert Gap(h1, k); assert Gap(h2, k); }
    }
  }

  lemma JoinUpShape(h: Heap, i: nat)
    requires Sound(h) && i < |h.list|
    ensures i < |JoinUp(h, i).list| && JoinUp(h, i).list[..i + 1] == h.list[..i + 1]
    ensures h.list[i] in h.size && h.list[i] in JoinUp(h, i).size && JoinUp(h, i).size[h.list[i]] >= h.size[h.list[i]]
  {
    At(h, i);
  }

  /** The freed units are part of a free block. */
  lemma FreeBig(h: Heap, j: nat, b: nat)
    requires Good(h) && b in h.live && Between(h.list, j, b) && HasPlace(h, j)
    ensures HasBlock(FreeResult(h, j, b), h.live[b])
  {
    hide Partition, Ordered, Ring, Gap, Sound, Merge;
    var h1 := Link(h, j, b);
    LinkSound(h, j, b);
    Fits(h, j, b);
    LiveSize(h, b);
    JoinUpSound(h1, j + 1);
    JoinUpShape(h1, j + 1);
    var h2 := JoinUp(h1, j + 1);
    assert h2.list[..j + 2][j + 1] == h1.list[..j + 2][j + 1] == b;
    JoinDown(h2, j, h.live[b]);
  }

  lemma LiveSize(h: Heap, b: nat)
    requires Sound(h) && b in h.live
    ensures b in h.size && h.size[b] == h.live[b]
  {
    assert LiveBlock(h, b);
  }

  /** Joining a block with the one before it keeps its units in a free block. */
  lemma JoinDown(h: Heap, j: nat, n: nat)
    requires Sound(h) && j + 1 < |h.list| && h.list[j + 1] in h.size && h.size[h.list[j + 1]] >= n
    ensures HasBlock(JoinUp(h, j), n)
  {
    At(h, j);
    At(h, j + 1);
    var r := JoinUp(h, j);
    if r == h {
      assert h.list[j + 1] in h.size;
    } else {
      assert r.list[j] == h.list[j];
    }
  }

  /** Some free block has `n` units. */
  ghost predicate HasBlock(h: Heap, n: nat) {
    exists i :: 0 <= i < |h.list| && h.list[i] in h.size && h.size[h.list[i]] >= n
  }

  // ---- malloc -----------------------------------------------------------------------------------------------

  lemma UnlinkSound(h: Heap, i: nat)
    requires Good(h) && 0 < i < |h.list| && HasPlace(h, i - 1) && HasPlace(h, i)
    ensures Good(Unlink(h, i)) && h.list[i] !in h.live
  {
    UnlinkOrdered(h, i);
    UnlinkPartition(h, i);
    At(h, i);
    hide Partition, Ordered, Ring;
    var s := Unlink(h, i);
    forall k: nat ensures Gap(s, k) {
      assert Gap(h, k) && Gap(h, k + 1);
      if k == i - 1 && i + 1 < |h.list| {
        At(h, k);
        Step(h, i);
        Step(h, k);
      }
    }
  }

  lemma UnlinkOrdered(h: Heap, i: nat)
    requires Sound(h) && 0 < i < |h.list| && HasPlace(h, i - 1) && HasPlace(h, i)
    ensures Ordered(Unlink(h, i).size, Unlink(h, i).list) && Ring(Unlink(h, i).ptr, Unlink(h, i).list)
  {
    hide Sound, InOrder, Points;
    forall k: nat ensures InOrder(Unlink(h, i).size, Unlink(h, i).list, k) { UnlinkAt(h, i, k); }
    forall k: nat ensures Points(Unlink(h, i).ptr, Unlink(h, i).list, k) { UnlinkAt(h, i, k); }
  }

  lemma UnlinkAt(h: Heap, i: nat, k: nat)
    requires Sound(h) && 0 < i < |h.list| && HasPlace(h, i - 1) && HasPlace(h, i)
    ensures InOrder(Unlink(h, i).size, Unlink(h, i).list, k) && Points(Unlink(h, i).ptr, Unlink(h, i).list, k)
  {
    hide Sound;
    ListDistinct(h);
    SoundAt(h, i);
    SoundAt(h, i - 1);
    SoundAt(h, k);
    SoundAt(h, k + 1);
  }

  lemma UnlinkIn(h: Heap, i: nat)
    requires Sound(h) && 0 < i < |h.list| && HasPlace(h, i - 1) && HasPlace(h, i)
    ensures forall x :: x in Unlink(h, i).list <==> x in h.list && x != h.list[i]
  {
    ListDistinct(h);
    hide Sound;
    var l, m := h.list, Unlink(h, i).list;
    forall x | x in l && x != l[i] ensures x in m {
      var k :| 0 <= k < |l| && l[k] == x;
      assert m[if k < i then k else k - 1] == x;
    }
    forall x | x in m ensures x in l && x != l[i] {
      var k :| 0 <= k < |m| && m[k] == x;
      assert l[if k < i then k else k + 1] == x;
    }
  }

  lemma UnlinkPartition(h: Heap, i: nat)
    requires Sound(h) && 0 < i < |h.list| && HasPlace(h, i - 1) && HasPlace(h, i)
    ensures Partition(Unlink(h, i))
  {
    hide Ordered, Ring;
    At(h, i);
    UnlinkIn(h, i);
    var s := Unlink(h, i);
    forall x ensures UnitAt(s, x) { assert UnitAt(h, x); }
    forall x | FreeBlock(s, x) ensures Owns(s.own, x, s.size[x]) { assert FreeBlock(h, x); }
    forall x | x in s.live ensures LiveBlock(s, x) && x > BASE && Owns(s.own, x, s.size[x]) {
      if x != h.list[i] { assert LiveBlock(h, x); }
    }
  }

  lemma SplitSound(h: Heap, i: nat, n: nat)
    requires Good(h) && 0 < i < |h.list| && HasPlace(h, i) && 0 < n < h.size[h.list[i]]
    ensures Good(Split(h, i, n)) && h.list[i] + h.size[h.list[i]] - n !in h.live
    ensures Split(h, i, n).own.Keys == h.own.Keys
  {
    SplitOrdered(h, i, n);
    SplitPartition(h, i, n);
    hide Partition, Ordered, Ring;
    ListDistinct(h);
    At(h, i);
    SplitNew(h, i, n);
    var s := Split(h, i, n);
    forall k: nat ensures Gap(s, k) {
      assert Gap(h, k);
    }
  }

  /** The header of the split part is not one of a block. */
  lemma SplitNew(h: Heap, i: nat, n: nat)
    requires Sound(h) && 0 < i < |h.list| && HasPlace(h, i) && 0 < n < h.size[h.list[i]]
    ensures var c := h.list[i] + h.size[h.list[i]] - n;
            c > BASE && c !in h.list && c !in h.live && c in h.own && h.own[c] == h.list[i]
  {
    hide Ordered, Ring;
    At(h, i);
    var c := h.list[i] + h.size[h.list[i]] - n;
    assert c in h.own && h.own[c] == h.list[i];
    assert c in h.live ==> LiveBlock(h, c);
    if c in h.list {
      InRange(h, c);
    }
  }

  lemma InRange(h: Heap, c: nat)
    requires Sound(h) && c in h.list && c > BASE
    ensures c in h.own && h.own[c] == c
  {
    var k :| 0 <= k < |h.list| && h.list[k] == c;
    At(h, k);
  }

  lemma SplitOrdered(h: Heap, i: nat, n: nat)
    requires Sound(h) && 0 < i < |h.list| && HasPlace(h, i) && 0 < n < h.size[h.list[i]]
    ensures Ordered(Split(h, i, n).size, Split(h, i, n).list) && Ring(Split(h, i, n).ptr, Split(h, i, n).list)
  {
    hide Sound;
    ListDistinct(h);
    SplitNew(h, i, n);
    var s := Split(h, i, n);
    SoundAt(h, 0);
    SoundAt(h, i);
    forall k: nat ensures InOrder(s.size, s.list, k) { SoundAt(h, k); }
    forall k: nat ensures Points(s.ptr, s.list, k) { SoundAt(h, k); }
  }

  lemma SplitPartition(h: Heap, i: nat, n: nat)
    requires Sound(h) && 0 < i < |h.list| && HasPlace(h, i) && 0 < n < h.size[h.list[i]]
    ensures Partition(Split(h, i, n))
  {
    hide Ordered, Ring;
    At(h, i);
    SplitNew(h, i, n);
    var s, b := Split(h, i, n), h.list[i];
    var c := b + h.size[b] - n;
    forall x ensures UnitAt(s, x) { assert UnitAt(h, x); }
    forall x | FreeBlock(s, x) ensures Owns(s.own, x, s.size[x]) {
      assert FreeBlock(h, x);
      if x != b { InList(h, x); Disjoint(h.own, b, h.size[b], x, h.size[x]); }
    }
    forall x | x in s.live ensures LiveBlock(s, x) && x > BASE && Owns(s.own, x, s.size[x]) {
      if x != c { assert LiveBlock(h, x); LiveApart(h, x, b); }
    }
  }

  // ---- sbrk -------------------------------------------------------------------------------------------------

  /** sbrk() returns memory above everything it returned before. */
  ghost predicate Above(h: Heap, p: nat) { p > BASE && forall a | a in h.own :: a < p }

  lemma GrowSound(h: Heap, p: nat, n: nat)
    requires Good(h) && Above(h, p) && n > 0
    ensures Good(Grow(h, p, n)) && p !in h.live && Grow(h, p, n).own.Keys == h.own.Keys + Units(p, n)
    ensures forall i | 0 <= i < |h.list| :: h.list[i] < p
  {
    hide Ordered, Ring;
    var s := Grow(h, p, n);
    forall a ensures a in s.own <==> a in h.own.Keys + Units(p, n) {
      NewUnitsAt(h.own, p, n, a);
      UnitsAt(p, n, a);
    }
    forall i | 0 <= i < |h.list| ensures h.list[i] < p {
      At(h, i);
      assert i > 0 ==> h.list[i] in h.own;
    }
    assert p in h.live ==> LiveBlock(h, p) && p in h.own;
    GrowOrdered(h, p, n);
    GrowPartition(h, p, n);
    forall k: nat ensures Gap(s, k) { assert Gap(h, k); }
  }

  lemma GrowOrdered(h: Heap, p: nat, n: nat)
    requires Sound(h) && p > BASE && n > 0 && forall i | 0 <= i < |h.list| :: h.list[i] < p
    ensures Ordered(Grow(h, p, n).size, h.list) && Ring(h.ptr, h.list)
  {
    hide Sound;
    var s := Grow(h, p, n);
    SoundList(h);
    forall k: nat ensures InOrder(s.size, s.list, k) { SoundAt(h, k); }
    forall k: nat ensures Points(s.ptr, s.list, k) { SoundAt(h, k); }
  }

  lemma SoundList(h: Heap)
    requires Sound(h)
    ensures h.list != []
  {
  }

  lemma GrowPartition(h: Heap, p: nat, n: nat)
    requires Sound(h) && Above(h, p) && n > 0 && forall i | 0 <= i < |h.list| :: h.list[i] < p
    ensures Partition(Grow(h, p, n))
  {
    hide Ordered, Ring, Owns;
    var s := Grow(h, p, n);
    forall x ensures UnitAt(s, x) {
      assert UnitAt(h, x);
      NewUnitsAt(h.own, p, n, x);
    }
    forall x | FreeBlock(s, x) ensures Owns(s.own, x, s.size[x]) {
      assert FreeBlock(h, x);
      NewUnitsOwns(h.own, p, n, x, h.size[x]);
    }
    NewBlockOwns(h.own, p, n);
    forall x | x in s.live ensures LiveBlock(s, x) && x > BASE && Owns(s.own, x, s.size[x]) {
      if x != p {
        assert LiveBlock(h, x);
        NewUnitsOwns(h.own, p, n, x, h.size[x]);
      }
    }
  }

  /** Blocks below the new memory keep their units ... */
  lemma NewUnitsOwns(own: map<nat, nat>, p: nat, n: nat, x: nat, m: nat)
    requires Owns(own, x, m) && forall a | a in own :: a < p
    ensures Owns(NewUnits(own, p, n), x, m)
  {
    forall a | x <= a < x + m ensures a in NewUnits(own, p, n) && NewUnits(own, p, n)[a] == x {
      NewUnitsAt(own, p, n, a);
    }
  }

  /** ... and the new units belong to the new block. */
  lemma NewBlockOwns(own: map<nat, nat>, p: nat, n: nat)
    ensures Owns(NewUnits(own, p, n), p, n)
  {
    forall a | p <= a < p + n ensures a in NewUnits(own, p, n) && NewUnits(own, p, n)[a] == p {
      NewUnitsAt(own, p, n, a);
    }
  }
}
