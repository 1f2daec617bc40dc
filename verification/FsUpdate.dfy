// How marking, storing, freeing and clearing block numbers, and writing data, change a file system.

module FsUpdate {
  import opened BitVector
  import opened FsBlock
  import opened FsOwner

  // ---- a block is taken -----------------------------------------------------------------------------------

  /** What balloc() does to block `b`. */
  function Alloc(s: FS, b: nat): FS
    requires BBlock(s.g, b) < |s.blk| && b < |s.blk|
  {
    var m := BBlock(s.g, b);
    s.(blk := s.blk[m := BitSet(s.blk[m], b % BPB)][b := Zero()])
  }

  /** Block number `b` is stored at a place. */
  function Store(s: FS, p: Place, b: nat): FS
    requires b < 0x1_0000_0000
    requires if p.Slot? then p.f < |s.files| && p.i < |s.files[p.f].addrs| else Ref(s, p.up) < |s.blk| && p.j < NINDIRECT
  {
    if p.Slot? then s.(files := s.files[p.f := s.files[p.f].(addrs := s.files[p.f].addrs[p.i := b])])
    else s.(blk := s.blk[Ref(s, p.up) := SetWord(s.blk[Ref(s, p.up)], p.j, b)])
  }

  lemma FreeIsUnowned(s: FS, o: Owners, b: nat)
    requires Owned(s, o, {}) && b < s.g.size && !Used(s, b)
    ensures s.g.nmeta <= b && b !in o && BBlock(s.g, b) < s.g.nmeta
  {
    assert BitRight(s, o, b);
  }

  /** Taking a block changes no block number. */
  lemma RefAlloc(s: FS, o: Owners, b: nat, p: Place)
    requires Owned(s, o, {}) && b < s.g.size && !Used(s, b) && Legal(s, p)
    ensures Ref(Alloc(s, b), p) == Ref(s, p) && Legal(Alloc(s, b), p)
  {
    FreeIsUnowned(s, o, b);
    assert forall r | r in o :: Owner(s, o, r) && r != b;
    hide BitmapRight, BitSet, Used;
    forall q | Legal(s, q) && IsIndex(s.g, q) ensures SameIndex(s, Alloc(s, b), q) {
      if Ref(s, q) != 0 { RefRange(s, o, {}, q); }
    }
    RefFrame(s, Alloc(s, b), p);
  }

  lemma UsedAlloc(s: FS, o: Owners, b: nat, x: nat)
    requires Owned(s, o, {}) && b < s.g.size && !Used(s, b) && x < s.g.size
    ensures Used(Alloc(s, b), x) <==> Used(s, x) || x == b
  {
    FreeIsUnowned(s, o, b);
    BitOps(s.blk[BBlock(s.g, b)], b % BPB, x % BPB);
    SameBit(b, x);
  }

  lemma SameBit(b: nat, x: nat)
    ensures b == x <==> b / BPB == x / BPB && b % BPB == x % BPB
  {
  }

  /** A place can take a new block: it is empty, and the block that holds it exists. */
  ghost predicate Vacant(s: FS, p: Place) { Legal(s, p) && Ref(s, p) == 0 && (p.Sub? ==> Ref(s, p.up) != 0) }

  /** After block `b` is taken and its number stored at `p`. */
  function Attached(s: FS, p: Place, b: nat): FS
    requires WF(s) && b < s.g.size && Vacant(s, p) && (p.Sub? ==> Ref(Alloc(s, b), p.up) < s.g.size)
  {
    WFStorable(s, p);
    Store(Alloc(s, b), p, b)
  }

  lemma WFStorable(s: FS, p: Place)
    requires WF(s) && Legal(s, p)
    ensures p.Slot? ==> p.f < |s.files| && p.i < |s.files[p.f].addrs|
    ensures p.Sub? ==> p.j < NINDIRECT
  {
  }

  lemma {:induction false} RefAttached(s: FS, o: Owners, p: Place, b: nat, q: Place)
    requires Owned(s, o, {}) && b < s.g.size && !Used(s, b) && Vacant(s, p) && Legal(s, q)
    requires p.Sub? ==> Ref(Alloc(s, b), p.up) == Ref(s, p.up) < s.g.size
    ensures Legal(Attached(s, p, b), q)
    ensures Ref(Attached(s, p, b), q) == if q == p then b else if q.Sub? && q.up == p then 0 else Ref(s, q)
    decreases q
  {
    var s1, s2 := Alloc(s, b), Attached(s, p, b);
    FreeIsUnowned(s, o, b);
    RefAlloc(s, o, b, q);
    hide BitmapRight, BitSet, Used;
    if p.Sub? { RefRange(s, o, {}, p.up); }
    if q.Sub? {
      var u := q.up;
      RefAttached(s, o, p, b, u);
      RefAlloc(s, o, b, u);
      if u == p {
        ZeroWord(q.j);
        assert s2.blk[b] == Zero();
      } else if Ref(s, u) != 0 && !(u.Sub? && u.up == p) {
        RefRange(s, o, {}, u);
        if p.Sub? && p.up == u {
          WordOps(s1.blk[Ref(s, u)], p.j, b, q.j);
        }
      }
    }
  }

  lemma UsedAttached(s: FS, o: Owners, p: Place, b: nat, x: nat)
    requires Owned(s, o, {}) && b < s.g.size && !Used(s, b) && Vacant(s, p) && x < s.g.size
    requires p.Sub? ==> Ref(Alloc(s, b), p.up) == Ref(s, p.up) < s.g.size
    ensures Used(Attached(s, p, b), x) <==> Used(s, x) || x == b
  {
    UsedAlloc(s, o, b, x);
    if p.Sub? { RefRange(s, o, {}, p.up); }
  }

  /** Taking a block for an empty place keeps the ownership invariant. */
  lemma OwnedAttached(s: FS, o: Owners, p: Place, b: nat)
    requires Owned(s, o, {}) && b < s.g.size && !Used(s, b) && Vacant(s, p)
    requires p.Sub? ==> Ref(Alloc(s, b), p.up) == Ref(s, p.up) < s.g.size
    ensures Owned(Attached(s, p, b), o[b := p], {})
  {
    hide Ref, Legal, Used, BBlock, Attached, Alloc;
    var s2, o2 := Attached(s, p, b), o[b := p];
    FreeIsUnowned(s, o, b);
    AttachedWF(s, p, b);
    forall q | Legal(s2, q) ensures OwnsAt(s2, o2, q) {
      SameLegal(s, s2, q);
      RefAttached(s, o, p, b, q);
      if Ref(s, q) != 0 { RefRange(s, o, {}, q); }
    }
    forall x | x in o2 ensures Owner(s2, o2, x) {
      AttachedOwner(s, o, p, b, x);
    }
    forall x | 0 <= x < s2.g.size ensures BitRight(s2, o2, x) {
      UsedAttached(s, o, p, b, x);
      assert BitRight(s, o, x);
    }
  }

  lemma AttachedWF(s: FS, p: Place, b: nat)
    requires WF(s) && b < s.g.size && Vacant(s, p) && (p.Sub? ==> Ref(Alloc(s, b), p.up) < s.g.size)
    ensures var s' := Attached(s, p, b); WF(s') && s'.g == s.g && |s'.files| == |s.files|
  {
    hide Ref, SetWord, BitSet;
  }

  lemma AttachedOwner(s: FS, o: Owners, p: Place, b: nat, x: nat)
    requires Owned(s, o, {}) && b < s.g.size && !Used(s, b) && Vacant(s, p) && x in o[b := p]
    requires p.Sub? ==> Ref(Alloc(s, b), p.up) == Ref(s, p.up) < s.g.size
    ensures Owner(Attached(s, p, b), o[b := p], x)
  {
    hide Ref, Legal, Used, BBlock, Attached, Alloc, Referred, BitmapRight;
    FreeIsUnowned(s, o, b);
    AttachedWF(s, p, b);
    if x != b {
      assert Owner(s, o, x);
      RefAttached(s, o, p, b, o[x]);
      ParentNamed(s, o[x]);
    } else {
      RefAttached(s, o, p, b, p);
    }
  }

  lemma ParentNamed(s: FS, p: Place)
    ensures p.Sub? && Ref(s, p) != 0 ==> Ref(s, p.up) != 0
  {
  }

  lemma {:induction false} SameLegal(s: FS, s': FS, p: Place)
    requires s.g == s'.g && |s.files| == |s'.files|
    ensures Legal(s, p) <==> Legal(s', p)
  {
    if p.Sub? { SameLegal(s, s', p.up); }
  }

  // ---- a block is freed -----------------------------------------------------------------------------------

  /** What bfree() does to block `b`. */
  function Freed(s: FS, b: nat): FS
    requires BBlock(s.g, b) < |s.blk|
  {
    var m := BBlock(s.g, b);
    s.(blk := s.blk[m := BitClear(s.blk[m], b % BPB)])
  }

  lemma UsedFreed(s: FS, b: nat, x: nat)
    requires WF(s) && b < s.g.size && x < s.g.size
    ensures Used(Freed(s, b), x) <==> Used(s, x) && x != b
  {
    BitOps(s.blk[BBlock(s.g, b)], b % BPB, x % BPB);
    SameBit(b, x);
  }

  ghost predicate NoIndex(s: FS, gone: set<Place>) { forall p | p in gone :: !IsIndex(s.g, p) }

  lemma RefFreed(s: FS, o: Owners, gone: set<Place>, b: nat, q: Place)
    requires Owned(s, o, gone) && NoIndex(s, gone) && b in o && Legal(s, q)
    ensures BBlock(s.g, b) < |s.blk| && Ref(Freed(s, b), q) == Ref(s, q) && Legal(Freed(s, b), q)
  {
    assert Owner(s, o, b);
    hide BitmapRight, BitClear;
    forall p | Legal(s, p) && IsIndex(s.g, p) ensures SameIndex(s, Freed(s, b), p) {
      if Ref(s, p) != 0 { RefRange(s, o, gone, p); }
    }
    RefFrame(s, Freed(s, b), q);
  }

  lemma FreedReferred(s: FS, o: Owners, gone: set<Place>, b: nat)
    requires Owned(s, o, gone) && NoIndex(s, gone) && b in o && BBlock(s.g, b) < |s.blk|
    ensures Referred(Freed(s, b), o - {b}, gone + {o[b]})
  {
    var s2, gone2 := Freed(s, b), gone + {o[b]};
    hide Freed, OwnsAt;
    forall q | Legal(s2, q) && q !in gone2 ensures OwnsAt(s2, o - {b}, q) {
      FreedOwnsAt(s, o, gone, b, q);
    }
  }

  lemma SameParts(s: FS, b: nat)
    requires BBlock(s.g, b) < |s.blk|
    ensures Freed(s, b).g == s.g && Freed(s, b).files == s.files
  {
  }

  lemma FreedOwnsAt(s: FS, o: Owners, gone: set<Place>, b: nat, q: Place)
    requires Owned(s, o, gone) && NoIndex(s, gone) && b in o && BBlock(s.g, b) < |s.blk|
    requires Legal(Freed(s, b), q) && q !in gone && q != o[b]
    ensures OwnsAt(Freed(s, b), o - {b}, q)
  {
    hide Owning, BitmapRight, Ref, Legal, Freed, WF, IsIndex;
    SameParts(s, b);
    SameLegal(s, Freed(s, b), q);
    RefFreed(s, o, gone, b, q);
    assert OwnsAt(s, o, q);
  }

  lemma FreedOwning(s: FS, o: Owners, gone: set<Place>, b: nat)
    requires Owned(s, o, gone) && NoIndex(s, gone) && b in o && BBlock(s.g, b) < |s.blk|
    ensures Owning(Freed(s, b), o - {b}, gone + {o[b]})
  {
    assert Owner(s, o, b);
    forall x | x in o - {b} ensures Owner(Freed(s, b), o - {b}, x) && (o - {b})[x] !in gone + {o[b]} {
      assert Owner(s, o, x);
      RefFreed(s, o, gone, b, o[x]);
    }
  }

  /** Freeing an owned block: its bit was set, and its place has to be cleared. */
  lemma OwnedFreed(s: FS, o: Owners, gone: set<Place>, b: nat)
    requires Owned(s, o, gone) && NoIndex(s, gone) && b in o
    ensures b < s.g.size && Used(s, b) && Owned(Freed(s, b), o - {b}, gone + {o[b]})
  {
    assert Owner(s, o, b) && BitRight(s, o, b);
    var s2, o2 := Freed(s, b), o - {b};
    assert WF(s2);
    FreedReferred(s, o, gone, b);
    FreedOwning(s, o, gone, b);
    hide Referred, Owning, Legal, Ref;
    forall x | 0 <= x < s2.g.size ensures BitRight(s2, o2, x) {
      UsedFreed(s, b, x);
      assert BitRight(s, o, x);
    }
  }

  /** An empty place needs no clearing. */
  lemma OwnedGone(s: FS, o: Owners, gone: set<Place>, p: Place)
    requires Owned(s, o, gone) && Ref(s, p) == 0
    ensures Owned(s, o, gone + {p})
  {
    forall q | Legal(s, q) && q !in gone + {p} ensures OwnsAt(s, o, q) {
    }
    forall x | x in o ensures Owner(s, o, x) && o[x] !in gone + {p} {
      assert Owner(s, o, x);
    }
  }

  // ---- a slot is cleared ------------------------------------------------------------------------------------

  /** ip->addrs[i] = 0 */
  function Cleared(s: FS, f: nat, i: nat): FS
    requires WF(s) && f < |s.files| && i < Slots(s.g)
  {
    s.(files := s.files[f := s.files[f].(addrs := s.files[f].addrs[i := 0])])
  }

  predicate Under(q: Place, top: Place) { q == top || (q.Sub? && q.up == top) }

  lemma {:induction false} RefCleared(s: FS, f: nat, i: nat, q: Place)
    requires WF(s) && f < |s.files| && i <= s.g.nd && Legal(s, q)
    ensures Legal(Cleared(s, f, i), q)
    ensures Ref(Cleared(s, f, i), q) == if Under(q, Slot(f, i)) then 0 else Ref(s, q)
  {
    if q.Sub? {
      RefCleared(s, f, i, q.up);
    }
  }

  /** Clearing a direct slot, or the indirect one when its entries are freed, completes the freeing. */
  lemma OwnedCleared(s: FS, o: Owners, gone: set<Place>, f: nat, i: nat)
    requires Owned(s, o, gone) && f < |s.files| && i <= s.g.nd && Slot(f, i) in gone
    requires forall p | p in gone :: Under(p, Slot(f, i))
    requires i == s.g.nd ==> forall j | 0 <= j < NINDIRECT :: Sub(Slot(f, i), j) in gone
    ensures Owned(Cleared(s, f, i), o, {})
  {
    var s2, top := Cleared(s, f, i), Slot(f, i);
    assert WF(s2);
    forall q | Legal(s2, q) ensures OwnsAt(s2, o, q) {
      SameLegal(s, s2, q);
      RefCleared(s, f, i, q);
      if q !in gone { assert OwnsAt(s, o, q); }
    }
    forall x | x in o ensures Owner(s2, o, x) {
      assert Owner(s, o, x) && o[x] !in gone;
      RefCleared(s, f, i, o[x]);
    }
    forall x | 0 <= x < s2.g.size ensures BitRight(s2, o, x) {
      assert BitRight(s, o, x);
    }
  }
}
