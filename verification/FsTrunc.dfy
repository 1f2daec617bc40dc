// What itrunc() does to block ownership and to the other files.

module FsTrunc {
  import opened BitVector
  import opened FsBlock
  import opened FsOwner
  import opened FsUpdate
  import opened FsFile

  /** The places whose blocks itrunc() has freed after `i` slots and `j` indirect entries. */
  predicate Cut(g: Geometry, f: nat, i: nat, j: nat, p: Place) {
    if p.Slot? then p.f == f && p.i < i else p.up == Slot(f, g.nd) && p.j < j
  }

  /** The owners that remain. */
  function Rest(g: Geometry, o: Owners, f: nat, i: nat, j: nat): Owners {
    map b | b in o && !Cut(g, f, i, j, o[b]) :: o[b]
  }

  /** Inodes of other files and everything outside the bitmap are as before. */
  ghost predicate Trimmed(s: FS, s': FS, f: nat) {
    && s'.g == s.g && |s'.blk| == |s.blk| && |s'.files| == |s.files|
    && (forall b | s.g.nmeta <= b < |s.blk| :: s'.blk[b] == s.blk[b])
    && (forall h | 0 <= h < |s.files| && h != f :: s'.files[h] == s.files[h])
  }

  /** One more place is cut; `b` is the block it refers to. */
  lemma RestNext(s: FS, o: Owners, o': Owners, gone: set<Place>, p: Place, b: nat)
    requires Owned(s, o, gone) && Legal(s, p) && p !in gone && b == Ref(s, p)
    requires b != 0 ==> o' == o - {b}
    requires b == 0 ==> o' == o
    ensures forall x :: x in o' <==> x in o && o[x] != p
    ensures forall x | x in o' :: o'[x] == o[x]
    ensures b != 0 ==> b in o && o[b] == p
  {
    if b != 0 { RefRange(s, o, gone, p); }
    forall x | x in o && o[x] == p ensures x == b && b != 0 {
      assert Owner(s, o, x);
    }
  }

  lemma RestSlot(g: Geometry, o: Owners, oi: Owners, o': Owners, f: nat, i: nat)
    requires oi == Rest(g, o, f, i, 0)
    requires forall x :: x in o' <==> x in oi && oi[x] != Slot(f, i)
    requires forall x | x in o' :: o'[x] == oi[x]
    ensures o' == Rest(g, o, f, i + 1, 0)
  {
  }

  lemma RestEntry(g: Geometry, o: Owners, oj: Owners, o': Owners, f: nat, i: nat, j: nat)
    requires oj == Rest(g, o, f, i, j)
    requires forall x :: x in o' <==> x in oj && oj[x] != Sub(Slot(f, g.nd), j)
    requires forall x | x in o' :: o'[x] == oj[x]
    ensures o' == Rest(g, o, f, i, j + 1)
  {
  }

  /** A direct block is freed and its slot cleared. */
  lemma SlotFreed(s: FS, o: Owners, f: nat, i: nat)
    requires Owned(s, o, {}) && f < |s.files| && i < s.g.nd && Ref(s, Slot(f, i)) != 0
    ensures var b := Ref(s, Slot(f, i));
            && WF(s) && b < s.g.size && Used(s, b) && b in o && WF(Freed(s, b)) && Slots(s.g) > i
            && Owned(Cleared(Freed(s, b), f, i), o - {b}, {})
            && Trimmed(s, Cleared(Freed(s, b), f, i), f)
  {
    hide Used, BitClear;
    var p, b := Slot(f, i), Ref(s, Slot(f, i));
    RefRange(s, o, {}, p);
    OwnedFreed(s, o, {}, b);
    assert {} + {p} == {p};
    OwnedCleared(Freed(s, b), o - {b}, {p}, f, i);
    assert BBlock(s.g, b) < s.g.nmeta;
  }

  /** The entries of the indirect block that were freed. */
  function Entries(f: nat, nd: nat, j: nat): set<Place> { set k: nat | k < j :: Sub(Slot(f, nd), k) }

  lemma EntriesNext(f: nat, nd: nat, j: nat)
    ensures Entries(f, nd, j) + {Sub(Slot(f, nd), j)} == Entries(f, nd, j + 1)
    ensures Sub(Slot(f, nd), j) !in Entries(f, nd, j)
  {
  }

  lemma EntriesNoIndex(s: FS, f: nat, j: nat)
    ensures NoIndex(s, Entries(f, s.g.nd, j))
  {
  }

  /** One indirect entry: its block is freed when there is one. */
  lemma EntryFreed(s: FS, o: Owners, f: nat, j: nat)
    requires Owned(s, o, Entries(f, s.g.nd, j)) && f < |s.files| && j < NINDIRECT
    ensures var p := Sub(Slot(f, s.g.nd), j); var b := Ref(s, p);
            && WF(s) && Legal(s, p)
            && (b == 0 ==> Owned(s, o, Entries(f, s.g.nd, j + 1)))
            && (b != 0 ==> b < s.g.size && Used(s, b) && b in o && Owned(Freed(s, b), o - {b}, Entries(f, s.g.nd, j + 1))
                           && Trimmed(s, Freed(s, b), f) && Freed(s, b).files == s.files)
  {
    hide Used, BitClear, Referred, Owning, BitmapRight, Entries, Word;
    var p := Sub(Slot(f, s.g.nd), j);
    var b := Ref(s, p);
    EntriesNext(f, s.g.nd, j);
    EntriesNoIndex(s, f, j);
    assert Legal(s, Slot(f, s.g.nd));
    if b == 0 {
      OwnedGone(s, o, Entries(f, s.g.nd, j), p);
    } else {
      RefRange(s, o, Entries(f, s.g.nd, j), p);
      OwnedFreed(s, o, Entries(f, s.g.nd, j), b);
      assert BBlock(s.g, b) < s.g.nmeta;
    }
  }

  /** At last the indirect block itself. */
  lemma IndirectFreed(s: FS, o: Owners, f: nat)
    requires Owned(s, o, Entries(f, s.g.nd, NINDIRECT)) && f < |s.files| && Ref(s, Slot(f, s.g.nd)) != 0
    ensures var b := Ref(s, Slot(f, s.g.nd));
            && WF(s) && b < s.g.size && Used(s, b) && b in o && WF(Freed(s, b)) && Slots(s.g) > s.g.nd
            && Owned(Cleared(Freed(s, b), f, s.g.nd), o - {b}, {})
            && Trimmed(s, Cleared(Freed(s, b), f, s.g.nd), f)
  {
    hide Used, BitClear, Ref, Referred, Owning, BitmapRight, Entries;
    var nd := s.g.nd;
    var p, b, gone := Slot(f, nd), Ref(s, Slot(f, nd)), Entries(f, nd, NINDIRECT);
    EntriesNoIndex(s, f, NINDIRECT);
    EntriesUnder(f, nd);
    RefRange(s, o, gone, p);
    OwnedFreed(s, o, gone, b);
    OwnedCleared(Freed(s, b), o - {b}, gone + {p}, f, nd);
    assert BBlock(s.g, b) < s.g.nmeta;
  }

  lemma EntriesUnder(f: nat, nd: nat)
    ensures var p, gone := Slot(f, nd), Entries(f, nd, NINDIRECT);
            && p !in gone && (forall q | q in gone :: Under(q, p)) && (forall j | 0 <= j < NINDIRECT :: Sub(p, j) in gone)
  {
  }

  lemma TrimmedTrans(a: FS, b: FS, c: FS, f: nat)
    requires Trimmed(a, b, f) && Trimmed(b, c, f)
    ensures Trimmed(a, c, f)
  {
  }

  // ---- what is left --------------------------------------------------------------------------------------------

  /** The block numbers of other files are as before. */
  lemma {:induction false} RefTrimmed(s: FS, s': FS, o: Owners, f: nat, p: Place)
    requires Owned(s, o, {}) && Trimmed(s, s', f) && Legal(s, p) && FileOf(p) != f
    ensures Ref(s', p) == Ref(s, p)
  {
    hide Referred, Owning, BitmapRight, Word;
    if p.Sub? {
      RefTrimmed(s, s', o, f, p.up);
      if Ref(s, p.up) != 0 { RefRange(s, o, {}, p.up); }
    }
  }

  /** The contents of other files are as before. */
  lemma ContentsTrimmed(s: FS, s': FS, o: Owners, f: nat, h: nat)
    requires Owned(s, o, {}) && AllMapped(s) && Trimmed(s, s', f) && h < |s.files| && h != f
    ensures Contents(s', h) == Contents(s, h) && Mapped(s', h)
  {
    hide Owned, BlockNo, Offset, DataPlace, MaxFile, Legal, Ref;
    assert Mapped(s, h);
    forall n: nat | n * BSIZE < s.files[h].size ensures Where(s', h, n) != 0 {
      WhereTrimmed(s, s', o, f, h, n);
    }
    forall i | 0 <= i < s.files[h].size ensures Contents(s', h)[i] == Contents(s, h)[i] {
      ByteTrimmed(s, s', o, f, h, i);
    }
  }

  lemma WhereTrimmed(s: FS, s': FS, o: Owners, f: nat, h: nat, n: nat)
    requires Owned(s, o, {}) && Mapped2(s, h, n) && Trimmed(s, s', f) && h < |s.files| && h != f
    ensures Where(s', h, n) == Where(s, h, n) && s.g.nmeta <= Where(s, h, n) < |s.blk|
  {
    var p := DataPlace(s.g, h, n);
    DataPlaceLegal(s, h, n);
    RefTrimmed(s, s', o, f, p);
    RefRange(s, o, {}, p);
  }

  predicate Mapped2(s: FS, h: nat, n: nat) { n < MaxFile(s.g) && Where(s, h, n) != 0 }

  lemma ByteTrimmed(s: FS, s': FS, o: Owners, f: nat, h: nat, pos: nat)
    requires Owned(s, o, {}) && h < |s.files| && Mapped(s, h) && Trimmed(s, s', f) && h != f && pos < s.files[h].size
    ensures ByteAt(s', h, pos) == ByteAt(s, h, pos)
  {
    BlockNoBound(s.g, pos);
    assert Where(s, h, BlockNo(pos)) != 0;
    WhereTrimmed(s, s', o, f, h, BlockNo(pos));
  }

  ghost predicate NoBlockAt(s: FS, f: nat, p: Place) { Legal(s, p) && FileOf(p) == f ==> Ref(s, p) == 0 }

  /** itrunc() leaves the file without blocks exactly when the double-indirect slot was empty: the
      tree below that slot is not walked. */
  lemma TruncatesAllIff(s: FS, s': FS, f: nat)
    requires WF(s') && f < |s'.files| == |s.files| && s'.g == s.g && |s.files[f].addrs| == Slots(s.g)
    requires forall i | 0 <= i <= s.g.nd :: s'.files[f].addrs[i] == 0
    requires s.g.dbl ==> s'.files[f].addrs[s.g.nd + 1] == s.files[f].addrs[s.g.nd + 1]
    ensures (forall p :: NoBlockAt(s', f, p)) <==> (s.g.dbl ==> s.files[f].addrs[s.g.nd + 1] == 0)
  {
    if s.g.dbl ==> s.files[f].addrs[s.g.nd + 1] == 0 {
      forall p ensures NoBlockAt(s', f, p) {
        if Legal(s', p) && FileOf(p) == f { NoBlocks(s', f, p); }
      }
    } else {
      assert !NoBlockAt(s', f, Slot(f, s.g.nd + 1));
    }
  }

  lemma {:induction false} NoBlocks(s: FS, f: nat, p: Place)
    requires WF(s) && f < |s.files| && Legal(s, p) && FileOf(p) == f
    requires forall i | 0 <= i < Slots(s.g) :: s.files[f].addrs[i] == 0
    ensures Ref(s, p) == 0
  {
    if p.Sub? { NoBlocks(s, f, p.up); }
  }
}
