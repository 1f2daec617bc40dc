// The bytes of a file, and what allocation and writing do to them.

module FsFile {
  import opened BitVector
  import opened FsBlock
  import opened FsOwner
  import opened FsUpdate

  /** The block of a file that holds a position, and the place of the position in it. */
  function BlockNo(pos: nat): nat { pos / BSIZE }

  function Offset(pos: nat): (r: nat)
    ensures r < BSIZE
  {
    pos % BSIZE
  }

  lemma BlockNoBound(g: Geometry, pos: nat)
    ensures pos < MaxFile(g) * BSIZE <==> BlockNo(pos) < MaxFile(g)
    ensures pos == BlockNo(pos) * BSIZE + Offset(pos)
  {
  }

  /** The byte at a position of a file; 0 where no block is mapped. */
  function ByteAt(s: FS, f: nat, pos: nat): bv8 {
    var r := Where(s, f, BlockNo(pos));
    if r == 0 || r >= |s.blk| then 0 else s.blk[r][Offset(pos)]
  }

  function Contents(s: FS, f: nat): seq<bv8>
    requires f < |s.files|
  {
    seq(s.files[f].size, (i: int) => if i < 0 then 0 else ByteAt(s, f, i))
  }

  /** Blocks below the size of a file are mapped. */
  ghost predicate Mapped(s: FS, f: nat)
    requires f < |s.files|
  {
    s.files[f].size <= MaxFile(s.g) * BSIZE && forall n: nat | n * BSIZE < s.files[f].size :: Where(s, f, n) != 0
  }

  ghost predicate AllMapped(s: FS) { forall f | 0 <= f < |s.files| :: Mapped(s, f) }

  // ---- growth ----------------------------------------------------------------------------------------------

  ghost predicate GrownAt(s: FS, s': FS, q: Place) {
    Legal(s, q) && Ref(s, q) != 0 ==>
      Ref(s', q) == Ref(s, q) && Ref(s, q) < |s.blk| && Ref(s, q) < |s'.blk| && (!IsIndex(s.g, q) ==> s'.blk[Ref(s, q)] == s.blk[Ref(s, q)])
  }

  /** Blocks were added; everything that was there stays. */
  ghost predicate Grown(s: FS, s': FS) {
    && s'.g == s.g && |s'.blk| == |s.blk| && |s'.files| == |s.files|
    && (forall f | 0 <= f < |s.files| :: s'.files[f].size == s.files[f].size)
    && (forall q :: GrownAt(s, s', q))
  }

  lemma GrownRefl(s: FS, o: Owners)
    requires Owned(s, o, {})
    ensures Grown(s, s)
  {
    forall q | Legal(s, q) && Ref(s, q) != 0 ensures GrownAt(s, s, q) {
      RefRange(s, o, {}, q);
    }
  }

  lemma GrownTrans(a: FS, b: FS, c: FS)
    requires Grown(a, b) && Grown(b, c)
    ensures Grown(a, c)
  {
    forall q ensures GrownAt(a, c, q) {
      assert GrownAt(a, b, q) && GrownAt(b, c, q);
      SameLegal(a, b, q);
    }
  }

  lemma AttachedGrownAt(s: FS, o: Owners, p: Place, b: nat, q: Place)
    requires Owned(s, o, {}) && b < s.g.size && !Used(s, b) && Vacant(s, p)
    requires p.Sub? ==> Ref(Alloc(s, b), p.up) == Ref(s, p.up) < s.g.size
    ensures GrownAt(s, Attached(s, p, b), q)
  {
    if Legal(s, q) && Ref(s, q) != 0 {
      FreeIsUnowned(s, o, b);
      if p.Sub? { RefRange(s, o, {}, p.up); }
      RefAttached(s, o, p, b, q);
      RefRange(s, o, {}, q);
      hide Owned, Legal, Ref, Used, Attached;
      if !IsIndex(s.g, q) { AttachedBlock(s, p, b, Ref(s, q)); }
      AttachedSize(s, p, b);
    }
  }

  lemma AttachedSize(s: FS, p: Place, b: nat)
    requires WF(s) && b < s.g.size && Vacant(s, p) && (p.Sub? ==> Ref(Alloc(s, b), p.up) < s.g.size)
    ensures var s' := Attached(s, p, b); s'.g == s.g && |s'.blk| == |s.blk| && |s'.files| == |s.files|
  {
  }

  lemma AttachedBlock(s: FS, p: Place, b: nat, r: nat)
    requires WF(s) && b < s.g.size && Vacant(s, p) && (p.Sub? ==> Ref(Alloc(s, b), p.up) == Ref(s, p.up) < s.g.size)
    requires r < s.g.size && r != b && r != BBlock(s.g, b) && (p.Sub? ==> r != Ref(s, p.up))
    ensures |Attached(s, p, b).blk| == |s.blk| && Attached(s, p, b).blk[r] == s.blk[r]
  {
    hide Ref, BitSet, SetWord;
  }

  /** The block that is attached to an empty place is a new one, filled with zeros. */
  lemma AttachedGrows(s: FS, o: Owners, p: Place, b: nat)
    requires Owned(s, o, {}) && b < s.g.size && !Used(s, b) && Vacant(s, p)
    requires p.Sub? ==> Ref(Alloc(s, b), p.up) == Ref(s, p.up) < s.g.size
    ensures Grown(s, Attached(s, p, b)) && Ref(Attached(s, p, b), p) == b && b != 0 && Attached(s, p, b).blk[b] == Zero()
  {
    hide Referred, Owning, BitmapRight, Legal, Ref, Used, GrownAt, Attached, Alloc, BBlock;
    FreeIsUnowned(s, o, b);
    RefAttached(s, o, p, b, p);
    forall q ensures GrownAt(s, Attached(s, p, b), q) {
      AttachedGrownAt(s, o, p, b, q);
    }
    AttachedSize(s, p, b);
    AttachedZero(s, o, p, b);
  }

  lemma AttachedZero(s: FS, o: Owners, p: Place, b: nat)
    requires Owned(s, o, {}) && b < s.g.size && !Used(s, b) && Vacant(s, p)
    requires p.Sub? ==> Ref(Alloc(s, b), p.up) == Ref(s, p.up) < s.g.size
    ensures Attached(s, p, b).blk[b] == Zero() && b != 0
    ensures forall f | 0 <= f < |s.files| :: Attached(s, p, b).files[f].size == s.files[f].size
  {
    hide Referred, Owning, BitmapRight, Ref, Used, SetWord, BitSet;
    FreeIsUnowned(s, o, b);
    if p.Sub? { RefRange(s, o, {}, p.up); }
  }

  lemma GrownByte(s: FS, s': FS, f: nat, pos: nat)
    requires Grown(s, s') && f < |s.files| && pos < MaxFile(s.g) * BSIZE && Where(s, f, BlockNo(pos)) != 0
    ensures Where(s', f, BlockNo(pos)) == Where(s, f, BlockNo(pos)) && ByteAt(s', f, pos) == ByteAt(s, f, pos)
  {
    var q := DataPlace(s.g, f, BlockNo(pos));
    BlockNoBound(s.g, pos);
    hide BlockNo, Offset, MaxFile;
    DataPlaceLegal(s, f, BlockNo(pos));
    hide DataPlace, Ref, Legal;
    assert GrownAt(s, s', q);
  }

  // ---- writing -----------------------------------------------------------------------------------------------

  /** Bytes are copied into a block. */
  function Poked(s: FS, r: nat, at: nat, bytes: seq<bv8>): FS
    requires r < |s.blk| && at + |bytes| <= BSIZE
  {
    s.(blk := s.blk[r := Patch(s.blk[r], at, bytes)])
  }

  function Patch(b: Block, at: nat, bytes: seq<bv8>): Block
    requires at + |bytes| <= BSIZE
  {
    b[..at] + bytes + b[at + |bytes|..]
  }

  lemma PatchAt(b: Block, at: nat, bytes: seq<bv8>, i: nat)
    requires at + |bytes| <= BSIZE && i < BSIZE
    ensures Patch(b, at, bytes)[i] == if at <= i < at + |bytes| then bytes[i - at] else b[i]
  {
  }

  /** Writing into a data block changes no block number and no owner. */
  lemma RefPoked(s: FS, o: Owners, p: Place, at: nat, bytes: seq<bv8>, q: Place)
    requires Owned(s, o, {}) && Legal(s, p) && !IsIndex(s.g, p) && Ref(s, p) != 0 && Legal(s, q) && at + |bytes| <= BSIZE
    ensures Ref(s, p) < |s.blk| && Legal(Poked(s, Ref(s, p), at, bytes), q)
    ensures Ref(Poked(s, Ref(s, p), at, bytes), q) == Ref(s, q)
  {
    hide BitmapRight, Patch, Referred, Owning, Word;
    RefRange(s, o, {}, p);
    var s' := Poked(s, Ref(s, p), at, bytes);
    forall u | Legal(s, u) && IsIndex(s.g, u) ensures SameIndex(s, s', u) {
      if Ref(s, u) != 0 { RefRange(s, o, {}, u); }
    }
    RefFrame(s, s', q);
  }

  lemma OwnedPoked(s: FS, o: Owners, p: Place, at: nat, bytes: seq<bv8>)
    requires Owned(s, o, {}) && Legal(s, p) && !IsIndex(s.g, p) && Ref(s, p) != 0 && at + |bytes| <= BSIZE
    ensures Ref(s, p) < |s.blk| && Owned(Poked(s, Ref(s, p), at, bytes), o, {})
  {
    hide BitIsSet, Patch, Ref, Legal, Word;
    RefRange(s, o, {}, p);
    var s' := Poked(s, Ref(s, p), at, bytes);
    assert WF(s');
    forall q | Legal(s', q) ensures OwnsAt(s', o, q) {
      SameLegal(s, s', q);
      RefPoked(s, o, p, at, bytes, q);
      assert OwnsAt(s, o, q);
    }
    forall x | x in o ensures Owner(s', o, x) {
      assert Owner(s, o, x);
      RefPoked(s, o, p, at, bytes, o[x]);
    }
    forall x | 0 <= x < s'.g.size ensures BitRight(s', o, x) {
      assert BitRight(s, o, x);
    }
  }

  lemma BlockPoked(s: FS, r: nat, at: nat, bytes: seq<bv8>, r': nat, i: nat)
    requires r < |s.blk| && at + |bytes| <= BSIZE && r' < |s.blk| && i < BSIZE
    ensures var s' := Poked(s, r, at, bytes);
            && s'.g == s.g && s'.files == s.files && |s'.blk| == |s.blk|
            && s'.blk[r'][i] == if r' == r && at <= i < at + |bytes| then bytes[i - at] else s.blk[r'][i]
  {
    PatchAt(s.blk[r], at, bytes, i);
  }

  /** Blocks of files have numbers in range, and different ones are different. */
  lemma WhereFacts(s: FS, o: Owners, f: nat, n: nat, f': nat, n': nat)
    requires Owned(s, o, {}) && f < |s.files| && f' < |s.files| && n < MaxFile(s.g) && n' < MaxFile(s.g)
    ensures Where(s, f, n) < |s.blk|
    ensures Where(s, f, n) != 0 ==> (Where(s, f, n) == Where(s, f', n') <==> f' == f && n' == n)
  {
    if Where(s, f, n) != 0 {
      DataPlaceLegal(s, f, n);
      RefRange(s, o, {}, DataPlace(s.g, f, n));
      if Where(s, f, n) == Where(s, f', n') {
        BlocksDistinct(s, o, f, n, f', n');
      }
    }
  }

  lemma WherePoked(s: FS, o: Owners, f: nat, n: nat, at: nat, bytes: seq<bv8>, f': nat, n': nat)
    requires Owned(s, o, {}) && f < |s.files| && n < MaxFile(s.g) && Where(s, f, n) != 0 && at + |bytes| <= BSIZE
    requires f' < |s.files| && n' < MaxFile(s.g) && Where(s, f, n) < |s.blk|
    ensures Where(Poked(s, Where(s, f, n), at, bytes), f', n') == Where(s, f', n')
  {
    DataPlaceLegal(s, f, n);
    DataPlaceLegal(s, f', n');
    RefPoked(s, o, DataPlace(s.g, f, n), at, bytes, DataPlace(s.g, f', n'));
  }

  lemma BytePoked(s: FS, o: Owners, f: nat, n: nat, at: nat, bytes: seq<bv8>, f': nat, pos: nat)
    requires Owned(s, o, {}) && f < |s.files| && n < MaxFile(s.g) && Where(s, f, n) != 0 && at + |bytes| <= BSIZE
    requires f' < |s.files| && pos < MaxFile(s.g) * BSIZE
    ensures Where(s, f, n) < |s.blk|
    ensures var s' := Poked(s, Where(s, f, n), at, bytes);
            && Where(s', f', BlockNo(pos)) == Where(s, f', BlockNo(pos))
            && ByteAt(s', f', pos) ==
               if f' == f && BlockNo(pos) == n && at <= Offset(pos) < at + |bytes| then bytes[Offset(pos) - at]
               else ByteAt(s, f', pos)
  {
    BlockNoBound(s.g, pos);
    hide BlockNo, Offset, MaxFile, Where, Owned, Poked;
    WhereFacts(s, o, f, n, f', BlockNo(pos));
    WhereFacts(s, o, f', BlockNo(pos), f, n);
    WherePoked(s, o, f, n, at, bytes, f', BlockNo(pos));
    BlockPoked(s, Where(s, f, n), at, bytes, Where(s, f', BlockNo(pos)), Offset(pos));
  }

  /** What a write of the first `tot` bytes of `src` at `off` leaves at a position. */
  function Expected(s: FS, f: nat, off: nat, src: seq<bv8>, tot: nat, f': nat, pos: nat): bv8
    requires tot <= |src|
  {
    if f' == f && off <= pos < off + tot then src[pos - off] else ByteAt(s, f', pos)
  }

  ghost predicate WroteAt(s: FS, s': FS, f: nat, off: nat, src: seq<bv8>, tot: nat, f': nat, pos: nat)
    requires tot <= |src|
  {
    Where(s', f', BlockNo(pos)) != 0 && ByteAt(s', f', pos) == Expected(s, f, off, src, tot, f', pos)
  }

  predicate Covered(s: FS, f: nat, off: nat, tot: nat, f': nat, pos: nat) {
    f' < |s.files| && (pos < s.files[f'].size || (f' == f && pos < off + tot))
  }

  /** The first `tot` bytes were written, all other bytes of all files are as in `s`. */
  ghost predicate Wrote(s: FS, s': FS, f: nat, off: nat, src: seq<bv8>, tot: nat) {
    && s'.g == s.g && |s'.files| == |s.files| && tot <= |src|
    && (forall h | 0 <= h < |s.files| :: s'.files[h].size == s.files[h].size)
    && (forall f': nat, pos: nat {:trigger WroteAt(s, s', f, off, src, tot, f', pos)} | Covered(s, f, off, tot, f', pos) ::
          WroteAt(s, s', f, off, src, tot, f', pos))
  }

  /** Positions that count lie below the largest file size. */
  ghost predicate Fits(s: FS, f: nat, off: nat, n: nat) {
    f < |s.files| && AllMapped(s) && off <= s.files[f].size && off + n <= MaxFile(s.g) * BSIZE
  }

  lemma CoveredSmall(s: FS, f: nat, off: nat, n: nat, f': nat, pos: nat)
    requires Fits(s, f, off, n) && Covered(s, f, off, n, f', pos)
    ensures pos < MaxFile(s.g) * BSIZE
  {
    assert Mapped(s, f');
  }

  lemma WroteStart(s: FS, f: nat, off: nat, src: seq<bv8>)
    requires Fits(s, f, off, |src|)
    ensures Wrote(s, s, f, off, src, 0)
  {
    forall f': nat, pos: nat | Covered(s, f, off, 0, f', pos) ensures WroteAt(s, s, f, off, src, 0, f', pos) {
      assert Mapped(s, f');
      assert pos < s.files[f'].size;
      assert BlockNo(pos) * BSIZE <= pos;
    }
  }

  lemma WroteGrown(s: FS, s1: FS, s2: FS, f: nat, off: nat, src: seq<bv8>, tot: nat)
    requires Fits(s, f, off, |src|) && Wrote(s, s1, f, off, src, tot) && Grown(s1, s2)
    ensures Wrote(s, s2, f, off, src, tot)
  {
    forall f': nat, pos: nat | Covered(s, f, off, tot, f', pos) ensures WroteAt(s, s2, f, off, src, tot, f', pos) {
      assert WroteAt(s, s1, f, off, src, tot, f', pos);
      CoveredSmall(s, f, off, |src|, f', pos);
      GrownByte(s1, s2, f', pos);
    }
  }

  lemma WroteParts(s: FS, s': FS, f: nat, off: nat, src: seq<bv8>, tot: nat)
    requires Wrote(s, s', f, off, src, tot)
    ensures s'.g == s.g && |s'.files| == |s.files| && tot <= |src|
  {
  }

  lemma WroteGives(s: FS, s': FS, f: nat, off: nat, src: seq<bv8>, tot: nat, f': nat, pos: nat)
    requires tot <= |src| && Wrote(s, s', f, off, src, tot) && Covered(s, f, off, tot, f', pos)
    ensures WroteAt(s, s', f, off, src, tot, f', pos)
  {
  }

  lemma FitsFile(s: FS, f: nat, off: nat, n: nat)
    requires Fits(s, f, off, n)
    ensures f < |s.files| && off + n <= MaxFile(s.g) * BSIZE
  {
  }

  lemma WrotePokedAt(s: FS, s1: FS, o: Owners, f: nat, off: nat, src: seq<bv8>, tot: nat, m: nat, f': nat, pos: nat)
    requires Fits(s, f, off, |src|) && Wrote(s, s1, f, off, src, tot) && Owned(s1, o, {})
    requires m > 0 && tot + m <= |src| && Offset(off + tot) + m <= BSIZE && Where(s1, f, BlockNo(off + tot)) != 0
    requires Covered(s, f, off, tot + m, f', pos) && BlockNo(off + tot) < MaxFile(s.g)
    ensures Where(s1, f, BlockNo(off + tot)) < |s1.blk|
    ensures var s2 := Poked(s1, Where(s1, f, BlockNo(off + tot)), Offset(off + tot), src[tot..tot + m]);
            WroteAt(s, s2, f, off, src, tot + m, f', pos)
  {
    hide BlockNo, Offset, MaxFile, AllMapped, Owned, Poked, Where, ByteAt, Wrote, Fits;
    var n, at, bytes := BlockNo(off + tot), Offset(off + tot), src[tot..tot + m];
    WroteParts(s, s1, f, off, src, tot);
    FitsFile(s, f, off, |src|);
    Here(pos, off + tot, m);
    CoveredSmall(s, f, off, |src|, f', pos);
    BytePoked(s1, o, f, n, at, bytes, f', pos);
    if Covered(s, f, off, tot, f', pos) { WroteGives(s, s1, f, off, src, tot, f', pos); }
  }

  /** One turn of the loop in writei(): `m` more bytes, all in one block. */
  lemma WrotePoked(s: FS, s1: FS, o: Owners, f: nat, off: nat, src: seq<bv8>, tot: nat, m: nat)
    requires Fits(s, f, off, |src|) && Wrote(s, s1, f, off, src, tot) && Owned(s1, o, {})
    requires m > 0 && tot + m <= |src| && Offset(off + tot) + m <= BSIZE && Where(s1, f, BlockNo(off + tot)) != 0
    ensures Where(s1, f, BlockNo(off + tot)) < |s1.blk|
    ensures Wrote(s, Poked(s1, Where(s1, f, BlockNo(off + tot)), Offset(off + tot), src[tot..tot + m]), f, off, src, tot + m)
  {
    hide BlockNo, Offset, MaxFile, AllMapped, Where, Owned, Poked, WroteAt, Covered;
    var n, at, bytes := BlockNo(off + tot), Offset(off + tot), src[tot..tot + m];
    BlockNoBound(s.g, off + tot);
    WhereFacts(s1, o, f, n, f, n);
    var s2, more := Poked(s1, Where(s1, f, n), at, bytes), tot + m;
    BlockPoked(s1, Where(s1, f, n), at, bytes, 0, 0);
    forall f': nat, pos: nat | Covered(s, f, off, more, f', pos) ensures WroteAt(s, s2, f, off, src, more, f', pos) {
      WrotePokedAt(s, s1, o, f, off, src, tot, m, f', pos);
    }
  }

  /** The positions of `m` bytes that lie in one block. */
  lemma Here(pos: nat, from: nat, m: nat)
    requires m > 0 && Offset(from) + m <= BSIZE
    ensures from <= pos < from + m <==> BlockNo(pos) == BlockNo(from) && Offset(from) <= Offset(pos) < Offset(from) + m
    ensures from <= pos < from + m ==> Offset(pos) - Offset(from) == pos - from
  {
  }

  /** ip->size = z */
  function WithSize(s: FS, f: nat, z: nat): FS
    requires f < |s.files|
  {
    s.(files := s.files[f := s.files[f].(size := z)])
  }

  lemma {:induction false} RefWithSize(s: FS, f: nat, z: nat, p: Place)
    requires f < |s.files|
    ensures Ref(WithSize(s, f, z), p) == Ref(s, p) && (Legal(WithSize(s, f, z), p) <==> Legal(s, p))
  {
    if p.Sub? { RefWithSize(s, f, z, p.up); }
  }

  lemma OwnedWithSize(s: FS, o: Owners, f: nat, z: nat)
    requires Owned(s, o, {}) && f < |s.files|
    ensures Owned(WithSize(s, f, z), o, {})
  {
    var s' := WithSize(s, f, z);
    forall q | Legal(s', q) ensures OwnsAt(s', o, q) {
      RefWithSize(s, f, z, q);
      assert OwnsAt(s, o, q);
    }
    forall x | x in o ensures Owner(s', o, x) {
      assert Owner(s, o, x);
      RefWithSize(s, f, z, o[x]);
    }
    forall x | 0 <= x < s'.g.size ensures BitRight(s', o, x) {
      assert BitRight(s, o, x);
    }
  }

  /** Bytes `src` placed at `off` in `c`, which grows when they reach beyond its end. */
  function Splice(c: seq<bv8>, off: nat, src: seq<bv8>): seq<bv8>
    requires off <= |c|
  {
    c[..off] + src + if off + |src| < |c| then c[off + |src|..] else []
  }

  /** Once all bytes are written and the size is set, the file is spliced and the others are as before. */
  lemma WriteDone(s: FS, s1: FS, f: nat, off: nat, src: seq<bv8>)
    requires Fits(s, f, off, |src|) && Wrote(s, s1, f, off, src, |src|)
    ensures var z := if off + |src| > s.files[f].size then off + |src| else s.files[f].size;
            var s' := WithSize(s1, f, z);
            && AllMapped(s') && Contents(s', f) == Splice(Contents(s, f), off, src)
            && forall h | 0 <= h < |s.files| && h != f :: Contents(s', h) == Contents(s, h)
  {
    var z := if off + |src| > s.files[f].size then off + |src| else s.files[f].size;
    var s' := WithSize(s1, f, z);
    hide Mapped, Contents, Wrote, Fits, Splice;
    forall h | 0 <= h < |s.files| ensures Mapped(s', h) {
      MappedDone(s, s1, f, off, src, h);
    }
    forall h | 0 <= h < |s.files| && h != f ensures Contents(s', h) == Contents(s, h) {
      OtherDone(s, s1, f, off, src, h);
    }
    SpliceDone(s, s1, f, off, src);
  }

  lemma OtherDone(s: FS, s1: FS, f: nat, off: nat, src: seq<bv8>, h: nat)
    requires Fits(s, f, off, |src|) && Wrote(s, s1, f, off, src, |src|) && h < |s.files| && h != f
    ensures forall z :: Contents(WithSize(s1, f, z), h) == Contents(s, h)
  {
    forall z ensures Contents(WithSize(s1, f, z), h) == Contents(s, h) {
      forall i | 0 <= i < s.files[h].size ensures Contents(WithSize(s1, f, z), h)[i] == Contents(s, h)[i] {
        ByteDone(s, s1, f, off, src, h, i);
      }
    }
  }

  lemma SpliceDone(s: FS, s1: FS, f: nat, off: nat, src: seq<bv8>)
    requires Fits(s, f, off, |src|) && Wrote(s, s1, f, off, src, |src|)
    ensures var z := if off + |src| > s.files[f].size then off + |src| else s.files[f].size;
            Contents(WithSize(s1, f, z), f) == Splice(Contents(s, f), off, src)
  {
    hide AllMapped, MaxFile, Wrote, ByteAt, Contents, Splice;
    SpliceFacts(s, s1, f, off, src);
    var z := if off + |src| > s.files[f].size then off + |src| else s.files[f].size;
    var s' := WithSize(s1, f, z);
    var c, d := Contents(s', f), Splice(Contents(s, f), off, src);
    forall i | 0 <= i < z ensures c[i] == d[i] {
      ByteDone(s, s1, f, off, src, f, i);
      ByteOfContents(s', f, i);
      SpliceAt(Contents(s, f), off, src, i);
      if i < s.files[f].size { ByteOfContents(s, f, i); }
    }
    assert c == d;
  }

  lemma SpliceFacts(s: FS, s1: FS, f: nat, off: nat, src: seq<bv8>)
    requires Fits(s, f, off, |src|) && Wrote(s, s1, f, off, src, |src|)
    ensures f < |s.files| && f < |s1.files| && off <= s.files[f].size == |Contents(s, f)|
    ensures forall z :: |Contents(WithSize(s1, f, z), f)| == z
    ensures |Splice(Contents(s, f), off, src)| == if off + |src| > s.files[f].size then off + |src| else s.files[f].size
  {
    hide AllMapped, MaxFile, WroteAt, ByteAt;
  }

  lemma ByteOfContents(s: FS, f: nat, i: nat)
    requires f < |s.files| && i < s.files[f].size
    ensures i < |Contents(s, f)| && Contents(s, f)[i] == ByteAt(s, f, i)
  {
    hide ByteAt;
  }

  lemma SpliceAt(c: seq<bv8>, off: nat, src: seq<bv8>, i: nat)
    requires off <= |c| && (i < |c| || i < off + |src|)
    ensures i < |Splice(c, off, src)|
    ensures Splice(c, off, src)[i] == if off <= i < off + |src| then src[i - off] else c[i]
  {
  }

  lemma ByteDone(s: FS, s1: FS, f: nat, off: nat, src: seq<bv8>, h: nat, pos: nat)
    requires Fits(s, f, off, |src|) && Wrote(s, s1, f, off, src, |src|) && Covered(s, f, off, |src|, h, pos)
    ensures forall z :: ByteAt(WithSize(s1, f, z), h, pos) == Expected(s, f, off, src, |src|, h, pos)
  {
    assert WroteAt(s, s1, f, off, src, |src|, h, pos);
    forall z ensures ByteAt(WithSize(s1, f, z), h, pos) == ByteAt(s1, h, pos) {
      RefWithSize(s1, f, z, DataPlace(s1.g, h, BlockNo(pos)));
    }
  }

  lemma MappedDone(s: FS, s1: FS, f: nat, off: nat, src: seq<bv8>, h: nat)
    requires Fits(s, f, off, |src|) && Wrote(s, s1, f, off, src, |src|) && h < |s.files|
    ensures var z := if off + |src| > s.files[f].size then off + |src| else s.files[f].size;
            Mapped(WithSize(s1, f, z), h)
  {
    var z := if off + |src| > s.files[f].size then off + |src| else s.files[f].size;
    var s' := WithSize(s1, f, z);
    assert Mapped(s, h) && Mapped(s, f);
    forall n: nat | n * BSIZE < s'.files[h].size ensures Where(s', h, n) != 0 {
      RefWithSize(s1, f, z, DataPlace(s1.g, h, n));
      assert BlockNo(n * BSIZE) == n;
      assert WroteAt(s, s1, f, off, src, |src|, h, n * BSIZE);
    }
  }
}
