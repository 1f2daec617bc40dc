// Lemmas for the loops of readi() and writei().

module FsWrite {
  import opened FsBlock
  import opened FsOwner
  import opened FsUpdate
  import opened FsFile
  import opened FsFill
  import opened FsBudget

  // ---- reading -----------------------------------------------------------------------------------------------

  lemma ReadFacts(s: FS, o: Owners, f: nat, pos: nat)
    requires Owned(s, o, {}) && AllMapped(s) && f < |s.files| && pos < s.files[f].size
    ensures BlockNo(pos) < MaxFile(s.g) && 0 != Where(s, f, BlockNo(pos)) < |s.blk|
  {
    assert Mapped(s, f);
    BlockNoBound(s.g, pos);
    WhereFacts(s, o, f, BlockNo(pos), f, BlockNo(pos));
  }

  /** A piece of a file that lies in one block. */
  lemma ReadPiece(s: FS, o: Owners, f: nat, pos: nat, m: nat)
    requires Owned(s, o, {}) && AllMapped(s) && f < |s.files|
    requires m > 0 && pos + m <= s.files[f].size && Offset(pos) + m <= BSIZE
    ensures 0 != Where(s, f, BlockNo(pos)) < |s.blk|
    ensures Contents(s, f)[pos..pos + m] == s.blk[Where(s, f, BlockNo(pos))][Offset(pos)..Offset(pos) + m]
  {
    hide Owned, AllMapped, BlockNo, Offset, Where;
    ReadFacts(s, o, f, pos);
    var r, at := Where(s, f, BlockNo(pos)), Offset(pos);
    var piece, part := Contents(s, f)[pos..pos + m], s.blk[r][at..at + m];
    forall i | 0 <= i < m ensures piece[i] == part[i] {
      assert piece[i] == ByteAt(s, f, pos + i);
      ReadFacts(s, o, f, pos + i);
      Here(pos + i, pos, m);
    }
    assert piece == part;
  }

  // ---- writing -----------------------------------------------------------------------------------------------

  /** Copying bytes into a data block fills no place. */
  lemma PokedFilling(s: FS, o: Owners, f: nat, n: nat, at: nat, bytes: seq<bv8>)
    requires Owned(s, o, {}) && f < |s.files| && n < MaxFile(s.g) && 0 != Where(s, f, n) < |s.blk| && at + |bytes| <= BSIZE
    ensures Owned(Poked(s, Where(s, f, n), at, bytes), o, {})
    ensures Filling(s, Poked(s, Where(s, f, n), at, bytes), {})
  {
    hide Referred, Owning, BitmapRight, MaxFile, IsIndex, Ref, Legal, DataPlace, Patch, Used;
    var p := DataPlace(s.g, f, n);
    DataPlaceLegal(s, f, n);
    var s' := Poked(s, Ref(s, p), at, bytes);
    OwnedPoked(s, o, p, at, bytes);
    forall q | Legal(s, q) ensures Ref(s', q) == Ref(s, q) {
      RefPoked(s, o, p, at, bytes, q);
    }
    RefRange(s, o, {}, p);
    forall x: nat | x < s.g.size ensures Used(s', x) == Used(s, x) {
      SameBits(s, s', x);
    }
    FillingSame(s, s');
  }

  lemma SameBits(s: FS, s': FS, x: nat)
    requires WF(s) && s'.g == s.g && x < s.g.size && |s'.blk| == |s.blk|
    requires forall m: nat | m < s.g.nmeta :: s'.blk[m] == s.blk[m]
    ensures BBlock(s.g, x) < s.g.nmeta <= |s.blk| && Used(s', x) == Used(s, x)
  {
  }

  lemma SizeFilling(s: FS, f: nat, z: nat)
    requires WF(s) && f < |s.files|
    ensures Filling(s, WithSize(s, f, z), {})
  {
    hide Ref, Legal, BBlock;
    var s' := WithSize(s, f, z);
    forall q | Legal(s, q) ensures Ref(s', q) == Ref(s, q) { RefWithSize(s, f, z, q); }
    FillingSame(s, s');
  }

  /** Blocks `lo` to `hi` are written, what was missing there is filled, and `more` was logged. */
  ghost predicate Writing(s0: FS, s: FS, f: nat, lo: nat, hi: nat, more: set<nat>) {
    && Filling(s0, s, MissingIn(s0, f, lo, hi)) && f < |s0.files| && lo <= hi <= MaxFile(s0.g)
    && RangeMapped(s, f, lo, hi) && more == WriteLog(s0, s, f, lo, hi)
  }

  lemma WritingStart(s: FS, f: nat, lo: nat)
    requires WF(s) && f < |s.files| && lo <= MaxFile(s.g)
    ensures Writing(s, s, f, lo, lo, {})
  {
    hide Filling, Used, WF;
    FillingSame(s, s);
    LogOfNone(s);
    assert Blocks(s, {}) == {};
  }

  /** One block further: bmap() led from `s1` to `s2`, the copy from there to `s3`. */
  lemma WritingStep(s0: FS, s1: FS, s2: FS, s3: FS, f: nat, lo: nat, hi: nat, more: set<nat>, path: set<nat>)
    requires Writing(s0, s1, f, lo, hi, more) && hi < MaxFile(s0.g) && s1.g == s0.g
    requires Filling(s1, s2, MissingOn(s1, DataPlace(s0.g, f, hi))) && Filling(s2, s3, {})
    requires Where(s2, f, hi) != 0 && path == LogPath(s1, s2, DataPlace(s0.g, f, hi))
    ensures Writing(s0, s3, f, lo, hi + 1, more + path + {Where(s2, f, hi)})
  {
    hide Filling, DataPlace, MaxFile, Ref, Legal, LogPath, WriteLog, RangeMapped, MissingIn, MissingOn;
    MissingNext(s0, s1, s2, s3, f, lo, hi);
    RangeNext(s0, s1, s2, s3, f, lo, hi);
    WriteLogNext(s0, s1, s2, s3, f, lo, hi);
  }

  lemma WritingDone(s0: FS, s: FS, f: nat, lo: nat, hi: nat, more: set<nat>, z: nat)
    requires Writing(s0, s, f, lo, hi, more)
    ensures f < |s.files| && Writing(s0, WithSize(s, f, z), f, lo, hi, more)
  {
    hide Filling, MaxFile, DataPlace, Ref, Legal, MissingIn, WithSize, LogOf;
    var m := MissingIn(s0, f, lo, hi);
    FillingParts(s0, s, m);
    var s' := WithSize(s, f, z);
    SizeFilling(s, f, z);
    FillingTrans(s0, s, s', m, {});
    assert m + {} == m;
    FillingParts(s, s', {});
    RangePlaces(s, f, lo, hi);
    BlocksStay(s, s', {}, DataPlaces(s.g, f, lo, hi));
    FilledPlaces(s0, s, m);
    LogOfStays(s, s', {}, m);
    forall k: nat | lo <= k < hi ensures Where(s', f, k) != 0 {
      assert Where(s, f, k) != 0;
      DataPlaceLegal(s, f, k);
      FilledStays(s, s', {}, DataPlace(s.g, f, k));
    }
  }

  // ---- when balloc() finds no block --------------------------------------------------------------------------

  lemma {:induction false} MissingMore(s: FS, f: nat, lo: nat, hi: nat, last: nat)
    requires hi <= last
    ensures MissingIn(s, f, lo, hi) <= MissingIn(s, f, lo, last)
    decreases last
  {
    hide MissingOn, DataPlace;
    if hi < last { MissingMore(s, f, lo, hi, last - 1); }
  }

  /** bmap() for block `hi` ran out of blocks: there were fewer than the whole write needs. */
  lemma RanOut(s0: FS, s1: FS, s2: FS, f: nat, lo: nat, hi: nat, last: nat, more: set<nat>)
    requires WF(s0) && Writing(s0, s1, f, lo, hi, more) && hi < last && hi < MaxFile(s0.g) && s1.g == s0.g
    requires WF(s2) && Partly(s1, s2, MissingOn(s1, DataPlace(s0.g, f, hi))) && FreeBlocks(s2) == {}
    ensures |FreeBlocks(s0)| < |MissingIn(s0, f, lo, last)|
  {
    hide Filling, Partly, DataPlace, MaxFile, Ref, Legal, LogPath, WriteLog, RangeMapped, MissingOn, FreeBlocks, WF;
    var d, p := MissingIn(s0, f, lo, hi), DataPlace(s0.g, f, hi);
    DataPlaceLegal(s0, f, hi);
    MissingAfter(s0, s1, d, p);
    assert d + MissingOn(s1, p) == d + MissingOn(s0, p) == MissingIn(s0, f, lo, hi + 1);
    PartlyTrans(s0, s1, s2, d, MissingOn(s1, p));
    MissingMore(s0, f, lo, hi + 1, last);
    PartlyMore(s0, s2, d + MissingOn(s1, p), MissingIn(s0, f, lo, last));
    PartlyCount(s0, s2, MissingIn(s0, f, lo, last));
  }

  // ---- writes in a row ---------------------------------------------------------------------------------------

  lemma {:induction false} MissingLater(s0: FS, s1: FS, f: nat, d: set<Place>, lo: nat, hi: nat)
    requires Filling(s0, s1, d) && f < |s0.files| && hi <= MaxFile(s0.g) && s1.g == s0.g
    ensures MissingIn(s1, f, lo, hi) == MissingIn(s0, f, lo, hi) - d
    decreases hi
  {
    hide Filling, MissingOn, Ref, Legal, DataPlace, MaxFile;
    if hi > lo {
      MissingLater(s0, s1, f, d, lo, hi - 1);
      DataPlaceLegal(s0, f, hi - 1);
      MissingAfter(s0, s1, d, DataPlace(s0.g, f, hi - 1));
    }
  }

  lemma {:induction false} MissingJoin(s: FS, f: nat, lo: nat, mid: nat, hi: nat, last: nat)
    requires lo <= mid <= hi <= last
    ensures MissingIn(s, f, lo, last) == MissingIn(s, f, lo, hi) + MissingIn(s, f, mid, last)
    decreases last
  {
    hide MissingOn, DataPlace;
    if hi < last {
      MissingJoin(s, f, lo, mid, hi, last - 1);
    } else {
      MissingSuffix(s, f, lo, mid, hi);
    }
  }

  lemma {:induction false} MissingSuffix(s: FS, f: nat, lo: nat, mid: nat, hi: nat)
    requires lo <= mid
    ensures MissingIn(s, f, mid, hi) <= MissingIn(s, f, lo, hi)
    decreases hi
  {
    hide MissingOn, DataPlace;
    if mid < hi { MissingSuffix(s, f, lo, mid, hi - 1); }
  }

  /** After blocks `lo` to `hi` a second write of blocks `mid` to `last` fills what is left. */
  lemma WritesInARow(s0: FS, s1: FS, f: nat, lo: nat, mid: nat, hi: nat, last: nat)
    requires Filling(s0, s1, MissingIn(s0, f, lo, hi)) && f < |s0.files| && lo <= mid <= hi <= last <= MaxFile(s0.g)
    ensures s1.g == s0.g
    ensures MissingIn(s0, f, lo, last) == MissingIn(s0, f, lo, hi) + MissingIn(s1, f, mid, last)
    ensures MissingIn(s0, f, lo, hi) !! MissingIn(s1, f, mid, last)
  {
    hide Filling, MissingIn, MaxFile;
    FillingParts(s0, s1, MissingIn(s0, f, lo, hi));
    MissingLater(s0, s1, f, MissingIn(s0, f, lo, hi), mid, last);
    MissingJoin(s0, f, lo, mid, hi, last);
  }

  lemma BothFilled(s0: FS, s1: FS, s2: FS, f: nat, lo: nat, mid: nat, hi: nat, last: nat)
    requires Filling(s0, s1, MissingIn(s0, f, lo, hi)) && f < |s0.files| && lo <= mid <= hi <= last <= MaxFile(s0.g)
    requires Filling(s1, s2, MissingIn(s1, f, mid, last))
    ensures Filling(s0, s2, MissingIn(s0, f, lo, last))
  {
    hide Filling, MissingIn, MaxFile;
    WritesInARow(s0, s1, f, lo, mid, hi, last);
    FillingTrans(s0, s1, s2, MissingIn(s0, f, lo, hi), MissingIn(s1, f, mid, last));
  }

  lemma SecondRanOut(s0: FS, s1: FS, f: nat, lo: nat, mid: nat, hi: nat, last: nat)
    requires WF(s0) && Filling(s0, s1, MissingIn(s0, f, lo, hi)) && f < |s0.files| && lo <= mid <= hi <= last <= MaxFile(s0.g)
    requires WF(s1) && |FreeBlocks(s1)| < |MissingIn(s1, f, mid, last)|
    ensures |FreeBlocks(s0)| < |MissingIn(s0, f, lo, last)|
  {
    hide Filling, MissingIn, MaxFile, FreeBlocks, WF, Blocks;
    var d, e := MissingIn(s0, f, lo, hi), MissingIn(s1, f, mid, last);
    WritesInARow(s0, s1, f, lo, mid, hi, last);
    FillingParts(s0, s1, d);
    assert |d + e| == |d| + |e|;
    assert |FreeBlocks(s1)| == |FreeBlocks(s0)| - |Blocks(s1, d)|;
  }
}
