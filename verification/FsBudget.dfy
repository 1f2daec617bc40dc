// Which blocks a write passes to log_write(), and how many: the number follows from the block map and
// the bitmap before the write. A chunk of filewrite() stays within the MAXOPBLOCKS that begin_op()
// reserves as long as there are no double-indirect blocks.

module FsBudget {
  import opened Common
  import opened FsBlock
  import opened FsOwner
  import opened FsFile
  import opened FsFill

  /** What storing a new block number at `p` logs: the new block, its bitmap block and the block that
      holds the number. `s` and `s'` are the states before and after. */
  function LogAt(s: FS, s': FS, p: Place): set<nat> {
    if Ref(s, p) != 0 then {}
    else {Ref(s', p), BBlock(s.g, Ref(s', p))} + if p.Sub? then {Ref(s', p.up)} else {}
  }

  /** What bmap() logs on its way to `p`. */
  function LogPath(s: FS, s': FS, p: Place): set<nat> {
    LogAt(s, s', p) + if p.Sub? then LogPath(s, s', p.up) else {}
  }

  /** Every block number on the way to `p` is set. */
  predicate Reached(s: FS, p: Place) { Ref(s, p) != 0 && (p.Sub? ==> Reached(s, p.up)) }

  lemma {:induction false} NonzeroReached(s: FS, p: Place)
    requires Ref(s, p) != 0
    ensures Reached(s, p)
  {
    if p.Sub? { NonzeroReached(s, p.up); }
  }

  // ---- a whole write ---------------------------------------------------------------------------------------

  function DataPlaces(g: Geometry, f: nat, lo: nat, hi: nat): set<Place>
    decreases hi
  {
    if hi <= lo then {} else DataPlaces(g, f, lo, hi - 1) + {DataPlace(g, f, hi - 1)}
  }

  /** The places on the ways to blocks `lo` to `hi` of a file that name no block yet. */
  function MissingIn(s: FS, f: nat, lo: nat, hi: nat): set<Place>
    decreases hi
  {
    if hi <= lo then {} else MissingIn(s, f, lo, hi - 1) + MissingOn(s, DataPlace(s.g, f, hi - 1))
  }

  /** The places of the blocks that hold the numbers stored at `d`. */
  function Ups(d: set<Place>): set<Place> { set v | v in d && v.Sub? :: v.up }

  function BitmapBlocks(g: Geometry, blocks: set<nat>): set<nat> { set b | b in blocks :: BBlock(g, b) }

  /** What filling the places of `d` logs: the new blocks, the blocks that get their numbers, and
      bitmap blocks. */
  function LogOf(s': FS, d: set<Place>): set<nat> {
    Blocks(s', d) + Blocks(s', Ups(d)) + BitmapBlocks(s'.g, Blocks(s', d))
  }

  /** What writei() logs for blocks `lo` to `hi` of a file, apart from the inode. */
  function WriteLog(s: FS, s': FS, f: nat, lo: nat, hi: nat): set<nat> {
    Blocks(s', DataPlaces(s.g, f, lo, hi)) + LogOf(s', MissingIn(s, f, lo, hi))
  }

  lemma BlocksUnion(s: FS, a: set<Place>, b: set<Place>)
    ensures Blocks(s, a + b) == Blocks(s, a) + Blocks(s, b)
  {
    hide Ref;
  }

  lemma LogOfUnion(s: FS, a: set<Place>, b: set<Place>)
    ensures LogOf(s, a + b) == LogOf(s, a) + LogOf(s, b)
  {
    hide Ref, BBlock, Blocks, Ups, BitmapBlocks;
    BlocksUnion(s, a, b);
    UpsUnion(a, b);
    BlocksUnion(s, Ups(a), Ups(b));
    BitmapUnion(s.g, Blocks(s, a), Blocks(s, b));
  }

  lemma UpsUnion(a: set<Place>, b: set<Place>)
    ensures Ups(a + b) == Ups(a) + Ups(b)
  {
  }

  lemma BitmapUnion(g: Geometry, a: set<nat>, b: set<nat>)
    ensures BitmapBlocks(g, a + b) == BitmapBlocks(g, a) + BitmapBlocks(g, b)
  {
    hide BBlock;
  }

  lemma LogOfNone(s: FS)
    ensures LogOf(s, {}) == {}
  {
    assert Blocks(s, {}) == {} && Ups({}) == {} && BitmapBlocks(s.g, {}) == {};
  }

  lemma LogAtIs(s: FS, s': FS, p: Place)
    requires s'.g == s.g
    ensures LogAt(s, s', p) == LogOf(s', Need(s, p))
  {
    hide Ref, BBlock;
    if Ref(s, p) == 0 {
      assert Blocks(s', {p}) == {Ref(s', p)};
      assert Ups({p}) == if p.Sub? then {p.up} else {};
      assert BitmapBlocks(s'.g, {Ref(s', p)}) == {BBlock(s'.g, Ref(s', p))};
    } else {
      LogOfNone(s');
    }
  }

  /** bmap() logs what filling the missing places on its way logs. */
  lemma {:induction false} LogPathIs(s: FS, s': FS, p: Place)
    requires s'.g == s.g
    ensures LogPath(s, s', p) == LogOf(s', MissingOn(s, p))
  {
    hide Ref, BBlock, LogOf, LogAt, MissingOn;
    LogAtIs(s, s', p);
    if p.Sub? {
      LogPathIs(s, s', p.up);
      MissingStep(s, p);
      LogOfUnion(s', MissingOn(s, p.up), Need(s, p));
    } else {
      NeedSlot(s, p);
    }
  }

  /** Blocks that were there are still named by the same places. */
  lemma BlocksStay(s: FS, s': FS, e: set<Place>, d: set<Place>)
    requires Filling(s, s', e) && forall v | v in d :: Legal(s, v) && Ref(s, v) != 0
    ensures Blocks(s', d) == Blocks(s, d)
  {
    hide Filling, Legal, Ref;
    forall v | v in d ensures Ref(s', v) == Ref(s, v) { FilledStays(s, s', e, v); }
  }

  lemma LogOfStays(s: FS, s': FS, e: set<Place>, d: set<Place>)
    requires Filling(s, s', e) && forall v | v in d :: Legal(s, v) && Ref(s, v) != 0
    ensures LogOf(s', d) == LogOf(s, d)
  {
    hide Filling, Legal, Ref, Blocks, BitmapBlocks;
    FillingParts(s, s', e);
    BlocksStay(s, s', e, d);
    forall u | u in Ups(d) ensures Legal(s, u) && Ref(s, u) != 0 {
      var v :| v in d && v.Sub? && v.up == u;
      UpThere(s, v);
    }
    BlocksStay(s, s', e, Ups(d));
  }

  lemma UpThere(s: FS, v: Place)
    requires v.Sub? && Legal(s, v) && Ref(s, v) != 0
    ensures Legal(s, v.up) && Ref(s, v.up) != 0
  {
  }

  lemma {:induction false} DataPlacesAt(g: Geometry, f: nat, lo: nat, hi: nat, v: Place)
    ensures v in DataPlaces(g, f, lo, hi) <==> exists k: nat :: lo <= k < hi && v == DataPlace(g, f, k)
    decreases hi
  {
    hide DataPlace;
    if hi > lo { DataPlacesAt(g, f, lo, hi - 1, v); }
  }

  /** All blocks of the range are mapped. */
  ghost predicate RangeMapped(s: FS, f: nat, lo: nat, hi: nat) { forall k: nat | lo <= k < hi :: Where(s, f, k) != 0 }

  lemma RangePlaces(s: FS, f: nat, lo: nat, hi: nat)
    requires f < |s.files| && hi <= MaxFile(s.g) && RangeMapped(s, f, lo, hi)
    ensures forall v | v in DataPlaces(s.g, f, lo, hi) :: Legal(s, v) && Ref(s, v) != 0
  {
    hide Legal, Ref, DataPlace, MaxFile;
    forall v | v in DataPlaces(s.g, f, lo, hi) ensures Legal(s, v) && Ref(s, v) != 0 {
      DataPlacesAt(s.g, f, lo, hi, v);
      var k: nat :| lo <= k < hi && v == DataPlace(s.g, f, k);
      DataPlaceLegal(s, f, k);
      assert Where(s, f, k) != 0;
    }
  }

  lemma FilledPlaces(s: FS, s': FS, d: set<Place>)
    requires Filling(s, s', d)
    ensures forall v | v in d :: Legal(s, v) && Legal(s', v) && Ref(s, v) == 0 && Ref(s', v) != 0
  {
    hide Ref, Legal, FreeBlocks, WF;
    forall v | v in d ensures Legal(s', v) && Ref(s, v) == 0 && Ref(s', v) != 0 {
      assert FillAt(s, s', d, v);
      FsUpdate.SameLegal(s, s', v);
    }
  }

  /** One block further: bmap() led from `s1` to `s2`, the copy of the data from there to `s3`. */
  lemma MissingNext(s0: FS, s1: FS, s2: FS, s3: FS, f: nat, lo: nat, hi: nat)
    requires Filling(s0, s1, MissingIn(s0, f, lo, hi)) && f < |s0.files| && lo <= hi < MaxFile(s0.g)
    requires Filling(s1, s2, MissingOn(s1, DataPlace(s0.g, f, hi))) && Filling(s2, s3, {})
    ensures Filling(s0, s3, MissingIn(s0, f, lo, hi + 1))
    ensures MissingIn(s0, f, lo, hi + 1) == MissingIn(s0, f, lo, hi) + MissingOn(s1, DataPlace(s0.g, f, hi))
  {
    hide Filling, MissingOn, Ref, Legal, DataPlace, MaxFile;
    var d, p := MissingIn(s0, f, lo, hi), DataPlace(s0.g, f, hi);
    DataPlaceLegal(s0, f, hi);
    MissingAfter(s0, s1, d, p);
    assert d + MissingOn(s0, p) == d + (MissingOn(s0, p) - d);
    FillingTrans(s0, s1, s2, d, MissingOn(s1, p));
    FillingTrans(s0, s2, s3, d + MissingOn(s1, p), {});
    assert d + MissingOn(s1, p) + {} == d + MissingOn(s1, p);
  }

  lemma RangeNext(s0: FS, s1: FS, s2: FS, s3: FS, f: nat, lo: nat, hi: nat)
    requires Filling(s0, s1, MissingIn(s0, f, lo, hi)) && f < |s0.files| && lo <= hi < MaxFile(s0.g)
    requires Filling(s1, s2, MissingOn(s1, DataPlace(s0.g, f, hi))) && Filling(s2, s3, {})
    requires RangeMapped(s1, f, lo, hi) && Where(s2, f, hi) != 0
    ensures RangeMapped(s3, f, lo, hi + 1) && Where(s3, f, hi) == Where(s2, f, hi)
  {
    hide Filling, MissingOn, Ref, Legal, DataPlace, MaxFile;
    FillingParts(s0, s1, MissingIn(s0, f, lo, hi));
    FillingParts(s1, s2, MissingOn(s1, DataPlace(s0.g, f, hi)));
    FillingParts(s2, s3, {});
    forall k: nat | lo <= k <= hi ensures Where(s3, f, k) != 0 && (k == hi ==> Where(s3, f, k) == Where(s2, f, k)) {
      DataPlaceLegal(s0, f, k);
      DataPlaceLegal(s1, f, k);
      DataPlaceLegal(s2, f, k);
      FilledStays(s1, s2, MissingOn(s1, DataPlace(s0.g, f, hi)), DataPlace(s0.g, f, k));
      FilledStays(s2, s3, {}, DataPlace(s0.g, f, k));
      if k < hi { assert Where(s1, f, k) != 0; }
    }
  }

  /** The next block logs what bmap() logs on its way there, and the block itself. */
  lemma WriteLogNext(s0: FS, s1: FS, s2: FS, s3: FS, f: nat, lo: nat, hi: nat)
    requires Filling(s0, s1, MissingIn(s0, f, lo, hi)) && f < |s0.files| && lo <= hi < MaxFile(s0.g)
    requires Filling(s1, s2, MissingOn(s1, DataPlace(s0.g, f, hi))) && Filling(s2, s3, {})
    requires RangeMapped(s1, f, lo, hi) && Where(s2, f, hi) != 0
    ensures WriteLog(s0, s3, f, lo, hi + 1) ==
            WriteLog(s0, s1, f, lo, hi) + LogPath(s1, s2, DataPlace(s0.g, f, hi)) + {Where(s2, f, hi)}
  {
    hide Filling, MissingOn, Ref, Legal, DataPlace, MaxFile, LogOf, LogPath, Blocks;
    var d, p := MissingIn(s0, f, lo, hi), DataPlace(s0.g, f, hi);
    var e, dp := MissingOn(s1, p), DataPlaces(s0.g, f, lo, hi);
    FillingParts(s0, s1, d);
    FillingParts(s1, s2, e);
    FillingParts(s2, s3, {});
    MissingNext(s0, s1, s2, s3, f, lo, hi);
    RangeNext(s0, s1, s2, s3, f, lo, hi);
    FillingTrans(s1, s2, s3, e, {});
    assert e + {} == e;
    RangePlaces(s1, f, lo, hi);
    BlocksStay(s1, s3, e, dp);
    FilledPlaces(s0, s1, d);
    LogOfStays(s1, s3, e, d);
    FilledPlaces(s1, s2, e);
    LogOfStays(s2, s3, {}, e);
    LogPathIs(s1, s2, p);
    LogOfUnion(s3, d, e);
    OneBlock(s3, p);
    BlocksUnion(s3, dp, {p});
  }

  lemma OneBlock(s: FS, p: Place)
    ensures Blocks(s, {p}) == {Ref(s, p)}
  {
  }

  // ---- counting --------------------------------------------------------------------------------------------

  /** The places of the data blocks of a write, of the blocks it adds, and of those that get a new
      entry. */
  function Touched(s: FS, f: nat, lo: nat, hi: nat): set<Place> {
    DataPlaces(s.g, f, lo, hi) + MissingIn(s, f, lo, hi) + Ups(MissingIn(s, f, lo, hi))
  }

  /** How many blocks a write of blocks `lo` to `hi` logs, by the state before it: a block for every
      touched place, the bitmap blocks of the lowest free blocks, and the inode's block. */
  ghost function LogCount(s: FS, f: nat, lo: nat, hi: nat): nat
    requires WF(s)
  {
    CountWith(s, f, lo, hi, FreeBlocks(s))
  }

  ghost function CountWith(s: FS, f: nat, lo: nat, hi: nat, free: set<nat>): nat {
    |Touched(s, f, lo, hi)| + |BitmapBlocks(s.g, FirstOf(free, |MissingIn(s, f, lo, hi)|))| + 1
  }

  /** A block for every touched place, a bitmap block for every missing one, and the inode's block. */
  function MostLogged(s: FS, f: nat, lo: nat, hi: nat): nat { |Touched(s, f, lo, hi)| + |MissingIn(s, f, lo, hi)| + 1 }

  lemma {:induction false} BlocksSize(s: FS, o: Owners, d: set<Place>)
    requires Owned(s, o, {}) && forall v | v in d :: Legal(s, v) && Ref(s, v) != 0
    ensures |Blocks(s, d)| == |d|
    ensures forall b | b in Blocks(s, d) :: s.g.nmeta <= b < s.g.size
    decreases |d|
  {
    hide Ref, Legal, BitmapRight;
    if d != {} {
      var p :| p in d;
      var e := d - {p};
      BlocksSize(s, o, e);
      RefRange(s, o, {}, p);
      forall v | v in e ensures Ref(s, v) != Ref(s, p) { RefRange(s, o, {}, v); }
      assert d == e + {p};
      BlocksUnion(s, e, {p});
      OneBlock(s, p);
      assert Ref(s, p) !in Blocks(s, e);
    } else {
      assert Blocks(s, d) == {};
    }
  }

  lemma TouchedThere(s: FS, s': FS, f: nat, lo: nat, hi: nat)
    requires Filling(s, s', MissingIn(s, f, lo, hi)) && f < |s.files| && hi <= MaxFile(s.g) && RangeMapped(s', f, lo, hi)
    ensures forall v | v in Touched(s, f, lo, hi) :: Legal(s', v) && Ref(s', v) != 0
  {
    hide Filling, Ref, Legal, MissingIn, DataPlaces, MaxFile, RangeMapped;
    FillingParts(s, s', MissingIn(s, f, lo, hi));
    FilledPlaces(s, s', MissingIn(s, f, lo, hi));
    RangePlaces(s', f, lo, hi);
    forall u | u in Ups(MissingIn(s, f, lo, hi)) ensures Legal(s', u) && Ref(s', u) != 0 {
      var v :| v in MissingIn(s, f, lo, hi) && v.Sub? && v.up == u;
      UpThere(s', v);
    }
  }

  /** The blocks that a write logs, counted: the inode's block lies before the bitmap, as mkfs lays
      the disk out. */
  lemma LogCounted(s: FS, s': FS, o: Owners, f: nat, lo: nat, hi: nat, inodeBlock: nat)
    requires Filling(s, s', MissingIn(s, f, lo, hi)) && f < |s.files| && hi <= MaxFile(s.g) && RangeMapped(s', f, lo, hi)
    requires WF(s) && Owned(s', o, {}) && inodeBlock < s.g.bmapstart
    ensures |WriteLog(s, s', f, lo, hi) + {inodeBlock}| == LogCount(s, f, lo, hi)
  {
    hide Filling, Referred, Owning, BitmapRight, Ref, Legal, MissingIn, DataPlaces, MaxFile, RangeMapped, Blocks, FirstOf, Ups,
         BitmapBlocks, FreeBlocks;
    var m, t := MissingIn(s, f, lo, hi), Touched(s, f, lo, hi);
    FillingParts(s, s', m);
    FillingCount(s, s', m);
    TouchedThere(s, s', f, lo, hi);
    BlocksSize(s', o, t);
    BlocksUnion(s', DataPlaces(s.g, f, lo, hi), m);
    BlocksUnion(s', DataPlaces(s.g, f, lo, hi) + m, Ups(m));
    var blocks, maps := Blocks(s', t), BitmapBlocks(s.g, Blocks(s', m));
    MapsApart(s', blocks, Blocks(s', m), inodeBlock);
    assert WriteLog(s, s', f, lo, hi) == blocks + maps;
    DisjointSize(blocks, maps, inodeBlock);
  }

  /** Bitmap blocks are metadata behind the inodes. */
  lemma MapsApart(s: FS, blocks: set<nat>, added: set<nat>, inodeBlock: nat)
    requires WF(s) && inodeBlock < s.g.bmapstart && added <= blocks
    requires forall b | b in blocks :: s.g.nmeta <= b < s.g.size
    ensures blocks !! BitmapBlocks(s.g, added) && inodeBlock !in blocks && inodeBlock !in BitmapBlocks(s.g, added)
  {
    assert BBlock(s.g, 0) < s.g.nmeta;
    forall b | b in added ensures s.g.bmapstart <= BBlock(s.g, b) < s.g.nmeta {}
  }

  lemma DisjointSize(a: set<nat>, b: set<nat>, c: nat)
    requires a !! b && c !in a && c !in b
    ensures |a + b + {c}| == |a| + |b| + 1
  {
    assert |a + b| == |a| + |b|;
  }

  /** A bitmap block for every new block is the worst case. */
  lemma {:induction false} BitmapSize(g: Geometry, blocks: set<nat>)
    ensures |BitmapBlocks(g, blocks)| <= |blocks|
    decreases |blocks|
  {
    hide BBlock;
    if blocks != {} {
      var b :| b in blocks;
      BitmapSize(g, blocks - {b});
      assert blocks == blocks - {b} + {b};
      BitmapUnion(g, blocks - {b}, {b});
      assert BitmapBlocks(g, {b}) == {BBlock(g, b)};
    }
  }

  lemma {:induction false} BlocksAtMost(s: FS, d: set<Place>)
    ensures |Blocks(s, d)| <= |d|
    decreases |d|
  {
    hide Ref;
    if d != {} {
      var p :| p in d;
      BlocksAtMost(s, d - {p});
      assert d == d - {p} + {p};
      BlocksUnion(s, d - {p}, {p});
      OneBlock(s, p);
    } else {
      assert Blocks(s, d) == {};
    }
  }

  /** Wherever the inode's block lies, a write logs no more. */
  lemma LoggedAtMost(s: FS, s': FS, f: nat, lo: nat, hi: nat, inodeBlock: nat)
    requires s'.g == s.g
    ensures |WriteLog(s, s', f, lo, hi) + {inodeBlock}| <= MostLogged(s, f, lo, hi)
  {
    hide Ref, MissingIn, DataPlaces, Blocks, Ups, BitmapBlocks;
    var m, d, t := MissingIn(s, f, lo, hi), DataPlaces(s.g, f, lo, hi), Touched(s, f, lo, hi);
    BlocksUnion(s', d, m);
    BlocksUnion(s', d + m, Ups(m));
    var blocks, maps := Blocks(s', t), BitmapBlocks(s.g, Blocks(s', m));
    BlocksAtMost(s', t);
    BlocksAtMost(s', m);
    BitmapSize(s.g, Blocks(s', m));
    assert WriteLog(s, s', f, lo, hi) + {inodeBlock} == blocks + maps + {inodeBlock};
    UnionSize(blocks, maps, inodeBlock);
  }

  lemma UnionSize(a: set<nat>, b: set<nat>, c: nat)
    ensures |a + b + {c}| <= |a| + |b| + 1
  {
    assert |a + b| <= |a| + |b|;
  }

  /** A write stays within MAXOPBLOCKS wherever its new blocks lie exactly when the worst case does. */
  lemma TenWhereverBitsLie(s: FS, f: nat, lo: nat, hi: nat)
    ensures (forall free: set<nat> | |free| >= |MissingIn(s, f, lo, hi)| :: CountWith(s, f, lo, hi, free) <= MAXOPBLOCKS)
            <==> MostLogged(s, f, lo, hi) <= MAXOPBLOCKS
  {
    hide Touched, MissingIn, FirstOf, BitmapBlocks;
    var m := |MissingIn(s, f, lo, hi)|;
    var spread := Spread(m);
    SpreadSize(s.g, m);
    FirstIs(spread, spread);
    assert CountWith(s, f, lo, hi, spread) == MostLogged(s, f, lo, hi);
    forall free: set<nat> ensures CountWith(s, f, lo, hi, free) <= MostLogged(s, f, lo, hi) {
      BitmapSize(s.g, FirstOf(free, m));
      FirstSize(free, m);
    }
  }

  /** Block numbers in `n` different bitmap blocks. */
  function Spread(n: nat): set<nat> { if n == 0 then {} else Spread(n - 1) + {Nth(n - 1)} }

  function Nth(n: nat): nat { n * BPB }

  lemma {:induction false} SpreadSize(g: Geometry, n: nat)
    ensures |Spread(n)| == n && |BitmapBlocks(g, Spread(n))| == n
    ensures forall b | b in Spread(n) :: b < Nth(n)
    ensures forall x | x in BitmapBlocks(g, Spread(n)) :: x < n + g.bmapstart
  {
    hide BBlock, BitmapBlocks;
    if n > 0 {
      var b, low := Nth(n - 1), Spread(n - 1);
      SpreadSize(g, n - 1);
      BitmapUnion(g, low, {b});
      assert BitmapBlocks(g, {b}) == {BBlock(g, b)} by { OneBitmap(g, b); }
      NthBitmap(g, n - 1);
      hide Nth;
      OneMore(low, b);
      OneMore(BitmapBlocks(g, low), BBlock(g, b));
      assert Spread(n) == low + {b};
    } else {
      assert Spread(0) == {};
      BitmapNone(g);
    }
  }

  lemma OneMore<T>(s: set<T>, x: T)
    requires x !in s
    ensures |s + {x}| == |s| + 1
  {
  }

  lemma OneBitmap(g: Geometry, b: nat)
    ensures BitmapBlocks(g, {b}) == {BBlock(g, b)}
  {
  }

  lemma BitmapNone(g: Geometry)
    ensures BitmapBlocks(g, {}) == {}
  {
  }

  lemma NthBitmap(g: Geometry, n: nat)
    ensures BBlock(g, Nth(n)) == n + g.bmapstart && Nth(n) < Nth(n + 1)
  {
  }

  // ---- a chunk of filewrite() --------------------------------------------------------------------------------

  /** The index places on the ways to a range of blocks. */
  function IndexIn(g: Geometry, f: nat, lo: nat, hi: nat): set<Place>
    decreases hi
  {
    if hi <= lo then {}
    else IndexIn(g, f, lo, hi - 1) + (Path(DataPlace(g, f, hi - 1)) - {DataPlace(g, f, hi - 1)})
  }

  lemma {:induction false} MissingParts(s: FS, f: nat, lo: nat, first: nat, hi: nat)
    requires lo <= first && RangeMapped(s, f, lo, first)
    ensures MissingIn(s, f, lo, hi) <= DataPlaces(s.g, f, first, hi) + IndexIn(s.g, f, lo, hi)
    ensures forall v | v in MissingIn(s, f, lo, hi) :: Ref(s, v) == 0
    ensures Ups(MissingIn(s, f, lo, hi)) <= IndexIn(s.g, f, lo, hi)
    decreases hi
  {
    hide Ref, DataPlace;
    if hi > lo {
      MissingParts(s, f, lo, first, hi - 1);
      var k := hi - 1;
      var p := DataPlace(s.g, f, k);
      if k < first { assert Where(s, f, k) != 0; }
      UpsUnion(MissingIn(s, f, lo, k), MissingOn(s, p));
      forall u | u in Ups(MissingOn(s, p)) ensures u in Path(p) - {p} {
        var v :| v in MissingOn(s, p) && v.Sub? && v.up == u;
        UpOnPath(p, v);
      }
    }
  }

  lemma {:induction false} UpOnPath(p: Place, v: Place)
    requires v in Path(p) && v.Sub?
    ensures v.up in Path(p) && v.up != p
  {
    PathDepth(p, v);
    if v != p { UpOnPath(p.up, v); } else { assert v.up in Path(v.up); }
  }

  lemma {:induction false} DataPlacesSize(g: Geometry, f: nat, lo: nat, hi: nat)
    ensures |DataPlaces(g, f, lo, hi)| <= if lo <= hi then hi - lo else 0
    decreases hi
  {
    hide DataPlace;
    if hi > lo { DataPlacesSize(g, f, lo, hi - 1); }
  }

  /** The first block index below the double-indirect slot. */
  function Double(g: Geometry): nat { g.nd + NINDIRECT }

  /** The entry below the double-indirect slot that leads to block `k`. */
  function Tab(g: Geometry, k: nat): nat
    requires Double(g) <= k
  {
    (k - Double(g)) / NINDIRECT
  }

  lemma TabSpan(g: Geometry, lo: nat, hi: nat)
    requires Double(g) <= lo < hi <= lo + 4
    ensures forall k: nat | lo <= k < hi :: Tab(g, k) == Tab(g, lo) || Tab(g, k) == Tab(g, hi - 1)
    ensures Tab(g, lo) != Tab(g, hi - 1) ==> lo > Double(g) && Tab(g, lo - 1) == Tab(g, lo)
    ensures Tab(g, Double(g)) == 0
  {
  }

  /** The index places on the way to one block. */
  lemma IndexPath(g: Geometry, f: nat, k: nat)
    ensures var p := DataPlace(g, f, k);
            var t := Slot(f, g.nd + 1);
            Path(p) - {p} == if k < g.nd then {} else if k < Double(g) then {Slot(f, g.nd)} else {t, Sub(t, Tab(g, k))}
  {
    var p := DataPlace(g, f, k);
    if k >= Double(g) {
      assert Path(p) == Path(p.up) + {p} && Path(p.up) == Path(p.up.up) + {p.up};
    } else if k >= g.nd {
      assert Path(p) == Path(p.up) + {p};
    }
  }

  lemma {:induction false} IndexWithin(g: Geometry, f: nat, lo: nat, hi: nat, x: set<Place>)
    requires forall k: nat | lo <= k < hi :: Path(DataPlace(g, f, k)) - {DataPlace(g, f, k)} <= x
    ensures IndexIn(g, f, lo, hi) <= x
    decreases hi
  {
    hide DataPlace;
    if hi > lo { IndexWithin(g, f, lo, hi - 1, x); }
  }

  /** A mapped block has its index blocks. */
  lemma IndexThere(s: FS, f: nat, k: nat)
    requires Where(s, f, k) != 0
    ensures forall v | v in Path(DataPlace(s.g, f, k)) :: Ref(s, v) != 0
  {
    hide Ref, DataPlace;
    NothingMissing(s, DataPlace(s.g, f, k));
    forall v | v in Path(DataPlace(s.g, f, k)) ensures Ref(s, v) != 0 {
      assert v !in MissingOn(s, DataPlace(s.g, f, k));
    }
  }

  /** The index places of at most four blocks whose predecessors are mapped: `x` holds them and `y`
      those of them without a block. */
  lemma ChunkIndex(s: FS, f: nat, lo: nat, hi: nat) returns (x: set<Place>, y: set<Place>)
    requires lo < hi <= lo + 4 && RangeMapped(s, f, 0, lo)
    ensures IndexIn(s.g, f, lo, hi) <= x && forall v | v in x && Ref(s, v) == 0 :: v in y
    ensures |x| + |y| <= 5 && (hi <= Double(s.g) ==> |x| + |y| <= 2)
  {
    hide Ref, DataPlace, Path, Tab, Where;
    var i, t := Slot(f, s.g.nd), Slot(f, s.g.nd + 1);
    forall k: nat | lo <= k < hi ensures IndexOf(s.g, f, k) == Path(DataPlace(s.g, f, k)) - {DataPlace(s.g, f, k)} {
      IndexPath(s.g, f, k);
    }
    if hi <= Double(s.g) {
      x, y := {i}, {i};
    } else if lo < Double(s.g) {
      TabSpan(s.g, Double(s.g), hi);
      assert Where(s, f, s.g.nd) != 0;
      IndexThere(s, f, s.g.nd);
      IndexPath(s.g, f, s.g.nd);
      assert Ref(s, i) != 0;
      x, y := {i, t, Sub(t, 0)}, {t, Sub(t, 0)};
    } else {
      TabSpan(s.g, lo, hi);
      var u, v := Sub(t, Tab(s.g, lo)), Sub(t, Tab(s.g, hi - 1));
      if u == v {
        x, y := {t, u}, {t, u};
      } else {
        assert Where(s, f, lo - 1) != 0;
        IndexThere(s, f, lo - 1);
        IndexPath(s.g, f, lo - 1);
        assert Ref(s, t) != 0 && Ref(s, u) != 0;
        x, y := {t, u, v}, {v};
      }
    }
    IndexWithin(s.g, f, lo, hi, x);
  }

  function IndexOf(g: Geometry, f: nat, k: nat): set<Place> {
    var t := Slot(f, g.nd + 1);
    if k < g.nd then {} else if k < Double(g) then {Slot(f, g.nd)} else {t, Sub(t, Tab(g, k))}
  }

  /** A chunk of at most `3 * BSIZE` bytes touches and misses few places: with a bitmap block for every
      missing one and the inode's block at most MAXOPBLOCKS blocks, 13 with double-indirect ones. */
  lemma ChunkBudget(s: FS, f: nat, off: nat, n: nat)
    requires Fits(s, f, off, n) && 0 < n <= 3 * BSIZE
    ensures var lo, hi := BlockNo(off), BlockNo(off + n - 1) + 1;
            var c := MostLogged(s, f, lo, hi);
            c <= 13 && (hi <= Double(s.g) || !s.g.dbl ==> c <= MAXOPBLOCKS)
  {
    hide Ref, Where, DataPlace, Fits, MaxFile, BlockNo, Offset, DataPlaces, IndexIn, MissingIn, RangeMapped, Ups;
    var lo, hi := BlockNo(off), BlockNo(off + n - 1) + 1;
    var first := if Offset(off) == 0 then lo else lo + 1;
    FitsFile(s, f, off, n);
    ChunkSpan(s.g, off, n);
    MappedBefore(s, f, off, n);
    MissingParts(s, f, lo, first, hi);
    DataPlacesSize(s.g, f, lo, hi);
    DataPlacesSize(s.g, f, first, hi);
    var x, y := ChunkIndex(s, f, lo, hi);
    var m := MissingIn(s, f, lo, hi);
    SumSize(Touched(s, f, lo, hi), DataPlaces(s.g, f, lo, hi), x) by { TouchedParts(s, f, lo, first, hi, x); }
    assert m <= DataPlaces(s.g, f, first, hi) + y;
    SumSize(m, DataPlaces(s.g, f, first, hi), y);
    SingleMax(s.g);
  }

  lemma TouchedParts(s: FS, f: nat, lo: nat, first: nat, hi: nat, x: set<Place>)
    requires lo <= first && RangeMapped(s, f, lo, first) && IndexIn(s.g, f, lo, hi) <= x
    ensures Touched(s, f, lo, hi) <= DataPlaces(s.g, f, lo, hi) + x
  {
    hide Ref, Where, DataPlace, IndexIn, MissingIn, RangeMapped, Ups;
    MissingParts(s, f, lo, first, hi);
    FewerPlaces(s.g, f, lo, first, hi);
  }

  lemma {:induction false} FewerPlaces(g: Geometry, f: nat, lo: nat, first: nat, hi: nat)
    requires lo <= first
    ensures DataPlaces(g, f, first, hi) <= DataPlaces(g, f, lo, hi)
    decreases hi
  {
    hide DataPlace;
    if hi > first { FewerPlaces(g, f, lo, first, hi - 1); }
  }

  lemma SumSize(c: set<Place>, a: set<Place>, b: set<Place>)
    requires c <= a + b
    ensures |c| <= |a| + |b|
  {
    SubsetSize(c, a + b);
  }

  lemma SingleMax(g: Geometry)
    ensures !g.dbl ==> MaxFile(g) == Double(g)
  {
  }

  /** At most four blocks, and when all are new at most three. */
  lemma ChunkSpan(g: Geometry, off: nat, n: nat)
    requires 0 < n <= 3 * BSIZE && off + n <= MaxFile(g) * BSIZE
    ensures var lo, hi := BlockNo(off), BlockNo(off + n - 1) + 1;
            && lo < hi <= MaxFile(g) && hi - lo <= 4 && (Offset(off) == 0 ==> hi - lo <= 3)
            && (Offset(off) != 0 ==> lo * BSIZE < off)
  {
    BlockNoBound(g, off);
    BlockNoBound(g, off + n - 1);
  }

  /** Blocks before the write are mapped, and its first one too unless it begins with the block. */
  lemma MappedBefore(s: FS, f: nat, off: nat, n: nat)
    requires Fits(s, f, off, n)
    ensures RangeMapped(s, f, 0, BlockNo(off))
    ensures RangeMapped(s, f, BlockNo(off), if Offset(off) == 0 then BlockNo(off) else BlockNo(off) + 1)
  {
    hide Where, MaxFile;
    assert Mapped(s, f);
    forall k: nat | k < BlockNo(off) || (k == BlockNo(off) && Offset(off) != 0) ensures Where(s, f, k) != 0 {
      assert k * BSIZE < off;
    }
  }

  // ---- a chunk that logs too much ------------------------------------------------------------------------------

  /** The last mapped block of file `f` is the last but one that needs no double-indirect block. */
  ghost predicate BeforeDouble(s: FS, f: nat) {
    && f < |s.files| && s.g.dbl && Where(s, f, Double(s.g) - 2) != 0 && Where(s, f, Double(s.g) - 1) == 0
    && Ref(s, Slot(f, s.g.nd + 1)) == 0
  }

  /** Four blocks from the last mapped one on: three new data blocks and both levels of index blocks. */
  lemma BeyondSingle(s: FS, f: nat)
    requires BeforeDouble(s, f)
    ensures |Touched(s, f, Double(s.g) - 2, Double(s.g) + 2)| == 7 && |MissingIn(s, f, Double(s.g) - 2, Double(s.g) + 2)| == 5
  {
    hide Ref, DataPlace, DataPlaces, MissingIn, MissingOn, Ups;
    var i, t, d := Slot(f, s.g.nd), Slot(f, s.g.nd + 1), Double(s.g);
    var u := Sub(t, 0);
    EndPlaces(s.g, f);
    EndMissing(s, f);
    FourPlaces(s.g, f, d - 2);
    FourMissing(s, f, d - 2);
    UpsOfMissing(i, t, u);
    CountPlaces(i, t, u, DataPlaces(s.g, f, d - 2, d + 2), MissingIn(s, f, d - 2, d + 2));
  }

  lemma CountPlaces(i: Place, t: Place, u: Place, data: set<Place>, missing: set<Place>)
    requires i.Slot? && t.Slot? && u == Sub(t, 0) && i != t
    requires data == {Sub(i, 254), Sub(i, 255), Sub(u, 0), Sub(u, 1)}
    requires missing == {} + {Sub(i, 255)} + {t, u, Sub(u, 0)} + {t, u, Sub(u, 1)}
    ensures missing == {Sub(i, 255), t, u, Sub(u, 0), Sub(u, 1)} && |missing| == 5
    ensures |data + missing + {i, t, u}| == 7
  {
    var more := {t, u, i};
    assert data !! more && |data| == 4 && |more| == 3;
    assert data + missing + {i, t, u} == data + more;
  }

  lemma UpsOfMissing(i: Place, t: Place, u: Place)
    requires i.Slot? && t.Slot? && u == Sub(t, 0)
    ensures Ups({Sub(i, 255), t, u, Sub(u, 0), Sub(u, 1)}) == {i, t, u}
  {
    var m := {Sub(i, 255), t, u, Sub(u, 0), Sub(u, 1)};
    assert Sub(i, 255) in m && u in m && Sub(u, 0) in m;
  }

  lemma FourPlaces(g: Geometry, f: nat, k: nat)
    ensures DataPlaces(g, f, k, k + 4) ==
            {DataPlace(g, f, k), DataPlace(g, f, k + 1), DataPlace(g, f, k + 2), DataPlace(g, f, k + 3)}
  {
    hide DataPlace;
    assert DataPlaces(g, f, k, k + 1) == {DataPlace(g, f, k)};
    assert DataPlaces(g, f, k, k + 2) == {DataPlace(g, f, k), DataPlace(g, f, k + 1)};
    assert DataPlaces(g, f, k, k + 3) == {DataPlace(g, f, k), DataPlace(g, f, k + 1), DataPlace(g, f, k + 2)};
  }

  lemma FourMissing(s: FS, f: nat, k: nat)
    ensures MissingIn(s, f, k, k + 4) == MissingOn(s, DataPlace(s.g, f, k)) + MissingOn(s, DataPlace(s.g, f, k + 1))
                                         + MissingOn(s, DataPlace(s.g, f, k + 2)) + MissingOn(s, DataPlace(s.g, f, k + 3))
  {
    hide DataPlace, MissingOn;
    assert MissingIn(s, f, k, k + 1) == MissingOn(s, DataPlace(s.g, f, k));
    assert MissingIn(s, f, k, k + 2) == MissingOn(s, DataPlace(s.g, f, k)) + MissingOn(s, DataPlace(s.g, f, k + 1));
    assert MissingIn(s, f, k, k + 3) ==
           MissingOn(s, DataPlace(s.g, f, k)) + MissingOn(s, DataPlace(s.g, f, k + 1)) + MissingOn(s, DataPlace(s.g, f, k + 2));
  }

  /** The places of the blocks around the first double-indirect one. */
  lemma EndPlaces(g: Geometry, f: nat)
    ensures var d, u := Double(g), Sub(Slot(f, g.nd + 1), 0);
            && DataPlace(g, f, d - 2) == Sub(Slot(f, g.nd), 254) && DataPlace(g, f, d - 1) == Sub(Slot(f, g.nd), 255)
            && DataPlace(g, f, d) == Sub(u, 0) && DataPlace(g, f, d + 1) == Sub(u, 1)
  {
  }

  lemma EndMissing(s: FS, f: nat)
    requires BeforeDouble(s, f)
    ensures var i, t := Slot(f, s.g.nd), Slot(f, s.g.nd + 1);
            var u := Sub(t, 0);
            && MissingOn(s, Sub(i, 254)) == {} && MissingOn(s, Sub(i, 255)) == {Sub(i, 255)}
            && MissingOn(s, Sub(u, 0)) == {t, u, Sub(u, 0)} && MissingOn(s, Sub(u, 1)) == {t, u, Sub(u, 1)}
  {
    hide MissingOn, DataPlace, Ref;
    var i, t := Slot(f, s.g.nd), Slot(f, s.g.nd + 1);
    var u := Sub(t, 0);
    EndPlaces(s.g, f);
    NothingMissing(s, Sub(i, 254));
    OneBelow(s, i, 255) by { Above(s, i, 254); }
    NoneBelow(s, t, 0);
    NoneBelow(s, u, 0);
    NoneBelow(s, u, 1);
    NeedSlot(s, t);
    MissingStep(s, u);
    MissingStep(s, Sub(u, 0));
    MissingStep(s, Sub(u, 1));
  }

  lemma OneBelow(s: FS, p: Place, j: nat)
    requires Ref(s, p) != 0 && Ref(s, Sub(p, j)) == 0
    ensures MissingOn(s, Sub(p, j)) == {Sub(p, j)}
  {
    hide MissingOn, Ref;
    NothingMissing(s, p);
    MissingStep(s, Sub(p, j));
  }

  lemma Above(s: FS, p: Place, j: nat)
    requires Ref(s, Sub(p, j)) != 0
    ensures Ref(s, p) != 0
  {
  }

  lemma NoneBelow(s: FS, p: Place, j: nat)
    requires Ref(s, p) == 0
    ensures Ref(s, Sub(p, j)) == 0
  {
  }
}
