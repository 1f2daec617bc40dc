// The block maps of files and who owns a block: every data or index block is reached from exactly
// one place, and the bitmap marks exactly these blocks and the metadata.

module FsOwner {
  import opened BitVector
  import opened FsBlock

  /** The superblock's numbers; `nd` direct slots, and a double-indirect one when `dbl`. */
  datatype Geometry = Geometry(size: nat, nmeta: nat, bmapstart: nat, inodestart: nat, nd: nat, dbl: bool)

  datatype Inode = Inode(size: nat, addrs: seq<nat>)

  datatype FS = FS(g: Geometry, blk: seq<Block>, files: seq<Inode>)

  /** Where a block number is stored: in slot `i` of a file, or in word `j` of the block named by `up`. */
  datatype Place = Slot(f: nat, i: nat) | Sub(up: Place, j: nat)

  function Slots(g: Geometry): nat { if g.dbl then g.nd + 2 else g.nd + 1 }

  ghost predicate WF(s: FS) {
    && 0 < s.g.nmeta <= s.g.size == |s.blk| && s.g.size < 0x1_0000_0000
    && (forall b | 0 <= b < s.g.size :: BBlock(s.g, b) < s.g.nmeta)
    && (forall f | 0 <= f < |s.files| :: |s.files[f].addrs| == Slots(s.g))
  }

  /** BBLOCK */
  function BBlock(g: Geometry, b: nat): nat { b / BPB + g.bmapstart }

  predicate Used(s: FS, b: nat)
    requires BBlock(s.g, b) < |s.blk|
  {
    BitIsSet(s.blk[BBlock(s.g, b)], b % BPB)
  }

  predicate IsIndex(g: Geometry, p: Place) {
    if p.Slot? then p.i >= g.nd else p.up.Slot? && p.up.i == g.nd + 1
  }

  predicate Legal(s: FS, p: Place) {
    if p.Slot? then p.f < |s.files| && p.i < Slots(s.g)
    else Legal(s, p.up) && IsIndex(s.g, p.up) && p.j < NINDIRECT
  }

  function FileOf(p: Place): nat { if p.Slot? then p.f else FileOf(p.up) }

  /** The block number stored at a place; 0 when there is none. */
  function Ref(s: FS, p: Place): nat {
    if p.Slot? then
      if p.f < |s.files| && p.i < |s.files[p.f].addrs| then s.files[p.f].addrs[p.i] else 0
    else
      var r := Ref(s, p.up);
      if r == 0 || r >= |s.blk| || p.j >= NINDIRECT then 0 else Word(s.blk[r], p.j)
  }

  type Owners = map<nat, Place>

  ghost predicate OwnsAt(s: FS, o: Owners, p: Place) {
    Ref(s, p) != 0 ==> Ref(s, p) in o && o[Ref(s, p)] == p
  }

  /** Every block number stored outside `gone` is of a block that belongs to that place. */
  ghost predicate Referred(s: FS, o: Owners, gone: set<Place>) {
    forall p {:trigger OwnsAt(s, o, p)} | Legal(s, p) && p !in gone :: OwnsAt(s, o, p)
  }

  ghost predicate Owner(s: FS, o: Owners, b: nat) {
    b in o ==> s.g.nmeta <= b < s.g.size && Legal(s, o[b]) && Ref(s, o[b]) == b
  }

  ghost predicate Owning(s: FS, o: Owners, gone: set<Place>) {
    forall b {:trigger Owner(s, o, b)} | b in o :: Owner(s, o, b) && o[b] !in gone
  }

  ghost predicate BitRight(s: FS, o: Owners, b: nat)
    requires BBlock(s.g, b) < |s.blk|
  {
    Used(s, b) <==> b < s.g.nmeta || b in o
  }

  ghost predicate BitmapRight(s: FS, o: Owners)
    requires WF(s)
  {
    forall b {:trigger BitRight(s, o, b)} | 0 <= b < s.g.size :: BitRight(s, o, b)
  }

  /** The ownership invariant; `gone` are places whose block was freed but that were not cleared yet. */
  ghost predicate Owned(s: FS, o: Owners, gone: set<Place>) {
    WF(s) && Referred(s, o, gone) && Owning(s, o, gone) && BitmapRight(s, o)
  }

  /** What the invariant says without naming owners: a bit is set exactly for metadata and for blocks
      that some place refers to, and no two places refer to one block. */
  lemma OwnedMeans(s: FS, o: Owners)
    requires Owned(s, o, {})
    ensures forall b | 0 <= b < s.g.size :: Used(s, b) <==> b < s.g.nmeta || exists p :: Names(s, p, b)
    ensures forall b: nat, p, q | Names(s, p, b) && Names(s, q, b) :: p == q
    ensures forall b: nat, p | Names(s, p, b) :: s.g.nmeta <= b < s.g.size
  {
    forall b: nat, p | Names(s, p, b) ensures b in o && o[b] == p && s.g.nmeta <= b < s.g.size {
      RefRange(s, o, {}, p);
    }
    forall b | 0 <= b < s.g.size ensures Used(s, b) <==> b < s.g.nmeta || exists p :: Names(s, p, b) {
      assert BitRight(s, o, b);
      if b in o && Owner(s, o, b) { assert Names(s, o[b], b); }
    }
  }

  /** Place `p` refers to block `b`. */
  ghost predicate Names(s: FS, p: Place, b: nat) { Legal(s, p) && Ref(s, p) == b && b != 0 }

  lemma RefRange(s: FS, o: Owners, gone: set<Place>, p: Place)
    requires Referred(s, o, gone) && Owning(s, o, gone) && Legal(s, p) && p !in gone && Ref(s, p) != 0
    ensures s.g.nmeta <= Ref(s, p) < s.g.size && Ref(s, p) in o && o[Ref(s, p)] == p
  {
    assert OwnsAt(s, o, p);
    assert Owner(s, o, Ref(s, p));
  }

  // ---- changes that leave all block numbers alone ---------------------------------------------------------

  ghost predicate SameIndex(s: FS, s': FS, p: Place) {
    Legal(s, p) && IsIndex(s.g, p) && 0 < Ref(s, p) < |s.blk| ==>
      Ref(s, p) < |s'.blk| && s'.blk[Ref(s, p)] == s.blk[Ref(s, p)]
  }

  /** Block numbers depend on the inodes and the index blocks only. */
  lemma {:induction false} RefFrame(s: FS, s': FS, p: Place)
    requires s'.g == s.g && s'.files == s.files && |s'.blk| == |s.blk| && Legal(s, p)
    requires forall q {:trigger SameIndex(s, s', q)} | Legal(s, q) && IsIndex(s.g, q) :: SameIndex(s, s', q)
    ensures Ref(s', p) == Ref(s, p) && Legal(s', p)
  {
    if p.Sub? {
      RefFrame(s, s', p.up);
      assert SameIndex(s, s', p.up);
    }
  }

  // ---- the data of a file ----------------------------------------------------------------------------------

  function MaxFile(g: Geometry): nat { g.nd + NINDIRECT + if g.dbl then NINDIRECT * NINDIRECT else 0 }

  /** The place that bmap() uses for block `n` of file `f`. */
  function DataPlace(g: Geometry, f: nat, n: nat): Place {
    if n < g.nd then Slot(f, n)
    else if n - g.nd < NINDIRECT then Sub(Slot(f, g.nd), n - g.nd)
    else Sub(Sub(Slot(f, g.nd + 1), (n - g.nd - NINDIRECT) / NINDIRECT), (n - g.nd - NINDIRECT) % NINDIRECT)
  }

  lemma DataPlaceLegal(s: FS, f: nat, n: nat)
    requires f < |s.files| && n < MaxFile(s.g)
    ensures Legal(s, DataPlace(s.g, f, n)) && !IsIndex(s.g, DataPlace(s.g, f, n)) && FileOf(DataPlace(s.g, f, n)) == f
  {
    if n >= s.g.nd + NINDIRECT {
      var r := n - s.g.nd - NINDIRECT;
      assert r / NINDIRECT < NINDIRECT && r % NINDIRECT < NINDIRECT;
      var top := Slot(f, s.g.nd + 1);
      assert FileOf(top) == f && FileOf(Sub(top, r / NINDIRECT)) == f;
      assert Legal(s, top) && Legal(s, Sub(top, r / NINDIRECT)) && IsIndex(s.g, Sub(top, r / NINDIRECT));
    }
  }

  /** bmap() sends different blocks of files to different places. */
  lemma DataPlaceInjective(g: Geometry, f: nat, n: nat, f': nat, n': nat)
    requires DataPlace(g, f, n) == DataPlace(g, f', n')
    ensures f == f' && n == n'
  {
    if n >= g.nd + NINDIRECT && n' >= g.nd + NINDIRECT {
      var r, r' := n - g.nd - NINDIRECT, n' - g.nd - NINDIRECT;
      assert r == NINDIRECT * (r / NINDIRECT) + r % NINDIRECT;
      assert r' == NINDIRECT * (r' / NINDIRECT) + r' % NINDIRECT;
    }
  }

  /** The disk block of block `n` of a file, 0 for none. */
  function Where(s: FS, f: nat, n: nat): nat { Ref(s, DataPlace(s.g, f, n)) }

  /** Distinct block indices go to distinct disk blocks, whatever the files. */
  lemma BlocksDistinct(s: FS, o: Owners, f: nat, n: nat, f': nat, n': nat)
    requires Owned(s, o, {}) && f < |s.files| && f' < |s.files| && n < MaxFile(s.g) && n' < MaxFile(s.g)
    requires Where(s, f, n) != 0 && Where(s, f, n) == Where(s, f', n')
    ensures f == f' && n == n'
  {
    DataPlaceLegal(s, f, n);
    DataPlaceLegal(s, f', n');
    RefRange(s, o, {}, DataPlace(s.g, f, n));
    RefRange(s, o, {}, DataPlace(s.g, f', n'));
    DataPlaceInjective(s.g, f, n, f', n');
  }
}
