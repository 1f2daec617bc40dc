// The code of xv6/kernel/fs.c over blocks as seen through the buffer cache and the log. With
// `g.dbl` the block map is that of xv7/kernel/fs.c, with its double-indirect blocks and an
// itrunc() that stops above them.

module FsCode {
  import opened Common
  import opened BitVector
  import opened FsBlock
  import opened FsOwner
  import opened FsUpdate
  import opened FsFile
  import opened FsFill
  import opened FsBudget
  import opened FsWrite
  import opened FsTrunc

  const IPB := 16  // inodes per block

  /** No block is left: the state in which balloc() panics. */
  ghost predicate Full(s: FS)
    requires WF(s)
  {
    forall b | 0 <= b < s.g.size :: Used(s, b)
  }

  class FileSys {
    const g: Geometry
    var blk: seq<Block>
    var files: seq<Inode>      // inodes in memory
    var dinode: seq<Inode>     // inodes on disk
    ghost var o: Owners
    ghost var logged: set<nat> // blocks passed to log_write() in the current operation

    ghost function S(): FS
      reads this
    {
      FS(g, blk, files)
    }

    ghost predicate Valid()
      reads this
    {
      Owned(S(), o, {}) && AllMapped(S()) && |dinode| == |files|
    }

    /** The file system as it is mounted: some image with every block owned once. */
    constructor (g: Geometry, blk: seq<Block>, files: seq<Inode>, ghost o: Owners)
      requires Owned(FS(g, blk, files), o, {}) && AllMapped(FS(g, blk, files))
      ensures Valid() && S() == FS(g, blk, files) && dinode == files
    {
      this.g, this.blk, this.files, this.dinode, this.o, this.logged := g, blk, files, files, o, {};
    }

    // ---- blocks ----------------------------------------------------------------------------------------

    lemma BitOf(base: nat, bi: nat)
      requires base % BPB == 0 && bi < BPB
      ensures BBlock(g, base + bi) == BBlock(g, base) && (base + bi) % BPB == bi
    {
    }

    /** balloc: the first free block, marked and filled with zeros. */
    method Balloc() returns (b: nat, panicked: bool)
      requires WF(S())
      modifies this`blk, this`logged
      ensures panicked ==> S() == old(S()) && Full(S())
      ensures !panicked ==> b < g.size && !Used(old(S()), b) && forall x | 0 <= x < b :: Used(old(S()), x)
      ensures !panicked ==> S() == Alloc(old(S()), b) && logged == old(logged) + {BBlock(g, b), b}
    {
      var base := 0;
      while base < g.size
        invariant base % BPB == 0 && blk == old(blk) && logged == old(logged)
        invariant forall x | 0 <= x < base && x < g.size :: Used(S(), x)
        decreases g.size - base
      {
        var m := BBlock(g, base);
        var bi := 0;
        assert BBlock(g, base) < g.nmeta;
        while bi < BPB && base + bi < g.size
          invariant bi <= BPB && blk == old(blk) && logged == old(logged)
          invariant forall x | 0 <= x < base + bi && x < g.size :: Used(S(), x)
        {
          BitOf(base, bi);
          if !BitIsSet(blk[m], bi) {
            blk := blk[m := BitSet(blk[m], bi)];
            logged := logged + {m};
            blk := blk[base + bi := Zero()];  // bzero
            logged := logged + {base + bi};
            return base + bi, false;
          }
          bi := bi + 1;
        }
        base := base + BPB;
      }
      return 0, true;
    }

    /** bfree: its panic is the precondition that fails. */
    method Bfree(b: nat)
      requires WF(S()) && b < g.size && Used(S(), b)
      modifies this`blk, this`logged
      ensures S() == Freed(old(S()), b) && logged == old(logged) + {BBlock(g, b)}
      ensures WF(S()) && forall x | 0 <= x < g.size :: Used(S(), x) <==> Used(old(S()), x) && x != b
      ensures forall x | 0 <= x < |blk| && x != BBlock(g, b) :: blk[x] == old(blk)[x]
      ensures forall gone | Owned(old(S()), o, gone) && NoIndex(old(S()), gone) && b in o ::
                Owned(S(), o - {b}, gone + {o[b]})
    {
      BfreeFacts(S(), o, b);
      var m, bi := BBlock(g, b), b % BPB;
      assert BBlock(g, b) < g.nmeta;
      blk := blk[m := BitClear(blk[m], bi)];
      logged := logged + {m};
    }

    // ---- bmap ------------------------------------------------------------------------------------------

    /** The block number in slot `i` of an inode, allocating if necessary. */
    method SlotBlock(f: nat, i: nat) returns (addr: nat, panicked: bool)
      requires Owned(S(), o, {}) && f < |files| && i < Slots(g)
      modifies this`blk, this`files, this`o, this`logged
      ensures panicked ==> WF(S()) && S() == old(S()) && Full(S()) && Ref(S(), Slot(f, i)) == 0
      ensures !panicked ==> Filled(old(S()), S(), Slot(f, i)) && Owned(S(), o, {}) && addr == Ref(S(), Slot(f, i))
      ensures !panicked ==> Filling(old(S()), S(), Need(old(S()), Slot(f, i)))
      ensures !panicked ==> logged == old(logged) + LogAt(old(S()), S(), Slot(f, i))
      ensures Ref(old(S()), Slot(f, i)) != 0 ==> !panicked && S() == old(S())
    {
      addr, panicked := files[f].addrs[i], false;
      ghost var p := Slot(f, i);
      if addr == 0 {
        addr, panicked := Balloc();
        if panicked {
          return;
        }
        files := files[f := files[f].(addrs := files[f].addrs[i := addr])];
        assert S() == Attached(old(S()), p, addr);
        Taken(old(S()), o, p, addr);
        o := o[addr := p];
      } else {
        FilledSame(S(), o, p);
      }
    }

    /** Entry `j` of the index block `a`, allocating if necessary. */
    method EntryBlock(a: nat, j: nat, ghost up: Place) returns (addr: nat, panicked: bool)
      requires Owned(S(), o, {}) && Legal(S(), Sub(up, j)) && a == Ref(S(), up) && a != 0
      modifies this`blk, this`o, this`logged
      ensures panicked ==> WF(S()) && S() == old(S()) && Full(S()) && Ref(S(), Sub(up, j)) == 0
      ensures !panicked ==> Filled(old(S()), S(), Sub(up, j)) && Owned(S(), o, {}) && addr == Ref(S(), Sub(up, j))
      ensures !panicked ==> Filling(old(S()), S(), Need(old(S()), Sub(up, j)))
      ensures !panicked ==> logged == old(logged) + LogAt(old(S()), S(), Sub(up, j))
      ensures Ref(old(S()), Sub(up, j)) != 0 ==> !panicked && S() == old(S())
    {
      hide Owned, Used, Full, Filled, Filling, WF, Legal, Word;
      EntryFacts(S(), o, Sub(up, j));
      addr, panicked := Word(blk[a], j), false;
      if addr == 0 {
        addr, panicked := NewEntry(a, j, up);
      }
    }

    /** a[j] = addr = balloc() with its log_write(). */
    method NewEntry(a: nat, j: nat, ghost up: Place) returns (addr: nat, panicked: bool)
      requires Owned(S(), o, {}) && WF(S()) && Vacant(S(), Sub(up, j)) && a == Ref(S(), up) && a < |blk| && j < NINDIRECT
      modifies this`blk, this`o, this`logged
      ensures panicked ==> WF(S()) && S() == old(S()) && Full(S()) && Ref(S(), Sub(up, j)) == 0
      ensures !panicked ==> Filled(old(S()), S(), Sub(up, j)) && Owned(S(), o, {}) && addr == Ref(S(), Sub(up, j))
      ensures !panicked ==> Filling(old(S()), S(), Need(old(S()), Sub(up, j)))
      ensures !panicked ==> logged == old(logged) + LogAt(old(S()), S(), Sub(up, j))
    {
      hide Owned, Used, Full, Filled, Filling, WF, Alloc, Legal, Word, SetWord, BBlock, LogAt, Ref, Attached;
      ghost var p := Sub(up, j);
      ghost var s := S();
      addr, panicked := Balloc();
      if !panicked {
        UpAlloc(s, o, addr, p);
        AttachedEntry(s, p, addr);
        blk := blk[a := SetWord(blk[a], j, addr)];
        logged := logged + {a};
        Taken(s, o, p, addr);
        o := o[addr := p];
      }
    }

    /** bmap: the disk block of block `bn` of file `f`; a missing one is allocated. */
    method Bmap(f: nat, bn: nat) returns (addr: nat, panicked: bool)
      requires Owned(S(), o, {}) && f < |files| && bn < MaxFile(g)
      modifies this`blk, this`files, this`o, this`logged
      ensures panicked ==> WF(S()) && Full(S()) && Partly(old(S()), S(), MissingOn(old(S()), DataPlace(g, f, bn)))
      ensures !panicked ==>
                Owned(S(), o, {}) && Extended(old(S()), S(), DataPlace(g, f, bn)) && addr == Where(S(), f, bn) != 0
      ensures !panicked ==> Filling(old(S()), S(), MissingOn(old(S()), DataPlace(g, f, bn)))
      ensures !panicked ==> logged == old(logged) + LogPath(old(S()), S(), DataPlace(g, f, bn))
      ensures Where(old(S()), f, bn) != 0 ==> !panicked && S() == old(S()) && logged == old(logged)
    {
      hide Owned, Legal, Full, Filled, Filling, Partly, MissingOn, Extended, LogAt, LogPath, Ref, WF, IsIndex;
      ghost var s := S();
      BlockPath(s, f, bn);
      AlreadyThere(s, DataPlace(g, f, bn));
      if bn < g.nd {
        addr, panicked := SlotBlock(f, bn);
        NeedSlot(s, Slot(f, bn));
        if panicked { PartlyNone(s, Slot(f, bn)); } else { First(s, S(), Slot(f, bn)); }
        return;
      }
      var n := bn - g.nd;
      if n < NINDIRECT {
        addr, panicked := Two(f, g.nd, n);
        return;
      }
      n := n - NINDIRECT;
      var level1, level2 := n / NINDIRECT, n % NINDIRECT;
      ghost var p, up := DataPlace(g, f, bn), Sub(Slot(f, g.nd + 1), level1);
      addr, panicked := Two(f, g.nd + 1, level1);
      if panicked {
        MissingStep(s, p);
        PartlyMore(s, S(), MissingOn(s, up), MissingOn(s, p));
        return;
      }
      ghost var s1 := S();
      LegalStays(s, s1, up, p);
      addr, panicked := EntryBlock(addr, level2, up);
      if panicked { PartlyThen(s, s1, p); } else { Then(s, s1, S(), p); FillingThen(s, s1, S(), p); }
    }

    /** The slot of an indirect block and then one of its entries. */
    method Two(f: nat, i: nat, j: nat) returns (addr: nat, panicked: bool)
      requires Owned(S(), o, {}) && f < |files| && g.nd <= i < Slots(g) && j < NINDIRECT
      modifies this`blk, this`files, this`o, this`logged
      ensures panicked ==> WF(S()) && Full(S()) && Partly(old(S()), S(), MissingOn(old(S()), Sub(Slot(f, i), j)))
      ensures !panicked ==>
                Owned(S(), o, {}) && Extended(old(S()), S(), Sub(Slot(f, i), j)) && addr == Ref(S(), Sub(Slot(f, i), j)) != 0
      ensures !panicked ==> Filling(old(S()), S(), MissingOn(old(S()), Sub(Slot(f, i), j)))
      ensures !panicked ==> logged == old(logged) + LogPath(old(S()), S(), Sub(Slot(f, i), j))
      ensures Ref(old(S()), Sub(Slot(f, i), j)) != 0 ==> !panicked && S() == old(S())
    {
      hide Owned, Legal, Full, Filled, Filling, Partly, MissingOn, Extended, LogAt, LogPath, Ref, WF, IsIndex;
      ghost var s, up, p := S(), Slot(f, i), Sub(Slot(f, i), j);
      SubLegal(s, f, i, j);
      ParentThere(s, p);
      var a: nat;
      a, panicked := SlotBlock(f, i);
      if panicked {
        PartlyNone(s, p);
        return a, true;
      }
      ghost var s1 := S();
      First(s, s1, up);
      NeedSlot(s, up);
      LegalStays(s, s1, up, p);
      addr, panicked := EntryBlock(a, j, up);
      if panicked { PartlyThen(s, s1, p); } else { Then(s, s1, S(), p); FillingThen(s, s1, S(), p); }
    }

    /** iupdate */
    method Iupdate(f: nat)
      requires f < |files| == |dinode|
      modifies this`dinode, this`logged
      ensures dinode == old(dinode)[f := files[f]] && logged == old(logged) + {InodeBlock(g, f)}
      ensures forall h | 0 <= h < |dinode| && h != f :: dinode[h] == old(dinode)[h]
      ensures (forall h | 0 <= h < |files| && h != f :: old(dinode)[h] == files[h]) ==> dinode == files
    {
      dinode := dinode[f := files[f]];
      logged := logged + {f / IPB + g.inodestart};
    }

    // ---- reading and writing ---------------------------------------------------------------------------

    /** readi into a kernel buffer; the return value is the number of bytes copied. */
    method Readi(f: nat, off: nat, n: nat) returns (out: seq<bv8>)
      requires Valid() && f < |files| && off < UINT && n < UINT
      modifies this`blk, this`files, this`o, this`logged
      ensures Valid() && S() == old(S()) && logged == old(logged)
      ensures out == ReadSlice(Contents(S(), f), off, n)
    {
      hide Owned, AllMapped, BlockNo, Offset, Where, DataPlace, Contents, Extended, LogPath, Full, WF;
      out := [];
      ghost var s := S();
      ContentsSize(s, f);
      if off > files[f].size || (off + n) % UINT < off {
        return;
      }
      var left := if off + n > files[f].size then files[f].size - off else n;
      var tot := 0;
      while tot < left
        invariant tot <= left && S() == s && Valid() && logged == old(logged)
        invariant out == Contents(s, f)[off..off + tot]
      {
        var pos := off + tot;
        ReadFacts(s, o, f, pos);
        var r, panicked := Bmap(f, BlockNo(pos));
        var m := Min(left - tot, BSIZE - Offset(pos));
        ReadPiece(s, o, f, pos, m);
        out := out + blk[r][Offset(pos)..Offset(pos) + m];
        tot := tot + m;
      }
    }

    /** writei from a kernel buffer. */
    method Writei(f: nat, src: seq<bv8>, off: nat) returns (r: int, panicked: bool)
      requires Valid() && f < |files| && off < UINT && |src| < UINT
      modifies this`blk, this`files, this`dinode, this`o, this`logged
      ensures panicked ==> WF(S()) && Full(S())
      ensures panicked <==> !Refused(old(S()), f, off, |src|) && |FreeBlocks(old(S()))| < |Wanted(old(S()), f, off, |src|)|
      ensures Refused(old(S()), f, off, |src|) ==>
                r == -1 && Valid() && S() == old(S()) && dinode == old(dinode) && logged == old(logged)
      ensures !Refused(old(S()), f, off, |src|) && !panicked ==>
                && r == |src| && Valid() && Spliced(old(S()), S(), f, off, src)
                && dinode == old(dinode)[f := files[f]]
                && Filling(old(S()), S(), Wanted(old(S()), f, off, |src|))
                && RangeMapped(S(), f, BlockNo(off), LastBlock(off, |src|))
                && logged == old(logged) + WriteLog(old(S()), S(), f, BlockNo(off), LastBlock(off, |src|)) + {InodeBlock(g, f)}
    {
      hide Owned, AllMapped, BlockNo, Offset, Where, Contents, Extended, LogPath, Full, WF, Wrote, Writing, MaxFile, Spliced,
           Poked, WithSize, Fits, WriteLog, Filling, Partly, MissingIn, MissingOn, FreeBlocks, RangeMapped;
      WellFormed(S(), o);
      ghost var s0, lo, hi := S(), BlockNo(off), BlockNo(off);
      panicked := false;
      if off > files[f].size || (off + |src|) % UINT < off {
        return -1, false;
      }
      if (off + |src|) % UINT > MaxFile(g) * BSIZE {
        return -1, false;
      }
      WriteStart(s0, f, off, src);
      var tot := 0;
      ghost var more: set<nat> := {};
      while tot < |src|
        invariant dinode == old(dinode) && logged == old(logged) + more
        invariant tot <= |src| && S().g == s0.g && |files| == |s0.files| && f < |files|
        invariant Owned(S(), o, {}) && Wrote(s0, S(), f, off, src, tot)
        invariant Writing(s0, S(), f, lo, hi, more)
        invariant tot < |src| ==> hi == BlockNo(off + tot)
        invariant hi == if tot == 0 then lo else BlockNo(off + tot - 1) + 1
      {
        var pos := off + tot;
        NextBlock(s0, f, off, src, tot);
        ghost var s1 := S();
        var b: nat;
        b, panicked := Bmap(f, BlockNo(pos));
        if panicked {
          NoneLeft(S());
          WithinWrite(off, tot, |src|);
          RanOut(s0, s1, S(), f, lo, hi, LastBlock(off, |src|), more);
          return 0, true;
        }
        ghost var s2 := S();
        var m := Min(|src| - tot, BSIZE - Offset(pos));
        WriteStep(s0, s1, s2, o, f, off, src, tot, m, lo, hi, more, LogPath(s1, s2, DataPlace(g, f, hi)));
        more := more + LogPath(s1, s2, DataPlace(g, f, hi)) + {b};
        blk := blk[b := Patch(blk[b], Offset(pos), src[tot..tot + m])];
        logged := logged + {b};
        tot, hi := tot + m, hi + 1;
      }
      WriteEnd(s0, S(), o, f, off, src, lo, hi, more);
      if off + tot > files[f].size {
        files := files[f := files[f].(size := off + tot)];
      }
      EnoughFree(s0, S(), f, lo, hi, more);
      Iupdate(f);
      return tot, false;
    }

    // ---- truncation ------------------------------------------------------------------------------------

    /** itrunc. That Bfree can be called says that its panic is not reachable. */
    method Itrunc(f: nat)
      requires Valid() && f < |files|
      modifies this`blk, this`files, this`dinode, this`o, this`logged
      ensures Valid() && Trimmed(old(S()), S(), f) && files[f].size == 0 && dinode == old(dinode)[f := files[f]]
      ensures forall h | 0 <= h < |files| && h != f :: Contents(S(), h) == Contents(old(S()), h)
      ensures forall i | 0 <= i <= g.nd :: files[f].addrs[i] == 0
      ensures g.dbl ==> files[f].addrs[g.nd + 1] == old(files[f].addrs[g.nd + 1])
      ensures (forall p :: NoBlockAt(S(), f, p)) <==> (g.dbl ==> old(files[f].addrs[g.nd + 1]) == 0)
      ensures o == Rest(g, old(o), f, g.nd + 1, NINDIRECT)
    {
      hide Owned, AllMapped, Contents, Used, Freed, Legal, Ref, Trimmed, BBlock, Rest, NoBlockAt, WF;
      ghost var s0, o0 := S(), o;
      TrimStart(s0, o, f);
      var i := 0;
      while i < g.nd
        invariant i <= g.nd && Trunc(s0, S(), o0, o, f, i, 0, {}) && dinode == old(dinode)
      {
        TruncSlot(s0, S(), o0, o, f, i);
        if files[f].addrs[i] != 0 {
          ghost var b := files[f].addrs[i];
          Bfree(files[f].addrs[i]);
          files := files[f := files[f].(addrs := files[f].addrs[i := 0])];
          o := o - {b};
        }
        i := i + 1;
      }
      TruncFacts(s0, S(), o0, o, f);
      if files[f].addrs[g.nd] != 0 {
        FreeIndirect(f, s0, o0);
      } else {
        TruncNoIndirect(s0, S(), o0, o, f);
      }
      TruncEnd(s0, S(), o0, o, f);
      files := files[f := files[f].(size := 0)];
      TruncatesAllIff(s0, S(), f) by { WellFormed(S(), o); }
      Iupdate(f);
    }

    /** The blocks that the indirect block names, then that block itself. */
    method FreeIndirect(f: nat, ghost s0: FS, ghost o0: Owners)
      requires Trunc(s0, S(), o0, o, f, g.nd, 0, {}) && f < |files| && g.nd < |files[f].addrs| && files[f].addrs[g.nd] != 0
      modifies this`blk, this`files, this`o, this`logged
      ensures Trunc(s0, S(), o0, o, f, g.nd + 1, NINDIRECT, {})
    {
      hide Owned, Used, Freed, Legal, Ref, Trunc, BBlock, Word, Entries;
      var a, j := files[f].addrs[g.nd], 0;
      TruncEntries(s0, S(), o0, o, f);
      while j < NINDIRECT
        invariant j <= NINDIRECT && Trunc(s0, S(), o0, o, f, g.nd, j, Entries(f, g.nd, j))
        invariant files == old(files)
      {
        TruncEntry(s0, S(), o0, o, f, j);
        var b := Word(blk[a], j);
        if b != 0 {
          Bfree(b);
          o := o - {b};
        }
        j := j + 1;
      }
      TruncIndirect(s0, S(), o0, o, f);
      Bfree(a);
      files := files[f := files[f].(addrs := files[f].addrs[g.nd := 0])];
      o := o - {a};
    }

    // ---- xv6/kernel/file.c -----------------------------------------------------------------------------

    /** One transaction of filewrite(), between begin_op() and end_op(): how many blocks it logs
        follows from the state before it. */
    method WriteChunk(f: nat, src: seq<bv8>, off: nat) returns (r: int, panicked: bool)
      requires Valid() && f < |files| && off < UINT && 0 < |src| <= CHUNK
      modifies this`blk, this`files, this`dinode, this`o, this`logged
      ensures panicked ==> WF(S()) && Full(S())
      ensures panicked <==> !Refused(old(S()), f, off, |src|) && |FreeBlocks(old(S()))| < |Wanted(old(S()), f, off, |src|)|
      ensures !panicked ==> Valid() && |logged| <= MostLogged(old(S()), f, BlockNo(off), LastBlock(off, |src|))
      ensures !panicked && !Refused(old(S()), f, off, |src|) && InodeBlock(g, f) < g.bmapstart ==>
                |logged| == LogCount(old(S()), f, BlockNo(off), LastBlock(off, |src|))
      ensures !panicked ==> |logged| <= 13 && (!g.dbl || LastBlock(off, |src|) <= Double(g) ==> |logged| <= MAXOPBLOCKS)
      ensures Refused(old(S()), f, off, |src|) ==> r == -1 && S() == old(S())
      ensures !Refused(old(S()), f, off, |src|) && !panicked ==>
                && r == |src| && Spliced(old(S()), S(), f, off, src)
                && Filling(old(S()), S(), Wanted(old(S()), f, off, |src|))
    {
      hide Owned, AllMapped, BlockNo, Contents, Full, WF, Filling, WriteLog, MaxFile, Spliced, Fits, Wrote, Writing, FreeBlocks,
           RangeMapped, MissingIn, Touched;
      ghost var s := S();
      WellFormed(s, o);
      logged := {};
      r, panicked := Writei(f, src, off);
      if !Refused(s, f, off, |src|) && !panicked {
        ChunkLogged(s, S(), o, f, off, |src|);
      }
    }

    /** filewrite on an inode: `done` bytes are written, in chunks. */
    method FileWrite(f: nat, src: seq<bv8>, n: int, off0: nat) returns (ret: int, off: nat, panicked: bool, ghost done: nat)
      requires Valid() && f < |files| && off0 < UINT && |src| == (if n < 0 then 0 else n) && n < UINT
      modifies this`blk, this`files, this`dinode, this`o, this`logged
      ensures done == Accepted(old(S()), f, off0, 0, |src|) <= |src|
      ensures panicked ==> WF(S()) && Full(S())
      ensures panicked <==> |FreeBlocks(old(S()))| < |Wanted(old(S()), f, off0, done)|
      ensures !panicked ==>
                && Valid() && |files| == |old(files)| && off == off0 + done
                && ret == (if done == n then n else -1)
                && (done == |src| <==> n <= 0 || !Refused(old(S()), f, off0, n))
                && (if done == 0 then S() == old(S()) else Spliced(old(S()), S(), f, off0, src[..done]))
                && Filling(old(S()), S(), Wanted(old(S()), f, off0, done))
    {
      hide Owned, AllMapped, Contents, Full, WF, Spliced, MaxFile, Filling, FreeBlocks, Wanted, BlockNo, LastBlock, LogCount,
           MostLogged, Chunked, Accepted, Refused, InodeBlock;
      WellFormed(S(), o);
      ghost var s0 := S();
      ChunkedStart(s0, f, off0);
      AcceptedIs(s0, f, off0, 0, |src|);
      var i := 0;
      off, done, panicked := off0, Accepted(s0, f, off0, 0, |src|), false;
      while i < n
        invariant 0 <= i <= done && off == off0 + i && off < UINT && Valid() && |files| == |s0.files|
        invariant if i == 0 then S() == s0 else Spliced(s0, S(), f, off0, src[..i])
        invariant i > 0 ==> !Refused(s0, f, off0, i)
        invariant Accepted(s0, f, off0, i, |src|) == done && Chunked(s0, S(), f, off0, i)
        decreases n - i
      {
        var n1 := if n - i > CHUNK then CHUNK else n - i;
        ghost var s1 := S();
        WellFormed(s1, o);
        AcceptedStep(s0, f, off0, i, |src|, n1);
        SplicedStep(s0, s1, f, off0, src, i, n1);
        var r;
        r, panicked := WriteChunk(f, src[i..i + n1], off);
        if panicked {
          AcceptedIs(s0, f, off0, i + n1, |src|);
          ChunkRanOut(s0, s1, f, off0, i, n1, done);
          return 0, off, true, done;
        }
        if r > 0 {
          off := off + r;
        }
        if r != n1 {
          break;
        }
        SplicedMore(s0, s1, S(), f, off0, src, i, n1);
        ChunkedMore(s0, s1, S(), f, off0, i, n1);
        AcceptedIs(s0, f, off0, i + n1, |src|);
        i := i + r;
      }
      AllChunked(s0, S(), f, off0, i);
      ret := if i == n then n else -1;
    }
  }

  const CHUNK := ((MAXOPBLOCKS - 1 - 1 - 2) / 2) * BSIZE

  lemma SplicedSize(s: FS, s': FS, f: nat, off: nat, src: seq<bv8>)
    requires f < |s.files| && Spliced(s, s', f, off, src)
    ensures f < |s'.files| && s'.files[f].size == if off + |src| > s.files[f].size then off + |src| else s.files[f].size
  {
    ContentsSize(s, f);
    ContentsSize(s', f);
  }

  /** How far filewrite() comes from byte `i` on: to the first chunk that writei() rejects. */
  function Accepted(s: FS, f: nat, off: nat, i: nat, n: nat): nat
    requires f < |s.files|
    decreases n - i
  {
    var n1 := Min(CHUNK, if i < n then n - i else 0);
    if n1 == 0 || Refused(s, f, off, i + n1) then i else Accepted(s, f, off, i + n1, n)
  }

  /** All bytes are written exactly when the whole is not rejected, else as many chunks as fit. */
  lemma {:induction false} AcceptedIs(s: FS, f: nat, off: nat, i: nat, n: nat)
    requires f < |s.files| && i <= n
    ensures var a := Accepted(s, f, off, i, n);
            && i <= a <= n && (a == n <==> i == n || !Refused(s, f, off, n)) && (a > i ==> !Refused(s, f, off, a))
            && (a < n ==> (a - i) % CHUNK == 0 && Refused(s, f, off, Min(a + CHUNK, n)))
    decreases n - i
  {
    hide Refused;
    var n1 := Min(CHUNK, n - i);
    if n1 > 0 {
      RefusedMore(s, f, off, i + n1, n);
      if !Refused(s, f, off, i + n1) {
        AcceptedIs(s, f, off, i + n1, n);
        var a := Accepted(s, f, off, i + n1, n);
        if n1 == CHUNK { OneChunkMore(a - i); }
      }
    }
  }

  lemma AcceptedStep(s: FS, f: nat, off: nat, i: nat, n: nat, n1: nat)
    requires f < |s.files| && i < n && n1 == Min(CHUNK, n - i)
    ensures Accepted(s, f, off, i, n) == if Refused(s, f, off, i + n1) then i else Accepted(s, f, off, i + n1, n)
    ensures !Refused(s, f, off, i + n1) ==> off + i + n1 < UINT
  {
    hide MaxFile;
  }

  lemma RefusedMore(s: FS, f: nat, off: nat, i: nat, n: nat)
    requires f < |s.files| && i <= n
    ensures Refused(s, f, off, i) ==> Refused(s, f, off, n)
  {
    hide MaxFile;
  }

  lemma OneChunkMore(a: int)
    ensures (a - CHUNK) % CHUNK == 0 ==> a % CHUNK == 0
  {
  }

  lemma ChunkLogged(s: FS, s': FS, o: Owners, f: nat, off: nat, n: nat)
    requires AllMapped(s) && f < |s.files| && !Refused(s, f, off, n) && 0 < n <= CHUNK && Owned(s', o, {}) && WF(s)
    requires Filling(s, s', Wanted(s, f, off, n)) && RangeMapped(s', f, BlockNo(off), LastBlock(off, n))
    ensures var lo, hi := BlockNo(off), LastBlock(off, n);
            var log := WriteLog(s, s', f, lo, hi) + {InodeBlock(s.g, f)};
            && |log| <= MostLogged(s, f, lo, hi) <= 13 && (!s.g.dbl || hi <= Double(s.g) ==> |log| <= MAXOPBLOCKS)
            && (InodeBlock(s.g, f) < s.g.bmapstart ==> |log| == LogCount(s, f, lo, hi))
  {
    hide Owned, AllMapped, BlockNo, WF, Filling, WriteLog, MaxFile, RangeMapped, MissingIn, Touched, LogCount, MostLogged, Ref;
    var lo, hi, ib := BlockNo(off), LastBlock(off, n), InodeBlock(s.g, f);
    FillingParts(s, s', Wanted(s, f, off, n));
    ChunkBudget(s, f, off, n) by { hide MaxFile; }
    ChunkSpan(s.g, off, n);
    LoggedAtMost(s, s', f, lo, hi, ib);
    if ib < s.g.bmapstart { LogCounted(s, s', o, f, lo, hi, ib); }
  }

  /** The chunks of filewrite() so far filled what one write of all their bytes fills. */
  ghost predicate Chunked(s0: FS, s: FS, f: nat, off: nat, i: nat) { f < |s0.files| && Filling(s0, s, Wanted(s0, f, off, i)) }

  lemma ChunkedStart(s: FS, f: nat, off: nat)
    requires WF(s) && f < |s.files|
    ensures Chunked(s, s, f, off, 0)
  {
    hide Filling, WF, Used, BlockNo;
    FillingSame(s, s);
  }

  /** The blocks of two chunks in a row. */
  lemma ChunkBlocks(s: FS, f: nat, off: nat, i: nat, n: nat)
    requires f < |s.files| && n > 0 && !Refused(s, f, off, i + n)
    ensures BlockNo(off) <= BlockNo(off + i) <= LastBlock(off, i) <= LastBlock(off + i, n)
    ensures LastBlock(off + i, n) == LastBlock(off, i + n) <= MaxFile(s.g)
  {
    BlockNoBound(s.g, off + i + n - 1);
    BlockOrder(off, off + i);
    BlockOrder(off + i, off + i + n - 1);
    if i > 0 { BlockOrder(off + i - 1, off + i); }
  }

  lemma ChunkedMore(s0: FS, s1: FS, s2: FS, f: nat, off: nat, i: nat, n: nat)
    requires Chunked(s0, s1, f, off, i) && f < |s1.files| && n > 0 && !Refused(s0, f, off, i + n)
    requires Filling(s1, s2, Wanted(s1, f, off + i, n))
    ensures Chunked(s0, s2, f, off, i + n)
  {
    hide Filling, MaxFile, BlockNo, LastBlock, MissingIn, Refused;
    ChunkBlocks(s0, f, off, i, n);
    BothFilled(s0, s1, s2, f, BlockNo(off), BlockNo(off + i), LastBlock(off, i), LastBlock(off, i + n));
  }

  lemma ChunkRanOut(s0: FS, s1: FS, f: nat, off: nat, i: nat, n: nat, all: nat)
    requires WF(s0) && WF(s1) && Chunked(s0, s1, f, off, i) && n > 0 && !Refused(s0, f, off, i + n) && i + n <= all
    requires |FreeBlocks(s1)| < |Wanted(s1, f, off + i, n)|
    ensures |FreeBlocks(s0)| < |Wanted(s0, f, off, all)|
  {
    hide Filling, MaxFile, BlockNo, MissingIn, Refused, FreeBlocks, WF;
    var lo, hi, last := BlockNo(off), LastBlock(off, i + n), LastBlock(off, all);
    ChunkBlocks(s0, f, off, i, n);
    SecondRanOut(s0, s1, f, lo, BlockNo(off + i), LastBlock(off, i), hi);
    BlockOrder(off + i + n - 1, off + all - 1);
    MissingMore(s0, f, lo, hi, last);
    SubsetSize(MissingIn(s0, f, lo, hi), MissingIn(s0, f, lo, last));
  }

  lemma AllChunked(s0: FS, s: FS, f: nat, off: nat, i: nat)
    requires WF(s0) && Chunked(s0, s, f, off, i)
    ensures |FreeBlocks(s0)| >= |Wanted(s0, f, off, i)| && Filling(s0, s, Wanted(s0, f, off, i))
  {
    hide Filling, WF, FreeBlocks, Wanted;
    FillingCount(s0, s, Wanted(s0, f, off, i));
  }

  /** After `i` bytes the next chunk is refused exactly when the whole write up to its end is. */
  lemma SplicedStep(s0: FS, s: FS, f: nat, off: nat, src: seq<bv8>, i: nat, n: nat)
    requires f < |s0.files| == |s.files| && i + n <= |src|
    requires if i == 0 then s == s0 else Spliced(s0, s, f, off, src[..i]) && !Refused(s0, f, off, i)
    requires s.g == s0.g
    ensures Refused(s, f, off + i, n) <==> Refused(s0, f, off, i + n)
    ensures Refused(s0, f, off, i + n) ==> Refused(s0, f, off, |src|)
  {
    hide Spliced, MaxFile;
    if i > 0 { SplicedSize(s0, s, f, off, src[..i]); }
  }

  /** Two writes in a row are one. */
  lemma SplicedMore(s0: FS, s1: FS, s2: FS, f: nat, off: nat, src: seq<bv8>, i: nat, n: nat)
    requires f < |s0.files| == |s1.files| && i + n <= |src|
    requires if i == 0 then s1 == s0 else Spliced(s0, s1, f, off, src[..i])
    requires Spliced(s1, s2, f, off + i, src[i..i + n])
    ensures Spliced(s0, s2, f, off, src[..i + n]) && |s2.files| == |s1.files|
  {
    hide Contents, Splice;
    assert src[..i] + src[i..i + n] == src[..i + n];
    if i == 0 {
      assert src[..i + n] == src[i..i + n];
    } else {
      ContentsSize(s0, f);
      SpliceTwice(Contents(s0, f), off, src[..i], src[i..i + n]);
    }
  }

  lemma SpliceTwice(c: seq<bv8>, off: nat, a: seq<bv8>, b: seq<bv8>)
    requires off <= |c|
    ensures |Splice(c, off, a)| >= off + |a| && Splice(Splice(c, off, a), off + |a|, b) == Splice(c, off, a + b)
  {
  }

  const UINT := 0x1_0000_0000

  function Min(a: nat, b: nat): nat { if a < b then a else b }

  function InodeBlock(g: Geometry, f: nat): nat { f / IPB + g.inodestart }

  /** What a read returns. */
  function ReadSlice(c: seq<bv8>, off: nat, n: nat): seq<bv8> {
    if off > |c| || off + n >= UINT then [] else if off + n > |c| then c[off..] else c[off..off + n]
  }

  /** The writes that writei() rejects. */
  predicate Refused(s: FS, f: nat, off: nat, n: nat)
    requires f < |s.files|
  {
    off > s.files[f].size || off + n >= UINT || off + n > MaxFile(s.g) * BSIZE
  }

  /** One past the last block of a write. */
  function LastBlock(off: nat, n: nat): nat { if n == 0 then BlockNo(off) else BlockNo(off + n - 1) + 1 }

  /** The file has the new bytes and, if need be, a new size; all other files are as before. */
  ghost predicate Spliced(s: FS, s': FS, f: nat, off: nat, src: seq<bv8>)
    requires f < |s.files|
  {
    && |s'.files| == |s.files| && off <= s.files[f].size
    && Contents(s', f) == Splice(Contents(s, f), off, src)
    && forall h | 0 <= h < |s.files| && h != f :: Contents(s', h) == Contents(s, h)
  }

  lemma ContentsSize(s: FS, f: nat)
    requires f < |s.files|
    ensures |Contents(s, f)| == s.files[f].size
  {
  }

  lemma WriteStart(s: FS, f: nat, off: nat, src: seq<bv8>)
    requires WF(s) && AllMapped(s) && f < |s.files| && !Refused(s, f, off, |src|)
    ensures Fits(s, f, off, |src|) && Wrote(s, s, f, off, src, 0)
    ensures Writing(s, s, f, BlockNo(off), BlockNo(off), {})
  {
    hide AllMapped, Wrote, Writing, BlockNo, WF;
    WroteStart(s, f, off, src);
    BlockNoBound(s.g, off);
    WritingStart(s, f, BlockNo(off));
  }

  lemma NextBlock(s: FS, f: nat, off: nat, src: seq<bv8>, tot: nat)
    requires Fits(s, f, off, |src|) && tot < |src|
    ensures BlockNo(off + tot) < MaxFile(s.g)
  {
    BlockNoBound(s.g, off + tot);
  }

  /** The rest of a turn of the loop in writei(), after bmap() led from `s1` to `s2`. */
  lemma WriteStep(s0: FS, s1: FS, s2: FS, o: Owners, f: nat, off: nat, src: seq<bv8>, tot: nat, m: nat,
                  lo: nat, hi: nat, more: set<nat>, path: set<nat>)
    requires Fits(s0, f, off, |src|) && Wrote(s0, s1, f, off, src, tot) && Writing(s0, s1, f, lo, hi, more)
    requires Owned(s2, o, {}) && Extended(s1, s2, DataPlace(s0.g, f, hi)) && hi == BlockNo(off + tot)
    requires Filling(s1, s2, MissingOn(s1, DataPlace(s0.g, f, hi)))
    requires tot < |src| && m == Min(|src| - tot, BSIZE - Offset(off + tot))
    requires path == LogPath(s1, s2, DataPlace(s0.g, f, hi))
    ensures s2.g == s0.g && |s2.files| == |s0.files| && 0 != Where(s2, f, hi) < |s2.blk| && 0 < m && tot + m <= |src|
    ensures var s3 := Poked(s2, Where(s2, f, hi), Offset(off + tot), src[tot..tot + m]);
            && Owned(s3, o, {}) && Wrote(s0, s3, f, off, src, tot + m) && s3.g == s0.g && s3.files == s2.files
            && s3.blk == s2.blk[Where(s2, f, hi) := Patch(s2.blk[Where(s2, f, hi)], Offset(off + tot), src[tot..tot + m])]
            && Writing(s0, s3, f, lo, hi + 1, more + path + {Where(s2, f, hi)})
    ensures tot + m < |src| ==> BlockNo(off + tot + m) == hi + 1
    ensures hi + 1 == BlockNo(off + tot + m - 1) + 1
  {
    hide Owned, BlockNo, Offset, LogPath, MaxFile, Legal, Ref, DataPlace, Patch, WriteLog, Filling, Writing, MissingOn;
    NextBlock(s0, f, off, src, tot);
    ExtendedGrows(s1, s2, DataPlace(s0.g, f, hi));
    WroteFacts(s0, s1, f, off, src, tot);
    WroteGrown(s0, s1, s2, f, off, src, tot);
    WhereFacts(s2, o, f, hi, f, hi);
    WrotePoked(s0, s2, o, f, off, src, tot, m);
    PokedFilling(s2, o, f, hi, Offset(off + tot), src[tot..tot + m]);
    WritingStep(s0, s1, s2, Poked(s2, Where(s2, f, hi), Offset(off + tot), src[tot..tot + m]), f, lo, hi, more, path);
    BlockSteps(off + tot, m);
  }

  lemma ExtendedGrows(s: FS, s': FS, p: Place)
    requires Extended(s, s', p)
    ensures Grown(s, s') && Ref(s', p) != 0
  {
  }

  lemma WroteFacts(s: FS, s': FS, f: nat, off: nat, src: seq<bv8>, tot: nat)
    requires Wrote(s, s', f, off, src, tot)
    ensures s'.g == s.g && |s'.files| == |s.files|
  {
  }

  lemma BlockSteps(pos: nat, m: nat)
    requires m > 0 && Offset(pos) + m <= BSIZE
    ensures BlockNo(pos + m - 1) == BlockNo(pos)
    ensures Offset(pos) + m == BSIZE ==> BlockNo(pos + m) == BlockNo(pos) + 1
  {
  }

  lemma WriteEnd(s0: FS, s: FS, o: Owners, f: nat, off: nat, src: seq<bv8>, lo: nat, hi: nat, more: set<nat>)
    requires Fits(s0, f, off, |src|) && Wrote(s0, s, f, off, src, |src|) && Owned(s, o, {})
             && Writing(s0, s, f, lo, hi, more)
    ensures f < |s.files| && s.files[f].size == s0.files[f].size
    ensures var z := if off + |src| > s.files[f].size then off + |src| else s.files[f].size;
            var s' := WithSize(s, f, z);
            && Owned(s', o, {}) && AllMapped(s') && Spliced(s0, s', f, off, src) && Writing(s0, s', f, lo, hi, more)
            && s' == FS(s.g, s.blk, s.files[f := s.files[f].(size := z)]) && (z == s.files[f].size ==> s' == s)
  {
    hide Owned, AllMapped, Contents, Ref, Where, Writing;
    var z := if off + |src| > s.files[f].size then off + |src| else s.files[f].size;
    assert z == s.files[f].size ==> s.files[f := s.files[f].(size := z)] == s.files;
    OwnedWithSize(s, o, f, z);
    WriteDone(s0, s, f, off, src);
    WritingDone(s0, s, f, lo, hi, more, z);
  }

  /** The places that a write of `n` bytes fills. */
  function Wanted(s: FS, f: nat, off: nat, n: nat): set<Place> { MissingIn(s, f, BlockNo(off), LastBlock(off, n)) }

  lemma NoneLeft(s: FS)
    requires WF(s) && Full(s)
    ensures FreeBlocks(s) == {}
  {
    hide Used, WF;
  }

  lemma WithinWrite(off: nat, tot: nat, n: nat)
    requires tot < n
    ensures BlockNo(off + tot) < LastBlock(off, n)
  {
    BlockOrder(off + tot, off + n - 1);
  }

  lemma BlockOrder(a: nat, b: nat)
    requires a <= b
    ensures BlockNo(a) <= BlockNo(b)
  {
  }

  lemma EnoughFree(s0: FS, s: FS, f: nat, lo: nat, hi: nat, more: set<nat>)
    requires WF(s0) && Writing(s0, s, f, lo, hi, more)
    ensures |FreeBlocks(s0)| >= |MissingIn(s0, f, lo, hi)| && Filling(s0, s, MissingIn(s0, f, lo, hi))
    ensures RangeMapped(s, f, lo, hi) && more == WriteLog(s0, s, f, lo, hi)
  {
    hide Filling, WF, FreeBlocks, MissingIn, RangeMapped, WriteLog;
    FillingCount(s0, s, MissingIn(s0, f, lo, hi));
  }

  /** Place `p` and the way to it are allocated, everything that was there stays. */
  ghost predicate Extended(s: FS, s': FS, p: Place) {
    && Grown(s, s') && Ref(s', p) != 0
    && forall q {:trigger RefBut(s, s', p, q)} :: Level(q) > Level(p) ==> RefBut(s, s', p, q)
  }

  function Level(p: Place): nat { if p.Slot? then 0 else 1 + Level(p.up) }

  lemma First(s: FS, s': FS, p: Place)
    requires Filled(s, s', p) && p.Slot?
    ensures Extended(s, s', p) && LogPath(s, s', p) == LogAt(s, s', p) && Ref(s', p) != 0
  {
  }

  lemma SubLegal(s: FS, f: nat, i: nat, j: nat)
    requires f < |s.files| && s.g.nd <= i < Slots(s.g) && j < NINDIRECT
    ensures Legal(s, Slot(f, i)) && Legal(s, Sub(Slot(f, i), j))
  {
  }

  lemma ParentThere(s: FS, p: Place)
    ensures p.Sub? && Ref(s, p) != 0 ==> Ref(s, p.up) != 0
  {
  }

  lemma BlockPath(s: FS, f: nat, bn: nat)
    requires f < |s.files| && bn < MaxFile(s.g)
    ensures Legal(s, DataPlace(s.g, f, bn)) && (bn >= s.g.nd + NINDIRECT ==> s.g.dbl)
    ensures bn >= s.g.nd + NINDIRECT ==> (bn - s.g.nd - NINDIRECT) / NINDIRECT < NINDIRECT
    ensures DataPlace(s.g, f, bn).Sub? && Ref(s, DataPlace(s.g, f, bn)) != 0 ==> Ref(s, DataPlace(s.g, f, bn).up) != 0
  {
    DataPlaceLegal(s, f, bn);
  }

  lemma AlreadyThere(s: FS, p: Place)
    ensures Ref(s, p) != 0 ==> LogPath(s, s, p) == {}
  {
    if Ref(s, p) != 0 { NonzeroReached(s, p); NothingLogged(s, p); }
  }

  lemma {:induction false} NothingLogged(s: FS, p: Place)
    requires Reached(s, p)
    ensures LogPath(s, s, p) == {}
  {
    if p.Sub? { NothingLogged(s, p.up); }
  }

  lemma LegalStays(s: FS, s': FS, up: Place, p: Place)
    requires Extended(s, s', up) && Legal(s, p) && p.Sub? && p.up == up
    ensures Legal(s', p) && Ref(s', p) == Ref(s, p)
  {
    SameLegal(s, s', p);
    assert RefBut(s, s', up, p);
  }

  /** One level more. */
  lemma Then(s: FS, s1: FS, s2: FS, p: Place)
    requires p.Sub? && Legal(s, p) && Extended(s, s1, p.up) && Filled(s1, s2, p)
    ensures Extended(s, s2, p) && Ref(s2, p) != 0 && LogPath(s, s2, p) == LogPath(s, s1, p.up) + LogAt(s1, s2, p)
  {
    hide Ref, Legal, Grown, LogAt, BBlock;
    GrownTrans(s, s1, s2);
    UpLegal(s, p);
    LegalStays(s, s1, p.up, p);
    SameGeometry(s, s1);
    forall q | Level(q) > Level(p) ensures RefBut(s, s2, p, q) {
      assert RefBut(s, s1, p.up, q) && RefBut(s1, s2, p, q);
      SameLegal(s, s1, q);
    }
    SameLegal(s, s1, p.up);
    LogPathStays(s, s1, s2, p, p.up);
    LogAtMiddle(s, s1, s2, p);
  }

  lemma SameGeometry(s: FS, s': FS)
    requires Grown(s, s')
    ensures s'.g == s.g && |s'.files| == |s.files|
  {
  }

  lemma LogAtMiddle(s: FS, s1: FS, s2: FS, p: Place)
    requires s1.g == s.g && Ref(s1, p) == Ref(s, p)
    ensures LogAt(s, s2, p) == LogAt(s1, s2, p)
  {
  }

  lemma UpLegal(s: FS, p: Place)
    requires p.Sub? && Legal(s, p)
    ensures Legal(s, p.up)
  {
  }

  lemma RefStays(s1: FS, s2: FS, p: Place, q: Place)
    requires Filled(s1, s2, p) && Level(q) < Level(p) && Legal(s1, q)
    ensures Ref(s2, q) == Ref(s1, q)
  {
    hide Ref, Legal, Grown;
    assert RefBut(s1, s2, p, q);
  }

  lemma {:induction false} LogPathStays(s: FS, s1: FS, s2: FS, p: Place, q: Place)
    requires Filled(s1, s2, p) && Level(q) < Level(p) && Legal(s1, q)
    ensures LogPath(s, s2, q) == LogPath(s, s1, q)
    decreases q
  {
    hide Ref, Legal, Filled, BBlock;
    RefStays(s1, s2, p, q);
    if q.Sub? {
      UpLegal(s1, q);
      RefStays(s1, s2, p, q.up);
      LogPathStays(s, s1, s2, p, q.up);
    }
  }

  /** Reading an entry of an index block. */
  lemma EntryFacts(s: FS, o: Owners, p: Place)
    requires Owned(s, o, {}) && Legal(s, p) && p.Sub? && Ref(s, p.up) != 0
    ensures Ref(s, p.up) < |s.blk| && p.j < NINDIRECT && Ref(s, p) == Word(s.blk[Ref(s, p.up)], p.j)
    ensures WF(s) && (Ref(s, p) == 0 ==> Vacant(s, p))
    ensures Ref(s, p) != 0 ==> Filled(s, s, p) && Filling(s, s, {})
  {
    RefRange(s, o, {}, p.up);
    if Ref(s, p) != 0 { FilledSame(s, o, p); }
  }

  ghost predicate RefBut(s: FS, s': FS, p: Place, q: Place) { Legal(s, q) && q != p ==> Ref(s', q) == Ref(s, q) }

  /** Place `p` names a block; nothing else changed except that free blocks were used. */
  ghost predicate Filled(s: FS, s': FS, p: Place) {
    && Grown(s, s') && Ref(s', p) != 0
    && forall q {:trigger RefBut(s, s', p, q)} :: RefBut(s, s', p, q)
  }

  lemma FilledSame(s: FS, o: Owners, p: Place)
    requires Owned(s, o, {}) && Ref(s, p) != 0
    ensures Filled(s, s, p) && Filling(s, s, {})
  {
    hide Referred, Owning, BitmapRight, Filling, Used;
    GrownRefl(s, o);
    FillingSame(s, s);
  }

  lemma UpAlloc(s: FS, o: Owners, b: nat, p: Place)
    requires Owned(s, o, {}) && b < s.g.size && !Used(s, b) && Vacant(s, p) && p.Sub?
    ensures Ref(Alloc(s, b), p.up) == Ref(s, p.up) < s.g.size
    ensures var s' := Alloc(s, b); s'.g == s.g && |s'.blk| == |s.blk| && s'.files == s.files
  {
    RefAlloc(s, o, b, p.up);
    RefRange(s, o, {}, p.up);
  }

  lemma AttachedEntry(s: FS, p: Place, b: nat)
    requires WF(s) && b < s.g.size && Vacant(s, p) && p.Sub? && p.j < NINDIRECT
             && Ref(Alloc(s, b), p.up) == Ref(s, p.up) < s.g.size
    ensures var s', a := Alloc(s, b), Ref(s, p.up);
            a < |s'.blk| && b < 0x1_0000_0000 && Attached(s, p, b) == FS(s.g, s'.blk[a := SetWord(s'.blk[a], p.j, b)], s.files)
  {
  }

  lemma Taken(s: FS, o: Owners, p: Place, b: nat)
    requires Owned(s, o, {}) && b < s.g.size && !Used(s, b) && Vacant(s, p) && forall x | 0 <= x < b :: Used(s, x)
    requires p.Sub? ==> Ref(Alloc(s, b), p.up) == Ref(s, p.up) < s.g.size
    ensures Owned(Attached(s, p, b), o[b := p], {}) && Filling(s, Attached(s, p, b), Need(s, p))
    ensures Filled(s, Attached(s, p, b), p) && Ref(Attached(s, p, b), p) == b
    ensures LogAt(s, Attached(s, p, b), p) == {b, BBlock(s.g, b)} + if p.Sub? then {Ref(s, p.up)} else {}
  {
    hide Referred, Owning, BitmapRight, Used, Ref, Attached, Alloc, Legal, BBlock, Filled, Filling, LogAt;
    OwnedAttached(s, o, p, b);
    FilledAttached(s, o, p, b);
    FillingAttached(s, o, p, b);
  }

  lemma FilledAttached(s: FS, o: Owners, p: Place, b: nat)
    requires Owned(s, o, {}) && b < s.g.size && !Used(s, b) && Vacant(s, p)
    requires p.Sub? ==> Ref(Alloc(s, b), p.up) == Ref(s, p.up) < s.g.size
    ensures Filled(s, Attached(s, p, b), p) && Ref(Attached(s, p, b), p) == b
    ensures LogAt(s, Attached(s, p, b), p) == {b, BBlock(s.g, b)} + if p.Sub? then {Ref(s, p.up)} else {}
  {
    hide Referred, Owning, BitmapRight, Used, Ref, Attached, Alloc, Legal, Grown, BBlock;
    AttachedGrows(s, o, p, b);
    SameGeometry(s, Attached(s, p, b));
    forall q ensures RefBut(s, Attached(s, p, b), p, q) {
      if Legal(s, q) && q != p {
        RefAttached(s, o, p, b, q);
        BelowEmpty(s, p, q);
      }
    }
    if p.Sub? {
      UpLegal(s, p);
      assert RefBut(s, Attached(s, p, b), p, p.up);
    }
  }

  // ---- the loops of itrunc() ---------------------------------------------------------------------------

  /** The first `i` slots and `j` indirect entries are done. */
  ghost predicate Trunc(s0: FS, s: FS, o0: Owners, o: Owners, f: nat, i: nat, j: nat, gone: set<Place>) {
    && WF(s) && f < |s.files| && Owned(s, o, gone) && Trimmed(s0, s, f) && o == Rest(s.g, o0, f, i, j)
    && f < |s0.files| && |s0.files[f].addrs| == Slots(s.g)
    && (forall k | 0 <= k < i && k < Slots(s.g) :: s.files[f].addrs[k] == 0)
    && (forall k | i <= k < Slots(s.g) :: s.files[f].addrs[k] == s0.files[f].addrs[k])
  }

  lemma TrimStart(s: FS, o: Owners, f: nat)
    requires Owned(s, o, {}) && f < |s.files|
    ensures Trunc(s, s, o, o, f, 0, 0, {})
  {
  }

  lemma TruncSlot(s0: FS, s: FS, o0: Owners, o: Owners, f: nat, i: nat)
    requires Trunc(s0, s, o0, o, f, i, 0, {}) && i < s.g.nd
    ensures WF(s) && f < |s.files| && i < |s.files[f].addrs|
    ensures var b := s.files[f].addrs[i];
            && (b == 0 ==> Trunc(s0, s, o0, o, f, i + 1, 0, {}))
            && (b != 0 ==> b < s.g.size && Used(s, b) && WF(Freed(s, b)) && Slots(s.g) > i
                           && Trunc(s0, Cleared(Freed(s, b), f, i), o0, o - {b}, f, i + 1, 0, {}))
  {
    hide Owned, Used, BBlock, Trimmed, Rest, BitClear;
    var b, p := s.files[f].addrs[i], Slot(f, i);
    var o' := if b != 0 then o - {b} else o;
    assert Legal(s, p) && Ref(s, p) == b;
    RestNext(s, o, o', {}, p, b);
    RestSlot(s.g, o0, o, o', f, i);
    if b != 0 {
      SlotFreed(s, o, f, i);
      TrimmedTrans(s0, s, Cleared(Freed(s, b), f, i), f);
    }
  }

  lemma TruncFacts(s0: FS, s: FS, o0: Owners, o: Owners, f: nat)
    requires Trunc(s0, s, o0, o, f, s.g.nd, 0, {})
    ensures f < |s.files| && s.g.nd < |s.files[f].addrs|
  {
  }

  lemma TruncEntries(s0: FS, s: FS, o0: Owners, o: Owners, f: nat)
    requires Trunc(s0, s, o0, o, f, s.g.nd, 0, {})
    ensures Trunc(s0, s, o0, o, f, s.g.nd, 0, Entries(f, s.g.nd, 0))
  {
    assert Entries(f, s.g.nd, 0) == {};
  }

  /** The block that an inode's indirect slot names, read as numbers. */
  lemma IndirectEntry(s: FS, o: Owners, gone: set<Place>, f: nat, j: nat)
    requires Owned(s, o, gone) && f < |s.files| && j < NINDIRECT && Slot(f, s.g.nd) !in gone
    requires Ref(s, Slot(f, s.g.nd)) != 0
    ensures Ref(s, Slot(f, s.g.nd)) < |s.blk| && Legal(s, Sub(Slot(f, s.g.nd), j))
    ensures Ref(s, Sub(Slot(f, s.g.nd), j)) == Word(s.blk[Ref(s, Slot(f, s.g.nd))], j)
  {
    assert Legal(s, Slot(f, s.g.nd));
    RefRange(s, o, gone, Slot(f, s.g.nd));
  }

  lemma TruncEntry(s0: FS, s: FS, o0: Owners, o: Owners, f: nat, j: nat)
    requires Trunc(s0, s, o0, o, f, s.g.nd, j, Entries(f, s.g.nd, j)) && j < NINDIRECT
    requires f < |s.files| && s.g.nd < |s.files[f].addrs| && s.files[f].addrs[s.g.nd] != 0
    ensures WF(s) && s.files[f].addrs[s.g.nd] < |s.blk|
    ensures var b := Word(s.blk[s.files[f].addrs[s.g.nd]], j);
            && (b == 0 ==> Trunc(s0, s, o0, o, f, s.g.nd, j + 1, Entries(f, s.g.nd, j + 1)))
            && (b != 0 ==> b < s.g.size && Used(s, b)
                           && Trunc(s0, Freed(s, b), o0, o - {b}, f, s.g.nd, j + 1, Entries(f, s.g.nd, j + 1)))
  {
    hide Owned, Used, BBlock, Trimmed, Rest, Freed, Word, Entries;
    var gone, p := Entries(f, s.g.nd, j), Sub(Slot(f, s.g.nd), j);
    EntriesNext(f, s.g.nd, j);
    EntriesUnder2(f, s.g.nd, j);
    assert Ref(s, Slot(f, s.g.nd)) == s.files[f].addrs[s.g.nd];
    IndirectEntry(s, o, gone, f, j);
    var b := Ref(s, p);
    var o' := if b != 0 then o - {b} else o;
    RestNext(s, o, o', gone, p, b);
    RestEntry(s.g, o0, o, o', f, s.g.nd, j);
    EntryFreed(s, o, f, j);
    if b != 0 { TrimmedTrans(s0, s, Freed(s, b), f); }
    FreedShape(s, b);
  }

  lemma EntriesUnder2(f: nat, nd: nat, j: nat)
    ensures Slot(f, nd) !in Entries(f, nd, j)
  {
  }

  lemma FreedShape(s: FS, b: nat)
    requires WF(s)
    ensures b < s.g.size ==> WF(Freed(s, b)) && Freed(s, b).g == s.g && Freed(s, b).files == s.files
  {
  }

  lemma TruncIndirect(s0: FS, s: FS, o0: Owners, o: Owners, f: nat)
    requires Trunc(s0, s, o0, o, f, s.g.nd, NINDIRECT, Entries(f, s.g.nd, NINDIRECT))
    requires f < |s.files| && s.g.nd < |s.files[f].addrs| && s.files[f].addrs[s.g.nd] != 0
    ensures var b := s.files[f].addrs[s.g.nd];
            && WF(s) && b < s.g.size && Used(s, b) && WF(Freed(s, b)) && Slots(s.g) > s.g.nd
            && Trunc(s0, Cleared(Freed(s, b), f, s.g.nd), o0, o - {b}, f, s.g.nd + 1, NINDIRECT, {})
  {
    hide Owned, Used, BBlock, Trimmed, Rest, BitClear, Entries;
    var b, p := s.files[f].addrs[s.g.nd], Slot(f, s.g.nd);
    EntriesUnder2(f, s.g.nd, NINDIRECT);
    assert Legal(s, p) && Ref(s, p) == b;
    RestNext(s, o, o - {b}, Entries(f, s.g.nd, NINDIRECT), p, b);
    RestLast(s.g, o0, o, o - {b}, f);
    IndirectFreed(s, o, f);
    TrimmedTrans(s0, s, Cleared(Freed(s, b), f, s.g.nd), f);
  }

  lemma RestLast(g: Geometry, o0: Owners, o: Owners, o': Owners, f: nat)
    requires o == Rest(g, o0, f, g.nd, NINDIRECT)
    requires forall x :: x in o' <==> x in o && o[x] != Slot(f, g.nd)
    requires forall x | x in o' :: o'[x] == o[x]
    ensures o' == Rest(g, o0, f, g.nd + 1, NINDIRECT)
  {
  }

  /** Without an indirect block there is nothing below its slot. */
  lemma TruncNoIndirect(s0: FS, s: FS, o0: Owners, o: Owners, f: nat)
    requires Trunc(s0, s, o0, o, f, s.g.nd, 0, {}) && f < |s.files| && s.g.nd < |s.files[f].addrs|
    requires s.files[f].addrs[s.g.nd] == 0
    ensures Trunc(s0, s, o0, o, f, s.g.nd + 1, NINDIRECT, {})
  {
    assert Ref(s, Slot(f, s.g.nd)) == 0;
    forall x | x in o ensures !Cut(s.g, f, s.g.nd + 1, NINDIRECT, o[x]) {
      assert Owner(s, o, x) && !Cut(s.g, f, s.g.nd, 0, o[x]);
    }
    assert o == Rest(s.g, o0, f, s.g.nd + 1, NINDIRECT);
  }

  lemma WellFormed(s: FS, o: Owners)
    requires Owned(s, o, {})
    ensures WF(s)
  {
  }

  lemma BfreeFacts(s: FS, o: Owners, b: nat)
    requires WF(s) && b < s.g.size && Used(s, b)
    ensures WF(Freed(s, b)) && forall x | 0 <= x < s.g.size :: Used(Freed(s, b), x) <==> Used(s, x) && x != b
    ensures forall gone | Owned(s, o, gone) && NoIndex(s, gone) && b in o ::
              Owned(Freed(s, b), o - {b}, gone + {o[b]})
  {
    hide Owned, NoIndex, Used;
    forall x | 0 <= x < s.g.size ensures Used(Freed(s, b), x) <==> Used(s, x) && x != b {
      UsedFreed(s, b, x);
    }
    forall gone | Owned(s, o, gone) && NoIndex(s, gone) && b in o
      ensures Owned(Freed(s, b), o - {b}, gone + {o[b]})
    {
      OwnedFreed(s, o, gone, b);
    }
  }

  lemma GrownMapped(s: FS, s': FS)
    requires AllMapped(s) && Grown(s, s')
    ensures AllMapped(s')
  {
    hide Ref, IsIndex, DataPlace, MaxFile;
    forall f | 0 <= f < |s'.files| ensures Mapped(s', f) {
      assert Mapped(s, f);
      forall n: nat | n * BSIZE < s'.files[f].size ensures Where(s', f, n) != 0 {
        assert Where(s, f, n) != 0;
        InRangeLegal(s, f, n);
        assert GrownAt(s, s', DataPlace(s.g, f, n));
      }
    }
  }

  lemma InRangeLegal(s: FS, f: nat, n: nat)
    requires f < |s.files| && Mapped(s, f) && n * BSIZE < s.files[f].size
    ensures n < MaxFile(s.g) && Legal(s, DataPlace(s.g, f, n))
  {
    BlockBelow(n, MaxFile(s.g));
    DataPlaceLegal(s, f, n);
  }

  lemma BlockBelow(n: nat, m: nat)
    ensures n * BSIZE < m * BSIZE ==> n < m
  {
  }

  /** The double-indirect slot is set as soon as one block below it is mapped. */
  lemma DoubleSlotSet(s: FS, f: nat, bn: nat)
    requires Where(s, f, bn) != 0 && s.g.nd + NINDIRECT <= bn
    requires f < |s.files| && |s.files[f].addrs| == Slots(s.g) && s.g.dbl
    ensures s.files[f].addrs[s.g.nd + 1] != 0
  {
    hide DataPlace, Word;
    var p := DataPlace(s.g, f, bn);
    DoublePlace(s.g, f, bn);
    NonzeroReached(s, p);
    assert Reached(s, p.up) && Reached(s, p.up.up);
  }

  lemma DoublePlace(g: Geometry, f: nat, bn: nat)
    requires g.nd + NINDIRECT <= bn
    ensures var p := DataPlace(g, f, bn); p.Sub? && p.up.Sub? && p.up.up == Slot(f, g.nd + 1)
  {
  }

  /** A file of xv7 that reached its double-indirect blocks: itrunc() sets its size to zero but
      leaves the tree below the slot allocated. */
  method TruncLeavesBlock(fs: FileSys, f: nat, bn: nat) returns (panicked: bool)
    requires fs.Valid() && fs.g.dbl && f < |fs.files| && fs.g.nd + NINDIRECT <= bn < MaxFile(fs.g)
    modifies fs
    ensures panicked ==> WF(fs.S()) && Full(fs.S()) && old(Where(fs.S(), f, bn)) == 0
    ensures !panicked ==> fs.Valid() && f < |fs.files| && fs.files[f].size == 0 && exists p :: !NoBlockAt(fs.S(), f, p)
  {
    hide Owned, AllMapped, Extended, LogPath, Full, MaxFile, DataPlace, Legal, Ref, Trimmed, Contents;
    var addr;
    ghost var s := fs.S();
    addr, panicked := fs.Bmap(f, bn);
    if !panicked {
      ExtendedGrown(s, fs.S(), DataPlace(fs.g, f, bn));
      GrownMapped(s, fs.S());
      WellFormed(fs.S(), fs.o);
      DoubleSlotSet(fs.S(), f, bn);
      fs.Itrunc(f);
    }
  }

  /** With double-indirect blocks a chunk of filewrite() can log more blocks than begin_op() reserved:
      here it reaches the first block below the double-indirect slot while the single-indirect block has
      one entry left. Five blocks are allocated, and seven blocks besides those of the bitmap and the
      inode are logged. */
  method ChunkExceeds(fs: FileSys, f: nat, src: seq<bv8>) returns (r: int, panicked: bool)
    requires fs.Valid() && f < |fs.files| && fs.g.dbl && InodeBlock(fs.g, f) < fs.g.bmapstart
    requires fs.files[f].size == (Double(fs.g) - 2) * BSIZE + 1 && fs.files[f].size + 3 * BSIZE < UINT && |src| == 3 * BSIZE
    requires Where(fs.S(), f, Double(fs.g) - 1) == 0 && Ref(fs.S(), Slot(f, fs.g.nd + 1)) == 0
    requires WF(fs.S()) && |FreeBlocks(fs.S())| >= 5 && |BitmapBlocks(fs.g, FirstOf(FreeBlocks(fs.S()), 5))| >= 3
    modifies fs
    ensures !panicked && r == |src| && fs.Valid()
    ensures |fs.logged| == 8 + |BitmapBlocks(fs.g, FirstOf(FreeBlocks(old(fs.S())), 5))| > MAXOPBLOCKS
  {
    hide Owned, AllMapped, WF, MaxFile, Full, Filling, Spliced, FreeBlocks, Ref, DataPlace, BitmapBlocks, FirstOf,
         Touched, MissingIn, Refused, BlockNo, InodeBlock;
    ExceedingWrite(fs.S(), f);
    r, panicked := fs.WriteChunk(f, src, fs.files[f].size);
  }

  /** From an empty file: one write up to the last block but one of the single-indirect range, and then
      the next chunk. Only the bitmap has to be right, and it decides how many blocks are logged. */
  method GrowAndExceed(fs: FileSys, f: nat, head: seq<bv8>, src: seq<bv8>) returns (r: int, panicked: bool)
    requires fs.Valid() && f < |fs.files| && fs.g.dbl && InodeBlock(fs.g, f) < fs.g.bmapstart
    requires fs.files[f] == Inode(0, seq(Slots(fs.g), _ => 0))
    requires |head| == (Double(fs.g) - 2) * BSIZE + 1 && |head| + 3 * BSIZE < UINT && |src| == 3 * BSIZE
    requires WF(fs.S()) && |FreeBlocks(fs.S())| >= Double(fs.g) + 5
    requires |BitmapBlocks(fs.g, FirstOf(FreeAfter(FreeBlocks(fs.S()), Double(fs.g)), 5))| >= 3
    modifies fs
    ensures !panicked && r == |src| && fs.Valid()
    ensures |fs.logged| == 8 + |BitmapBlocks(fs.g, FirstOf(FreeAfter(FreeBlocks(old(fs.S())), Double(fs.g)), 5))| > MAXOPBLOCKS
  {
    hide Owned, AllMapped, WF, MaxFile, Full, Filling, Spliced, FreeBlocks, Ref, DataPlace, BitmapBlocks, FirstOf, Refused,
         BlockNo, InodeBlock, Accepted, Wanted, Contents, FreeAfter;
    ghost var s := fs.S();
    HeadWrite(s, f, |head|);
    var ret, off;
    ghost var done;
    ret, off, panicked, done := fs.FileWrite(f, head, |head|, 0);
    HeadWritten(s, fs.S(), f, head);
    WellFormed(fs.S(), fs.o);
    r, panicked := ChunkExceeds(fs, f, src);
  }

  /** The free blocks but for the `n` lowest ones. */
  ghost function FreeAfter(free: set<nat>, n: nat): set<nat> { free - FirstOf(free, n) }

  lemma HeadWrite(s: FS, f: nat, n: nat)
    requires AllMapped(s) && f < |s.files| && s.files[f] == Inode(0, seq(Slots(s.g), _ => 0)) && s.g.dbl
    requires n == (Double(s.g) - 2) * BSIZE + 1 && n < UINT
    ensures !Refused(s, f, 0, n) && Accepted(s, f, 0, 0, n) == n && |Wanted(s, f, 0, n)| == Double(s.g)
  {
    hide Ref, DataPlace, Accepted, MissingIn;
    AcceptedIs(s, f, 0, 0, n);
    HeadBlocks(s.g, n);
    EmptyMissing(s, f, Double(s.g) - 1);
  }

  lemma HeadBlocks(g: Geometry, n: nat)
    requires n == (Double(g) - 2) * BSIZE + 1
    ensures BlockNo(0) == 0 && LastBlock(0, n) == Double(g) - 1
  {
  }

  lemma HeadWritten(s: FS, s': FS, f: nat, head: seq<bv8>)
    requires f < |s.files| && s.files[f] == Inode(0, seq(Slots(s.g), _ => 0)) && s.g.dbl
    requires |head| == (Double(s.g) - 2) * BSIZE + 1 && |Wanted(s, f, 0, |head|)| == Double(s.g)
    requires Filling(s, s', Wanted(s, f, 0, |head|)) && Spliced(s, s', f, 0, head[..|head|])
    ensures f < |s'.files| && s'.g == s.g && s'.files[f].size == |head|
    ensures Where(s', f, Double(s.g) - 1) == 0 && Ref(s', Slot(f, s.g.nd + 1)) == 0
    ensures WF(s) && WF(s') && FreeBlocks(s') == FreeAfter(FreeBlocks(s), Double(s.g))
    ensures |FreeBlocks(s')| == |FreeBlocks(s)| - Double(s.g)
  {
    hide Filling, Spliced, Contents, WF, FreeBlocks, FirstOf, MissingIn, Legal, Blocks, DataPlace, Ref, BlockNo;
    var d := Wanted(s, f, 0, |head|);
    SplicedSize(s, s', f, 0, head[..|head|]);
    FillingParts(s, s', d);
    FillingCount(s, s', d);
    HeadBlocks(s.g, |head|);
    HeadPlaces(s, s', f, d);
  }

  lemma HeadPlaces(s: FS, s': FS, f: nat, d: set<Place>)
    requires f < |s.files| && s.files[f].addrs == seq(Slots(s.g), _ => 0) && s.g.dbl && s'.g == s.g
    requires d == MissingIn(s, f, 0, Double(s.g) - 1) && Filling(s, s', d)
    ensures Where(s', f, Double(s.g) - 1) == 0 && Ref(s', Slot(f, s.g.nd + 1)) == 0
  {
    hide Filling, MissingIn, Legal, DataPlace, Ref;
    EmptyPlaces(s, f, Double(s.g) - 1);
    TwoEmpty(s, f);
    FilledStays(s, s', d, DataPlace(s.g, f, Double(s.g) - 1));
    FilledStays(s, s', d, Slot(f, s.g.nd + 1));
  }

  /** The places after the written ones. */
  lemma TwoEmpty(s: FS, f: nat)
    requires f < |s.files| && s.files[f].addrs == seq(Slots(s.g), _ => 0) && s.g.dbl
    ensures var last, top := DataPlace(s.g, f, Double(s.g) - 1), Slot(f, s.g.nd + 1);
            && Legal(s, last) && Legal(s, top) && Ref(s, last) == 0 && Ref(s, top) == 0
            && last == Sub(Slot(f, s.g.nd), 255)
  {
  }

  /** How many places the first `k` blocks of an empty file need. */
  lemma {:induction false} EmptyMissing(s: FS, f: nat, k: nat)
    requires f < |s.files| && s.files[f].addrs == seq(Slots(s.g), _ => 0) && k <= Double(s.g)
    ensures |MissingIn(s, f, 0, k)| == if k <= s.g.nd then k else k + 1
  {
    hide MissingOn, Ref, DataPlace, Needed;
    if k > 0 {
      EmptyMissing(s, f, k - 1);
      EmptyPlaces(s, f, k - 1);
      EmptyOn(s, f, k - 1);
      var m, i, x := MissingIn(s, f, 0, k - 1), Slot(f, s.g.nd), LastPlace(s.g, f, k);
      NotNeeded(s.g, f, k, i, x);
      if k <= s.g.nd {
        OneMore(m, x);
      } else if k == s.g.nd + 1 {
        OneMore(m, i);
        OneMore(m + {i}, x);
        assert MissingIn(s, f, 0, k) == m + {i} + {x};
      } else {
        SlotMissing(s, f, k - 1);
        OneMore(m, x);
        assert MissingIn(s, f, 0, k) == m + {x};
      }
    }
  }

  function LastPlace(g: Geometry, f: nat, k: nat): Place
    requires k > 0
  {
    if k <= g.nd then Slot(f, k - 1) else Sub(Slot(f, g.nd), k - 1 - g.nd)
  }

  predicate Needed(g: Geometry, f: nat, k: nat, v: Place) {
    if v.Slot? then v.i <= g.nd && (v.i == g.nd ==> k > g.nd) && (v.i < g.nd ==> v.i < k)
    else v.up == Slot(f, g.nd) && v.j + g.nd < k
  }

  lemma NotNeeded(g: Geometry, f: nat, k: nat, i: Place, x: Place)
    requires 0 < k <= Double(g) && i == Slot(f, g.nd) && x == LastPlace(g, f, k)
    ensures !Needed(g, f, k - 1, x) && x != i && (k <= g.nd + 1 ==> !Needed(g, f, k - 1, i))
  {
  }

  lemma {:induction false} EmptyPlaces(s: FS, f: nat, k: nat)
    requires f < |s.files| && s.files[f].addrs == seq(Slots(s.g), _ => 0) && k <= Double(s.g)
    ensures forall v | v in MissingIn(s, f, 0, k) :: Needed(s.g, f, k, v)
  {
    hide MissingOn, Ref, DataPlace;
    if k > 0 {
      EmptyPlaces(s, f, k - 1);
      EmptyOn(s, f, k - 1);
    }
  }

  lemma EmptyOn(s: FS, f: nat, k: nat)
    requires f < |s.files| && s.files[f].addrs == seq(Slots(s.g), _ => 0) && k < Double(s.g)
    ensures MissingOn(s, DataPlace(s.g, f, k)) ==
            if k < s.g.nd then {Slot(f, k)} else {Slot(f, s.g.nd), Sub(Slot(f, s.g.nd), k - s.g.nd)}
  {
    hide MissingOn;
    if k < s.g.nd {
      NeedSlot(s, Slot(f, k));
    } else {
      NeedSlot(s, Slot(f, s.g.nd));
      MissingStep(s, Sub(Slot(f, s.g.nd), k - s.g.nd));
    }
  }

  lemma {:induction false} SlotMissing(s: FS, f: nat, k: nat)
    requires f < |s.files| && s.files[f].addrs == seq(Slots(s.g), _ => 0) && s.g.nd < k < Double(s.g)
    ensures Slot(f, s.g.nd) in MissingIn(s, f, 0, k)
  {
    hide MissingOn, Ref;
    EmptyOn(s, f, k - 1);
  }

  lemma ExceedingWrite(s: FS, f: nat)
    requires AllMapped(s) && f < |s.files| && s.g.dbl && s.files[f].size == (Double(s.g) - 2) * BSIZE + 1
    requires s.files[f].size + 3 * BSIZE < UINT && Where(s, f, Double(s.g) - 1) == 0 && Ref(s, Slot(f, s.g.nd + 1)) == 0
    ensures var off, n, d := s.files[f].size, 3 * BSIZE, Double(s.g);
            && !Refused(s, f, off, n) && BlockNo(off) == d - 2 && LastBlock(off, n) == d + 2
            && |Touched(s, f, d - 2, d + 2)| == 7 && |MissingIn(s, f, d - 2, d + 2)| == 5
  {
    hide Ref, DataPlace, Touched, MissingIn;
    assert Mapped(s, f);
    assert Where(s, f, Double(s.g) - 2) != 0;
    BeyondSingle(s, f);
  }

  lemma ExtendedGrown(s: FS, s': FS, p: Place)
    requires Extended(s, s', p)
    ensures Grown(s, s')
  {
  }

  lemma TruncEnd(s0: FS, s: FS, o0: Owners, o: Owners, f: nat)
    requires Trunc(s0, s, o0, o, f, s.g.nd + 1, NINDIRECT, {}) && Owned(s0, o0, {}) && AllMapped(s0)
    ensures f < |s.files| == |s0.files| && o == Rest(s.g, o0, f, s.g.nd + 1, NINDIRECT)
    ensures var s' := WithSize(s, f, 0);
            && Owned(s', o, {}) && AllMapped(s') && Trimmed(s0, s', f)
            && |s'.files[f].addrs| == Slots(s.g) == |s0.files[f].addrs|
            && (forall h | 0 <= h < |s.files| && h != f :: Contents(s', h) == Contents(s0, h))
            && (forall i | 0 <= i <= s.g.nd :: s'.files[f].addrs[i] == 0)
            && (s.g.dbl ==> s'.files[f].addrs[s.g.nd + 1] == s0.files[f].addrs[s.g.nd + 1])
  {
    hide Owned, Contents, Mapped, Rest;
    var s' := WithSize(s, f, 0);
    OwnedWithSize(s, o, f, 0);
    forall h | 0 <= h < |s.files| ensures Mapped(s', h) && (h != f ==> Contents(s', h) == Contents(s0, h)) {
      if h != f { ContentsTrimmed(s0, s', o0, f, h); } else { EmptyMapped(s', f); }
    }
  }

  lemma EmptyMapped(s: FS, f: nat)
    requires f < |s.files| && s.files[f].size == 0
    ensures Mapped(s, f)
  {
  }
}
