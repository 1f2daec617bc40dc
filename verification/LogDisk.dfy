// On-disk format of the write-ahead log (xv6/kernel/log.c, xv6/kernel/fs.h) and what
// recovery makes of a disk image.

module LogDisk {
  import opened Common

  const LOGSIZE := 30
  const BWORDS := 256  // 1024-byte blocks seen as 32-bit words

  type Word = w: nat | w < 0x1_0000_0000

  type Words = b: seq<Word> | |b| == BWORDS witness seq(BWORDS, _ => 0)

  type Disk = seq<Words>

  /** The superblock fields that the log uses: `start` is sb.logstart, `size` is sb.nlog. */
  datatype LogArea = LogArea(diskSize: Word, start: nat, size: nat)

  ghost predicate ValidArea(g: LogArea) {
    1 <= g.size && g.start + g.size <= g.diskSize
  }

  /** A home block: any block outside the log area. */
  ghost predicate Home(g: LogArea, b: int) {
    0 <= b < g.diskSize && !(g.start <= b < g.start + g.size)
  }

  // ---- header block -------------------------------------------------------------------

  ghost predicate HeaderFits(h: Words) {
    h[0] <= LOGSIZE
  }

  /** The in-memory header that read_head obtains from header block `h`. */
  function DecodeHeader(h: Words): seq<Word>
    requires HeaderFits(h)
  {
    h[1..1 + h[0]]
  }

  /** What write_head leaves in header block `h`: words beyond the last entry keep their value. */
  function EncodeHeader(h: Words, lh: seq<Word>): Words
    requires |lh| <= LOGSIZE
  {
    [|lh|] + lh + h[1 + |lh|..]
  }

  lemma HeaderRoundTrip(h: Words, lh: seq<Word>)
    requires |lh| <= LOGSIZE
    ensures HeaderFits(EncodeHeader(h, lh)) && DecodeHeader(EncodeHeader(h, lh)) == lh
  {
    var e: seq<Word> := EncodeHeader(h, lh);
    assert e[1..1 + |lh|] == lh;
  }

  // ---- well-formed images and recovery -------------------------------------------------

  /** A block list that a commit may put in the header. */
  ghost predicate ValidList(g: LogArea, lh: seq<Word>) {
    |lh| <= LOGSIZE && |lh| <= g.size - 1 && NoDup(lh) && forall i :: 0 <= i < |lh| ==> Home(g, lh[i])
  }

  ghost predicate ValidImage(g: LogArea, d: Disk) {
    && ValidArea(g)
    && |d| == g.diskSize
    && HeaderFits(d[g.start])
    && ValidList(g, DecodeHeader(d[g.start]))
  }

  /** The image after install_trans has copied the first `k` logged blocks home. */
  function Install(g: LogArea, d: Disk, lh: seq<Word>, k: nat): (r: Disk)
    requires ValidArea(g) && |d| == g.diskSize && ValidList(g, lh) && k <= |lh|
    ensures |r| == |d|
    ensures forall b :: 0 <= b < |d| && b !in lh[..k] ==> r[b] == d[b]
  {
    if k == 0 then d
    else
      var p := Install(g, d, lh, k - 1);
      p[lh[k - 1] := p[g.start + k]]
  }

  lemma {:induction false} InstallCopies(g: LogArea, d: Disk, lh: seq<Word>, k: nat, j: nat)
    requires ValidArea(g) && |d| == g.diskSize && ValidList(g, lh) && j < k <= |lh|
    ensures Install(g, d, lh, k)[lh[j]] == d[g.start + 1 + j]
  {
    var p := Install(g, d, lh, k - 1);
    assert g.start + k !in lh[..k - 1] by {
      forall i | 0 <= i < k - 1 ensures lh[i] != g.start + k { assert Home(g, lh[i]); }
    }
    if j < k - 1 {
      InstallCopies(g, d, lh, k - 1, j);
    }
  }

  /** The disk that recover_from_log leaves when it runs on image `d` without interruption. */
  function Recover(g: LogArea, d: Disk): (r: Disk)
    requires ValidImage(g, d)
    ensures |r| == |d|
  {
    var lh := DecodeHeader(d[g.start]);
    var p := Install(g, d, lh, |lh|);
    p[g.start := EncodeHeader(p[g.start], [])]
  }

  /** A crash now would be recovered to home contents `target`: a logged block is taken from
      its log slot, any other home block from its home location. */
  ghost predicate RecoversTo(g: LogArea, d: Disk, target: Disk) {
    && ValidImage(g, d)
    && |target| == |d|
    && var lh := DecodeHeader(d[g.start]);
       (forall j :: 0 <= j < |lh| ==> d[g.start + 1 + j] == target[lh[j]])
       && (forall b :: Home(g, b) && b !in lh ==> d[b] == target[b])
  }

  /** What recovery leaves in home block `b`. */
  lemma RecoverAt(g: LogArea, d: Disk, b: Word)
    requires ValidImage(g, d) && Home(g, b)
    ensures var lh := DecodeHeader(d[g.start]);
            && (b !in lh ==> Recover(g, d)[b] == d[b])
            && (forall j :: 0 <= j < |lh| && lh[j] == b ==> Recover(g, d)[b] == d[g.start + 1 + j])
  {
    var lh := DecodeHeader(d[g.start]);
    var p := Install(g, d, lh, |lh|);
    assert lh[..|lh|] == lh;
    assert Recover(g, d)[b] == p[b];
    forall j | 0 <= j < |lh| && lh[j] == b ensures p[b] == d[g.start + 1 + j] {
      InstallCopies(g, d, lh, |lh|, j);
    }
  }

  /** RecoversTo says exactly what recovery does to the home blocks. */
  lemma RecoversToIsRecover(g: LogArea, d: Disk, target: Disk)
    requires ValidImage(g, d) && |target| == |d|
    ensures RecoversTo(g, d, target) <==> (forall b :: Home(g, b) ==> Recover(g, d)[b] == target[b])
  {
    hide Recover, EncodeHeader, NoDup;
    var r, lh := Recover(g, d), DecodeHeader(d[g.start]);
    forall b | Home(g, b)
      ensures b !in lh ==> r[b] == d[b]
      ensures forall j :: 0 <= j < |lh| && lh[j] == b ==> r[b] == d[g.start + 1 + j]
    {
      RecoverAt(g, d, b);
    }
    forall j | 0 <= j < |lh| ensures r[lh[j]] == d[g.start + 1 + j] {
      assert Home(g, lh[j]);
    }
  }
}
