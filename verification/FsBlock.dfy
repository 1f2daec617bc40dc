// Disk blocks of the file system: 1024 bytes, read as little-endian words where a block holds
// block numbers, and as packed bits where it holds part of the block bitmap.

module FsBlock {
  import opened BitVector

  const BSIZE := 1024
  const NINDIRECT := 256
  const BPB := 8192

  type Block = b: Bits | |b| == BSIZE witness Zeros()

  function Zeros(): Bits { seq(1024, _ => 0 as bv8) }

  /** What bzero() leaves. */
  function Zero(): (b: Block)
    ensures forall i | 0 <= i < BSIZE :: b[i] == 0
  {
    Zeros()
  }

  // ---- bytes as numbers -------------------------------------------------------------------------------------

  function One(on: bool): nat { if on then 1 else 0 }

  function Join(b0: nat, b1: nat, b2: nat, b3: nat, b4: nat, b5: nat, b6: nat, b7: nat): nat {
    b0 + 2 * b1 + 4 * b2 + 8 * b3 + 16 * b4 + 32 * b5 + 64 * b6 + 128 * b7
  }

  /** The number that a byte stands for. */
  function ByteValue(b: bv8): nat {
    Join(One(ByteIsSet(b, 0)), One(ByteIsSet(b, 1)), One(ByteIsSet(b, 2)), One(ByteIsSet(b, 3)),
         One(ByteIsSet(b, 4)), One(ByteIsSet(b, 5)), One(ByteIsSet(b, 6)), One(ByteIsSet(b, 7)))
  }

  function BitByte(on: bool, weight: bv8): bv8 { if on then weight else 0 }

  function FromBits(b0: bool, b1: bool, b2: bool, b3: bool, b4: bool, b5: bool, b6: bool, b7: bool): bv8 {
    BitByte(b0, 1) | BitByte(b1, 2) | BitByte(b2, 4) | BitByte(b3, 8)
    | BitByte(b4, 16) | BitByte(b5, 32) | BitByte(b6, 64) | BitByte(b7, 128)
  }

  predicate Odd(x: nat) { x % 2 == 1 }

  function Half(x: nat): nat { x / 2 }

  lemma HalfOdd(x: nat)
    ensures x == 2 * Half(x) + One(Odd(x)) && One(Odd(x)) <= 1
  {
  }

  /** The byte for the number `x % 256`. */
  function ByteOf(x: nat): bv8 {
    var x1 := Half(x); var x2 := Half(x1); var x3 := Half(x2); var x4 := Half(x3);
    var x5 := Half(x4); var x6 := Half(x5); var x7 := Half(x6);
    FromBits(Odd(x), Odd(x1), Odd(x2), Odd(x3), Odd(x4), Odd(x5), Odd(x6), Odd(x7))
  }

  lemma FromBitsBack(b0: bool, b1: bool, b2: bool, b3: bool, b4: bool, b5: bool, b6: bool, b7: bool)
    ensures var b := FromBits(b0, b1, b2, b3, b4, b5, b6, b7);
            && ByteIsSet(b, 0) == b0 && ByteIsSet(b, 1) == b1 && ByteIsSet(b, 2) == b2 && ByteIsSet(b, 3) == b3
            && ByteIsSet(b, 4) == b4 && ByteIsSet(b, 5) == b5 && ByteIsSet(b, 6) == b6 && ByteIsSet(b, 7) == b7
  {
  }

  lemma ByteBack(x: nat)
    requires x < 256
    ensures ByteValue(ByteOf(x)) == x
  {
    var x1 := Half(x); var x2 := Half(x1); var x3 := Half(x2); var x4 := Half(x3);
    var x5 := Half(x4); var x6 := Half(x5); var x7 := Half(x6);
    hide Half, Odd, One, FromBits, ByteIsSet, Join;
    FromBitsBack(Odd(x), Odd(x1), Odd(x2), Odd(x3), Odd(x4), Odd(x5), Odd(x6), Odd(x7));
    HalfOdd(x);
    HalfOdd(x1);
    HalfOdd(x2);
    HalfOdd(x3);
    HalfOdd(x4);
    HalfOdd(x5);
    HalfOdd(x6);
    HalfOdd(x7);
    JoinHalves(x, x1, x2, x3, x4, x5, x6, x7, Half(x7), One(Odd(x)), One(Odd(x1)), One(Odd(x2)), One(Odd(x3)),
               One(Odd(x4)), One(Odd(x5)), One(Odd(x6)), One(Odd(x7)));
  }

  lemma JoinHalves(x0: nat, x1: nat, x2: nat, x3: nat, x4: nat, x5: nat, x6: nat, x7: nat, x8: nat,
                   b0: nat, b1: nat, b2: nat, b3: nat, b4: nat, b5: nat, b6: nat, b7: nat)
    requires x0 < 256 && x0 == 2 * x1 + b0 && x1 == 2 * x2 + b1 && x2 == 2 * x3 + b2 && x3 == 2 * x4 + b3
    requires x4 == 2 * x5 + b4 && x5 == 2 * x6 + b5 && x6 == 2 * x7 + b6 && x7 == 2 * x8 + b7
    ensures Join(b0, b1, b2, b3, b4, b5, b6, b7) == x0
  {
  }

  // ---- words ------------------------------------------------------------------------------------------------

  function Digit(v: nat, d: nat): (r: nat)
    requires d > 0
    ensures r < 256
  {
    (v / d) % 256
  }

  /** ((uint*)b)[j] */
  function Word(b: Block, j: nat): nat
    requires j < NINDIRECT
  {
    ByteValue(b[4 * j]) + 256 * ByteValue(b[4 * j + 1])
    + 65536 * ByteValue(b[4 * j + 2]) + 16777216 * ByteValue(b[4 * j + 3])
  }

  function SetWord(b: Block, j: nat, v: nat): Block
    requires j < NINDIRECT && v < 0x1_0000_0000
  {
    b[4 * j := ByteOf(Digit(v, 1))][4 * j + 1 := ByteOf(Digit(v, 256))]
     [4 * j + 2 := ByteOf(Digit(v, 65536))][4 * j + 3 := ByteOf(Digit(v, 16777216))]
  }

  lemma DigitsBack(v: nat)
    requires v < 0x1_0000_0000
    ensures Digit(v, 1) + 256 * Digit(v, 256) + 65536 * Digit(v, 65536) + 16777216 * Digit(v, 16777216) == v
  {
    var a, b, c := v / 256, v / 65536, v / 16777216;
    assert b == a / 256 && c == b / 256;
  }

  /** A stored block number reads back, the others are as before. */
  lemma WordOps(b: Block, j: nat, v: nat, i: nat)
    requires j < NINDIRECT && i < NINDIRECT && v < 0x1_0000_0000
    ensures Word(SetWord(b, j, v), i) == if i == j then v else Word(b, i)
  {
    WordBytes(b, j, v, i);
    ByteBack(Digit(v, 1));
    ByteBack(Digit(v, 256));
    ByteBack(Digit(v, 65536));
    ByteBack(Digit(v, 16777216));
    DigitsBack(v);
    hide ByteValue, ByteOf, Digit, SetWord;
  }

  lemma WordBytes(b: Block, j: nat, v: nat, i: nat)
    requires j < NINDIRECT && i < NINDIRECT && v < 0x1_0000_0000
    ensures var w := SetWord(b, j, v);
            if i == j then w[4 * i] == ByteOf(Digit(v, 1)) && w[4 * i + 1] == ByteOf(Digit(v, 256))
                           && w[4 * i + 2] == ByteOf(Digit(v, 65536)) && w[4 * i + 3] == ByteOf(Digit(v, 16777216))
            else w[4 * i] == b[4 * i] && w[4 * i + 1] == b[4 * i + 1]
                 && w[4 * i + 2] == b[4 * i + 2] && w[4 * i + 3] == b[4 * i + 3]
  {
    hide ByteOf, Digit;
  }

  lemma ZeroByte()
    ensures ByteValue(0) == 0
  {
    assert ByteOf(0) == 0;
    ByteBack(0);
  }

  lemma ZeroWord(j: nat)
    requires j < NINDIRECT
    ensures Word(Zero(), j) == 0
  {
    var z := Zero();
    ZeroByte();
    assert z[4 * j] == 0 && z[4 * j + 1] == 0 && z[4 * j + 2] == 0 && z[4 * j + 3] == 0;
  }
}
