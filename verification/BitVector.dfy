// Packed bit vectors: eight flags to a byte, as xv7/kernel/buddy.c and the block bitmap of
// xv6/kernel/fs.c keep them.

module BitVector {
  type Bits = seq<bv8>

  function Mask(j: nat): bv8
    requires j < 8
  {
    match j
    case 0 => 1 case 1 => 2 case 2 => 4 case 3 => 8 case 4 => 16 case 5 => 32 case 6 => 64 case _ => 128
  }

  predicate ByteIsSet(b: bv8, m: nat)
    requires m < 8
  {
    b & Mask(m) == Mask(m)
  }

  function ByteSet(b: bv8, m: nat): bv8
    requires m < 8
  {
    b | Mask(m)
  }

  function ByteClear(b: bv8, m: nat): bv8
    requires m < 8
  {
    b & !Mask(m)
  }

  lemma ByteOps(b: bv8, m: nat, j: nat)
    requires j < 8 && m < 8
    ensures ByteIsSet(ByteSet(b, m), j) <==> ByteIsSet(b, j) || j == m
    ensures ByteIsSet(ByteClear(b, m), j) <==> ByteIsSet(b, j) && j != m
  {
    hide ByteIsSet, ByteSet, ByteClear;
    ByteSetOp(b, m, j);
    ByteClearOp(b, m, j);
  }

  lemma ByteSetOp(b: bv8, m: nat, j: nat)
    requires j < 8 && m < 8
    ensures ByteIsSet(ByteSet(b, m), j) <==> ByteIsSet(b, j) || j == m
  {
  }

  lemma ByteClearOp(b: bv8, m: nat, j: nat)
    requires j < 8 && m < 8
    ensures ByteIsSet(ByteClear(b, m), j) <==> ByteIsSet(b, j) && j != m
  {
  }

  /** bit_isset; the test in balloc() and bfree() */
  predicate BitIsSet(a: Bits, i: nat)
    requires i / 8 < |a|
  {
    ByteIsSet(a[i / 8], i % 8)
  }

  /** bit_set */
  function BitSet(a: Bits, i: nat): Bits
    requires i / 8 < |a|
  {
    a[i / 8 := ByteSet(a[i / 8], i % 8)]
  }

  /** bit_clear */
  function BitClear(a: Bits, i: nat): Bits
    requires i / 8 < |a|
  {
    a[i / 8 := ByteClear(a[i / 8], i % 8)]
  }

  /** Setting or clearing a bit leaves all others alone. */
  lemma BitOps(a: Bits, i: nat, j: nat)
    requires i / 8 < |a| && j / 8 < |a|
    ensures BitIsSet(BitSet(a, i), j) <==> BitIsSet(a, j) || j == i
    ensures BitIsSet(BitClear(a, i), j) <==> BitIsSet(a, j) && j != i
  {
    hide ByteIsSet, ByteSet, ByteClear;
    SamePlace(i, j);
    ByteOps(a[i / 8], i % 8, j % 8);
  }

  lemma SamePlace(i: nat, j: nat)
    ensures j == i <==> j / 8 == i / 8 && j % 8 == i % 8
  {
  }
}
