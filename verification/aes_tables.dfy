/** The substitution tables of aes.c, and what FIPS 197 section 5.1.1 says they hold. */
module AesTables {
  import opened AesField

  /** Row h of the table sbox, its sixteen bytes from left to right. */
  function SboxRow(h: bv8): bv128 {
    match h
    case 0 => 0x637c777bf26b6fc53001672bfed7ab76
    case 1 => 0xca82c97dfa5947f0add4a2af9ca472c0
    case 2 => 0xb7fd9326363ff7cc34a5e5f171d83115
    case 3 => 0x04c723c31896059a071280e2eb27b275
    case 4 => 0x09832c1a1b6e5aa0523bd6b329e32f84
    case 5 => 0x53d100ed20fcb15b6acbbe394a4c58cf
    case 6 => 0xd0efaafb434d338545f9027f503c9fa8
    case 7 => 0x51a3408f929d38f5bcb6da2110fff3d2
    case 8 => 0xcd0c13ec5f974417c4a77e3d645d1973
    case 9 => 0x60814fdc222a908846eeb814de5e0bdb
    case 10 => 0xe0323a0a4906245cc2d3ac629195e479
    case 11 => 0xe7c8376d8dd54ea96c56f4ea657aae08
    case 12 => 0xba78252e1ca6b4c6e8dd741f4bbd8b8a
    case 13 => 0x703eb5664803f60e613557b986c11d9e
    case 14 => 0xe1f8981169d98e949b1e87e9ce5528df
    case _ => 0x8ca1890dbfe6426841992d0fb054bb16
  }

  function Sbox(x: bv8): bv8 {
    ((SboxRow(x >> 4) >> (120 - 8 * (x & 0x0F))) & 0xFF) as bv8
  }

  function RSboxRow(h: bv8): bv128 {
    match h
    case 0 => 0x52096ad53036a538bf40a39e81f3d7fb
    case 1 => 0x7ce339829b2fff87348e4344c4dee9cb
    case 2 => 0x547b9432a6c2233dee4c950b42fac34e
    case 3 => 0x082ea16628d924b2765ba2496d8bd125
    case 4 => 0x72f8f66486689816d4a45ccc5d65b692
    case 5 => 0x6c704850fdedb9da5e154657a78d9d84
    case 6 => 0x90d8ab008cbcd30af7e45805b8b34506
    case 7 => 0xd02c1e8fca3f0f02c1afbd0301138a6b
    case 8 => 0x3a9111414f67dcea97f2cfcef0b4e673
    case 9 => 0x96ac7422e7ad3585e2f937e81c75df6e
    case 10 => 0x47f11a711d29c5896fb7620eaa18be1b
    case 11 => 0xfc563e4bc6d279209adbc0fe78cd5af4
    case 12 => 0x1fdda8338807c731b11210592780ec5f
    case 13 => 0x60517fa919b54a0d2de57a9f93c99cef
    case 14 => 0xa0e03b4dae2af5b0c8ebbb3c83539961
    case _ => 0x172b047eba77d626e169146355210c7d
  }

  function RSbox(x: bv8): bv8 {
    ((RSboxRow(x >> 4) >> (120 - 8 * (x & 0x0F))) & 0xFF) as bv8
  }

  // ---- the two tables invert each other ----

  lemma RSboxUndoesSboxBelow(x: bv8)
    requires x < 0x80
    ensures RSbox(Sbox(x)) == x
  {
  }

  lemma RSboxUndoesSboxAbove(x: bv8)
    requires 0x80 <= x
    ensures RSbox(Sbox(x)) == x
  {
  }

  lemma RSboxUndoesSbox(x: bv8)
    ensures RSbox(Sbox(x)) == x
  {
    if x < 0x80 { RSboxUndoesSboxBelow(x); } else { RSboxUndoesSboxAbove(x); }
  }

  lemma SboxUndoesRSboxBelow(x: bv8)
    requires x < 0x80
    ensures Sbox(RSbox(x)) == x
  {
  }

  lemma SboxUndoesRSboxAbove(x: bv8)
    requires 0x80 <= x
    ensures Sbox(RSbox(x)) == x
  {
  }

  lemma SboxUndoesRSbox(x: bv8)
    ensures Sbox(RSbox(x)) == x
  {
    if x < 0x80 { SboxUndoesRSboxBelow(x); } else { SboxUndoesRSboxAbove(x); }
  }

  // ---- the table is the one of FIPS 197 section 5.1.1 ----

  function RotL(y: bv8, n: bv8): bv8
    requires 0 < n < 8
  {
    (y << n) | (y >> (8 - n))
  }

  /** The affine transformation over GF(2) that follows the inversion. */
  function Affine(y: bv8): bv8 {
    y ^ RotL(y, 1) ^ RotL(y, 2) ^ RotL(y, 3) ^ RotL(y, 4) ^ 0x63
  }

  function UndoAffine(z: bv8): bv8 {
    RotL(z, 1) ^ RotL(z, 3) ^ RotL(z, 6) ^ 0x05
  }

  /** y is the multiplicative inverse of x, where {00} maps to itself. */
  predicate IsInverse(x: bv8, y: bv8) {
    if x == 0 then y == 0 else GfMul(x, y) == 1
  }

  lemma AffineUndone(z: bv8)
    ensures Affine(UndoAffine(z)) == z
  {
  }

  lemma TableHoldsInverseBelow(x: bv8)
    requires x < 0x80
    ensures IsInverse(x, UndoAffine(Sbox(x)))
  {
  }

  lemma TableHoldsInverseAbove(x: bv8)
    requires 0x80 <= x
    ensures IsInverse(x, UndoAffine(Sbox(x)))
  {
  }

  lemma TableHoldsInverse(x: bv8)
    ensures IsInverse(x, UndoAffine(Sbox(x)))
  {
    hide IsInverse, UndoAffine, Sbox;
    if x < 0x80 { TableHoldsInverseBelow(x); } else { TableHoldsInverseAbove(x); }
  }

  /** Every entry of the table is the affine image of the multiplicative inverse of its index. */
  lemma SboxIsFips(x: bv8)
    ensures exists y :: IsInverse(x, y) && Sbox(x) == Affine(y)
  {
    TableHoldsInverse(x);
    AffineUndone(Sbox(x));
  }
}
