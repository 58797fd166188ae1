/** The block cipher of FIPS 197, sections 5.1 and 5.3, as functions on a block.
    Byte 4*c + r of a block is the entry in row r and column c of the state. */
module AesSpec {
  import opened AesField
  import opened AesTables

  type Block = s: seq<bv8> | |s| == 16 witness seq(16, _ => 0)

  // ---- the four transformations and their inverses ----

  function SubBytes(s: Block): Block {
    seq(16, k requires 0 <= k < 16 => Sbox(s[k]))
  }

  function InvSubBytes(s: Block): Block {
    seq(16, k requires 0 <= k < 16 => RSbox(s[k]))
  }

  /** Row r moves r columns to the left. */
  function ShiftRows(s: Block): Block {
    [s[0], s[5], s[10], s[15],
     s[4], s[9], s[14], s[3],
     s[8], s[13], s[2], s[7],
     s[12], s[1], s[6], s[11]]
  }

  /** Row r moves r columns to the right. */
  function InvShiftRows(s: Block): Block {
    [s[0], s[13], s[10], s[7],
     s[4], s[1], s[14], s[11],
     s[8], s[5], s[2], s[15],
     s[12], s[9], s[6], s[3]]
  }

  type Word = c: seq<bv8> | |c| == 4 witness [0, 0, 0, 0]

  function Column(s: Block, j: nat): Word
    requires j < 4
  {
    s[4 * j..4 * j + 4]
  }

  function MixColumn(c: Word): Word {
    [MixByte(c[0], c[1], c[2], c[3]), MixByte(c[1], c[2], c[3], c[0]),
     MixByte(c[2], c[3], c[0], c[1]), MixByte(c[3], c[0], c[1], c[2])]
  }

  function InvMixColumn(c: Word): Word {
    [InvMixByte(c[0], c[1], c[2], c[3]), InvMixByte(c[1], c[2], c[3], c[0]),
     InvMixByte(c[2], c[3], c[0], c[1]), InvMixByte(c[3], c[0], c[1], c[2])]
  }

  function MapColumns(f: Word -> Word, s: Block): Block {
    f(Column(s, 0)) + f(Column(s, 1)) + f(Column(s, 2)) + f(Column(s, 3))
  }

  function MixColumns(s: Block): Block {
    MapColumns(MixColumn, s)
  }

  function InvMixColumns(s: Block): Block {
    MapColumns(InvMixColumn, s)
  }

  /** The schedule w holds the round keys one after the other. */
  function AddRoundKey(s: Block, w: seq<bv8>, round: nat): Block
    requires 16 * (round + 1) <= |w|
  {
    seq(16, k requires 0 <= k < 16 => s[k] ^ w[16 * round + k])
  }

  // ---- the cipher and its inverse ----

  /** The state after the initial key addition and `round` full rounds. */
  function Rounds(s: Block, w: seq<bv8>, round: nat): Block
    requires 16 * (round + 1) <= |w|
  {
    if round == 0 then AddRoundKey(s, w, 0)
    else AddRoundKey(MixColumns(ShiftRows(SubBytes(Rounds(s, w, round - 1)))), w, round)
  }

  function Cipher(s: Block, w: seq<bv8>, nr: nat): Block
    requires 1 <= nr && 16 * (nr + 1) <= |w|
  {
    AddRoundKey(ShiftRows(SubBytes(Rounds(s, w, nr - 1))), w, nr)
  }

  /** What is left of the inverse cipher when it is about to undo round `round + 1`. */
  function InvRounds(s: Block, w: seq<bv8>, round: nat): Block
    requires 16 * (round + 1) <= |w|
    decreases round
  {
    var t := AddRoundKey(InvSubBytes(InvShiftRows(s)), w, round);
    if round == 0 then t else InvRounds(InvMixColumns(t), w, round - 1)
  }

  function InvCipher(s: Block, w: seq<bv8>, nr: nat): Block
    requires 1 <= nr && 16 * (nr + 1) <= |w|
  {
    InvRounds(AddRoundKey(s, w, nr), w, nr - 1)
  }

  // ---- the two moves row by row, as chains of entries that are overwritten ----

  function Row1Left(s: Block): Block {
    s[1 := s[5]][5 := s[9]][9 := s[13]][13 := s[1]]
  }

  function Row1Right(s: Block): Block {
    s[13 := s[9]][9 := s[5]][5 := s[1]][1 := s[13]]
  }

  /** Row 2 moves by two columns, which is the same to the left and to the right. */
  function Row2(s: Block): Block {
    s[2 := s[10]][10 := s[2]][6 := s[14]][14 := s[6]]
  }

  function Row3Left(s: Block): Block {
    s[3 := s[15]][15 := s[11]][11 := s[7]][7 := s[3]]
  }

  function Row3Right(s: Block): Block {
    s[3 := s[7]][7 := s[11]][11 := s[15]][15 := s[3]]
  }

  lemma Row1Listed(s: Block)
    ensures Row1Left(s)
         == [s[0], s[5], s[2], s[3], s[4], s[9], s[6], s[7], s[8], s[13], s[10], s[11], s[12], s[1], s[14], s[15]]
    ensures Row1Right(s)
         == [s[0], s[13], s[2], s[3], s[4], s[1], s[6], s[7], s[8], s[5], s[10], s[11], s[12], s[9], s[14], s[15]]
  {
  }

  lemma Row2Listed(s: Block)
    ensures Row2(s)
         == [s[0], s[1], s[10], s[3], s[4], s[5], s[14], s[7], s[8], s[9], s[2], s[11], s[12], s[13], s[6], s[15]]
  {
  }

  lemma Row3Listed(s: Block)
    ensures Row3Left(s)
         == [s[0], s[1], s[2], s[15], s[4], s[5], s[6], s[3], s[8], s[9], s[10], s[7], s[12], s[13], s[14], s[11]]
    ensures Row3Right(s)
         == [s[0], s[1], s[2], s[7], s[4], s[5], s[6], s[11], s[8], s[9], s[10], s[15], s[12], s[13], s[14], s[3]]
  {
  }

  lemma ShiftRowsByRow(s: Block)
    ensures ShiftRows(s) == Row3Left(Row2(Row1Left(s)))
    ensures InvShiftRows(s) == Row3Right(Row2(Row1Right(s)))
  {
    hide Row1Left, Row1Right, Row2, Row3Left, Row3Right;
    Row1Listed(s);
    Row2Listed(Row1Left(s));
    Row3Listed(Row2(Row1Left(s)));
    Row2Listed(Row1Right(s));
    Row3Listed(Row2(Row1Right(s)));
  }

  /** Every entry of a column overwritten as coded, Tmp being the sum of the old entries. */
  function CodedMixColumn(c: Word): Word {
    var tmp := ColumnSum(c[0], c[1], c[2], c[3]);
    [CodedMixByte(c[0], c[1], tmp), CodedMixByte(c[1], c[2], tmp),
     CodedMixByte(c[2], c[3], tmp), CodedMixByte(c[3], c[0], tmp)]
  }

  lemma MixColumnAsCoded(c: Word)
    ensures CodedMixColumn(c) == MixColumn(c)
  {
    hide MixByte, CodedMixByte, ColumnSum;
    ColumnSumRotates(c[0], c[1], c[2], c[3]);
    ColumnSumRotates(c[1], c[2], c[3], c[0]);
    ColumnSumRotates(c[2], c[3], c[0], c[1]);
    MixByteAsCoded(c[0], c[1], c[2], c[3]);
    MixByteAsCoded(c[1], c[2], c[3], c[0]);
    MixByteAsCoded(c[2], c[3], c[0], c[1]);
    MixByteAsCoded(c[3], c[0], c[1], c[2]);
  }

  /** The first n columns of a block passed through f, the others as they are. */
  function MappedUpTo(f: Word -> Word, s: Block, n: nat): Block
    requires n <= 4
  {
    MapColumns(f, s)[..4 * n] + s[4 * n..]
  }

  lemma MappedAll(f: Word -> Word, s: Block)
    ensures MappedUpTo(f, s, 0) == s && MappedUpTo(f, s, 4) == MapColumns(f, s)
  {
  }

  lemma MapOneMore(f: Word -> Word, s: Block, n: nat)
    requires n < 4
    ensures var m := MappedUpTo(f, s, n);
            MappedUpTo(f, s, n + 1) == m[..4 * n] + f(Column(m, n)) + m[4 * n + 4..]
  {
    assert Column(MappedUpTo(f, s, n), n) == Column(s, n);
    assert MapColumns(f, s)[4 * n..4 * n + 4] == f(Column(s, n)) by {
      match n
      case 0 => case 1 => case 2 => case _ =>
    }
  }

  // ---- each transformation is undone by its inverse, on either side ----

  lemma SubBytesInverse(s: Block)
    ensures InvSubBytes(SubBytes(s)) == s
    ensures SubBytes(InvSubBytes(s)) == s
  {
    forall k | 0 <= k < 16
      ensures InvSubBytes(SubBytes(s))[k] == s[k] && SubBytes(InvSubBytes(s))[k] == s[k]
    {
      RSboxUndoesSbox(s[k]);
      SboxUndoesRSbox(s[k]);
    }
  }

  /** The entry in row r and column c comes from column c + r, as in section 5.1.2. */
  lemma ShiftRowsMoves(s: Block, r: nat, c: nat)
    requires r < 4 && c < 4
    ensures ShiftRows(s)[4 * c + r] == s[4 * ((c + r) % 4) + r]
    ensures InvShiftRows(s)[4 * ((c + r) % 4) + r] == s[4 * c + r]
  {
    var moved := (c + r) % 4;
    assert moved == if c + r < 4 then c + r else c + r - 4;
    match r
    case 0 =>
    case 1 =>
    case 2 =>
    case _ =>
  }

  lemma ShiftRowsInverse(s: Block)
    ensures InvShiftRows(ShiftRows(s)) == s
    ensures ShiftRows(InvShiftRows(s)) == s
  {
  }

  lemma AddRoundKeyInverse(s: Block, w: seq<bv8>, round: nat)
    requires 16 * (round + 1) <= |w|
    ensures AddRoundKey(AddRoundKey(s, w, round), w, round) == s
  {
  }

  lemma MixColumnInverse(c: Word)
    ensures InvMixColumn(MixColumn(c)) == c
    ensures MixColumn(InvMixColumn(c)) == c
  {
    hide MixByte, InvMixByte;
    InvMixUndoesMix(c[0], c[1], c[2], c[3]);
    InvMixUndoesMix(c[1], c[2], c[3], c[0]);
    InvMixUndoesMix(c[2], c[3], c[0], c[1]);
    InvMixUndoesMix(c[3], c[0], c[1], c[2]);
    MixUndoesInvMix(c[0], c[1], c[2], c[3]);
    MixUndoesInvMix(c[1], c[2], c[3], c[0]);
    MixUndoesInvMix(c[2], c[3], c[0], c[1]);
    MixUndoesInvMix(c[3], c[0], c[1], c[2]);
  }

  lemma MapColumnsInverse(f: Word -> Word, g: Word -> Word, s: Block)
    requires forall c: Word :: f(g(c)) == c
    ensures MapColumns(f, MapColumns(g, s)) == s
  {
    var t := MapColumns(g, s);
    assert Column(t, 0) == g(Column(s, 0));
    assert Column(t, 1) == g(Column(s, 1));
    assert Column(t, 2) == g(Column(s, 2));
    assert Column(t, 3) == g(Column(s, 3));
  }

  lemma MixColumnsInverse(s: Block)
    ensures InvMixColumns(MixColumns(s)) == s
    ensures MixColumns(InvMixColumns(s)) == s
  {
    hide MixColumn, InvMixColumn;
    forall c: Word
      ensures InvMixColumn(MixColumn(c)) == c && MixColumn(InvMixColumn(c)) == c
    {
      MixColumnInverse(c);
    }
    MapColumnsInverse(InvMixColumn, MixColumn, s);
    MapColumnsInverse(MixColumn, InvMixColumn, s);
  }

  // ---- the inverse cipher undoes the cipher, and the cipher the inverse cipher ----

  lemma {:induction false} InvRoundsUndoRounds(s: Block, w: seq<bv8>, round: nat)
    requires 16 * (round + 1) <= |w|
    ensures InvRounds(ShiftRows(SubBytes(Rounds(s, w, round))), w, round) == s
  {
    hide SubBytes, InvSubBytes, ShiftRows, InvShiftRows, MixColumns, InvMixColumns, AddRoundKey;
    var t := Rounds(s, w, round);
    ShiftRowsInverse(SubBytes(t));
    SubBytesInverse(t);
    if round == 0 {
      AddRoundKeyInverse(s, w, 0);
    } else {
      var u := ShiftRows(SubBytes(Rounds(s, w, round - 1)));
      AddRoundKeyInverse(MixColumns(u), w, round);
      MixColumnsInverse(u);
      InvRoundsUndoRounds(s, w, round - 1);
    }
  }

  lemma {:induction false} RoundsUndoInvRounds(s: Block, w: seq<bv8>, round: nat)
    requires 16 * (round + 1) <= |w|
    ensures ShiftRows(SubBytes(Rounds(InvRounds(s, w, round), w, round))) == s
    decreases round
  {
    hide SubBytes, InvSubBytes, ShiftRows, InvShiftRows, MixColumns, InvMixColumns, AddRoundKey;
    var v := InvSubBytes(InvShiftRows(s));
    var t := AddRoundKey(v, w, round);
    AddRoundKeyInverse(v, w, round);
    SubBytesInverse(InvShiftRows(s));
    ShiftRowsInverse(s);
    if round > 0 {
      RoundsUndoInvRounds(InvMixColumns(t), w, round - 1);
      MixColumnsInverse(t);
    }
  }

  /** For every block, every round-key array and every number of rounds. */
  lemma InvCipherUndoesCipher(s: Block, w: seq<bv8>, nr: nat)
    requires 1 <= nr && 16 * (nr + 1) <= |w|
    ensures InvCipher(Cipher(s, w, nr), w, nr) == s
  {
    hide SubBytes, InvSubBytes, ShiftRows, InvShiftRows, MixColumns, InvMixColumns, AddRoundKey, Rounds, InvRounds;
    AddRoundKeyInverse(ShiftRows(SubBytes(Rounds(s, w, nr - 1))), w, nr);
    InvRoundsUndoRounds(s, w, nr - 1);
  }

  lemma CipherUndoesInvCipher(s: Block, w: seq<bv8>, nr: nat)
    requires 1 <= nr && 16 * (nr + 1) <= |w|
    ensures Cipher(InvCipher(s, w, nr), w, nr) == s
  {
    hide SubBytes, InvSubBytes, ShiftRows, InvShiftRows, MixColumns, InvMixColumns, AddRoundKey, Rounds, InvRounds;
    RoundsUndoInvRounds(AddRoundKey(s, w, nr), w, nr - 1);
    AddRoundKeyInverse(s, w, nr);
  }
}
