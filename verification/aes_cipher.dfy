/** The block cipher as aes.c runs it: every step overwrites the sixteen bytes at
    offset p of the array `state`, where entry [i][j] of the C state is byte 4*i + j. */
module AesCipher {
  import opened AesField
  import opened AesTables
  import Spec = AesSpec

  function At(state: array<bv8>, p: nat): Spec.Block
    requires p + 16 <= state.Length
    reads state
  {
    state[p..p + 16]
  }

  /** Nothing but the block at p has changed. */
  twostate predicate OnlyAt(state: array<bv8>, p: nat)
    requires p + 16 <= state.Length
    reads state
  {
    state[..p] == old(state[..p]) && state[p + 16..] == old(state[p + 16..])
  }

  /** (*state)[i][j] */
  function Get(state: array<bv8>, p: nat, i: nat, j: nat): (v: bv8)
    requires p + 16 <= state.Length && i < 4 && j < 4
    reads state
    ensures v == At(state, p)[4 * i + j]
  {
    state[p + 4 * i + j]
  }

  /** (*state)[i][j] = v */
  method Set(state: array<bv8>, p: nat, i: nat, j: nat, v: bv8)
    requires p + 16 <= state.Length && i < 4 && j < 4
    modifies state
    ensures At(state, p) == old(At(state, p))[4 * i + j := v]
    ensures OnlyAt(state, p)
  {
    state[p + 4 * i + j] := v;
  }

  method AddRoundKey(round: nat, state: array<bv8>, p: nat, roundKey: array<bv8>)
    requires p + 16 <= state.Length && state != roundKey
    requires 16 * (round + 1) <= roundKey.Length
    modifies state
    ensures At(state, p) == Spec.AddRoundKey(old(At(state, p)), roundKey[..], round)
    ensures OnlyAt(state, p)
  {
    ghost var b, w := At(state, p), roundKey[..];
    for i := 0 to 4
      invariant OnlyAt(state, p) && roundKey[..] == w
      invariant forall k :: 0 <= k < 16 ==>
        At(state, p)[k] == if k < 4 * i then b[k] ^ w[16 * round + k] else b[k]
    {
      for j := 0 to 4
        invariant OnlyAt(state, p) && roundKey[..] == w
        invariant forall k :: 0 <= k < 16 ==>
          At(state, p)[k] == if k < 4 * i + j then b[k] ^ w[16 * round + k] else b[k]
      {
        assert roundKey[round * 4 * 4 + i * 4 + j] == w[16 * round + (4 * i + j)];
        Set(state, p, i, j, Get(state, p, i, j) ^ roundKey[round * 4 * 4 + i * 4 + j]);
      }
    }
  }

  method SubBytes(state: array<bv8>, p: nat)
    requires p + 16 <= state.Length
    modifies state
    ensures At(state, p) == Spec.SubBytes(old(At(state, p)))
    ensures OnlyAt(state, p)
  {
    hide Sbox;
    ghost var b := At(state, p);
    for i := 0 to 4
      invariant OnlyAt(state, p)
      invariant forall k :: 0 <= k < 16 ==> At(state, p)[k] == if k % 4 < i then Sbox(b[k]) else b[k]
    {
      for j := 0 to 4
        invariant OnlyAt(state, p)
        invariant forall k :: 0 <= k < 16 ==>
          At(state, p)[k] == if k % 4 < i || (k % 4 == i && k / 4 < j) then Sbox(b[k]) else b[k]
      {
        Set(state, p, j, i, Sbox(Get(state, p, j, i)));
      }
    }
  }

  method ShiftRows(state: array<bv8>, p: nat)
    requires p + 16 <= state.Length
    modifies state
    ensures At(state, p) == Spec.ShiftRows(old(At(state, p)))
    ensures OnlyAt(state, p)
  {
    hide At, Get, Spec.ShiftRows, Spec.InvShiftRows;
    ghost var b := At(state, p);
    Spec.ShiftRowsByRow(b);
    var temp := Get(state, p, 0, 1);
    Set(state, p, 0, 1, Get(state, p, 1, 1));
    Set(state, p, 1, 1, Get(state, p, 2, 1));
    Set(state, p, 2, 1, Get(state, p, 3, 1));
    Set(state, p, 3, 1, temp);
    assert At(state, p) == Spec.Row1Left(b);

    temp := Get(state, p, 0, 2);
    Set(state, p, 0, 2, Get(state, p, 2, 2));
    Set(state, p, 2, 2, temp);

    temp := Get(state, p, 1, 2);
    Set(state, p, 1, 2, Get(state, p, 3, 2));
    Set(state, p, 3, 2, temp);
    assert At(state, p) == Spec.Row2(Spec.Row1Left(b));

    temp := Get(state, p, 0, 3);
    Set(state, p, 0, 3, Get(state, p, 3, 3));
    Set(state, p, 3, 3, Get(state, p, 2, 3));
    Set(state, p, 2, 3, Get(state, p, 1, 3));
    Set(state, p, 1, 3, temp);
  }

  /** One line of MixColumns: Tm from entry [i][j] and the entry below it, then the update with Tm and Tmp. */
  method MixEntry(state: array<bv8>, p: nat, i: nat, j: nat, below: bv8, tmp: bv8)
    requires p + 16 <= state.Length && i < 4 && j < 4
    modifies state
    ensures At(state, p) == old(At(state, p))[4 * i + j := CodedMixByte(old(Get(state, p, i, j)), below, tmp)]
    ensures OnlyAt(state, p)
  {
    hide At, Get, Xtime, CodedMixByte;
    var e := Get(state, p, i, j);
    var tm := e ^ below;
    tm := Xtime(tm);
    CodedMixByteIs(e, below, tm, tmp);
    var v := e ^ (tm ^ tmp);
    Set(state, p, i, j, v);
  }

  /** One turn of the loop of MixColumns. */
  method MixColumn(state: array<bv8>, p: nat, i: nat)
    requires p + 16 <= state.Length && i < 4
    modifies state
    ensures var was := old(At(state, p));
            At(state, p) == was[..4 * i] + Spec.MixColumn(Spec.Column(was, i)) + was[4 * i + 4..]
    ensures OnlyAt(state, p)
  {
    hide At, Get, ColumnSum, CodedMixByte, Spec.MixColumn;
    Spec.MixColumnAsCoded(Spec.Column(At(state, p), i));
    var t := Get(state, p, i, 0);
    var tmp := ColumnSum(Get(state, p, i, 0), Get(state, p, i, 1), Get(state, p, i, 2), Get(state, p, i, 3));
    MixEntry(state, p, i, 0, Get(state, p, i, 1), tmp);
    MixEntry(state, p, i, 1, Get(state, p, i, 2), tmp);
    MixEntry(state, p, i, 2, Get(state, p, i, 3), tmp);
    MixEntry(state, p, i, 3, t, tmp);
  }

  method MixColumns(state: array<bv8>, p: nat)
    requires p + 16 <= state.Length
    modifies state
    ensures At(state, p) == Spec.MixColumns(old(At(state, p)))
    ensures OnlyAt(state, p)
  {
    hide At, Spec.MixColumn, Spec.MapColumns, Spec.MappedUpTo;
    ghost var b := At(state, p);
    Spec.MappedAll(Spec.MixColumn, b);
    for i := 0 to 4
      invariant OnlyAt(state, p)
      invariant At(state, p) == Spec.MappedUpTo(Spec.MixColumn, b, i)
    {
      Spec.MapOneMore(Spec.MixColumn, b, i);
      MixColumn(state, p, i);
    }
  }

  /** One turn of the loop of InvMixColumns. */
  method InvMixColumn(state: array<bv8>, p: nat, i: nat)
    requires p + 16 <= state.Length && i < 4
    modifies state
    ensures var was := old(At(state, p));
            At(state, p) == was[..4 * i] + Spec.InvMixColumn(Spec.Column(was, i)) + was[4 * i + 4..]
    ensures OnlyAt(state, p)
  {
    hide At, Get, Multiply, InvMixByte;
    var a, b, c, d := Get(state, p, i, 0), Get(state, p, i, 1), Get(state, p, i, 2), Get(state, p, i, 3);
    var v0 := Multiply(a, 0x0e) ^ Multiply(b, 0x0b) ^ Multiply(c, 0x0d) ^ Multiply(d, 0x09);
    InvMixByteAsCoded(a, b, c, d, v0);
    Set(state, p, i, 0, v0);
    var v1 := Multiply(a, 0x09) ^ Multiply(b, 0x0e) ^ Multiply(c, 0x0b) ^ Multiply(d, 0x0d);
    InvMixByteAsCoded(b, c, d, a, v1);
    Set(state, p, i, 1, v1);
    var v2 := Multiply(a, 0x0d) ^ Multiply(b, 0x09) ^ Multiply(c, 0x0e) ^ Multiply(d, 0x0b);
    InvMixByteAsCoded(c, d, a, b, v2);
    Set(state, p, i, 2, v2);
    var v3 := Multiply(a, 0x0b) ^ Multiply(b, 0x0d) ^ Multiply(c, 0x09) ^ Multiply(d, 0x0e);
    InvMixByteAsCoded(d, a, b, c, v3);
    Set(state, p, i, 3, v3);
  }

  method InvMixColumns(state: array<bv8>, p: nat)
    requires p + 16 <= state.Length
    modifies state
    ensures At(state, p) == Spec.InvMixColumns(old(At(state, p)))
    ensures OnlyAt(state, p)
  {
    hide At, Spec.InvMixColumn, Spec.MapColumns, Spec.MappedUpTo;
    ghost var b := At(state, p);
    Spec.MappedAll(Spec.InvMixColumn, b);
    for i := 0 to 4
      invariant OnlyAt(state, p)
      invariant At(state, p) == Spec.MappedUpTo(Spec.InvMixColumn, b, i)
    {
      Spec.MapOneMore(Spec.InvMixColumn, b, i);
      InvMixColumn(state, p, i);
    }
  }

  method InvSubBytes(state: array<bv8>, p: nat)
    requires p + 16 <= state.Length
    modifies state
    ensures At(state, p) == Spec.InvSubBytes(old(At(state, p)))
    ensures OnlyAt(state, p)
  {
    hide RSbox;
    ghost var b := At(state, p);
    for i := 0 to 4
      invariant OnlyAt(state, p)
      invariant forall k :: 0 <= k < 16 ==> At(state, p)[k] == if k % 4 < i then RSbox(b[k]) else b[k]
    {
      for j := 0 to 4
        invariant OnlyAt(state, p)
        invariant forall k :: 0 <= k < 16 ==>
          At(state, p)[k] == if k % 4 < i || (k % 4 == i && k / 4 < j) then RSbox(b[k]) else b[k]
      {
        Set(state, p, j, i, RSbox(Get(state, p, j, i)));
      }
    }
  }

  method InvShiftRows(state: array<bv8>, p: nat)
    requires p + 16 <= state.Length
    modifies state
    ensures At(state, p) == Spec.InvShiftRows(old(At(state, p)))
    ensures OnlyAt(state, p)
  {
    hide At, Get, Spec.ShiftRows, Spec.InvShiftRows;
    ghost var b := At(state, p);
    Spec.ShiftRowsByRow(b);
    var temp := Get(state, p, 3, 1);
    Set(state, p, 3, 1, Get(state, p, 2, 1));
    Set(state, p, 2, 1, Get(state, p, 1, 1));
    Set(state, p, 1, 1, Get(state, p, 0, 1));
    Set(state, p, 0, 1, temp);
    assert At(state, p) == Spec.Row1Right(b);

    temp := Get(state, p, 0, 2);
    Set(state, p, 0, 2, Get(state, p, 2, 2));
    Set(state, p, 2, 2, temp);

    temp := Get(state, p, 1, 2);
    Set(state, p, 1, 2, Get(state, p, 3, 2));
    Set(state, p, 3, 2, temp);
    assert At(state, p) == Spec.Row2(Spec.Row1Right(b));

    temp := Get(state, p, 0, 3);
    Set(state, p, 0, 3, Get(state, p, 1, 3));
    Set(state, p, 1, 3, Get(state, p, 2, 3));
    Set(state, p, 2, 3, Get(state, p, 3, 3));
    Set(state, p, 3, 3, temp);
  }

  method Cipher(state: array<bv8>, p: nat, roundKey: array<bv8>, nr: nat)
    requires p + 16 <= state.Length && state != roundKey
    requires 1 <= nr && 16 * (nr + 1) <= roundKey.Length
    modifies state
    ensures At(state, p) == Spec.Cipher(old(At(state, p)), roundKey[..], nr)
    ensures OnlyAt(state, p)
  {
    hide At, Spec.SubBytes, Spec.ShiftRows, Spec.MixColumns, Spec.AddRoundKey;
    ghost var b, w := At(state, p), roundKey[..];
    AddRoundKey(0, state, p, roundKey);
    var round := 1;
    while true
      invariant 1 <= round <= nr
      invariant OnlyAt(state, p) && roundKey[..] == w
      invariant At(state, p) == Spec.Rounds(b, w, round - 1)
      decreases nr - round
    {
      SubBytes(state, p);
      ShiftRows(state, p);
      if round == nr {
        break;
      }
      MixColumns(state, p);
      AddRoundKey(round, state, p, roundKey);
      round := round + 1;
    }
    AddRoundKey(nr, state, p, roundKey);
  }

  method InvCipher(state: array<bv8>, p: nat, roundKey: array<bv8>, nr: nat)
    requires p + 16 <= state.Length && state != roundKey
    requires 1 <= nr && 16 * (nr + 1) <= roundKey.Length
    modifies state
    ensures At(state, p) == Spec.InvCipher(old(At(state, p)), roundKey[..], nr)
    ensures OnlyAt(state, p)
  {
    hide At, Spec.InvSubBytes, Spec.InvShiftRows, Spec.InvMixColumns, Spec.AddRoundKey;
    ghost var b, w := At(state, p), roundKey[..];
    AddRoundKey(nr, state, p, roundKey);
    var round := nr - 1;
    while true
      invariant 0 <= round < nr
      invariant OnlyAt(state, p) && roundKey[..] == w
      invariant Spec.InvRounds(At(state, p), w, round) == Spec.InvCipher(b, w, nr)
      decreases round
    {
      InvShiftRows(state, p);
      InvSubBytes(state, p);
      AddRoundKey(round, state, p, roundKey);
      if round == 0 {
        break;
      }
      InvMixColumns(state, p);
      round := round - 1;
    }
  }
}
