/** The key schedule: the word recurrence of FIPS 197 section 5.2, and the byte loop that computes it. */
module AesKeys {
  import opened AesField
  import opened AesTables
  import opened AesSpec

  // ---- the recurrence ----

  /** {02} to the power n in the field. */
  function PowerOfX(n: nat): bv8 {
    if n == 0 then 1 else GfMul(0x02, PowerOfX(n - 1))
  }

  function RotWord(c: Word): Word {
    [c[1], c[2], c[3], c[0]]
  }

  function SubWord(c: Word): Word {
    [Sbox(c[0]), Sbox(c[1]), Sbox(c[2]), Sbox(c[3])]
  }

  function XorWord(c: Word, d: Word): Word {
    [c[0] ^ d[0], c[1] ^ d[1], c[2] ^ d[2], c[3] ^ d[3]]
  }

  /** The round constant of section 5.2: x^(j-1) in the first byte. */
  function RoundConstant(j: nat): Word
    requires j > 0
  {
    [PowerOfX(j - 1), 0, 0, 0]
  }

  /** What is added to word i - nk to give word i. */
  function Temp(previous: Word, nk: nat, i: nat): Word
    requires 0 < nk <= i
  {
    if i % nk == 0 then XorWord(SubWord(RotWord(previous)), RoundConstant(i / nk))
    else if nk > 6 && i % nk == 4 then SubWord(previous)
    else previous
  }

  /** Word i of the schedule. */
  function ScheduleWord(key: seq<bv8>, nk: nat, i: nat): Word
    requires 0 < nk && |key| == 4 * nk
  {
    if i < nk then key[4 * i..4 * i + 4]
    else XorWord(ScheduleWord(key, nk, i - nk), Temp(ScheduleWord(key, nk, i - 1), nk, i))
  }

  // ---- the code ----

  const RCON: seq<bv8> := [0x8d, 0x01, 0x02, 0x04, 0x08, 0x10, 0x20, 0x40, 0x80, 0x1b, 0x36]

  lemma RconHoldsPowers(j: nat)
    requires 1 <= j <= 10
    ensures RCON[j] == PowerOfX(j - 1)
  {
    if j > 1 {
      RconHoldsPowers(j - 1);
      Times2(PowerOfX(j - 2));
    }
  }

  function WordAt(w: seq<bv8>, i: nat): Word
    requires 4 * i + 4 <= |w|
  {
    w[4 * i..4 * i + 4]
  }

  /** The first n words of the schedule are in place. */
  ghost predicate Filled(w: seq<bv8>, key: seq<bv8>, nk: nat, n: nat)
    requires 0 < nk && |key| == 4 * nk
  {
    4 * n <= |w| && forall i: nat :: i < n ==> WordAt(w, i) == ScheduleWord(key, nk, i)
  }

  lemma FilledWithKey(w: seq<bv8>, key: seq<bv8>, nk: nat)
    requires 0 < nk && |key| == 4 * nk && key <= w
    ensures Filled(w, key, nk, nk)
  {
  }

  lemma FilledOneMore(w: seq<bv8>, v: seq<bv8>, key: seq<bv8>, nk: nat, i: nat)
    requires 0 < nk <= i && |key| == 4 * nk && Filled(w, key, nk, i)
    requires |v| == |w| && 4 * i + 4 <= |w| && v[..4 * i] == w[..4 * i]
    requires WordAt(v, i) == XorWord(WordAt(w, i - nk), Temp(WordAt(w, i - 1), nk, i))
    ensures Filled(v, key, nk, i + 1)
  {
    hide XorWord, Temp;
    assert WordAt(v, i) == ScheduleWord(key, nk, i);
    hide ScheduleWord;
    forall n: nat | n < i
      ensures WordAt(v, n) == WordAt(w, n)
    {
      assert v[4 * n..4 * n + 4] == v[..4 * i][4 * n..4 * n + 4];
    }
  }

  method SubWordInPlace(tempa: array<bv8>)
    requires tempa.Length == 4
    modifies tempa
    ensures tempa[..] == SubWord(old(tempa[..]))
  {
    hide Sbox;
    tempa[0] := Sbox(tempa[0]);
    tempa[1] := Sbox(tempa[1]);
    tempa[2] := Sbox(tempa[2]);
    tempa[3] := Sbox(tempa[3]);
  }

  method RotWordInPlace(tempa: array<bv8>)
    requires tempa.Length == 4
    modifies tempa
    ensures tempa[..] == RotWord(old(tempa[..]))
  {
    var u8tmp := tempa[0];
    tempa[0] := tempa[1];
    tempa[1] := tempa[2];
    tempa[2] := tempa[3];
    tempa[3] := u8tmp;
  }

  lemma AddConstant(c: Word, j: nat)
    requires 1 <= j <= 10
    ensures XorWord(c, RoundConstant(j)) == c[0 := c[0] ^ RCON[j]]
  {
    hide PowerOfX;
    RconHoldsPowers(j);
  }

  /** The two conditional blocks between reading word i - 1 and writing word i. */
  method TransformTemp(tempa: array<bv8>, nk: nat, i: nat)
    requires nk == 4 || nk == 6 || nk == 8
    requires nk <= i < 4 * (nk + 7) && tempa.Length == 4
    modifies tempa
    ensures tempa[..] == Temp(old(tempa[..]), nk, i)
  {
    hide SubWord, RotWord, RoundConstant, XorWord;
    ghost var previous := tempa[..];
    if i % nk == 0 {
      RotWordInPlace(tempa);
      SubWordInPlace(tempa);
      assert 1 <= i / nk <= 10;
      AddConstant(SubWord(RotWord(previous)), i / nk);
      tempa[0] := tempa[0] ^ RCON[i / nk];
      assert tempa[..] == SubWord(RotWord(previous))[0 := SubWord(RotWord(previous))[0] ^ RCON[i / nk]];
    }
    if nk == 8 {
      if i % nk == 4 {
        SubWordInPlace(tempa);
      }
    }
  }

  lemma XorWordIs(c: Word, d: Word, b0: bv8, b1: bv8, b2: bv8, b3: bv8)
    requires b0 == c[0] ^ d[0] && b1 == c[1] ^ d[1] && b2 == c[2] ^ d[2] && b3 == c[3] ^ d[3]
    ensures XorWord(c, d) == [b0, b1, b2, b3]
  {
  }

  /** The last lines of the loop body: word i is word i - nk plus tempa. */
  method WriteWord(roundKey: array<bv8>, tempa: array<bv8>, nk: nat, i: nat)
    requires 0 < nk <= i && 4 * i + 4 <= roundKey.Length
    requires tempa.Length == 4 && tempa != roundKey
    modifies roundKey
    ensures roundKey[..4 * i] == old(roundKey[..4 * i])
    ensures WordAt(roundKey[..], i) == XorWord(old(WordAt(roundKey[..], i - nk)), tempa[..])
  {
    hide XorWord;
    var j, k := i * 4, (i - nk) * 4;
    ghost var c, d := WordAt(roundKey[..], i - nk), tempa[..];
    XorWordIs(c, d, c[0] ^ d[0], c[1] ^ d[1], c[2] ^ d[2], c[3] ^ d[3]);
    roundKey[j + 0] := roundKey[k + 0] ^ tempa[0];
    roundKey[j + 1] := roundKey[k + 1] ^ tempa[1];
    roundKey[j + 2] := roundKey[k + 2] ^ tempa[2];
    roundKey[j + 3] := roundKey[k + 3] ^ tempa[3];
  }

  method ReadWord(roundKey: array<bv8>, tempa: array<bv8>, i: nat)
    requires 4 * i + 4 <= roundKey.Length
    requires tempa.Length == 4 && tempa != roundKey
    modifies tempa
    ensures tempa[..] == WordAt(roundKey[..], i)
  {
    var k := i * 4;
    tempa[0] := roundKey[k + 0];
    tempa[1] := roundKey[k + 1];
    tempa[2] := roundKey[k + 2];
    tempa[3] := roundKey[k + 3];
  }

  /** The first round key is the key itself. */
  method CopyKey(roundKey: array<bv8>, key: array<bv8>, nk: nat)
    requires key.Length == 4 * nk <= roundKey.Length && roundKey != key
    modifies roundKey
    ensures key[..] <= roundKey[..]
  {
    for i := 0 to nk
      invariant forall k :: 0 <= k < 4 * i ==> roundKey[k] == key[k]
    {
      roundKey[i * 4 + 0] := key[i * 4 + 0];
      roundKey[i * 4 + 1] := key[i * 4 + 1];
      roundKey[i * 4 + 2] := key[i * 4 + 2];
      roundKey[i * 4 + 3] := key[i * 4 + 3];
    }
  }

  method KeyExpansion(roundKey: array<bv8>, key: array<bv8>, nk: nat)
    requires nk == 4 || nk == 6 || nk == 8
    requires key.Length == 4 * nk && roundKey.Length == 16 * (nk + 7) && roundKey != key
    modifies roundKey
    ensures Filled(roundKey[..], key[..], nk, 4 * (nk + 7))
  {
    hide Filled, WordAt, Temp, XorWord;
    ghost var k0 := key[..];
    CopyKey(roundKey, key, nk);
    FilledWithKey(roundKey[..], k0, nk);
    var nr := nk + 6;
    var tempa := new bv8[4];
    for i := nk to 4 * (nr + 1)
      invariant key[..] == k0
      invariant Filled(roundKey[..], k0, nk, i)
    {
      ghost var w := roundKey[..];
      ReadWord(roundKey, tempa, i - 1);
      TransformTemp(tempa, nk, i);
      WriteWord(roundKey, tempa, nk, i);
      FilledOneMore(w, roundKey[..], k0, nk, i);
    }
  }
}
