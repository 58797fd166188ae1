/**
 * The cipher byte by byte, as FIPS 197 tabulates it: which key byte and which state bytes make up each
 * entry of each intermediate state.
 */
module AesFips {
  import opened AesField
  import opened AesTables
  import opened AesSpec
  import opened AesKeys

  /** The entry in row r and column c. */
  function Entry(s: Block, r: nat, c: nat): bv8
    requires r < 4 && c < 4
  {
    s[4 * c + r]
  }

  /** Byte r of word i of the key schedule. */
  function KeyByte(key: seq<bv8>, nk: nat, i: nat, r: nat): bv8
    requires 0 < nk && |key| == 4 * nk && r < 4
  {
    ScheduleWord(key, nk, i)[r]
  }

  // ---- the key schedule, section 5.2 ----

  /** The first words are the key. */
  lemma KeyBytesFirst(key: seq<bv8>, nk: nat, i: nat, r: nat)
    requires 0 < nk && |key| == 4 * nk && r < 4 && i < nk
    ensures KeyByte(key, nk, i, r) == key[4 * i + r]
  {
  }

  /** What goes into byte r of word i besides byte r of the word nk before: a byte of the previous word. */
  function Carried(key: seq<bv8>, nk: nat, i: nat, r: nat): bv8
    requires 0 < nk <= i && |key| == 4 * nk && r < 4
  {
    if i % nk == 0 then
      var turned := Sbox(KeyByte(key, nk, i - 1, TurnedFrom(r)));
      if r == 0 then Add(turned, RoundByte(i / nk)) else turned
    else if nk > 6 && i % nk == 4 then Sbox(KeyByte(key, nk, i - 1, r))
    else KeyByte(key, nk, i - 1, r)
  }

  /** The row a byte comes from when its word is turned. */
  function TurnedFrom(r: nat): nat
    requires r < 4
  {
    if r == 3 then 0 else r + 1
  }

  /** x^(j-1) for the j-th turn. */
  function RoundByte(j: nat): bv8 {
    if j == 0 then 0 else PowerOfX(j - 1)
  }

  /** Each later byte: the previous word is turned by one byte and substituted every nk words. */
  lemma KeyBytesNext(key: seq<bv8>, nk: nat, i: nat, r: nat)
    requires 0 < nk <= i && |key| == 4 * nk && r < 4
    ensures KeyByte(key, nk, i, r) == Add(KeyByte(key, nk, i - nk, r), Carried(key, nk, i, r))
  {
    var previous := ScheduleWord(key, nk, i - 1);
    if i % nk == 0 { TempTurnedByte(previous, nk, i, i / nk, r); } else { TempOtherByte(previous, nk, i, r); }
    XorBytes(ScheduleWord(key, nk, i - nk), Temp(previous, nk, i), r);
    hide Temp, Sbox, PowerOfX, Add, XorWord, RoundByte;
  }

  lemma XorBytes(c: Word, d: Word, r: nat)
    requires r < 4
    ensures XorWord(c, d)[r] == Add(c[r], d[r])
  {
    match r
    case 0 =>
    case 1 =>
    case 2 =>
    case _ =>
  }

  lemma TurnedByte(previous: Word, r: nat)
    requires r < 4
    ensures SubWord(RotWord(previous))[r] == Sbox(previous[TurnedFrom(r)])
    ensures SubWord(previous)[r] == Sbox(previous[r])
  {
    hide Sbox;
    match r
    case 0 =>
    case 1 =>
    case 2 =>
    case _ =>
  }

  lemma AddZero(x: bv8)
    ensures Add(x, 0) == x
  {
  }

  lemma TempTurnedByte(previous: Word, nk: nat, i: nat, j: nat, r: nat)
    requires 0 < nk <= i && r < 4 && i % nk == 0 && j == i / nk
    ensures Temp(previous, nk, i)[r]
         == if r == 0 then Add(Sbox(previous[1]), RoundByte(j)) else Sbox(previous[TurnedFrom(r)])
  {
    hide Sbox, PowerOfX, XorWord, SubWord, RotWord, Add, Temp;
    TempTurned(previous, nk, i, j);
    TurnedByte(previous, r);
    RoundConstantByte(j, r);
    XorBytes(SubWord(RotWord(previous)), RoundConstant(j), r);
    AddZero(Sbox(previous[TurnedFrom(r)]));
  }

  lemma TempOtherByte(previous: Word, nk: nat, i: nat, r: nat)
    requires 0 < nk <= i && r < 4 && i % nk != 0
    ensures Temp(previous, nk, i)[r] == if nk > 6 && i % nk == 4 then Sbox(previous[r]) else previous[r]
  {
    hide Sbox, SubWord, Temp;
    TurnedByte(previous, r);
    TempNotTurned(previous, nk, i);
  }

  lemma RoundConstantByte(j: nat, r: nat)
    requires j > 0 && r < 4
    ensures RoundConstant(j)[r] == if r == 0 then RoundByte(j) else 0
  {
    hide PowerOfX;
  }

  lemma TempTurned(previous: Word, nk: nat, i: nat, j: nat)
    requires 0 < nk <= i && i % nk == 0 && j == i / nk
    ensures j > 0 && Temp(previous, nk, i) == XorWord(SubWord(RotWord(previous)), RoundConstant(j))
  {
    hide Sbox, XorWord, SubWord, RotWord, RoundConstant;
  }

  lemma TempNotTurned(previous: Word, nk: nat, i: nat)
    requires 0 < nk <= i && i % nk != 0
    ensures Temp(previous, nk, i) == if nk > 6 && i % nk == 4 then SubWord(previous) else previous
  {
    hide Sbox, XorWord, SubWord, RotWord, RoundConstant;
  }

  // ---- the states, section 5.1 ----

  /** After the initial key addition. */
  ghost predicate FirstState(key: seq<bv8>, nk: nat, block: Block, s: Block)
    requires 0 < nk && |key| == 4 * nk
  {
    forall r, c :: 0 <= r < 4 && 0 <= c < 4 ==> Entry(s, r, c) == Add(Entry(block, r, c), KeyByte(key, nk, c, r))
  }

  /** The substituted entry that comes to row q of column c when row q moves q columns to the left. */
  function Moved(s: Block, q: nat, c: nat): bv8
    requires q < 4 && c < 4
  {
    Sbox(Entry(s, q, (c + q) % 4))
  }

  /** Row r of the matrix of section 5.1.3 times column c. */
  function Mixed(s: Block, r: nat, c: nat): bv8
    requires r < 4 && c < 4
  {
    Sum4(GfMul(0x02, Moved(s, r, c)), GfMul(0x03, Moved(s, (r + 1) % 4, c)),
         Moved(s, (r + 2) % 4, c), Moved(s, (r + 3) % 4, c))
  }

  ghost predicate NextState(key: seq<bv8>, nk: nat, round: nat, s: Block, t: Block)
    requires 0 < nk && |key| == 4 * nk
  {
    forall r, c :: 0 <= r < 4 && 0 <= c < 4 ==>
      Entry(t, r, c) == Add(Mixed(s, r, c), KeyByte(key, nk, 4 * round + c, r))
  }

  ghost predicate LastState(key: seq<bv8>, nk: nat, round: nat, s: Block, t: Block)
    requires 0 < nk && |key| == 4 * nk
  {
    forall r, c :: 0 <= r < 4 && 0 <= c < 4 ==>
      Entry(t, r, c) == Add(Moved(s, r, c), KeyByte(key, nk, 4 * round + c, r))
  }

  /** A chain of states from the input to the output, one for each round but the last. */
  ghost predicate Chain(key: seq<bv8>, nk: nat, input: Block, states: seq<Block>, output: Block)
    requires 0 < nk && |key| == 4 * nk
  {
    && states != []
    && FirstState(key, nk, input, states[0])
    && (forall i :: 0 < i < |states| ==> NextState(key, nk, i, states[i - 1], states[i]))
    && LastState(key, nk, |states|, states[|states| - 1], output)
  }

  ghost predicate FipsCipher(key: seq<bv8>, nk: nat, input: Block, output: Block)
    requires 0 < nk && |key| == 4 * nk
  {
    exists states: seq<Block> :: |states| == nk + 6 && Chain(key, nk, input, states, output)
  }

  // ---- the cipher makes such a chain ----

  lemma AddedAt(s: Block, w: seq<bv8>, round: nat, k: nat)
    requires k < 16 && 16 * (round + 1) <= |w|
    ensures AddRoundKey(s, w, round)[k] == Add(s[k], w[16 * round + k])
  {
  }

  lemma KeyAdded(key: seq<bv8>, nk: nat, w: seq<bv8>, n: nat, s: Block, round: nat, r: nat, c: nat)
    requires 0 < nk && |key| == 4 * nk && r < 4 && c < 4 && 4 * (round + 1) <= n && Filled(w, key, nk, n)
    ensures 16 * (round + 1) <= |w|
    ensures Entry(AddRoundKey(s, w, round), r, c) == Add(Entry(s, r, c), KeyByte(key, nk, 4 * round + c, r))
  {
    hide ScheduleWord, Add, AddRoundKey;
    assert WordAt(w, 4 * round + c) == ScheduleWord(key, nk, 4 * round + c);
    AddedAt(s, w, round, 4 * c + r);
  }

  lemma SubShiftEntry(s: Block, q: nat, c: nat)
    requires q < 4 && c < 4
    ensures Entry(ShiftRows(SubBytes(s)), q, c) == Moved(s, q, c)
  {
    hide Sbox, ShiftRows;
    ShiftRowsMoves(SubBytes(s), q, c);
  }

  lemma MixedInColumn(d: Word, r: nat)
    requires r < 4
    ensures MixColumn(d)[r] == MixByte(d[r], d[(r + 1) % 4], d[(r + 2) % 4], d[(r + 3) % 4])
  {
    hide MixByte;
    match r
    case 0 =>
    case 1 =>
    case 2 =>
    case _ =>
  }

  lemma ColumnOf(f: Word -> Word, s: Block, r: nat, c: nat)
    requires r < 4 && c < 4
    ensures Entry(MapColumns(f, s), r, c) == f(Column(s, c))[r] && Column(s, c)[r] == Entry(s, r, c)
  {
    match c
    case 0 =>
    case 1 =>
    case 2 =>
    case _ =>
  }

  lemma MixEntry(s: Block, r: nat, c: nat)
    requires r < 4 && c < 4
    ensures Entry(MixColumns(s), r, c)
         == MixByte(Entry(s, r, c), Entry(s, (r + 1) % 4, c), Entry(s, (r + 2) % 4, c), Entry(s, (r + 3) % 4, c))
  {
    hide MixByte, MixColumn, Entry, Column, MapColumns;
    ColumnOf(MixColumn, s, r, c);
    ColumnOf(MixColumn, s, (r + 1) % 4, c);
    ColumnOf(MixColumn, s, (r + 2) % 4, c);
    ColumnOf(MixColumn, s, (r + 3) % 4, c);
    MixedInColumn(Column(s, c), r);
  }

  lemma MixedEntry(s: Block, r: nat, c: nat)
    requires r < 4 && c < 4
    ensures Entry(MixColumns(ShiftRows(SubBytes(s))), r, c) == Mixed(s, r, c)
  {
    hide GfMul, Sum4, MixColumns, ShiftRows, SubBytes, Entry, Moved;
    var t := ShiftRows(SubBytes(s));
    MixEntry(t, r, c);
    SubShiftEntry(s, r, c);
    SubShiftEntry(s, (r + 1) % 4, c);
    SubShiftEntry(s, (r + 2) % 4, c);
    SubShiftEntry(s, (r + 3) % 4, c);
  }

  lemma FirstIs(key: seq<bv8>, nk: nat, w: seq<bv8>, n: nat, s: Block)
    requires 0 < nk && |key| == 4 * nk && 4 <= n && Filled(w, key, nk, n)
    ensures 16 <= |w| && FirstState(key, nk, s, AddRoundKey(s, w, 0))
  {
    FilledLength(key, nk, w, n);
    hide Add, Entry, KeyByte, AddRoundKey, Filled;
    var t := AddRoundKey(s, w, 0);
    forall r, c | 0 <= r < 4 && 0 <= c < 4
      ensures Entry(t, r, c) == Add(Entry(s, r, c), KeyByte(key, nk, c, r))
    {
      KeyAdded(key, nk, w, n, s, 0, r, c);
    }
  }

  lemma RoundIsNext(key: seq<bv8>, nk: nat, w: seq<bv8>, n: nat, s: Block, round: nat)
    requires 0 < nk && |key| == 4 * nk && 4 * (round + 1) <= n && Filled(w, key, nk, n)
    ensures 16 * (round + 1) <= |w|
    ensures NextState(key, nk, round, s, AddRoundKey(MixColumns(ShiftRows(SubBytes(s))), w, round))
  {
    FilledLength(key, nk, w, n);
    hide Add, Entry, Mixed, KeyByte, AddRoundKey, MixColumns, ShiftRows, SubBytes, Filled;
    var u := MixColumns(ShiftRows(SubBytes(s)));
    var t := AddRoundKey(u, w, round);
    forall r, c | 0 <= r < 4 && 0 <= c < 4
      ensures Entry(t, r, c) == Add(Mixed(s, r, c), KeyByte(key, nk, 4 * round + c, r))
    {
      KeyAdded(key, nk, w, n, u, round, r, c);
      MixedEntry(s, r, c);
    }
  }

  lemma LastIs(key: seq<bv8>, nk: nat, w: seq<bv8>, n: nat, s: Block, round: nat)
    requires 0 < nk && |key| == 4 * nk && 4 * (round + 1) <= n && Filled(w, key, nk, n)
    ensures 16 * (round + 1) <= |w|
    ensures LastState(key, nk, round, s, AddRoundKey(ShiftRows(SubBytes(s)), w, round))
  {
    FilledLength(key, nk, w, n);
    hide Add, Entry, Moved, KeyByte, AddRoundKey, ShiftRows, SubBytes, Filled;
    var u := ShiftRows(SubBytes(s));
    var t := AddRoundKey(u, w, round);
    forall r, c | 0 <= r < 4 && 0 <= c < 4
      ensures Entry(t, r, c) == Add(Moved(s, r, c), KeyByte(key, nk, 4 * round + c, r))
    {
      KeyAdded(key, nk, w, n, u, round, r, c);
      SubShiftEntry(s, r, c);
    }
  }

  lemma FilledLength(key: seq<bv8>, nk: nat, w: seq<bv8>, n: nat)
    requires 0 < nk && |key| == 4 * nk && Filled(w, key, nk, n)
    ensures 4 * n <= |w|
  {
  }

  function States(block: Block, w: seq<bv8>, n: nat): (states: seq<Block>)
    requires 16 * (n + 1) <= |w|
    ensures |states| == n + 1
  {
    if n == 0 then [Rounds(block, w, 0)] else States(block, w, n - 1) + [Rounds(block, w, n)]
  }

  lemma {:induction false} StatesChain(key: seq<bv8>, nk: nat, w: seq<bv8>, m: nat, block: Block, n: nat)
    requires 0 < nk && |key| == 4 * nk && Filled(w, key, nk, m) && 4 * (n + 1) <= m
    ensures 16 * (n + 1) <= |w|
    ensures var states := States(block, w, n);
            && states[n] == Rounds(block, w, n)
            && FirstState(key, nk, block, states[0])
            && forall i :: 0 < i <= n ==> NextState(key, nk, i, states[i - 1], states[i])
    decreases n
  {
    FilledLength(key, nk, w, m);
    hide Filled, AddRoundKey, MixColumns, ShiftRows, SubBytes, FirstState, NextState, LastState;
    if n == 0 {
      FirstIs(key, nk, w, m, block);
    } else {
      StatesChain(key, nk, w, m, block, n - 1);
      RoundIsNext(key, nk, w, m, Rounds(block, w, n - 1), n);
    }
  }

  lemma CipherEnds(block: Block, w: seq<bv8>, n: nat)
    requires 16 * (n + 2) <= |w|
    ensures Cipher(block, w, n + 1) == AddRoundKey(ShiftRows(SubBytes(Rounds(block, w, n))), w, n + 1)
  {
    hide AddRoundKey, ShiftRows, SubBytes, Rounds;
  }

  lemma StatesMakeChain(key: seq<bv8>, nk: nat, w: seq<bv8>, n: nat, block: Block)
    requires 0 < nk && |key| == 4 * nk && Filled(w, key, nk, 4 * (n + 2))
    ensures 16 * (n + 2) <= |w| && Chain(key, nk, block, States(block, w, n), Cipher(block, w, n + 1))
  {
    FilledLength(key, nk, w, 4 * (n + 2));
    hide Filled, AddRoundKey, MixColumns, ShiftRows, SubBytes, FirstState, NextState, LastState, States, Rounds;
    StatesChain(key, nk, w, 4 * (n + 2), block, n);
    LastIs(key, nk, w, 4 * (n + 2), Rounds(block, w, n), n + 1);
    CipherEnds(block, w, n);
    hide Cipher;
  }

  /** With the schedule of a key in w, the cipher is the chain of states of the standard. */
  lemma CipherIsFips(key: seq<bv8>, nk: nat, w: seq<bv8>, block: Block)
    requires 0 < nk && |key| == 4 * nk && Filled(w, key, nk, 4 * (nk + 7))
    ensures 16 * (nk + 7) <= |w| && FipsCipher(key, nk, block, Cipher(block, w, nk + 6))
  {
    hide Filled, Chain, States, Cipher;
    StatesMakeChain(key, nk, w, nk + 5, block);
    assert |States(block, w, nk + 5)| == nk + 6;
  }

  // ---- and there is no other ----

  lemma SameEntries(s: Block, t: Block)
    requires forall r, c :: 0 <= r < 4 && 0 <= c < 4 ==> Entry(s, r, c) == Entry(t, r, c)
    ensures s == t
  {
    forall k | 0 <= k < 16
      ensures s[k] == t[k]
    {
      assert Entry(s, k % 4, k / 4) == Entry(t, k % 4, k / 4);
    }
  }

  lemma {:induction false} SameStates(key: seq<bv8>, nk: nat, input: Block, one: seq<Block>, out1: Block,
                                      two: seq<Block>, out2: Block, i: nat)
    requires 0 < nk && |key| == 4 * nk && |one| == |two| && i < |one|
    requires Chain(key, nk, input, one, out1) && Chain(key, nk, input, two, out2)
    ensures one[i] == two[i]
    decreases i
  {
    hide Add, Entry, Mixed, KeyByte;
    if i > 0 {
      SameStates(key, nk, input, one, out1, two, out2, i - 1);
      assert NextState(key, nk, i, one[i - 1], one[i]) && NextState(key, nk, i, two[i - 1], two[i]);
    }
    SameEntries(one[i], two[i]);
  }

  lemma FipsCipherUnique(key: seq<bv8>, nk: nat, input: Block, out1: Block, out2: Block)
    requires 0 < nk && |key| == 4 * nk && FipsCipher(key, nk, input, out1) && FipsCipher(key, nk, input, out2)
    ensures out1 == out2
  {
    hide Chain;
    var one: seq<Block> :| |one| == nk + 6 && Chain(key, nk, input, one, out1);
    var two: seq<Block> :| |two| == nk + 6 && Chain(key, nk, input, two, out2);
    SameStates(key, nk, input, one, out1, two, out2, nk + 5);
    SameLast(key, nk, input, one, out1, two, out2);
  }

  lemma SameLast(key: seq<bv8>, nk: nat, input: Block, one: seq<Block>, out1: Block, two: seq<Block>, out2: Block)
    requires 0 < nk && |key| == 4 * nk && |one| == |two| != 0 && one[|one| - 1] == two[|two| - 1]
    requires Chain(key, nk, input, one, out1) && Chain(key, nk, input, two, out2)
    ensures out1 == out2
  {
    hide Add, Entry, Moved, KeyByte;
    SameEntries(out1, out2);
  }
}
