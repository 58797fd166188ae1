/** Cipher block chaining and counter mode, for any block function f. */
module ModesSpec {
  import opened AesSpec

  function XorBlock(s: Block, t: Block): Block {
    seq(16, k requires 0 <= k < 16 => s[k] ^ t[k])
  }

  predicate WholeBlocks(data: seq<bv8>) {
    |data| % 16 == 0
  }

  // ---- CBC: SP 800-38A section 6.2 ----

  function CbcEncrypt(f: Block -> Block, iv: Block, data: seq<bv8>): (c: seq<bv8>)
    requires WholeBlocks(data)
    ensures |c| == |data|
    decreases |data|
  {
    if data == [] then []
    else
      var b := f(XorBlock(data[..16], iv));
      b + CbcEncrypt(f, b, data[16..])
  }

  function CbcDecrypt(g: Block -> Block, iv: Block, data: seq<bv8>): (p: seq<bv8>)
    requires WholeBlocks(data)
    ensures |p| == |data|
    decreases |data|
  {
    if data == [] then []
    else XorBlock(g(data[..16]), iv) + CbcDecrypt(g, data[..16], data[16..])
  }

  /** The chaining value after the ciphertext c: its last block, or the IV when there is none. */
  function LastBlock(iv: Block, c: seq<bv8>): Block
    requires WholeBlocks(c)
  {
    if c == [] then iv else c[|c| - 16..]
  }

  ghost predicate Undoes(g: Block -> Block, f: Block -> Block) {
    forall b: Block :: g(f(b)) == b
  }

  lemma XorBlockTwice(s: Block, t: Block)
    ensures XorBlock(XorBlock(s, t), t) == s
  {
  }

  /** Decryption restores every whole number of blocks, for every IV. */
  lemma {:induction false} CbcRoundTrip(f: Block -> Block, g: Block -> Block, iv: Block, data: seq<bv8>)
    requires Undoes(g, f) && WholeBlocks(data)
    ensures CbcDecrypt(g, iv, CbcEncrypt(f, iv, data)) == data
    decreases |data|
  {
    hide XorBlock;
    if data != [] {
      var b := f(XorBlock(data[..16], iv));
      var c := CbcEncrypt(f, iv, data);
      assert c[..16] == b && c[16..] == CbcEncrypt(f, b, data[16..]);
      CbcRoundTrip(f, g, b, data[16..]);
      XorBlockTwice(data[..16], iv);
    }
  }

  lemma CbcEncryptFirst(f: Block -> Block, iv: Block, b: Block, rest: seq<bv8>)
    requires WholeBlocks(rest) && WholeBlocks(b + rest)
    ensures CbcEncrypt(f, iv, b + rest) == f(XorBlock(b, iv)) + CbcEncrypt(f, f(XorBlock(b, iv)), rest)
  {
    hide XorBlock;
    assert (b + rest)[..16] == b && (b + rest)[16..] == rest;
  }

  lemma LastBlockAfter(iv: Block, b: Block, c: seq<bv8>)
    requires WholeBlocks(c) && WholeBlocks(b + c)
    ensures LastBlock(iv, b + c) == LastBlock(b, c)
  {
  }

  /** Encrypting a buffer is encrypting a front part and then, from the chaining value that leaves, the rest. */
  lemma {:induction false} CbcEncryptSplit(f: Block -> Block, iv: Block, front: seq<bv8>, rest: seq<bv8>)
    requires WholeBlocks(front) && WholeBlocks(rest) && WholeBlocks(front + rest)
    ensures CbcEncrypt(f, iv, front + rest)
         == CbcEncrypt(f, iv, front) + CbcEncrypt(f, LastBlock(iv, CbcEncrypt(f, iv, front)), rest)
    decreases |front|
  {
    if front == [] {
      assert front + rest == rest;
    } else {
      hide XorBlock, LastBlock, CbcEncrypt, WholeBlocks;
      FirstBlock(front, rest);
      var first, more := front[..16], front[16..];
      var b := f(XorBlock(first, iv));
      CbcEncryptFirst(f, iv, first, more);
      CbcEncryptFirst(f, iv, first, more + rest);
      CbcEncryptSplit(f, b, more, rest);
      var c := CbcEncrypt(f, b, more);
      WholeCipher(b, c);
      LastBlockAfter(iv, b, c);
      Associates(b, c, CbcEncrypt(f, LastBlock(b, c), rest));
    }
  }

  lemma FirstBlock(front: seq<bv8>, rest: seq<bv8>)
    requires WholeBlocks(front) && WholeBlocks(rest) && front != []
    ensures |front| >= 16 && WholeBlocks(front[16..]) && WholeBlocks(front[16..] + rest)
    ensures front == front[..16] + front[16..] && front + rest == front[..16] + (front[16..] + rest)
    ensures WholeBlocks(front[..16] + front[16..]) && WholeBlocks(front[..16] + (front[16..] + rest))
  {
  }

  lemma WholeCipher(b: Block, c: seq<bv8>)
    requires WholeBlocks(b + c) || WholeBlocks(c)
    ensures WholeBlocks(c) && WholeBlocks(b + c)
  {
  }

  lemma Associates(a: seq<bv8>, b: seq<bv8>, c: seq<bv8>)
    ensures a + (b + c) == (a + b) + c
  {
  }

  lemma {:induction false} CbcDecryptSplit(g: Block -> Block, iv: Block, front: seq<bv8>, rest: seq<bv8>)
    requires WholeBlocks(front) && WholeBlocks(rest) && WholeBlocks(front + rest)
    ensures CbcDecrypt(g, iv, front + rest) == CbcDecrypt(g, iv, front) + CbcDecrypt(g, LastBlock(iv, front), rest)
    decreases |front|
  {
    hide XorBlock;
    if front == [] {
      assert front + rest == rest;
    } else {
      assert (front + rest)[..16] == front[..16];
      assert (front + rest)[16..] == front[16..] + rest;
      CbcDecryptSplit(g, front[..16], front[16..], rest);
      assert LastBlock(iv, front) == LastBlock(front[..16], front[16..]);
    }
  }

  /** One more block at the end, on either side. */
  lemma CbcOneMore(f: Block -> Block, iv: Block, front: seq<bv8>, b: Block)
    requires WholeBlocks(front)
    ensures CbcEncrypt(f, iv, front + b)
         == CbcEncrypt(f, iv, front) + f(XorBlock(b, LastBlock(iv, CbcEncrypt(f, iv, front))))
    ensures CbcDecrypt(f, iv, front + b) == CbcDecrypt(f, iv, front) + XorBlock(f(b), LastBlock(iv, front))
  {
    hide XorBlock;
    CbcEncryptSplit(f, iv, front, b);
    CbcDecryptSplit(f, iv, front, b);
    assert b[..16] == b && b[16..] == [];
  }

  // ---- CBC byte by byte ----

  /** Byte k of the chain IV, first ciphertext block, second ciphertext block, ... */
  function Chaining(iv: Block, c: seq<bv8>, k: nat): bv8
    requires k < |c| + 16
  {
    if k < 16 then iv[k] else c[k - 16]
  }

  /** Ciphertext block i enciphers the block b whose bytes are data bytes plus chaining bytes, each in its place. */
  lemma {:induction false} CbcEncryptBytes(f: Block -> Block, iv: Block, data: seq<bv8>, i: nat, b: Block)
    requires WholeBlocks(data) && 16 * i + 16 <= |data|
    requires forall j :: 0 <= j < 16 ==> b[j] == data[16 * i + j] ^ Chaining(iv, CbcEncrypt(f, iv, data), 16 * i + j)
    ensures CbcEncrypt(f, iv, data)[16 * i..16 * i + 16] == f(b)
    decreases i
  {
    var first := f(XorBlock(data[..16], iv));
    var rest: seq<bv8> := CbcEncrypt(f, first, data[16..]);
    var all: seq<bv8> := CbcEncrypt(f, iv, data);
    assert all == first + rest;
    if i == 0 {
      assert b == XorBlock(data[..16], iv);
    } else {
      hide XorBlock, CbcEncrypt;
      var n := i - 1;
      forall j | 0 <= j < 16
        ensures b[j] == data[16..][16 * n + j] ^ Chaining(first, rest, 16 * n + j)
      {
        assert data[16..][16 * n + j] == data[16 * i + j];
        assert Chaining(iv, all, 16 * i + j) == Chaining(first, rest, 16 * n + j);
      }
      CbcEncryptBytes(f, first, data[16..], n, b);
      assert all[16 * i..16 * i + 16] == rest[16 * n..16 * n + 16];
    }
  }

  /** Byte k of the plaintext is byte k of the deciphered blocks plus the chaining byte in its place. */
  lemma {:induction false} CbcDecryptBytes(g: Block -> Block, iv: Block, data: seq<bv8>, i: nat, j: nat)
    requires WholeBlocks(data) && 16 * i + 16 <= |data| && j < 16
    ensures CbcDecrypt(g, iv, data)[16 * i + j]
         == g(data[16 * i..16 * i + 16])[j] ^ Chaining(iv, data, 16 * i + j)
    decreases i
  {
    if i == 0 {
      hide CbcDecrypt;
      CbcDecryptFirst(g, iv, data);
    } else {
      CbcDecryptFirst(g, iv, data);
      hide CbcDecrypt, XorBlock;
      var first, rest, n := data[..16], data[16..], i - 1;
      CbcDecryptBytes(g, first, rest, n, j);
      assert rest[16 * n..16 * n + 16] == data[16 * i..16 * i + 16];
      assert Chaining(first, rest, 16 * n + j) == Chaining(iv, data, 16 * i + j);
    }
  }

  lemma CbcDecryptFirst(g: Block -> Block, iv: Block, data: seq<bv8>)
    requires WholeBlocks(data) && data != []
    ensures var all: seq<bv8> := CbcDecrypt(g, iv, data);
            && all[..16] == XorBlock(g(data[..16]), iv)
            && all[16..] == CbcDecrypt(g, data[..16], data[16..])
  {
    hide XorBlock;
  }

  // ---- counters: a block as a number, most significant byte first ----

  function Pow256(n: nat): (p: nat)
    ensures p > 0
  {
    if n == 0 then 1 else 256 * Pow256(n - 1)
  }

  function Value(s: seq<bv8>): nat {
    if s == [] then 0 else 256 * Value(s[..|s| - 1]) + s[|s| - 1] as nat
  }

  /** The standard incrementing function of SP 800-38A appendix B.1, as the code's carry loop does it. */
  function Increment(s: seq<bv8>): (t: seq<bv8>)
    ensures |t| == |s|
  {
    if s == [] then []
    else if s[|s| - 1] == 255 then Increment(s[..|s| - 1]) + [0]
    else s[..|s| - 1] + [s[|s| - 1] + 1]
  }

  lemma IncrementNothing()
    ensures Increment([]) == []
  {
  }

  lemma IncrementLast(s: seq<bv8>)
    requires s != []
    ensures Increment(s) == if s[|s| - 1] == 255 then Increment(s[..|s| - 1]) + [0]
                            else s[..|s| - 1] + [s[|s| - 1] + 1]
  {
  }

  lemma {:induction false} ValueBound(s: seq<bv8>)
    ensures Value(s) < Pow256(|s|)
  {
    if s != [] {
      ValueBound(s[..|s| - 1]);
    }
  }

  lemma ByteFacts(x: bv8)
    ensures 0 <= x as nat < 256 && (x as nat) as bv8 == x
    ensures x as nat == 255 <==> x == 255
    ensures x != 255 ==> (x + 1) as nat == x as nat + 1
  {
  }

  lemma NextModulo(v: nat, p: nat)
    requires v < p
    ensures (v + 1) % p == if v + 1 == p then 0 else v + 1
  {
  }

  /** Incrementing a front part and a last byte, as numbers. */
  lemma IncrementOfParts(front: seq<bv8>, last: bv8)
    requires Value(Increment(front)) == (Value(front) + 1) % Pow256(|front|)
    ensures var v, p := 256 * Value(front) + last as nat, 256 * Pow256(|front|);
            v < p && (if last == 255 then 256 * Value(Increment(front)) else v + 1) == (v + 1) % p
  {
    hide Value, Increment, Pow256;
    ValueBound(front);
    ByteFacts(last);
    NextModulo(Value(front), Pow256(|front|));
    NextModulo(256 * Value(front) + last as nat, 256 * Pow256(|front|));
  }

  lemma ValueOfParts(front: seq<bv8>, last: bv8)
    ensures Value(front + [last]) == 256 * Value(front) + last as nat
  {
    assert (front + [last])[..|front|] == front;
  }

  /** The carry loop adds one modulo a power of 256, for every number of bytes. */
  lemma {:induction false} IncrementAddsOne(s: seq<bv8>)
    ensures Value(Increment(s)) == (Value(s) + 1) % Pow256(|s|)
  {
    if s != [] {
      var front, last := s[..|s| - 1], s[|s| - 1];
      IncrementAddsOne(front);
      IncrementOfParts(front, last);
      ByteFacts(last);
      ValueOfParts(Increment(front), 0);
      ValueOfParts(front, last + 1);
    }
  }

  /** A number is read most significant byte first: bytes in front count 256 times more for each byte behind them. */
  lemma {:induction false} ValueOfConcat(front: seq<bv8>, rest: seq<bv8>)
    ensures Value(front + rest) == Value(front) * Pow256(|rest|) + Value(rest)
    decreases |rest|
  {
    PowersOf256(|rest|);
    hide Value, Pow256;
    if rest == [] {
      assert front + rest == front;
      ValueOfNothing();
    } else {
      var some, last := rest[..|rest| - 1], rest[|rest| - 1];
      assert front + rest == (front + some) + [last] && rest == some + [last];
      ValueOfParts(front + some, last);
      ValueOfParts(some, last);
      ValueOfConcat(front, some);
      assert |some| == |rest| - 1;
      Shifted(Value(front), Pow256(|some|));
    }
  }

  lemma Shifted(v: nat, p: nat)
    ensures v * (256 * p) == 256 * (v * p)
  {
  }

  lemma PowersOf256(n: nat)
    ensures Pow256(n) == if n == 0 then 1 else 256 * Pow256(n - 1)
  {
  }

  lemma ValueOfNothing()
    ensures Value([]) == 0
  {
  }

  lemma SameParts(a: nat, x: bv8, b: nat, y: bv8)
    requires 256 * a + x as nat == 256 * b + y as nat
    ensures a == b && x == y
  {
    ByteFacts(x);
    ByteFacts(y);
    SameByte(x, y);
  }

  lemma {:induction false} ValueInjective(s: seq<bv8>, t: seq<bv8>)
    requires |s| == |t| && Value(s) == Value(t)
    ensures s == t
  {
    if s != [] {
      var f, x, g, y := s[..|s| - 1], s[|s| - 1], t[..|t| - 1], t[|t| - 1];
      SameParts(Value(f), x, Value(g), y);
      ValueInjective(f, g);
      assert s == f + [x] && t == g + [y];
    }
  }

  lemma SameByte(x: bv8, y: bv8)
    ensures x as nat == y as nat ==> x == y
  {
  }

  lemma MultipleIsLarge(d: int, e: int)
    requires d > 0
    ensures e >= 1 ==> d * e >= d
    ensures e <= -1 ==> d * e <= -d
  {
  }

  lemma ModuloUnique(v: nat, d: nat, k: nat, r: nat)
    requires r < d && v == d * k + r
    ensures v % d == r
  {
    var k', r' := v / d, v % d;
    assert v == d * k' + r';
    var e := k - k';
    assert d * k == d * k' + d * e;
    MultipleIsLarge(d, e);
  }

  lemma ModuloOfSuccessor(v: nat, p: nat)
    requires p > 0
    ensures (v % p + 1) % p == (v + 1) % p
  {
    NextModulo(v % p, p);
    if v % p + 1 == p {
      assert v + 1 == p * (v / p + 1) + 0;
      ModuloUnique(v + 1, p, v / p + 1, 0);
    } else {
      ModuloUnique(v + 1, p, v / p, v % p + 1);
    }
  }

  /** The counter block n calls of the carry loop after iv. */
  function CounterBlock(iv: Block, n: nat): Block {
    if n == 0 then iv else Increment(CounterBlock(iv, n - 1))
  }

  lemma CounterSteps(iv: Block, n: nat)
    ensures CounterBlock(iv, 0) == iv
    ensures CounterBlock(iv, n + 1) == Increment(CounterBlock(iv, n))
  {
    hide Increment;
  }

  /** As a number it is n places after iv, modulo 2^128. */
  lemma {:induction false} CounterValue(iv: Block, n: nat)
    ensures Value(CounterBlock(iv, n)) == (Value(iv) + n) % Pow256(16)
  {
    hide Value, Increment, Pow256, CounterBlock;
    var p := Pow256(16);
    if n == 0 {
      CounterSteps(iv, 0);
      ValueBound(iv);
      ModuloUnique(Value(iv), p, 0, Value(iv));
    } else {
      CounterSteps(iv, n - 1);
      CounterValue(iv, n - 1);
      IncrementAddsOne(CounterBlock(iv, n - 1));
      ModuloOfSuccessor(Value(iv) + (n - 1), p);
      assert Value(iv) + (n - 1) + 1 == Value(iv) + n;
    }
  }

  /** And it is the only block with that value. */
  lemma CounterUnique(iv: Block, n: nat, c: Block)
    ensures c == CounterBlock(iv, n) <==> Value(c) == (Value(iv) + n) % 0x1_0000_0000_0000_0000_0000_0000_0000_0000
  {
    hide Value, CounterBlock;
    Modulus();
    CounterValue(iv, n);
    if Value(c) == Value(CounterBlock(iv, n)) {
      ValueInjective(c, CounterBlock(iv, n));
    }
  }

  lemma Modulus()
    ensures Pow256(16) == 0x1_0000_0000_0000_0000_0000_0000_0000_0000
  {
    assert Pow256(4) == 0x1_0000_0000;
    assert Pow256(8) == 0x1_0000_0000_0000_0000;
    assert Pow256(12) == 0x1_0000_0000_0000_0000_0000_0000;
  }

  // ---- CTR: SP 800-38A section 6.5 ----

  function CtrCrypt(f: Block -> Block, iv: Block, data: seq<bv8>): (r: seq<bv8>)
    ensures |r| == |data|
  {
    seq(|data|, i requires 0 <= i < |data| => data[i] ^ f(CounterBlock(iv, i / 16))[i % 16])
  }

  /** Byte i is added to byte i mod 16 of the enciphered block whose value is IV + i / 16, whatever the length. */
  lemma CtrBytes(f: Block -> Block, iv: Block, data: seq<bv8>, i: nat, c: Block)
    requires i < |data| && Value(c) == (Value(iv) + i / 16) % 0x1_0000_0000_0000_0000_0000_0000_0000_0000
    ensures CtrCrypt(f, iv, data)[i] == data[i] ^ f(c)[i % 16]
  {
    hide CounterBlock, Value;
    CounterUnique(iv, i / 16, c);
  }

  lemma CtrOneMore(f: Block -> Block, iv: Block, front: seq<bv8>, x: bv8, key: bv8)
    requires key == f(CounterBlock(iv, |front| / 16))[|front| % 16]
    ensures CtrCrypt(f, iv, front + [x]) == CtrCrypt(f, iv, front) + [x ^ key]
  {
    hide CounterBlock;
    var one, two := CtrCrypt(f, iv, front + [x]), CtrCrypt(f, iv, front) + [x ^ key];
    forall i | 0 <= i < |one|
      ensures one[i] == two[i]
    {
      if i < |front| {
        assert (front + [x])[i] == front[i];
      } else {
        assert (front + [x])[i] == x;
      }
    }
  }

  /** The counter block for the next call. */
  function CtrNextIv(iv: Block, length: nat): Block {
    CounterBlock(iv, (length + 15) / 16)
  }

  /** The same call decrypts what it encrypted. */
  lemma CtrIsInvolution(f: Block -> Block, iv: Block, data: seq<bv8>)
    ensures CtrCrypt(f, iv, CtrCrypt(f, iv, data)) == data
  {
    var c := CtrCrypt(f, iv, data);
    forall i | 0 <= i < |data|
      ensures CtrCrypt(f, iv, c)[i] == data[i]
    {
      XorTwice(data[i], f(CounterBlock(iv, i / 16))[i % 16]);
    }
  }

  lemma XorTwice(x: bv8, y: bv8)
    ensures (x ^ y) ^ y == x
  {
  }

  // ---- one call or several ----

  lemma {:induction false} CounterOfCounter(iv: Block, m: nat, n: nat)
    ensures CounterBlock(CounterBlock(iv, m), n) == CounterBlock(iv, m + n)
    decreases n
  {
    hide Increment;
    if n > 0 {
      CounterOfCounter(iv, m, n - 1);
    }
  }

  /** After a whole number of blocks a second call goes on where the first one stopped. */
  lemma CtrSplit(f: Block -> Block, iv: Block, front: seq<bv8>, rest: seq<bv8>)
    requires WholeBlocks(front)
    ensures CtrCrypt(f, iv, front + rest)
         == CtrCrypt(f, iv, front) + CtrCrypt(f, CtrNextIv(iv, |front|), rest)
  {
    hide CounterBlock;
    var n := |front| / 16;
    var one, two := CtrCrypt(f, iv, front + rest), CtrCrypt(f, iv, front) + CtrCrypt(f, CtrNextIv(iv, |front|), rest);
    forall i | 0 <= i < |one|
      ensures one[i] == two[i]
    {
      if i >= |front| {
        var j := i - |front|;
        assert i / 16 == n + j / 16 && i % 16 == j % 16;
        CounterOfCounter(iv, n, j / 16);
      }
    }
  }

  /** Two calls use up as many counter blocks as one, unless both end inside a block and the two
      partial blocks would fit into one. */
  predicate SplitKeepsCount(a: nat, b: nat) {
    a % 16 == 0 || b % 16 == 0 || a % 16 + b % 16 > 16
  }

  lemma CountOfBlocks(a: nat, b: nat)
    ensures (a + 15) / 16 + (b + 15) / 16 == (a + b + 15) / 16 + (if SplitKeepsCount(a, b) then 0 else 1)
  {
    var q, r, q', r' := a / 16, a % 16, b / 16, b % 16;
    assert a == 16 * q + r && b == 16 * q' + r';
    assert (a + 15) / 16 == q + (if r == 0 then 0 else 1);
    assert (b + 15) / 16 == q' + (if r' == 0 then 0 else 1);
    assert (a + b + 15) / 16 == q + q' + (r + r' + 15) / 16;
  }

  lemma NeighboursDiffer(v: nat, p: nat)
    requires p > 1
    ensures (v + 1) % p != v % p
  {
    ModuloOfSuccessor(v, p);
    NextModulo(v % p, p);
  }

  /** Two calls leave the IV that one call leaves if and only if the split keeps the count. */
  lemma CtrNextIvSplit(iv: Block, a: nat, b: nat)
    ensures CtrNextIv(CtrNextIv(iv, a), b) == CtrNextIv(iv, a + b) <==> SplitKeepsCount(a, b)
  {
    hide Value, CounterBlock, Pow256;
    var n := (a + b + 15) / 16;
    CountOfBlocks(a, b);
    CounterOfCounter(iv, (a + 15) / 16, (b + 15) / 16);
    CounterValue(iv, n);
    CounterValue(iv, n + 1);
    Modulus();
    NeighboursDiffer(Value(iv) + n, Pow256(16));
  }
}
