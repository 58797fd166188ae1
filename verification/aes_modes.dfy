/** The AES context of aes.h and its modes. Buffers are byte arrays that the calls overwrite. */
module AesModes {
  import opened AesSpec
  import opened ModesSpec
  import opened Code = AesCipher
  import AesKeys
  import AesFips

  /** The block function of a schedule. */
  function Encipher(w: seq<bv8>, nr: nat): Block -> Block
    requires 1 <= nr && 16 * (nr + 1) <= |w|
  {
    (b: Block) => AesSpec.Cipher(b, w, nr)
  }

  function Decipher(w: seq<bv8>, nr: nat): Block -> Block
    requires 1 <= nr && 16 * (nr + 1) <= |w|
  {
    (b: Block) => AesSpec.InvCipher(b, w, nr)
  }

  lemma DecipherUndoesEncipher(w: seq<bv8>, nr: nat)
    requires 1 <= nr && 16 * (nr + 1) <= |w|
    ensures Undoes(Decipher(w, nr), Encipher(w, nr))
  {
    hide AesSpec.Cipher, AesSpec.InvCipher;
    forall b: Block
      ensures Decipher(w, nr)(Encipher(w, nr)(b)) == b
    {
      InvCipherUndoesCipher(b, w, nr);
    }
  }

  /** Every key whose schedule is w relates the two blocks as plaintext and ciphertext of FIPS 197. */
  ghost predicate IsFips(w: seq<bv8>, nk: nat, plain: Block, secret: Block)
    requires 0 < nk
  {
    forall key: seq<bv8> :: |key| == 4 * nk && AesKeys.Filled(w, key, nk, 4 * (nk + 7)) ==>
      AesFips.FipsCipher(key, nk, plain, secret)
  }

  lemma EncipherIsFips(w: seq<bv8>, nk: nat, b: Block)
    requires 0 < nk && 16 * (nk + 7) <= |w|
    ensures IsFips(w, nk, b, Encipher(w, nk + 6)(b))
  {
    hide AesSpec.Cipher, AesKeys.Filled, AesFips.FipsCipher;
    forall key: seq<bv8> | |key| == 4 * nk && AesKeys.Filled(w, key, nk, 4 * (nk + 7))
      ensures AesFips.FipsCipher(key, nk, b, Encipher(w, nk + 6)(b))
    {
      AesFips.CipherIsFips(key, nk, w, b);
    }
  }

  /** Deciphering finds the plaintext that the standard's cipher turns into the given block. */
  lemma DecipherIsFips(w: seq<bv8>, nk: nat, b: Block)
    requires 0 < nk && 16 * (nk + 7) <= |w|
    ensures IsFips(w, nk, Decipher(w, nk + 6)(b), b)
  {
    hide AesSpec.Cipher, AesSpec.InvCipher, IsFips;
    var plain := Decipher(w, nk + 6)(b);
    CipherUndoesInvCipher(b, w, nk + 6);
    EncipherIsFips(w, nk, plain);
  }

  /** CBC with the AES block function: for every schedule, IV and whole number of blocks. */
  lemma AesCbcRoundTrip(w: seq<bv8>, nr: nat, iv: Block, data: seq<bv8>)
    requires 1 <= nr && 16 * (nr + 1) <= |w| && WholeBlocks(data)
    ensures CbcDecrypt(Decipher(w, nr), iv, CbcEncrypt(Encipher(w, nr), iv, data)) == data
  {
    hide Encipher, Decipher;
    DecipherUndoesEncipher(w, nr);
    CbcRoundTrip(Encipher(w, nr), Decipher(w, nr), iv, data);
  }

  /** memcpy of one block. */
  method CopyBlock(dst: array<bv8>, d: nat, src: array<bv8>, s: nat)
    requires d + 16 <= dst.Length && s + 16 <= src.Length && (dst != src || d == s)
    modifies dst
    ensures At(dst, d) == old(At(src, s))
    ensures OnlyAt(dst, d)
  {
    for i := 0 to 16
      invariant OnlyAt(dst, d)
      invariant src[s + i..s + 16] == old(src[s + i..s + 16])
      invariant dst[d..d + i] == old(src[s..s + i])
    {
      assert src[s + i] == src[s + i..s + 16][0];
      dst[d + i] := src[s + i];
    }
  }

  /** The chaining block may lie in the same buffer, before the block that is overwritten. */
  method XorWithIv(buf: array<bv8>, p: nat, iv: array<bv8>, q: nat)
    requires p + 16 <= buf.Length && q + 16 <= iv.Length
    requires buf != iv || q + 16 <= p
    modifies buf
    ensures At(buf, p) == XorBlock(old(At(buf, p)), old(At(iv, q)))
    ensures OnlyAt(buf, p)
  {
    ghost var b, v := At(buf, p), At(iv, q);
    for i := 0 to 16
      invariant OnlyAt(buf, p) && At(iv, q) == v
      invariant forall k :: 0 <= k < 16 ==> At(buf, p)[k] == if k < i then b[k] ^ v[k] else b[k]
    {
      ghost var was := At(buf, p);
      assert iv[q + i] == v[i] && buf[p + i] == was[i];
      buf[p + i] := buf[p + i] ^ iv[q + i];
      assert At(buf, p) == was[i := b[i] ^ v[i]];
    }
  }

  // ---- passes over a buffer: `was` is the buffer before the pass, `now` in the middle of it ----

  /** Everything outside [p, at) is as it was. */
  ghost predicate OnlyBetween(was: seq<bv8>, now: seq<bv8>, p: nat, at: nat) {
    && |was| == |now| && p <= at <= |was|
    && now[..p] == was[..p] && now[at..] == was[at..]
  }

  ghost predicate EncryptedUpTo(f: Block -> Block, iv: Block, was: seq<bv8>, now: seq<bv8>, p: nat, at: nat) {
    && OnlyBetween(was, now, p, at) && (at - p) % 16 == 0
    && now[p..at] == CbcEncrypt(f, iv, was[p..at])
  }

  ghost predicate DecryptedUpTo(g: Block -> Block, iv: Block, was: seq<bv8>, now: seq<bv8>, p: nat, at: nat) {
    && OnlyBetween(was, now, p, at) && (at - p) % 16 == 0
    && now[p..at] == CbcDecrypt(g, iv, was[p..at])
  }

  ghost predicate XcryptedUpTo(f: Block -> Block, iv: Block, was: seq<bv8>, now: seq<bv8>, p: nat, at: nat) {
    && OnlyBetween(was, now, p, at)
    && now[p..at] == CtrCrypt(f, iv, was[p..at])
  }

  /** The chaining value when the pass has reached `at`. */
  function Chained(iv: Block, s: seq<bv8>, p: nat, at: nat): Block
    requires p <= at <= |s| && (at - p) % 16 == 0
  {
    LastBlock(iv, s[p..at])
  }

  lemma PassStarts(f: Block -> Block, iv: Block, was: seq<bv8>, p: nat)
    requires p <= |was|
    ensures EncryptedUpTo(f, iv, was, was, p, p) && DecryptedUpTo(f, iv, was, was, p, p)
    ensures XcryptedUpTo(f, iv, was, was, p, p)
    ensures Chained(iv, was, p, p) == iv
  {
  }

  lemma BetweenGrows(was: seq<bv8>, now: seq<bv8>, after: seq<bv8>, p: nat, at: nat, n: nat)
    requires OnlyBetween(was, now, p, at) && at + n <= |was|
    requires |after| == |now| && after[..at] == now[..at] && after[at + n..] == now[at + n..]
    ensures OnlyBetween(was, after, p, at + n)
    ensures now[at..at + n] == was[at..at + n]
    ensures was[p..at + n] == was[p..at] + was[at..at + n]
    ensures after[p..at + n] == now[p..at] + after[at..at + n]
  {
    assert now[at + n..] == now[at..][n..];
    assert now[at..at + n] == now[at..][..n];
    assert after[..p] == after[..at][..p];
    assert after[p..at] == after[..at][p..];
  }

  lemma EncryptedOneMore(f: Block -> Block, iv: Block, was: seq<bv8>, now: seq<bv8>, after: seq<bv8>, p: nat, at: nat)
    requires EncryptedUpTo(f, iv, was, now, p, at) && at + 16 <= |was|
    requires |after| == |now| && after[..at] == now[..at] && after[at + 16..] == now[at + 16..]
    requires after[at..at + 16] == f(XorBlock(now[at..at + 16], Chained(iv, now, p, at)))
    ensures EncryptedUpTo(f, iv, was, after, p, at + 16)
    ensures Chained(iv, after, p, at + 16) == after[at..at + 16]
  {
    hide CbcEncrypt, XorBlock;
    BetweenGrows(was, now, after, p, at, 16);
    CbcOneMore(f, iv, was[p..at], was[at..at + 16]);
  }

  lemma DecryptedOneMore(g: Block -> Block, iv: Block, was: seq<bv8>, now: seq<bv8>, after: seq<bv8>, p: nat, at: nat)
    requires DecryptedUpTo(g, iv, was, now, p, at) && at + 16 <= |was|
    requires |after| == |now| && after[..at] == now[..at] && after[at + 16..] == now[at + 16..]
    requires after[at..at + 16] == XorBlock(g(now[at..at + 16]), Chained(iv, was, p, at))
    ensures DecryptedUpTo(g, iv, was, after, p, at + 16)
    ensures Chained(iv, was, p, at + 16) == now[at..at + 16]
  {
    hide CbcDecrypt, XorBlock;
    BetweenGrows(was, now, after, p, at, 16);
    CbcOneMore(g, iv, was[p..at], was[at..at + 16]);
  }

  lemma XcryptedOneMore(f: Block -> Block, iv: Block, was: seq<bv8>, now: seq<bv8>, p: nat, at: nat, key: bv8)
    requires XcryptedUpTo(f, iv, was, now, p, at) && at < |was|
    requires key == f(CounterBlock(iv, (at - p) / 16))[(at - p) % 16]
    ensures XcryptedUpTo(f, iv, was, now[at := now[at] ^ key], p, at + 1)
  {
    hide CounterBlock, CtrCrypt;
    var after := now[at := now[at] ^ key];
    var done := was[p..at];
    BetweenGrows(was, now, after, p, at, 1);
    assert was[at..at + 1] == [now[at]] by { assert now[at..at + 1] == [now[at]]; }
    assert after[at..at + 1] == [now[at] ^ key];
    hide OnlyBetween;
    assert |done| == at - p;
    CtrOneMore(f, iv, done, now[at], key);
  }

  class AesContext {
    const nk: nat
    const roundKey: array<bv8>
    const iv: array<bv8>

    ghost predicate Valid() {
      && (nk == 4 || nk == 6 || nk == 8)
      && roundKey.Length == 16 * (nk + 7)
      && iv.Length == 16
      && roundKey != iv
    }

    /** A buffer the context can work on: length bytes at p, apart from the context itself. */
    ghost predicate Buffer(buf: array<bv8>, p: nat, length: nat) {
      p + length <= buf.Length && buf != roundKey && buf != iv
    }

    function Forward(): Block -> Block
      requires Valid()
      reads roundKey
    {
      Encipher(roundKey[..], nk + 6)
    }

    function Backward(): Block -> Block
      requires Valid()
      reads roundKey
    {
      Decipher(roundKey[..], nk + 6)
    }

    constructor (nk: nat)
      requires nk == 4 || nk == 6 || nk == 8
      ensures Valid() && this.nk == nk && fresh(roundKey) && fresh(iv)
    {
      this.nk := nk;
      roundKey := new bv8[16 * (nk + 7)];
      iv := new bv8[16];
    }

    method Init(key: array<bv8>)
      requires Valid() && key.Length == 4 * nk && key != roundKey
      modifies roundKey
      ensures AesKeys.Filled(roundKey[..], key[..], nk, 4 * (nk + 7))
    {
      AesKeys.KeyExpansion(roundKey, key, nk);
    }

    method SetIv(value: array<bv8>)
      requires Valid() && value.Length == 16 && value != iv
      modifies iv
      ensures iv[..] == value[..]
    {
      CopyBlock(iv, 0, value, 0);
      assert iv[..] == At(iv, 0) && value[..] == At(value, 0);
    }

    method InitIv(key: array<bv8>, value: array<bv8>)
      requires Valid() && key.Length == 4 * nk && key != roundKey && key != iv
      requires value.Length == 16 && value != iv && value != roundKey
      modifies roundKey, iv
      ensures AesKeys.Filled(roundKey[..], key[..], nk, 4 * (nk + 7))
      ensures iv[..] == value[..]
    {
      Init(key);
      SetIv(value);
    }

    method EcbEncrypt(buf: array<bv8>, p: nat)
      requires Valid() && Buffer(buf, p, 16)
      modifies buf
      ensures At(buf, p) == Forward()(old(At(buf, p)))
      ensures IsFips(roundKey[..], nk, old(At(buf, p)), At(buf, p))
      ensures OnlyAt(buf, p)
    {
      hide AesSpec.Cipher, IsFips;
      EncipherIsFips(roundKey[..], nk, At(buf, p));
      Code.Cipher(buf, p, roundKey, nk + 6);
    }

    method EcbDecrypt(buf: array<bv8>, p: nat)
      requires Valid() && Buffer(buf, p, 16)
      modifies buf
      ensures At(buf, p) == Backward()(old(At(buf, p)))
      ensures IsFips(roundKey[..], nk, At(buf, p), old(At(buf, p)))
      ensures OnlyAt(buf, p)
    {
      hide AesSpec.InvCipher, IsFips;
      DecipherIsFips(roundKey[..], nk, At(buf, p));
      Code.InvCipher(buf, p, roundKey, nk + 6);
    }

    /** The body of the encryption loop. */
    method CbcEncryptBlock(buf: array<bv8>, at: nat, chain: array<bv8>, q: nat)
      requires Valid() && Buffer(buf, at, 16)
      requires q + 16 <= chain.Length && (buf != chain || q + 16 <= at)
      modifies buf
      ensures At(buf, at) == Forward()(XorBlock(old(At(buf, at)), old(At(chain, q))))
      ensures OnlyAt(buf, at)
    {
      hide AesSpec.Cipher, Encipher, XorBlock;
      XorWithIv(buf, at, chain, q);
      EcbEncrypt(buf, at);
    }

    method CbcEncryptBuffer(buf: array<bv8>, p: nat, length: nat)
      requires Valid() && Buffer(buf, p, length) && length % 16 == 0
      modifies buf, iv
      ensures EncryptedUpTo(Forward(), old(At(iv, 0)), old(buf[..]), buf[..], p, p + length)
      ensures At(iv, 0) == Chained(old(At(iv, 0)), buf[..], p, p + length)
    {
      hide AesSpec.Cipher, Encipher, XorBlock, EncryptedUpTo, Chained;
      ghost var f, iv0, was := Forward(), At(iv, 0), buf[..];
      PassStarts(f, iv0, was, p);
      var chain, q, at := iv, 0, p;
      var i := 0;
      while i < length
        invariant 0 <= i <= length && i % 16 == 0 && at == p + i
        invariant if i == 0 then chain == iv && q == 0 else chain == buf && q == at - 16
        invariant EncryptedUpTo(f, iv0, was, buf[..], p, at)
        invariant At(chain, q) == Chained(iv0, buf[..], p, at)
      {
        ghost var now := buf[..];
        CbcEncryptBlock(buf, at, chain, q);
        EncryptedOneMore(f, iv0, was, now, buf[..], p, at);
        chain, q := buf, at;
        at := at + 16;
        i := i + 16;
      }
      CopyBlock(iv, 0, chain, q);
    }

    /** The body of the decryption loop. */
    method CbcDecryptBlock(buf: array<bv8>, at: nat, storeNextIv: array<bv8>)
      requires Valid() && Buffer(buf, at, 16)
      requires storeNextIv.Length == 16 && storeNextIv != buf && storeNextIv != iv && storeNextIv != roundKey
      modifies buf, iv, storeNextIv
      ensures At(buf, at) == XorBlock(Backward()(old(At(buf, at))), old(At(iv, 0)))
      ensures At(iv, 0) == old(At(buf, at))
      ensures OnlyAt(buf, at)
    {
      hide AesSpec.InvCipher, Decipher, XorBlock;
      CopyBlock(storeNextIv, 0, buf, at);
      EcbDecrypt(buf, at);
      XorWithIv(buf, at, iv, 0);
      CopyBlock(iv, 0, storeNextIv, 0);
    }

    method CbcDecryptBuffer(buf: array<bv8>, p: nat, length: nat)
      requires Valid() && Buffer(buf, p, length) && length % 16 == 0
      modifies buf, iv
      ensures DecryptedUpTo(Backward(), old(At(iv, 0)), old(buf[..]), buf[..], p, p + length)
      ensures At(iv, 0) == Chained(old(At(iv, 0)), old(buf[..]), p, p + length)
    {
      hide AesSpec.InvCipher, Decipher, XorBlock, DecryptedUpTo, Chained;
      ghost var g, iv0, was := Backward(), At(iv, 0), buf[..];
      PassStarts(g, iv0, was, p);
      var storeNextIv := new bv8[16];
      var at := p;
      var i := 0;
      while i < length
        invariant 0 <= i <= length && i % 16 == 0 && at == p + i
        invariant DecryptedUpTo(g, iv0, was, buf[..], p, at)
        invariant At(iv, 0) == Chained(iv0, was, p, at)
      {
        ghost var now := buf[..];
        CbcDecryptBlock(buf, at, storeNextIv);
        DecryptedOneMore(g, iv0, was, now, buf[..], p, at);
        at := at + 16;
        i := i + 16;
      }
    }

    /** The carry loop: index bi runs down from 15 and stops at the first byte that does not overflow. */
    method IncrementIv()
      requires Valid()
      modifies iv
      ensures At(iv, 0) == Increment(old(At(iv, 0)))
    {
      hide Increment;
      ghost var was := iv[..];
      assert was == At(iv, 0) && was[..16] == was;
      var bi := 15;
      while bi >= 0
        invariant -1 <= bi <= 15
        invariant iv[..bi + 1] == was[..bi + 1]
        invariant Increment(was) == Increment(was[..bi + 1]) + iv[bi + 1..]
      {
        ghost var tail := iv[bi + 1..];
        IncrementLast(was[..bi + 1]);
        assert was[..bi + 1][..bi] == was[..bi];
        assert iv[bi] == iv[..bi + 1][bi];
        if iv[bi] == 255 {
          iv[bi] := 0;
          assert iv[bi..] == [0] + tail;
          bi := bi - 1;
          continue;
        }
        iv[bi] := iv[bi] + 1;
        assert iv[..] == was[..bi] + [was[bi] + 1] + tail;
        break;
      }
      IncrementNothing();
      assert At(iv, 0) == iv[..];
    }

    /** A fresh block of keystream, and the counter moved on. */
    method NextKeystream(buffer: array<bv8>)
      requires Valid() && Buffer(buffer, 0, 16) && buffer.Length == 16
      modifies buffer, iv
      ensures At(buffer, 0) == Forward()(old(At(iv, 0)))
      ensures At(iv, 0) == Increment(old(At(iv, 0)))
    {
      hide AesSpec.Cipher, Encipher, Increment;
      CopyBlock(buffer, 0, iv, 0);
      EcbEncrypt(buffer, 0);
      IncrementIv();
    }

    method CtrXcryptBuffer(buf: array<bv8>, p: nat, length: nat)
      requires Valid() && Buffer(buf, p, length)
      modifies buf, iv
      ensures XcryptedUpTo(Forward(), old(At(iv, 0)), old(buf[..]), buf[..], p, p + length)
      ensures At(iv, 0) == CtrNextIv(old(At(iv, 0)), length)
    {
      hide AesSpec.Cipher, Encipher, CounterBlock, Increment, XcryptedUpTo;
      var buffer := new bv8[16];
      ghost var f, iv0, was := Forward(), At(iv, 0), buf[..];
      PassStarts(f, iv0, was, p);
      CounterSteps(iv0, 0);
      var i, bi := 0, 16;
      while i < length
        invariant 0 <= i <= length
        invariant bi == if i % 16 == 0 then 16 else i % 16
        invariant At(iv, 0) == CounterBlock(iv0, (i + 15) / 16)
        invariant i % 16 != 0 ==> At(buffer, 0) == f(CounterBlock(iv0, i / 16))
        invariant XcryptedUpTo(f, iv0, was, buf[..], p, p + i)
      {
        if bi == 16 {
          CounterSteps(iv0, i / 16);
          NextKeystream(buffer);
          bi := 0;
        }
        assert buffer[bi] == At(buffer, 0)[bi];
        XcryptedOneMore(f, iv0, was, buf[..], p, p + i, buffer[bi]);
        ghost var now := buf[..];
        buf[p + i] := buf[p + i] ^ buffer[bi];
        assert buf[..] == now[p + i := now[p + i] ^ buffer[bi]];
        i := i + 1;
        bi := bi + 1;
      }
    }
  }
}
