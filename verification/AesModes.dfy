/** The CBC and CTR modes of examples/aes_encrypt/aes.c, as in sections 6.2 and 6.5 of SP 800-38A, and the
    big-endian counter they share.

    A pointer into a buffer is an array and an offset; input and output may be the same buffer. */
module AesModes {
  import opened Aes

  // ---------- Blocks and sums ----------

  function AddBytes(a: seq<Byte>, b: seq<Byte>): (s: seq<Byte>)
    requires |a| == |b|
    ensures |s| == |a|
  {
    seq(|a|, i requires 0 <= i < |a| => Add(a[i], b[i]))
  }

  function Block(s: seq<Byte>, j: nat): (b: seq<Byte>)
    requires 16 * j + 16 <= |s|
    ensures |b| == 16
  {
    s[16 * j..16 * j + 16]
  }

  lemma AddBytesCancels(a: seq<Byte>, k: seq<Byte>)
    requires |a| == |k|
    ensures AddBytes(AddBytes(a, k), k) == a
  {
    hide Add;
    forall i | 0 <= i < |a|
      ensures Add(Add(a[i], k[i]), k[i]) == a[i]
    {
      AddLaws(a[i], k[i]);
    }
  }

  // xor_buf: adds the first len bytes of input to output from `at` on.
  method XorBuf(input: array<Byte>, output: array<Byte>, at: nat, len: nat)
    requires input != output && len <= input.Length && at + len <= output.Length
    modifies output
    ensures forall k :: 0 <= k < output.Length && !(at <= k < at + len) ==> output[k] == old(output[k])
    ensures forall k :: 0 <= k < len ==> output[at + k] == Add(old(output[at + k]), input[k])
  {
    hide Add;
    var idx := 0;
    while idx < len
      invariant 0 <= idx <= len
      invariant forall k :: 0 <= k < output.Length && !(at <= k < at + idx) ==> output[k] == old(output[k])
      invariant forall k :: 0 <= k < idx ==> output[at + k] == Add(old(output[at + k]), input[k])
    {
      output[at + idx] := Add(output[at + idx], input[idx]);
      idx := idx + 1;
    }
  }

  // ---------- CBC ----------

  // Ciphertext block j, counted from one; block zero is the initialization vector.
  function CbcBlock(p: seq<Byte>, key: seq<bv32>, keysize: int, iv: seq<Byte>, j: nat): (c: seq<Byte>)
    requires |key| >= 60 && |iv| == 16 && 16 * j <= |p|
    ensures |c| == 16
  {
    if j == 0 then iv
    else EncryptBlock(AddBytes(Block(p, j - 1), CbcBlock(p, key, keysize, iv, j - 1)), key, keysize)
  }

  // The first n blocks of the ciphertext.
  function CbcEncrypt(p: seq<Byte>, key: seq<bv32>, keysize: int, iv: seq<Byte>, n: nat): (c: seq<Byte>)
    requires |key| >= 60 && |iv| == 16 && 16 * n <= |p|
    ensures |c| == 16 * n
  {
    if n == 0 then [] else CbcEncrypt(p, key, keysize, iv, n - 1) + CbcBlock(p, key, keysize, iv, n)
  }

  // The block before ciphertext block j.
  function Previous(c: seq<Byte>, iv: seq<Byte>, j: nat): (b: seq<Byte>)
    requires |iv| == 16 && 16 * j <= |c|
    ensures |b| == 16
  {
    if j == 0 then iv else Block(c, j - 1)
  }

  // Plaintext block j, counted from zero, of a ciphertext.
  function CbcPlain(c: seq<Byte>, key: seq<bv32>, keysize: int, iv: seq<Byte>, j: nat): (p: seq<Byte>)
    requires |key| >= 60 && |iv| == 16 && 16 * j + 16 <= |c|
    ensures |p| == 16
  {
    AddBytes(DecryptBlock(Block(c, j), key, keysize), Previous(c, iv, j))
  }

  function CbcDecrypt(c: seq<Byte>, key: seq<bv32>, keysize: int, iv: seq<Byte>, n: nat): (p: seq<Byte>)
    requires |key| >= 60 && |iv| == 16 && 16 * n <= |c|
    ensures |p| == 16 * n
  {
    if n == 0 then [] else CbcDecrypt(c, key, keysize, iv, n - 1) + CbcPlain(c, key, keysize, iv, n - 1)
  }

  lemma {:induction false} CbcBlockOfEncrypt(p: seq<Byte>, key: seq<bv32>, keysize: int, iv: seq<Byte>, n: nat, j: nat)
    requires |key| >= 60 && |iv| == 16 && j < n && 16 * n <= |p|
    ensures Block(CbcEncrypt(p, key, keysize, iv, n), j) == CbcBlock(p, key, keysize, iv, j + 1)
  {
    hide EncryptBlock, CbcBlock;
    var before := CbcEncrypt(p, key, keysize, iv, n - 1);
    if j == n - 1 {
    } else {
      CbcBlockOfEncrypt(p, key, keysize, iv, n - 1, j);
      assert Block(CbcEncrypt(p, key, keysize, iv, n), j) == Block(before, j);
    }
  }

  lemma CbcPlainOfEncrypt(p: seq<Byte>, key: seq<bv32>, keysize: int, iv: seq<Byte>, n: nat, j: nat)
    requires |key| >= 60 && |iv| == 16 && j < n && 16 * n <= |p| && (keysize == 128 || keysize >= 192)
    ensures CbcPlain(CbcEncrypt(p, key, keysize, iv, n), key, keysize, iv, j) == Block(p, j)
  {
    hide EncryptBlock, DecryptBlock, AddBytes, CbcEncrypt, Block;
    var previous := CbcBlock(p, key, keysize, iv, j);
    CbcBlockOfEncrypt(p, key, keysize, iv, n, j);
    if j > 0 {
      CbcBlockOfEncrypt(p, key, keysize, iv, n, j - 1);
    }
    DecryptUndoesEncrypt(AddBytes(Block(p, j), previous), key, keysize);
    AddBytesCancels(Block(p, j), previous);
  }

  // Decrypting the first m blocks of a ciphertext gives the first m blocks of the plaintext.
  lemma {:induction false} CbcInverts(p: seq<Byte>, key: seq<bv32>, keysize: int, iv: seq<Byte>, n: nat, m: nat)
    requires |key| >= 60 && |iv| == 16 && m <= n && 16 * n <= |p| && (keysize == 128 || keysize >= 192)
    ensures CbcDecrypt(CbcEncrypt(p, key, keysize, iv, n), key, keysize, iv, m) == p[..16 * m]
  {
    hide CbcPlain, CbcEncrypt;
    if m == 0 {
    } else {
      CbcInverts(p, key, keysize, iv, n, m - 1);
      CbcPlainOfEncrypt(p, key, keysize, iv, n, m - 1);
      assert p[..16 * m] == p[..16 * (m - 1)] + Block(p, m - 1);
    }
  }

  // Section 6.2: each ciphertext block is the cipher of the plaintext block plus the ciphertext block before it.
  lemma CbcChains(p: seq<Byte>, key: seq<bv32>, keysize: int, iv: seq<Byte>, n: nat, j: nat)
    requires |key| >= 60 && |iv| == 16 && j < n && 16 * n <= |p|
    ensures var c := CbcEncrypt(p, key, keysize, iv, n);
            c[16 * j..16 * j + 16] ==
            EncryptBlock(AddBytes(p[16 * j..16 * j + 16], if j == 0 then iv else c[16 * j - 16..16 * j]), key, keysize)
  {
    hide EncryptBlock, AddBytes, CbcEncrypt;
    CbcBlockOfEncrypt(p, key, keysize, iv, n, j);
    if j > 0 {
      CbcBlockOfEncrypt(p, key, keysize, iv, n, j - 1);
    }
  }

  // And each plaintext block the inverse cipher of the ciphertext block, plus the one before it.
  lemma {:induction false} CbcUnchains(c: seq<Byte>, key: seq<bv32>, keysize: int, iv: seq<Byte>, n: nat, j: nat)
    requires |key| >= 60 && |iv| == 16 && j < n && 16 * n <= |c|
    ensures CbcDecrypt(c, key, keysize, iv, n)[16 * j..16 * j + 16] ==
            AddBytes(DecryptBlock(c[16 * j..16 * j + 16], key, keysize), if j == 0 then iv else c[16 * j - 16..16 * j])
  {
    hide DecryptBlock, AddBytes;
    if j == n - 1 {
    } else {
      CbcUnchains(c, key, keysize, iv, n - 1, j);
      var before := CbcDecrypt(c, key, keysize, iv, n - 1);
      assert CbcDecrypt(c, key, keysize, iv, n)[16 * j..16 * j + 16] == before[16 * j..16 * j + 16];
    }
  }

  // A sum of bytes is the exclusive or of their bits.
  lemma SumsAreExclusiveOr(a: seq<Byte>, b: seq<Byte>, i: nat)
    requires |a| == |b| && i < |a|
    ensures AddBytes(a, b)[i].bits == a[i].bits ^ b[i].bits
  {
  }

  lemma SumInjective(a: seq<Byte>, b: seq<Byte>, k: seq<Byte>)
    requires |a| == |b| == |k| && AddBytes(a, k) == AddBytes(b, k)
    ensures a == b
  {
    hide AddBytes;
    AddBytesCancels(a, k);
    AddBytesCancels(b, k);
  }

  lemma SumCommutes(a: seq<Byte>, b: seq<Byte>)
    requires |a| == |b|
    ensures AddBytes(a, b) == AddBytes(b, a)
  {
    hide Add;
    forall i | 0 <= i < |a|
      ensures Add(a[i], b[i]) == Add(b[i], a[i])
    {
      AddLaws(a[i], b[i]);
    }
  }

  lemma CipherInjective(a: seq<Byte>, b: seq<Byte>, key: seq<bv32>, keysize: int)
    requires |a| == |b| == 16 && |key| >= 60 && (keysize == 128 || keysize >= 192)
    requires EncryptBlock(a, key, keysize) == EncryptBlock(b, key, keysize)
    ensures a == b
  {
    hide EncryptBlock, DecryptBlock;
    DecryptUndoesEncrypt(a, key, keysize);
    DecryptUndoesEncrypt(b, key, keysize);
  }

  // Two texts that differ in one block have the same ciphertext before that block and different blocks from it on.
  lemma {:induction false} ChainsPart(p: seq<Byte>, q: seq<Byte>, key: seq<bv32>, keysize: int, iv: seq<Byte>, j: nat,
                                      n: nat)
    requires |key| >= 60 && |iv| == 16 && |p| == |q| && 16 * n <= |p| && (keysize == 128 || keysize >= 192)
    requires 16 * j + 16 <= |p| && Block(p, j) != Block(q, j)
    requires forall i :: 0 <= i < n && i != j ==> Block(p, i) == Block(q, i)
    ensures CbcBlock(p, key, keysize, iv, n) == CbcBlock(q, key, keysize, iv, n) <==> n <= j
  {
    hide EncryptBlock, AddBytes, Block;
    if n == 0 {
    } else {
      ChainsPart(p, q, key, keysize, iv, j, n - 1);
      var c, d := CbcBlock(p, key, keysize, iv, n - 1), CbcBlock(q, key, keysize, iv, n - 1);
      var a, b := Block(p, n - 1), Block(q, n - 1);
      if CbcBlock(p, key, keysize, iv, n) == CbcBlock(q, key, keysize, iv, n) {
        CipherInjective(AddBytes(a, c), AddBytes(b, d), key, keysize);
        if n - 1 == j {
          SumInjective(a, b, c);
        } else if n - 1 > j {
          SumCommutes(a, c);
          SumCommutes(a, d);
          SumInjective(c, d, a);
        }
      }
    }
  }

  // The MAC tells apart two texts that differ in a single block.
  lemma MacSeesOneBlock(p: seq<Byte>, q: seq<Byte>, key: seq<bv32>, keysize: int, iv: seq<Byte>, n: nat, j: nat)
    requires |key| >= 60 && |iv| == 16 && |p| == |q| && 16 * n <= |p| && j < n && (keysize == 128 || keysize >= 192)
    requires Block(p, j) != Block(q, j) && forall i :: 0 <= i < n && i != j ==> Block(p, i) == Block(q, i)
    ensures CbcMac(p, key, keysize, iv, n) != CbcMac(q, key, keysize, iv, n)
  {
    hide CbcBlock, Block;
    ChainsPart(p, q, key, keysize, iv, j, n);
  }

  // The MAC is the last ciphertext block.
  lemma CbcMacIsLastBlock(p: seq<Byte>, key: seq<bv32>, keysize: int, iv: seq<Byte>, n: nat)
    requires |key| >= 60 && |iv| == 16 && 0 < n && 16 * n <= |p|
    ensures Block(CbcEncrypt(p, key, keysize, iv, n), n - 1) == CbcMac(p, key, keysize, iv, n)
  {
    hide EncryptBlock;
    CbcBlockOfEncrypt(p, key, keysize, iv, n, n - 1);
  }

  function CbcMac(p: seq<Byte>, key: seq<bv32>, keysize: int, iv: seq<Byte>, n: nat): (c: seq<Byte>)
    requires |key| >= 60 && |iv| == 16 && 16 * n <= |p|
    ensures |c| == 16
  {
    if n == 0 then Zeros(16) else CbcBlock(p, key, keysize, iv, n)
  }

  function Zeros(n: nat): (z: seq<Byte>)
    ensures |z| == n
  {
    seq(n, i => ZERO)
  }

  // memcpy into a block buffer.
  method TakeBlock(input: array<Byte>, at: nat, block: array<Byte>)
    requires input != block && at + 16 <= input.Length && block.Length == 16
    modifies block
    ensures block[..] == input[at..at + 16]
  {
    forall k | 0 <= k < 16 {
      block[k] := input[at + k];
    }
  }

  // memcpy from a block buffer.
  method PutBlock(block: array<Byte>, output: array<Byte>, at: nat)
    requires block != output && block.Length == 16 && at + 16 <= output.Length
    modifies output
    ensures output[..at + 16] == old(output[..at]) + block[..]
    ensures forall k :: at + 16 <= k < output.Length ==> output[k] == old(output[k])
  {
    forall k | 0 <= k < 16 {
      output[at + k] := block[k];
    }
  }

  // The three statements with which both CBC loops begin.
  method ChainBlock(input: array<Byte>, at: nat, bufIn: array<Byte>, bufOut: array<Byte>, ivBuf: array<Byte>,
                    key: seq<bv32>, keysize: int)
    requires at + 16 <= input.Length && bufIn.Length == 16 && bufOut.Length == 16 && ivBuf.Length == 16
    requires bufIn != input && bufIn != ivBuf && bufIn != bufOut && bufOut != input && bufOut != ivBuf && |key| >= 60
    modifies bufIn, bufOut
    ensures bufOut[..] == EncryptBlock(AddBytes(input[at..at + 16], ivBuf[..]), key, keysize)
  {
    hide EncryptBlock, AddBytes;
    TakeBlock(input, at, bufIn);
    AddBlock(ivBuf, bufIn);
    Encrypt(bufIn, bufOut, key, keysize);
  }

  method EncryptCbc(input: array<Byte>, len: nat, output: array<Byte>, key: seq<bv32>, keysize: int, iv: array<Byte>)
    returns (ok: bool)
    requires len <= input.Length && len <= output.Length && |key| >= 60 && iv.Length == 16
    modifies output
    ensures ok == (len % 16 == 0)
    ensures ok ==> output[..len] == CbcEncrypt(old(input[..len]), key, keysize, old(iv[..]), len / 16)
    ensures output[len..] == old(output[len..])
    ensures !ok ==> output[..] == old(output[..])
  {
    hide EncryptBlock, AddBytes, CbcBlock, CbcEncrypt;
    if len % 16 != 0 {
      return false;
    }
    var blocks := len / 16;
    var bufIn, bufOut, ivBuf := new Byte[16](_ => ZERO), new Byte[16](_ => ZERO), new Byte[16](_ => ZERO);
    ghost var p, v := input[..len], iv[..];
    TakeBlock(iv, 0, ivBuf);
    CbcStart(p, key, keysize, v);
    var idx := 0;
    while idx < blocks
      invariant 0 <= idx <= blocks
      invariant ivBuf[..] == CbcBlock(p, key, keysize, v, idx)
      invariant output[..16 * idx] == CbcEncrypt(p, key, keysize, v, idx)
      invariant forall k :: len <= k < output.Length ==> output[k] == old(output[k])
      invariant forall k :: 16 * idx <= k < len ==> input[k] == p[k]
    {
      assert input[16 * idx..16 * idx + 16] == Block(p, idx);
      ChainBlock(input, 16 * idx, bufIn, bufOut, ivBuf, key, keysize);
      CbcNext(p, key, keysize, v, idx);
      PutBlock(bufOut, output, 16 * idx);
      TakeBlock(bufOut, 0, ivBuf);
      idx := idx + 1;
    }
    return true;
  }

  lemma CbcStart(p: seq<Byte>, key: seq<bv32>, keysize: int, iv: seq<Byte>)
    requires |key| >= 60 && |iv| == 16
    ensures CbcBlock(p, key, keysize, iv, 0) == iv && CbcEncrypt(p, key, keysize, iv, 0) == []
  {
  }

  lemma CbcNext(p: seq<Byte>, key: seq<bv32>, keysize: int, iv: seq<Byte>, j: nat)
    requires |key| >= 60 && |iv| == 16 && 16 * j + 16 <= |p|
    ensures CbcBlock(p, key, keysize, iv, j + 1) ==
            EncryptBlock(AddBytes(Block(p, j), CbcBlock(p, key, keysize, iv, j)), key, keysize)
    ensures CbcEncrypt(p, key, keysize, iv, j + 1) ==
            CbcEncrypt(p, key, keysize, iv, j) + CbcBlock(p, key, keysize, iv, j + 1)
  {
    hide EncryptBlock, AddBytes;
  }

  // Only the last block is output; without any block it is the zero block the buffer starts as.
  method EncryptCbcMac(input: array<Byte>, len: nat, output: array<Byte>, key: seq<bv32>, keysize: int, iv: array<Byte>)
    returns (ok: bool)
    requires len <= input.Length && output.Length == 16 && |key| >= 60 && iv.Length == 16
    modifies output
    ensures ok == (len % 16 == 0)
    ensures output[..] == if ok then CbcMac(old(input[..len]), key, keysize, old(iv[..]), len / 16) else old(output[..])
  {
    hide EncryptBlock, AddBytes, CbcBlock;
    if len % 16 != 0 {
      return false;
    }
    var blocks := len / 16;
    var bufIn, bufOut, ivBuf := new Byte[16](_ => ZERO), new Byte[16](_ => ZERO), new Byte[16](_ => ZERO);
    ghost var p, v := input[..len], iv[..];
    TakeBlock(iv, 0, ivBuf);
    CbcStart(p, key, keysize, v);
    var idx := 0;
    while idx < blocks
      invariant 0 <= idx <= blocks
      invariant ivBuf[..] == CbcBlock(p, key, keysize, v, idx)
      invariant bufOut[..] == CbcMac(p, key, keysize, v, idx)
      invariant input[..len] == p && output[..] == old(output[..])
    {
      assert input[16 * idx..16 * idx + 16] == Block(p, idx) by {
        assert input[16 * idx..16 * idx + 16] == input[..len][16 * idx..16 * idx + 16];
      }
      ChainBlock(input, 16 * idx, bufIn, bufOut, ivBuf, key, keysize);
      CbcNext(p, key, keysize, v, idx);
      TakeBlock(bufOut, 0, ivBuf);
      idx := idx + 1;
    }
    TakeBlock(bufOut, 0, output);
    return true;
  }

  // The three statements with which the decryption loop begins.
  method UnchainBlock(input: array<Byte>, at: nat, bufIn: array<Byte>, bufOut: array<Byte>, ivBuf: array<Byte>,
                      key: seq<bv32>, keysize: int)
    requires at + 16 <= input.Length && bufIn.Length == 16 && bufOut.Length == 16 && ivBuf.Length == 16
    requires bufIn != input && bufIn != ivBuf && bufIn != bufOut && bufOut != input && bufOut != ivBuf && |key| >= 60
    modifies bufIn, bufOut
    ensures bufIn[..] == input[at..at + 16]
    ensures bufOut[..] == AddBytes(DecryptBlock(input[at..at + 16], key, keysize), ivBuf[..])
  {
    hide DecryptBlock, AddBytes;
    TakeBlock(input, at, bufIn);
    Decrypt(bufIn, bufOut, key, keysize);
    AddBlock(ivBuf, bufOut);
  }

  method DecryptCbc(input: array<Byte>, len: nat, output: array<Byte>, key: seq<bv32>, keysize: int, iv: array<Byte>)
    returns (ok: bool)
    requires len <= input.Length && len <= output.Length && |key| >= 60 && iv.Length == 16
    modifies output
    ensures ok == (len % 16 == 0)
    ensures ok ==> output[..len] == CbcDecrypt(old(input[..len]), key, keysize, old(iv[..]), len / 16)
    ensures output[len..] == old(output[len..])
    ensures !ok ==> output[..] == old(output[..])
  {
    hide DecryptBlock, AddBytes, CbcPlain, CbcDecrypt, Previous;
    if len % 16 != 0 {
      return false;
    }
    var blocks := len / 16;
    var bufIn, bufOut, ivBuf := new Byte[16](_ => ZERO), new Byte[16](_ => ZERO), new Byte[16](_ => ZERO);
    ghost var c, v := input[..len], iv[..];
    TakeBlock(iv, 0, ivBuf);
    CbcDecryptStart(c, key, keysize, v);
    var idx := 0;
    while idx < blocks
      invariant 0 <= idx <= blocks
      invariant ivBuf[..] == Previous(c, v, idx)
      invariant output[..16 * idx] == CbcDecrypt(c, key, keysize, v, idx)
      invariant forall k :: len <= k < output.Length ==> output[k] == old(output[k])
      invariant forall k :: 16 * idx <= k < len ==> input[k] == c[k]
    {
      assert input[16 * idx..16 * idx + 16] == Block(c, idx);
      UnchainBlock(input, 16 * idx, bufIn, bufOut, ivBuf, key, keysize);
      CbcPlainNext(c, key, keysize, v, idx);
      PutBlock(bufOut, output, 16 * idx);
      TakeBlock(bufIn, 0, ivBuf);
      idx := idx + 1;
    }
    return true;
  }

  lemma CbcDecryptStart(c: seq<Byte>, key: seq<bv32>, keysize: int, iv: seq<Byte>)
    requires |key| >= 60 && |iv| == 16
    ensures CbcDecrypt(c, key, keysize, iv, 0) == [] && Previous(c, iv, 0) == iv
  {
  }

  lemma CbcPlainNext(c: seq<Byte>, key: seq<bv32>, keysize: int, iv: seq<Byte>, j: nat)
    requires |key| >= 60 && |iv| == 16 && 16 * j + 16 <= |c|
    ensures CbcDecrypt(c, key, keysize, iv, j + 1) ==
            CbcDecrypt(c, key, keysize, iv, j) +
            AddBytes(DecryptBlock(Block(c, j), key, keysize), Previous(c, iv, j))
    ensures Previous(c, iv, j + 1) == Block(c, j)
  {
    hide DecryptBlock, AddBytes;
  }

  method AddBlock(input: array<Byte>, block: array<Byte>)
    requires input != block && input.Length == 16 && block.Length == 16
    modifies block
    ensures block[..] == AddBytes(old(block[..]), input[..])
  {
    hide Add;
    ghost var b := block[..];
    XorBuf(input, block, 0, 16);
    forall k | 0 <= k < 16
      ensures block[k] == AddBytes(b, input[..])[k]
    {
      assert block[0 + k] == Add(b[k], input[k]);
    }
  }

  // ---------- The big-endian counter ----------

  function Value(b: Byte): (v: nat)
    ensures v < 256
  {
    b.bits as nat
  }

  // iv[idx]++ on an unsigned char.
  function Successor(b: Byte): Byte { Byte(b.bits + 1) }

  // The byte with a given value.
  function FromValue(v: nat): Byte
    requires v < 256
  {
    if v == 0 then ZERO else Successor(FromValue(v - 1))
  }

  lemma SameBits(x: bv8, y: bv8)
    requires x as int == y as int
    ensures x == y
  {
    assert (x as int) as bv8 == x && (y as int) as bv8 == y;
  }

  lemma SuccessorBits(x: bv8)
    ensures if x == 255 then x as int == 255 && x + 1 == 0 else (x + 1) as int == x as int + 1
  {
  }

  lemma SuccessorValue(b: Byte)
    ensures Value(Successor(b)) == if Value(b) == 255 then 0 else Value(b) + 1
    ensures Successor(b) == ZERO <==> Value(b) == 255
  {
    SuccessorBits(b.bits);
    if Value(b) == 255 {
      SameBits(b.bits, 255);
    }
  }

  lemma {:induction false} FromValueRoundTrip(v: nat)
    requires v < 256
    ensures Value(FromValue(v)) == v
  {
    hide Successor, Value;
    if v == 0 {
      ZeroValue();
    } else {
      FromValueRoundTrip(v - 1);
      SuccessorValue(FromValue(v - 1));
    }
  }

  lemma ValueRoundTrip(b: Byte)
    ensures FromValue(Value(b)) == b
  {
    FromValueRoundTrip(Value(b));
    SameBits(FromValue(Value(b)).bits, b.bits);
  }

  lemma ZeroValue()
    ensures Value(ZERO) == 0
  {
  }

  // The number a sequence of bytes stands for, first byte highest.
  function Number(s: seq<Byte>): nat {
    if s == [] then 0 else 256 * Number(s[..|s| - 1]) + Value(s[|s| - 1])
  }

  // The n bytes that stand for v modulo 256^n.
  function Digits(v: nat, n: nat): (s: seq<Byte>)
    ensures |s| == n
    decreases n
  {
    if n == 0 then [] else Digits(v / 256, n - 1) + [FromValue(v % 256)]
  }

  function Power256(n: nat): (p: nat)
    ensures p > 0
  {
    if n == 0 then 1 else 256 * Power256(n - 1)
  }

  lemma {:induction false} NumberBound(s: seq<Byte>)
    ensures Number(s) < Power256(|s|)
  {
    hide Value;
    if s == [] {
    } else {
      NumberBound(s[..|s| - 1]);
    }
  }

  lemma {:induction false} DigitsOfNumber(s: seq<Byte>)
    ensures Digits(Number(s), |s|) == s
  {
    hide Value, FromValue;
    if s == [] {
    } else {
      var n := |s| - 1;
      DigitsOfNumber(s[..n]);
      ValueRoundTrip(s[n]);
      assert Number(s) / 256 == Number(s[..n]) && Number(s) % 256 == Value(s[n]);
    }
  }

  // Adding one to a number written in bytes: the last byte moves on, and a carry goes to the bytes before it.
  function Increment(s: seq<Byte>): (t: seq<Byte>)
    ensures |t| == |s|
  {
    if s == [] then []
    else
      var n := |s| - 1;
      var last := Successor(s[n]);
      (if last == ZERO then Increment(s[..n]) else s[..n]) + [last]
  }

  lemma {:induction false} IncrementAddsOne(s: seq<Byte>)
    ensures Number(Increment(s)) == (Number(s) + 1) % Power256(|s|)
  {
    hide Value, Successor;
    NumberBound(s);
    if s == [] {
    } else {
      var n := |s| - 1;
      var t := Increment(s);
      SuccessorValue(s[n]);
      ZeroValue();
      NumberBound(s[..n]);
      IncrementAddsOne(s[..n]);
      assert t[|t| - 1] == Successor(s[n]);
      if Successor(s[n]) == ZERO {
        assert t[..n] == Increment(s[..n]);
        CarryModulo(Number(s[..n]), Power256(n));
      } else {
        assert t[..n] == s[..n];
        SmallModulo(Number(s) + 1, Power256(|s|));
      }
    }
  }

  lemma CarryModulo(high: nat, p: nat)
    requires high < p
    ensures (256 * high + 255 + 1) % (256 * p) == 256 * ((high + 1) % p)
  {
    if high + 1 == p {
      SmallModulo(0, p);
      SmallModulo(0, 256 * p);
    } else {
      SmallModulo(high + 1, p);
      SmallModulo(256 * (high + 1), 256 * p);
    }
  }

  lemma SmallModulo(v: nat, p: nat)
    requires v < p
    ensures v % p == v && p % p == 0
  {
  }

  // The carry loop of increment_iv from position idx on.
  function Carry(s: seq<Byte>, low: int, idx: int): (t: seq<Byte>)
    requires |s| == 16 && 0 <= low && -1 <= idx < 16
    ensures |t| == 16
    decreases idx + 1
  {
    if idx < low then s
    else
      var t := s[idx := Successor(s[idx])];
      if t[idx] != ZERO || idx == low then t else Carry(t, low, idx - 1)
  }

  // On a block in three parts, with idx at the end of the middle one, the loop increments the middle part.
  lemma {:induction false} CarryIncrements(a: seq<Byte>, m: seq<Byte>, b: seq<Byte>)
    requires |a| + |m| + |b| == 16 && m != []
    ensures Carry(a + m + b, |a|, |a| + |m| - 1) == a + Increment(m) + b
    decreases |m|
  {
    hide Successor, Carry, Increment;
    var n := |m| - 1;
    var s, idx, last := a + m + b, |a| + n, Successor(m[n]);
    CarryStep(s, |a|, idx);
    IncrementStep(m);
    LastChanged(a, m, b, last);
    if last == ZERO && n > 0 {
      CarryIncrements(a, m[..n], [last] + b);
      Regroup(a, Increment(m[..n]), last, b);
    } else {
      Regroup(a, m[..n], last, b);
    }
  }

  lemma CarryStep(s: seq<Byte>, low: int, idx: int)
    requires |s| == 16 && 0 <= low <= idx < 16
    ensures var t := s[idx := Successor(s[idx])];
            Carry(s, low, idx) == if Successor(s[idx]) != ZERO || idx == low then t else Carry(t, low, idx - 1)
  {
    hide Successor;
  }

  lemma IncrementStep(m: seq<Byte>)
    requires m != []
    ensures var n := |m| - 1; var last := Successor(m[n]);
            Increment(m) == (if last == ZERO && n > 0 then Increment(m[..n]) else m[..n]) + [last]
  {
    hide Successor;
    if |m| == 1 {
      assert m[..0] == [] && Increment([]) == [];
    }
  }

  lemma LastChanged(a: seq<Byte>, m: seq<Byte>, b: seq<Byte>, x: Byte)
    requires m != []
    ensures var s, n := a + m + b, |m| - 1;
            s[|a| + n] == m[n] && s[|a| + n := x] == a + m[..n] + ([x] + b)
  {
  }

  lemma Regroup(a: seq<Byte>, m: seq<Byte>, x: Byte, b: seq<Byte>)
    ensures a + m + ([x] + b) == a + (m + [x]) + b
  {
  }

  // increment_iv counts in the last size bytes of the block; a size of zero or less leaves it alone.
  method IncrementIv(iv: array<Byte>, size: int)
    requires iv.Length == 16 && size <= 16
    modifies iv
    ensures iv[..] == IncrementTail(old(iv[..]), size)
  {
    hide Successor;
    ghost var result := Carry(iv[..], 16 - size, 15);
    CarryAll(iv[..], size);
    var idx := 15;
    while idx >= 16 - size
      invariant -1 <= idx < 16
      invariant Carry(iv[..], 16 - size, idx) == result
    {
      ghost var s := iv[..];
      iv[idx] := Successor(iv[idx]);
      assert iv[..] == s[idx := Successor(s[idx])];
      if iv[idx] != ZERO || idx == 16 - size {
        assert iv[..] == result;
        break;
      }
      idx := idx - 1;
    }
    assert iv[..] == result;
  }

  lemma CarryAll(s: seq<Byte>, size: int)
    requires |s| == 16 && size <= 16
    ensures Carry(s, 16 - size, 15) == IncrementTail(s, size)
  {
    hide Increment, Successor;
    if size > 0 {
      var a, m := s[..16 - size], s[16 - size..];
      CarryIncrements(a, m, []);
      assert a + m + [] == s && a + Increment(m) + [] == a + Increment(m);
    }
  }

  function IncrementTail(s: seq<Byte>, size: int): (t: seq<Byte>)
    requires |s| == 16 && size <= 16
    ensures |t| == 16
  {
    if size <= 0 then s else s[..16 - size] + Increment(s[16 - size..])
  }

  // The counting bytes go up by one modulo 256^size and the rest of the block stays.
  lemma IncrementTailCounts(s: seq<Byte>, size: nat)
    requires |s| == 16 && size <= 16
    ensures var t := IncrementTail(s, size);
            && t[..16 - size] == s[..16 - size]
            && Number(t[16 - size..]) == (Number(s[16 - size..]) + 1) % Power256(size)
  {
    hide Increment, Number, Power256;
    var t := IncrementTail(s, size);
    if size > 0 {
      IncrementAddsOne(s[16 - size..]);
      assert t[16 - size..] == Increment(s[16 - size..]);
    } else {
      assert t[16 - size..] == s[16 - size..] == [];
      EmptyNumber();
    }
  }

  // The count is in the last byte until that runs over.
  lemma LastByteCounts(s: seq<Byte>, size: nat)
    requires |s| == 16 && 0 < size <= 16 && Value(s[15]) < 255
    ensures IncrementTail(s, size) == s[15 := Byte(s[15].bits + 1)]
  {
    SuccessorValue(s[15]);
    hide Successor, Increment, Value;
    var tail := s[16 - size..];
    assert tail[size - 1] == s[15];
    IncrementStep(tail);
    assert s == s[..16 - size] + (tail[..size - 1] + [s[15]]);
  }

  lemma EmptyNumber()
    ensures Number([]) == 0 && Power256(0) == 1
  {
  }

  // ---------- CTR ----------

  // The block that is a number modulo 2^128, highest byte first.
  function NumberBlock(v: nat): (c: seq<Byte>)
    ensures |c| == 16
  {
    Digits(v % Power256(16), 16)
  }

  // Counter block j of section 6.5: the initial block plus j, as a 128-bit number.
  function CounterBlock(iv: seq<Byte>, j: nat): (c: seq<Byte>)
    requires |iv| == 16
    ensures |c| == 16
  {
    NumberBlock(Number(iv) + j)
  }

  lemma CounterStart(iv: seq<Byte>)
    requires |iv| == 16
    ensures CounterBlock(iv, 0) == iv
  {
    hide Digits, Number, Power256;
    NumberBound(iv);
    SmallModulo(Number(iv), Power256(16));
    DigitsOfNumber(iv);
  }

  lemma CounterNext(iv: seq<Byte>, j: nat)
    requires |iv| == 16
    ensures IncrementTail(CounterBlock(iv, j), 16) == CounterBlock(iv, j + 1)
  {
    hide Digits, Number, Power256, Increment;
    var p, v := Power256(16), Number(iv) + j;
    var c := CounterBlock(iv, j);
    NumberOfDigits(v % p, 16);
    SmallModulo(v % p, p);
    assert c[..0] + Increment(c[0..]) == Increment(c);
    IncrementAddsOne(c);
    ModuloStep(v, p);
    DigitsOfNumber(Increment(c));
  }

  lemma {:induction false} NumberOfDigits(v: nat, n: nat)
    ensures Number(Digits(v, n)) == v % Power256(n)
    decreases n
  {
    hide Value, FromValue;
    if n == 0 {
    } else {
      var s := Digits(v, n);
      NumberOfDigits(v / 256, n - 1);
      FromValueRoundTrip(v % 256);
      assert s[..n - 1] == Digits(v / 256, n - 1);
      SplitModulo(v, Power256(n - 1));
    }
  }

  lemma SplitModulo(v: nat, p: nat)
    requires p > 0
    ensures v % (256 * p) == 256 * ((v / 256) % p) + v % 256
  {
    var q, r := v / 256, v % 256;
    var a, b := q / p, q % p;
    assert q == p * a + b;
    assert v == 256 * (p * a + b) + r == (256 * p) * a + (256 * b + r);
    assert 256 * b + r < 256 * p by { assert b <= p - 1; }
    Remainder(256 * p, a, 256 * b + r);
  }

  lemma Remainder(p: nat, q: nat, r: nat)
    requires r < p
    ensures (p * q + r) % p == r
  {
    var x := p * q + r;
    assert x == p * (x / p) + x % p;
    UniqueRemainder(p, q, r, x / p, x % p);
  }

  lemma UniqueRemainder(p: nat, q: int, r: nat, q': int, r': nat)
    requires r < p && r' < p && p * q + r == p * q' + r'
    ensures r == r'
  {
    var d := q - q';
    assert p * q == p * q' + p * d;
    assert p * -d == -(p * d);
    if d >= 1 {
      MultipleAtLeast(p, d);
    } else if d <= -1 {
      MultipleAtLeast(p, -d);
    }
  }

  lemma MultipleAtLeast(p: nat, d: int)
    requires d >= 1
    ensures p * d >= p
  {
  }

  lemma ModuloStep(v: nat, p: nat)
    requires p > 0
    ensures (v % p + 1) % p == (v + 1) % p
  {
    var a, b := v / p, v % p;
    assert v == p * a + b;
    if b + 1 < p {
      Remainder(p, a, b + 1);
      SmallModulo(b + 1, p);
    } else {
      assert v + 1 == p * (a + 1) + 0;
      Remainder(p, a + 1, 0);
      SmallModulo(0, p);
    }
  }

  // Byte n of the keystream.
  function KeyByte(key: seq<bv32>, keysize: int, iv: seq<Byte>, n: nat): Byte
    requires |key| >= 60 && |iv| == 16
  {
    EncryptBlock(CounterBlock(iv, n / 16), key, keysize)[n % 16]
  }

  function Ctr(p: seq<Byte>, key: seq<bv32>, keysize: int, iv: seq<Byte>): (c: seq<Byte>)
    requires |key| >= 60 && |iv| == 16
    ensures |c| == |p|
  {
    seq(|p|, n requires 0 <= n < |p| => Add(p[n], KeyByte(key, keysize, iv, n)))
  }

  lemma KeyByteFormula(key: seq<bv32>, keysize: int, iv: seq<Byte>, n: nat)
    requires |key| >= 60 && |iv| == 16
    ensures KeyByte(key, keysize, iv, n) == EncryptBlock(NumberBlock(Number(iv) + n / 16), key, keysize)[n % 16]
  {
    hide EncryptBlock, Number, NumberBlock;
  }

  lemma CtrBytes(p: seq<Byte>, key: seq<bv32>, keysize: int, iv: seq<Byte>)
    requires |key| >= 60 && |iv| == 16
    ensures forall n :: 0 <= n < |p| ==>
              Ctr(p, key, keysize, iv)[n] ==
              Add(p[n], EncryptBlock(NumberBlock(Number(iv) + n / 16), key, keysize)[n % 16])
  {
    hide Add, EncryptBlock, Number, NumberBlock, KeyByte, Ctr;
    forall n | 0 <= n < |p|
      ensures Ctr(p, key, keysize, iv)[n] ==
              Add(p[n], EncryptBlock(NumberBlock(Number(iv) + n / 16), key, keysize)[n % 16])
    {
      KeyByteFormula(key, keysize, iv, n);
      CtrAt(p, key, keysize, iv, n);
    }
  }

  lemma CtrAt(p: seq<Byte>, key: seq<bv32>, keysize: int, iv: seq<Byte>, n: nat)
    requires |key| >= 60 && |iv| == 16 && n < |p|
    ensures Ctr(p, key, keysize, iv)[n] == Add(p[n], KeyByte(key, keysize, iv, n))
  {
    hide Add, KeyByte;
  }

  // CTR is its own inverse.
  lemma CtrInverts(p: seq<Byte>, key: seq<bv32>, keysize: int, iv: seq<Byte>)
    requires |key| >= 60 && |iv| == 16
    ensures Ctr(Ctr(p, key, keysize, iv), key, keysize, iv) == p
  {
    hide Add, KeyByte;
    forall n | 0 <= n < |p|
      ensures Add(Add(p[n], KeyByte(key, keysize, iv, n)), KeyByte(key, keysize, iv, n)) == p[n]
    {
      AddLaws(p[n], KeyByte(key, keysize, iv, n));
    }
  }

  // What the output region holds once the first idx bytes are done.
  ghost predicate CtrDone(out: seq<Byte>, p: seq<Byte>, key: seq<bv32>, keysize: int, iv: seq<Byte>, idx: nat)
    requires |key| >= 60 && |iv| == 16
  {
    && |out| == |p| && idx <= |p|
    && (forall n :: 0 <= n < idx ==> out[n] == Add(p[n], KeyByte(key, keysize, iv, n)))
    && forall n :: idx <= n < |p| ==> out[n] == p[n]
  }

  // One block of at most sixteen bytes: encrypt the counter, add it to the output at idx.
  method CtrBlock(output: array<Byte>, at: nat, idx: nat, size: nat, key: seq<bv32>, keysize: int,
                  ivBuf: array<Byte>, outBuf: array<Byte>, ghost p: seq<Byte>, ghost iv: seq<Byte>)
    requires |key| >= 60 && |iv| == 16 && at + |p| <= output.Length && idx + size <= |p| && size <= 16 && idx % 16 == 0
    requires ivBuf.Length == 16 && outBuf.Length == 16 && output != outBuf && ivBuf != outBuf && output != ivBuf
    requires ivBuf[..] == CounterBlock(iv, idx / 16)
    requires CtrDone(output[at..at + |p|], p, key, keysize, iv, idx)
    modifies output, outBuf
    ensures CtrDone(output[at..at + |p|], p, key, keysize, iv, idx + size)
    ensures forall k :: 0 <= k < output.Length && !(at <= k < at + |p|) ==> output[k] == old(output[k])
  {
    hide Add, EncryptBlock, CounterBlock;
    Encrypt(ivBuf, outBuf, key, keysize);
    label before:
    XorBuf(outBuf, output, at + idx, size);
    forall n | idx <= n < idx + size
      ensures output[at + n] == Add(p[n], KeyByte(key, keysize, iv, n))
    {
      var m := n - idx;
      assert n / 16 == idx / 16 && n % 16 == m;
      assert output[at + idx + m] == Add(old@before(output[at + idx + m]), outBuf[m]);
    }
  }

  // Input and output are one region or two that do not share a buffer.
  method EncryptCtr(input: array<Byte>, inAt: nat, len: nat, output: array<Byte>, outAt: nat, key: seq<bv32>,
                    keysize: int, iv: array<Byte>)
    requires inAt + len <= input.Length && outAt + len <= output.Length && |key| >= 60 && iv.Length == 16
    requires input != output || inAt == outAt
    modifies output
    ensures output[outAt..outAt + len] == Ctr(old(input[inAt..inAt + len]), key, keysize, old(iv[..]))
    ensures forall n :: 0 <= n < len ==>
              output[outAt..outAt + len][n] ==
              Add(old(input[inAt..inAt + len])[n],
                  EncryptBlock(NumberBlock(Number(old(iv[..])) + n / 16), key, keysize)[n % 16])
    ensures forall k :: 0 <= k < output.Length && !(outAt <= k < outAt + len) ==> output[k] == old(output[k])
  {
    hide Add, EncryptBlock, KeyByte, Ctr, Number, NumberBlock;
    CtrBytes(input[inAt..inAt + len], key, keysize, iv[..]);
    CtrBlocks(input, inAt, len, output, outAt, key, keysize, iv);
  }

  // Block by block, the last one perhaps a part of a block.
  method CtrBlocks(input: array<Byte>, inAt: nat, len: nat, output: array<Byte>, outAt: nat, key: seq<bv32>,
                   keysize: int, iv: array<Byte>)
    requires inAt + len <= input.Length && outAt + len <= output.Length && |key| >= 60 && iv.Length == 16
    requires input != output || inAt == outAt
    modifies output
    ensures output[outAt..outAt + len] == Ctr(old(input[inAt..inAt + len]), key, keysize, old(iv[..]))
    ensures forall k :: 0 <= k < output.Length && !(outAt <= k < outAt + len) ==> output[k] == old(output[k])
  {
    hide Add, EncryptBlock, CounterBlock, KeyByte, CtrDone, Ctr, Number, NumberBlock;
    ghost var p, v := input[inAt..inAt + len], iv[..];
    var ivBuf, outBuf := new Byte[16](_ => ZERO), new Byte[16](_ => ZERO);
    TakeBlock(iv, 0, ivBuf);
    if input != output {
      CopyBytes(input, inAt, output, outAt, len);
    }
    CounterStart(v);
    CtrNoneDone(p, key, keysize, v);
    var idx := 0;
    if len > 16 {
      var lastBlockLength := len - 16;
      while idx < lastBlockLength
        invariant 0 <= idx < len && idx % 16 == 0
        invariant ivBuf[..] == CounterBlock(v, idx / 16)
        invariant CtrDone(output[outAt..outAt + len], p, key, keysize, v, idx)
        invariant forall k :: 0 <= k < output.Length && !(outAt <= k < outAt + len) ==> output[k] == old(output[k])
      {
        CtrBlock(output, outAt, idx, 16, key, keysize, ivBuf, outBuf, p, v);
        IncrementIv(ivBuf, 16);
        CounterNext(v, idx / 16);
        idx := idx + 16;
      }
    }
    CtrBlock(output, outAt, idx, len - idx, key, keysize, ivBuf, outBuf, p, v);
    CtrAllDone(output[outAt..outAt + len], p, key, keysize, v);
  }

  lemma CtrNoneDone(p: seq<Byte>, key: seq<bv32>, keysize: int, iv: seq<Byte>)
    requires |key| >= 60 && |iv| == 16
    ensures CtrDone(p, p, key, keysize, iv, 0)
  {
  }

  lemma CtrAllDone(out: seq<Byte>, p: seq<Byte>, key: seq<bv32>, keysize: int, iv: seq<Byte>)
    requires |key| >= 60 && |iv| == 16 && CtrDone(out, p, key, keysize, iv, |p|)
    ensures out == Ctr(p, key, keysize, iv)
  {
    hide Add, KeyByte;
  }

  method CopyBytes(input: array<Byte>, inAt: nat, output: array<Byte>, outAt: nat, len: nat)
    requires input != output && inAt + len <= input.Length && outAt + len <= output.Length
    modifies output
    ensures forall k :: 0 <= k < output.Length && !(outAt <= k < outAt + len) ==> output[k] == old(output[k])
    ensures output[outAt..outAt + len] == input[inAt..inAt + len]
  {
    forall k | 0 <= k < len {
      output[outAt + k] := input[inAt + k];
    }
  }
}
