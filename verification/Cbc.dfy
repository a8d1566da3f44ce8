/** Cipher block chaining, NIST SP 800-38A section 6.2: the two loops of the engine, the
    functions they compute, and what chaining promises. */
module Cbc {
  import opened Bytes
  import opened Gf256
  import opened Aes
  import opened AesEngine

  /** A whole number of blocks, as bytes. */
  type Blocks = s: seq<byte> | |s| % 16 == 0

  function BlockAt(s: Blocks, i: nat): Block
    requires 16 * i + 16 <= |s|
  {
    s[16 * i..16 * i + 16]
  }

  ghost function Encrypt(rk: Schedule, iv: Block, p: Blocks): (c: Blocks)
    ensures |c| == |p|
    decreases |p|
  {
    if p == [] then []
    else
      var c := Cipher(rk, Xor(p[..16], iv));
      c + Encrypt(rk, c, p[16..])
  }

  ghost function Decrypt(rk: Schedule, iv: Block, c: Blocks): (p: Blocks)
    ensures |p| == |c|
    decreases |c|
  {
    if c == [] then []
    else Xor(InvCipher(rk, c[..16]), iv) + Decrypt(rk, c[..16], c[16..])
  }

  // ---------- Round trips ----------

  lemma {:induction false} DecryptEncrypt(rk: Schedule, iv: Block, p: Blocks)
    ensures Decrypt(rk, iv, Encrypt(rk, iv, p)) == p
    decreases |p|
  {
    hide Cipher, InvCipher, Xor;
    if p != [] {
      var x := Xor(p[..16], iv);
      DecipherEncipher(rk, x);
      XorInverts(p[..16], iv);
      DecryptEncrypt(rk, Cipher(rk, x), p[16..]);
      assert Encrypt(rk, iv, p)[16..] == Encrypt(rk, Cipher(rk, x), p[16..]);
    }
  }

  lemma {:induction false} EncryptDecrypt(rk: Schedule, iv: Block, c: Blocks)
    ensures Encrypt(rk, iv, Decrypt(rk, iv, c)) == c
    decreases |c|
  {
    hide Cipher, InvCipher, Xor;
    if c != [] {
      EncipherDecipher(rk, c[..16]);
      XorInverts(InvCipher(rk, c[..16]), iv);
      EncryptDecrypt(rk, c[..16], c[16..]);
      assert Decrypt(rk, iv, c)[16..] == Decrypt(rk, c[..16], c[16..]);
    }
  }

  /** Under a fixed schedule and IV, encryption is one to one and onto. */
  lemma EncryptBijective(rk: Schedule, iv: Block, p: Blocks, c: Blocks)
    ensures Encrypt(rk, iv, p) == c <==> p == Decrypt(rk, iv, c)
  {
    DecryptEncrypt(rk, iv, p);
    EncryptDecrypt(rk, iv, c);
  }

  // ---------- Block by block ----------

  /** Plaintext block i depends on ciphertext blocks i and i - 1 only. */
  lemma {:induction false} DecryptBlocks(rk: Schedule, iv: Block, c: Blocks, i: nat)
    requires 16 * i + 16 <= |c|
    ensures BlockAt(Decrypt(rk, iv, c), i) == Xor(InvCipher(rk, BlockAt(c, i)), if i == 0 then iv else BlockAt(c, i - 1))
    decreases |c|
  {
    hide InvCipher, Xor;
    if i > 0 {
      DecryptBlocks(rk, c[..16], c[16..], i - 1);
      assert BlockAt(Decrypt(rk, iv, c), i) == BlockAt(Decrypt(rk, c[..16], c[16..]), i - 1);
      assert BlockAt(c[16..], i - 1) == BlockAt(c, i);
      assert i == 1 || BlockAt(c[16..], i - 2) == BlockAt(c, i - 1);
    }
  }

  lemma {:induction false} EncryptBlocks(rk: Schedule, iv: Block, p: Blocks, i: nat)
    requires 16 * i + 16 <= |p|
    ensures var c := Encrypt(rk, iv, p);
            BlockAt(c, i) == Cipher(rk, Xor(BlockAt(p, i), if i == 0 then iv else BlockAt(c, i - 1)))
    decreases |p|
  {
    hide Cipher, Xor;
    if i > 0 {
      var e := Encrypt(rk, iv, p);
      var c := e[..16];
      EncryptBlocks(rk, c, p[16..], i - 1);
      assert e[16..] == Encrypt(rk, c, p[16..]);
      assert BlockAt(e, i) == BlockAt(e[16..], i - 1);
      assert BlockAt(p[16..], i - 1) == BlockAt(p, i);
      assert i == 1 || BlockAt(e[16..], i - 2) == BlockAt(e, i - 1);
    }
  }

  /** Replacing ciphertext block j garbles plaintext block j, flips exactly the replaced bits in
      block j + 1 and leaves every other block alone. */
  lemma DecryptLocality(rk: Schedule, iv: Block, c: Blocks, d: Blocks, j: nat, i: nat)
    requires |c| == |d| && 16 * j + 16 <= |c| && 16 * i + 16 <= |c|
    requires forall k: nat | 16 * k + 16 <= |c| && k != j :: BlockAt(c, k) == BlockAt(d, k)
    ensures var p, q := BlockAt(Decrypt(rk, iv, c), i), BlockAt(Decrypt(rk, iv, d), i);
            && (i == j ==> (p == q <==> BlockAt(c, j) == BlockAt(d, j)))
            && (i == j + 1 ==> Xor(p, q) == Xor(BlockAt(c, j), BlockAt(d, j)))
            && (i != j && i != j + 1 ==> p == q)
  {
    hide InvCipher, Cipher, Xor, Decrypt, BlockAt;
    DecryptBlocks(rk, iv, c, i);
    DecryptBlocks(rk, iv, d, i);
    if i == j {
      var v := if i == 0 then iv else BlockAt(c, i - 1);
      XorInverts(InvCipher(rk, BlockAt(c, j)), v);
      XorInverts(InvCipher(rk, BlockAt(d, j)), v);
      EncipherDecipher(rk, BlockAt(c, j));
      EncipherDecipher(rk, BlockAt(d, j));
    } else if i == j + 1 {
      XorCommonLeft(InvCipher(rk, BlockAt(c, i)), BlockAt(c, j), BlockAt(d, j));
    }
  }

  lemma XorCommonLeft(x: Block, u: Block, v: Block)
    ensures Xor(Xor(x, u), Xor(x, v)) == Xor(u, v)
  {
    forall i | 0 <= i < 16
      ensures Add(Add(x[i], u[i]), Add(x[i], v[i])) == Add(u[i], v[i])
    {
      Interchange(x[i], u[i], x[i], v[i]);
      AddOwn(x[i]);
      AddZero(Add(u[i], v[i]));
      hide Add;
    }
    hide Add;
  }

  lemma AddOwn(x: byte)
    ensures Add(x, x) == 0
  {}

  // ---------- Chunks ----------

  /** The IV with which a message is continued after ciphertext c. */
  function NextIv(iv: Block, c: Blocks): Block {
    if c == [] then iv else c[|c| - 16..]
  }

  lemma {:induction false} EncryptChunks(rk: Schedule, iv: Block, p: Blocks, q: Blocks)
    ensures Encrypt(rk, iv, p + q) == Encrypt(rk, iv, p) + Encrypt(rk, NextIv(iv, Encrypt(rk, iv, p)), q)
    decreases |p|
  {
    hide Cipher, Xor;
    if p == [] {
      assert p + q == q;
    } else {
      var c := Cipher(rk, Xor(p[..16], iv));
      EncryptChunks(rk, c, p[16..], q);
      assert (p + q)[..16] == p[..16] && (p + q)[16..] == p[16..] + q;
      assert NextIv(c, Encrypt(rk, c, p[16..])) == NextIv(iv, Encrypt(rk, iv, p));
    }
  }

  lemma {:induction false} DecryptChunks(rk: Schedule, iv: Block, c: Blocks, d: Blocks)
    ensures Decrypt(rk, iv, c + d) == Decrypt(rk, iv, c) + Decrypt(rk, NextIv(iv, c), d)
    decreases |c|
  {
    hide InvCipher, Xor;
    if c == [] {
      assert c + d == d;
    } else {
      DecryptChunks(rk, c[..16], c[16..], d);
      assert (c + d)[..16] == c[..16] && (c + d)[16..] == c[16..] + d;
      assert NextIv(c[..16], c[16..]) == NextIv(iv, c);
    }
  }

  // ---------- The engine's loops ----------

  /** block := input[at..at + 16] ^ prev, byte by byte. */
  method XorInto(block: array<byte>, source: array<byte>, at: nat, prev: array<byte>)
    requires block.Length == 16 && prev.Length == 16 && at + 16 <= source.Length
    requires block != source && block != prev
    modifies block
    ensures block[..] == Xor(source[at..at + 16], prev[..])
  {
    hide Add;
    for j := 0 to 16
      invariant forall k | 0 <= k < j :: block[k] == Add(source[at + k], prev[k])
    {
      block[j] := Add(source[at + j], prev[j]);
    }
  }

  /** output[at..at + 16] := block ^ prev, byte by byte. */
  method XorOut(block: array<byte>, prev: array<byte>, output: array<byte>, at: nat)
    requires block.Length == 16 && prev.Length == 16 && at + 16 <= output.Length
    requires output != block && output != prev
    modifies output
    ensures output[..] == old(output[..at]) + Xor(block[..], prev[..]) + old(output[at + 16..])
  {
    hide Add;
    for j := 0 to 16
      invariant output[..at] == old(output[..at])
      invariant forall k | 0 <= k < j :: output[at + k] == Add(block[k], prev[k])
      invariant output[at + 16..] == old(output[at + 16..])
    {
      output[at + j] := Add(block[j], prev[j]);
    }
    forall k | 0 <= k < 16
      ensures output[at..at + 16][k] == Add(block[k], prev[k])
    {
      assert output[at..at + 16][k] == output[at + k];
    }
    assert output[at..at + 16] == Xor(block[..], prev[..]);
    assert output[..] == output[..at] + output[at..at + 16] + output[at + 16..];
  }

  lemma EncryptTurn(rk: Schedule, prev: Block, text: Blocks, i: nat, done: seq<byte>)
    requires i + 16 <= |text| && i % 16 == 0
    ensures var c := Cipher(rk, Xor(text[i..i + 16], prev));
            done + Encrypt(rk, prev, text[i..]) == done + c + Encrypt(rk, c, text[i + 16..])
  {
    hide Cipher, Xor;
    assert text[i..][..16] == text[i..i + 16] && text[i..][16..] == text[i + 16..];
  }

  lemma DecryptTurn(rk: Schedule, prev: Block, text: Blocks, i: nat, done: seq<byte>)
    requires i + 16 <= |text| && i % 16 == 0
    ensures var c := text[i..i + 16];
            done + Decrypt(rk, prev, text[i..]) == done + Xor(InvCipher(rk, c), prev) + Decrypt(rk, c, text[i + 16..])
  {
    hide InvCipher, Xor;
    assert text[i..][..16] == text[i..i + 16] && text[i..][16..] == text[i + 16..];
  }

  lemma TailEmpty(rk: Schedule, prev: Block, text: Blocks)
    ensures Encrypt(rk, prev, text[|text|..]) == [] == Decrypt(rk, prev, text[|text|..])
  {}

  /** What one 16-byte write at i does to a buffer, in the three parts the loops go by. */
  lemma Grown(before: seq<byte>, after: seq<byte>, chunk: Block, i: nat, len: nat)
    requires i + 16 <= len <= |before| && after == before[..i] + chunk + before[i + 16..]
    ensures |after| == |before| && after[..i + 16] == before[..i] + chunk
    ensures after[i + 16..] == before[i + 16..] && after[len..] == before[len..]
  {
    assert after[i + 16..][len - (i + 16)..] == after[len..];
    assert before[i + 16..][len - (i + 16)..] == before[len..];
  }

  /** One turn of the encryption loop, as its invariant sees it. */
  lemma EncryptProgress(rk: Schedule, chain: Block, text: Blocks, i: nat, before: seq<byte>, after: seq<byte>, goal: seq<byte>)
    requires i + 16 <= |text| <= |before| && i % 16 == 0
    requires after == before[..i] + Cipher(rk, Xor(text[i..i + 16], chain)) + before[i + 16..]
    requires before[..i] + Encrypt(rk, chain, text[i..]) == goal
    ensures |after| == |before| && after[|text|..] == before[|text|..] && after[i + 16..] == before[i + 16..]
    ensures after[..i + 16] + Encrypt(rk, Cipher(rk, Xor(text[i..i + 16], chain)), text[i + 16..]) == goal
  {
    hide Cipher, Xor, Encrypt;
    Grown(before, after, Cipher(rk, Xor(text[i..i + 16], chain)), i, |text|);
    EncryptTurn(rk, chain, text, i, before[..i]);
  }

  /** The same for decryption. */
  lemma DecryptProgress(rk: Schedule, chain: Block, text: Blocks, i: nat, before: seq<byte>, after: seq<byte>, goal: seq<byte>)
    requires i + 16 <= |text| <= |before| && i % 16 == 0
    requires after == before[..i] + Xor(InvCipher(rk, text[i..i + 16]), chain) + before[i + 16..]
    requires before[..i] + Decrypt(rk, chain, text[i..]) == goal
    ensures |after| == |before| && after[|text|..] == before[|text|..]
    ensures after[..i + 16] + Decrypt(rk, text[i..i + 16], text[i + 16..]) == goal
  {
    hide InvCipher, Xor, Decrypt;
    Grown(before, after, Xor(InvCipher(rk, text[i..i + 16]), chain), i, |text|);
    DecryptTurn(rk, chain, text, i, before[..i]);
  }

  /** The chunk at i of what is still to be read, and what remains. */
  lemma Chunk(s: seq<byte>, text: seq<byte>, i: nat)
    requires i + 16 <= |text| <= |s| && s[i..|text|] == text[i..]
    ensures s[i..i + 16] == text[i..i + 16] && s[i + 16..|text|] == text[i + 16..]
  {
    assert s[i..|text|][..16] == s[i..i + 16] && text[i..][..16] == text[i..i + 16];
    assert s[i..|text|][16..] == s[i + 16..|text|] && text[i..][16..] == text[i + 16..];
  }

  lemma SameRest(s: seq<byte>, t: seq<byte>, i: nat, len: nat)
    requires i <= len <= |s| == |t| && s[i..] == t[i..]
    ensures s[i..len] == t[i..len]
  {
    assert s[i..][..len - i] == s[i..len] && t[i..][..len - i] == t[i..len];
  }

  /** One turn of the encryption loop. */
  method EncryptStep(rk: array<byte>, prev: array<byte>, input: array<byte>, output: array<byte>, i: nat)
    requires rk.Length == 176 && prev.Length == 16 && i + 16 <= input.Length && i + 16 <= output.Length
    requires output != rk && output != prev && prev != rk && prev != input
    modifies output, prev
    ensures prev[..] == Cipher(rk[..], Xor(old(input[i..i + 16]), old(prev[..])))
    ensures output[..] == old(output[..i]) + prev[..] + old(output[i + 16..])
    ensures input[i + 16..] == old(input[i + 16..])
  {
    hide Cipher, Xor;
    var block := new byte[16](_ => 0);
    XorInto(block, input, i, prev);
    EncryptBlock(rk, block, 0, output, i);
    assert block[0..16] == block[..];
    CopyBlock(output, i, prev, 0);
  }

  /** Input and output may be the same buffer: each block is read before it is overwritten. */
  method EncryptBuffer(rk: array<byte>, iv: array<byte>, input: array<byte>, output: array<byte>, len: nat)
    requires rk.Length == 176 && iv.Length == 16 && len % 16 == 0
    requires len <= input.Length && len <= output.Length
    requires output != rk && output != iv
    modifies output
    ensures output[..len] == Encrypt(rk[..], iv[..], old(input[..len]))
    ensures output[len..] == old(output[len..])
  {
    hide Cipher, Xor, Encrypt;
    var prev := new byte[16](_ => 0);
    CopyBlock(iv, 0, prev, 0);
    assert prev[..] == iv[..];
    ghost var text := input[..len];
    ghost var goal := Encrypt(rk[..], iv[..], text);
    var i := 0;
    assert text[0..] == text;
    while i < len
      invariant 0 <= i <= len && i % 16 == 0
      invariant output[..i] + Encrypt(rk[..], prev[..], text[i..]) == goal
      invariant input[i..len] == text[i..]
      invariant output[len..] == old(output[len..])
    {
      ghost var before, chain, rest := output[..], prev[..], input[..];
      Chunk(rest, text, i);
      EncryptStep(rk, prev, input, output, i);
      SameRest(input[..], rest, i + 16, len);
      EncryptProgress(rk[..], chain, text, i, before, output[..], goal);
      i := i + 16;
    }
    TailEmpty(rk[..], prev[..], text);
  }

  /** One turn of the decryption loop. */
  method DecryptStep(rk: array<byte>, prev: array<byte>, input: array<byte>, output: array<byte>, i: nat)
    requires rk.Length == 176 && prev.Length == 16 && i + 16 <= input.Length && i + 16 <= output.Length
    requires output != rk && output != prev && output != input && prev != rk && prev != input
    modifies output, prev
    ensures prev[..] == input[i..i + 16]
    ensures output[..] == old(output[..i]) + Xor(InvCipher(rk[..], input[i..i + 16]), old(prev[..])) + old(output[i + 16..])
  {
    hide InvCipher, Xor;
    var block := new byte[16](_ => 0);
    DecryptBlock(rk, input, i, block, 0);
    assert block[..] == InvCipher(rk[..], input[i..i + 16]);
    XorOut(block, prev, output, i);
    CopyBlock(input, i, prev, 0);
  }

  /** Here the buffers must differ: a ciphertext block is needed after its plaintext is written. */
  method DecryptBuffer(rk: array<byte>, iv: array<byte>, input: array<byte>, output: array<byte>, len: nat)
    requires rk.Length == 176 && iv.Length == 16 && len % 16 == 0
    requires len <= input.Length && len <= output.Length
    requires output != rk && output != iv && output != input
    modifies output
    ensures output[..len] == Decrypt(rk[..], iv[..], input[..len])
    ensures output[len..] == old(output[len..])
  {
    hide InvCipher, Xor, Decrypt;
    var prev := new byte[16](_ => 0);
    CopyBlock(iv, 0, prev, 0);
    assert prev[..] == iv[..];
    ghost var text := input[..len];
    ghost var goal := Decrypt(rk[..], iv[..], text);
    var i := 0;
    assert text[0..] == text;
    while i < len
      invariant 0 <= i <= len && i % 16 == 0
      invariant output[..i] + Decrypt(rk[..], prev[..], text[i..]) == goal
      invariant output[len..] == old(output[len..])
    {
      ghost var before, chain := output[..], prev[..];
      assert text[i..i + 16] == input[i..i + 16];
      DecryptStep(rk, prev, input, output, i);
      DecryptProgress(rk[..], chain, text, i, before, output[..], goal);
      i := i + 16;
    }
    TailEmpty(rk[..], prev[..], text);
  }
}
