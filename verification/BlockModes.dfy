/** AES-CMAC (RFC 4493) and CBC over an uninterpreted block cipher. */
module BlockModes {
  import opened Bytes

  /** A 128-bit block cipher: encryption and decryption under a key. */
  datatype Cipher = Cipher(enc: (Block, Block) -> Block, dec: (Block, Block) -> Block)

  /** The one law of the cipher: decryption undoes encryption. */
  ghost predicate Lawful(c: Cipher) {
    forall k: Block, x: Block :: c.dec(k, c.enc(k, x)) == x
  }

  // ------------------------------------------------------------------ RFC 4493, section 2.3

  /** One octet of a left shift: `b` with the top bit of its right neighbour shifted in. */
  function ShiftIn(b: byte, next: byte): byte {
    b * 2 % 256 + next / 128
  }

  /** Multiplication by x in GF(2^128): one left shift of the whole block, and 0x87 folded into
      the last octet when a bit falls off the top. */
  function Shifted(b: Block): (d: Block)
    ensures forall i :: 0 <= i < 15 ==> d[i] == ShiftIn(b[i], b[i + 1])
    ensures d[15] == ShiftIn(b[15], 0)
  {
    seq(16, i requires 0 <= i < 16 => ShiftIn(b[i], if i < 15 then b[i + 1] else 0))
  }

  function Dbl(b: Block): Block {
    var d := Shifted(b);
    if b[0] < 0x80 then d else d[15 := XorByte(d[15], 0x87)]
  }

  function K1(c: Cipher, key: Block): Block {
    Dbl(c.enc(key, ZEROS16))
  }

  function K2(c: Cipher, key: Block): Block {
    Dbl(K1(c, key))
  }

  // ------------------------------------------------------------------ RFC 4493, section 2.4

  /** `10^i` padding of an incomplete last block. */
  function PadLast(m: seq<byte>): Block
    requires |m| < 16
  {
    m + [0x80] + Zeros(15 - |m|)
  }

  /** M_last: the final block masked with K1 when complete, padded and masked with K2 otherwise. */
  function LastBlock(c: Cipher, key: Block, m: seq<byte>): Block
    requires |m| <= 16
  {
    if |m| == 16 then Xor(m, K1(c, key)) else Xor(PadLast(m), K2(c, key))
  }

  /** The CBC-MAC chain from state `x` over message `m`, one block at a time. */
  function Chain(c: Cipher, key: Block, x: Block, m: seq<byte>): Block
    decreases |m|
  {
    if |m| <= 16 then c.enc(key, Xor(x, LastBlock(c, key, m)))
    else Chain(c, key, c.enc(key, Xor(x, m[..16])), m[16..])
  }

  function Cmac(c: Cipher, key: Block, m: seq<byte>): Block {
    Chain(c, key, ZEROS16, m)
  }

  // ------------------------------------------------------------------ the driver's loops

  /** In-place doubling of a subkey buffer. */
  method Double(k: array<byte>)
    requires k.Length == 16
    modifies k
    ensures k[..] == Dbl(old(k[..]))
  {
    hide Shifted, XorByte;
    var carry := k[0] >= 0x80;
    ShiftLeft(k);
    if carry {
      k[15] := XorByte(k[15], 0x87);
    }
  }

  /** Octet by octet, each taking the top bit of its right neighbour. */
  method ShiftLeft(k: array<byte>)
    requires k.Length == 16
    modifies k
    ensures k[..] == Shifted(old(k[..]))
  {
    hide ShiftIn;
    ghost var was := k[..];
    for i := 0 to 15
      invariant forall j :: 0 <= j < i ==> k[j] == ShiftIn(was[j], was[j + 1])
      invariant forall j :: i <= j < 16 ==> k[j] == was[j]
    {
      k[i] := ShiftIn(k[i], k[i + 1]);
    }
    k[15] := ShiftIn(k[15], 0);
    assert k[..] == Shifted(was);
  }

  /** XOR of a 16-byte window of `m` into a state buffer. */
  method XorInto(state: array<byte>, m: seq<byte>)
    requires state.Length == 16 && |m| == 16
    modifies state
    ensures state[..] == Xor(old(state[..]), m)
  {
    for i := 0 to 16
      invariant forall j :: 0 <= j < i ==> state[j] == XorByte(old(state[j]), m[j])
      invariant forall j :: i <= j < 16 ==> state[j] == old(state[j])
    {
      state[i] := XorByte(state[i], m[i]);
    }
  }

  /** One block through the cipher, into a buffer that may be the input's own. */
  method EncryptBlock(c: Cipher, key: Block, dst: array<byte>, src: seq<byte>)
    requires dst.Length == 16 && |src| == 16
    modifies dst
    ensures dst[..] == c.enc(key, src)
  {
    var y := c.enc(key, src);
    for i := 0 to 16
      invariant forall j :: 0 <= j < i ==> dst[j] == y[j]
    {
      dst[i] := y[i];
    }
    assert dst[..] == y;
  }

  /** The two subkeys, each doubled in its own buffer. */
  method Subkeys(c: Cipher, key: Block) returns (k1: array<byte>, k2: array<byte>)
    ensures fresh(k1) && fresh(k2) && k1 != k2 && k1.Length == k2.Length == 16
    ensures k1[..] == K1(c, key) && k2[..] == K2(c, key)
  {
    hide Dbl, Shifted;
    k1, k2 := new byte[16](_ => 0), new byte[16](_ => 0);
    assert k1[..] == ZEROS16;
    EncryptBlock(c, key, k1, k1[..]);
    Double(k1);
    forall i | 0 <= i < 16 {
      k2[i] := k1[i];
    }
    assert k2[..] == k1[..];
    Double(k2);
  }

  /** The masked last block, from the up to 16 octets left over. */
  method MaskedLast(c: Cipher, key: Block, rest: seq<byte>) returns (last: array<byte>)
    requires |rest| <= 16
    ensures fresh(last) && last.Length == 16 && last[..] == LastBlock(c, key, rest)
  {
    hide Xor, K1, K2;
    var k1, k2 := Subkeys(c, key);
    last := new byte[16](i => if 0 <= i < |rest| then rest[i] else 0);
    if |rest| == 16 {
      assert last[..] == rest;
      XorInto(last, k1[..]);
    } else {
      last[|rest|] := 0x80;
      assert last[..] == PadLast(rest);
      XorInto(last, k2[..]);
    }
  }

  /** The driver's CMAC: `(len - 1) / 16` whole blocks, then the masked last one. It computes the
      recursive definition above for every length, 0 and multiples of 16 included. */
  method ComputeCmac(c: Cipher, key: Block, data: seq<byte>) returns (out: Block)
    ensures out == Cmac(c, key, data)
  {
    hide LastBlock, Xor;
    var state := new byte[16](_ => 0);
    assert state[..] == ZEROS16;
    var full := if |data| > 0 then (|data| - 1) / 16 else 0;
    assert data[0..] == data;
    for b := 0 to full
      invariant b * 16 <= |data|
      invariant Chain(c, key, state[..], data[b * 16..]) == Cmac(c, key, data)
    {
      ghost var rest := data[b * 16..];
      assert rest[..16] == data[b * 16..b * 16 + 16];
      assert rest[16..] == data[(b + 1) * 16..];
      XorInto(state, data[b * 16..b * 16 + 16]);
      EncryptBlock(c, key, state, state[..]);
    }
    var last := MaskedLast(c, key, data[full * 16..]);
    XorInto(state, last[..]);
    out := c.enc(key, state[..]);
  }

  // ------------------------------------------------------------------ CBC

  function CbcEncrypt(c: Cipher, key: Block, iv: Block, m: seq<byte>): (r: seq<byte>)
    requires |m| % 16 == 0
    ensures |r| == |m|
    decreases |m|
  {
    if m == [] then []
    else
      var y := c.enc(key, Xor(m[..16], iv));
      y + CbcEncrypt(c, key, y, m[16..])
  }

  function CbcDecrypt(c: Cipher, key: Block, iv: Block, m: seq<byte>): (r: seq<byte>)
    requires |m| % 16 == 0
    ensures |r| == |m|
    decreases |m|
  {
    if m == [] then []
    else Xor(c.dec(key, m[..16]), iv) + CbcDecrypt(c, key, m[..16], m[16..])
  }

  /** One block at a time, for either direction. */
  lemma CbcStep(c: Cipher, key: Block, iv: Block, m: seq<byte>, pre: seq<byte>)
    requires |m| % 16 == 0 && m != []
    ensures |m[16..]| % 16 == 0
    ensures var y := c.enc(key, Xor(m[..16], iv));
            pre + CbcEncrypt(c, key, iv, m) == (pre + y) + CbcEncrypt(c, key, y, m[16..])
    ensures var y := Xor(c.dec(key, m[..16]), iv);
            pre + CbcDecrypt(c, key, iv, m) == (pre + y) + CbcDecrypt(c, key, m[..16], m[16..])
  {
  }

  lemma CbcEmpty(c: Cipher, key: Block, iv: Block)
    ensures CbcEncrypt(c, key, iv, []) == [] == CbcDecrypt(c, key, iv, [])
  {
  }

  function BlockOf(s: seq<byte>, i: nat): Block
    requires 16 * i + 16 <= |s|
  {
    s[16 * i..16 * i + 16]
  }

  lemma BlockOfTail(s: seq<byte>, head: Block, tail: seq<byte>, i: nat)
    requires s == head + tail && 16 * i + 16 <= |tail|
    ensures BlockOf(s, 0) == head && BlockOf(s, i + 1) == BlockOf(tail, i)
  {
  }

  /** Section 6.2 of NIST SP 800-38A, block by block: each plaintext block is mixed with the ciphertext
      block before it, the first with the IV, and goes through the cipher. */
  lemma {:induction false} CbcBlocks(c: Cipher, key: Block, iv: Block, m: seq<byte>, i: nat)
    requires |m| % 16 == 0 && 16 * i + 16 <= |m|
    ensures var e := CbcEncrypt(c, key, iv, m);
            BlockOf(e, i) == c.enc(key, Xor(BlockOf(m, i), if i == 0 then iv else BlockOf(e, i - 1)))
    ensures var d := CbcDecrypt(c, key, iv, m);
            BlockOf(d, i) == Xor(c.dec(key, BlockOf(m, i)), if i == 0 then iv else BlockOf(m, i - 1))
    decreases |m|
  {
    hide Xor;
    var y := c.enc(key, Xor(m[..16], iv));
    var e, d := CbcEncrypt(c, key, iv, m), CbcDecrypt(c, key, iv, m);
    var e1, d1 := CbcEncrypt(c, key, y, m[16..]), CbcDecrypt(c, key, m[..16], m[16..]);
    assert m == m[..16] + m[16..];
    if i > 0 {
      hide BlockOf, CbcEncrypt, CbcDecrypt;
      CbcBlocks(c, key, y, m[16..], i - 1);
      CbcBlocks(c, key, m[..16], m[16..], i - 1);
      assert |m[16..]| >= 16 * i;
      BlockOfTail(e, y, e1, i - 1);
      BlockOfTail(d, Xor(c.dec(key, m[..16]), iv), d1, i - 1);
      BlockOfTail(m, m[..16], m[16..], i - 1);
      if i > 1 {
        BlockOfTail(e, y, e1, i - 2);
        BlockOfTail(m, m[..16], m[16..], i - 2);
      }
    }
  }

  /** Decryption under the same key and IV gives the plaintext back. */
  lemma {:induction false} CbcInverse(c: Cipher, key: Block, iv: Block, m: seq<byte>)
    requires Lawful(c) && |m| % 16 == 0
    ensures CbcDecrypt(c, key, iv, CbcEncrypt(c, key, iv, m)) == m
    decreases |m|
  {
    if m == [] {
    } else {
      var y := c.enc(key, Xor(m[..16], iv));
      var e := CbcEncrypt(c, key, iv, m);
      assert e[..16] == y && e[16..] == CbcEncrypt(c, key, y, m[16..]);
      XorCancels(m[..16], iv);
      CbcInverse(c, key, y, m[16..]);
      assert m == m[..16] + m[16..];
    }
  }

  /** Decryption under another IV: the first block comes out changed by the two IVs, the rest intact. */
  lemma CbcOtherIv(c: Cipher, key: Block, iv: Block, other: Block, m: seq<byte>)
    requires Lawful(c) && |m| % 16 == 0 && m != []
    ensures CbcDecrypt(c, key, other, CbcEncrypt(c, key, iv, m)) == Xor(Xor(m[..16], iv), other) + m[16..]
  {
    hide Xor;
    var y := c.enc(key, Xor(m[..16], iv));
    var e := CbcEncrypt(c, key, iv, m);
    assert e[..16] == y && e[16..] == CbcEncrypt(c, key, y, m[16..]);
    CbcInverse(c, key, y, m[16..]);
  }

  /** The driver's CBC loop, either direction, with the chaining value saved before the output
      block is written. */
  method ComputeCbc(c: Cipher, key: Block, iv: Block, input: seq<byte>, encrypt: bool) returns (out: seq<byte>)
    requires |input| % 16 == 0
    ensures out == if encrypt then CbcEncrypt(c, key, iv, input) else CbcDecrypt(c, key, iv, input)
  {
    hide Xor, CbcEncrypt, CbcDecrypt;
    var chain := iv;
    out := [];
    var off := 0;
    ghost var left: nat := |input| / 16;
    assert input[0..] == input;
    while off < |input|
      invariant off + 16 * left == |input| && |out| == off && |input[off..]| % 16 == 0
      invariant encrypt ==> out + CbcEncrypt(c, key, chain, input[off..]) == CbcEncrypt(c, key, iv, input)
      invariant !encrypt ==> out + CbcDecrypt(c, key, chain, input[off..]) == CbcDecrypt(c, key, iv, input)
      decreases left
    {
      ghost var rest := input[off..];
      CbcStep(c, key, chain, rest, out);
      var block: Block := input[off..off + 16];
      assert rest[..16] == block && rest[16..] == input[off + 16..];
      if encrypt {
        chain := c.enc(key, Xor(block, chain));
        out := out + chain;
      } else {
        out := out + Xor(c.dec(key, block), chain);
        chain := block;
      }
      off, left := off + 16, left - 1;
    }
    assert input[off..] == [];
    CbcEmpty(c, key, chain);
  }
}
