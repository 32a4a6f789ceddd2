/** Octets, 16-byte blocks, exclusive or, and the big-endian encodings of the wire formats. */
module Bytes {

  type byte = x: int | 0 <= x < 256

  const ZEROS16: seq<byte> := [0, 0, 0, 0, 0, 0, 0, 0, 0, 0, 0, 0, 0, 0, 0, 0]

  /** One AES block, also the size of every AES-128 key of the protocol. */
  type Block = b: seq<byte> | |b| == 16 witness ZEROS16

  /** `n` zero octets. */
  function Zeros(n: nat): (z: seq<byte>)
    ensures |z| == n && forall i :: 0 <= i < n ==> z[i] == 0
  {
    seq(n, i => 0)
  }

  /** A number below 2^32, most significant octet first. */
  function Be32(n: nat): (s: seq<byte>)
    requires n < 0x1_0000_0000
    ensures |s| == 4
  {
    [n / 0x100_0000, n / 0x1_0000 % 256, n / 0x100 % 256, n % 256]
  }

  /** A 16-bit number from its two octets. */
  function U16(hi: byte, lo: byte): (n: nat)
    ensures n < 0x1_0000
  {
    (hi as int) * 256 + lo as int
  }

  /** The octets in the opposite order. */
  function Reverse(s: seq<byte>): (r: seq<byte>)
    ensures |r| == |s| && forall i :: 0 <= i < |s| ==> r[i] == s[|s| - 1 - i]
  {
    seq(|s|, i requires 0 <= i < |s| => s[|s| - 1 - i])
  }

  lemma ReverseTwice(s: seq<byte>)
    ensures Reverse(Reverse(s)) == s
  {
  }

  /** The driver's reversal loop. */
  method ReverseInto(s: seq<byte>) returns (r: seq<byte>)
    ensures r == Reverse(s)
  {
    var out := new byte[|s|];
    for i := 0 to |s|
      invariant forall k :: 0 <= k < i ==> out[k] == s[|s| - 1 - k]
    {
      out[i] := s[|s| - 1 - i];
    }
    r := out[..];
  }

  // ------------------------------------------------------------------ exclusive or

  function Pow2(n: nat): (p: nat)
    ensures p > 0
  {
    if n == 0 then 1 else 2 * Pow2(n - 1)
  }

  function XorBit(a: nat, b: nat): nat {
    if a % 2 == b % 2 then 0 else 1
  }

  /** Exclusive or of the `n` low bits of two numbers, bit by bit. */
  function XorBits(a: nat, b: nat, n: nat): (x: nat)
    ensures x < Pow2(n)
  {
    if n == 0 then 0 else XorBit(a, b) + 2 * XorBits(a / 2, b / 2, n - 1)
  }

  lemma LowBit(bit: nat, n: nat)
    requires bit < 2
    ensures (bit + 2 * n) % 2 == bit && (bit + 2 * n) / 2 == n
  {
  }

  /** XOR with the same number twice gives the first operand back. */
  lemma {:induction false} XorBitsCancels(a: nat, b: nat, n: nat)
    requires a < Pow2(n)
    ensures XorBits(XorBits(a, b, n), b, n) == a
  {
    if n == 0 {
    } else {
      var low, high := XorBit(a, b), XorBits(a / 2, b / 2, n - 1);
      XorBitsCancels(a / 2, b / 2, n - 1);
      LowBit(low, high);
      assert XorBits(low + 2 * high, b, n) == XorBit(low, b) + 2 * XorBits(high, b / 2, n - 1);
    }
  }

  function XorByte(a: byte, b: byte): byte {
    Pow2Byte();
    XorBits(a, b, 8)
  }

  lemma Pow2Byte()
    ensures Pow2(8) == 256
  {
    assert Pow2(4) == 16;
  }

  // The machine's octets, each operation under a name of its own.
  function Value(a: bv8): (n: nat)
    ensures n < 256
  {
    a as int
  }

  function Half(a: bv8): bv8 {
    a >> 1
  }

  function Mixed(a: bv8, b: bv8): bv8 {
    a ^ b
  }

  /** One bit split off is halving and parity of the number. */
  lemma HalfOf(a: bv8)
    ensures Value(Half(a)) == Value(a) / 2 && (a & 1) as int == Value(a) % 2
  {
  }

  lemma HalfOfMixed(a: bv8, b: bv8)
    ensures Half(Mixed(a, b)) == Mixed(Half(a), Half(b))
    ensures Mixed(a, b) & 1 == if a & 1 == b & 1 then 0 else 1
  {
  }

  lemma MixedParts(a: bv8, b: bv8)
    ensures Value(Mixed(a, b)) == XorBit(Value(a), Value(b)) + 2 * Value(Mixed(Half(a), Half(b)))
  {
    hide Value, Half, Mixed;
    HalfOf(Mixed(a, b));
    HalfOf(a);
    HalfOf(b);
    HalfOfMixed(a, b);
  }

  lemma ZeroMixed(a: bv8, b: bv8)
    requires Value(a) == 0 && Value(b) == 0
    ensures Value(Mixed(a, b)) == 0
  {
  }

  lemma XorBitsStep(a: nat, b: nat, n: nat)
    requires n > 0
    ensures XorBits(a, b, n) == XorBit(a, b) + 2 * XorBits(a / 2, b / 2, n - 1)
  {
  }

  lemma HalfFits(a: nat, n: nat)
    requires n > 0 && a < Pow2(n)
    ensures a / 2 < Pow2(n - 1)
  {
  }

  lemma {:induction false} XorBitsOf(a: bv8, b: bv8, n: nat)
    requires Value(a) < Pow2(n) && Value(b) < Pow2(n)
    ensures XorBits(Value(a), Value(b), n) == Value(Mixed(a, b))
  {
    if n == 0 {
      ZeroMixed(a, b);
    } else {
      hide Pow2, XorBits, XorBit, Value, Half, Mixed;
      HalfFits(Value(a), n);
      HalfFits(Value(b), n);
      HalfOf(a);
      HalfOf(b);
      XorBitsOf(Half(a), Half(b), n - 1);
      XorBitsStep(Value(a), Value(b), n);
      MixedParts(a, b);
    }
  }

  /** `XorByte` is the exclusive or of the machine's octets. */
  lemma XorByteIs(a: bv8, b: bv8)
    ensures XorByte(a as int, b as int) == (a ^ b) as int
  {
    hide XorBits;
    Pow2Byte();
    XorBitsOf(a, b, 8);
  }

  function Xor(a: Block, b: Block): (c: Block)
    ensures forall i :: 0 <= i < 16 ==> c[i] == XorByte(a[i], b[i])
  {
    seq(16, i requires 0 <= i < 16 => XorByte(a[i], b[i]))
  }

  lemma XorCancels(a: Block, b: Block)
    ensures Xor(Xor(a, b), b) == a
  {
    Pow2Byte();
    forall i | 0 <= i < 16
      ensures Xor(Xor(a, b), b)[i] == a[i]
    {
      XorBitsCancels(a[i], b[i], 8);
    }
  }
}
