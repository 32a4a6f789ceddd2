/** What the octet and block arithmetic is in the machine's own terms, and the published examples it gives:
    section 4 of RFC 4493, and the key-derivation vector that firmware and host tool both print. The
    examples hold for any cipher that agrees with AES at the points they name. */
module Vectors {
  import opened Bytes
  import opened BlockModes
  import opened Card

  type Octets = s: seq<bv8> | |s| == 16 witness seq(16, _ => 0)

  function Numbers(v: Octets): Block {
    seq(16, i requires 0 <= i < 16 => Value(v[i]))
  }

  lemma NumbersAt(v: Octets, i: nat)
    requires i < 16
    ensures Numbers(v)[i] == Value(v[i])
  {
    hide Value;
  }

  lemma XorValues(a: bv8, b: bv8)
    ensures XorByte(Value(a), Value(b)) == Value(Mixed(a, b))
  {
    hide XorByte;
    XorByteIs(a, b);
  }

  lemma EachMixed(a: Octets, b: Octets, c: Octets)
    requires Mixed(a[0], b[0]) == c[0] && Mixed(a[1], b[1]) == c[1] && Mixed(a[2], b[2]) == c[2] && Mixed(a[3], b[3]) == c[3]
    requires Mixed(a[4], b[4]) == c[4] && Mixed(a[5], b[5]) == c[5] && Mixed(a[6], b[6]) == c[6] && Mixed(a[7], b[7]) == c[7]
    requires Mixed(a[8], b[8]) == c[8] && Mixed(a[9], b[9]) == c[9] && Mixed(a[10], b[10]) == c[10] && Mixed(a[11], b[11]) == c[11]
    requires Mixed(a[12], b[12]) == c[12] && Mixed(a[13], b[13]) == c[13] && Mixed(a[14], b[14]) == c[14] && Mixed(a[15], b[15]) == c[15]
    ensures forall i :: 0 <= i < 16 ==> Mixed(a[i], b[i]) == c[i]
  {
    hide Mixed;
  }

  /** `Xor` is `^` on each of the sixteen octets. */
  lemma XorIs(a: Octets, b: Octets, c: Octets)
    requires a[0] ^ b[0] == c[0] && a[1] ^ b[1] == c[1] && a[2] ^ b[2] == c[2] && a[3] ^ b[3] == c[3]
    requires a[4] ^ b[4] == c[4] && a[5] ^ b[5] == c[5] && a[6] ^ b[6] == c[6] && a[7] ^ b[7] == c[7]
    requires a[8] ^ b[8] == c[8] && a[9] ^ b[9] == c[9] && a[10] ^ b[10] == c[10] && a[11] ^ b[11] == c[11]
    requires a[12] ^ b[12] == c[12] && a[13] ^ b[13] == c[13] && a[14] ^ b[14] == c[14] && a[15] ^ b[15] == c[15]
    ensures Xor(Numbers(a), Numbers(b)) == Numbers(c)
  {
    assert forall i :: 0 <= i < 16 ==> Mixed(a[i], b[i]) == c[i] by {
      EachMixed(a, b, c);
    }
    hide XorByte, Mixed, Value;
    forall i | 0 <= i < 16
      ensures XorByte(Numbers(a)[i], Numbers(b)[i]) == Numbers(c)[i]
    {
      XorValues(a[i], b[i]);
      NumbersAt(a, i);
      NumbersAt(b, i);
      NumbersAt(c, i);
    }
  }

  /** One octet of a left shift of the whole block, with the top bit of the octet after it. */
  function Shl(b: bv8, next: bv8): bv8 {
    (b << 1) | (next >> 7)
  }

  lemma ShlParts(b: bv8, next: bv8)
    ensures (b << 1) as int == (b as int) * 2 % 256 && (next >> 7) as int == (next as int) / 128
  {
  }

  lemma ShlSum(b: bv8, next: bv8)
    ensures Shl(b, next) as int == (b << 1) as int + (next >> 7) as int
  {
  }

  lemma ShiftInIs(b: bv8, next: bv8)
    ensures ShiftIn(Value(b), Value(next)) == Value(Shl(b, next))
  {
    ShlParts(b, next);
    ShlSum(b, next);
  }

  function Fold(b: bv8, carry: bool): bv8 {
    if carry then b ^ 0x87 else b
  }

  lemma FoldIs(b: bv8, carry: bool)
    ensures Value(Fold(b, carry)) == if carry then XorByte(Value(b), 0x87) else Value(b)
  {
    hide XorByte;
    XorByteIs(b, 0x87);
  }

  function Carry(b: bv8): bool {
    b & 0x80 != 0
  }

  lemma TopBit(b: bv8)
    ensures Value(b) < 0x80 <==> !Carry(b)
  {
  }

  /** `Dbl` is the doubling of section 2.3 of RFC 4493: the block shifted left by one bit, and 0x87 folded
      into the last octet when the top bit falls off. */
  lemma DblIs(v: Octets, w: Octets)
    requires w[0] == Shl(v[0], v[1]) && w[1] == Shl(v[1], v[2]) && w[2] == Shl(v[2], v[3]) && w[3] == Shl(v[3], v[4])
    requires w[4] == Shl(v[4], v[5]) && w[5] == Shl(v[5], v[6]) && w[6] == Shl(v[6], v[7]) && w[7] == Shl(v[7], v[8])
    requires w[8] == Shl(v[8], v[9]) && w[9] == Shl(v[9], v[10]) && w[10] == Shl(v[10], v[11]) && w[11] == Shl(v[11], v[12])
    requires w[12] == Shl(v[12], v[13]) && w[13] == Shl(v[13], v[14]) && w[14] == Shl(v[14], v[15])
    requires w[15] == Fold(Shl(v[15], 0), Carry(v[0]))
    ensures Dbl(Numbers(v)) == Numbers(w)
  {
    hide Shl, Fold, ShiftIn, XorByte, Carry, Dbl, Numbers;
    assert forall i :: 0 <= i < 15 ==> w[i] == Shl(v[i], v[i + 1]) by {
      EachShl(v, w);
    }
    forall i | 0 <= i < 15
      ensures Numbers(w)[i] == ShiftIn(Numbers(v)[i], Numbers(v)[i + 1])
    {
      ShiftedAt(v, w, i);
    }
    LastOctet(v, w);
    DblOf(Numbers(v), Numbers(w));
  }

  lemma EachShl(v: Octets, w: Octets)
    requires w[0] == Shl(v[0], v[1]) && w[1] == Shl(v[1], v[2]) && w[2] == Shl(v[2], v[3]) && w[3] == Shl(v[3], v[4])
    requires w[4] == Shl(v[4], v[5]) && w[5] == Shl(v[5], v[6]) && w[6] == Shl(v[6], v[7]) && w[7] == Shl(v[7], v[8])
    requires w[8] == Shl(v[8], v[9]) && w[9] == Shl(v[9], v[10]) && w[10] == Shl(v[10], v[11]) && w[11] == Shl(v[11], v[12])
    requires w[12] == Shl(v[12], v[13]) && w[13] == Shl(v[13], v[14]) && w[14] == Shl(v[14], v[15])
    ensures forall i :: 0 <= i < 15 ==> w[i] == Shl(v[i], v[i + 1])
  {
    hide Shl;
  }

  lemma DblOf(b: Block, d: Block)
    requires forall i :: 0 <= i < 15 ==> d[i] == ShiftIn(b[i], b[i + 1])
    requires d[15] == if b[0] < 0x80 then ShiftIn(b[15], 0) else XorByte(ShiftIn(b[15], 0), 0x87)
    ensures Dbl(b) == d
  {
    hide ShiftIn, XorByte;
    assert Dbl(b)[15] == d[15];
  }

  lemma ShiftedAt(v: Octets, w: Octets, i: nat)
    requires i < 15 && w[i] == Shl(v[i], v[i + 1])
    ensures Numbers(w)[i] == ShiftIn(Numbers(v)[i], Numbers(v)[i + 1])
  {
    hide Shl, Value, ShiftIn;
    ShiftInIs(v[i], v[i + 1]);
    NumbersAt(v, i);
    NumbersAt(v, i + 1);
    NumbersAt(w, i);
  }

  lemma LastOctet(v: Octets, w: Octets)
    requires w[15] == Fold(Shl(v[15], 0), Carry(v[0]))
    ensures var s := ShiftIn(Numbers(v)[15], 0);
            Numbers(w)[15] == if Numbers(v)[0] < 0x80 then s else XorByte(s, 0x87)
  {
    hide Shl, Fold, Value, ShiftIn, XorByte, Carry;
    TopBit(v[0]);
    FoldIs(Shl(v[15], 0), Carry(v[0]));
    ZeroValue();
    ShiftInIs(v[15], 0);
    NumbersAt(v, 0);
    NumbersAt(v, 15);
    NumbersAt(w, 15);
  }

  lemma ZeroValue()
    ensures Value(0) == 0
  {
  }

  const NOTHING: Octets := seq(16, _ => 0)

  lemma NothingIs()
    ensures Numbers(NOTHING) == ZEROS16
  {
    forall i | 0 <= i < 16
      ensures Numbers(NOTHING)[i] == ZEROS16[i]
    {
    }
  }

  lemma XorNothing(a: Octets)
    ensures Xor(ZEROS16, Numbers(a)) == Numbers(a)
  {
    NothingIs();
    XorIs(NOTHING, a, a);
  }

  // ------------------------------------------------------------------ section 4 of RFC 4493

  const KEY: Octets := [0x2b, 0x7e, 0x15, 0x16, 0x28, 0xae, 0xd2, 0xa6, 0xab, 0xf7, 0x15, 0x88, 0x09, 0xcf, 0x4f, 0x3c]
  const ENC_ZERO: Octets := [0x7d, 0xf7, 0x6b, 0x0c, 0x1a, 0xb8, 0x99, 0xb3, 0x3e, 0x42, 0xf0, 0x47, 0xb9, 0x1b, 0x54, 0x6f]
  const SUBKEY1: Octets := [0xfb, 0xee, 0xd6, 0x18, 0x35, 0x71, 0x33, 0x66, 0x7c, 0x85, 0xe0, 0x8f, 0x72, 0x36, 0xa8, 0xde]
  const SUBKEY2: Octets := [0xf7, 0xdd, 0xac, 0x30, 0x6a, 0xe2, 0x66, 0xcc, 0xf9, 0x0b, 0xc1, 0x1e, 0xe4, 0x6d, 0x51, 0x3b]
  const M1: Octets := [0x6b, 0xc1, 0xbe, 0xe2, 0x2e, 0x40, 0x9f, 0x96, 0xe9, 0x3d, 0x7e, 0x11, 0x73, 0x93, 0x17, 0x2a]
  const M2: Octets := [0xae, 0x2d, 0x8a, 0x57, 0x1e, 0x03, 0xac, 0x9c, 0x9e, 0xb7, 0x6f, 0xac, 0x45, 0xaf, 0x8e, 0x51]
  const M3: Octets := [0x30, 0xc8, 0x1c, 0x46, 0xa3, 0x5c, 0xe4, 0x11, 0xe5, 0xfb, 0xc1, 0x19, 0x1a, 0x0a, 0x52, 0xef]
  const M4: Octets := [0xf6, 0x9f, 0x24, 0x45, 0xdf, 0x4f, 0x9b, 0x17, 0xad, 0x2b, 0x41, 0x7b, 0xe6, 0x6c, 0x37, 0x10]
  const PAD0: Octets := [0x80, 0x00, 0x00, 0x00, 0x00, 0x00, 0x00, 0x00, 0x00, 0x00, 0x00, 0x00, 0x00, 0x00, 0x00, 0x00]
  const IN1: Octets := [0x77, 0xdd, 0xac, 0x30, 0x6a, 0xe2, 0x66, 0xcc, 0xf9, 0x0b, 0xc1, 0x1e, 0xe4, 0x6d, 0x51, 0x3b]
  const TAG1: Octets := [0xbb, 0x1d, 0x69, 0x29, 0xe9, 0x59, 0x37, 0x28, 0x7f, 0xa3, 0x7d, 0x12, 0x9b, 0x75, 0x67, 0x46]
  const IN2: Octets := [0x90, 0x2f, 0x68, 0xfa, 0x1b, 0x31, 0xac, 0xf0, 0x95, 0xb8, 0x9e, 0x9e, 0x01, 0xa5, 0xbf, 0xf4]
  const TAG2: Octets := [0x07, 0x0a, 0x16, 0xb4, 0x6b, 0x4d, 0x41, 0x44, 0xf7, 0x9b, 0xdd, 0x9d, 0xd0, 0x4a, 0x28, 0x7c]
  const C1: Octets := [0x3a, 0xd7, 0x7b, 0xb4, 0x0d, 0x7a, 0x36, 0x60, 0xa8, 0x9e, 0xca, 0xf3, 0x24, 0x66, 0xef, 0x97]
  const X2: Octets := [0x94, 0xfa, 0xf1, 0xe3, 0x13, 0x79, 0x9a, 0xfc, 0x36, 0x29, 0xa5, 0x5f, 0x61, 0xc9, 0x61, 0xc6]
  const C2: Octets := [0xb1, 0x48, 0xc1, 0x7f, 0x30, 0x9e, 0xe6, 0x92, 0x28, 0x7a, 0xe5, 0x7c, 0xf1, 0x2a, 0xdd, 0x49]
  const PAD8: Octets := [0x30, 0xc8, 0x1c, 0x46, 0xa3, 0x5c, 0xe4, 0x11, 0x80, 0x00, 0x00, 0x00, 0x00, 0x00, 0x00, 0x00]
  const LAST3: Octets := [0xc7, 0x15, 0xb0, 0x76, 0xc9, 0xbe, 0x82, 0xdd, 0x79, 0x0b, 0xc1, 0x1e, 0xe4, 0x6d, 0x51, 0x3b]
  const IN3: Octets := [0x76, 0x5d, 0x71, 0x09, 0xf9, 0x20, 0x64, 0x4f, 0x51, 0x71, 0x24, 0x62, 0x15, 0x47, 0x8c, 0x72]
  const TAG3: Octets := [0xdf, 0xa6, 0x67, 0x47, 0xde, 0x9a, 0xe6, 0x30, 0x30, 0xca, 0x32, 0x61, 0x14, 0x97, 0xc8, 0x27]
  const X3: Octets := [0x81, 0x80, 0xdd, 0x39, 0x93, 0xc2, 0x02, 0x83, 0xcd, 0x81, 0x24, 0x65, 0xeb, 0x20, 0x8f, 0xa6]
  const C3: Octets := [0xc9, 0x3d, 0x11, 0xbf, 0xaf, 0x08, 0xc5, 0xdc, 0x4d, 0x90, 0xb3, 0x7b, 0x4d, 0xee, 0x00, 0x2b]
  const LAST4: Octets := [0x0d, 0x71, 0xf2, 0x5d, 0xea, 0x3e, 0xa8, 0x71, 0xd1, 0xae, 0xa1, 0xf4, 0x94, 0x5a, 0x9f, 0xce]
  const IN4: Octets := [0xc4, 0x4c, 0xe3, 0xe2, 0x45, 0x36, 0x6d, 0xad, 0x9c, 0x3e, 0x12, 0x8f, 0xd9, 0xb4, 0x9f, 0xe5]
  const TAG4: Octets := [0x51, 0xf0, 0xbe, 0xbf, 0x7e, 0x3b, 0x9d, 0x92, 0xfc, 0x49, 0x74, 0x17, 0x79, 0x36, 0x3c, 0xfe]

  /** The cipher agrees with AES-128 under the examples' key at `x`. */
  ghost predicate Maps(c: Cipher, key: Octets, x: Octets, y: Octets) {
    c.enc(Numbers(key), Numbers(x)) == Numbers(y)
  }

  lemma SubkeyExample(c: Cipher)
    requires Maps(c, KEY, NOTHING, ENC_ZERO)
    ensures K1(c, Numbers(KEY)) == Numbers(SUBKEY1) && K2(c, Numbers(KEY)) == Numbers(SUBKEY2)
  {
    hide Dbl, Numbers;
    NothingIs();
    DblIs(ENC_ZERO, SUBKEY1);
    DblIs(SUBKEY1, SUBKEY2);
  }

  lemma OneBlock(c: Cipher, key: Octets, m: seq<byte>, last: Octets, tag: Octets)
    requires |m| <= 16 && LastBlock(c, Numbers(key), m) == Numbers(last) && Maps(c, key, last, tag)
    ensures Cmac(c, Numbers(key), m) == Numbers(tag)
  {
    hide LastBlock, Numbers, Xor;
    XorNothing(last);
  }

  lemma PadsOctets(m: seq<byte>, p: Octets)
    requires |m| < 16 && (forall i :: 0 <= i < |m| ==> Value(p[i]) == m[i]) && Value(p[|m|]) == 0x80
    requires forall i :: |m| < i < 16 ==> Value(p[i]) == 0
    ensures PadLast(m) == Numbers(p)
  {
    hide Value;
    forall i | 0 <= i < 16
      ensures PadLast(m)[i] == Numbers(p)[i]
    {
      NumbersAt(p, i);
    }
  }

  /** Example 1: the empty message. */
  lemma EmptyMessage(c: Cipher)
    requires Maps(c, KEY, NOTHING, ENC_ZERO) && Maps(c, KEY, IN1, TAG1)
    ensures Cmac(c, Numbers(KEY), []) == Numbers(TAG1)
  {
    Padding0();
    XorIs(PAD0, SUBKEY2, IN1);
    hide Numbers, Xor, K1, K2, PadLast;
    SubkeyExample(c);
    OneBlock(c, KEY, [], IN1, TAG1);
  }

  lemma Padding0()
    ensures PadLast([]) == Numbers(PAD0)
  {
    PadsOctets([], PAD0);
  }

  /** Example 2: one whole block. */
  lemma WholeBlock(c: Cipher)
    requires Maps(c, KEY, NOTHING, ENC_ZERO) && Maps(c, KEY, IN2, TAG2)
    ensures Cmac(c, Numbers(KEY), Numbers(M1)) == Numbers(TAG2)
  {
    XorIs(M1, SUBKEY1, IN2);
    hide Numbers, Xor, K1, K2, PadLast;
    SubkeyExample(c);
    OneBlock(c, KEY, Numbers(M1), IN2, TAG2);
  }

  /** One block more in front: the chain goes on from its encryption. */
  lemma NextBlock(c: Cipher, key: Octets, x: Block, m: Octets, rest: seq<byte>, into: Octets, y: Octets)
    requires rest != [] && Xor(x, Numbers(m)) == Numbers(into) && Maps(c, key, into, y)
    ensures Chain(c, Numbers(key), x, Numbers(m) + rest) == Chain(c, Numbers(key), Numbers(y), rest)
  {
    hide Xor, LastBlock, Numbers;
    assert (Numbers(m) + rest)[..16] == Numbers(m) && (Numbers(m) + rest)[16..] == rest;
  }

  lemma FinalBlock(c: Cipher, key: Octets, x: Octets, m: seq<byte>, last: Octets, into: Octets, tag: Octets)
    requires |m| <= 16 && LastBlock(c, Numbers(key), m) == Numbers(last)
    requires Xor(Numbers(x), Numbers(last)) == Numbers(into) && Maps(c, key, into, tag)
    ensures Chain(c, Numbers(key), Numbers(x), m) == Numbers(tag)
  {
    hide LastBlock, Numbers, Xor;
  }

  /** The first two blocks of examples 3 and 4. */
  lemma TwoBlocks(c: Cipher, rest: seq<byte>)
    requires Maps(c, KEY, M1, C1) && Maps(c, KEY, X2, C2) && rest != []
    ensures Cmac(c, Numbers(KEY), Numbers(M1) + (Numbers(M2) + rest)) == Chain(c, Numbers(KEY), Numbers(C2), rest)
  {
    XorIs(C1, M2, X2);
    hide Numbers, Xor, Chain;
    XorNothing(M1);
    NextBlock(c, KEY, ZEROS16, M1, Numbers(M2) + rest, M1, C1);
    NextBlock(c, KEY, Numbers(C1), M2, rest, X2, C2);
  }

  lemma Padding8()
    ensures PadLast(Numbers(M3)[..8]) == Numbers(PAD8)
  {
    forall i | 0 <= i < 8
      ensures Value(PAD8[i]) == Numbers(M3)[..8][i]
    {
      NumbersAt(M3, i);
    }
    PadsOctets(Numbers(M3)[..8], PAD8);
  }

  /** Example 3: 40 octets. */
  lemma FortyOctets(c: Cipher)
    requires Maps(c, KEY, NOTHING, ENC_ZERO) && Maps(c, KEY, M1, C1) && Maps(c, KEY, X2, C2) && Maps(c, KEY, IN3, TAG3)
    ensures Cmac(c, Numbers(KEY), Numbers(M1) + (Numbers(M2) + Numbers(M3)[..8])) == Numbers(TAG3)
  {
    Padding8();
    XorIs(PAD8, SUBKEY2, LAST3);
    XorIs(C2, LAST3, IN3);
    hide Numbers, Xor, K1, K2, PadLast, Chain, Cmac;
    SubkeyExample(c);
    TwoBlocks(c, Numbers(M3)[..8]);
    FinalBlock(c, KEY, C2, Numbers(M3)[..8], LAST3, IN3, TAG3);
  }

  /** Example 4: 64 octets. */
  lemma SixtyFourOctets(c: Cipher)
    requires Maps(c, KEY, NOTHING, ENC_ZERO) && Maps(c, KEY, M1, C1) && Maps(c, KEY, X2, C2)
    requires Maps(c, KEY, X3, C3) && Maps(c, KEY, IN4, TAG4)
    ensures Cmac(c, Numbers(KEY), Numbers(M1) + (Numbers(M2) + (Numbers(M3) + Numbers(M4)))) == Numbers(TAG4)
  {
    XorIs(C2, M3, X3);
    XorIs(M4, SUBKEY1, LAST4);
    XorIs(C3, LAST4, IN4);
    hide Numbers, Xor, K1, K2, PadLast, Chain, Cmac;
    SubkeyExample(c);
    TwoBlocks(c, Numbers(M3) + Numbers(M4));
    NextBlock(c, KEY, Numbers(C2), M3, Numbers(M4), X3, C3);
    FinalBlock(c, KEY, C3, Numbers(M4), LAST4, IN4, TAG4);
  }

  // ------------------------------------------------------------------ the derivation vector

  const KAT_KEY: Octets := [0x00, 0x01, 0x02, 0x03, 0x04, 0x05, 0x06, 0x07, 0x08, 0x09, 0x0a, 0x0b, 0x0c, 0x0d, 0x0e, 0x0f]
  const KAT_CONTEXT: Octets := [0x10, 0x11, 0x12, 0x13, 0x14, 0x15, 0x16, 0x17, 0x18, 0x19, 0x1a, 0x1b, 0x1c, 0x1d, 0x1e, 0x1f]
  const KAT_ZERO: Octets := [0xc6, 0xa1, 0x3b, 0x37, 0x87, 0x8f, 0x5b, 0x82, 0x6f, 0x4f, 0x81, 0x62, 0xa1, 0xc8, 0xd8, 0x79]
  const KAT_SUBKEY1: Octets := [0x8d, 0x42, 0x76, 0x6f, 0x0f, 0x1e, 0xb7, 0x04, 0xde, 0x9f, 0x02, 0xc5, 0x43, 0x91, 0xb0, 0x75]
  const KAT_LAST: Octets := [0x9d, 0x53, 0x64, 0x7c, 0x1b, 0x0b, 0xa1, 0x13, 0xc6, 0x86, 0x18, 0xde, 0x5f, 0x8c, 0xae, 0x6a]
  const KAT_CMAC: Octets := [0x53, 0x28, 0x32, 0x0c, 0x5d, 0x7b, 0xf7, 0x25, 0x94, 0x5a, 0x95, 0x8f, 0x63, 0xaa, 0xf0, 0x82]
  const KAT_LABEL4: Octets := [0x00, 0x00, 0x00, 0x00, 0x00, 0x00, 0x00, 0x00, 0x00, 0x00, 0x00, 0x04, 0x00, 0x00, 0x80, 0x01]
  const KAT_CHAIN4: Octets := [0x70, 0x50, 0x50, 0x74, 0xaf, 0xc6, 0x00, 0x87, 0x91, 0x95, 0x26, 0x59, 0x16, 0xdf, 0x0c, 0x80]
  const KAT_IN4: Octets := [0xed, 0x03, 0x34, 0x08, 0xb4, 0xcd, 0xa1, 0x94, 0x57, 0x13, 0x3e, 0x87, 0x49, 0x53, 0xa2, 0xea]
  const KAT_KDF4: Octets := [0x76, 0x9d, 0x76, 0x43, 0xff, 0x74, 0x38, 0x06, 0xcf, 0x84, 0x0c, 0x19, 0xb0, 0x87, 0x7c, 0xd8]
  const KAT_LABEL6: Octets := [0x00, 0x00, 0x00, 0x00, 0x00, 0x00, 0x00, 0x00, 0x00, 0x00, 0x00, 0x06, 0x00, 0x00, 0x80, 0x01]
  const KAT_CHAIN6: Octets := [0x67, 0xa4, 0x56, 0x72, 0xf1, 0x6b, 0xcd, 0xd8, 0xf6, 0x31, 0x83, 0x9c, 0x76, 0x45, 0x56, 0x17]
  const KAT_IN6: Octets := [0xfa, 0xf7, 0x32, 0x0e, 0xea, 0x60, 0x6c, 0xcb, 0x30, 0xb7, 0x9b, 0x42, 0x29, 0xc9, 0xf8, 0x7d]
  const KAT_KDF6: Octets := [0xef, 0x56, 0x25, 0xbf, 0x4f, 0x1f, 0x72, 0xd7, 0x2b, 0x00, 0x06, 0x46, 0x53, 0x9a, 0x48, 0xb3]

  lemma KatLast(c: Cipher)
    requires Maps(c, KAT_KEY, NOTHING, KAT_ZERO)
    ensures LastBlock(c, Numbers(KAT_KEY), Numbers(KAT_CONTEXT)) == Numbers(KAT_LAST)
  {
    DblIs(KAT_ZERO, KAT_SUBKEY1);
    XorIs(KAT_CONTEXT, KAT_SUBKEY1, KAT_LAST);
    hide Numbers, Xor, Dbl;
    NothingIs();
  }

  /** `cmac(kat_key, kat_ctx)`. */
  lemma KatCmac(c: Cipher)
    requires Maps(c, KAT_KEY, NOTHING, KAT_ZERO) && Maps(c, KAT_KEY, KAT_LAST, KAT_CMAC)
    ensures Cmac(c, Numbers(KAT_KEY), Numbers(KAT_CONTEXT)) == Numbers(KAT_CMAC)
  {
    hide Numbers, LastBlock;
    KatLast(c);
    OneBlock(c, KAT_KEY, Numbers(KAT_CONTEXT), KAT_LAST, KAT_CMAC);
  }

  lemma KatChain(c: Cipher, head: Octets, chain: Octets, into: Octets, out: Octets)
    requires Maps(c, KAT_KEY, NOTHING, KAT_ZERO) && Maps(c, KAT_KEY, head, chain) && Maps(c, KAT_KEY, into, out)
    requires Xor(Numbers(chain), Numbers(KAT_LAST)) == Numbers(into)
    ensures Cmac(c, Numbers(KAT_KEY), Numbers(head) + Numbers(KAT_CONTEXT)) == Numbers(out)
  {
    hide Numbers, LastBlock, Xor, Chain;
    KatLast(c);
    XorNothing(head);
    NextBlock(c, KAT_KEY, ZEROS16, head, Numbers(KAT_CONTEXT), head, chain);
    FinalBlock(c, KAT_KEY, chain, Numbers(KAT_CONTEXT), KAT_LAST, into, out);
  }

  lemma Label(v: Octets, constant: byte, bits: nat)
    requires bits < 0x1_0000 && (forall i :: 0 <= i < 11 ==> Value(v[i]) == 0) && Value(v[11]) == constant
    requires Value(v[12]) == 0 && Value(v[13]) == bits / 256 && Value(v[14]) == bits % 256 && Value(v[15]) == 1
    ensures Zeros(11) + [constant, 0, bits / 256, bits % 256, 1] == Numbers(v)
  {
    hide Value;
    forall i | 0 <= i < 16
      ensures (Zeros(11) + [constant, 0, bits / 256, bits % 256, 1])[i] == Numbers(v)[i]
    {
      NumbersAt(v, i);
    }
  }

  /** `kdf(kat_key, 0x04, 128, kat_ctx)` and `kdf(kat_key, 0x06, 128, kat_ctx)`. */
  lemma KatKdf(c: Cipher)
    requires Maps(c, KAT_KEY, NOTHING, KAT_ZERO)
    requires Maps(c, KAT_KEY, KAT_LABEL4, KAT_CHAIN4) && Maps(c, KAT_KEY, KAT_IN4, KAT_KDF4)
    requires Maps(c, KAT_KEY, KAT_LABEL6, KAT_CHAIN6) && Maps(c, KAT_KEY, KAT_IN6, KAT_KDF6)
    ensures Kdf(c, Numbers(KAT_KEY), 4, 128, Numbers(KAT_CONTEXT)) == Numbers(KAT_KDF4)
    ensures Kdf(c, Numbers(KAT_KEY), 6, 128, Numbers(KAT_CONTEXT)) == Numbers(KAT_KDF6)
  {
    hide Numbers, Xor, Cmac, Kdf;
    KatKdfInputs();
    Kat4(c);
    Kat6(c);
  }

  lemma KatKdfInputs()
    ensures Xor(Numbers(KAT_CHAIN4), Numbers(KAT_LAST)) == Numbers(KAT_IN4)
    ensures Xor(Numbers(KAT_CHAIN6), Numbers(KAT_LAST)) == Numbers(KAT_IN6)
  {
    XorIs(KAT_CHAIN4, KAT_LAST, KAT_IN4);
    XorIs(KAT_CHAIN6, KAT_LAST, KAT_IN6);
  }

  lemma Label4()
    ensures Zeros(11) + [4, 0, 0, 128, 1] == Numbers(KAT_LABEL4)
  {
    Label(KAT_LABEL4, 4, 128);
  }

  lemma Label6()
    ensures Zeros(11) + [6, 0, 0, 128, 1] == Numbers(KAT_LABEL6)
  {
    Label(KAT_LABEL6, 6, 128);
  }

  lemma Kat4(c: Cipher)
    requires Maps(c, KAT_KEY, NOTHING, KAT_ZERO) && Maps(c, KAT_KEY, KAT_LABEL4, KAT_CHAIN4) && Maps(c, KAT_KEY, KAT_IN4, KAT_KDF4)
    requires Xor(Numbers(KAT_CHAIN4), Numbers(KAT_LAST)) == Numbers(KAT_IN4)
    ensures Kdf(c, Numbers(KAT_KEY), 4, 128, Numbers(KAT_CONTEXT)) == Numbers(KAT_KDF4)
  {
    hide Numbers, Xor, Cmac;
    Label4();
    KatChain(c, KAT_LABEL4, KAT_CHAIN4, KAT_IN4, KAT_KDF4);
  }

  lemma Kat6(c: Cipher)
    requires Maps(c, KAT_KEY, NOTHING, KAT_ZERO) && Maps(c, KAT_KEY, KAT_LABEL6, KAT_CHAIN6) && Maps(c, KAT_KEY, KAT_IN6, KAT_KDF6)
    requires Xor(Numbers(KAT_CHAIN6), Numbers(KAT_LAST)) == Numbers(KAT_IN6)
    ensures Kdf(c, Numbers(KAT_KEY), 6, 128, Numbers(KAT_CONTEXT)) == Numbers(KAT_KDF6)
  {
    hide Numbers, Xor, Cmac;
    Label6();
    KatChain(c, KAT_LABEL6, KAT_CHAIN6, KAT_IN6, KAT_KDF6);
  }
}
