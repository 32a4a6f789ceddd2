/** The PUT KEY data field that replaces the chip's static keys: the driver's builder, the host
    tool's builder, and the card's reading of it. */
module Rotation {
  import opened Bytes
  import opened BlockModes
  import opened Wrappers
  import opened SecureMessaging
  import opened Card

  // ------------------------------------------------------------------ what the field is

  /** One key: type and lengths, the component under the current DEK, and its check value. */
  function KeyEntry(c: Cipher, dek: Block, key: Block): (e: seq<byte>)
    ensures |e| == 23
  {
    [0x88, 17, 16] + c.enc(dek, key) + [3] + CheckValue(c, key)
  }

  function PutKeyData(c: Cipher, keys: KeySet, dek: Block): (d: seq<byte>)
    ensures |d| == 70
  {
    [KEY_VERSION] + KeyEntry(c, dek, keys.enc) + KeyEntry(c, dek, keys.mac) + KeyEntry(c, dek, keys.dek)
  }

  /** The success response: key version and the three check values. */
  function PutKeyEcho(c: Cipher, keys: KeySet): (e: seq<byte>)
    ensures |e| == 10
  {
    [KEY_VERSION] + CheckValue(c, keys.enc) + CheckValue(c, keys.mac) + CheckValue(c, keys.dek)
  }

  const ONE16: seq<byte> := [1, 1, 1, 1, 1, 1, 1, 1, 1, 1, 1, 1, 1, 1, 1, 1]

  /** Field and echo octet by octet: version 0B, and for each key its type, its lengths, the key under the
      old DEK and the first three octets of the block of ones under the key itself. */
  lemma PutKeyOctets(c: Cipher, keys: KeySet, dek: Block)
    ensures PutKeyData(c, keys, dek)
            == [0x0B, 0x88, 0x11, 0x10] + c.enc(dek, keys.enc) + [0x03] + c.enc(keys.enc, ONE16)[..3]
               + [0x88, 0x11, 0x10] + c.enc(dek, keys.mac) + [0x03] + c.enc(keys.mac, ONE16)[..3]
               + [0x88, 0x11, 0x10] + c.enc(dek, keys.dek) + [0x03] + c.enc(keys.dek, ONE16)[..3]
    ensures PutKeyEcho(c, keys)
            == [0x0B] + c.enc(keys.enc, ONE16)[..3] + c.enc(keys.mac, ONE16)[..3] + c.enc(keys.dek, ONE16)[..3]
  {
    assert ONE16 == ONES16;
  }

  // ------------------------------------------------------------------ the card accepts it

  lemma KeyBlockOfEntry(c: Cipher, dek: Block, key: Block)
    requires Lawful(c)
    ensures KeyBlock(c, dek, KeyEntry(c, dek, key)) == Some(key)
  {
    hide CheckValue;
    var e := KeyEntry(c, dek, key);
    assert e[..3] == [0x88, 17, 16] && e[3..19] == c.enc(dek, key) && e[19] == 3 && e[20..] == CheckValue(c, key);
  }

  /** A card whose DEK is the one the field was built under stores exactly the new keys and echoes
      exactly the expected bytes. */
  lemma PutKeyAccepted(chip: Chip, b: Body, keys: KeySet)
    requires Lawful(chip.cipher)
    ensures PutKey(chip, b, PutKeyData(chip.cipher, keys, b.keys.dek))
            == Result(b.(keys := keys), PutKeyEcho(chip.cipher, keys), SW_OK)
  {
    hide KeyBlock, KeyEntry, CheckValue;
    var c, dek := chip.cipher, b.keys.dek;
    KeyBlockOfEntry(c, dek, keys.enc);
    KeyBlockOfEntry(c, dek, keys.mac);
    KeyBlockOfEntry(c, dek, keys.dek);
    var d := PutKeyData(c, keys, dek);
    assert d[1..24] == KeyEntry(c, dek, keys.enc);
    assert d[24..47] == KeyEntry(c, dek, keys.mac);
    assert d[47..70] == KeyEntry(c, dek, keys.dek);
  }

  // ------------------------------------------------------------------ ECB by way of CBC

  lemma {:induction false} XorBitsZero(a: nat, n: nat)
    requires a < Pow2(n)
    ensures XorBits(a, 0, n) == a
  {
    if n == 0 {
    } else {
      XorBitsZero(a / 2, n - 1);
      assert a == a % 2 + 2 * (a / 2);
    }
  }

  lemma XorZero(b: Block)
    ensures Xor(b, ZEROS16) == b
  {
    Pow2Byte();
    forall i | 0 <= i < 16
      ensures Xor(b, ZEROS16)[i] == b[i]
    {
      XorBitsZero(b[i], 8);
    }
  }

  /** CBC of a single block from a zero IV is the bare cipher. */
  lemma CbcOfOneBlock(c: Cipher, key: Block, x: Block)
    ensures CbcEncrypt(c, key, ZEROS16, x) == c.enc(key, x)
  {
    hide Xor;
    XorZero(x);
    assert x[..16] == x && x[16..] == [];
    CbcEmpty(c, key, c.enc(key, x));
    assert CbcEncrypt(c, key, ZEROS16, x) == c.enc(key, x) + [];
  }

  // ------------------------------------------------------------------ the two builders

  /** memcpy into a buffer at a cursor. */
  method Put(buf: array<byte>, p: nat, s: seq<byte>) returns (q: nat)
    requires p + |s| <= buf.Length
    modifies buf
    ensures q == p + |s| && buf[..q] == old(buf[..p]) + s
  {
    ghost var head := buf[..p];
    for i := 0 to |s|
      invariant buf[..p + i] == head + s[..i]
    {
      buf[p + i] := s[i];
    }
    q := p + |s|;
  }

  function Nth(keys: KeySet, k: nat): Block {
    if k == 0 then keys.enc else if k == 1 then keys.mac else keys.dek
  }

  function EntriesUpTo(c: Cipher, dek: Block, keys: KeySet, k: nat): (d: seq<byte>)
    ensures |d| == 1 + 23 * k
  {
    if k == 0 then [KEY_VERSION] else EntriesUpTo(c, dek, keys, k - 1) + KeyEntry(c, dek, Nth(keys, k - 1))
  }

  function EchoUpTo(c: Cipher, keys: KeySet, k: nat): (e: seq<byte>)
    ensures |e| == 1 + 3 * k
  {
    if k == 0 then [KEY_VERSION] else EchoUpTo(c, keys, k - 1) + CheckValue(c, Nth(keys, k - 1))
  }

  lemma ThreeEntries(c: Cipher, dek: Block, keys: KeySet)
    ensures EntriesUpTo(c, dek, keys, 3) == PutKeyData(c, keys, dek)
    ensures EchoUpTo(c, keys, 3) == PutKeyEcho(c, keys)
  {
    hide KeyEntry, CheckValue;
    assert EntriesUpTo(c, dek, keys, 1) == [KEY_VERSION] + KeyEntry(c, dek, keys.enc);
    assert EchoUpTo(c, keys, 1) == [KEY_VERSION] + CheckValue(c, keys.enc);
    assert EntriesUpTo(c, dek, keys, 2) == [KEY_VERSION] + KeyEntry(c, dek, keys.enc) + KeyEntry(c, dek, keys.mac);
    assert EchoUpTo(c, keys, 2) == [KEY_VERSION] + CheckValue(c, keys.enc) + CheckValue(c, keys.mac);
  }

  /** The driver's builder: both buffers filled through moving cursors, CBC with a zero IV for the
      component and for the check value. */
  method BuildPutKeyData(c: Cipher, dekNow: Block, keys: KeySet, data: array<byte>, expected: array<byte>)
    returns (p: nat)
    requires data.Length >= 70 && expected.Length >= 10 && data != expected
    modifies data, expected
    ensures p == 70 && data[..p] == PutKeyData(c, keys, dekNow)
    ensures expected[..10] == PutKeyEcho(c, keys)
  {
    hide CbcEncrypt, KeyEntry, CheckValue, PutKeyData, PutKeyEcho;
    var newKeys := [keys.enc, keys.mac, keys.dek];
    var e: nat;
    p := Put(data, 0, [KEY_VERSION]);
    e := Put(expected, 0, [KEY_VERSION]);
    for k := 0 to 3
      invariant p == 1 + 23 * k && data[..p] == EntriesUpTo(c, dekNow, keys, k)
      invariant e == 1 + 3 * k && expected[..e] == EchoUpTo(c, keys, k)
    {
      var encComp := ComputeCbc(c, dekNow, ZEROS16, newKeys[k], true);
      var kcvFull := ComputeCbc(c, newKeys[k], ZEROS16, ONES16, true);
      CbcOfOneBlock(c, dekNow, newKeys[k]);
      CbcOfOneBlock(c, newKeys[k], ONES16);
      EntryParts(c, dekNow, newKeys[k], data[..p]);
      p := Put(data, p, [0x88, 16 + 1, 16]);
      p := Put(data, p, encComp);
      p := Put(data, p, [3]);
      p := Put(data, p, kcvFull[..3]);
      e := Put(expected, e, kcvFull[..3]);
    }
    ThreeEntries(c, dekNow, keys);
  }

  lemma EntryParts(c: Cipher, dek: Block, key: Block, pre: seq<byte>)
    ensures pre + [0x88, 16 + 1, 16] + c.enc(dek, key) + [3] + c.enc(key, ONES16)[..3] == pre + KeyEntry(c, dek, key)
    ensures CheckValue(c, key) == c.enc(key, ONES16)[..3]
  {
  }

  /** The host tool's builder: lengths taken from the component, ECB for the check value. */
  method ReferencePutKeyData(c: Cipher, keys: KeySet, dekCurrent: Block) returns (data: seq<byte>, expected: seq<byte>)
    ensures data == PutKeyData(c, keys, dekCurrent) && |data| == 70
    ensures expected == PutKeyEcho(c, keys) && |expected| == 10
  {
    hide CbcEncrypt, KeyEntry, CheckValue, PutKeyData, PutKeyEcho;
    var inOrder := [keys.enc, keys.mac, keys.dek];
    data, expected := [KEY_VERSION], [KEY_VERSION];
    for k := 0 to 3
      invariant data == EntriesUpTo(c, dekCurrent, keys, k)
      invariant expected == EchoUpTo(c, keys, k)
    {
      var component := CbcEncrypt(c, dekCurrent, ZEROS16, inOrder[k]);
      CbcOfOneBlock(c, dekCurrent, inOrder[k]);
      var kcv := c.enc(inOrder[k], ONES16)[..3];
      EntryParts(c, dekCurrent, inOrder[k], data);
      data := data + [0x88, |component| + 1, |component|] + component + [3] + kcv;
      expected := expected + kcv;
    }
    ThreeEntries(c, dekCurrent, keys);
  }
}
