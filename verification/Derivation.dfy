/** SCP03 key derivation (GlobalPlatform Amendment D, section 4.1.5): the firmware's, the host tool's, and
    the opening exchange built on it, octet by octet. */
module Derivation {
  import opened Bytes
  import opened BlockModes
  import opened Wrappers
  import opened SecureMessaging
  import opened Card

  /** Sixteen octets of label and counter before the context, read off by position. */
  lemma DerivationOctets(constant: byte, bits: nat, context: Block)
    requires bits < 0x1_0000
    ensures var d := DerivationData(constant, bits, context);
            && |d| == 32 && (forall i :: 0 <= i < 11 ==> d[i] == 0) && d[11] == constant && d[12] == 0
            && (d[13] as int) * 256 + d[14] as int == bits && d[15] == 1 && d[16..] == context
  {
  }

  /** No two derivations under one key take the same input. */
  lemma DerivationsApart(k: byte, bits: nat, context: Block, k': byte, bits': nat, context': Block)
    requires bits < 0x1_0000 && bits' < 0x1_0000
    ensures DerivationData(k, bits, context) == DerivationData(k', bits', context') <==>
            k == k' && bits == bits' && context == context'
  {
    hide DerivationData;
    DerivationOctets(k, bits, context);
    DerivationOctets(k', bits', context');
  }

  /** The firmware's derivation: a buffer of 32 octets filled in place. */
  method DeriveKey(c: Cipher, key: Block, constant: byte, bits: nat, context: Block) returns (out: Block)
    requires bits < 0x1_0000
    ensures out == Kdf(c, key, constant, bits, context)
  {
    var dd := new byte[32](_ => 0);
    dd[11] := constant;
    dd[12] := 0x00;
    dd[13] := bits / 256;
    dd[14] := bits % 256;
    dd[15] := 0x01;
    ghost var head := dd[..16];
    assert head == Zeros(11) + [constant, 0, bits / 256, bits % 256, 1];
    for i := 0 to 16
      invariant dd[..16] == head && dd[16..16 + i] == context[..i]
    {
      dd[16 + i] := context[i];
    }
    assert dd[..] == dd[..16] + dd[16..32] && context[..16] == context;
    out := ComputeCmac(c, key, dd[..]);
  }

  /** The host tool's: sixteen octets, and the context appended. */
  method ReferenceKdf(c: Cipher, key: Block, constant: byte, bits: nat, context: Block) returns (out: Block)
    requires bits < 0x1_0000
    ensures out == Kdf(c, key, constant, bits, context)
  {
    var dd: seq<byte> := [0, 0, 0, 0, 0, 0, 0, 0, 0, 0, 0, 0, 0, 0, 0, 0];
    dd := dd[11 := constant];
    dd := dd[12 := 0x00][13 := bits / 256 % 256];
    dd := dd[14 := bits % 256][15 := 0x01];
    assert dd == Zeros(11) + [constant, 0, bits / 256, bits % 256, 1];
    dd := dd + context;
    out := Cmac(c, key, dd);
  }

  /** Three derivations from two static keys. */
  method DeriveSessionKeys(c: Cipher, ks: KeySet, context: Block) returns (keys: SessionKeys)
    ensures keys == SessionKeysOf(c, ks, context)
  {
    hide Kdf;
    var senc := DeriveKey(c, ks.enc, 0x04, 128, context);
    var smac := DeriveKey(c, ks.mac, 0x06, 128, context);
    var srmac := DeriveKey(c, ks.mac, 0x07, 128, context);
    keys := SessionKeys(senc, smac, srmac);
  }

  /** The first half of a 64-bit derivation off S-MAC. */
  method DeriveCryptogram(c: Cipher, keys: SessionKeys, constant: byte, context: Block) returns (g: seq<byte>)
    ensures g == Cryptogram(c, keys, constant, context)
  {
    hide Kdf;
    var full := DeriveKey(c, keys.smac, constant, 64, context);
    g := full[..8];
  }

  const LABEL: seq<byte> := [0, 0, 0, 0, 0, 0, 0, 0, 0, 0, 0]

  /** Which key, which constant and which length each of the five values is derived with. */
  lemma DerivedFrom(c: Cipher, ks: KeySet, context: Block)
    ensures var keys := SessionKeysOf(c, ks, context);
            && keys.senc == Cmac(c, ks.enc, LABEL + [0x04, 0x00, 0x00, 0x80, 0x01] + context)
            && keys.smac == Cmac(c, ks.mac, LABEL + [0x06, 0x00, 0x00, 0x80, 0x01] + context)
            && keys.srmac == Cmac(c, ks.mac, LABEL + [0x07, 0x00, 0x00, 0x80, 0x01] + context)
            && Cryptogram(c, keys, 0, context) == Cmac(c, keys.smac, LABEL + [0x00, 0x00, 0x00, 0x40, 0x01] + context)[..8]
            && Cryptogram(c, keys, 1, context) == Cmac(c, keys.smac, LABEL + [0x01, 0x00, 0x00, 0x40, 0x01] + context)[..8]
  {
    hide Cmac;
    assert LABEL == Zeros(11);
  }

  /** The two exchanges of an opening as the card answers them: to a host challenge its own challenge and
      the cryptogram with constant 0, and 90 00 to exactly the cryptogram with constant 1 followed by the
      first half of the CMAC that chains from a zero block. The channel starts with that CMAC and counter 0. */
  lemma OpeningOctets(chip: Chip, s: CardState, challenge: seq<byte>, answer: seq<byte>)
    requires |challenge| == 8 && |answer| == 16
    ensures var c, keys := chip.cipher, s.body.keys;
            var context := challenge + chip.draw(s.body.drawn)[..8];
            var smac := Cmac(c, keys.mac, LABEL + [0x06, 0x00, 0x00, 0x80, 0x01] + context);
            var (s1, r1) := Answer(chip, s, [0x80, 0x50, 0x0B, 0x00, 0x08] + challenge + [0x00]);
            var (s2, r2) := Answer(chip, s1, [0x84, 0x82, 0x33, 0x00, 0x10] + answer);
            && |r1| == 31 && r1[13..21] == context[8..]
            && r1[21..29] == Cmac(c, smac, LABEL + [0x00, 0x00, 0x00, 0x40, 0x01] + context)[..8] && r1[29..] == [0x90, 0x00]
            && (r2 == [0x90, 0x00] <==> s2.chan.Some?)
            && (s2.chan.Some? <==>
                  && answer[..8] == Cmac(c, smac, LABEL + [0x01, 0x00, 0x00, 0x40, 0x01] + context)[..8]
                  && answer[8..] == Cmac(c, smac, ZEROS16 + [0x84, 0x82, 0x33, 0x00, 0x10] + answer[..8])[..8])
            && (s2.chan.Some? ==>
                  && s2.chan.value.mcv == Cmac(c, smac, ZEROS16 + [0x84, 0x82, 0x33, 0x00, 0x10] + answer[..8])
                  && s2.chan.value.keys.smac == smac && s2.chan.value.counter == 0)
  {
    hide Cmac, SessionKeysOf, Cryptogram;
    var context: Block := challenge + chip.draw(s.body.drawn)[..8];
    DerivedFrom(chip.cipher, s.body.keys, context);
    var iu := [0x80, 0x50, 0x0B, 0x00, 0x08] + challenge + [0x00];
    var ea := [0x84, 0x82, 0x33, 0x00, 0x10] + answer;
    assert iu[..5] == [0x80, 0x50, 0x0B, 0x00, 0x08] && iu[5..13] == challenge && iu != SELECT_IOT && iu != SELECT_SSD;
    assert ea[..5] == [0x84, 0x82, 0x33, 0x00, 0x10] && ea != SELECT_IOT && ea != SELECT_SSD by {
      assert ea[0] == 0x84 && SELECT_IOT[0] == 0 && SELECT_SSD[0] == 0;
    }
    assert context[8..] == chip.draw(s.body.drawn)[..8];
    EchoedCryptogram(chip, s, challenge, context, iu);
    AcceptedCryptogram(chip, Answer(chip, s, iu).0, context, answer);
  }

  lemma EchoedCryptogram(chip: Chip, s: CardState, challenge: seq<byte>, context: Block, iu: seq<byte>)
    requires |challenge| == 8 && context == challenge + chip.draw(s.body.drawn)[..8]
    requires Answer(chip, s, iu) == StartChannel(chip, s, challenge)
    ensures var (s1, r1) := Answer(chip, s, iu);
            && s1.pending == Some(context) && s1.chan.None? && s1.body.keys == s.body.keys
            && |r1| == 31 && r1[13..21] == context[8..] && r1[29..] == [0x90, 0x00]
            && r1[21..29] == Cryptogram(chip.cipher, SessionKeysOf(chip.cipher, s.body.keys, context), 0, context)
  {
    hide Cmac, SessionKeysOf, Cryptogram, Answer;
    assert StatusBytes(SW_OK) == [0x90, 0x00];
    var r1 := StartChannel(chip, s, challenge).1;
    var g := Cryptogram(chip.cipher, SessionKeysOf(chip.cipher, s.body.keys, context), 0, context);
    assert r1 == Zeros(13) + context[8..] + g + [0x90, 0x00];
  }

  lemma AcceptedCryptogram(chip: Chip, s: CardState, context: Block, answer: seq<byte>)
    requires s.pending == Some(context) && s.chan.None? && |answer| == 16
    ensures var keys := SessionKeysOf(chip.cipher, s.body.keys, context);
            var (s2, r2) := Authenticate(chip, s, [0x84, 0x82, 0x33, 0x00, 0x10] + answer);
            && (r2 == [0x90, 0x00] <==> s2.chan.Some?)
            && (s2.chan.Some? <==>
                  && answer[..8] == Cryptogram(chip.cipher, keys, 1, context)
                  && answer[8..] == Cmac(chip.cipher, keys.smac, ZEROS16 + [0x84, 0x82, 0x33, 0x00, 0x10] + answer[..8])[..8])
            && (s2.chan.Some? ==>
                  s2.chan.value == Channel(keys, Cmac(chip.cipher, keys.smac, ZEROS16 + [0x84, 0x82, 0x33, 0x00, 0x10] + answer[..8]), 0))
  {
    hide Cmac, SessionKeysOf, Cryptogram;
    var keys := SessionKeysOf(chip.cipher, s.body.keys, context);
    var g := Cryptogram(chip.cipher, keys, 1, context);
    var mac := AuthenticationMac(chip.cipher, keys, g);
    var ea := [0x84, 0x82, 0x33, 0x00, 0x10] + answer;
    assert ea[5..13] == answer[..8] && ea[13..] == answer[8..] && answer == answer[..8] + answer[8..];
    var right := Authentication(g) + mac[..8];
    assert right[5..13] == g && right[13..] == mac[..8] && right[..5] == ea[..5];
    assert ea == ea[..5] + ea[5..13] + ea[13..] && right == right[..5] + right[5..13] + right[13..];
    assert ZEROS16 + Authentication(g) == ZEROS16 + [0x84, 0x82, 0x33, 0x00, 0x10] + g;
  }
}
