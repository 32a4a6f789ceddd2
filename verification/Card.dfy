/** The secure element as the driver sees it: static keys, secure channel, one UserID session, key
    objects in non-volatile memory, and a link that may lose either frame of an exchange or find the
    chip freshly reset. Curve arithmetic, signatures and randomness are parameters. */
module Card {
  import opened Bytes
  import opened BlockModes
  import opened Tlv
  import opened Wrappers
  import opened SecureMessaging

  type Key32 = b: seq<byte> | |b| == 32 witness ZEROS16 + ZEROS16
  type Sig64 = b: seq<byte> | |b| == 64 witness ZEROS16 + ZEROS16 + ZEROS16 + ZEROS16
  type Refusal = sw: StatusWord | sw != SW_OK witness 0x6985

  /** One static Platform SCP03 key set. */
  datatype KeySet = KeySet(enc: Block, mac: Block, dek: Block)

  /** The access rule of an object: what the authenticator it is bound to may do with it. */
  type Rights = p: seq<byte> | |p| == 4 witness [0, 0, 0, 0]

  predicate MayAgree(p: Rights) {
    p[0] / 0x04 % 2 == 1
  }

  predicate MaySign(p: Rights) {
    p[0] / 0x10 % 2 == 1
  }

  datatype KeyPair = KeyPair(curve: byte, secret: Key32, rights: Rights)

  /** A public key object; a transient one loses its value, not itself, when the chip resets. */
  datatype Peer = Peer(transient: bool, value: Option<Key32>, rights: Rights)

  datatype Session = Session(id: seq<byte>, verified: bool)

  datatype Target = Nothing | IotApplet | SecurityDomain

  /** Everything a command can read or change. `drawn` counts the random values taken so far. */
  datatype Body = Body(
    keys: KeySet, selected: Target, session: Option<Session>, curves: set<byte>, userId: bool,
    pairs: map<seq<byte>, KeyPair>, peers: map<seq<byte>, Peer>, drawn: nat)

  /** `pending` is the challenge pair of an INITIALIZE UPDATE not yet authenticated. */
  datatype CardState = CardState(pending: Option<Block>, chan: Option<Channel>, body: Body)

  /** What one particular chip computes and answers. `noChannel` is its bare answer to a wrapped
      command when it has no channel, `noSession` to one for a session it does not know. */
  datatype Chip = Chip(
    cipher: Cipher,
    publicKey: (byte, Key32) -> Key32,
    agree: (Key32, Key32) -> Key32,
    sign: (Key32, seq<byte>) -> Sig64,
    draw: nat -> Key32,
    noChannel: Refusal,
    noSession: Refusal)

  const CURVE_X25519: byte := 0x41
  const CURVE_ED25519: byte := 0x40
  const AUTH_OBJ: seq<byte> := [0x20, 0x00, 0x0A, 0xAA]
  const AUTH_PIN: seq<byte> := [1, 2, 3, 4, 5, 6, 7, 8]
  const KEY_VERSION: byte := 0x0B

  // ------------------------------------------------------------------ key derivation

  /** 11 zero octets, constant, separator, length in bits, counter, context. */
  function DerivationData(constant: byte, bits: nat, context: Block): (d: seq<byte>)
    requires bits < 0x1_0000
    ensures |d| == 32
  {
    Zeros(11) + [constant, 0, bits / 256, bits % 256, 1] + context
  }

  /** NIST SP 800-108 section 5.1, counter mode with CMAC, as SCP03 lays it out. */
  function Kdf(c: Cipher, key: Block, constant: byte, bits: nat, context: Block): Block
    requires bits < 0x1_0000
  {
    Cmac(c, key, DerivationData(constant, bits, context))
  }

  function SessionKeysOf(c: Cipher, ks: KeySet, context: Block): SessionKeys {
    SessionKeys(Kdf(c, ks.enc, 4, 128, context), Kdf(c, ks.mac, 6, 128, context), Kdf(c, ks.mac, 7, 128, context))
  }

  function Cryptogram(c: Cipher, keys: SessionKeys, constant: byte, context: Block): (g: seq<byte>)
    ensures |g| == 8
  {
    Kdf(c, keys.smac, constant, 64, context)[..8]
  }

  // ------------------------------------------------------------------ commands, as bytes

  const SELECT_IOT: seq<byte> := [0x00, 0xA4, 0x04, 0x00, 0x10, 0xA0, 0x00, 0x00, 0x03, 0x96, 0x54,
                                  0x53, 0x00, 0x00, 0x00, 0x01, 0x03, 0x00, 0x00, 0x00, 0x00]
  const SELECT_SSD: seq<byte> := [0x00, 0xA4, 0x04, 0x00, 0x0B, 0xD2, 0x76, 0x00,
                                  0x00, 0x85, 0x30, 0x4A, 0x43, 0x4F, 0x90, 0x03]

  function InitializeUpdate(challenge: seq<byte>): seq<byte> {
    [0x80, 0x50, KEY_VERSION, 0x00, 0x08] + challenge + [0x00]
  }

  /** EXTERNAL AUTHENTICATE up to its C-MAC, which chains from a zero chaining value. */
  function Authentication(hostCryptogram: seq<byte>): seq<byte> {
    [0x84, 0x82, 0x33, 0x00, 0x10] + hostCryptogram
  }

  function AuthenticationMac(c: Cipher, keys: SessionKeys, hostCryptogram: seq<byte>): Block {
    Cmac(c, keys.smac, ZEROS16 + Authentication(hostCryptogram))
  }

  // Headers: plain inside a session, with the security bit when they travel the channel directly.
  const CREATE_CURVE: seq<byte> := [0x80, 0x01, 0x0B, 0x04]
  const WRITE_USERID: seq<byte> := [0x80, 0x41, 0x07, 0x00]
  const CREATE_SESSION: seq<byte> := [0x80, 0x04, 0x00, 0x1B]
  const PROCESS_SESSION: seq<byte> := [0x80, 0x05, 0x00, 0x00]
  const PUT_KEY: seq<byte> := [0x80, 0xD8, 0x0B, 0x81]
  const VERIFY_USERID: seq<byte> := [0x80, 0x04, 0x00, 0x2C]
  const CHECK_EXISTS: seq<byte> := [0x80, 0x04, 0x00, 0x27]
  const GENERATE_KEY: seq<byte> := [0x80, 0x01, 0x61, 0x00]
  const READ_OBJECT: seq<byte> := [0x80, 0x02, 0x00, 0x00]
  const ECDH: seq<byte> := [0x80, 0x03, 0x01, 0x0F]
  const SIGN: seq<byte> := [0x80, 0x03, 0x0C, 0x09]
  const WRITE_PUBLIC: seq<byte> := [0x80, 0x01, 0x21, 0x00]
  const WRITE_PUBLIC_TRANSIENT: seq<byte> := [0x80, 0x81, 0x21, 0x00]

  // ------------------------------------------------------------------ the applet

  /** A command's effect: new state, response data, status word. */
  datatype Result = Result(body: Body, data: seq<byte>, sw: StatusWord)

  function Refuse(b: Body, sw: Refusal): Result {
    Result(b, [], sw)
  }

  function Answered(b: Body, v: seq<byte>): Result
    requires |v| <= 64
  {
    Result(b, EncodeItem(Item(TAG_1, v)), SW_OK)
  }

  /** CheckObjectExists. */
  function Exists(b: Body, items: seq<Item>): Result {
    if |items| == 1 && items[0].tag == TAG_1 then
      Answered(b, [if items[0].value in b.pairs || items[0].value in b.peers then 1 else 2])
    else Refuse(b, 0x6A80)
  }

  /** The policy object of a creation: one rule, bound to the authenticator. */
  function PolicyRights(v: seq<byte>): Option<Rights> {
    if |v| == 9 && v[0] == 0x08 && v[1..5] == AUTH_OBJ then Some(v[5..9]) else None
  }

  /** WriteECKey in its generate form. It does NOT protect an existing pair: it replaces it. */
  function Generate(chip: Chip, b: Body, items: seq<Item>): Result {
    if |items| == 3 && items[0].tag == TAG_POLICY && items[1].tag == TAG_1 && items[2].tag == TAG_2
       && |items[2].value| == 1 && items[2].value[0] in b.curves && items[1].value !in b.peers
       && PolicyRights(items[0].value).Some?
    then
      var pair := KeyPair(items[2].value[0], chip.draw(b.drawn), PolicyRights(items[0].value).value);
      Result(b.(pairs := b.pairs[items[1].value := pair], drawn := b.drawn + 1), [], SW_OK)
    else Refuse(b, 0x6A80)
  }

  /** ReadObject of a key pair: its public half, most significant octet first. */
  function ReadKey(chip: Chip, b: Body, items: seq<Item>): Result {
    if |items| == 1 && items[0].tag == TAG_1 && items[0].value in b.pairs then
      var p := b.pairs[items[0].value];
      Answered(b, Reverse(chip.publicKey(p.curve, p.secret)))
    else Refuse(b, 0x6A88)
  }

  /** The peer value of a key agreement: inline (tag 42), or a public key object (tag 43). */
  function PeerValue(b: Body, item: Item): Option<Key32> {
    if item.tag == TAG_2 && |item.value| == 32 then Some(item.value)
    else if item.tag == TAG_3 && item.value in b.peers then b.peers[item.value].value
    else None
  }

  function Agree(chip: Chip, b: Body, items: seq<Item>): Result {
    if |items| == 2 && items[0].tag == TAG_1 && items[0].value in b.pairs
       && b.pairs[items[0].value].curve == CURVE_X25519 && MayAgree(b.pairs[items[0].value].rights)
       && PeerValue(b, items[1]).Some?
    then Answered(b, Reverse(chip.agree(b.pairs[items[0].value].secret, Reverse(PeerValue(b, items[1]).value))))
    else Refuse(b, 0x6A80)
  }

  /** EdDSASign: r and s each reversed on its own. */
  function SignMessage(chip: Chip, b: Body, items: seq<Item>): Result {
    if |items| == 3 && items[0].tag == TAG_1 && items[1] == Item(TAG_2, [0xA3]) && items[2].tag == TAG_3
       && items[0].value in b.pairs && b.pairs[items[0].value].curve == CURVE_ED25519
       && MaySign(b.pairs[items[0].value].rights)
    then
      var s := chip.sign(b.pairs[items[0].value].secret, items[2].value);
      Answered(b, Reverse(s[..32]) + Reverse(s[32..]))
    else Refuse(b, 0x6A80)
  }

  /** WriteECKey of a public key: creation while the id is free, replacement of the value after. */
  function WritePublic(b: Body, transient: bool, items: seq<Item>): Result {
    if |items| == 4 && items[0].tag == TAG_POLICY && items[1].tag == TAG_1 && items[2] == Item(TAG_2, [CURVE_X25519])
       && items[3].tag == TAG_4 && |items[3].value| == 32 && PolicyRights(items[0].value).Some?
    then
      var id := items[1].value;
      if id in b.peers || id in b.pairs || CURVE_X25519 !in b.curves then Refuse(b, 0x6985)
      else Result(b.(peers := b.peers[id := Peer(transient, Some(items[3].value), PolicyRights(items[0].value).value)]), [], SW_OK)
    else if |items| == 2 && items[0].tag == TAG_1 && items[1].tag == TAG_4 && |items[1].value| == 32
            && items[0].value in b.peers
    then
      var id := items[0].value;
      Result(b.(peers := b.peers[id := b.peers[id].(value := Some(items[1].value))]), [], SW_OK)
    else Refuse(b, 0x6A80)
  }

  /** A command inside a verified session. */
  function InSession(chip: Chip, b: Body, header: seq<byte>, items: seq<Item>): Result {
    if header == CHECK_EXISTS then Exists(b, items)
    else if header == GENERATE_KEY then Generate(chip, b, items)
    else if header == READ_OBJECT then ReadKey(chip, b, items)
    else if header == ECDH then Agree(chip, b, items)
    else if header == SIGN then SignMessage(chip, b, items)
    else if header == WRITE_PUBLIC then WritePublic(b, false, items)
    else if header == WRITE_PUBLIC_TRANSIENT then WritePublic(b, true, items)
    else Refuse(b, 0x6D00)
  }

  /** ProcessSessionCmd: the named session must be the live one; only the authenticator itself is
      accepted before it is verified. */
  /** The same octets, the last first. */
  ghost predicate Mirrored(a: seq<byte>, b: seq<byte>) {
    |a| == |b| && forall i :: 0 <= i < |a| ==> a[i] == b[|a| - 1 - i]
  }

  lemma MirroredIs(a: seq<byte>, b: seq<byte>)
    ensures Mirrored(a, b) <==> a == Reverse(b)
  {
  }

  lemma ShortItem(v: seq<byte>)
    requires |v| <= 64
    ensures EncodeItem(Item(TAG_1, v)) == [0x41, |v|] + v
  {
  }

  /** The chip's byte order: a shared secret travels most significant octet first, and so does the peer's
      key, which the curve reads as the caller has it. */
  lemma AgreementOctets(chip: Chip, b: Body, id: seq<byte>, peer: Key32, le: Key32)
    requires id in b.pairs && b.pairs[id].curve == 0x41 && b.pairs[id].rights[0] / 0x04 % 2 == 1 && Mirrored(peer, le)
    ensures var r := InSession(chip, b, [0x80, 0x03, 0x01, 0x0F], [Item(0x41, id), Item(0x42, peer)]);
            && r.sw == 0x9000 && |r.data| == 34 && r.data[..2] == [0x41, 0x20]
            && Mirrored(r.data[2..], chip.agree(b.pairs[id].secret, le))
  {
    hide EncodeItem, Reverse, Mirrored;
    MirroredIs(peer, le);
    ReverseTwice(le);
    var z := Reverse(chip.agree(b.pairs[id].secret, le));
    ShortItem(z);
    assert ([0x41, |z|] + z)[2..] == z && ([0x41, |z|] + z)[..2] == [0x41, |z|];
    MirroredIs(z, chip.agree(b.pairs[id].secret, le));
  }

  /** The two halves of a signature each on its own. */
  lemma SignatureOctets(chip: Chip, b: Body, id: seq<byte>, message: seq<byte>)
    requires id in b.pairs && b.pairs[id].curve == 0x40 && b.pairs[id].rights[0] / 0x10 % 2 == 1
    ensures var r := InSession(chip, b, [0x80, 0x03, 0x0C, 0x09], [Item(0x41, id), Item(0x42, [0xA3]), Item(0x43, message)]);
            var s := chip.sign(b.pairs[id].secret, message);
            && r.sw == 0x9000 && |r.data| == 66 && r.data[..2] == [0x41, 0x40]
            && Mirrored(r.data[2..34], s[..32]) && Mirrored(r.data[34..], s[32..])
  {
    hide EncodeItem, Reverse, Mirrored;
    var s := chip.sign(b.pairs[id].secret, message);
    var z := Reverse(s[..32]) + Reverse(s[32..]);
    ShortItem(z);
    assert ([0x41, |z|] + z)[2..34] == Reverse(s[..32]) && ([0x41, |z|] + z)[34..] == Reverse(s[32..]);
    assert ([0x41, |z|] + z)[..2] == [0x41, |z|];
    MirroredIs(Reverse(s[..32]), s[..32]);
    MirroredIs(Reverse(s[32..]), s[32..]);
  }

  lemma PublicKeyOctets(chip: Chip, b: Body, id: seq<byte>)
    requires id in b.pairs
    ensures var r := InSession(chip, b, [0x80, 0x02, 0x00, 0x00], [Item(0x41, id)]);
            && r.sw == 0x9000 && |r.data| == 34 && r.data[..2] == [0x41, 0x20]
            && Mirrored(r.data[2..], chip.publicKey(b.pairs[id].curve, b.pairs[id].secret))
  {
    hide EncodeItem, Reverse, Mirrored;
    var k := chip.publicKey(b.pairs[id].curve, b.pairs[id].secret);
    var z := Reverse(k);
    ShortItem(z);
    assert ([0x41, |z|] + z)[2..] == z && ([0x41, |z|] + z)[..2] == [0x41, |z|];
    MirroredIs(z, k);
  }

  function ProcessSession(chip: Chip, b: Body, data: seq<byte>): Result {
    match ReadFrame(data)
    case None => Refuse(b, 0x6A80)
    case Some((sid, header, inner)) =>
      if b.session.None? || b.session.value.id != sid then Refuse(b, chip.noSession)
      else
        match Parse(inner)
        case None => Refuse(b, 0x6A80)
        case Some(items) =>
          if header == VERIFY_USERID then
            if items == [Item(TAG_1, AUTH_PIN)] then
              Result(b.(session := Some(Session(sid, true))), [], SW_OK)
            else Refuse(b, 0x6985)
          else if b.session.value.verified then InSession(chip, b, header, items)
          else Refuse(b, 0x6985)
  }

  function CreateCurve(b: Body, items: seq<Item>): Result {
    if |items| == 1 && items[0].tag == TAG_1 && |items[0].value| == 1 then
      if items[0].value[0] in b.curves then Refuse(b, 0x6985)
      else Result(b.(curves := b.curves + {items[0].value[0]}), [], SW_OK)
    else Refuse(b, 0x6A80)
  }

  function WriteUserId(b: Body, items: seq<Item>): Result {
    if b.userId then Refuse(b, 0x6985)
    else if items == [Item(TAG_1, AUTH_OBJ), Item(TAG_2, AUTH_PIN)] then
      Result(b.(userId := true), [], SW_OK)
    else Refuse(b, 0x6A80)
  }

  function CreateSession(chip: Chip, b: Body, items: seq<Item>): Result {
    if b.userId && items == [Item(TAG_1, AUTH_OBJ)] then
      var id := chip.draw(b.drawn)[..8];
      Answered(b.(session := Some(Session(id, false)), drawn := b.drawn + 1), id)
    else Refuse(b, 0x6985)
  }

  /** What PUT KEY does with one key block `88 11 10 <component> 03 <check value>`: the key, if it
      decrypts under the current DEK to one with that check value. */
  function KeyBlock(c: Cipher, dek: Block, s: seq<byte>): Option<Block>
    requires |s| == 23
  {
    var key := c.dec(dek, s[3..19]);
    if s[..3] == [0x88, 17, 16] && s[19] == 3 && CheckValue(c, key) == s[20..] then Some(key) else None
  }

  const ONES16: seq<byte> := [1, 1, 1, 1, 1, 1, 1, 1, 1, 1, 1, 1, 1, 1, 1, 1]

  function CheckValue(c: Cipher, key: Block): (v: seq<byte>)
    ensures |v| == 3
  {
    c.enc(key, ONES16)[..3]
  }

  /** PUT KEY, for the security domain only: all three keys or nothing. */
  function PutKey(chip: Chip, b: Body, data: seq<byte>): Result {
    if |data| != 70 || data[0] != KEY_VERSION then Refuse(b, 0x6A80)
    else
      var k1 := KeyBlock(chip.cipher, b.keys.dek, data[1..24]);
      var k2 := KeyBlock(chip.cipher, b.keys.dek, data[24..47]);
      var k3 := KeyBlock(chip.cipher, b.keys.dek, data[47..70]);
      if k1.None? || k2.None? || k3.None? then Refuse(b, 0x6A80)
      else
        Result(b.(keys := KeySet(k1.value, k2.value, k3.value)),
               [KEY_VERSION] + CheckValue(chip.cipher, k1.value) + CheckValue(chip.cipher, k2.value)
               + CheckValue(chip.cipher, k3.value), SW_OK)
  }

  /** A command that came through the secure channel, header with the security bit. */
  function Execute(chip: Chip, b: Body, header: seq<byte>, data: seq<byte>): Result
    requires |header| == 4
  {
    if b.selected == SecurityDomain then
      if header == SecuredHeader(PUT_KEY) then PutKey(chip, b, data) else Refuse(b, 0x6D00)
    else if b.selected == Nothing then Refuse(b, 0x6D00)
    else if header == SecuredHeader(PROCESS_SESSION) then ProcessSession(chip, b, data)
    else
      match Parse(data)
      case None => Refuse(b, 0x6A80)
      case Some(items) =>
        if header == SecuredHeader(CREATE_CURVE) then CreateCurve(b, items)
        else if header == SecuredHeader(WRITE_USERID) then WriteUserId(b, items)
        else if header == SecuredHeader(CREATE_SESSION) then CreateSession(chip, b, items)
        else Refuse(b, 0x6D00)
  }

  /** Every response fits the secure messaging frame. */
  lemma ExecuteDataFits(chip: Chip, b: Body, header: seq<byte>, data: seq<byte>)
    requires |header| == 4
    ensures |Execute(chip, b, header, data).data| <= 66
    ensures Execute(chip, b, header, data).sw != SW_OK ==> Execute(chip, b, header, data).body == b
  {
    hide Parse, ReadFrame, CheckValue, KeyBlock;
  }

  // ------------------------------------------------------------------ the chip on its bus

  /** A reset forgets channel, session, selection and transient values; objects and keys stay. */
  function ResetBody(b: Body): Body {
    b.(selected := Nothing, session := None,
       peers := map id | id in b.peers :: if b.peers[id].transient then b.peers[id].(value := None) else b.peers[id])
  }

  function Reset(s: CardState): CardState {
    CardState(None, None, ResetBody(s.body))
  }

  /** Selecting an applet leaves the previous one, which clears its transient values too. */
  function Select(s: CardState, target: Target): CardState {
    CardState(None, None, ResetBody(s.body).(selected := target))
  }

  /** Card challenge and cryptogram for INITIALIZE UPDATE; whatever channel there was is gone. */
  function StartChannel(chip: Chip, s: CardState, hostChallenge: seq<byte>): (CardState, seq<byte>)
    requires |hostChallenge| == 8
  {
    var challenge := chip.draw(s.body.drawn)[..8];
    var context := hostChallenge + challenge;
    var keys := SessionKeysOf(chip.cipher, s.body.keys, context);
    (CardState(Some(context), None, s.body.(session := None, drawn := s.body.drawn + 1)),
     Zeros(13) + challenge + Cryptogram(chip.cipher, keys, 0, context) + StatusBytes(SW_OK))
  }

  function Authenticate(chip: Chip, s: CardState, apdu: seq<byte>): (CardState, seq<byte>) {
    if s.pending.None? || |apdu| != 21 then (s.(pending := None), StatusBytes(chip.noChannel))
    else
      var keys := SessionKeysOf(chip.cipher, s.body.keys, s.pending.value);
      var g := Cryptogram(chip.cipher, keys, 1, s.pending.value);
      var mac := AuthenticationMac(chip.cipher, keys, g);
      if apdu == Authentication(g) + mac[..8] then
        (CardState(None, Some(Channel(keys, mac, 0)), s.body), StatusBytes(SW_OK))
      else (s.(pending := None), StatusBytes(0x6982))
  }

  /** A wrapped command: refused without a channel, and a failed C-MAC ends the channel. */
  function Wrapped(chip: Chip, s: CardState, apdu: seq<byte>): (CardState, seq<byte>) {
    if s.chan.None? then (s, StatusBytes(chip.noChannel))
    else
      match Receive(chip.cipher, s.chan.value, apdu)
      case None => (s.(chan := None, body := s.body.(session := None)), StatusBytes(0x6988))
      case Some((header, data, ch)) =>
        var r := Execute(chip, s.body, header, data);
        (CardState(s.pending, Some(ch), r.body), Respond(chip.cipher, ch, r.data, r.sw))
  }

  /** The answer to any APDU. */
  function Answer(chip: Chip, s: CardState, apdu: seq<byte>): (CardState, seq<byte>) {
    if apdu == SELECT_IOT then (Select(s, IotApplet), [7, 2, 0] + StatusBytes(SW_OK))
    else if apdu == SELECT_SSD then (Select(s, SecurityDomain), StatusBytes(SW_OK))
    else if |apdu| == 14 && apdu[..5] == [0x80, 0x50, KEY_VERSION, 0x00, 0x08] then StartChannel(chip, s, apdu[5..13])
    else if |apdu| >= 5 && apdu[..5] == [0x84, 0x82, 0x33, 0x00, 0x10] then Authenticate(chip, s, apdu)
    else if |apdu| >= 5 && apdu[0] / 4 % 2 == 1 then Wrapped(chip, s, apdu)
    else (s, StatusBytes(0x6E00))
  }

  /** What befalls one exchange: a reset just before it, the command lost, the answer lost. */
  datatype Fate = Fate(reset: bool, arrives: bool, answered: bool)

  const HEALTHY := Fate(false, true, true)

  function Settle(s: CardState, f: Fate): CardState {
    if f.reset then Reset(s) else s
  }

  function Exchange(chip: Chip, s: CardState, f: Fate, apdu: seq<byte>): (CardState, Option<seq<byte>>) {
    var now := Settle(s, f);
    if !f.arrives then (now, None)
    else
      var (after, r) := Answer(chip, now, apdu);
      (after, if f.answered then Some(r) else None)
  }

  /** The T=1 interface reset: it resets the chip when it arrives at all. */
  function InterfaceReset(s: CardState, f: Fate): (CardState, bool) {
    (if f.reset || f.arrives then Reset(s) else s, f.arrives && f.answered)
  }
}
