/** One wrapped command, one channel opening, and every run of them over a link that loses frames
    and a card that resets: the two ends stay in step, or the host knows the channel is closed. */
module ChannelProtocol {
  import opened Bytes
  import opened BlockModes
  import opened Tlv
  import opened Wrappers
  import opened SecureMessaging
  import opened Card

  /** The driver's `scp` struct. */
  datatype Scp03 = Scp03(open: bool, ch: Channel)

  const NO_CHANNEL := Scp03(false, Channel(SessionKeys(ZEROS16, ZEROS16, ZEROS16), ZEROS16, 0))

  /** An open host channel faces a card that either has none (it was reset) or holds the same keys,
      chaining value and counter. */
  predicate InStep(scp: Scp03, card: CardState) {
    scp.open ==> card.chan.None? || card.chan == Some(scp.ch)
  }

  datatype Step = Step(scp: Scp03, card: CardState, reply: Reply)

  /** One `secureApdu`: the host's end, the link and the card. `behind` is what the answer buffer held. */
  function Secure(chip: Chip, scp: Scp03, card: CardState, f: Fate,
                  header: seq<byte>, data: seq<byte>, le: bool, cap: nat, behind: Block): Step
    requires |header| == 4
  {
    if !scp.open then Step(scp, card, CLOSED)
    else if !Fits(data) then
      Step(Scp03(false, scp.ch.(counter := NextCounter(scp.ch.counter))), card, CLOSED)
    else
      var (apdu, after) := Command(chip.cipher, scp.ch, header, data, le);
      var (card', r) := Exchange(chip, card, f, apdu);
      match r
      case None => Step(Scp03(false, after), card', CLOSED)
      case Some(raw) =>
        var reply := Read(chip.cipher, after, raw, cap, behind);
        Step(Scp03(reply.open, after), card', reply)
  }

  /** The card executes the command exactly when it still has its channel and the frame arrives. */
  predicate Reaches(card: CardState, f: Fate) {
    Settle(card, f).chan.Some? && f.arrives
  }

  lemma WrappedAnswer(chip: Chip, s: CardState, ch: Channel, header: seq<byte>, data: seq<byte>, le: bool)
    requires Lawful(chip.cipher) && |header| == 4 && Fits(data)
    requires s.chan == None || s.chan == Some(ch)
    requires header[..2] != [0x84, 0x82] && header[..2] != [0x80, 0x82]
    ensures var (apdu, after) := Command(chip.cipher, ch, header, data, le);
            Answer(chip, s, apdu) == Wrapped(chip, s, apdu)
            && (s.chan.Some? ==>
                  var r := Execute(chip, s.body, SecuredHeader(header), data);
                  Wrapped(chip, s, apdu) == (CardState(s.pending, Some(after), r.body),
                                             Respond(chip.cipher, after, r.data, r.sw)))
  {
    hide Execute, Receive, Respond, Cmac, StartChannel, Authenticate;
    var (apdu, after) := Command(chip.cipher, ch, header, data, le);
    ReceiveCommand(chip.cipher, ch, header, data, le);
    assert apdu[..4] == SecuredHeader(header);
    assert apdu[0] == SecuredCla(header[0]) && apdu[1] == header[1];
    assert apdu[..5][0] == apdu[0] && apdu[..5][1] == apdu[1];
    assert SELECT_IOT[0] == 0 && SELECT_SSD[0] == 0;
    assert header[..2] == [header[0], header[1]];
  }

  function Cut(d: seq<byte>, cap: nat): seq<byte> {
    if |d| > cap then d[..cap] else d
  }

  /** Everything the layers above need about one wrapped command. It keeps the ends in step. When
      it does not reach the card, the card is only settled and the caller sees no success. When it
      does, the card executed exactly this header and data once, and the caller sees exactly the
      card's answer, or nothing and a closed channel. */
  lemma SecureOutcome(chip: Chip, scp: Scp03, card: CardState, f: Fate,
                      header: seq<byte>, data: seq<byte>, le: bool, cap: nat, behind: Block)
    requires Lawful(chip.cipher) && |header| == 4 && Fits(data)
    requires header[..2] != [0x84, 0x82] && header[..2] != [0x80, 0x82]
    requires scp.open && InStep(scp, card)
    ensures var s := Secure(chip, scp, card, f, header, data, le, cap, behind);
            var now := Settle(card, f);
            InStep(s.scp, s.card) && s.scp.open == s.reply.open
            && (!Reaches(card, f) ==> s.card == now && s.reply.sw != SW_OK)
            && (Reaches(card, f) ==>
                  var r := Execute(chip, now.body, SecuredHeader(header), data);
                  var d := Cut(r.data, cap);
                  s.card == CardState(now.pending, Some(s.scp.ch), r.body)
                  && s.reply == (if !f.answered then CLOSED
                                 else if r.sw == SW_OK then Reply(|d|, d, SW_OK, true)
                                 else Reply(0, [], r.sw, !RefusesMessaging(r.sw))))
  {
    hide Execute, Command, Respond, Wrapped, Answer, Read, Fits, Reset;
    var now := Settle(card, f);
    assert Settle(card, f).chan == None || Settle(card, f).chan == Some(scp.ch) by {
      ResetClears(card);
    }
    var (apdu, after) := Command(chip.cipher, scp.ch, header, data, le);
    CommandChannel(chip.cipher, scp.ch, header, data, le);
    WrappedAnswer(chip, now, scp.ch, header, data, le);
    var r := Execute(chip, now.body, SecuredHeader(header), data);
    ExecuteDataFits(chip, now.body, SecuredHeader(header), data);
    if r.sw == SW_OK {
      ReadResponse(chip.cipher, after, r.data, cap, behind);
    } else {
      ReadBareStatus(chip.cipher, after, r.data, r.sw, cap, behind);
    }
    WrappedWithout(chip, now, apdu);
    ReadRefusal(chip, after, cap, behind);
  }

  /** `SecureOutcome` for a command whose effect on the settled card is `r`: not executed and no
      success seen, or executed once and then seen as it was or not at all. */
  ghost predicate Ran(card: CardState, f: Fate, r: Result, cap: nat, s: Step) {
    && InStep(s.scp, s.card)
    && (!Reaches(card, f) ==> s.card.body == Settle(card, f).body && s.reply.sw != SW_OK)
    && (Reaches(card, f) ==>
          && s.card.body == r.body && s.card.chan == Some(s.scp.ch)
          && (s.reply.sw == SW_OK ==> f.answered && r.sw == SW_OK && s.reply.data == Cut(r.data, cap) && s.scp.open)
          && (f.answered && r.sw == SW_OK ==> s.reply.sw == SW_OK)
          && (f.answered && r.sw != SW_OK ==> s.scp.open == !RefusesMessaging(r.sw)))
  }

  /** The applet's own commands, sent straight through the channel. */
  function DirectResult(chip: Chip, b: Body, header: seq<byte>, items: seq<Item>): Result {
    if b.selected != IotApplet then Refuse(b, 0x6D00)
    else if header == CREATE_CURVE then CreateCurve(b, items)
    else if header == WRITE_USERID then WriteUserId(b, items)
    else if header == CREATE_SESSION then CreateSession(chip, b, items)
    else Refuse(b, 0x6D00)
  }

  lemma ExecuteDirect(chip: Chip, b: Body, header: seq<byte>, items: seq<Item>)
    requires header == CREATE_CURVE || header == WRITE_USERID || header == CREATE_SESSION
    requires Encodable(items)
    ensures Execute(chip, b, SecuredHeader(header), Encode(items)) == DirectResult(chip, b, header, items)
  {
    hide Encode, Parse, CreateCurve, WriteUserId, CreateSession;
    ParseEncode(items);
    var h := SecuredHeader(header);
    assert h[1] == header[1] && h[2] == header[2] && h[3] == header[3];
    assert SecuredHeader(PUT_KEY)[1] == 0xD8 && SecuredHeader(PROCESS_SESSION)[1] == 5;
    assert SecuredHeader(CREATE_CURVE)[1] == 1 && SecuredHeader(WRITE_USERID)[1] == 0x41;
  }

  lemma DirectOutcome(chip: Chip, scp: Scp03, card: CardState, f: Fate, header: seq<byte>, items: seq<Item>, le: bool, cap: nat, behind: Block)
    requires Lawful(chip.cipher) && scp.open && InStep(scp, card)
    requires header == CREATE_CURVE || header == WRITE_USERID || header == CREATE_SESSION
    requires Encodable(items) && Fits(Encode(items))
    ensures Ran(card, f, DirectResult(chip, Settle(card, f).body, header, items), cap,
                Secure(chip, scp, card, f, header, Encode(items), le, cap, behind))
  {
    hide Secure, Execute, Encode, DirectResult, Reset;
    assert header[..2] == [header[0], header[1]];
    SecureOutcome(chip, scp, card, f, header, Encode(items), le, cap, behind);
    ExecuteDirect(chip, Settle(card, f).body, header, items);
  }

  /** A command inside a session, as the card sees the session frame. */
  function SessionResult(chip: Chip, b: Body, sid: seq<byte>, header: seq<byte>, items: seq<Item>): Result {
    if b.selected != IotApplet then Refuse(b, 0x6D00)
    else if b.session.None? || b.session.value.id != sid then Refuse(b, chip.noSession)
    else if header == VERIFY_USERID then
      if items == [Item(TAG_1, AUTH_PIN)] then Result(b.(session := Some(Session(sid, true))), [], SW_OK)
      else Refuse(b, 0x6985)
    else if b.session.value.verified then InSession(chip, b, header, items)
    else Refuse(b, 0x6985)
  }

  lemma ExecuteFrame(chip: Chip, b: Body, sid: seq<byte>, header: seq<byte>, items: seq<Item>, answers: bool)
    requires |sid| == 8 && |header| == 4 && Encodable(items) && |Encode(items)| <= 0xFF00
    ensures Execute(chip, b, SecuredHeader(PROCESS_SESSION), Frame(sid, header, Encode(items), answers))
            == SessionResult(chip, b, sid, header, items)
  {
    hide Encode, Parse, InSession, ReadFrame, Frame;
    ParseEncode(items);
    ReadFrameOfFrame(sid, header, Encode(items), answers);
    assert SecuredHeader(PUT_KEY)[1] == 0xD8 && SecuredHeader(PROCESS_SESSION)[1] == 5;
  }

  lemma SessionOutcome(chip: Chip, scp: Scp03, card: CardState, f: Fate, sid: seq<byte>,
                       header: seq<byte>, items: seq<Item>, answers: bool, cap: nat, behind: Block)
    requires Lawful(chip.cipher) && scp.open && InStep(scp, card)
    requires |sid| == 8 && |header| == 4 && Encodable(items) && |Encode(items)| <= 0xFF00
    requires Fits(Frame(sid, header, Encode(items), answers))
    ensures Ran(card, f, SessionResult(chip, Settle(card, f).body, sid, header, items), cap,
                Secure(chip, scp, card, f, PROCESS_SESSION, Frame(sid, header, Encode(items), answers), answers, cap, behind))
  {
    hide Secure, Execute, Encode, SessionResult, Frame, Reset;
    assert PROCESS_SESSION[..2] == [0x80, 0x05];
    SecureOutcome(chip, scp, card, f, PROCESS_SESSION, Frame(sid, header, Encode(items), answers), answers, cap, behind);
    ExecuteFrame(chip, Settle(card, f).body, sid, header, items, answers);
  }

  lemma ResetClears(card: CardState)
    ensures Reset(card).chan == None
  {
  }

  lemma CommandChannel(c: Cipher, ch: Channel, header: seq<byte>, data: seq<byte>, le: bool)
    requires |header| == 4 && Fits(data)
    ensures Command(c, ch, header, data, le).1.counter < 0x1_0000_0000
  {
  }

  lemma WrappedWithout(chip: Chip, s: CardState, apdu: seq<byte>)
    ensures s.chan.None? ==> Wrapped(chip, s, apdu) == (s, StatusBytes(chip.noChannel))
  {
  }

  lemma ReadRefusal(chip: Chip, ch: Channel, cap: nat, behind: Block)
    requires ch.counter < 0x1_0000_0000
    ensures Read(chip.cipher, ch, StatusBytes(chip.noChannel), cap, behind).sw != SW_OK
  {
    assert StatusOf(StatusBytes(chip.noChannel)) == chip.noChannel;
  }

  // ------------------------------------------------------------------ opening a channel

  /** For this challenge pair no two of the key sets a board may use produce the same card cryptogram. */
  ghost predicate TellsApart(c: Cipher, candidates: set<KeySet>, context: Block) {
    forall a, b :: a in candidates && b in candidates
      && Cryptogram(c, SessionKeysOf(c, a, context), 0, context) == Cryptogram(c, SessionKeysOf(c, b, context), 0, context)
      ==> a == b
  }

  /** It tells them apart for this host challenge and every challenge this chip draws. */
  ghost predicate Apart(chip: Chip, candidates: set<KeySet>, challenge: seq<byte>)
    requires |challenge| == 8
  {
    forall m: nat :: TellsApart(chip.cipher, candidates, challenge + chip.draw(m)[..8])
  }

  datatype Opening = Opening(scp: Scp03, card: CardState, ok: bool, exchanges: nat)

  /** One `tryOpenChannel` with static key set `ks` and a host challenge. */
  function TryOpen(chip: Chip, ks: KeySet, card: CardState, f1: Fate, f2: Fate, challenge: seq<byte>): Opening
    requires |challenge| == 8
  {
    var (card1, r1) := Exchange(chip, card, f1, InitializeUpdate(challenge));
    if r1.None? || StatusOf(r1.value) != SW_OK || |r1.value| < 31 then Opening(NO_CHANNEL, card1, false, 1)
    else
      var context := challenge + r1.value[13..21];
      var keys := SessionKeysOf(chip.cipher, ks, context);
      if r1.value[21..29] != Cryptogram(chip.cipher, keys, 0, context) then
        Opening(Scp03(false, Channel(keys, ZEROS16, 0)), card1, false, 1)
      else
        var g := Cryptogram(chip.cipher, keys, 1, context);
        var mac := AuthenticationMac(chip.cipher, keys, g);
        var (card2, r2) := Exchange(chip, card1, f2, Authentication(g) + mac[..8]);
        var ok := r2.Some? && StatusOf(r2.value) == SW_OK;
        Opening(Scp03(ok, Channel(keys, mac, 0)), card2, ok, 2)
  }

  /** The card's answer to INITIALIZE UPDATE, taken apart the way the driver does. */
  lemma StartAnswer(chip: Chip, s: CardState, challenge: seq<byte>)
    requires |challenge| == 8
    ensures var a := Answer(chip, s, InitializeUpdate(challenge));
            var cc := chip.draw(s.body.drawn)[..8];
            var context := challenge + cc;
            a.0 == CardState(Some(context), None, s.body.(session := None, drawn := s.body.drawn + 1))
            && StatusOf(a.1) == SW_OK && |a.1| == 31 && a.1[13..21] == cc
            && a.1[21..29] == Cryptogram(chip.cipher, SessionKeysOf(chip.cipher, s.body.keys, context), 0, context)
  {
    hide Cryptogram, SessionKeysOf;
    var iu := InitializeUpdate(challenge);
    assert iu[0] == 0x80 && SELECT_IOT[0] == 0 && SELECT_SSD[0] == 0;
    assert iu[..5] == [0x80, 0x50, KEY_VERSION, 0x00, 0x08] && iu[5..13] == challenge;
  }

  lemma AuthenticateAnswer(chip: Chip, s: CardState, g: seq<byte>, m: seq<byte>)
    requires |g| == 8 && |m| == 8
    ensures Answer(chip, s, Authentication(g) + m) == Authenticate(chip, s, Authentication(g) + m)
  {
    hide Authenticate;
    var a := Authentication(g) + m;
    assert a[0] == 0x84 && SELECT_IOT[0] == 0 && SELECT_SSD[0] == 0 && |a| == 21;
    assert a[..5] == [0x84, 0x82, 0x33, 0x00, 0x10];
  }

  /** An opening never leaves an open host out of step. It succeeds only with the card's own key
      set, and does succeed with it when nothing is lost; it changes no object and no key. */
  lemma TryOpenOutcome(chip: Chip, ks: KeySet, candidates: set<KeySet>, card: CardState, f1: Fate, f2: Fate, challenge: seq<byte>)
    requires |challenge| == 8 && ks in candidates && card.body.keys in candidates
    requires TellsApart(chip.cipher, candidates, challenge + chip.draw(Settle(card, f1).body.drawn)[..8])
    ensures var o := TryOpen(chip, ks, card, f1, f2, challenge);
            InStep(o.scp, o.card) && o.ok == o.scp.open
            && SameObjects(card.body, o.card.body)
            && (o.ok ==> ks == card.body.keys)
            && (f1 == HEALTHY && f2 == HEALTHY ==>
                  o.ok == (ks == card.body.keys) && o.exchanges == (if o.ok then 2 else 1)
                  && o.card.body.selected == card.body.selected
                  && (o.ok ==> o.card.chan == Some(o.scp.ch)))
  {
    hide Cryptogram, SessionKeysOf, Answer, Authenticate, AuthenticationMac, InitializeUpdate, Authentication, ResetBody;
    var s1 := Settle(card, f1);
    StartAnswer(chip, s1, challenge);
    SettleKeeps(card, f1);
    if f1.arrives && f1.answered {
      var context := challenge + chip.draw(s1.body.drawn)[..8];
      var keys := SessionKeysOf(chip.cipher, ks, context);
      if Cryptogram(chip.cipher, keys, 0, context)
         == Cryptogram(chip.cipher, SessionKeysOf(chip.cipher, card.body.keys, context), 0, context) {
        assert ks == card.body.keys;
        var g := Cryptogram(chip.cipher, keys, 1, context);
        var mac := AuthenticationMac(chip.cipher, keys, g);
        var s2 := Settle(Answer(chip, s1, InitializeUpdate(challenge)).0, f2);
        SettleKeeps(Answer(chip, s1, InitializeUpdate(challenge)).0, f2);
        AuthenticateAnswer(chip, s2, g, mac[..8]);
        AuthenticateEither(chip, s2, context, g, mac[..8]);
      }
    }
  }

  /** EXTERNAL AUTHENTICATE with the right values opens the channel on a card still waiting for it,
      and is refused by one that was reset meanwhile. */
  lemma AuthenticateEither(chip: Chip, s: CardState, context: Block, g: seq<byte>, m: seq<byte>)
    requires |m| == 8
    requires s.pending == None || s.pending == Some(context)
    requires g == Cryptogram(chip.cipher, SessionKeysOf(chip.cipher, s.body.keys, context), 1, context)
    requires m == AuthenticationMac(chip.cipher, SessionKeysOf(chip.cipher, s.body.keys, context), g)[..8]
    ensures var a := Authenticate(chip, s, Authentication(g) + m);
            a.0.body == s.body
            && (s.pending.None? ==> StatusOf(a.1) != SW_OK)
            && (s.pending.Some? ==>
                  var keys := SessionKeysOf(chip.cipher, s.body.keys, context);
                  StatusOf(a.1) == SW_OK
                  && a.0.chan == Some(Channel(keys, AuthenticationMac(chip.cipher, keys, g), 0)))
  {
    hide Cryptogram, SessionKeysOf, AuthenticationMac;
    assert StatusOf(StatusBytes(chip.noChannel)) == chip.noChannel;
    assert StatusOf(StatusBytes(SW_OK)) == SW_OK;
  }

  /** What no link event, reset or channel opening touches: the static keys and the key objects. */
  predicate SameObjects(a: Body, b: Body) {
    a.keys == b.keys && a.pairs == b.pairs && a.peers.Keys == b.peers.Keys && a.curves == b.curves && a.userId == b.userId
  }

  lemma SelectKeeps(s: CardState, target: Target)
    ensures SameObjects(s.body, Select(s, target).body) && Select(s, target).body.selected == target
  {
  }

  lemma SettleKeeps(card: CardState, f: Fate)
    ensures SameObjects(card.body, Settle(card, f).body)
    ensures f.reset ==> Settle(card, f).pending == None && Settle(card, f).chan == None
  {
  }

  // ------------------------------------------------------------------ runs

  /** A wrapped command, or a fresh attempt at the channel. */
  datatype Event =
    | Send(f: Fate, header: seq<byte>, data: seq<byte>, le: bool, cap: nat, behind: Block)
    | Open(ks: KeySet, f1: Fate, f2: Fate, challenge: seq<byte>)
    | Bus(f: Fate, target: Target)

  /** What the driver may ask for: application headers, candidate keys, 8-octet challenges. The
      PUT KEY header is left to the rotation, which changes the card's keys. */
  predicate Allowed(e: Event, candidates: set<KeySet>) {
    match e
    case Send(_, header, _, _, _, _) => |header| == 4 && header[0] == 0x80 && header[1] != 0x82 && header != PUT_KEY
    case Open(ks, _, _, challenge) => ks in candidates && |challenge| == 8
    case Bus(_, _) => true
  }

  /** An opening's challenge tells the candidates apart. */
  ghost predicate Distinguished(chip: Chip, e: Event, candidates: set<KeySet>) {
    e.Open? ==> |e.challenge| == 8 && Apart(chip, candidates, e.challenge)
  }

  /** An interface reset or applet selection is only ever sent with the host channel closed. */
  function Perform(chip: Chip, scp: Scp03, card: CardState, e: Event): (Scp03, CardState)
    requires e.Send? ==> |e.header| == 4
    requires e.Open? ==> |e.challenge| == 8
  {
    match e
    case Send(f, header, data, le, cap, behind) =>
      var s := Secure(chip, scp, card, f, header, data, le, cap, behind);
      (s.scp, s.card)
    case Open(ks, f1, f2, challenge) =>
      var o := TryOpen(chip, ks, card, f1, f2, challenge);
      (o.scp, o.card)
    case Bus(f, target) =>
      (Scp03(false, scp.ch), Exchange(chip, card, f, if target == SecurityDomain then SELECT_SSD else SELECT_IOT).0)
  }

  function Run(chip: Chip, scp: Scp03, card: CardState, es: seq<Event>, candidates: set<KeySet>): (Scp03, CardState)
    requires forall i :: 0 <= i < |es| ==> Allowed(es[i], candidates)
    decreases |es|
  {
    if es == [] then (scp, card)
    else
      assert Allowed(es[0], candidates);
      var (scp', card') := Perform(chip, scp, card, es[0]);
      Run(chip, scp', card', es[1..], candidates)
  }

  lemma SendKeepsKeys(chip: Chip, b: Body, header: seq<byte>, data: seq<byte>)
    requires |header| == 4 && header[0] == 0x80 && header != PUT_KEY
    ensures Execute(chip, b, SecuredHeader(header), data).body.keys == b.keys
  {
    hide Parse, ReadFrame, KeyBlock, CheckValue;
    assert SecuredHeader(header)[1..] == header[1..] && SecuredHeader(PUT_KEY)[1..] == PUT_KEY[1..];
    assert header == [0x80] + header[1..] && PUT_KEY == [0x80] + PUT_KEY[1..];
  }

  lemma PerformKeepsStep(chip: Chip, scp: Scp03, card: CardState, e: Event, candidates: set<KeySet>)
    requires Lawful(chip.cipher) && card.body.keys in candidates
    requires Allowed(e, candidates) && Distinguished(chip, e, candidates) && InStep(scp, card)
    ensures var (scp', card') := Perform(chip, scp, card, e);
            InStep(scp', card') && card'.body.keys == card.body.keys
  {
    hide Secure, TryOpen, Execute, ResetBody;
    match e
    case Send(f, header, data, le, cap, behind) =>
      assert header[..2] == [header[0], header[1]];
      if scp.open && Fits(data) {
        SecureOutcome(chip, scp, card, f, header, data, le, cap, behind);
        SettleKeeps(card, f);
        SendKeepsKeys(chip, Settle(card, f).body, header, data);
      } else {
        SecureRefuses(chip, scp, card, f, header, data, le, cap, behind);
      }
    case Open(ks, f1, f2, challenge) =>
      TryOpenOutcome(chip, ks, candidates, card, f1, f2, challenge);
    case Bus(f, target) =>
      SettleKeeps(card, f);
      SelectKeeps(Settle(card, f), SecurityDomain);
      SelectKeeps(Settle(card, f), IotApplet);
  }

  /** Nothing leaves the host when the channel is closed or the data cannot be wrapped, and the
      second case closes the channel, because the counter has already advanced. */
  lemma SecureRefuses(chip: Chip, scp: Scp03, card: CardState, f: Fate, header: seq<byte>, data: seq<byte>, le: bool, cap: nat, behind: Block)
    requires |header| == 4 && (!scp.open || !Fits(data))
    ensures var s := Secure(chip, scp, card, f, header, data, le, cap, behind);
            !s.scp.open && s.card == card && s.reply == CLOSED
  {
  }

  /** In every run of commands, openings and selections, with any frames lost and resets anywhere,
      an open host is in step with its card at the end, and so after every prefix. */
  lemma {:induction false} RunKeepsStep(chip: Chip, scp: Scp03, card: CardState, es: seq<Event>, candidates: set<KeySet>)
    requires Lawful(chip.cipher) && card.body.keys in candidates
    requires InStep(scp, card)
    requires forall i :: 0 <= i < |es| ==> Allowed(es[i], candidates) && Distinguished(chip, es[i], candidates)
    ensures var (scp', card') := Run(chip, scp, card, es, candidates);
            InStep(scp', card') && card'.body.keys == card.body.keys
    decreases |es|
  {
    if es == [] {
    } else {
      var (scp', card') := Perform(chip, scp, card, es[0]);
      PerformKeepsStep(chip, scp, card, es[0], candidates);
      RunKeepsStep(chip, scp', card', es[1..], candidates);
    }
  }
}
