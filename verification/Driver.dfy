/** The driver: one object that talks to the chip through a wire whose faults are scheduled in
    advance. The schedule is arbitrary, so what a method ensures it ensures under every schedule. */
module Driver {
  import opened Bytes
  import opened BlockModes
  import opened Tlv
  import opened Wrappers
  import opened SecureMessaging
  import opened Card
  import opened ChannelProtocol
  import opened Rotation
  import opened Derivation

  /** The chip at the end of its bus, and how many frames have been exchanged so far. `behind` is what the
      host's answer buffer holds past the end of each answer, left from earlier ones. */
  class Wire {
    const chip: Chip
    const schedule: nat -> Fate
    const behind: nat -> Block
    var card: CardState
    var clock: nat
    var powerCycles: nat

    constructor (chip: Chip, schedule: nat -> Fate, behind: nat -> Block, card: CardState)
      ensures this.chip == chip && this.schedule == schedule && this.behind == behind && this.card == card
      ensures clock == 0 && powerCycles == 0
    {
      this.chip, this.schedule, this.behind, this.card, clock, powerCycles := chip, schedule, behind, card, 0, 0;
    }

    ghost predicate HealthyFrom(n: nat) {
      forall m: nat :: m >= n ==> schedule(m) == HEALTHY
    }

    /** Four exchanges in a row whose answers the host never sees. */
    ghost predicate SilentFrom(n: nat) {
      forall m: nat :: n <= m < n + 4 ==> !(schedule(m).arrives && schedule(m).answered)
    }

    /** One APDU and its answer; a longer one than the link's length octet allows never leaves. */
    method Transceive(apdu: seq<byte>) returns (r: Option<seq<byte>>)
      modifies this`card, this`clock
      ensures |apdu| <= 255 ==>
                (card, r) == Exchange(chip, old(card), schedule(old(clock)), apdu) && clock == old(clock) + 1
      ensures |apdu| > 255 ==> r == None && card == old(card) && clock == old(clock)
    {
      if |apdu| > 255 {
        return None;
      }
      var (after, answer) := Exchange(chip, card, schedule(clock), apdu);
      card, r, clock := after, answer, clock + 1;
    }

    method SendInterfaceReset() returns (answered: bool)
      modifies this`card, this`clock
      ensures (card, answered) == InterfaceReset(old(card), schedule(old(clock))) && clock == old(clock) + 1
    {
      var (after, seen) := InterfaceReset(card, schedule(clock));
      card, answered, clock := after, seen, clock + 1;
    }

    method PowerCycle()
      modifies this`card, this`powerCycles
      ensures card == Reset(old(card)) && powerCycles == old(powerCycles) + 1
    {
      card, powerCycles := Reset(card), powerCycles + 1;
    }
  }

  datatype KeySource = Otp | Bench | Factory

  /** The static key sets this board can try. */
  datatype Sources = Sources(otp: Option<KeySet>, bench: Option<KeySet>, factory: KeySet) {
    function Candidates(): set<KeySet> {
      {factory} + (if otp.Some? then {otp.value} else {}) + (if bench.Some? then {bench.value} else {})
    }

    function Of(src: KeySource): Option<KeySet> {
      match src
      case Otp => otp
      case Bench => bench
      case Factory => Some(factory)
    }
  }

  type Challenge = b: seq<byte> | |b| == 8 witness [0, 0, 0, 0, 0, 0, 0, 0]

  /** Every challenge this board draws tells the key sets it may use apart. */
  ghost predicate Distinct(chip: Chip, candidates: set<KeySet>, entropy: nat -> Option<Challenge>) {
    forall n: nat :: entropy(n).Some? ==> Apart(chip, candidates, entropy(n).value)
  }

  lemma DistinctAt(chip: Chip, candidates: set<KeySet>, entropy: nat -> Option<Challenge>, n: nat, m: nat)
    requires Distinct(chip, candidates, entropy) && entropy(n).Some?
    ensures TellsApart(chip.cipher, candidates, entropy(n).value + chip.draw(m)[..8])
  {
    assert Apart(chip, candidates, entropy(n).value);
  }

  method StripLoop(plain: seq<byte>) returns (r: seq<byte>)
    ensures r == Strip(plain)
  {
    var len := |plain|;
    assert plain[..len] == plain;
    while len > 0 && plain[len - 1] == 0
      invariant len <= |plain|
      invariant StripZeros(plain[..len]) == StripZeros(plain)
    {
      assert plain[..len][..len - 1] == plain[..len - 1];
      len := len - 1;
    }
    if len > 0 && plain[len - 1] == 0x80 {
      assert plain[..len][..len - 1] == plain[..len - 1];
      len := len - 1;
    }
    r := plain[..len];
  }

  class SE050 {
    const wire: Wire
    const sources: Sources
    const entropy: nat -> Option<Challenge>
    const hasPowerCycle: bool

    var scp: Scp03
    var sessionId: Challenge
    var sessionActive: bool
    var peerObjReady: bool
    var ecdhViaObject: bool
    var keySource: KeySource
    var usingRotatedKeys: bool
    var cur: KeySet
    /** The key set of the channel the chip last let this driver open. */
    ghost var openedWith: Option<KeySet>
    /** How many PUT KEYs it has issued. */
    ghost var rotations: nat

    /** The crypto laws, a card whose keys are among those this board tries, and the two ends of
        the channel in step. */
    ghost predicate Sound()
      reads this, wire
    {
      && Lawful(wire.chip.cipher)
      && Distinct(wire.chip, sources.Candidates(), entropy)
      && wire.card.body.keys in sources.Candidates()
      && InStep(scp, wire.card)
    }

    /** Between calls the driver also never takes the chip for rotated when it is not, and only
        remembers the peer object as present when its id is taken. */
    ghost predicate Valid()
      reads this, wire
    {
      && Sound()
      && (keySource == Otp ==> sources.otp == Some(wire.card.body.keys))
      && PeerKnown()
    }

    ghost predicate PeerKnown()
      reads this, wire
    {
      peerObjReady ==> PEER_ID in wire.card.body.peers || PEER_ID in wire.card.body.pairs
    }

    constructor (wire: Wire, sources: Sources, entropy: nat -> Option<Challenge>, hasPowerCycle: bool, viaObject: bool)
      requires Lawful(wire.chip.cipher) && Distinct(wire.chip, sources.Candidates(), entropy)
      requires wire.card.body.keys in sources.Candidates()
      ensures Valid() && this.wire == wire && this.sources == sources
    {
      this.wire, this.sources, this.entropy, this.hasPowerCycle := wire, sources, entropy, hasPowerCycle;
      scp := NO_CHANNEL;
      sessionId := [0, 0, 0, 0, 0, 0, 0, 0];
      sessionActive, peerObjReady, ecdhViaObject := false, false, viaObject;
      keySource, usingRotatedKeys := Factory, false;
      cur, openedWith, rotations := KeySet(ZEROS16, ZEROS16, ZEROS16), None, 0;
    }

    // ---------------------------------------------------------------- secure messaging

    /** Encrypts, builds and MACs one command, advancing counter and chaining value. */
    method WrapCommand(header: seq<byte>, data: seq<byte>, le: bool) returns (apdu: seq<byte>)
      requires |header| == 4 && Fits(data)
      modifies this`scp
      ensures var (a, after) := Command(wire.chip.cipher, old(scp.ch), header, data, le);
              apdu == a && scp == Scp03(old(scp.open), after)
    {
      hide Cmac, CbcEncrypt, Pad, CounterBlock;
      var c, keys := wire.chip.cipher, scp.ch.keys;
      var now := scp.ch.(counter := NextCounter(scp.ch.counter));
      var enc := [];
      if |data| > 0 {
        var icv := c.enc(keys.senc, CounterBlock(false, now.counter));
        enc := ComputeCbc(c, keys.senc, icv, Pad(data), true);
      }
      assert enc == CommandData(c, keys, now.counter, data);
      var m := [SecuredCla(header[0])] + header[1..] + [|enc| + 8] + enc;
      assert m == MacInput(c, now, header, data);
      var full := ComputeCmac(c, keys.smac, now.mcv + m);
      scp := Scp03(scp.open, now.(mcv := full));
      apdu := m + full[..8] + (if le then [0] else []);
    }

    /** Verifies and decrypts one response under the current channel. */
    method ReadReply(raw: seq<byte>, cap: nat, behind: Block) returns (ret: int, resp: seq<byte>, sw: StatusWord)
      requires scp.open && scp.ch.counter < 0x1_0000_0000
      modifies this`scp, this`sessionActive
      ensures scp.ch == old(scp.ch)
      ensures Reply(ret, resp, sw, scp.open) == Read(wire.chip.cipher, old(scp.ch), raw, cap, behind)
      ensures sessionActive == (old(sessionActive) && scp.open)
    {
      hide Cmac, CbcDecrypt, CounterBlock, Strip, Window;
      var c, ch, n := wire.chip.cipher, scp.ch, |raw|;
      sw, resp := StatusOf(raw), [];
      if n < 10 {
        if n < 2 || sw == 0x6982 || sw == 0x6987 || sw == 0x6988 {
          scp, sessionActive := scp.(open := false), false;
        }
        return if n >= 2 then 0 else -1, resp, sw;
      }
      var encLen := n - 10;
      if 16 + encLen + 2 > 274 {
        scp, sessionActive := scp.(open := false), false;
        return -1, resp, sw;
      }
      var full := ComputeCmac(c, ch.keys.srmac, ch.mcv + raw[..encLen] + raw[n - 2..]);
      if full[..8] != raw[encLen..encLen + 8] {
        scp, sessionActive := scp.(open := false), false;
        return -1, resp, sw;
      }
      if encLen == 0 {
        return 0, resp, sw;
      }
      var icv := c.enc(ch.keys.senc, CounterBlock(true, ch.counter));
      var plain := ComputeCbc(c, ch.keys.senc, icv, Window(raw, encLen, behind), false);
      var data := StripLoop(plain[..encLen]);
      var len := if |data| > cap then cap else |data|;
      return len, data[..len], sw;
    }

    /** One APDU inside the secure channel. */
    method SecureApdu(header: seq<byte>, data: seq<byte>, le: bool, cap: nat)
      returns (ret: int, resp: seq<byte>, sw: StatusWord)
      requires |header| == 4
      modifies this`scp, this`sessionActive, wire`card, wire`clock
      ensures Step(scp, wire.card, Reply(ret, resp, sw, scp.open))
              == Secure(wire.chip, old(scp), old(wire.card), wire.schedule(old(wire.clock)), header, data, le, cap,
                        wire.behind(old(wire.clock)))
      ensures wire.clock == old(wire.clock) + if old(scp.open) && Fits(data) then 1 else 0
      ensures sessionActive == (old(sessionActive) && (old(scp.open) ==> scp.open))
    {
      hide Read, Exchange, Command, PadLength;
      if !scp.open {
        return -1, [], SW_NONE;
      }
      if |data| > 0 && (|data| + 16 > 256 || PadLength(|data|) + 8 > 255) {
        scp := Scp03(false, scp.ch.(counter := NextCounter(scp.ch.counter)));
        sessionActive := false;
        return -1, [], SW_NONE;
      }
      CommandLength(wire.chip.cipher, scp.ch, header, data, le);
      CommandChannel(wire.chip.cipher, scp.ch, header, data, le);
      var apdu := WrapCommand(header, data, le);
      var behind := wire.behind(wire.clock);
      var r := wire.Transceive(apdu);
      if r.None? {
        scp, sessionActive := scp.(open := false), false;
        return -1, [], SW_NONE;
      }
      ret, resp, sw := ReadReply(r.value, cap, behind);
    }

    /** One command nested in the UserID session, if its frame fits the session buffer. */
    method SessionApdu(header: seq<byte>, data: seq<byte>, answers: bool, cap: nat, ghost items: seq<Item>)
      returns (ret: int, resp: seq<byte>, sw: StatusWord)
      requires Valid() && |header| == 4
      requires Encodable(items) && data == Encode(items) && |data| <= 0xFF00
      modifies this`scp, this`sessionActive, wire`card, wire`clock
      ensures Valid()
      ensures sessionActive == (old(sessionActive) && (old(scp.open) ==> scp.open))
      ensures !old(scp.open) || !FrameFits(sessionId, header, data, answers) ==>
                sw == SW_NONE && wire.card == old(wire.card) && wire.clock == old(wire.clock)
      ensures old(scp.open) && FrameFits(sessionId, header, data, answers) ==>
                && wire.clock == old(wire.clock) + 1
                && var f := wire.schedule(old(wire.clock));
                   Ran(old(wire.card), f,
                       SessionResult(wire.chip, Settle(old(wire.card), f).body, sessionId, header, items), cap,
                       Step(scp, wire.card, Reply(ret, resp, sw, scp.open)))
    {
      hide Secure, SessionResult, Encode, Settle, Frame;
      var fits, od := BuildFrame(header, data, answers);
      if !fits {
        return -1, [], SW_NONE;
      }
      ghost var scp0, card0 := scp, wire.card;
      if scp.open && Fits(od) {
        ghost var f := wire.schedule(wire.clock);
        SessionOutcome(wire.chip, scp, wire.card, f, sessionId, header, items, answers, cap, wire.behind(wire.clock));
        SessionKeepsKeys(wire.chip, Settle(wire.card, f).body, sessionId, header, items);
        SettleKeeps(wire.card, f);
      } else {
        SecureRefuses(wire.chip, scp, wire.card, wire.schedule(wire.clock), PROCESS_SESSION, od, answers, cap,
                      wire.behind(wire.clock));
      }
      ret, resp, sw := SecureApdu([0x80, 0x05, 0x00, 0x00], od, answers, cap);
    }

    /** The session frame, unless it would overrun its buffer, which no frame does that could be
        wrapped. */
    method BuildFrame(header: seq<byte>, data: seq<byte>, answers: bool) returns (fits: bool, od: seq<byte>)
      requires |header| == 4 && |data| <= 0xFF00
      ensures fits ==> od == Frame(sessionId, header, data, answers) && |od| <= 288
      ensures !fits ==> !FrameFits(sessionId, header, data, answers)
    {
      hide Inner;
      InnerLength(header, data, answers);
      od := [0x10, 0x08] + sessionId + [0x41];
      var innerLc := if |data| == 0 then 0 else if |data| < 0xFF && !answers then 1 else 3;
      var tagLen := 4 + innerLc + |data|;
      if 14 + tagLen > 288 {
        return false, od;
      }
      od := od + (if tagLen <= 0x7F then [tagLen] else if tagLen <= 0xFF then [0x81, tagLen]
                  else [0x82, tagLen / 256, tagLen % 256]);
      od := AppendInner(od, header, data, answers);
      fits := true;
    }

    method AppendInner(before: seq<byte>, header: seq<byte>, data: seq<byte>, answers: bool) returns (od: seq<byte>)
      requires |header| == 4 && |data| <= 0xFF00
      ensures od == before + Inner(header, data, answers)
    {
      od := before + header;
      if |data| > 0 {
        od := od + if |data| < 0xFF && !answers then [|data|] else [0x00, |data| / 256, |data| % 256];
        od := od + data;
      }
    }

    // ---------------------------------------------------------------- opening the channel

    /** The static key set the driver currently works with. */
    function KeysInUse(): KeySet
      reads this
    {
      if usingRotatedKeys then cur else sources.factory
    }

    /** From here on nothing is lost, the chip stays up and the random source answers. */
    ghost predicate HealthyAfter(n: nat) {
      wire.HealthyFrom(n) && forall m: nat :: m >= n ==> entropy(m).Some?
    }

    ghost predicate Healthy()
      reads wire
    {
      HealthyAfter(wire.clock)
    }

    /** The interface reset, up to four times. */
    method InterfaceResetWithRetries() returns (ok: bool)
      requires Sound() && !scp.open
      modifies wire`card, wire`clock
      ensures Sound() && Preserved(old(wire.card.body), wire.card.body)
      ensures old(wire.clock) < wire.clock <= old(wire.clock) + 4 && (ok <==> !wire.SilentFrom(old(wire.clock)))
      ensures ok ==> wire.schedule(wire.clock - 1).arrives && wire.schedule(wire.clock - 1).answered
                     && forall m: nat :: old(wire.clock) <= m < wire.clock - 1 ==> !(wire.schedule(m).arrives && wire.schedule(m).answered)
      ensures !ok ==> wire.clock == old(wire.clock) + 4
      ensures old(Healthy()) ==> ok && Healthy()
    {
      hide Distinct, ResetBody;
      for attempt := 0 to 4
        invariant Sound() && Preserved(old(wire.card.body), wire.card.body) && wire.clock == old(wire.clock) + attempt
        invariant forall m: nat :: old(wire.clock) <= m < wire.clock ==> !(wire.schedule(m).arrives && wire.schedule(m).answered)
        invariant old(Healthy()) ==> attempt == 0
      {
        ResetPreserves(wire.card.body);
        ok := wire.SendInterfaceReset();
        if ok {
          return;
        }
      }
      return false;
    }

    /** Interface reset and applet selection. */
    method Open() returns (ok: bool)
      requires Sound() && !scp.open
      modifies wire`card, wire`clock
      ensures Sound() && Preserved(old(wire.card.body), wire.card.body)
      ensures wire.clock > old(wire.clock)
      ensures wire.SilentFrom(old(wire.clock)) ==> !ok && wire.clock == old(wire.clock) + 4
      ensures old(Healthy()) ==> ok && Healthy() && wire.card.body.selected == IotApplet
    {
      hide Distinct, ResetBody;
      ok := InterfaceResetWithRetries();
      if !ok {
        return false;
      }
      SettleKeeps(wire.card, wire.schedule(wire.clock));
      SelectKeeps(Settle(wire.card, wire.schedule(wire.clock)), IotApplet);
      assert StatusOf([7, 2, 0] + StatusBytes(SW_OK)) == SW_OK;
      var r := wire.Transceive(SELECT_IOT);
      ok := r.Some? && StatusOf(r.value) == SW_OK;
    }

    /** The host's cryptogram under the first C-MAC of the channel. */
    method ExternalAuthenticate(keys: SessionKeys, context: Block) returns (ok: bool, mac: Block)
      modifies wire`card, wire`clock
      ensures var g := Cryptogram(wire.chip.cipher, keys, 1, context);
              var (after, r) := Exchange(wire.chip, old(wire.card), wire.schedule(old(wire.clock)), Authentication(g) + mac[..8]);
              && mac == AuthenticationMac(wire.chip.cipher, keys, g)
              && wire.card == after && wire.clock == old(wire.clock) + 1 && ok == (r.Some? && StatusOf(r.value) == SW_OK)
    {
      hide Exchange, Cryptogram, Cmac;
      var g := DeriveCryptogram(wire.chip.cipher, keys, 0x01, context);
      var ea := [0x84, 0x82, 0x33, 0x00, 0x10] + g;
      mac := ComputeCmac(wire.chip.cipher, keys.smac, ZEROS16 + ea);
      var r := wire.Transceive(ea + mac[..8]);
      ok := r.Some? && StatusOf(r.value) == SW_OK;
    }

    /** One attempt with the key set in use. */
    method TryOpenChannel() returns (ok: bool)
      requires Sound() && KeysInUse() in sources.Candidates()
      modifies this`scp, this`sessionActive, this`openedWith, wire`card, wire`clock
      ensures Sound() && Preserved(old(wire.card.body), wire.card.body)
      ensures !sessionActive && ok == scp.open && wire.clock >= old(wire.clock)
      ensures ok ==> KeysInUse() == wire.card.body.keys
      ensures openedWith == if ok then Some(wire.card.body.keys) else old(openedWith)
      ensures old(Healthy()) ==>
                && Healthy() && wire.card.body.selected == old(wire.card.body.selected)
                && ok == (KeysInUse() == old(wire.card.body.keys)) && wire.clock == old(wire.clock) + (if ok then 2 else 1)
                && (ok ==> wire.card.chan == Some(scp.ch))
    {
      hide Distinct, Exchange, SessionKeysOf, Cryptogram, Settle, StatusOf, Cmac;
      scp, sessionActive := NO_CHANNEL, false;
      ghost var card0, t := wire.card, wire.clock;
      var challenge := entropy(wire.clock);
      if challenge.None? {
        return false;
      }
      ghost var f1, f2 := wire.schedule(t), wire.schedule(t + 1);
      DistinctAt(wire.chip, sources.Candidates(), entropy, wire.clock, Settle(card0, f1).body.drawn);
      TryOpenOutcome(wire.chip, KeysInUse(), sources.Candidates(), card0, f1, f2, challenge.value);
      ghost var o := TryOpen(wire.chip, KeysInUse(), card0, f1, f2, challenge.value);

      var r := wire.Transceive([0x80, 0x50, 0x0B, 0x00, 0x08] + challenge.value + [0x00]);
      if r.None? || StatusOf(r.value) != SW_OK || |r.value| < 31 {
        assert o.card == wire.card && !o.ok && wire.clock == t + o.exchanges;
        return false;
      }
      var context := challenge.value + r.value[13..21];
      var keys := DeriveSessionKeys(wire.chip.cipher, KeysInUse(), context);
      scp := Scp03(false, Channel(keys, ZEROS16, 0));
      var expected := DeriveCryptogram(wire.chip.cipher, keys, 0x00, context);
      if expected != r.value[21..29] {
        assert o.card == wire.card && !o.ok && wire.clock == t + o.exchanges;
        return false;
      }
      var mac: Block;
      ok, mac := ExternalAuthenticate(keys, context);
      scp := Scp03(ok, Channel(keys, mac, 0));
      assert o.card == wire.card && o.ok == ok && o.scp == scp && wire.clock == t + o.exchanges;
      if ok {
        openedWith := Some(KeysInUse());
      }
    }

    /** How many key sets this board tries in vain before the chip's own: OTP first, then bench, then factory. */
    function Misses(keys: KeySet): nat {
      if sources.otp == Some(keys) then 0
      else if sources.bench == Some(keys) then (if sources.otp.Some? then 1 else 0)
      else (if sources.otp.Some? then 1 else 0) + (if sources.bench.Some? then 1 else 0)
    }

    /** The key sets in turn, most likely first; a channel it opens is under the chip's own keys. */
    method OpenSecureChannel() returns (ok: bool)
      requires Sound() && PeerKnown()
      modifies this`scp, this`sessionActive, this`cur, this`usingRotatedKeys, this`keySource, this`openedWith, wire`card, wire`clock
      ensures Valid() && Preserved(old(wire.card.body), wire.card.body)
      ensures !sessionActive && ok == scp.open && wire.clock >= old(wire.clock)
      ensures openedWith == if ok then Some(wire.card.body.keys) else old(openedWith)
      ensures ok ==> KeysInUse() == wire.card.body.keys && sources.Of(keySource) == Some(KeysInUse())
      ensures old(Healthy()) ==>
                ok && Healthy() && wire.card.chan == Some(scp.ch)
                && wire.card.body.selected == old(wire.card.body.selected)
                && wire.clock == old(wire.clock) + 2 + Misses(wire.card.body.keys)
                && (sources.otp == Some(wire.card.body.keys) ==> keySource == Otp)
    {
      hide Distinct;
      var order := [Otp, Bench, Factory];
      for i := 0 to 3
        invariant Sound() && Preserved(old(wire.card.body), wire.card.body) && wire.clock >= old(wire.clock)
        invariant i == 3 ==> !sessionActive && !scp.open
        invariant openedWith == old(openedWith)
        invariant old(Healthy()) ==>
                    Healthy() && wire.card.body.selected == old(wire.card.body.selected)
                    && wire.clock == old(wire.clock) + (if i >= 1 && sources.otp.Some? then 1 else 0)
                                     + (if i >= 2 && sources.bench.Some? then 1 else 0) + (if i >= 3 then 1 else 0)
                    && forall j :: 0 <= j < i ==> sources.Of(order[j]) != Some(wire.card.body.keys)
      {
        var src := order[i];
        if src == Factory {
          usingRotatedKeys := false;
        } else {
          var ks := sources.Of(src);
          if ks.None? {
            continue;
          }
          cur := ks.value;
          usingRotatedKeys := true;
        }
        keySource := src;
        ok := TryOpenChannel();
        if ok {
          return;
        }
      }
      keySource, usingRotatedKeys := Factory, false;
      ok := false;
      assert order[0] == Otp && order[1] == Bench && order[2] == Factory;
    }

    // ---------------------------------------------------------------- the UserID session

    /** The host's channel is the card's, with the applet selected. */
    ghost predicate OnCard()
      reads this, wire
    {
      scp.open && wire.card.chan == Some(scp.ch) && wire.card.body.selected == IotApplet
    }

    /** The host's session is the card's, and verified. */
    ghost predicate Live()
      reads this, wire
    {
      OnCard() && sessionActive && wire.card.body.session == Some(Session(sessionId, true))
    }

    /** One applet command through the channel, as a list of objects. */
    method AppletApdu(header: seq<byte>, data: seq<byte>, le: bool, cap: nat, ghost items: seq<Item>)
      returns (ret: int, resp: seq<byte>, sw: StatusWord)
      requires Valid() && (header == CREATE_CURVE || header == WRITE_USERID || header == CREATE_SESSION)
      requires Encodable(items) && data == Encode(items) && Fits(data)
      modifies this`scp, this`sessionActive, wire`card, wire`clock
      ensures Valid() && Preserved(old(wire.card.body), wire.card.body)
      ensures sessionActive == (old(sessionActive) && (old(scp.open) ==> scp.open))
      ensures !old(scp.open) ==> sw == SW_NONE && wire.card == old(wire.card) && wire.clock == old(wire.clock)
      ensures old(scp.open) ==>
                && wire.clock == old(wire.clock) + 1
                && var f := wire.schedule(old(wire.clock));
                   Ran(old(wire.card), f, DirectResult(wire.chip, Settle(old(wire.card), f).body, header, items), cap,
                       Step(scp, wire.card, Reply(ret, resp, sw, scp.open)))
    {
      hide Secure, DirectResult, Encode, Settle, Distinct;
      ghost var f := wire.schedule(wire.clock);
      ghost var now := Settle(wire.card, f);
      if scp.open {
        DirectOutcome(wire.chip, scp, wire.card, f, header, items, le, cap, wire.behind(wire.clock));
        DirectPreserves(wire.chip, now.body, header, items);
        SettlePreserves(wire.card, f);
      } else {
        SecureRefuses(wire.chip, scp, wire.card, f, header, data, le, cap, wire.behind(wire.clock));
      }
      ret, resp, sw := SecureApdu(header, data, le, cap);
    }

    /** A curve the applet does not ship; 6985 just means it exists. */
    method EnsureCurve(curve: byte)
      requires Valid()
      modifies this`scp, this`sessionActive, wire`card, wire`clock
      ensures Valid() && Preserved(old(wire.card.body), wire.card.body) && wire.clock >= old(wire.clock)
      ensures sessionActive == (old(sessionActive) && (old(scp.open) ==> scp.open))
      ensures old(Healthy() && OnCard()) ==> Healthy() && OnCard() && curve in wire.card.body.curves
    {
      hide Distinct, Preserved;
      ghost var items := [Item(TAG_1, [curve])];
      var d := [0x41, 0x01, curve];
      assert Encode(items) == d by { EncodeOne(items[0]); }
      var _, _, sw := AppletApdu([0x80, 0x01, 0x0B, 0x04], d, false, 192, items);
    }

    /** The UserID authenticator, idempotent too. */
    method EnsureUserId()
      requires Valid()
      modifies this`scp, this`sessionActive, wire`card, wire`clock
      ensures Valid() && Preserved(old(wire.card.body), wire.card.body) && wire.clock >= old(wire.clock)
      ensures sessionActive == (old(sessionActive) && (old(scp.open) ==> scp.open))
      ensures old(Healthy() && OnCard()) ==> Healthy() && OnCard() && wire.card.body.userId
    {
      hide Distinct, Preserved;
      ghost var items := [Item(TAG_1, AUTH_OBJ), Item(TAG_2, AUTH_PIN)];
      var d := [0x41, 0x04, 0x20, 0x00, 0x0A, 0xAA, 0x42, 0x08, 1, 2, 3, 4, 5, 6, 7, 8];
      UserIdOctets();
      hide Encode;
      var _, _, sw := AppletApdu([0x80, 0x41, 0x07, 0x00], d, false, 192, items);
    }

    /** Asks for a session and keeps the id the chip gives it. */
    method CreateUserSession() returns (ok: bool)
      requires Valid()
      modifies this`scp, this`sessionActive, this`sessionId, wire`card, wire`clock
      ensures Valid() && Preserved(old(wire.card.body), wire.card.body) && wire.clock >= old(wire.clock)
      ensures sessionActive == (old(sessionActive) && (old(scp.open) ==> scp.open))
      ensures old(Healthy() && OnCard() && wire.card.body.userId) ==>
                ok && Healthy() && OnCard() && wire.card.body.session == Some(Session(sessionId, false))
                && wire.card.body.curves == old(wire.card.body.curves)
    {
      hide Distinct, Preserved, Value41, EncodeItem;
      ghost var items := [Item(TAG_1, AUTH_OBJ)];
      var d := [0x41, 0x04, 0x20, 0x00, 0x0A, 0xAA];
      assert Encode(items) == d by { EncodeOne(items[0]); }
      ghost var b0 := wire.card.body;
      ItemIsShort(wire.chip.draw(b0.drawn)[..8]);
      Value41OfItem(wire.chip.draw(b0.drawn)[..8]);
      var _, r, sw := AppletApdu([0x80, 0x04, 0x00, 0x1B], d, true, 192, items);
      if sw != SW_OK {
        return false;
      }
      var v := Value41(r);
      if v.None? || |v.value| != 8 {
        return false;
      }
      sessionId := v.value;
      ok := true;
    }

    /** Authenticates the session just created. */
    method VerifyUserSession() returns (ok: bool)
      requires Valid()
      modifies this`scp, this`sessionActive, wire`card, wire`clock
      ensures Valid() && Preserved(old(wire.card.body), wire.card.body) && wire.clock >= old(wire.clock)
      ensures sessionActive == (old(sessionActive) && (old(scp.open) ==> scp.open))
      ensures old(Healthy() && OnCard() && wire.card.body.session == Some(Session(sessionId, false))) ==>
                ok && Healthy() && OnCard() && wire.card.body.session == Some(Session(sessionId, true))
                && wire.card.body.curves == old(wire.card.body.curves)
    {
      hide Distinct, Frame;
      ghost var items := [Item(TAG_1, AUTH_PIN)];
      var d := [0x41, 0x08, 1, 2, 3, 4, 5, 6, 7, 8];
      assert Encode(items) == d by { EncodeOne(items[0]); }
      FrameFitsIff(sessionId, VERIFY_USERID, d, false);
      ghost var f := wire.schedule(wire.clock);
      SettlePreserves(wire.card, f);
      VerifyPreserves(wire.chip, Settle(wire.card, f).body, sessionId, items);
      var _, _, sw := SessionApdu([0x80, 0x04, 0x00, 0x2C], d, false, 192, items);
      ok := sw == SW_OK;
    }

    /** Curves, authenticator and a verified session, on a channel that is already open. */
    method IdentitySession() returns (ok: bool)
      requires Valid()
      modifies this`scp, this`sessionActive, this`sessionId, wire`card, wire`clock
      ensures Valid() && Preserved(old(wire.card.body), wire.card.body) && wire.clock >= old(wire.clock)
      ensures ok ==> sessionActive
      ensures old(scp.open && sessionActive) ==>
                ok && scp == old(scp) && sessionId == old(sessionId) && wire.card == old(wire.card) && wire.clock == old(wire.clock)
      ensures old(Healthy() && OnCard() && !sessionActive) ==>
                ok && Healthy() && Live() && {CURVE_X25519, CURVE_ED25519} <= wire.card.body.curves
    {
      hide Distinct, SessionResult;
      if !scp.open {
        return false;
      }
      if sessionActive {
        return true;
      }
      EnsureCurve(0x41);
      EnsureCurve(0x40);
      EnsureUserId();
      ok := CreateUserSession();
      if !ok {
        return;
      }
      ok := VerifyUserSession();
      if ok {
        sessionActive := true;
      }
    }

    // ---------------------------------------------------------------- recovery

    /** Rebuilds applet selection, channel and session, power-cycling a chip that does not answer. */
    method Recover() returns (ok: bool)
      requires Valid()
      modifies this`scp, this`sessionActive, this`sessionId, this`cur, this`usingRotatedKeys, this`keySource, this`openedWith, wire
      ensures Valid() && Preserved(old(wire.card.body), wire.card.body) && wire.clock >= old(wire.clock)
      ensures ok ==> sessionActive
      ensures openedWith == old(openedWith) || openedWith == Some(wire.card.body.keys)
      ensures old(Healthy()) ==> ok && Healthy() && Live() && {CURVE_X25519, CURVE_ED25519} <= wire.card.body.curves
      ensures old(Healthy()) || !hasPowerCycle ==> wire.powerCycles == old(wire.powerCycles)
      ensures wire.SilentFrom(old(wire.clock)) ==> if hasPowerCycle then wire.powerCycles == old(wire.powerCycles) + 1 else !ok
      ensures wire.SilentFrom(old(wire.clock)) && hasPowerCycle && HealthyAfter(old(wire.clock) + 4) ==> ok && Healthy() && Live()
    {
      hide Distinct, ResetBody;
      scp, sessionActive := scp.(open := false), false;
      var up := Open();
      if !up && hasPowerCycle {
        ResetPreserves(wire.card.body);
        wire.PowerCycle();
        up := Open();
      }
      if !up {
        return false;
      }
      up := OpenSecureChannel();
      if !up {
        return false;
      }
      ok := IdentitySession();
    }

    /** A session for an operation: the one already open, a first one, or a rebuilt one. */
    method EnsureSession() returns (ok: bool)
      requires Valid()
      modifies this`scp, this`sessionActive, this`sessionId, this`cur, this`usingRotatedKeys, this`keySource, this`openedWith, wire
      ensures Valid() && Preserved(old(wire.card.body), wire.card.body) && wire.clock >= old(wire.clock)
      ensures openedWith == old(openedWith) || openedWith == Some(wire.card.body.keys)
      ensures old(sessionActive || scp.open) ==> openedWith == old(openedWith) && wire.powerCycles == old(wire.powerCycles)
      ensures old(sessionActive) ==>
                ok && sessionActive && scp == old(scp) && sessionId == old(sessionId)
                && wire.card == old(wire.card) && wire.clock == old(wire.clock)
      ensures old(Healthy() && !sessionActive && (scp.open ==> OnCard())) ==>
                ok && Healthy() && Live() && {CURVE_X25519, CURVE_ED25519} <= wire.card.body.curves
    {
      hide Distinct;
      if sessionActive {
        return true;
      }
      if scp.open {
        ok := IdentitySession();
      } else {
        ok := Recover();
      }
    }

    /** Gives the channel up, so that the next lap rebuilds everything. */
    method Abandon()
      modifies this`scp, this`sessionActive
      ensures scp == old(scp).(open := false) && !sessionActive
    {
      scp, sessionActive := scp.(open := false), false;
    }

    // ---------------------------------------------------------------- objects and agreements

    /** From here on at most the exchange at time `t` goes wrong, and the session is live unless
        that exchange is the very next one. */
    ghost predicate Disturbed(t: nat)
      reads this, wire
    {
      && scp.open && sessionActive && (Live() || t == wire.clock)
      && (forall m: nat :: m >= wire.clock && m != t ==> wire.schedule(m) == HEALTHY)
      && (forall m: nat :: m >= wire.clock ==> entropy(m).Some?)
    }

    /** Nothing more goes wrong, and a host with an open channel believes in its session. */
    ghost predicate Settled()
      reads this, wire
    {
      Healthy() && (scp.open ==> sessionActive)
    }

    /** Does the chip hold this object: 1 yes, 0 no, -1 no usable answer. An answer comes from the
        live session and is the truth at that moment. */
    method ObjectExists(objId: ObjectId, ghost t: nat) returns (e: int)
      requires Valid()
      modifies this`scp, this`sessionActive, wire`card, wire`clock
      ensures Valid() && Preserved(old(wire.card.body), wire.card.body)
      ensures sessionActive == (old(sessionActive) && (old(scp.open) ==> scp.open))
      ensures wire.clock == old(wire.clock) + if old(scp.open) then 1 else 0
      ensures -1 <= e <= 1
      ensures e >= 0 ==>
                && OnCard() && wire.card.body.session == Some(Session(sessionId, true))
                && (e == 1 <==> Be32(objId) in wire.card.body.pairs || Be32(objId) in wire.card.body.peers)
      ensures old(Live()) && wire.schedule(old(wire.clock)) == HEALTHY ==> e >= 0
      ensures old(Disturbed(t)) ==> if e >= 0 then Disturbed(t) else Healthy()
      ensures e >= 0 ==> wire.card.body == old(wire.card.body)
      ensures !old(scp.open) ==> e == -1 && wire.card == old(wire.card)
    {
      hide Distinct, Frame, Value41, EncodeItem, SessionResult, InSession, Preserved;
      var keyId := Be32(objId);
      ghost var items := [Item(TAG_1, keyId)];
      var d := [0x41, 0x04] + keyId;
      assert Encode(items) == d by { EncodeOne(items[0]); }
      FrameFitsIff(sessionId, CHECK_EXISTS, d, true);
      ghost var c0, s0, f := wire.card, scp, wire.schedule(wire.clock);
      SettlePreserves(c0, f);
      ReadOnly(wire.chip, Settle(c0, f).body, sessionId, CHECK_EXISTS, items);
      ExistsAnswer(wire.chip, Settle(c0, f).body, keyId);
      var rl, r, sw := SessionApdu([0x80, 0x04, 0x00, 0x27], d, true, 32, items);
      if s0.open {
        SessionLaw(wire.chip, c0, f, sessionId, CHECK_EXISTS, items, 32, Step(scp, wire.card, Reply(rl, r, sw, scp.open)));
      }
      PreservedRefl(c0.body);
      if sw != SW_OK {
        return -1;
      }
      var v := Value41(r);
      if v.None? || |v.value| != 1 {
        return -1;
      }
      e := if v.value[0] == 1 then 1 else 0;
    }

    /** The frame of every agreement, signature or read: it changes no object, and hands on the card's
        answer only when that answer is the operation's result on the card's present state. */
    method Operate(header: seq<byte>, d: seq<byte>, cap: nat, ghost items: seq<Item>, ghost t: nat)
      returns (r: seq<byte>, sw: StatusWord)
      requires Valid() && (header == ECDH || header == SIGN || header == READ_OBJECT) && cap >= 66
      requires Encodable(items) && d == Encode(items) && |d| <= 213
      modifies this`scp, this`sessionActive, wire`card, wire`clock
      ensures Valid() && Preserved(old(wire.card.body), wire.card.body)
      ensures sessionActive == (old(sessionActive) && (old(scp.open) ==> scp.open))
      ensures wire.clock == old(wire.clock) + if old(scp.open) then 1 else 0
      ensures sw == SW_OK ==>
                && InSession(wire.chip, wire.card.body, header, items).sw == SW_OK
                && r == InSession(wire.chip, wire.card.body, header, items).data
                && wire.card.body == old(wire.card.body) && wire.schedule(old(wire.clock)) == HEALTHY
      ensures old(Disturbed(t)) && InSession(wire.chip, old(wire.card.body), header, items).sw == SW_OK ==>
                sw == SW_OK || Healthy()
      ensures old(Live() && Healthy()) && InSession(wire.chip, old(wire.card.body), header, items).sw == SW_OK ==> sw == SW_OK
      ensures old(Healthy()) ==> Healthy()
    {
      hide Distinct, Frame, SessionResult, InSession, Preserved, Encode;
      OperationFits(sessionId, header, d);
      ghost var c0, s0, f := wire.card, scp, wire.schedule(wire.clock);
      SettlePreserves(c0, f);
      ReadOnly(wire.chip, Settle(c0, f).body, sessionId, header, items);
      InSessionData(wire.chip, Settle(c0, f).body, header, items);
      HealthySettle(c0, f);
      PreservedRefl(c0.body);
      var rl, resp, status := SessionApdu(header, d, true, cap, items);
      if s0.open {
        SessionLaw(wire.chip, c0, f, sessionId, header, items, cap, Step(scp, wire.card, Reply(rl, resp, status, scp.open)));
      }
      r, sw := resp, status;
    }

    /** One key agreement with the peer's key inline, rebuilding and retrying once. */
    method X25519EcdhBytes(objId: ObjectId, peer: Key32, ghost t: nat) returns (ok: bool, shared: seq<byte>)
      requires Valid()
      modifies this`scp, this`sessionActive, this`sessionId, this`cur, this`usingRotatedKeys, this`keySource, this`openedWith, wire
      ensures Valid() && Preserved(old(wire.card.body), wire.card.body)
      ensures ok ==> IsAgreement(wire.chip, wire.card.body, objId, peer, shared)
      ensures old(HasKey(wire.card.body, objId, CURVE_X25519) && (Disturbed(t) || Settled())) ==> ok
    {
      hide Distinct, Encode, InSession, ResetBody;
      var keyId := Be32(objId);
      var peerBe := Reverse(peer);
      ghost var items := [Item(TAG_1, keyId), Item(TAG_2, peerBe)];
      var d := [0x41, 0x04] + keyId + [0x42, 0x20] + peerBe;
      assert Encode(items) == d by { EncodeTwo(items[0], items[1]); }
      ghost var heals := HasKey(wire.card.body, objId, CURVE_X25519) && (Disturbed(t) || Settled());
      for attempt := 0 to 2
        invariant Valid() && Preserved(old(wire.card.body), wire.card.body)
        invariant attempt == 0 ==> heals == (HasKey(wire.card.body, objId, CURVE_X25519) && (Disturbed(t) || Settled()))
        invariant attempt > 0 && heals ==> Healthy() && !sessionActive && !scp.open
        invariant attempt == 2 ==> !heals
      {
        ok := EnsureSession();
        shared := [];
        if !ok {
          return;
        }
        InlineAgreement(wire.chip, wire.card.body, objId, peer);
        var r, sw := Operate([0x80, 0x03, 0x01, 0x0F], d, 128, items, t);
        InlineAgreement(wire.chip, wire.card.body, objId, peer);
        if sw == SW_OK {
          var v := Value41(r);
          if v.None? || |v.value| != 32 {
            return false, [];
          }
          shared := ReverseInto(v.value);
          return true, shared;
        }
        Abandon();
      }
      ok, shared := false, [];
    }

    /** One lap of a signature, session already ensured. */
    method LapForSignature(objId: ObjectId, message: seq<byte>, ghost t: nat) returns (lap: Lap)
      requires Valid() && |message| <= SIGN_MAX_MESSAGE
      modifies this`scp, this`sessionActive, wire`card, wire`clock
      ensures Valid() && Preserved(old(wire.card.body), wire.card.body)
      ensures lap.Done? ==> IsSignature(wire.chip, wire.card.body, objId, message, lap.octets)
      ensures lap == Again ==> !scp.open && !sessionActive
      ensures lap != Stop && (old(Healthy()) ==> Healthy())
      ensures old(HasKey(wire.card.body, objId, CURVE_ED25519) && Disturbed(t)) ==> lap.Done? || Healthy()
      ensures old(HasKey(wire.card.body, objId, CURVE_ED25519) && Live() && Healthy()) ==> lap.Done?
    {
      hide Distinct, Encode, InSession, ResetBody;
      var keyId := Be32(objId);
      ghost var items := SignItems(keyId, message);
      var d := [0x41, 0x04] + keyId + [0x42, 0x01, 0xA3] + [0x43];
      if |message| > 0x7F {
        d := d + [0x81];
      }
      d := d + [|message|] + message;
      assert Encodable(items) && Encode(items) == d by { EncodeSign(keyId, message); }
      SignatureAnswer(wire.chip, wire.card.body, objId, message);
      var r, sw := Operate([0x80, 0x03, 0x0C, 0x09], d, 96, items, t);
      SignatureAnswer(wire.chip, wire.card.body, objId, message);
      if sw == SW_OK {
        var v := Value41(r);
        if v.None? || |v.value| != 64 {
          return Stop;
        }
        var lo := ReverseInto(v.value[..32]);
        var hi := ReverseInto(v.value[32..]);
        return Done(lo + hi);
      }
      Abandon();
      lap := Again;
    }

    /** EdDSA over a message of up to 200 octets, rebuilding and retrying once. */
    method Ed25519Sign(objId: ObjectId, message: seq<byte>, ghost t: nat) returns (ok: bool, signature: seq<byte>)
      requires Valid()
      modifies this`scp, this`sessionActive, this`sessionId, this`cur, this`usingRotatedKeys, this`keySource, this`openedWith, wire
      ensures Valid() && Preserved(old(wire.card.body), wire.card.body)
      ensures ok ==> IsSignature(wire.chip, wire.card.body, objId, message, signature)
      ensures |message| > 200 ==> !ok && wire.card == old(wire.card)
      ensures old(|message| <= 200 && HasKey(wire.card.body, objId, CURVE_ED25519) && (Disturbed(t) || Settled())) ==> ok
    {
      hide Distinct, ResetBody;
      if |message| > SIGN_MAX_MESSAGE {
        return false, [];
      }
      ghost var heals := HasKey(wire.card.body, objId, CURVE_ED25519) && (Disturbed(t) || Settled());
      for attempt := 0 to 2
        invariant Valid() && Preserved(old(wire.card.body), wire.card.body)
        invariant attempt == 0 ==> heals == (HasKey(wire.card.body, objId, CURVE_ED25519) && (Disturbed(t) || Settled()))
        invariant attempt > 0 && heals ==> Healthy() && !sessionActive && !scp.open
        invariant attempt == 2 ==> !heals
      {
        ok := EnsureSession();
        signature := [];
        if !ok {
          return;
        }
        var lap := LapForSignature(objId, message, t);
        match lap
        case Done(s) => return true, s;
        case Stop => return false, [];
        case Again =>
      }
      ok, signature := false, [];
    }

    // ---------------------------------------------------------------- agreement via a peer object

    /** Creates the peer object, or replaces its value. */
    method PeerKeyWrite(valueBe: Key32, create: bool, ghost t: nat) returns (ok: bool, sw: StatusWord)
      requires Valid()
      modifies this`scp, this`sessionActive, wire`card, wire`clock
      ensures Valid() && Extended(old(wire.card.body), wire.card.body)
      ensures sessionActive == (old(sessionActive) && (old(scp.open) ==> scp.open))
      ensures wire.clock == old(wire.clock) + if old(scp.open) then 1 else 0
      ensures ok == (sw == SW_OK)
      ensures ok && create ==>
                && PEER_ID in wire.card.body.peers && wire.card.body.peers[PEER_ID].transient
                && wire.card.body.peers[PEER_ID].rights == [0x04, 0x34, 0x00, 0x00]
      ensures ok ==>
                && PeerIs(wire.card.body, valueBe) && wire.schedule(old(wire.clock)) == HEALTHY
                && wire.card.body.curves == old(wire.card.body.curves)
                && OnCard() && wire.card.body.session == Some(Session(sessionId, true))
      ensures old(Disturbed(t) && Writable(wire.card.body, create)) ==> if ok then Disturbed(t) else Healthy()
      ensures old(Live() && Healthy() && Writable(wire.card.body, create)) ==> ok
      ensures !old(scp.open) ==> !ok && wire.card == old(wire.card)
    {
      hide Distinct, Frame, SessionResult, InSession, Encode, Settle, Preserved;
      ghost var items := WriteItems(valueBe, create);
      var d := (if create then [0x11, 0x09, 0x08] + AUTH_OBJ + [0x04, 0x34, 0x00, 0x00] else [])
               + [0x41, 0x04] + PEER_ID + (if create then [0x42, 0x01, 0x41] else []) + [0x44, 0x20] + valueBe;
      EncodeWrite(valueBe, create);
      var hdr := [0x80, if create then 0x81 else 0x01, 0x21, 0x00];
      FrameFitsIff(sessionId, hdr, d, false);
      ghost var c0, s0, f := wire.card, scp, wire.schedule(wire.clock);
      SettlePreserves(c0, f);
      WriteAnswer(wire.chip, Settle(c0, f).body, sessionId, valueBe, create);
      HealthySettle(c0, f);
      var rl, r, status := SessionApdu(hdr, d, false, 32, items);
      if s0.open {
        SessionLaw(wire.chip, c0, f, sessionId, hdr, items, 32, Step(scp, wire.card, Reply(rl, r, status, scp.open)));
      }
      PreservedExtended(c0.body, Settle(c0, f).body);
      PreservedRefl(c0.body);
      PreservedExtended(c0.body, c0.body);
      sw, ok := status, status == SW_OK;
    }

    /** The part of a lap before the agreement: make sure the object exists and holds this peer.
        `Retry` has given the channel up; `GiveUp` is the chip (or the wire) refusing to create. */
    method PreparePeer(peerBe: Key32, ghost t: nat) returns (o: Prepared)
      requires Valid()
      modifies this`scp, this`sessionActive, this`peerObjReady, wire`card, wire`clock
      ensures Valid() && Extended(old(wire.card.body), wire.card.body)
      ensures wire.clock >= old(wire.clock)
      ensures o == Ready ==> PeerIs(wire.card.body, peerBe)
      ensures o == Retry ==> !scp.open && !sessionActive && !peerObjReady
      ensures old(Disturbed(t) && PeerUsable(wire.card.body)) ==>
                && (o == Ready ==> Disturbed(t))
                && (o != Ready ==> Settled())
                && (o == GiveUp <==>
                      PEER_ID !in old(wire.card.body.peers) && t == old(wire.clock) + 1 && wire.schedule(t) != HEALTHY)
                && (o == Retry ==> wire.schedule(t) != HEALTHY || !old(Live()))
                && PeerUsable(wire.card.body)
      ensures old(Live() && Healthy() && PeerUsable(wire.card.body)) ==> o == Ready && Live() && Healthy()
      ensures !old(scp.open) ==> o == Retry && wire.card == old(wire.card) && wire.clock == old(wire.clock)
    {
      hide Distinct, Settle;
      assert Be32(PEER_KEY_OBJ) == PEER_ID;
      PreservedRefl(wire.card.body);
      PreservedExtended(wire.card.body, wire.card.body);
      ghost var b0 := wire.card.body;
      var written := false;
      if !peerObjReady {
        var exists_ := ObjectExists(PEER_KEY_OBJ, t);
        if exists_ < 0 {
          Abandon();
          PreservedExtended(b0, wire.card.body);
          return Retry;
        }
        if exists_ == 0 {
          var created, sw := PeerKeyWrite(peerBe, true, t);
          if !created {
            return GiveUp;
          }
          written := true;
        }
        peerObjReady := true;
      }
      if !written {
        var updated, sw := PeerKeyWrite(peerBe, false, t);
        if !updated {
          peerObjReady := false;
          Abandon();
          return Retry;
        }
      }
      o := Ready;
    }

    /** One lap of the object form, session already ensured: prepare the object, agree, read. */
    method LapWithObject(objId: ObjectId, peer: Key32, ghost t: nat) returns (lap: Lap)
      requires Valid()
      modifies this`scp, this`sessionActive, this`peerObjReady, wire`card, wire`clock
      ensures Valid() && Extended(old(wire.card.body), wire.card.body)
      ensures lap.Done? ==> IsAgreement(wire.chip, wire.card.body, objId, peer, lap.octets)
      ensures lap == Again ==> !scp.open && !sessionActive
      ensures old(Disturbed(t) && PeerUsable(wire.card.body) && HasKey(wire.card.body, objId, CURVE_X25519)) ==>
                && (lap == Stop <==>
                      PEER_ID !in old(wire.card.body.peers) && t == old(wire.clock) + 1 && wire.schedule(t) != HEALTHY)
                && (!lap.Done? ==> Settled())
                && PeerUsable(wire.card.body)
      ensures old(Live() && Healthy() && PeerUsable(wire.card.body) && HasKey(wire.card.body, objId, CURVE_X25519)) ==> lap.Done?
      ensures !old(scp.open) ==> lap == Again && wire.card == old(wire.card) && wire.clock == old(wire.clock)
    {
      hide Distinct, Encode, InSession, Value41;
      var keyId := Be32(objId);
      var peerBe := Reverse(peer);
      ghost var item := Item(TAG_3, PEER_ID);
      ghost var items := [Item(TAG_1, keyId), item];
      var d := [0x41, 0x04] + keyId + [0x43, 0x04] + PEER_ID;
      assert Encode(items) == d by { EncodeTwo(items[0], items[1]); }
      var o := PreparePeer(peerBe, t);
      if o != Ready {
        return if o == GiveUp then Stop else Again;
      }
      AgreementAnswer(wire.chip, wire.card.body, objId, peer, item);
      ghost var b1 := wire.card.body;
      var r, sw := Operate([0x80, 0x03, 0x01, 0x0F], d, 128, items, t);
      PreservedExtended(b1, wire.card.body);
      if sw == SW_OK {
        var v := Value41(r);
        if v.None? || |v.value| != 32 {
          return Stop;
        }
        var shared := ReverseInto(v.value);
        return Done(shared);
      }
      peerObjReady := false;
      Abandon();
      lap := Again;
    }

    /** One key agreement against the peer object, rebuilding and retrying once. A success is this
        call's key with this call's peer. It heals one disturbance, except that a creation which
        goes wrong is taken for a refusal and ends the call. */
    method X25519EcdhObject(objId: ObjectId, peer: Key32, ghost t: nat) returns (ok: bool, shared: seq<byte>)
      requires Valid()
      modifies this`scp, this`sessionActive, this`sessionId, this`peerObjReady, this`cur, this`usingRotatedKeys, this`keySource, this`openedWith, wire
      ensures Valid() && Extended(old(wire.card.body), wire.card.body)
      ensures ok ==> IsAgreement(wire.chip, wire.card.body, objId, peer, shared)
      ensures old(Disturbed(t) && PeerUsable(wire.card.body) && HasKey(wire.card.body, objId, CURVE_X25519)) ==>
                && (!ok <==>
                      PEER_ID !in old(wire.card.body.peers) && t == old(wire.clock) + 1 && wire.schedule(t) != HEALTHY)
                && (!ok ==> Settled())
      ensures old(Settled() && PeerUsable(wire.card.body) && HasKey(wire.card.body, objId, CURVE_X25519)) ==> ok
    {
      hide Distinct, HEALTHY, Preserved, Extended, PeerUsable, HasKey, IsAgreement;
      ghost var start := wire.card.body;
      ghost var rests := Settled() && PeerUsable(wire.card.body) && HasKey(wire.card.body, objId, CURVE_X25519);
      ghost var heals := Disturbed(t) && PeerUsable(wire.card.body) && HasKey(wire.card.body, objId, CURVE_X25519);
      ghost var lost := PEER_ID !in wire.card.body.peers && t == wire.clock + 1 && wire.schedule(t) != HEALTHY;
      PreservedRefl(wire.card.body);
      PreservedExtended(wire.card.body, wire.card.body);
      for attempt := 0 to 2
        invariant Valid() && Extended(old(wire.card.body), wire.card.body)
        invariant attempt == 0 && heals ==> Disturbed(t) && wire.clock == old(wire.clock) && wire.card == old(wire.card)
        invariant attempt > 0 && heals ==> !sessionActive && !scp.open && Healthy() && !lost
        invariant heals || rests ==> PeerUsable(wire.card.body) && HasKey(wire.card.body, objId, CURVE_X25519)
        invariant rests ==> Settled() && (attempt > 0 ==> !sessionActive && !scp.open)
        invariant attempt == 2 ==> !heals && !rests
      {
        ghost var b0 := wire.card.body;
        ok := EnsureSession();
        shared := [];
        PreservedExtended(b0, wire.card.body);
        ExtendedKeeps(start, b0, wire.card.body, objId);
        if !ok {
          return;
        }
        ghost var b1 := wire.card.body;
        var lap := LapWithObject(objId, peer, if rests then wire.clock else t);
        ExtendedKeeps(start, b1, wire.card.body, objId);
        match lap
        case Done(s) => return true, s;
        case Stop => return false, [];
        case Again =>
      }
      ok, shared := false, [];
    }

    /** A key agreement by whichever form is in use. When the object form gives up the inline form
        answers, so one disturbance anywhere costs the caller nothing. */
    method X25519Ecdh(objId: ObjectId, peer: Key32, ghost t: nat) returns (ok: bool, shared: seq<byte>)
      requires Valid()
      modifies this, wire
      ensures Valid() && Extended(old(wire.card.body), wire.card.body)
      ensures ok ==> IsAgreement(wire.chip, wire.card.body, objId, peer, shared)
      ensures old((Disturbed(t) || Settled()) && PeerUsable(wire.card.body) && HasKey(wire.card.body, objId, CURVE_X25519)) ==> ok
      ensures !old(ecdhViaObject) ==> !ecdhViaObject
      ensures !ok || old(Settled() && PeerUsable(wire.card.body) && HasKey(wire.card.body, objId, CURVE_X25519)) ==>
                ecdhViaObject == old(ecdhViaObject)
      ensures old(Disturbed(t) && PeerUsable(wire.card.body) && HasKey(wire.card.body, objId, CURVE_X25519)) ==>
                ecdhViaObject ==
                (old(ecdhViaObject)
                 && !(PEER_ID !in old(wire.card.body.peers) && t == old(wire.clock) + 1 && wire.schedule(t) != HEALTHY))
    {
      hide Distinct;
      if ecdhViaObject {
        ok, shared := X25519EcdhObject(objId, peer, t);
        if ok {
          return;
        }
      }
      ghost var b0 := wire.card.body;
      ok, shared := X25519EcdhBytes(objId, peer, t);
      PreservedExtended(b0, wire.card.body);
      if ok && ecdhViaObject {
        ecdhViaObject := false;
      }
    }

    // ---------------------------------------------------------------- keys by object id

    /** WriteECKey in its generate form. The card would overwrite a pair that exists, so it may only
        be issued for an object the card does not hold. */
    method GenerateKey(objId: ObjectId, curve: byte, policy: seq<byte>, ghost t: nat) returns (ok: bool)
      requires Valid() && |policy| == 4
      requires Be32(objId) !in wire.card.body.pairs
      modifies this`scp, this`sessionActive, wire`card, wire`clock
      ensures Valid() && KeysKept(old(wire.card.body), wire.card.body, objId, curve, policy)
      ensures sessionActive == (old(sessionActive) && (old(scp.open) ==> scp.open))
      ensures wire.clock >= old(wire.clock)
      ensures old(Live() && Healthy()) && Generable(old(wire.card.body), objId, curve) ==>
                ok && Live() && Healthy() && HasPair(wire.card.body, objId, curve, policy)
      ensures old(Disturbed(t) && Live()) && Generable(old(wire.card.body), objId, curve) ==>
                && (!ok <==> t == old(wire.clock) && wire.schedule(t) != HEALTHY)
                && (ok ==> Disturbed(t) && Live() && HasPair(wire.card.body, objId, curve, policy) && wire.clock == old(wire.clock) + 1)
    {
      hide Distinct, Frame, SessionResult, InSession, Encode, Settle, Preserved;
      var keyId := Be32(objId);
      ghost var items := GenerateItems(keyId, curve, policy);
      var d := [0x11, 0x09, 0x08] + AUTH_OBJ + policy + [0x41, 0x04] + keyId + [0x42, 0x01, curve];
      EncodeGenerate(keyId, curve, policy);
      FrameFitsIff(sessionId, GENERATE_KEY, d, false);
      ghost var c0, s0, f := wire.card, scp, wire.schedule(wire.clock);
      SettlePreserves(c0, f);
      GenerateAnswer(wire.chip, c0.body, Settle(c0, f).body, sessionId, objId, curve, policy);
      HealthySettle(c0, f);
      var rl, r, sw := SessionApdu([0x80, 0x01, 0x61, 0x00], d, false, 192, items);
      if s0.open {
        SessionLaw(wire.chip, c0, f, sessionId, GENERATE_KEY, items, 192, Step(scp, wire.card, Reply(rl, r, sw, scp.open)));
      }
      ok := sw == SW_OK;
    }

    /** ReadObject of a key pair. With one disturbance it fails exactly when this exchange is the one hit. */
    method ReadPublicKey(objId: ObjectId, ghost t: nat) returns (ok: bool, publicKey: seq<byte>)
      requires Valid()
      modifies this`scp, this`sessionActive, wire`card, wire`clock
      ensures Valid() && Preserved(old(wire.card.body), wire.card.body)
      ensures ok ==> IsPublicKey(wire.chip, wire.card.body, objId, publicKey)
      ensures old(Disturbed(t) && Live()) && Be32(objId) in old(wire.card.body.pairs) ==>
                (!ok <==> t == old(wire.clock) && wire.schedule(t) != HEALTHY)
      ensures old(Live() && Healthy()) && Be32(objId) in old(wire.card.body.pairs) ==> ok
    {
      hide Distinct, Encode, InSession, ResetBody, HEALTHY;
      var keyId := Be32(objId);
      ghost var items := [Item(TAG_1, keyId)];
      var dRead := [0x41, 0x04] + keyId;
      assert Encode(items) == dRead by { EncodeOne(items[0]); }
      KeyAnswer(wire.chip, wire.card.body, objId);
      var r, sw := Operate([0x80, 0x02, 0x00, 0x00], dRead, 192, items, t);
      KeyAnswer(wire.chip, wire.card.body, objId);
      if sw != SW_OK {
        assert old(Disturbed(t)) && Healthy() && wire.schedule(old(wire.clock)) == HEALTHY ==> old(Healthy());
        return false, [];
      }
      var v := Value41(r);
      if v.None? || |v.value| < 32 {
        return false, [];
      }
      publicKey := ReverseInto(v.value[..32]);
      ok := true;
    }

    /** One lap, session already ensured: ask for the object, generate it only if the card says it is
        absent, and read its public key. `Again` has given the channel up. */
    method LapForKey(objId: ObjectId, curve: byte, policy: seq<byte>, ghost t: nat) returns (lap: Lap)
      requires Valid() && |policy| == 4
      modifies this`scp, this`sessionActive, wire`card, wire`clock
      ensures Valid() && KeysKept(old(wire.card.body), wire.card.body, objId, curve, policy)
      ensures lap.Done? ==> IsPublicKey(wire.chip, wire.card.body, objId, lap.octets)
      ensures lap.Done? && Be32(objId) !in old(wire.card.body.pairs) ==> HasPair(wire.card.body, objId, curve, policy)
      ensures lap == Again ==> !scp.open && !sessionActive && Preserved(old(wire.card.body), wire.card.body)
      ensures old(Disturbed(t)) && Be32(objId) in old(wire.card.body.pairs) ==>
                && (lap == Stop <==> t == old(wire.clock) + 1 && wire.schedule(t) != HEALTHY)
                && (lap == Again ==> Healthy() && t <= old(wire.clock))
      ensures old(Disturbed(t) && Generable(wire.card.body, objId, curve)) ==>
                && (lap == Stop <==> (t == old(wire.clock) + 1 || t == old(wire.clock) + 2) && wire.schedule(t) != HEALTHY)
                && (lap == Again ==> Healthy() && t <= old(wire.clock))
      ensures old(Live() && Healthy() && (Be32(objId) in wire.card.body.pairs || Generable(wire.card.body, objId, curve))) ==> lap.Done?
    {
      hide Distinct, Encode, InSession, ResetBody, HEALTHY;
      PreservedRefl(wire.card.body);
      ghost var b0 := wire.card.body;
      var exists_ := ObjectExists(objId, t);
      if exists_ < 0 {
        Abandon();
        return Again;
      }
      if exists_ == 0 {
        var generated := GenerateKey(objId, curve, policy, t);
        if !generated {
          return Stop;
        }
      }
      ghost var b2 := wire.card.body;
      var ok, publicKey := ReadPublicKey(objId, t);
      KeptPreserved(b0, b2, wire.card.body, objId, curve, policy);
      lap := if ok then Done(publicKey) else Stop;
    }

    /** The public key of an object, generated in the chip if there is none yet. Every pair the card
        held is still there unchanged, so a public key once reported is reported for good. */
    method KeyEnsure(objId: ObjectId, curve: byte, policy: seq<byte>, ghost t: nat) returns (ok: bool, publicKey: seq<byte>)
      requires Valid() && |policy| == 4
      modifies this`scp, this`sessionActive, this`sessionId, this`cur, this`usingRotatedKeys, this`keySource, this`openedWith, wire
      ensures Valid() && KeysKept(old(wire.card.body), wire.card.body, objId, curve, policy)
      ensures openedWith == old(openedWith) || openedWith == Some(wire.card.body.keys)
      ensures ok ==> IsPublicKey(wire.chip, wire.card.body, objId, publicKey)
      ensures ok && Be32(objId) !in old(wire.card.body.pairs) ==> HasPair(wire.card.body, objId, curve, policy)
      ensures old(Disturbed(t)) && Be32(objId) in old(wire.card.body.pairs) ==>
                (!ok <==> t == old(wire.clock) + 1 && wire.schedule(t) != HEALTHY)
      ensures old(Live() && Healthy() && (Be32(objId) in wire.card.body.pairs || Generable(wire.card.body, objId, curve))) ==> ok
      ensures old(Disturbed(t) && Generable(wire.card.body, objId, curve)) ==>
                (!ok <==> (t == old(wire.clock) + 1 || t == old(wire.clock) + 2) && wire.schedule(t) != HEALTHY)
      ensures old(Healthy() && !sessionActive && (scp.open ==> OnCard()) && Be32(objId) !in wire.card.body.peers) ==>
                curve == CURVE_X25519 || curve == CURVE_ED25519 ==> ok
    {
      hide Distinct, Encode, InSession, ResetBody, HEALTHY, IsPublicKey, KeysKept, HasPair, Be32, Valid, Sound;
      ghost var had := Be32(objId) in wire.card.body.pairs;
      ghost var heals := Disturbed(t) && (had || Generable(wire.card.body, objId, curve));
      ghost var smooth := Live() && Healthy() && (had || Generable(wire.card.body, objId, curve));
      ghost var rests := Healthy() && !sessionActive && (scp.open ==> OnCard())
                         && (curve == CURVE_X25519 || curve == CURVE_ED25519) && Be32(objId) !in wire.card.body.peers;
      PreservedRefl(wire.card.body);
      for attempt := 0 to 2
        invariant Valid() && Preserved(old(wire.card.body), wire.card.body)
        invariant openedWith == old(openedWith) || openedWith == Some(wire.card.body.keys)
        invariant attempt == 0 ==> wire.clock == old(wire.clock) && wire.card == old(wire.card)
        invariant attempt == 0 && heals ==> Disturbed(t)
        invariant attempt > 0 && heals ==> !sessionActive && !scp.open && Healthy() && t <= old(wire.clock)
        invariant heals ==> Be32(objId) in wire.card.body.pairs || Generable(wire.card.body, objId, curve)
        invariant attempt == 2 ==> !heals
        invariant smooth ==> attempt == 0 && Live() && Healthy()
        invariant rests ==> attempt == 0 && Healthy() && !sessionActive && (scp.open ==> OnCard())
      {
        ok := EnsureSession();
        publicKey := [];
        PreservedIsKept(old(wire.card.body), wire.card.body, objId, curve, policy);
        if !ok {
          return;
        }
        ghost var b1 := wire.card.body;
        var lap := LapForKey(objId, curve, policy, t);
        PreservedKept(old(wire.card.body), b1, wire.card.body, objId, curve, policy);
        match lap
        case Done(key) => return true, key;
        case Stop => return false, [];
        case Again =>
      }
      PreservedIsKept(old(wire.card.body), wire.card.body, objId, curve, policy);
      ok, publicKey := false, [];
    }

    /** A key for agreements: allowed to agree if it is new. */
    method X25519Ensure(objId: ObjectId, ghost t: nat) returns (ok: bool, publicKey: seq<byte>)
      requires Valid()
      modifies this`scp, this`sessionActive, this`sessionId, this`cur, this`usingRotatedKeys, this`keySource, this`openedWith, wire
      ensures Valid() && KeysKept(old(wire.card.body), wire.card.body, objId, CURVE_X25519, [0x04, 0x3C, 0x00, 0x00])
      ensures openedWith == old(openedWith) || openedWith == Some(wire.card.body.keys)
      ensures ok ==> IsPublicKey(wire.chip, wire.card.body, objId, publicKey)
      ensures ok && Be32(objId) !in old(wire.card.body.pairs) ==> HasKey(wire.card.body, objId, CURVE_X25519)
      ensures old(Healthy() && !sessionActive && (scp.open ==> OnCard()) && Be32(objId) !in wire.card.body.peers) ==> ok
    {
      ok, publicKey := KeyEnsure(objId, 0x41, [0x04, 0x3C, 0x00, 0x00], t);
    }

    /** A key for signatures: allowed to sign if it is new. */
    method Ed25519Ensure(objId: ObjectId, ghost t: nat) returns (ok: bool, publicKey: seq<byte>)
      requires Valid()
      modifies this`scp, this`sessionActive, this`sessionId, this`cur, this`usingRotatedKeys, this`keySource, this`openedWith, wire
      ensures Valid() && KeysKept(old(wire.card.body), wire.card.body, objId, CURVE_ED25519, [0x18, 0x3C, 0x00, 0x00])
      ensures ok ==> IsPublicKey(wire.chip, wire.card.body, objId, publicKey)
      ensures ok && Be32(objId) !in old(wire.card.body.pairs) ==> HasKey(wire.card.body, objId, CURVE_ED25519)
      ensures old(Healthy() && !sessionActive && (scp.open ==> OnCard()) && Be32(objId) !in wire.card.body.peers) ==> ok
    {
      ok, publicKey := KeyEnsure(objId, 0x40, [0x18, 0x3C, 0x00, 0x00], t);
    }

    // ---------------------------------------------------------------- rotation of the static keys

    /** SELECT of the security domain that owns the static keys. */
    method SelectSecurityDomain() returns (ok: bool)
      requires Sound() && !scp.open
      modifies wire`card, wire`clock
      ensures Sound() && Preserved(old(wire.card.body), wire.card.body)
      ensures wire.clock >= old(wire.clock)
      ensures old(Healthy()) ==> ok && Healthy() && wire.card.body.selected == SecurityDomain
    {
      hide Distinct, ResetBody;
      SettleKeeps(wire.card, wire.schedule(wire.clock));
      SelectKeeps(Settle(wire.card, wire.schedule(wire.clock)), SecurityDomain);
      var r := wire.Transceive(SELECT_SSD);
      ok := r.Some? && StatusOf(r.value) == SW_OK;
    }

    /** PUT KEY with the data field built under the DEK of the set that opened the channel. The card
        ends with its old keys or with the new ones, with the new ones when it said so, and with a
        healthy link to the security domain it does say so. */
    method SendPutKey(newKeys: KeySet) returns (ok: bool)
      requires Sound() && scp.open && KeysInUse() == wire.card.body.keys && newKeys in sources.Candidates()
      modifies this`scp, this`sessionActive, this`rotations, wire`card, wire`clock
      ensures Sound() && wire.card.body.pairs == old(wire.card.body.pairs) && rotations == old(rotations) + 1
      ensures wire.card.body.peers.Keys == old(wire.card.body.peers.Keys)
      ensures wire.card.body.keys == old(wire.card.body.keys) || wire.card.body.keys == newKeys
      ensures ok ==> wire.card.body.keys == newKeys
      ensures var s := Secure(wire.chip, old(scp), old(wire.card), wire.schedule(old(wire.clock)), [0x80, 0xD8, 0x0B, 0x81],
                              PutKeyData(wire.chip.cipher, newKeys, old(KeysInUse()).dek), true, 32, wire.behind(old(wire.clock)));
              ok <==> s.reply.sw == 0x9000 && s.reply.ret == 10 && s.reply.data == PutKeyEcho(wire.chip.cipher, newKeys)
      ensures wire.clock >= old(wire.clock)
      ensures old(Healthy() && wire.card.chan == Some(scp.ch) && wire.card.body.selected == SecurityDomain) ==> ok && Healthy()
    {
      hide Distinct, Secure, Execute, PutKeyData, PutKeyEcho, SecuredHeader;
      var c, data, expected := wire.chip.cipher, new byte[128](_ => 0), new byte[16](_ => 0);
      var len := BuildPutKeyData(c, KeysInUse().dek, newKeys, data, expected);
      ghost var c0, s0, f := wire.card, scp, wire.schedule(wire.clock);
      SettleKeeps(c0, f);
      assert PUT_KEY[..2] == [0x80, 0xD8];
      SecureOutcome(wire.chip, s0, c0, f, PUT_KEY, data[..len], true, 32, wire.behind(wire.clock));
      ExecutePutKey(wire.chip, Settle(c0, f).body, newKeys);
      var rl, resp, sw := SecureApdu([0x80, 0xD8, 0x0B, 0x81], data[..len], true, 32);
      rotations := rotations + 1;
      ok := sw == SW_OK && rl == 10 && resp == expected[..10];
    }

    /** Interface reset, selection of the security domain and a channel to it. */
    method OpenSecurityDomain() returns (ok: bool)
      requires Valid() && keySource != Otp
      modifies this`scp, this`sessionActive, this`cur, this`usingRotatedKeys, this`keySource, this`openedWith, wire
      ensures Valid() && Preserved(old(wire.card.body), wire.card.body)
      ensures ok == scp.open && (ok ==> KeysInUse() == wire.card.body.keys && openedWith == Some(KeysInUse()))
      ensures old(Healthy()) ==>
                && ok && Healthy() && wire.card.chan == Some(scp.ch) && wire.card.body.selected == SecurityDomain
                && (sources.otp == Some(wire.card.body.keys) ==> keySource == Otp)
    {
      hide Distinct;
      scp, sessionActive, usingRotatedKeys := scp.(open := false), false, false;
      ok := InterfaceResetWithRetries();
      if !ok {
        return;
      }
      ok := SelectSecurityDomain();
      if !ok {
        return;
      }
      ok := OpenSecureChannel();
    }

    /** The one-way rotation to the OTP-derived keys. Whatever is lost, and wherever the chip resets, its
        keys are at the end still a set the driver tries. Success means they are the OTP ones and that the
        last channel opened was under them, unless it was known before; on a healthy link a board that has
        them succeeds. PUT KEY is issued at most once, and on a healthy link not to a chip that has them. */
    method RotatePlatformKeys() returns (ok: bool)
      requires Valid()
      modifies this, wire
      ensures Valid()
      ensures wire.card.body.keys == old(wire.card.body.keys) || sources.otp == Some(wire.card.body.keys)
      ensures ok ==> sources.otp == Some(wire.card.body.keys)
      ensures ok && old(keySource) != Otp ==> openedWith == sources.otp
      ensures old(Healthy()) && sources.otp.Some? ==> ok
      ensures old(rotations) <= rotations <= old(rotations) + 1
      ensures old(keySource == Otp || sources.otp.None? || (Healthy() && sources.otp == Some(wire.card.body.keys))) ==>
                rotations == old(rotations)
      ensures PairsKept(old(wire.card.body), wire.card.body) && PairsAdded(old(wire.card.body), wire.card.body)
    {
      hide Distinct;
      if keySource == Otp {
        return true;
      }
      if sources.otp.None? {
        return false;
      }
      var newKeys := sources.otp.value;
      ok := OpenSecurityDomain();
      if !ok {
        return;
      }
      if keySource == Otp {
        return true;
      }
      ok := SendPutKey(newKeys);
      if !ok {
        return;
      }
      ok := AdoptNewKeys(newKeys);
    }

    /** The chip has said it stored the new keys: a channel under them proves it. */
    method AdoptNewKeys(newKeys: KeySet) returns (ok: bool)
      requires Sound() && PeerKnown() && sources.otp == Some(newKeys) && wire.card.body.keys == newKeys
      modifies this, wire
      ensures Valid() && wire.card.body.keys == newKeys && rotations == old(rotations)
      ensures ok ==> openedWith == Some(newKeys)
      ensures old(Healthy()) ==> ok
      ensures PairsKept(old(wire.card.body), wire.card.body) && PairsAdded(old(wire.card.body), wire.card.body)
    {
      hide Distinct, KeysKept, PairsKept, PairsAdded, HasKey, IsPublicKey;
      ghost var had := wire.card.body;
      cur, usingRotatedKeys, keySource := newKeys, true, Otp;
      scp, sessionActive := scp.(open := false), false;
      ok := Open();
      if ok {
        ok := TryOpenChannel();
      }
      EachKeepsPairs(had, wire.card.body, IDENTITY_OBJ, CURVE_X25519, [0x04, 0x3C, 0x00, 0x00]);
      if !ok {
        return;
      }
      ghost var now := wire.card.body;
      var reachable, pub := X25519Ensure(IDENTITY_OBJ, 0);
      PreservedKept(had, now, wire.card.body, IDENTITY_OBJ, CURVE_X25519, [0x04, 0x3C, 0x00, 0x00]);
      EachKeepsPairs(had, wire.card.body, IDENTITY_OBJ, CURVE_X25519, [0x04, 0x3C, 0x00, 0x00]);
    }

    // ---------------------------------------------------------------- whole runs

    /** Any sequence of calls, under any schedule: every public key ever reported is still the
        object's public key at the end, and every key pair that was generated is allowed the operation of
        its curve. In particular an object is never reported two keys, even
        when the answer to the command that generated it was lost. */
    method Serve(calls: seq<Call>) returns (reports: seq<Report>)
      requires Valid()
      modifies this, wire
      ensures Valid() && PairsKept(old(wire.card.body), wire.card.body) && PairsAdded(old(wire.card.body), wire.card.body)
      ensures forall r :: r in reports ==> IsPublicKey(wire.chip, wire.card.body, r.objId, r.key)
      ensures forall r, q :: r in reports && q in reports && r.objId == q.objId ==> r.key == q.key
    {
      hide Distinct, Preserved, Extended, KeysKept, HasKey;
      reports := [];
      for i := 0 to |calls|
        invariant Valid() && PairsKept(old(wire.card.body), wire.card.body) && PairsAdded(old(wire.card.body), wire.card.body)
        invariant forall r :: r in reports ==> IsPublicKey(wire.chip, wire.card.body, r.objId, r.key)
      {
        ghost var b0 := wire.card.body;
        match calls[i]
        case EnsureAgreement(objId) =>
          var ok, key := X25519Ensure(objId, 0);
          EachKeepsPairs(b0, wire.card.body, objId, CURVE_X25519, [0x04, 0x3C, 0x00, 0x00]);
          if ok {
            reports := reports + [Report(objId, key)];
          }
        case EnsureSigning(objId) =>
          var ok, key := Ed25519Ensure(objId, 0);
          EachKeepsPairs(b0, wire.card.body, objId, CURVE_ED25519, [0x18, 0x3C, 0x00, 0x00]);
          if ok {
            reports := reports + [Report(objId, key)];
          }
        case AgreeWith(objId, peer) =>
          var _, _ := X25519Ecdh(objId, peer, 0);
          EachKeepsPairs(b0, wire.card.body, objId, CURVE_X25519, [0x04, 0x3C, 0x00, 0x00]);
        case SignWith(objId, message) =>
          var _, _ := Ed25519Sign(objId, message, 0);
          EachKeepsPairs(b0, wire.card.body, objId, CURVE_X25519, [0x04, 0x3C, 0x00, 0x00]);
        case Rotate =>
          var _ := RotatePlatformKeys();
      }
    }
  }

  /** Session frames that travel: the buffer check never binds before the one-octet Lc does. */
  predicate FrameFits(sid: Challenge, header: seq<byte>, data: seq<byte>, answers: bool)
    requires |header| == 4 && |data| <= 0xFF00
  {
    Fits(Frame(sid, header, data, answers))
  }

  lemma InnerLength(header: seq<byte>, data: seq<byte>, answers: bool)
    requires |header| == 4 && |data| <= 0xFF00
    ensures |Inner(header, data, answers)|
            == 4 + (if |data| == 0 then 0 else if |data| < 0xFF && !answers then 1 else 3) + |data|
  {
  }

  lemma SessionKeepsKeys(chip: Chip, b: Body, sid: seq<byte>, header: seq<byte>, items: seq<Item>)
    ensures var r := SessionResult(chip, b, sid, header, items).body;
            r.keys == b.keys && b.pairs.Keys <= r.pairs.Keys && b.peers.Keys <= r.peers.Keys
  {
  }

  /** What recovery and key agreement leave as they found it: keys, key pairs and the set of public
      key objects; curves and the authenticator are only ever added. */
  predicate Preserved(a: Body, b: Body) {
    a.keys == b.keys && a.pairs == b.pairs && a.peers.Keys == b.peers.Keys && a.curves <= b.curves && (a.userId ==> b.userId)
  }

  lemma ResetPreserves(b: Body)
    ensures Preserved(b, ResetBody(b))
  {
  }

  lemma SettlePreserves(card: CardState, f: Fate)
    ensures Preserved(card.body, Settle(card, f).body)
  {
  }

  lemma DirectPreserves(chip: Chip, b: Body, header: seq<byte>, items: seq<Item>)
    ensures Preserved(b, DirectResult(chip, b, header, items).body)
  {
  }

  lemma VerifyPreserves(chip: Chip, b: Body, sid: seq<byte>, items: seq<Item>)
    ensures var r := SessionResult(chip, b, sid, VERIFY_USERID, items);
            Preserved(b, r.body) && r.body.curves == b.curves && r.body.peers == b.peers
  {
  }

  lemma EncodeOne(a: Item)
    requires |a.value| <= 0x7F
    ensures Encodable([a]) && Encode([a]) == [a.tag, |a.value|] + a.value
  {
    assert [a][1..] == [];
  }

  lemma EncodeTwo(a: Item, b: Item)
    requires |a.value| <= 0x7F && |b.value| <= 0x7F
    ensures Encodable([a, b]) && Encode([a, b]) == [a.tag, |a.value|] + a.value + [b.tag, |b.value|] + b.value
  {
    EncodeOne(b);
    assert [a, b][1..] == [b];
  }

  lemma UserIdOctets()
    ensures Encodable([Item(TAG_1, AUTH_OBJ), Item(TAG_2, AUTH_PIN)])
    ensures Encode([Item(TAG_1, AUTH_OBJ), Item(TAG_2, AUTH_PIN)])
            == [0x41, 0x04, 0x20, 0x00, 0x0A, 0xAA, 0x42, 0x08, 1, 2, 3, 4, 5, 6, 7, 8]
  {
    EncodeTwo(Item(TAG_1, AUTH_OBJ), Item(TAG_2, AUTH_PIN));
  }

  lemma ItemIsShort(v: seq<byte>)
    requires |v| <= 64
    ensures |EncodeItem(Item(TAG_1, v))| == |v| + 2
  {
  }

  /** The frame adds 16 octets to a short inner command, 18 to an answered or long one, 3 or 4 of
      them length octets. */
  lemma FrameFitsIff(sid: Challenge, header: seq<byte>, data: seq<byte>, answers: bool)
    requires |header| == 4 && |data| <= 0xFF00
    ensures FrameFits(sid, header, data, answers) <==>
            |data| + |InnerLc(|data|, answers)| + |BerLength(4 + |InnerLc(|data|, answers)| + |data|)| <= 224
  {
    FitsIff(Frame(sid, header, data, answers));
  }

  type ObjectId = x: nat | x < 0x1_0000_0000

  lemma PreservedRefl(b: Body)
    ensures Preserved(b, b)
  {
  }

  /** Inside a session, a success the host sees is the inner command's own success, executed in the
      host's session; a healthy exchange in a live session shows exactly that result. */
  lemma SessionLaw(chip: Chip, card: CardState, f: Fate, sid: Challenge, header: seq<byte>, items: seq<Item>, cap: nat, s: Step)
    requires header != VERIFY_USERID
    requires Ran(card, f, SessionResult(chip, Settle(card, f).body, sid, header, items), cap, s)
    ensures s.reply.sw == SW_OK ==>
              var now := Settle(card, f).body;
              var r := InSession(chip, now, header, items);
              && now.selected == IotApplet && now.session == Some(Session(sid, true)) && r.sw == SW_OK
              && s.scp.open && s.card.chan == Some(s.scp.ch) && s.card.body == r.body && s.reply.data == Cut(r.data, cap)
              && Reaches(card, f) && !f.reset
    ensures f == HEALTHY && card.chan.Some? && card.body.selected == IotApplet && card.body.session == Some(Session(sid, true)) ==>
              var r := InSession(chip, card.body, header, items);
              s.card.body == r.body && (r.sw == SW_OK ==> s.reply.sw == SW_OK)
  {
    hide InSession;
  }

  /** Checks, reads, agreements and signatures leave the card's state alone. */
  lemma ReadOnly(chip: Chip, b: Body, sid: Challenge, header: seq<byte>, items: seq<Item>)
    requires header == CHECK_EXISTS || header == READ_OBJECT || header == ECDH || header == SIGN
    ensures SessionResult(chip, b, sid, header, items).body == b
    ensures InSession(chip, b, header, items).body == b
  {
    hide EncodeItem, Reverse;
  }

  lemma InSessionData(chip: Chip, b: Body, header: seq<byte>, items: seq<Item>)
    ensures |InSession(chip, b, header, items).data| <= 66
    ensures Cut(InSession(chip, b, header, items).data, 66) == InSession(chip, b, header, items).data
  {
    hide Reverse;
  }

  lemma ExistsAnswer(chip: Chip, b: Body, id: seq<byte>)
    ensures var r := InSession(chip, b, CHECK_EXISTS, [Item(TAG_1, id)]);
            r.sw == SW_OK && Cut(r.data, 32) == r.data
            && Value41(r.data) == Some([if id in b.pairs || id in b.peers then 1 else 2])
  {
    var v: seq<byte> := [if id in b.pairs || id in b.peers then 1 else 2];
    Value41OfItem(v);
    ItemIsShort(v);
  }

  lemma OperationFits(sid: Challenge, header: seq<byte>, d: seq<byte>)
    requires |header| == 4
    ensures |d| <= 213 ==> FrameFits(sid, header, d, true)
  {
    if |d| <= 213 {
      FrameFitsIff(sid, header, d, true);
    }
  }

  /** The longest message `Ed25519Sign` accepts. */
  const SIGN_MAX_MESSAGE: nat := 200

  /** A key pair on this curve that its policy lets the driver use. */
  predicate HasKey(b: Body, objId: ObjectId, curve: byte) {
    Be32(objId) in b.pairs && b.pairs[Be32(objId)].curve == curve
    && if curve == CURVE_X25519 then MayAgree(b.pairs[Be32(objId)].rights) else MaySign(b.pairs[Be32(objId)].rights)
  }

  /** A key pair on this curve with exactly this policy. */
  predicate HasPair(b: Body, objId: ObjectId, curve: byte, policy: seq<byte>) {
    Be32(objId) in b.pairs && b.pairs[Be32(objId)].curve == curve && b.pairs[Be32(objId)].rights == policy
  }

  /** The shared secret of this call's key object and this call's peer. */
  predicate IsAgreement(chip: Chip, b: Body, objId: ObjectId, peer: Key32, shared: seq<byte>) {
    HasKey(b, objId, CURVE_X25519) && shared == chip.agree(b.pairs[Be32(objId)].secret, peer)
  }

  predicate IsSignature(chip: Chip, b: Body, objId: ObjectId, message: seq<byte>, signature: seq<byte>) {
    HasKey(b, objId, CURVE_ED25519) && signature == chip.sign(b.pairs[Be32(objId)].secret, message)
  }

  /** What the driver makes of the card's answer to an agreement with value `peer` (already in the
      chip's order, wherever the chip takes it from). */
  lemma AgreementAnswer(chip: Chip, b: Body, objId: ObjectId, peer: Key32, item: Item)
    requires PeerValue(b, item).Some? ==> PeerValue(b, item).value == Reverse(peer)
    ensures var r := InSession(chip, b, ECDH, [Item(TAG_1, Be32(objId)), item]);
            && (HasKey(b, objId, CURVE_X25519) && PeerValue(b, item).Some? ==> r.sw == SW_OK)
            && (r.sw == SW_OK ==>
                  Value41(r.data).Some? && |Value41(r.data).value| == 32
                  && IsAgreement(chip, b, objId, peer, Reverse(Value41(r.data).value)))
  {
    hide Value41, EncodeItem, Be32;
    ReverseTwice(peer);
    if HasKey(b, objId, CURVE_X25519) && PeerValue(b, item).Some? {
      var z := chip.agree(b.pairs[Be32(objId)].secret, peer);
      ReverseTwice(z);
      Value41OfItem(Reverse(z));
    }
  }

  lemma InlineAgreement(chip: Chip, b: Body, objId: ObjectId, peer: Key32)
    ensures var r := InSession(chip, b, ECDH, [Item(TAG_1, Be32(objId)), Item(TAG_2, Reverse(peer))]);
            && (HasKey(b, objId, CURVE_X25519) ==> r.sw == SW_OK)
            && (r.sw == SW_OK ==>
                  Value41(r.data).Some? && |Value41(r.data).value| == 32
                  && IsAgreement(chip, b, objId, peer, Reverse(Value41(r.data).value)))
  {
    hide Value41, InSession;
    AgreementAnswer(chip, b, objId, peer, Item(TAG_2, Reverse(peer)));
  }

  function SignItems(id: seq<byte>, message: seq<byte>): seq<Item> {
    [Item(TAG_1, id), Item(TAG_2, [0xA3]), Item(TAG_3, message)]
  }

  lemma EncodeSign(id: seq<byte>, message: seq<byte>)
    requires |id| == 4 && |message| <= 0xFF
    ensures Encodable(SignItems(id, message))
    ensures Encode(SignItems(id, message))
            == [0x41, 0x04] + id + [0x42, 0x01, 0xA3] + [0x43] + (if |message| > 0x7F then [0x81] else []) + [|message|] + message
  {
    var items := SignItems(id, message);
    assert items[1..] == [items[1], items[2]] && items[1..][1..] == [items[2]] && [items[2]][1..] == [];
    EncodeFirst(items);
    EncodeFirst(items[1..]);
    EncodeFirst([items[2]]);
    assert EncodeItem(items[0]) == [0x41, 0x04] + id;
    assert EncodeItem(items[1]) == [0x42, 0x01, 0xA3];
    assert EncodeItem(items[2]) == [0x43] + (if |message| > 0x7F then [0x81] else []) + [|message|] + message;
  }

  /** The signing frame fits the channel up to 207 octets of message and no further, so none within
      the limit is refused below. */
  lemma SigningFits(sid: Challenge, id: seq<byte>, message: seq<byte>)
    requires |id| == 4 && |message| <= 0xFF
    ensures |Encode(SignItems(id, message))| <= 0xFF00
    ensures FrameFits(sid, SIGN, Encode(SignItems(id, message)), true) <==> |message| <= 207
  {
    EncodeSign(id, message);
    FrameFitsIff(sid, SIGN, Encode(SignItems(id, message)), true);
  }

  lemma SignatureAnswer(chip: Chip, b: Body, objId: ObjectId, message: seq<byte>)
    ensures var r := InSession(chip, b, SIGN, SignItems(Be32(objId), message));
            && (HasKey(b, objId, CURVE_ED25519) ==> r.sw == SW_OK)
            && (r.sw == SW_OK ==>
                  Value41(r.data).Some? && |Value41(r.data).value| == 64
                  && var v := Value41(r.data).value;
                     IsSignature(chip, b, objId, message, Reverse(v[..32]) + Reverse(v[32..])))
  {
    hide Value41, EncodeItem, Be32;
    if HasKey(b, objId, CURVE_ED25519) {
      var s := chip.sign(b.pairs[Be32(objId)].secret, message);
      var v := Reverse(s[..32]) + Reverse(s[32..]);
      Value41OfItem(v);
      assert v[..32] == Reverse(s[..32]) && v[32..] == Reverse(s[32..]);
      ReverseTwice(s[..32]);
      ReverseTwice(s[32..]);
      assert s[..32] + s[32..] == s;
    }
  }

  const PEER_KEY_OBJ: ObjectId := 0x524E504B
  const PEER_ID: seq<byte> := [0x52, 0x4E, 0x50, 0x4B]

  lemma ExtendedKeeps(a: Body, b: Body, c: Body, objId: ObjectId)
    requires Extended(a, b) && Extended(b, c)
    ensures Extended(a, c)
    ensures PeerUsable(b) ==> PeerUsable(c)
    ensures HasKey(b, objId, CURVE_X25519) ==> HasKey(c, objId, CURVE_X25519)
  {
    hide Be32;
  }

  /** `Preserved`, except that the peer object may have been created. */
  predicate Extended(a: Body, b: Body) {
    a.keys == b.keys && a.pairs == b.pairs && a.curves <= b.curves && (a.userId ==> b.userId)
    && a.peers.Keys <= b.peers.Keys <= a.peers.Keys + {PEER_ID}
  }

  lemma PreservedExtended(a: Body, b: Body)
    requires Preserved(a, b)
    ensures Extended(a, b)
  {
  }

  /** The peer object holds this call's value. */
  predicate PeerIs(b: Body, valueBe: Key32) {
    PEER_ID in b.peers && b.peers[PEER_ID].value == Some(valueBe)
  }

  /** The chip's own rule: create while the id is free, update once it is a public key object. */
  predicate Writable(b: Body, create: bool) {
    if create then PEER_ID !in b.peers && PEER_ID !in b.pairs && CURVE_X25519 in b.curves else PEER_ID in b.peers
  }

  function WriteItems(valueBe: Key32, create: bool): seq<Item> {
    if create then
      [Item(TAG_POLICY, [0x08] + AUTH_OBJ + [0x04, 0x34, 0x00, 0x00]), Item(TAG_1, PEER_ID),
       Item(TAG_2, [CURVE_X25519]), Item(TAG_4, valueBe)]
    else [Item(TAG_1, PEER_ID), Item(TAG_4, valueBe)]
  }

  lemma EncodeCreate(valueBe: Key32)
    ensures Encodable(WriteItems(valueBe, true))
    ensures Encode(WriteItems(valueBe, true))
            == [0x11, 0x09, 0x08] + AUTH_OBJ + [0x04, 0x34, 0x00, 0x00]
               + [0x41, 0x04] + PEER_ID + [0x42, 0x01, 0x41] + [0x44, 0x20] + valueBe
  {
    hide Encode, EncodeItem;
    var items := WriteItems(valueBe, true);
    var tail := [items[2], items[3]];
    assert items[1..] == [items[1]] + tail && items[1..][1..] == tail;
    EncodeFirst(items);
    EncodeFirst(items[1..]);
    EncodeTwo(items[2], items[3]);
    EncodeShort(items[0]);
    EncodeShort(items[1]);
  }

  lemma EncodeShort(a: Item)
    requires |a.value| <= 0x7F
    ensures EncodeItem(a) == [a.tag, |a.value|] + a.value
  {
  }

  lemma EncodeWrite(valueBe: Key32, create: bool)
    ensures Encodable(WriteItems(valueBe, create))
    ensures Encode(WriteItems(valueBe, create))
            == (if create then [0x11, 0x09, 0x08] + AUTH_OBJ + [0x04, 0x34, 0x00, 0x00] else [])
               + [0x41, 0x04] + PEER_ID + (if create then [0x42, 0x01, 0x41] else []) + [0x44, 0x20] + valueBe
  {
    hide Encode;
    if create {
      EncodeCreate(valueBe);
    } else {
      EncodeTwo(WriteItems(valueBe, create)[0], WriteItems(valueBe, create)[1]);
    }
  }

  lemma HealthySettle(card: CardState, f: Fate)
    ensures f == HEALTHY ==> Settle(card, f) == card
    ensures Reaches(card, f) && f.answered ==> f == HEALTHY
  {
  }

  lemma WriteAnswer(chip: Chip, b: Body, sid: Challenge, valueBe: Key32, create: bool)
    ensures var hdr := if create then WRITE_PUBLIC_TRANSIENT else WRITE_PUBLIC;
            var items := WriteItems(valueBe, create);
            var r := InSession(chip, b, hdr, items);
            && Extended(b, r.body) && r.body.session == b.session && r.body.selected == b.selected
            && r.body.curves == b.curves && |r.data| == 0 && Cut(r.data, 32) == r.data
            && (Writable(b, create) ==> r.sw == SW_OK)
            && (r.sw == SW_OK ==> PeerIs(r.body, valueBe))
            && (r.sw == SW_OK && create ==>
                  r.body.peers[PEER_ID].transient && r.body.peers[PEER_ID].rights == [0x04, 0x34, 0x00, 0x00])
            && Extended(b, SessionResult(chip, b, sid, hdr, items).body)
  {
  }

  datatype Prepared = Ready | Retry | GiveUp

  /** How one lap of a retried operation ends: with its result, for good, or with the channel given up. */
  datatype Lap = Done(octets: seq<byte>) | Stop | Again

  /** The peer id is not taken by a key pair, and a new peer object could be created. */
  predicate PeerUsable(b: Body) {
    PEER_ID !in b.pairs && CURVE_X25519 in b.curves
  }

  /** No key pair is lost or replaced. */
  predicate PairsKept(a: Body, b: Body) {
    forall id :: id in a.pairs ==> id in b.pairs && b.pairs[id] == a.pairs[id]
  }

  /** Every key pair of `a` is in `b` unchanged, and the only one `b` may add is the one asked for,
      on the curve and with the policy asked for. */
  predicate KeysKept(a: Body, b: Body, objId: ObjectId, curve: byte, policy: seq<byte>) {
    && a.keys == b.keys && a.peers.Keys == b.peers.Keys
    && PairsKept(a, b)
    && (forall id :: id in b.pairs && id !in a.pairs ==> id == Be32(objId) && b.pairs[id].curve == curve && b.pairs[id].rights == policy)
  }

  lemma PreservedKept(a: Body, b: Body, c: Body, objId: ObjectId, curve: byte, policy: seq<byte>)
    requires Preserved(a, b) && KeysKept(b, c, objId, curve, policy)
    ensures KeysKept(a, c, objId, curve, policy)
  {
  }

  lemma PreservedIsKept(a: Body, b: Body, objId: ObjectId, curve: byte, policy: seq<byte>)
    requires Preserved(a, b)
    ensures KeysKept(a, b, objId, curve, policy)
  {
  }

  lemma KeptPreserved(a: Body, b: Body, c: Body, objId: ObjectId, curve: byte, policy: seq<byte>)
    requires KeysKept(a, b, objId, curve, policy) && Preserved(b, c)
    ensures KeysKept(a, c, objId, curve, policy)
  {
  }

  /** The id is free and the card has the curve. */
  predicate Generable(b: Body, objId: ObjectId, curve: byte) {
    Be32(objId) !in b.pairs && Be32(objId) !in b.peers && curve in b.curves
  }

  predicate IsPublicKey(chip: Chip, b: Body, objId: ObjectId, publicKey: seq<byte>) {
    Be32(objId) in b.pairs
    && publicKey == chip.publicKey(b.pairs[Be32(objId)].curve, b.pairs[Be32(objId)].secret)
  }

  function GenerateItems(id: seq<byte>, curve: byte, policy: seq<byte>): seq<Item> {
    [Item(TAG_POLICY, [0x08] + AUTH_OBJ + policy), Item(TAG_1, id), Item(TAG_2, [curve])]
  }

  lemma EncodeGenerate(id: seq<byte>, curve: byte, policy: seq<byte>)
    requires |id| == 4 && |policy| == 4
    ensures Encodable(GenerateItems(id, curve, policy))
    ensures Encode(GenerateItems(id, curve, policy))
            == [0x11, 0x09, 0x08] + AUTH_OBJ + policy + [0x41, 0x04] + id + [0x42, 0x01, curve]
  {
    var items := GenerateItems(id, curve, policy);
    assert items[1..] == [items[1], items[2]];
    EncodeFirst(items);
    EncodeTwo(items[1], items[2]);
  }

  lemma GenerateAnswer(chip: Chip, a: Body, b: Body, sid: Challenge, objId: ObjectId, curve: byte, policy: seq<byte>)
    requires Preserved(a, b) && Be32(objId) !in a.pairs && |policy| == 4
    ensures KeysKept(a, a, objId, curve, policy) && KeysKept(a, b, objId, curve, policy)
    ensures KeysKept(a, SessionResult(chip, b, sid, GENERATE_KEY, GenerateItems(Be32(objId), curve, policy)).body, objId, curve, policy)
    ensures Generable(b, objId, curve) ==>
              var r := InSession(chip, b, GENERATE_KEY, GenerateItems(Be32(objId), curve, policy));
              r.sw == SW_OK && HasPair(r.body, objId, curve, policy) && r.body.session == b.session && r.body.selected == b.selected
  {
    hide Be32;
  }

  lemma KeyAnswer(chip: Chip, b: Body, objId: ObjectId)
    ensures var r := InSession(chip, b, READ_OBJECT, [Item(TAG_1, Be32(objId))]);
            && (Be32(objId) in b.pairs ==> r.sw == SW_OK)
            && (r.sw == SW_OK ==>
                  Value41(r.data).Some? && |Value41(r.data).value| == 32
                  && IsPublicKey(chip, b, objId, Reverse(Value41(r.data).value[..32])))
  {
    hide Value41, EncodeItem, Be32;
    if Be32(objId) in b.pairs {
      var p := b.pairs[Be32(objId)];
      var k := chip.publicKey(p.curve, p.secret);
      Value41OfItem(Reverse(k));
      ReverseTwice(k);
      assert Reverse(k)[..32] == Reverse(k);
    }
  }

  const IDENTITY_OBJ: ObjectId := 0x4D544944

  /** PUT KEY under the card's own DEK, as the card executes it: all of it, or nothing at all. */
  lemma ExecutePutKey(chip: Chip, b: Body, keys: KeySet)
    requires Lawful(chip.cipher)
    ensures var r := Execute(chip, b, SecuredHeader(PUT_KEY), PutKeyData(chip.cipher, keys, b.keys.dek));
            && r.body.pairs == b.pairs && r.body.peers == b.peers
            && (b.selected == SecurityDomain ==> r.sw == SW_OK && r.data == PutKeyEcho(chip.cipher, keys))
            && (r.sw == SW_OK ==> r.body.keys == keys)
            && (r.sw != SW_OK ==> r.body == b)
  {
    hide PutKeyData, PutKey, Parse, PutKeyEcho;
    PutKeyAccepted(chip, b, keys);
    var h := SecuredHeader(PUT_KEY);
    assert h[1] == 0xD8;
    assert SecuredHeader(PROCESS_SESSION)[1] == 5 && SecuredHeader(CREATE_CURVE)[1] == 1;
    assert SecuredHeader(WRITE_USERID)[1] == 0x41 && SecuredHeader(CREATE_SESSION)[1] == 4;
  }

  datatype Call =
    | EnsureAgreement(objId: ObjectId)
    | EnsureSigning(objId: ObjectId)
    | AgreeWith(objId: ObjectId, peer: Key32)
    | SignWith(objId: ObjectId, message: seq<byte>)
    | Rotate

  datatype Report = Report(objId: ObjectId, key: seq<byte>)

  /** A pair that was added may do what its curve is for. */
  predicate PairsAdded(a: Body, b: Body) {
    forall id :: id in b.pairs && id !in a.pairs ==>
      || (b.pairs[id].curve == CURVE_X25519 && MayAgree(b.pairs[id].rights))
      || (b.pairs[id].curve == CURVE_ED25519 && MaySign(b.pairs[id].rights))
  }

  lemma EachKeepsPairs(a: Body, b: Body, objId: ObjectId, curve: byte, policy: seq<byte>)
    requires (curve == CURVE_X25519 && policy == [0x04, 0x3C, 0x00, 0x00]) || (curve == CURVE_ED25519 && policy == [0x18, 0x3C, 0x00, 0x00])
    requires Preserved(a, b) || Extended(a, b) || KeysKept(a, b, objId, curve, policy)
    ensures PairsKept(a, b) && PairsAdded(a, b) && a.keys == b.keys
  {
  }
}
