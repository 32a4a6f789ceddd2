/** SCP03 secure messaging (GlobalPlatform Amendment D, section 6.2): how the host wraps a command,
    how the card opens it, how the card protects its response and how the host reads it back. */
module SecureMessaging {
  import opened Bytes
  import opened BlockModes
  import opened Wrappers

  type StatusWord = x: nat | x < 0x1_0000

  const SW_OK: StatusWord := 0x9000
  const SW_NONE: StatusWord := 0xFFFF

  datatype SessionKeys = SessionKeys(senc: Block, smac: Block, srmac: Block)

  /** What host and card each hold of a channel: the session keys, the MAC chaining value and the
      32-bit command counter. */
  datatype Channel = Channel(keys: SessionKeys, mcv: Block, counter: nat)

  function NextCounter(counter: nat): (n: nat)
    ensures n < 0x1_0000_0000
  {
    (counter + 1) % 0x1_0000_0000
  }

  // ------------------------------------------------------------------ padding

  function PadLength(n: nat): nat {
    (n + 16) / 16 * 16
  }

  /** 80 00 .. up to the block size, at least one octet. */
  function Pad(d: seq<byte>): (p: seq<byte>)
    ensures |p| == PadLength(|d|) && |p| % 16 == 0
  {
    d + [0x80] + Zeros(PadLength(|d|) - |d| - 1)
  }

  function StripZeros(p: seq<byte>): seq<byte> {
    if p != [] && p[|p| - 1] == 0 then StripZeros(p[..|p| - 1]) else p
  }

  /** Trailing zeros, then one 80 if that is what they were guarding. */
  function Strip(p: seq<byte>): seq<byte> {
    var q := StripZeros(p);
    if q != [] && q[|q| - 1] == 0x80 then q[..|q| - 1] else q
  }

  lemma {:induction false} StripZerosOfMarker(d: seq<byte>, n: nat)
    ensures StripZeros(d + [0x80] + Zeros(n)) == d + [0x80]
  {
    var p := d + [0x80] + Zeros(n);
    if n == 0 {
      assert p == d + [0x80];
    } else {
      assert p[..|p| - 1] == d + [0x80] + Zeros(n - 1);
      StripZerosOfMarker(d, n - 1);
    }
  }

  /** Stripping undoes padding for every payload, one that itself ends in 80 00 .. included. */
  lemma StripPad(d: seq<byte>)
    ensures Strip(Pad(d)) == d
  {
    StripZerosOfMarker(d, PadLength(|d|) - |d| - 1);
    assert (d + [0x80])[..|d|] == d;
  }

  // ------------------------------------------------------------------ commands

  /** The counter block: the counter in the low octets, 80 on top for a response. */
  function CounterBlock(response: bool, counter: nat): Block
    requires counter < 0x1_0000_0000
  {
    [if response then 0x80 else 0] + Zeros(11) + Be32(counter)
  }

  function Icv(c: Cipher, keys: SessionKeys, response: bool, counter: nat): Block
    requires counter < 0x1_0000_0000
  {
    c.enc(keys.senc, CounterBlock(response, counter))
  }

  /** The class octet with the secure messaging bit set. */
  function SecuredCla(cla: byte): byte {
    if cla / 4 % 2 == 1 then cla else cla + 4
  }

  function SecuredHeader(header: seq<byte>): (h: seq<byte>)
    requires |header| == 4
    ensures |h| == 4
  {
    [SecuredCla(header[0])] + header[1..]
  }

  /** The encrypted data field; a command without data has none. */
  function CommandData(c: Cipher, keys: SessionKeys, counter: nat, data: seq<byte>): (e: seq<byte>)
    requires counter < 0x1_0000_0000
    ensures |e| == if data == [] then 0 else PadLength(|data|)
  {
    if data == [] then [] else CbcEncrypt(c, keys.senc, Icv(c, keys, false, counter), Pad(data))
  }

  /** Data the driver can wrap: its Lc (data plus 8 of MAC) is a single octet. */
  predicate Fits(data: seq<byte>) {
    data == [] || (|data| + 16 <= 256 && PadLength(|data|) + 8 <= 255)
  }

  /** The wrapped command under a channel whose counter was already advanced, and the chaining
      value it leaves behind. */
  function MacInput(c: Cipher, ch: Channel, header: seq<byte>, data: seq<byte>): (m: seq<byte>)
    requires |header| == 4 && ch.counter < 0x1_0000_0000 && Fits(data)
    ensures |m| == 5 + |CommandData(c, ch.keys, ch.counter, data)|
  {
    var e := CommandData(c, ch.keys, ch.counter, data);
    SecuredHeader(header) + [|e| + 8] + e
  }

  function Command(c: Cipher, ch: Channel, header: seq<byte>, data: seq<byte>, le: bool): (seq<byte>, Channel)
    requires |header| == 4 && Fits(data)
  {
    var now := ch.(counter := NextCounter(ch.counter));
    var m := MacInput(c, now, header, data);
    var full := Cmac(c, ch.keys.smac, ch.mcv + m);
    (m + full[..8] + (if le then [0] else []), now.(mcv := full))
  }

  /** The card's side: length, C-MAC over its own chaining value, decryption. */
  function Receive(c: Cipher, ch: Channel, apdu: seq<byte>): Option<(seq<byte>, seq<byte>, Channel)> {
    if |apdu| < 13 then None
    else
      var encLen := (apdu[4] as int) - 8;
      if encLen < 0 || encLen % 16 != 0 || !(13 + encLen <= |apdu| <= 14 + encLen) then None
      else
        var now := ch.(counter := NextCounter(ch.counter));
        var full := Cmac(c, ch.keys.smac, ch.mcv + apdu[..5 + encLen]);
        if apdu[5 + encLen..13 + encLen] != full[..8] then None
        else
          var data := if encLen == 0 then []
                      else Strip(CbcDecrypt(c, ch.keys.senc, Icv(c, ch.keys, false, now.counter), apdu[5..5 + encLen]));
          Some((apdu[..4], data, now.(mcv := full)))
  }

  // ------------------------------------------------------------------ responses

  function StatusBytes(sw: StatusWord): (s: seq<byte>)
    ensures |s| == 2
  {
    [sw / 256, sw % 256]
  }

  function StatusOf(r: seq<byte>): StatusWord {
    if |r| < 2 then SW_NONE else U16(r[|r| - 2], r[|r| - 1])
  }

  /** An R-MAC over the current chaining value, which it does not advance. */
  function RMac(c: Cipher, ch: Channel, enc: seq<byte>, sw: seq<byte>): (m: seq<byte>)
    ensures |m| == 8
  {
    Cmac(c, ch.keys.srmac, ch.mcv + enc + sw)[..8]
  }

  function ResponseData(c: Cipher, ch: Channel, data: seq<byte>): (e: seq<byte>)
    requires ch.counter < 0x1_0000_0000
    ensures |e| % 16 == 0 && |e| == if data == [] then 0 else PadLength(|data|)
  {
    if data == [] then [] else CbcEncrypt(c, ch.keys.senc, Icv(c, ch.keys, true, ch.counter), Pad(data))
  }

  /** What the card sends: protected data and R-MAC with 9000, a bare status word otherwise. */
  function Respond(c: Cipher, ch: Channel, data: seq<byte>, sw: StatusWord): seq<byte>
    requires ch.counter < 0x1_0000_0000
  {
    if sw != SW_OK then StatusBytes(sw)
    else
      var e := ResponseData(c, ch, data);
      e + RMac(c, ch, e, StatusBytes(sw)) + StatusBytes(sw)
  }

  /** What `secureApdu` hands its caller: return value, data, status word, and whether the channel
      is still open. */
  datatype Reply = Reply(ret: int, data: seq<byte>, sw: StatusWord, open: bool)

  const CLOSED := Reply(-1, [], SW_NONE, false)

  /** Status words that say the secure messaging itself was refused. */
  predicate RefusesMessaging(sw: StatusWord) {
    sw == 0x6982 || sw == 0x6987 || sw == 0x6988
  }

  /** The octets the decryption loop reads for `n` octets of data: whole blocks, and `behind`, which the
      answer buffer held before, where the last one would run past the response. */
  function Window(raw: seq<byte>, n: nat, behind: Block): (w: seq<byte>)
    requires n <= |raw|
    ensures |w| % 16 == 0 && n <= |w| < n + 16
    ensures n % 16 == 0 ==> w == raw[..n]
  {
    (raw + behind)[..(n + 15) / 16 * 16]
  }

  /** The host's reading of a response frame. */
  function Read(c: Cipher, ch: Channel, raw: seq<byte>, cap: nat, behind: Block): Reply
    requires ch.counter < 0x1_0000_0000
  {
    var n, sw := |raw|, StatusOf(raw);
    if n < 10 then
      Reply(if n >= 2 then 0 else -1, [], sw, n >= 2 && !RefusesMessaging(sw))
    else
      var encLen := n - 10;
      if 16 + encLen + 2 > 274 then Reply(-1, [], sw, false)
      else if RMac(c, ch, raw[..encLen], raw[n - 2..]) != raw[encLen..encLen + 8] then Reply(-1, [], sw, false)
      else if encLen == 0 then Reply(0, [], sw, true)
      else
        var plain := Strip(CbcDecrypt(c, ch.keys.senc, Icv(c, ch.keys, true, ch.counter), Window(raw, encLen, behind))[..encLen]);
        var len := if |plain| > cap then cap else |plain|;
        Reply(len, plain[..len], sw, true)
  }

  // ------------------------------------------------------------------ transparency

  /** Exactly the payloads of up to 239 octets can be wrapped, and what comes out then fits the
      link's single length octet. */
  lemma FitsIff(data: seq<byte>)
    ensures Fits(data) <==> |data| <= 239
  {
  }

  lemma CommandLength(c: Cipher, ch: Channel, header: seq<byte>, data: seq<byte>, le: bool)
    requires |header| == 4 && Fits(data)
    ensures |Command(c, ch, header, data, le).0| <= 254
  {
  }

  /** A card in step recovers exactly the header (with the security bit) and data the host wrapped,
      and both ends leave with the same channel. */
  lemma ReceiveCommand(c: Cipher, ch: Channel, header: seq<byte>, data: seq<byte>, le: bool)
    requires Lawful(c) && |header| == 4 && Fits(data)
    ensures var (apdu, after) := Command(c, ch, header, data, le);
            Receive(c, ch, apdu) == Some((SecuredHeader(header), data, after))
  {
    hide Cmac, CbcEncrypt, CbcDecrypt, Icv, Strip, Pad;
    var now := ch.(counter := NextCounter(ch.counter));
    var e := CommandData(c, ch.keys, now.counter, data);
    var m := MacInput(c, now, header, data);
    var (apdu, after) := Command(c, ch, header, data, le);
    assert apdu[..5 + |e|] == m && apdu[..4] == SecuredHeader(header) && apdu[4] == |e| + 8;
    assert apdu[5..5 + |e|] == e && apdu[5 + |e|..13 + |e|] == after.mcv[..8];
    if data != [] {
      CbcInverse(c, ch.keys.senc, Icv(c, ch.keys, false, now.counter), Pad(data));
      StripPad(data);
    }
  }

  /** The counter is in the ICV and not in the C-MAC: a card with any other counter still accepts the
      command, keeps the chaining value in step, and sees nothing wrong but the first block of data. */
  lemma OtherCounterAccepted(c: Cipher, ch: Channel, header: seq<byte>, data: seq<byte>, le: bool, counter: nat)
    requires Lawful(c) && |header| == 4 && Fits(data)
    ensures var (apdu, after) := Command(c, ch, header, data, le);
            var r := Receive(c, ch.(counter := counter), apdu);
            && r.Some? && r.value.0 == SecuredHeader(header) && r.value.2.mcv == after.mcv
            && r.value.1 == if data == [] then []
                            else var sent, read := Icv(c, ch.keys, false, NextCounter(ch.counter)), Icv(c, ch.keys, false, NextCounter(counter));
                                 Strip(Xor(Xor(Pad(data)[..16], sent), read) + Pad(data)[16..])
  {
    hide Cmac, CbcEncrypt, CbcDecrypt, Icv, Strip, Pad, Xor;
    var now := ch.(counter := NextCounter(ch.counter));
    var e := CommandData(c, ch.keys, now.counter, data);
    var m := MacInput(c, now, header, data);
    var (apdu, after) := Command(c, ch, header, data, le);
    assert apdu[..5 + |e|] == m && apdu[..4] == SecuredHeader(header) && apdu[4] == |e| + 8;
    assert apdu[5..5 + |e|] == e && apdu[5 + |e|..13 + |e|] == after.mcv[..8];
    if data != [] {
      CbcOtherIv(c, ch.keys.senc, Icv(c, ch.keys, false, now.counter), Icv(c, ch.keys, false, NextCounter(counter)), Pad(data));
    }
  }

  // ------------------------------------------------------------------ the octets

  /** The security bit is bit 2 of the class octet. */
  lemma SecuredClaIs(b: bv8)
    ensures SecuredCla(b as int) == (b | 4) as int
  {
    assert b & 4 == 0 ==> (b | 4) as int == b as int + 4;
    assert b & 4 != 0 ==> b | 4 == b;
    assert (b as int) / 4 == (b >> 2) as int;
    assert ((b >> 2) & 1) as int == (b >> 2) as int % 2;
    assert b & 4 == 0 <==> (b >> 2) & 1 == 0;
  }

  /** ISO/IEC 7816-4 padding: one 80 and the fewest zeros, at least none, that fill the last block. */
  lemma PadOctets(d: seq<byte>)
    ensures var p := Pad(d);
            && |d| < |p| <= |d| + 16 && |p| % 16 == 0
            && p[..|d|] == d && p[|d|] == 0x80 && forall i :: |d| < i < |p| ==> p[i] == 0
  {
    var n := |d| as int;
    assert n % 16 + n / 16 * 16 == n;
  }

  /** The 16 octets that become a message's initial vector: the counter at the end, and the top bit set
      when it is the card that speaks. */
  lemma CounterOctets(response: bool, counter: nat)
    requires counter < 0x1_0000_0000
    ensures var b := CounterBlock(response, counter);
            && b[0] == (if response then 128 else 0) && (forall i :: 1 <= i < 12 ==> b[i] == 0)
            && (((b[12] as int) * 256 + b[13] as int) * 256 + b[14] as int) * 256 + b[15] as int == counter
  {
    var b := CounterBlock(response, counter);
    assert b[12..] == Be32(counter);
    assert b[12] == Be32(counter)[0] && b[13] == Be32(counter)[1] && b[14] == Be32(counter)[2] && b[15] == Be32(counter)[3];
    assert counter / 0x100 == counter / 0x1_0000 * 256 + counter / 0x100 % 256;
    assert counter / 0x1_0000 == counter / 0x100_0000 * 256 + counter / 0x1_0000 % 256;
  }

  /** A wrapped command octet by octet. Its Lc counts the encrypted data and the C-MAC, its data field is
      the padded data under the block of the next counter, and its C-MAC is over the chaining value and
      everything before it. */
  lemma CommandOctets(c: Cipher, ch: Channel, header: seq<byte>, data: seq<byte>, le: bool)
    requires |header| == 4 && Fits(data)
    ensures var (apdu, after) := Command(c, ch, header, data, le);
            var n := if data == [] then 0 else |Pad(data)|;
            && |apdu| == 5 + n + 8 + (if le then 1 else 0) && (le ==> apdu[|apdu| - 1] == 0)
            && apdu[0] == SecuredCla(header[0]) && apdu[1..4] == header[1..] && apdu[4] == n + 8
            && after == Channel(ch.keys, Cmac(c, ch.keys.smac, ch.mcv + apdu[..5 + n]), (ch.counter + 1) % 0x1_0000_0000)
            && apdu[5 + n..5 + n + 8] == after.mcv[..8]
            && (data != [] ==>
                  apdu[5..5 + n] == CbcEncrypt(c, ch.keys.senc, c.enc(ch.keys.senc, CounterBlock(false, after.counter)), Pad(data)))
  {
    hide Cmac, CbcEncrypt, CounterBlock, Pad;
    var now := ch.(counter := NextCounter(ch.counter));
    var e := CommandData(c, ch.keys, now.counter, data);
    var m := MacInput(c, now, header, data);
    var (apdu, after) := Command(c, ch, header, data, le);
    assert apdu[..5 + |e|] == m && apdu[..4] == SecuredHeader(header) && apdu[4] == |e| + 8;
    assert apdu[1..4] == apdu[..4][1..] == header[1..];
    assert apdu[5..5 + |e|] == e && apdu[5 + |e|..13 + |e|] == after.mcv[..8];
  }

  /** A protected answer likewise: the data under the block of the command's own counter with the top bit
      set, the R-MAC under its own key over the chaining value, that data and 90 00, and 90 00. */
  lemma ResponseOctets(c: Cipher, ch: Channel, data: seq<byte>)
    requires ch.counter < 0x1_0000_0000
    ensures var raw := Respond(c, ch, data, SW_OK);
            var n := if data == [] then 0 else |Pad(data)|;
            && |raw| == n + 10 && raw[n + 8..] == [0x90, 0x00]
            && raw[n..n + 8] == Cmac(c, ch.keys.srmac, ch.mcv + raw[..n] + [0x90, 0x00])[..8]
            && (data != [] ==>
                  raw[..n] == CbcEncrypt(c, ch.keys.senc, c.enc(ch.keys.senc, CounterBlock(true, ch.counter)), Pad(data)))
  {
    hide Cmac, CbcEncrypt, CounterBlock, Pad;
    var e := ResponseData(c, ch, data);
    var raw := Respond(c, ch, data, SW_OK);
    assert StatusBytes(SW_OK) == [0x90, 0x00];
    assert raw[..|e|] == e && raw[|e|..|e| + 8] == RMac(c, ch, e, [0x90, 0x00]) && raw[|e| + 8..] == [0x90, 0x00];
  }

  // ------------------------------------------------------------------ chaining over commands

  datatype Request = Request(header: seq<byte>, data: seq<byte>, le: bool)

  ghost predicate Wrappable(rs: seq<Request>) {
    forall i :: 0 <= i < |rs| ==> |rs[i].header| == 4 && Fits(rs[i].data)
  }

  /** A sequence of commands wrapped one after the other: what is sent, and the channel it leaves. */
  ghost function Commands(c: Cipher, ch: Channel, rs: seq<Request>): (r: (seq<seq<byte>>, Channel))
    requires Wrappable(rs)
    ensures |r.0| == |rs|
    decreases |rs|
  {
    if rs == [] then ([], ch)
    else
      var r := rs[|rs| - 1];
      var (sent, now) := Commands(c, ch, rs[..|rs| - 1]);
      var (apdu, after) := Command(c, now, r.header, r.data, r.le);
      (sent + [apdu], after)
  }

  /** The octets of a command on the wire that its C-MAC covers. */
  function Covered(apdu: seq<byte>): seq<byte> {
    if |apdu| < 13 then []
    else
      var n := (apdu[4] as int) - 3;
      if n < 5 || n > |apdu| then [] else apdu[..n]
  }

  /** The chaining value after `n` of the commands on the wire: a CMAC of a CMAC of a CMAC, each over
      the one before and the covered octets of its command. */
  ghost function Nested(c: Cipher, key: Block, mcv: Block, sent: seq<seq<byte>>, n: nat): Block
    requires n <= |sent|
  {
    if n == 0 then mcv else Cmac(c, key, Nested(c, key, mcv, sent, n - 1) + Covered(sent[n - 1]))
  }

  lemma CoveredIsMacInput(c: Cipher, ch: Channel, r: Request)
    requires |r.header| == 4 && Fits(r.data)
    ensures var (apdu, after) := Command(c, ch, r.header, r.data, r.le);
            && after == Channel(ch.keys, Cmac(c, ch.keys.smac, ch.mcv + Covered(apdu)), NextCounter(ch.counter))
            && |apdu| >= |Covered(apdu)| + 8 && apdu[|Covered(apdu)|..|Covered(apdu)| + 8] == after.mcv[..8]
  {
    hide Cmac, CommandData;
    var now := ch.(counter := NextCounter(ch.counter));
    var m := MacInput(c, now, r.header, r.data);
    var (apdu, after) := Command(c, ch, r.header, r.data, r.le);
    assert apdu[..|m|] == m && apdu[4] == |CommandData(c, ch.keys, now.counter, r.data)| + 8;
    assert Covered(apdu) == m;
  }

  lemma {:induction false} NestedPrefix(c: Cipher, key: Block, mcv: Block, sent: seq<seq<byte>>, last: seq<byte>, n: nat)
    requires n <= |sent|
    ensures Nested(c, key, mcv, sent + [last], n) == Nested(c, key, mcv, sent, n)
  {
    hide Cmac, Covered;
    if n > 0 {
      NestedPrefix(c, key, mcv, sent, last, n - 1);
      assert (sent + [last])[n - 1] == sent[n - 1];
    }
  }

  lemma NestedSnoc(c: Cipher, key: Block, mcv: Block, sent: seq<seq<byte>>, last: seq<byte>)
    ensures Nested(c, key, mcv, sent + [last], |sent| + 1) == Cmac(c, key, Nested(c, key, mcv, sent, |sent|) + Covered(last))
  {
    hide Cmac, Covered;
    NestedPrefix(c, key, mcv, sent, last, |sent|);
    assert (sent + [last])[|sent|] == last;
  }

  function Advanced(counter: nat, n: nat): nat {
    (counter + n) % 0x1_0000_0000
  }

  lemma CounterSteps(counter: nat, n: nat)
    ensures NextCounter(Advanced(counter, n)) == Advanced(counter, n + 1)
  {
    var q, r := (counter + n) / 0x1_0000_0000, (counter + n) % 0x1_0000_0000;
    if r + 1 == 0x1_0000_0000 {
      assert counter + n + 1 == 0x1_0000_0000 * (q + 1);
    }
  }

  lemma CommandsLast(c: Cipher, ch: Channel, rs: seq<Request>)
    requires Wrappable(rs) && rs != []
    ensures var n := |rs| - 1;
            && Wrappable(rs[..n]) && |rs[n].header| == 4 && Fits(rs[n].data)
            && var (sent, now) := Commands(c, ch, rs[..n]);
               var (apdu, after) := Command(c, now, rs[n].header, rs[n].data, rs[n].le);
               Commands(c, ch, rs) == (sent + [apdu], after)
  {
    hide Command, Fits;
  }

  lemma ChainStep(c: Cipher, keys: SessionKeys, mcv: Block, counter: nat, sent: seq<seq<byte>>, r: Request)
    requires |r.header| == 4 && Fits(r.data)
    ensures var n := |sent|;
            var now := Channel(keys, Nested(c, keys.smac, mcv, sent, n), Advanced(counter, n));
            var (apdu, after) := Command(c, now, r.header, r.data, r.le);
            after == Channel(keys, Nested(c, keys.smac, mcv, sent + [apdu], n + 1), Advanced(counter, n + 1))
  {
    hide Command, Covered, Cmac, Nested, Advanced, NextCounter, Fits;
    var n := |sent|;
    var now := Channel(keys, Nested(c, keys.smac, mcv, sent, n), Advanced(counter, n));
    CoveredIsMacInput(c, now, r);
    NestedSnoc(c, keys.smac, mcv, sent, Command(c, now, r.header, r.data, r.le).0);
    CounterSteps(counter, n);
  }

  /** Over any number of commands the chaining value is the nested CMAC of what was sent, and the
      counter has advanced once for each. */
  lemma {:induction false} ChainNests(c: Cipher, ch: Channel, rs: seq<Request>)
    requires Wrappable(rs) && ch.counter < 0x1_0000_0000
    ensures var (sent, after) := Commands(c, ch, rs);
            after == Channel(ch.keys, Nested(c, ch.keys.smac, ch.mcv, sent, |rs|), Advanced(ch.counter, |rs|))
    decreases |rs|
  {
    if rs == [] {
    } else {
      hide Command, Commands, Covered, Cmac, Nested, Advanced, NextCounter, Wrappable;
      var n := |rs| - 1;
      CommandsLast(c, ch, rs);
      var (sent, now) := Commands(c, ch, rs[..n]);
      ChainNests(c, ch, rs[..n]);
      ChainStep(c, ch.keys, ch.mcv, ch.counter, sent, rs[n]);
    }
  }

  /** And every command carries the first half of the value up to and including itself. */
  lemma {:induction false} EachCarriesItsMac(c: Cipher, ch: Channel, rs: seq<Request>, k: nat)
    requires Wrappable(rs) && ch.counter < 0x1_0000_0000 && k < |rs|
    ensures var sent := Commands(c, ch, rs).0;
            var m := |Covered(sent[k])|;
            |sent[k]| >= m + 8 && sent[k][m..m + 8] == Nested(c, ch.keys.smac, ch.mcv, sent, k + 1)[..8]
    decreases |rs|
  {
    hide Command, Commands, Covered, Cmac, Nested, Advanced, NextCounter, Wrappable;
    var n := |rs| - 1;
    CommandsLast(c, ch, rs);
    var (sent, now) := Commands(c, ch, rs[..n]);
    var apdu := Command(c, now, rs[n].header, rs[n].data, rs[n].le).0;
    if k < n {
      EachCarriesItsMac(c, ch, rs[..n], k);
      NestedPrefix(c, ch.keys.smac, ch.mcv, sent, apdu, k + 1);
    } else {
      ChainNests(c, ch, rs[..n]);
      CoveredIsMacInput(c, now, rs[n]);
      NestedSnoc(c, ch.keys.smac, ch.mcv, sent, apdu);
    }
  }

  /** The host in step gets back exactly the card's plaintext (cut to the caller's buffer), with
      the channel still open. */
  lemma ReadResponse(c: Cipher, ch: Channel, data: seq<byte>, cap: nat, behind: Block)
    requires Lawful(c) && ch.counter < 0x1_0000_0000 && |data| <= 239
    ensures var len := if |data| > cap then cap else |data|;
            Read(c, ch, Respond(c, ch, data, SW_OK), cap, behind) == Reply(len, data[..len], SW_OK, true)
  {
    hide Cmac, CbcEncrypt, CbcDecrypt, Icv, Strip, Pad;
    var e := ResponseData(c, ch, data);
    var raw := Respond(c, ch, data, SW_OK);
    var s := StatusBytes(SW_OK);
    assert raw[..|e|] == e && raw[|e|..|e| + 8] == RMac(c, ch, e, s) && raw[|raw| - 2..] == s;
    assert StatusOf(raw) == SW_OK;
    if data != [] {
      CbcInverse(c, ch.keys.senc, Icv(c, ch.keys, true, ch.counter), Pad(data));
      StripPad(data);
      assert Window(raw, |e|, behind) == e;
      assert Pad(data)[..|e|] == Pad(data);
    }
  }

  /** A bare status word reaches the caller as it is, and closes the channel exactly when it says
      secure messaging was refused. */
  lemma ReadBareStatus(c: Cipher, ch: Channel, data: seq<byte>, sw: StatusWord, cap: nat, behind: Block)
    requires ch.counter < 0x1_0000_0000 && sw != SW_OK
    ensures Read(c, ch, Respond(c, ch, data, sw), cap, behind) == Reply(0, [], sw, sw !in [0x6982, 0x6987, 0x6988])
    ensures RefusesMessaging(sw) <==> sw in [0x6982, 0x6987, 0x6988]
  {
    assert StatusOf(StatusBytes(sw)) == sw;
  }
}
