/** HDLC framing of Reticulum packets over TCP: byte stuffing (the octets of section 4.2 of RFC
    1662) and the bounded streaming decoder. */
module Hdlc {
  import opened Bytes

  const FLAG: byte := 0x7E
  const ESC: byte := 0x7D

  /** XOR with 20: the bit is toggled. */
  function Masked(b: byte): byte {
    if b / 32 % 2 == 1 then b - 32 else b + 32
  }

  /** The mask is the machine's `^ 0x20`; the two octets that are stuffed become 5E and 5D. */
  lemma MaskedIs(b: bv8)
    ensures Masked(b as int) == (b ^ 0x20) as int
    ensures Masked(0x7E) == 0x5E && Masked(0x7D) == 0x5D
  {
    assert (b >> 5) as int == (b as int) / 32;
    assert ((b >> 5) & 1) as int == (b >> 5) as int % 2;
    assert b ^ 0x20 == if (b >> 5) & 1 == 1 then b - 0x20 else b + 0x20;
    assert (b >> 5) & 1 == 1 ==> b >= 0x20;
    assert (b >> 5) & 1 == 0 ==> b <= 0xDF;
  }

  /** Frames of more than `minSize` octets and at most `mtu` are packets. */
  datatype Limits = Limits(minSize: nat, mtu: nat)

  predicate Sized(l: Limits, p: seq<byte>) {
    l.minSize < |p| <= l.mtu
  }

  // ------------------------------------------------------------------ the meaning of a stream

  function NextFlag(s: seq<byte>): (i: nat)
    ensures i <= |s| && (i < |s| ==> s[i] == FLAG) && forall j :: 0 <= j < i ==> s[j] != FLAG
  {
    if s == [] || s[0] == FLAG then 0 else 1 + NextFlag(s[1..])
  }

  /** The stretches of `s` that a flag ends, each without its flag. */
  function Pieces(s: seq<byte>): seq<seq<byte>>
    decreases |s|
  {
    var i := NextFlag(s);
    if i == |s| then [] else [s[..i]] + Pieces(s[i + 1..])
  }

  /** An escape octet masks what follows it; several in a row count as one. */
  function Unescape(p: seq<byte>, esc: bool): seq<byte> {
    if p == [] then []
    else if p[0] == ESC then Unescape(p[1..], true)
    else [if esc then Masked(p[0]) else p[0]] + Unescape(p[1..], false)
  }

  function Packets(l: Limits, pieces: seq<seq<byte>>): seq<seq<byte>> {
    if pieces == [] then []
    else (var u := Unescape(pieces[0], false); if Sized(l, u) then [u] else []) + Packets(l, pieces[1..])
  }

  /** Split at flags, drop what precedes the first, unescape each piece, keep those of packet size. */
  function Reference(l: Limits, s: seq<byte>): seq<seq<byte>> {
    var i := NextFlag(s);
    if i == |s| then [] else Packets(l, Pieces(s[i + 1..]))
  }

  // ------------------------------------------------------------------ the decoder

  datatype Decoder = Decoder(inFrame: bool, escape: bool, rx: seq<byte>)

  const FRESH := Decoder(false, false, [])
  const SYNCED := Decoder(true, false, [])

  function Feed(l: Limits, d: Decoder, b: byte): (Decoder, seq<seq<byte>>) {
    if b == FLAG then (SYNCED, if d.inFrame && |d.rx| > 0 && Sized(l, d.rx) then [d.rx] else [])
    else if !d.inFrame then (d, [])
    else if b == ESC then (d.(escape := true), [])
    else if |d.rx| < 2 * l.mtu then (Decoder(true, false, d.rx + [if d.escape then Masked(b) else b]), [])
    else (Decoder(false, false, []), [])
  }

  function FeedAll(l: Limits, d: Decoder, s: seq<byte>): (Decoder, seq<seq<byte>>)
    decreases |s|
  {
    if s == [] then (d, [])
    else
      var (d1, o1) := Feed(l, d, s[0]);
      var (d2, o2) := FeedAll(l, d1, s[1..]);
      (d2, o1 + o2)
  }

  lemma {:induction false} FeedAppend(l: Limits, d: Decoder, s: seq<byte>, t: seq<byte>)
    ensures var (d1, o1) := FeedAll(l, d, s);
            var (d2, o2) := FeedAll(l, d1, t);
            FeedAll(l, d, s + t) == (d2, o1 + o2)
    decreases |s|
  {
    if s == [] {
      assert s + t == t;
      assert [] + FeedAll(l, d, t).1 == FeedAll(l, d, t).1;
    } else {
      hide Feed;
      var (d1, o1) := Feed(l, d, s[0]);
      FeedAppend(l, d1, s[1..], t);
      assert (s + t)[0] == s[0] && (s + t)[1..] == s[1..] + t;
      var (d2, o2) := FeedAll(l, d1, s[1..]);
      var (d3, o3) := FeedAll(l, d2, t);
      assert (o1 + o2) + o3 == o1 + (o2 + o3);
    }
  }

  lemma FeedOne(l: Limits, d: Decoder, b: byte)
    ensures FeedAll(l, d, [b]) == Feed(l, d, b)
  {
    var (d1, o1) := Feed(l, d, b);
    assert [b][1..] == [] && FeedAll(l, d1, []) == (d1, []);
    assert o1 + [] == o1;
  }

  ghost predicate FlagFree(p: seq<byte>) {
    forall i :: 0 <= i < |p| ==> p[i] != FLAG
  }

  /** Inside a frame the decoder holds the unescaped piece so far, until it outgrows the buffer and
      the rest is ignored. */
  lemma {:induction false} FeedPiece(l: Limits, d: Decoder, p: seq<byte>)
    requires FlagFree(p) && (d.inFrame ==> |d.rx| <= 2 * l.mtu)
    ensures var (d', o) := FeedAll(l, d, p);
            o == []
            && (!d.inFrame ==> !d'.inFrame)
            && (d.inFrame ==>
                  var u := d.rx + Unescape(p, d.escape);
                  d'.inFrame == (|u| <= 2 * l.mtu) && (d'.inFrame ==> d'.rx == u))
    decreases |p|
  {
    if p == [] {
      assert d.rx + [] == d.rx;
    } else {
      var (d1, o1) := Feed(l, d, p[0]);
      FeedPiece(l, d1, p[1..]);
      if d.inFrame && p[0] != ESC {
        var x := if d.escape then Masked(p[0]) else p[0];
        assert d.rx + Unescape(p, d.escape) == (d.rx + [x]) + Unescape(p[1..], false);
      }
    }
  }

  /** One piece and the flag that ends it, from a decoder that has just seen a flag. */
  lemma FeedFrame(l: Limits, p: seq<byte>)
    requires FlagFree(p)
    ensures var u := Unescape(p, false);
            FeedAll(l, SYNCED, p + [FLAG]) == (SYNCED, if Sized(l, u) then [u] else [])
  {
    FeedPiece(l, SYNCED, p);
    assert [] + Unescape(p, false) == Unescape(p, false);
    var (d1, o1) := FeedAll(l, SYNCED, p);
    FeedAppend(l, SYNCED, p, [FLAG]);
    FeedOne(l, d1, FLAG);
    assert [] + Feed(l, d1, FLAG).1 == Feed(l, d1, FLAG).1;
  }

  lemma {:induction false} FeedPieces(l: Limits, s: seq<byte>)
    ensures FeedAll(l, SYNCED, s).1 == Packets(l, Pieces(s))
    decreases |s|
  {
    var i := NextFlag(s);
    if i == |s| {
      FeedPiece(l, SYNCED, s);
    } else {
      hide Unescape, Sized;
      var p, t := s[..i], s[i + 1..];
      assert s == (p + [FLAG]) + t;
      FeedFrame(l, p);
      FeedPieces(l, t);
      FeedAppend(l, SYNCED, p + [FLAG], t);
      assert Pieces(s)[0] == p && Pieces(s)[1..] == Pieces(t);
    }
  }

  /** On every byte stream the bounded decoder delivers exactly what the stream means. */
  lemma Refines(l: Limits, s: seq<byte>)
    ensures FeedAll(l, FRESH, s).1 == Reference(l, s)
  {
    hide FeedAll, Packets, Pieces, Unescape, Sized, NextFlag;
    var i := NextFlag(s);
    FeedPiece(l, FRESH, s[..i]);
    if i < |s| {
      var d := FeedAll(l, FRESH, s[..i]).0;
      assert s == s[..i] + ([FLAG] + s[i + 1..]);
      FeedAppend(l, FRESH, s[..i], [FLAG] + s[i + 1..]);
      FeedAppend(l, d, [FLAG], s[i + 1..]);
      FeedOne(l, d, FLAG);
      FeedPieces(l, s[i + 1..]);
      assert [] + ([] + FeedAll(l, SYNCED, s[i + 1..]).1) == FeedAll(l, SYNCED, s[i + 1..]).1;
    } else {
      assert s[..i] == s;
    }
  }

  /** The receive buffer never outgrows twice the MTU, whatever arrives. */
  lemma {:induction false} BufferBounded(l: Limits, d: Decoder, s: seq<byte>)
    requires |d.rx| <= 2 * l.mtu
    ensures |FeedAll(l, d, s).0.rx| <= 2 * l.mtu
    decreases |s|
  {
    if s == [] {
    } else {
      BufferBounded(l, Feed(l, d, s[0]).0, s[1..]);
    }
  }

  // ------------------------------------------------------------------ the encoder

  function Escape(data: seq<byte>): seq<byte> {
    if data == [] then []
    else (if data[0] == FLAG || data[0] == ESC then [ESC, Masked(data[0])] else [data[0]]) + Escape(data[1..])
  }

  function Encode(data: seq<byte>): seq<byte> {
    [FLAG] + Escape(data) + [FLAG]
  }

  /** A packet of the two special octets and an ordinary one, on the wire. */
  lemma EncodedExample()
    ensures Encode([0x7E, 0x7D, 0x41]) == [0x7E, 0x7D, 0x5E, 0x7D, 0x5D, 0x41, 0x7E]
  {
    var data: seq<byte> := [0x7E, 0x7D, 0x41];
    assert data[1..] == [0x7D, 0x41] && data[1..][1..] == [0x41] && data[1..][1..][1..] == [];
    assert Escape([0x41]) == [0x41];
    assert Escape([0x7D, 0x41]) == [0x7D, 0x5D, 0x41];
  }

  function EncodeAll(packets: seq<seq<byte>>): seq<byte> {
    if packets == [] then [] else Encode(packets[0]) + EncodeAll(packets[1..])
  }

  lemma MaskedTwice(b: byte)
    ensures Masked(Masked(b)) == b
  {
  }

  lemma UnescapeStuffed(b: byte, rest: seq<byte>)
    ensures Unescape([ESC, Masked(b)] + rest, false)
            == if Masked(b) == ESC then Unescape(rest, true) else [b] + Unescape(rest, false)
  {
    var s := [ESC, Masked(b)] + rest;
    assert s[1..] == [Masked(b)] + rest && s[1..][1..] == rest;
    MaskedTwice(b);
  }

  /** Stuffed data contains no flag and unescapes to what it was. */
  lemma {:induction false} EscapeInverse(data: seq<byte>)
    ensures FlagFree(Escape(data)) && Unescape(Escape(data), false) == data
  {
    if data == [] {
    } else {
      EscapeInverse(data[1..]);
      var b, rest := data[0], Escape(data[1..]);
      if b == FLAG || b == ESC {
        UnescapeStuffed(b, rest);
      } else {
        assert ([b] + rest)[1..] == rest;
      }
      assert data == [b] + data[1..];
    }
  }

  /** At most one stray delivery: whatever a decoder was holding when the next frame's flag came. */
  function Stray(l: Limits, d: Decoder): (s: seq<seq<byte>>)
    ensures |s| <= 1
  {
    if d.inFrame && |d.rx| > 0 && Sized(l, d.rx) then [d.rx] else []
  }

  lemma FeedEncoded(l: Limits, d: Decoder, p: seq<byte>)
    requires Sized(l, p)
    ensures FeedAll(l, d, Encode(p)) == (SYNCED, Stray(l, d) + [p])
  {
    EscapeInverse(p);
    FeedFrame(l, Escape(p));
    FeedOne(l, d, FLAG);
    assert Encode(p) == [FLAG] + (Escape(p) + [FLAG]);
    FeedAppend(l, d, [FLAG], Escape(p) + [FLAG]);
  }

  /** Resynchronisation: from any state of the receiver every complete frame fed afterwards is
      delivered, in order, after at most one stray delivery. */
  lemma {:induction false} DeliversAfterAnything(l: Limits, d: Decoder, packets: seq<seq<byte>>)
    requires forall i :: 0 <= i < |packets| ==> Sized(l, packets[i])
    ensures packets != [] ==> FeedAll(l, d, EncodeAll(packets)) == (SYNCED, Stray(l, d) + packets)
    decreases |packets|
  {
    if packets == [] {
    } else {
      hide Encode, Stray, Sized;
      FeedEncoded(l, d, packets[0]);
      DeliversAfterAnything(l, SYNCED, packets[1..]);
      FeedAppend(l, d, Encode(packets[0]), EncodeAll(packets[1..]));
      NoStray(l);
      assert packets == [packets[0]] + packets[1..];
      assert (Stray(l, d) + [packets[0]]) + packets[1..] == Stray(l, d) + packets;
      assert [] + packets[1..] == packets[1..];
      if packets[1..] == [] {
        assert (Stray(l, d) + [packets[0]]) + [] == Stray(l, d) + packets;
      }
    }
  }

  lemma NoStray(l: Limits)
    ensures Stray(l, SYNCED) == [] == Stray(l, FRESH)
  {
  }

  /** Round trip: any sequence of packets of valid size comes out of a fresh decoder as it went into
      the encoder. */
  lemma RoundTrip(l: Limits, packets: seq<seq<byte>>)
    requires forall i :: 0 <= i < |packets| ==> l.minSize < |packets[i]| <= l.mtu
    ensures FeedAll(l, FRESH, EncodeAll(packets)).1 == packets
  {
    DeliversAfterAnything(l, FRESH, packets);
    NoStray(l);
    assert [] + packets == packets;
  }

  /** Nothing else is ever delivered: every packet handed on has a packet's size. */
  lemma {:induction false} DeliveredSized(l: Limits, d: Decoder, s: seq<byte>)
    ensures forall p :: p in FeedAll(l, d, s).1 ==> l.minSize < |p| <= l.mtu
    decreases |s|
  {
    if s != [] {
      DeliveredSized(l, Feed(l, d, s[0]).0, s[1..]);
    }
  }

  // ------------------------------------------------------------------ the driver object

  class TcpClient {
    const limits: Limits
    var inFrame: bool
    var escape: bool
    var rx: seq<byte>
    var incoming: seq<seq<byte>>

    constructor (limits: Limits)
      ensures this.limits == limits && State() == FRESH && incoming == []
    {
      this.limits := limits;
      inFrame, escape, rx, incoming := false, false, [], [];
    }

    function State(): Decoder
      reads this
    {
      Decoder(inFrame, escape, rx)
    }

    method FeedByte(input: byte)
      modifies this
      ensures var (d, o) := Feed(limits, old(State()), input);
              State() == d && incoming == old(incoming) + o
    {
      var b := input;
      if b == FLAG {
        if inFrame && |rx| > 0 {
          if |rx| > limits.minSize && |rx| <= limits.mtu {
            incoming := incoming + [rx];
          }
        }
        inFrame, escape, rx := true, false, [];
        return;
      }
      if !inFrame {
        return;
      }
      if b == ESC {
        escape := true;
        return;
      }
      if escape {
        b := Masked(b);
        escape := false;
      }
      if |rx| < limits.mtu * 2 {
        rx := rx + [b];
      } else {
        inFrame, rx := false, [];
      }
    }

    /** A whole read from the socket, octet by octet. */
    method ReadAvailable(buf: seq<byte>)
      modifies this
      ensures var (d, o) := FeedAll(limits, old(State()), buf);
              State() == d && incoming == old(incoming) + o
    {
      ghost var d0, i0 := State(), incoming;
      assert buf[..0] == [];
      for i := 0 to |buf|
        invariant State() == FeedAll(limits, d0, buf[..i]).0
        invariant incoming == i0 + FeedAll(limits, d0, buf[..i]).1
      {
        assert buf[..i + 1] == buf[..i] + [buf[i]];
        FeedAppend(limits, d0, buf[..i], [buf[i]]);
        FeedOne(limits, State(), buf[i]);
        FeedByte(buf[i]);
      }
      assert buf[..|buf|] == buf;
    }

    /** The frame written for one packet. */
    static method FrameFor(data: seq<byte>) returns (frame: seq<byte>)
      ensures frame == Encode(data)
    {
      frame := [FLAG];
      assert data[0..] == data;
      for i := 0 to |data|
        invariant frame + Escape(data[i..]) == [FLAG] + Escape(data)
      {
        assert data[i..][1..] == data[i + 1..];
        ghost var rest := Escape(data[i + 1..]);
        if data[i] == FLAG || data[i] == ESC {
          assert frame + ([ESC, Masked(data[i])] + rest) == ((frame + [ESC]) + [Masked(data[i])]) + rest;
          frame := frame + [ESC];
          frame := frame + [Masked(data[i])];
        } else {
          assert frame + ([data[i]] + rest) == (frame + [data[i]]) + rest;
          frame := frame + [data[i]];
        }
      }
      assert data[|data|..] == [] && frame + [] == frame;
      frame := frame + [FLAG];
    }
  }
}
