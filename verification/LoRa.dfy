/** Splitting a packet over at most two LoRa frames and putting it together again on the other side
    of a channel that loses frames. The only link between two halves is a 3-bit sequence number. */
module LoRa {
  import opened Bytes
  import opened Wrappers

  const HEADER_SPLIT: nat := 0x08
  const SEQ_UNSET: nat := 0xFF
  const LORA_MAX_PAYLOAD: nat := 254
  const HW_MTU: nat := 508

  function IsSplit(h: byte): bool {
    h / 8 % 2 == 1
  }

  function SequenceOf(h: byte): nat {
    h % 8
  }

  // ------------------------------------------------------------------ one packet out

  /** The frames of one packet: its random high nibble, the split bit and the low three bits of the
      transmit counter, then up to 254 octets. Nothing for a packet that two frames cannot hold. */
  function FramesOf(ctr: nat, nibble: byte, data: seq<byte>): seq<seq<byte>>
    requires nibble % 16 == 0
  {
    if |data| <= LORA_MAX_PAYLOAD then [[nibble] + data]
    else if |data| <= 2 * LORA_MAX_PAYLOAD then
      var hdr := nibble + HEADER_SPLIT + ctr % 8;
      [[hdr] + data[..LORA_MAX_PAYLOAD], [hdr] + data[LORA_MAX_PAYLOAD..]]
    else []
  }

  function NextCounter(ctr: nat, data: seq<byte>): nat {
    if LORA_MAX_PAYLOAD < |data| <= 2 * LORA_MAX_PAYLOAD then (ctr + 1) % 256 else ctr
  }

  /** The header octet in the machine's terms: 08 says split, the low three bits are the number. */
  lemma HeaderIs(h: bv8)
    ensures (IsSplit(h as int) <==> h & 0x08 != 0) && SequenceOf(h as int) == (h & 0x07) as int
  {
    assert (h >> 3) as int == (h as int) / 8;
    assert ((h >> 3) & 1) as int == (h >> 3) as int % 2;
    assert h & 0x08 != 0 <==> (h >> 3) & 1 == 1;
  }

  lemma SplitHeaderIs(nibble: bv8, s: bv8)
    requires nibble & 0x0F == 0 && s < 8
    ensures (nibble as int) % 16 == 0 && nibble as int + 0x08 + s as int == (nibble | 0x08 | s) as int
  {
    assert (nibble & 0x0F) as int == (nibble as int) % 16;
    assert nibble | 0x08 | s == nibble + 0x08 + s;
    assert nibble <= 0xF0;
  }

  /** What goes on air for a packet: up to 254 octets in one frame, up to 508 in two, no more. No frame is
      longer than the radio's 255 octets; the two of a packet have the same header; and behind the headers
      are the packet's octets, all of them in order. */
  lemma FrameOctets(ctr: nat, nibble: byte, data: seq<byte>)
    requires nibble % 16 == 0
    ensures var fs := FramesOf(ctr, nibble, data);
            && |fs| == (if |data| <= 254 then 1 else if |data| <= 508 then 2 else 0)
            && (forall i :: 0 <= i < |fs| ==> 1 <= |fs[i]| <= 255)
            && (|fs| == 1 ==> fs[0][0] == nibble && fs[0][1..] == data)
            && (|fs| == 2 ==>
                  && fs[0][0] == fs[1][0] && fs[0][0] as int == nibble as int + 0x08 + ctr % 8
                  && |fs[0]| == 255 && |fs[1]| >= 2 && fs[0][1..] + fs[1][1..] == data)
  {
  }

  // ------------------------------------------------------------------ one frame in

  /** The receiver: sequence number of a first half being held (or SEQ_UNSET), and its octets. */
  datatype Rx = Rx(pending: nat, buffer: seq<byte>)

  const FRESH := Rx(SEQ_UNSET, [])

  function Receive(rx: Rx, frame: seq<byte>): (Rx, seq<seq<byte>>) {
    if |frame| <= 1 then (rx, [])
    else
      var s, body := SequenceOf(frame[0]), frame[1..];
      if !IsSplit(frame[0]) then (Rx(SEQ_UNSET, body), [body])
      else if rx.pending == SEQ_UNSET || rx.pending != s then (Rx(s, body), [])
      else (Rx(SEQ_UNSET, rx.buffer + body), [rx.buffer + body])
  }

  function ReceiveAll(rx: Rx, frames: seq<seq<byte>>): (Rx, seq<seq<byte>>)
    decreases |frames|
  {
    if frames == [] then (rx, [])
    else
      var (rx1, d1) := Receive(rx, frames[0]);
      var (rx2, d2) := ReceiveAll(rx1, frames[1..]);
      (rx2, d1 + d2)
  }

  /** The driver object: the two halves of the interface share one radio. */
  class Interface {
    var rxSeq: nat
    var buffer: seq<byte>
    var txSeqCtr: nat
    var incoming: seq<seq<byte>>
    var air: seq<seq<byte>>

    constructor ()
      ensures rxSeq == SEQ_UNSET && buffer == [] && txSeqCtr == 0 && incoming == [] && air == []
    {
      rxSeq, buffer, txSeqCtr, incoming, air := SEQ_UNSET, [], 0, [], [];
    }

    method Loop(rxBuf: seq<byte>)
      modifies this`rxSeq, this`buffer, this`incoming
      ensures var (rx, d) := Receive(Rx(old(rxSeq), old(buffer)), rxBuf);
              Rx(rxSeq, buffer) == rx && incoming == old(incoming) + d
    {
      if |rxBuf| > 1 {
        var hdr := rxBuf[0];
        var s := SequenceOf(hdr);
        if IsSplit(hdr) {
          if rxSeq == SEQ_UNSET || rxSeq != s {
            rxSeq := s;
            buffer := [];
            buffer := buffer + rxBuf[1..];
          } else {
            buffer := buffer + rxBuf[1..];
            rxSeq := SEQ_UNSET;
            incoming := incoming + [buffer];
          }
        } else {
          if rxSeq != SEQ_UNSET {
            rxSeq := SEQ_UNSET;
          }
          buffer := [];
          buffer := buffer + rxBuf[1..];
          incoming := incoming + [buffer];
        }
      }
    }

    /** `sends` says which of the radio's transmissions succeed; a failed one is a lost frame, and
        the counter has moved on regardless. */
    method SendOutgoing(data: seq<byte>, nibble: byte, sends: nat -> bool) returns (success: bool)
      requires nibble % 16 == 0 && txSeqCtr < 256
      modifies this`txSeqCtr, this`air
      ensures txSeqCtr == NextCounter(old(txSeqCtr), data) && txSeqCtr < 256
      ensures var fs := FramesOf(old(txSeqCtr), nibble, data);
              && air == old(air) + (if |fs| > 0 && sends(0) then [fs[0]] else []) + (if |fs| > 1 && sends(1) then [fs[1]] else [])
              && (success <==> |fs| > 0 && sends(0) && (|fs| > 1 ==> sends(1)))
    {
      if |data| <= LORA_MAX_PAYLOAD {
        success := TransmitFrame([nibble] + data, sends(0));
      } else if |data| <= 2 * LORA_MAX_PAYLOAD {
        var s := txSeqCtr % 8;
        txSeqCtr := (txSeqCtr + 1) % 256;
        var splitHdr := nibble + HEADER_SPLIT + s;
        success := TransmitFrame([splitHdr] + data[..LORA_MAX_PAYLOAD], sends(0));
        var second := TransmitFrame([splitHdr] + data[LORA_MAX_PAYLOAD..], sends(1));
        success := second && success;
      } else {
        success := false;
      }
    }

    method TransmitFrame(frame: seq<byte>, sends: bool) returns (ok: bool)
      modifies this`air
      ensures ok == sends && air == old(air) + if sends then [frame] else []
    {
      if sends {
        air := air + [frame];
      }
      ok := sends;
    }
  }

  // ------------------------------------------------------------------ a transmission history

  /** One packet sent and which of its frames were received (`second` means nothing for a packet of
      one frame, and neither does for one of none). */
  datatype Sent = Sent(nibble: byte, data: seq<byte>, first: bool, second: bool)

  ghost predicate WellFormed(run: seq<Sent>) {
    forall i :: 0 <= i < |run| ==> run[i].nibble % 16 == 0
  }

  predicate IsSplitPacket(p: Sent) {
    LORA_MAX_PAYLOAD < |p.data| <= 2 * LORA_MAX_PAYLOAD
  }

  /** The frames of one packet that reach the receiver. */
  function Arriving(ctr: nat, p: Sent): seq<seq<byte>>
    requires p.nibble % 16 == 0
  {
    var fs := FramesOf(ctr, p.nibble, p.data);
    (if |fs| > 0 && p.first then [fs[0]] else []) + (if |fs| > 1 && p.second then [fs[1]] else [])
  }

  /** What the receiver hears of a whole history, in order. */
  function Heard(ctr: nat, run: seq<Sent>): seq<seq<byte>>
    requires WellFormed(run)
    decreases |run|
  {
    if run == [] then []
    else Arriving(ctr, run[0]) + Heard(NextCounter(ctr, run[0].data), run[1..])
  }

  /** Exactly the packets all of whose frames arrived (an empty packet has nothing to deliver). */
  function Complete(p: Sent): bool {
    if |p.data| <= LORA_MAX_PAYLOAD then |p.data| > 0 && p.first else IsSplitPacket(p) && p.first && p.second
  }

  function Arrived(run: seq<Sent>): seq<seq<byte>>
    decreases |run|
  {
    if run == [] then [] else (if Complete(run[0]) then [run[0].data] else []) + Arrived(run[1..])
  }

  /** `gap` counts the split packets sent since the one whose frame was last received (None before
      the first). Two consecutively received split frames are never 8 or more split packets apart. */
  predicate Close(gap: Option<nat>, run: seq<Sent>)
    decreases |run|
  {
    if run == [] then true
    else if !IsSplitPacket(run[0]) then Close(gap, run[1..])
    else
      var now := if gap.None? then None else Some(gap.value + 1);
      if run[0].first || run[0].second then (now.None? || now.value < 8) && Close(Some(0), run[1..])
      else Close(now, run[1..])
  }

  /** A first half being held came from the split packet `gap` packets ago. */
  predicate Holds(rx: Rx, ctr: nat, gap: Option<nat>) {
    rx.pending == SEQ_UNSET || (gap.Some? && rx.pending < 8 && (rx.pending + gap.value + 1) % 8 == ctr % 8)
  }

  lemma {:induction false} ReceiveAppend(rx: Rx, a: seq<seq<byte>>, b: seq<seq<byte>>)
    ensures var (rx1, d1) := ReceiveAll(rx, a);
            var (rx2, d2) := ReceiveAll(rx1, b);
            ReceiveAll(rx, a + b) == (rx2, d1 + d2)
    decreases |a|
  {
    if a == [] {
      assert a + b == b;
      assert [] + ReceiveAll(rx, b).1 == ReceiveAll(rx, b).1;
    } else {
      hide Receive;
      var (rx1, d1) := Receive(rx, a[0]);
      ReceiveAppend(rx1, a[1..], b);
      assert (a + b)[0] == a[0] && (a + b)[1..] == a[1..] + b;
      var (rx2, d2) := ReceiveAll(rx1, a[1..]);
      var (rx3, d3) := ReceiveAll(rx2, b);
      assert (d1 + d2) + d3 == d1 + (d2 + d3);
    }
  }

  lemma HeaderBits(nibble: byte, ctr: nat)
    requires nibble % 16 == 0
    ensures !IsSplit(nibble)
    ensures var h := nibble + HEADER_SPLIT + ctr % 8; h < 256 && IsSplit(h) && SequenceOf(h) == ctr % 8
  {
    var q := nibble / 16;
    Eights(nibble, 2 * q, 0);
    Eights(nibble + HEADER_SPLIT + ctr % 8, 2 * q + 1, ctr % 8);
  }

  lemma Eights(h: nat, k: nat, m: nat)
    requires h == 8 * k + m && m < 8
    ensures h / 8 == k && h % 8 == m
  {
  }

  lemma ReceiveOne(rx: Rx, f: seq<byte>)
    ensures ReceiveAll(rx, [f]) == Receive(rx, f)
  {
    assert [f][1..] == [];
    var (rx1, d1) := Receive(rx, f);
    assert ReceiveAll(rx1, []) == (rx1, []);
    assert d1 + [] == d1;
  }

  lemma ReceiveTwo(rx: Rx, f: seq<byte>, g: seq<byte>)
    ensures var (rx1, d1) := Receive(rx, f);
            var (rx2, d2) := Receive(rx1, g);
            ReceiveAll(rx, [f, g]) == (rx2, d1 + d2)
  {
    assert [f, g][1..] == [g];
    ReceiveOne(Receive(rx, f).0, g);
  }

  function NextGap(gap: Option<nat>, p: Sent): Option<nat> {
    if !IsSplitPacket(p) then gap
    else if p.first || p.second then Some(0)
    else if gap.None? then None else Some(gap.value + 1)
  }

  /** What one packet does to a receiver that holds nothing from fewer than 8 split packets ago with
      the same number: it delivers the packet if it arrived whole, and nothing else. */
  lemma OnePacket(rx: Rx, ctr: nat, gap: Option<nat>, p: Sent)
    requires p.nibble % 16 == 0 && Holds(rx, ctr, gap)
    requires IsSplitPacket(p) && (p.first || p.second) && gap.Some? ==> gap.value < 7
    ensures var (rx', d) := ReceiveAll(rx, Arriving(ctr, p));
            d == (if Complete(p) then [p.data] else [])
            && Holds(rx', NextCounter(ctr, p.data), NextGap(gap, p))
  {
    hide IsSplit, SequenceOf, ReceiveAll;
    var fs := FramesOf(ctr, p.nibble, p.data);
    HeaderBits(p.nibble, ctr);
    CounterWrap(ctr);
    ReceiveNone(rx);
    if |p.data| <= LORA_MAX_PAYLOAD {
      ReceiveOne(rx, fs[0]);
      assert fs[0][1..] == p.data;
      assert Arriving(ctr, p) == if p.first then [fs[0]] else [];
    } else if IsSplitPacket(p) {
      assert Arriving(ctr, p) == if p.first && p.second then [fs[0], fs[1]] else if p.first then [fs[0]] else if p.second then [fs[1]] else [];
      assert fs[0][1..] + fs[1][1..] == p.data;
      if rx.pending != SEQ_UNSET && (p.first || p.second) {
        DistinctNumbers(rx.pending, gap.value, ctr);
      }
      ReceiveTwo(rx, fs[0], fs[1]);
      ReceiveOne(rx, fs[0]);
      ReceiveOne(rx, fs[1]);
      if gap.Some? {
        GapSteps(rx.pending, gap.value, ctr);
      }
    }
  }

  lemma ReceiveNone(rx: Rx)
    ensures ReceiveAll(rx, []) == (rx, [])
  {
  }

  lemma ModEight(x: nat, k: nat, m: nat)
    requires x == 8 * k + m && m < 8
    ensures x % 8 == m
  {
  }

  lemma LowBitsOfOctet(x: nat)
    ensures x % 256 % 8 == x % 8
  {
    var q, r := x / 256, x % 256;
    ModEight(x, 32 * q + r / 8, r % 8);
  }

  /** The 8-bit counter wraps without disturbing its low three bits. */
  lemma CounterWrap(ctr: nat)
    ensures (ctr + 1) % 256 % 8 == (ctr + 1) % 8 && (ctr % 8 + 0 + 1) % 8 == (ctr + 1) % 8
  {
    LowBitsOfOctet(ctr + 1);
    var q, r := ctr / 8, ctr % 8;
    assert ctr + 1 == 8 * q + (r + 1);
    if r == 7 {
      ModEight(ctr + 1, q + 1, 0);
    } else {
      ModEight(ctr + 1, q, r + 1);
    }
  }

  lemma DistinctNumbers(pending: nat, gap: nat, ctr: nat)
    requires pending < 8 && gap < 7 && (pending + gap + 1) % 8 == ctr % 8
    ensures pending != ctr % 8
  {
  }

  lemma GapSteps(pending: nat, gap: nat, ctr: nat)
    ensures (pending + gap + 1) % 8 == ctr % 8 ==> (pending + (gap + 1) + 1) % 8 == (ctr + 1) % 8
  {
  }

  /** Safety and completeness under loss: with one transmitter and received split frames never 8 or
      more split packets apart, the receiver delivers exactly the packets that arrived whole, in
      order, once each, wherever the 8-bit counter starts or wraps. */
  lemma {:induction false} DeliversExactly(rx: Rx, ctr: nat, gap: Option<nat>, run: seq<Sent>)
    requires WellFormed(run) && Holds(rx, ctr, gap) && Close(gap, run)
    ensures ReceiveAll(rx, Heard(ctr, run)).1 == Arrived(run)
    decreases |run|
  {
    if run == [] {
    } else {
      hide Complete, Arriving, NextCounter, Holds, IsSplitPacket;
      var p := run[0];
      OnePacket(rx, ctr, gap, p);
      var (rx1, d1) := ReceiveAll(rx, Arriving(ctr, p));
      var ctr1 := NextCounter(ctr, p.data);
      DeliversExactly(rx1, ctr1, NextGap(gap, p), run[1..]);
      ReceiveAppend(rx, Arriving(ctr, p), Heard(ctr1, run[1..]));
    }
  }

  /** A history in which every frame of every packet arrived. */
  ghost predicate Lossless(run: seq<Sent>) {
    forall i :: 0 <= i < |run| ==> run[i].first && run[i].second && 1 <= |run[i].data| <= HW_MTU
  }

  function Packets(run: seq<Sent>): seq<seq<byte>> {
    seq(|run|, i requires 0 <= i < |run| => run[i].data)
  }

  lemma {:induction false} LosslessIsClose(gap: Option<nat>, run: seq<Sent>)
    requires Lossless(run) && (gap.None? || gap.value == 0)
    ensures Close(gap, run) && Arrived(run) == Packets(run)
    decreases |run|
  {
    if run == [] {
    } else {
      assert run[0].first && run[0].second && 1 <= |run[0].data| <= HW_MTU;
      LosslessIsClose(if IsSplitPacket(run[0]) then Some(0) else gap, run[1..]);
      assert Packets(run) == [run[0].data] + Packets(run[1..]);
    }
  }

  /** Without loss every packet of 1..508 octets comes out exactly once, in order. */
  lemma LosslessDelivers(ctr: nat, run: seq<Sent>)
    requires WellFormed(run) && Lossless(run)
    ensures ReceiveAll(FRESH, Heard(ctr, run)).1 == Packets(run)
  {
    LosslessIsClose(None, run);
    DeliversExactly(FRESH, ctr, None, run);
  }

  // ------------------------------------------------------------------ the bound is tight

  function Lost(n: nat, d: seq<byte>): seq<Sent> {
    seq(n, _ => Sent(0, d, false, false))
  }

  lemma WrapAdd(ctr: nat, n: nat)
    requires n > 0
    ensures ((ctr + 1) % 256 + (n - 1)) % 256 == (ctr + n) % 256
  {
    var q, y := (ctr + 1) / 256, (ctr + 1) % 256;
    var p, z := (y + n - 1) / 256, (y + n - 1) % 256;
    Mod256(ctr + n, q + p, z);
  }

  lemma Mod256(x: nat, k: nat, m: nat)
    requires x == 256 * k + m && m < 256
    ensures x % 256 == m
  {
  }

  lemma OneLost(ctr: nat, run: seq<Sent>)
    requires run != [] && IsSplitPacket(run[0]) && !run[0].first && !run[0].second && run[0].nibble % 16 == 0
    requires WellFormed(run[1..])
    ensures WellFormed(run) && Heard(ctr, run) == Heard((ctr + 1) % 256, run[1..])
  {
    assert forall i :: 1 <= i < |run| ==> run[i] == run[1..][i - 1];
  }

  lemma {:induction false} LostIsSilent(ctr: nat, n: nat, d: seq<byte>, tail: seq<Sent>)
    requires LORA_MAX_PAYLOAD < |d| <= HW_MTU && WellFormed(tail) && ctr < 256
    ensures WellFormed(Lost(n, d) + tail)
    ensures Heard(ctr, Lost(n, d) + tail) == Heard((ctr + n) % 256, tail)
    decreases n
  {
    hide FramesOf, Heard;
    var run := Lost(n, d) + tail;
    if n == 0 {
      assert run == tail;
    } else {
      assert run[1..] == Lost(n - 1, d) + tail;
      LostIsSilent((ctr + 1) % 256, n - 1, d, tail);
      WrapAdd(ctr, n);
      OneLost(ctr, run);
    }
  }

  /** When only the first half of one split packet and the second half of another get through, with
      `n` split packets lost in between, the two are spliced into a packet nobody sent exactly when
      n + 1 is a multiple of 8. So 8 apart already goes wrong, and 7 never does. */
  lemma SpliceIff(ctr: nat, n: nat, d: seq<byte>, a: Sent, b: Sent)
    requires LORA_MAX_PAYLOAD < |d| <= HW_MTU && IsSplitPacket(a) && IsSplitPacket(b) && ctr < 256
    requires a.nibble % 16 == 0 && b.nibble % 16 == 0 && a.first && !a.second && !b.first && b.second
    ensures WellFormed([a] + (Lost(n, d) + [b]))
    ensures ReceiveAll(FRESH, Heard(ctr, [a] + (Lost(n, d) + [b]))).1
            == if (n + 1) % 8 == 0 then [a.data[..LORA_MAX_PAYLOAD] + b.data[LORA_MAX_PAYLOAD..]] else []
  {
    hide IsSplit, SequenceOf, ReceiveAll;
    var tail := [b];
    var run := [a] + (Lost(n, d) + tail);
    var c1 := (ctr + 1) % 256;
    var c2 := (c1 + n) % 256;
    assert tail[1..] == [];
    LostIsSilent(c1, n, d, tail);
    assert run[1..] == Lost(n, d) + tail && WellFormed(run);
    var fa, fb := FramesOf(ctr, a.nibble, a.data), FramesOf(c2, b.nibble, b.data);
    assert Heard(c2, tail) == Arriving(c2, b) + Heard(NextCounter(c2, b.data), []);
    assert Heard(ctr, run) == Arriving(ctr, a) + Heard(c1, run[1..]);
    assert Heard(ctr, run) == [fa[0], fb[1]];
    ReceiveTwo(FRESH, fa[0], fb[1]);
    HeaderBits(a.nibble, ctr);
    HeaderBits(b.nibble, c2);
    SameNumberIff(ctr, n);
    assert fa[0][1..] == a.data[..LORA_MAX_PAYLOAD] && fb[1][1..] == b.data[LORA_MAX_PAYLOAD..];
  }

  lemma SameNumberIff(ctr: nat, n: nat)
    ensures ctr % 8 == ((ctr + 1) % 256 + n) % 256 % 8 <==> (n + 1) % 8 == 0
  {
    WrapAdd(ctr, n + 1);
    LowBitsOfOctet(ctr + n + 1);
    var q, r, p, s := ctr / 8, ctr % 8, (n + 1) / 8, (n + 1) % 8;
    if r + s < 8 {
      ModEight(ctr + n + 1, q + p, r + s);
    } else {
      ModEight(ctr + n + 1, q + p + 1, r + s - 8);
    }
  }

  // ------------------------------------------------------------------ exactly when nothing is spliced

  /** A received frame and the number of the packet it belongs to. */
  datatype Tagged = Tagged(octets: seq<byte>, from: nat)

  /** A delivered packet and the packets its halves belong to. */
  datatype Delivery = Delivery(octets: seq<byte>, from: seq<nat>)

  /** `Receive` on tagged frames: `held` is the packet of the half being held. */
  function ReceiveFrom(rx: Rx, held: nat, f: Tagged): (Rx, nat, seq<Delivery>) {
    if |f.octets| <= 1 then (rx, held, [])
    else
      var s, body := SequenceOf(f.octets[0]), f.octets[1..];
      if !IsSplit(f.octets[0]) then (Rx(SEQ_UNSET, body), held, [Delivery(body, [f.from])])
      else if rx.pending == SEQ_UNSET || rx.pending != s then (Rx(s, body), f.from, [])
      else (Rx(SEQ_UNSET, rx.buffer + body), held, [Delivery(rx.buffer + body, [held, f.from])])
  }

  function ReceiveAllFrom(rx: Rx, held: nat, fs: seq<Tagged>): (Rx, nat, seq<Delivery>)
    decreases |fs|
  {
    if fs == [] then (rx, held, [])
    else
      var (rx1, held1, d1) := ReceiveFrom(rx, held, fs[0]);
      var (rx2, held2, d2) := ReceiveAllFrom(rx1, held1, fs[1..]);
      (rx2, held2, d1 + d2)
  }

  function Untagged(fs: seq<Tagged>): (s: seq<seq<byte>>)
    ensures |s| == |fs|
  {
    seq(|fs|, i requires 0 <= i < |fs| => fs[i].octets)
  }

  function Contents(ds: seq<Delivery>): (s: seq<seq<byte>>)
    ensures |s| == |ds|
  {
    seq(|ds|, i requires 0 <= i < |ds| => ds[i].octets)
  }

  lemma StepIsSilent(rx: Rx, held: nat, f: Tagged)
    ensures Receive(rx, f.octets) == (ReceiveFrom(rx, held, f).0, Contents(ReceiveFrom(rx, held, f).2))
  {
    hide IsSplit, SequenceOf;
    var ds := ReceiveFrom(rx, held, f).2;
    assert |ds| == 1 ==> Contents(ds) == [ds[0].octets];
    assert |ds| == 0 ==> Contents(ds) == [];
  }

  /** The tags change nothing: what is delivered is what the receiver delivers. */
  lemma {:induction false} TagsAreSilent(rx: Rx, held: nat, fs: seq<Tagged>)
    ensures ReceiveAll(rx, Untagged(fs)) == (ReceiveAllFrom(rx, held, fs).0, Contents(ReceiveAllFrom(rx, held, fs).2))
    decreases |fs|
  {
    if fs == [] {
    } else {
      hide IsSplit, SequenceOf;
      var (rx1, held1, d1) := ReceiveFrom(rx, held, fs[0]);
      TagsAreSilent(rx1, held1, fs[1..]);
      assert Untagged(fs)[1..] == Untagged(fs[1..]);
      var d2 := ReceiveAllFrom(rx1, held1, fs[1..]).2;
      assert Contents(d1 + d2) == Contents(d1) + Contents(d2);
      StepIsSilent(rx, held, fs[0]);
    }
  }

  function Tag(fs: seq<seq<byte>>, id: nat): (r: seq<Tagged>)
    ensures |r| == |fs|
  {
    seq(|fs|, i requires 0 <= i < |fs| => Tagged(fs[i], id))
  }

  /** `Heard`, with every frame tagged by its packet, the first of the run having number `id`. */
  function HeardFrom(ctr: nat, id: nat, run: seq<Sent>): seq<Tagged>
    requires WellFormed(run)
    decreases |run|
  {
    if run == [] then []
    else Tag(Arriving(ctr, run[0]), id) + HeardFrom(NextCounter(ctr, run[0].data), id + 1, run[1..])
  }

  lemma {:induction false} HeardUntagged(ctr: nat, id: nat, run: seq<Sent>)
    requires WellFormed(run)
    ensures Untagged(HeardFrom(ctr, id, run)) == Heard(ctr, run)
    decreases |run|
  {
    if run == [] {
    } else {
      hide Arriving, NextCounter;
      var head := Arriving(ctr, run[0]);
      var tail := HeardFrom(NextCounter(ctr, run[0].data), id + 1, run[1..]);
      HeardUntagged(NextCounter(ctr, run[0].data), id + 1, run[1..]);
      assert Untagged(Tag(head, id) + tail) == head + Untagged(tail);
    }
  }

  /** Every delivered packet is made of halves of one packet. */
  ghost predicate Genuine(ds: seq<Delivery>) {
    forall i :: 0 <= i < |ds| ==> OfOne(ds[i])
  }

  predicate OfOne(d: Delivery) {
    |d.from| == 1 || (|d.from| == 2 && d.from[0] == d.from[1])
  }

  /** How many split packets ago the half now held was sent, if one is held. A packet of one frame that
      is received clears it; a split packet of which one half is received becomes the one held. */
  function GapAfter(gap: Option<nat>, p: Sent): Option<nat> {
    if IsSplitPacket(p) then
      if p.first && p.second then None
      else if p.first || p.second then Some(0)
      else if gap.None? then None else Some(gap.value + 1)
    else if Complete(p) then None
    else gap
  }

  /** No frame of a split packet is received while a half of an earlier one is held that was sent a
      multiple of 8 split packets before it. */
  predicate Spaced(gap: Option<nat>, run: seq<Sent>)
    decreases |run|
  {
    run == [] || (!Meets(gap, run[0]) && Spaced(GapAfter(gap, run[0]), run[1..]))
  }

  predicate Meets(gap: Option<nat>, p: Sent) {
    IsSplitPacket(p) && (p.first || p.second) && gap.Some? && (gap.value + 1) % 8 == 0
  }

  /** The receiver holds a half exactly when `gap` says so, and which. */
  predicate HoldsExactly(rx: Rx, ctr: nat, gap: Option<nat>) {
    if gap.None? then rx.pending == SEQ_UNSET else rx.pending < 8 && (rx.pending + gap.value + 1) % 8 == ctr % 8
  }

  lemma FromNone(rx: Rx, held: nat)
    ensures ReceiveAllFrom(rx, held, []) == (rx, held, [])
  {
  }

  lemma FromEmpty(rx: Rx, held: nat)
    ensures ReceiveAllFrom(rx, held, [] + []) == (rx, held, [])
  {
    var none: seq<Tagged> := [];
    assert none + none == [];
    FromNone(rx, held);
  }

  lemma FromOne(rx: Rx, held: nat, f: Tagged)
    ensures ReceiveAllFrom(rx, held, [f]) == ReceiveFrom(rx, held, f)
  {
    assert [f][1..] == [];
    var (rx1, held1, d1) := ReceiveFrom(rx, held, f);
    FromNone(rx1, held1);
    assert d1 + [] == d1;
  }

  lemma FromTwo(rx: Rx, held: nat, f: Tagged, g: Tagged)
    ensures var (rx1, held1, d1) := ReceiveFrom(rx, held, f);
            var (rx2, held2, d2) := ReceiveFrom(rx1, held1, g);
            ReceiveAllFrom(rx, held, [f, g]) == (rx2, held2, d1 + d2)
  {
    assert [f, g][1..] == [g];
    FromOne(ReceiveFrom(rx, held, f).0, ReceiveFrom(rx, held, f).1, g);
  }

  /** The half held has the number of the packet now sent exactly when it was sent a multiple of 8 split
      packets before it. */
  lemma SameNumberAgain(pending: nat, gap: nat, ctr: nat)
    requires pending < 8 && (pending + gap + 1) % 8 == ctr % 8
    ensures pending == ctr % 8 <==> (gap + 1) % 8 == 0
  {
    var q, r := (gap + 1) / 8, (gap + 1) % 8;
    if pending + r < 8 {
      ModEight(pending + gap + 1, q, pending + r);
    } else {
      ModEight(pending + gap + 1, q + 1, pending + r - 8);
    }
  }

  lemma DeliversOne(d: Delivery)
    ensures Contents([d]) == [d.octets] && (Genuine([d]) <==> OfOne(d)) && Contents([]) == [] && Genuine([])
  {
    assert [d][0] == d;
  }

  /** A packet of one frame, or one that two frames cannot hold. */
  lemma UnsplitFrom(rx: Rx, held: nat, ctr: nat, gap: Option<nat>, id: nat, p: Sent)
    requires p.nibble % 16 == 0 && HoldsExactly(rx, ctr, gap) && (gap.Some? ==> held < id) && !IsSplitPacket(p)
    ensures var (rx1, held1, ds) := ReceiveAllFrom(rx, held, Tag(Arriving(ctr, p), id));
            && HoldsExactly(rx1, NextCounter(ctr, p.data), GapAfter(gap, p))
            && (GapAfter(gap, p).Some? ==> held1 < id + 1)
            && Genuine(ds) && Contents(ds) == (if Complete(p) then [p.data] else [])
  {
    hide IsSplit, SequenceOf, ReceiveAllFrom, Genuine, Contents;
    HeaderBits(p.nibble, ctr);
    FromNone(rx, held);
    DeliversOne(Delivery(p.data, [id]));
    if |p.data| <= LORA_MAX_PAYLOAD && p.first {
      var f := [p.nibble] + p.data;
      assert Tag(Arriving(ctr, p), id) == [Tagged(f, id)] && f[1..] == p.data;
      FromOne(rx, held, Tagged(f, id));
    } else {
      assert Tag(Arriving(ctr, p), id) == [];
    }
  }

  /** What arrives of a split packet. */
  lemma SplitTags(ctr: nat, id: nat, p: Sent)
    requires p.nibble % 16 == 0 && IsSplitPacket(p)
    ensures var fs := FramesOf(ctr, p.nibble, p.data);
            var f, g := Tagged(fs[0], id), Tagged(fs[1], id);
            && Tag(Arriving(ctr, p), id) == (if p.first then [f] else []) + (if p.second then [g] else [])
            && |f.octets| > 1 && |g.octets| > 1 && f.octets[1..] + g.octets[1..] == p.data
            && IsSplit(f.octets[0]) && SequenceOf(f.octets[0]) == ctr % 8
            && IsSplit(g.octets[0]) && SequenceOf(g.octets[0]) == ctr % 8
  {
    hide IsSplit, SequenceOf;
    HeaderBits(p.nibble, ctr);
  }

  /** A split packet. */
  lemma SplitFrom(rx: Rx, held: nat, ctr: nat, gap: Option<nat>, id: nat, p: Sent)
    requires p.nibble % 16 == 0 && HoldsExactly(rx, ctr, gap) && (gap.Some? ==> held < id) && IsSplitPacket(p)
    ensures var (rx1, held1, ds) := ReceiveAllFrom(rx, held, Tag(Arriving(ctr, p), id));
            if Meets(gap, p) then |ds| == 1 && ds[0].from == [held, id] && held != id
            else
              && HoldsExactly(rx1, NextCounter(ctr, p.data), GapAfter(gap, p))
              && (GapAfter(gap, p).Some? ==> held1 < id + 1)
              && Genuine(ds) && Contents(ds) == (if Complete(p) then [p.data] else [])
  {
    hide IsSplit, SequenceOf, ReceiveAllFrom, Genuine, Contents, Arriving, Tag;
    SplitTags(ctr, id, p);
    var fs := FramesOf(ctr, p.nibble, p.data);
    var f, g := Tagged(fs[0], id), Tagged(fs[1], id);
    var none: seq<Delivery> := [];
    assert none + [Delivery(p.data, [id, id])] == [Delivery(p.data, [id, id])];
    CounterWrap(ctr);
    DeliversOne(Delivery(p.data, [id, id]));
    if gap.Some? {
      SameNumberAgain(rx.pending, gap.value, ctr);
      GapSteps(rx.pending, gap.value, ctr);
    }
    if p.first && p.second {
      assert [f] + [g] == [f, g];
      FromTwo(rx, held, f, g);
    } else if p.first {
      assert [f] + [] == [f];
      FromOne(rx, held, f);
    } else if p.second {
      assert [] + [g] == [g];
      FromOne(rx, held, g);
    } else {
      FromEmpty(rx, held);
      FromNone(rx, held);
    }
  }

  lemma {:induction false} FromAppend(rx: Rx, held: nat, a: seq<Tagged>, b: seq<Tagged>)
    ensures var (rx1, held1, d1) := ReceiveAllFrom(rx, held, a);
            var (rx2, held2, d2) := ReceiveAllFrom(rx1, held1, b);
            ReceiveAllFrom(rx, held, a + b) == (rx2, held2, d1 + d2)
    decreases |a|
  {
    hide ReceiveFrom;
    if a == [] {
      assert a + b == b;
      assert [] + ReceiveAllFrom(rx, held, b).2 == ReceiveAllFrom(rx, held, b).2;
    } else {
      assert (a + b)[0] == a[0] && (a + b)[1..] == a[1..] + b;
      var (rx1, held1, d1) := ReceiveFrom(rx, held, a[0]);
      FromAppend(rx1, held1, a[1..], b);
      var (rx2, held2, d2) := ReceiveAllFrom(rx1, held1, a[1..]);
      assert (d1 + d2) + ReceiveAllFrom(rx2, held2, b).2 == d1 + (d2 + ReceiveAllFrom(rx2, held2, b).2);
    }
  }

  lemma GenuineParts(a: seq<Delivery>, b: seq<Delivery>)
    ensures Genuine(a + b) <==> Genuine(a) && Genuine(b)
    ensures Contents(a + b) == Contents(a) + Contents(b)
  {
    assert forall i :: 0 <= i < |a| ==> (a + b)[i] == a[i];
    assert forall i :: 0 <= i < |b| ==> (a + b)[|a| + i] == b[i];
  }

  lemma Spliced(ds: seq<Delivery>, held: nat, id: nat)
    requires |ds| == 1 && ds[0].from == [held, id] && held != id
    ensures !Genuine(ds)
  {
    assert !OfOne(ds[0]);
  }

  lemma {:induction false} SplicedIff(rx: Rx, held: nat, ctr: nat, gap: Option<nat>, id: nat, run: seq<Sent>)
    requires WellFormed(run) && HoldsExactly(rx, ctr, gap) && (gap.Some? ==> held < id)
    ensures var ds := ReceiveAllFrom(rx, held, HeardFrom(ctr, id, run)).2;
            (Genuine(ds) <==> Spaced(gap, run)) && (Spaced(gap, run) ==> Contents(ds) == Arrived(run))
    decreases |run|
  {
    if run == [] {
      FromNone(rx, held);
    } else {
      hide Complete, Arriving, NextCounter, HoldsExactly, IsSplitPacket, Genuine, Contents, ReceiveAllFrom, Meets, GapAfter, Tag;
      hide HeardFrom, Receive, WellFormed, Spaced, Arrived;
      var p := run[0];
      SpacedStep(gap, run);
      var head := Tag(Arriving(ctr, p), id);
      var (rx1, held1, d1) := ReceiveAllFrom(rx, held, head);
      OnePacketFrom(rx, held, ctr, gap, id, p);
      HeardStep(rx, held, ctr, id, run);
      if Meets(gap, p) {
        Spliced(d1, held, id);
      } else {
        SplicedIff(rx1, held1, NextCounter(ctr, p.data), GapAfter(gap, p), id + 1, run[1..]);
      }
    }
  }

  lemma SpacedStep(gap: Option<nat>, run: seq<Sent>)
    requires run != []
    ensures Spaced(gap, run) <==> !Meets(gap, run[0]) && Spaced(GapAfter(gap, run[0]), run[1..])
    ensures Arrived(run) == (if Complete(run[0]) then [run[0].data] else []) + Arrived(run[1..])
  {
    hide Meets, GapAfter, Complete;
  }

  /** A run as its first packet and the rest. */
  lemma HeardStep(rx: Rx, held: nat, ctr: nat, id: nat, run: seq<Sent>)
    requires WellFormed(run) && run != []
    ensures WellFormed(run[1..]) && run[0].nibble % 16 == 0
    ensures var (rx1, held1, d1) := ReceiveAllFrom(rx, held, Tag(Arriving(ctr, run[0]), id));
            var d2 := ReceiveAllFrom(rx1, held1, HeardFrom(NextCounter(ctr, run[0].data), id + 1, run[1..])).2;
            var ds := ReceiveAllFrom(rx, held, HeardFrom(ctr, id, run)).2;
            (Genuine(ds) <==> Genuine(d1) && Genuine(d2)) && Contents(ds) == Contents(d1) + Contents(d2)
  {
    hide Arriving, NextCounter, Genuine, Contents, ReceiveAllFrom, Tag;
    var head := Tag(Arriving(ctr, run[0]), id);
    var tail := HeardFrom(NextCounter(ctr, run[0].data), id + 1, run[1..]);
    FromAppend(rx, held, head, tail);
    var (rx1, held1, d1) := ReceiveAllFrom(rx, held, head);
    GenuineParts(d1, ReceiveAllFrom(rx1, held1, tail).2);
  }

  /** Exactly when: over any transmission history and any losses, no delivered packet is spliced from two
      if and only if no received split frame meets a held half sent a multiple of 8 split packets before;
      and then exactly the packets that arrived whole are delivered, in order, once each. */
  lemma NothingSplicedIff(rx: Rx, held: nat, ctr: nat, gap: Option<nat>, id: nat, run: seq<Sent>)
    requires WellFormed(run) && HoldsExactly(rx, ctr, gap) && (gap.Some? ==> held < id)
    ensures var ds := ReceiveAllFrom(rx, held, HeardFrom(ctr, id, run)).2;
            && (Genuine(ds) <==> Spaced(gap, run))
            && ReceiveAll(rx, Heard(ctr, run)).1 == Contents(ds)
            && (Spaced(gap, run) ==> ReceiveAll(rx, Heard(ctr, run)).1 == Arrived(run))
  {
    hide HeardFrom, Heard, ReceiveAll, ReceiveAllFrom, Genuine, Contents, Untagged, Spaced, HoldsExactly;
    HeardUntagged(ctr, id, run);
    TagsAreSilent(rx, held, HeardFrom(ctr, id, run));
    SplicedIff(rx, held, ctr, gap, id, run);
  }

  /** One packet: it keeps the receiver's relation to `gap` and delivers itself or nothing, unless it
      meets a half with its number; then the first delivery is spliced. */
  lemma OnePacketFrom(rx: Rx, held: nat, ctr: nat, gap: Option<nat>, id: nat, p: Sent)
    requires p.nibble % 16 == 0 && HoldsExactly(rx, ctr, gap) && (gap.Some? ==> held < id)
    ensures var (rx1, held1, ds) := ReceiveAllFrom(rx, held, Tag(Arriving(ctr, p), id));
            if Meets(gap, p) then |ds| == 1 && ds[0].from == [held, id] && held != id
            else
              && HoldsExactly(rx1, NextCounter(ctr, p.data), GapAfter(gap, p))
              && (GapAfter(gap, p).Some? ==> held1 < id + 1)
              && Genuine(ds) && Contents(ds) == (if Complete(p) then [p.data] else [])
  {
    hide ReceiveAllFrom, Tag, Arriving, HoldsExactly, GapAfter, Genuine, Contents, Complete;
    if IsSplitPacket(p) {
      SplitFrom(rx, held, ctr, gap, id, p);
    } else {
      UnsplitFrom(rx, held, ctr, gap, id, p);
    }
  }

  /** Fewer than 8 apart is enough, from a receiver that holds nothing. */
  lemma {:induction false} CloseIsSpaced(gap: Option<nat>, other: Option<nat>, run: seq<Sent>)
    requires Close(gap, run) && (other.Some? ==> gap == other)
    ensures Spaced(other, run)
    decreases |run|
  {
    if run == [] {
    } else {
      var p := run[0];
      var now := if gap.None? then None else Some(gap.value + 1);
      var next := if !IsSplitPacket(p) then gap else if p.first || p.second then Some(0) else now;
      CloseIsSpaced(next, GapAfter(other, p), run[1..]);
    }
  }
}
