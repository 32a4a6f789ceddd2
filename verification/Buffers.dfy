/** The driver's fixed buffers: what is written into each fits it, for every input that is accepted,
    and every one-octet length holds the length it stands for. */
module Buffers {
  import opened Bytes
  import opened BlockModes
  import opened Tlv
  import opened SecureMessaging
  import opened Card
  import opened ChannelProtocol
  import opened Rotation
  import opened Driver
  import Link

  const FRAME: nat := 288
  const APDU: nat := 300
  const PADDED: nat := 256
  const MAC_INPUT: nat := 274
  const PLAIN: nat := 256
  const CHAINED: nat := 16 + 288
  const SESSION: nat := 288

  // ------------------------------------------------------------------ a command on its way out

  /** `sessionBuf`: the check on the inner length is enough for the whole frame, and it refuses no
      frame that the secure channel would take. */
  lemma SessionBuffer(sid: Challenge, header: seq<byte>, data: seq<byte>, answers: bool)
    requires |header| == 4 && |data| <= 0xFF00
    ensures 14 + |Inner(header, data, answers)| <= SESSION ==> |Frame(sid, header, data, answers)| <= SESSION
    ensures FrameFits(sid, header, data, answers) ==> 14 + |Inner(header, data, answers)| <= SESSION
  {
    FitsIff(Frame(sid, header, data, answers));
    FrameLength(sid, header, data, answers);
  }

  lemma FrameLength(sid: Challenge, header: seq<byte>, data: seq<byte>, answers: bool)
    requires |header| == 4 && |data| <= 0xFF00
    ensures var n := |Inner(header, data, answers)|;
            11 + n < |Frame(sid, header, data, answers)| <= 14 + n
  {
    hide Inner;
    InnerLength(header, data, answers);
  }

  /** `padBuf` and `encBuf`: padded and encrypted data of an accepted payload. */
  lemma PaddingBuffers(c: Cipher, keys: SessionKeys, counter: nat, data: seq<byte>)
    requires Fits(data) && counter < 0x1_0000_0000
    ensures data != [] ==> |Pad(data)| == PadLength(|data|) <= 240 <= PADDED
    ensures |CommandData(c, keys, counter, data)| <= 240 <= PADDED
  {
    FitsIff(data);
  }

  /** `chainedCmac`'s buffer: chaining value and everything before the C-MAC. */
  lemma ChainedCmacBuffer(c: Cipher, ch: Channel, header: seq<byte>, data: seq<byte>)
    requires |header| == 4 && ch.counter < 0x1_0000_0000 && Fits(data)
    ensures |ch.mcv + MacInput(c, ch, header, data)| <= 261 <= CHAINED
    ensures MacInput(c, ch, header, data)[4] == |CommandData(c, ch.keys, ch.counter, data)| + 8 <= 248
  {
    PaddingBuffers(c, ch.keys, ch.counter, data);
  }

  /** `apduOut`, and the link's one-octet length over it. */
  lemma CommandBuffer(c: Cipher, ch: Channel, header: seq<byte>, data: seq<byte>, le: bool)
    requires |header| == 4 && Fits(data)
    ensures |Command(c, ch, header, data, le).0| <= 254 <= APDU
  {
    CommandLength(c, ch, header, data, le);
  }

  /** `txFrame`: the block around an accepted APDU, whose length octet is its length. */
  lemma TransmitBuffer(ns: bool, apdu: seq<Link.octet>)
    requires |apdu| <= 255
    ensures |Link.IBlock(ns, apdu)| <= 260 <= FRAME && Link.Announced(Link.IBlock(ns, apdu)[2]) == |apdu|
  {
    Link.IBlockWellFormed(ns, apdu);
  }

  // ------------------------------------------------------------------ an answer on its way in

  /** `rxFrame`: header and announced body, whatever the bus delivers. */
  lemma ReceiveBuffer(bus: Link.Bus, k: nat, attempts: nat)
    ensures |Link.Received(bus, k, attempts, FRAME)| <= 260 <= FRAME
  {
    hide Link.CrcOk, Link.Announced;
  }

  /** `macBuf` and `plainBuf`: an answer that passes the one length check fits the R-MAC input, and
      its ciphertext rounded up to whole blocks, as the decryption loop writes it, fits the plaintext
      buffer and is read inside the answer buffer. */
  lemma ResponseBuffers(c: Cipher, ch: Channel, iv: Block, raw: seq<byte>, behind: Block)
    requires |raw| >= 10 && 16 + (|raw| - 10) + 2 <= MAC_INPUT
    ensures |ch.mcv + raw[..|raw| - 10] + raw[|raw| - 2..]| <= MAC_INPUT
    ensures |Window(raw, |raw| - 10, behind)| <= PLAIN <= APDU
    ensures |CbcDecrypt(c, ch.keys.senc, iv, Window(raw, |raw| - 10, behind))| <= PLAIN
  {
  }

  /** No payload of the link fails that check, or the one before the decryption: neither ever refuses. */
  lemma LinkAnswersAreChecked(bus: Link.Bus, k: nat, attempts: nat)
    ensures var rx := Link.Await(bus, k, 0, attempts, FRAME).0;
            rx != [] ==>
              var answer := rx[3..3 + Link.Announced(rx[2])];
              16 + (|answer| - 10) + 2 <= MAC_INPUT && |answer| - 10 <= PLAIN && |answer| <= APDU
  {
    hide Link.Announced, Link.Await;
  }

  /** The caller's buffer: what is handed on fits it, whatever came. */
  lemma CallersBuffer(c: Cipher, ch: Channel, raw: seq<byte>, cap: nat, behind: Block)
    requires ch.counter < 0x1_0000_0000
    ensures var r := Read(c, ch, raw, cap, behind); |r.data| <= cap && (r.ret >= 0 ==> |r.data| == r.ret)
  {
    hide CbcDecrypt, Strip, Window, RMac, Icv;
  }

  // ------------------------------------------------------------------ command data of each operation

  /** `d[12 + SIGN_MAX_MESSAGE]` of a signature: full exactly at the longest message. */
  lemma SignBuffer(id: seq<byte>, message: seq<byte>)
    requires |id| == 4 && |message| <= SIGN_MAX_MESSAGE
    ensures |Encode(SignItems(id, message))| <= 12 + SIGN_MAX_MESSAGE
    ensures |message| == SIGN_MAX_MESSAGE ==> |Encode(SignItems(id, message))| == 12 + SIGN_MAX_MESSAGE
  {
    EncodeSign(id, message);
  }

  /** `d[40]` and `d[12]` of the two agreements, both full. */
  lemma AgreementBuffers(id: seq<byte>, peer: Key32)
    requires |id| == 4
    ensures |Encode([Item(TAG_1, id), Item(TAG_2, peer)])| == 40
    ensures |Encode([Item(TAG_1, id), Item(TAG_3, PEER_ID)])| == 12
  {
    EncodeTwo(Item(TAG_1, id), Item(TAG_2, peer));
    EncodeTwo(Item(TAG_1, id), Item(TAG_3, PEER_ID));
  }

  /** `d[64]` of the peer object. */
  lemma PeerBuffer(valueBe: Key32, create: bool)
    ensures |Encode(WriteItems(valueBe, create))| == if create then 54 else 40
  {
    EncodeWrite(valueBe, create);
  }

  /** `data[128]` and `expected[16]` of PUT KEY, and its answer against the 32 octets kept for it. */
  lemma PutKeyBuffers(c: Cipher, keys: KeySet, dek: Block)
    ensures |PutKeyData(c, keys, dek)| == 70 <= 128 && |PutKeyEcho(c, keys)| == 10 <= 16
    ensures Fits(PutKeyData(c, keys, dek)) && Cut(PutKeyEcho(c, keys), 32) == PutKeyEcho(c, keys)
  {
    hide KeyEntry, CheckValue;
  }

  /** `dd[32]` of the key derivation, and the two openings on their 64- and 32-octet answers. */
  lemma OpeningBuffers(g: seq<byte>, m: seq<byte>, challenge: seq<byte>, constant: byte, context: Block)
    requires |g| == 8 && |m| == 8 && |challenge| == 8
    ensures |Zeros(11) + [constant, 0, 0, 128, 1] + context| == 32
    ensures |InitializeUpdate(challenge)| == 14 && |Authentication(g)| == 13 && |Authentication(g) + m| == 21
  {
  }

  // ------------------------------------------------------------------ the chain

  /** From session command to link block: whatever is accepted at the top fits every buffer below, and
      no length octet on the way wraps. */
  lemma LengthChain(c: Cipher, ch: Channel, sid: Challenge, header: seq<byte>, data: seq<byte>, answers: bool)
    requires |header| == 4 && |data| <= 0xFF00 && ch.counter < 0x1_0000_0000
    requires FrameFits(sid, header, data, answers)
    ensures var frame := Frame(sid, header, data, answers);
            var apdu := Command(c, ch, PROCESS_SESSION, frame, answers).0;
            && |frame| <= 239 <= SESSION
            && (frame != [] ==> |Pad(frame)| <= PADDED)
            && |apdu| <= 254 <= APDU
            && apdu[4] == |CommandData(c, ch.keys, NextCounter(ch.counter), frame)| + 8
            && forall ns: bool, block: seq<Link.octet> :: |block| == |apdu| ==>
                 |Link.IBlock(ns, block)| <= FRAME && Link.Announced(Link.IBlock(ns, block)[2]) == |apdu|
  {
    hide Frame, Cmac, CommandData, Link.IBlock, Link.Announced;
    var frame := Frame(sid, header, data, answers);
    var now := ch.(counter := NextCounter(ch.counter));
    FitsIff(frame);
    if frame != [] {
      PaddingBuffers(c, ch.keys, now.counter, frame);
    }
    ChainedCmacBuffer(c, now, PROCESS_SESSION, frame);
    CommandBuffer(c, ch, PROCESS_SESSION, frame, answers);
    forall ns: bool, block: seq<Link.octet> | |block| <= 254
      ensures |Link.IBlock(ns, block)| <= FRAME && Link.Announced(Link.IBlock(ns, block)[2]) == |block|
    {
      TransmitBuffer(ns, block);
    }
  }
}
