/** Tag-length-value objects with BER lengths, and the frame that nests an inner command inside a
    UserID session (ProcessSessionCmd). */
module Tlv {
  import opened Bytes
  import opened Wrappers

  datatype Item = Item(tag: byte, value: seq<byte>)

  /** The shortest BER length the driver writes: one octet, 81 xx or 82 xx xx. */
  function BerLength(n: nat): (l: seq<byte>)
    requires n < 0x1_0000
  {
    if n <= 0x7F then [n] else if n <= 0xFF then [0x81, n] else [0x82, n / 256, n % 256]
  }

  function EncodeItem(item: Item): seq<byte>
    requires |item.value| < 0x1_0000
  {
    [item.tag] + BerLength(|item.value|) + item.value
  }

  ghost predicate Encodable(items: seq<Item>) {
    forall i :: 0 <= i < |items| ==> |items[i].value| < 0x1_0000
  }

  function Encode(items: seq<Item>): seq<byte>
    requires Encodable(items)
  {
    if items == [] then [] else EncodeItem(items[0]) + Encode(items[1..])
  }

  /** Where the value of the first object starts and how long it says it is. */
  function Header(s: seq<byte>): (h: Option<(nat, nat)>)
    ensures h.Some? ==> 2 <= h.value.0 <= |s|
  {
    if |s| < 2 then None
    else if s[1] < 0x80 then Some((2, s[1]))
    else if s[1] == 0x81 && |s| >= 3 then Some((3, s[2]))
    else if s[1] == 0x82 && |s| >= 4 then Some((4, U16(s[2], s[3])))
    else None
  }

  /** What the applet reads: a whole sequence of objects, or nothing. */
  function Parse(s: seq<byte>): Option<seq<Item>>
    decreases |s|
  {
    if s == [] then Some([])
    else
      match Header(s)
      case None => None
      case Some((off, l)) =>
        if off + l > |s| then None
        else
          match Parse(s[off + l..])
          case None => None
          case Some(rest) => Some([Item(s[0], s[off..off + l])] + rest)
  }

  lemma EncodeFirst(items: seq<Item>)
    requires Encodable(items) && items != []
    ensures Encodable(items[1..]) && |items[0].value| < 0x1_0000
    ensures Encode(items) == EncodeItem(items[0]) + Encode(items[1..])
  {
  }

  /** Reading one object off the front of a buffer leaves exactly what followed it. */
  lemma ParseFirst(item: Item, tail: seq<byte>)
    requires |item.value| < 0x1_0000
    ensures Parse(EncodeItem(item) + tail) ==
            match Parse(tail) case None => None case Some(rest) => Some([item] + rest)
  {
    hide EncodeItem, BerLength, Header;
    HeaderOfItem(item, tail);
  }

  lemma HeaderOfItem(item: Item, tail: seq<byte>)
    requires |item.value| < 0x1_0000
    ensures var s := EncodeItem(item) + tail; var off := 1 + |BerLength(|item.value|)|;
            Header(s) == Some((off, |item.value|))
            && s[0] == item.tag && off + |item.value| <= |s|
            && s[off..off + |item.value|] == item.value && s[off + |item.value|..] == tail
  {
    var n := |item.value|;
    var l := BerLength(n);
    var s := EncodeItem(item) + tail;
    assert s == [item.tag] + l + item.value + tail;
    assert s[1] == l[0];
    if n > 0xFF {
      assert s[2] == l[1] && s[3] == l[2];
    } else if n > 0x7F {
      assert s[2] == l[1];
    }
  }

  /** Every list of objects the driver builds is read back as that list. */
  lemma {:induction false} ParseEncode(items: seq<Item>)
    requires Encodable(items)
    ensures Parse(Encode(items)) == Some(items)
  {
    if items == [] {
    } else {
      hide Encode, Parse, EncodeItem;
      EncodeFirst(items);
      ParseEncode(items[1..]);
      ParseFirst(items[0], Encode(items[1..]));
      assert items == [items[0]] + items[1..];
    }
  }

  // ------------------------------------------------------------------ the driver's reader

  /** The value of a first object tagged 41, cut at the end of the buffer when it claims more than
      that; None when there is none, or when the buffer ends inside its header. */
  function Value41(r: seq<byte>): Option<seq<byte>> {
    if |r| < 2 || r[0] != 0x41 then None
    else
      var off := if r[1] == 0x82 then 4 else if r[1] == 0x81 then 3 else 2;
      if |r| < off then None
      else
        var l := if r[1] == 0x82 then U16(r[2], r[3]) else if r[1] == 0x81 then r[2] else r[1];
        Some(r[off..if off + l > |r| then |r| else off + l])
  }

  /** An object the card sends is read back whole. */
  lemma Value41OfItem(v: seq<byte>)
    requires |v| < 0x1_0000
    ensures Value41(EncodeItem(Item(0x41, v))) == Some(v)
  {
    var item := Item(0x41, v);
    HeaderOfItem(item, []);
    assert EncodeItem(item) + [] == EncodeItem(item);
  }

  // ------------------------------------------------------------------ the session frame

  const TAG_SESSION: byte := 0x10
  const TAG_1: byte := 0x41
  const TAG_2: byte := 0x42
  const TAG_3: byte := 0x43
  const TAG_4: byte := 0x44
  const TAG_POLICY: byte := 0x11

  /** The inner length field: absent, one octet, or the extended form (always used when the inner
      command expects a response). */
  function InnerLc(dataLen: nat, answers: bool): seq<byte>
    requires dataLen < 0x1_0000
  {
    if dataLen == 0 then [] else if dataLen < 0xFF && !answers then [dataLen]
    else [0, dataLen / 256, dataLen % 256]
  }

  function Inner(header: seq<byte>, data: seq<byte>, answers: bool): seq<byte>
    requires |data| < 0x1_0000
  {
    header + InnerLc(|data|, answers) + data
  }

  /** Session id object, then the inner command under tag 41. */
  function Frame(sid: seq<byte>, header: seq<byte>, data: seq<byte>, answers: bool): seq<byte>
    requires |sid| == 8 && |header| == 4 && |data| <= 0xFF00
  {
    [TAG_SESSION, 8] + sid + EncodeItem(Item(TAG_1, Inner(header, data, answers)))
  }

  /** The applet's reading of the inner command. */
  function ReadInner(inner: seq<byte>): Option<(seq<byte>, seq<byte>)> {
    if |inner| < 4 then None
    else if |inner| == 4 then Some((inner, []))
    else if inner[4] != 0 then
      if |inner| == 5 + inner[4] as int then Some((inner[..4], inner[5..])) else None
    else if |inner| >= 7 && |inner| == 7 + U16(inner[5], inner[6]) then Some((inner[..4], inner[7..]))
    else None
  }

  function ReadFrame(f: seq<byte>): Option<(seq<byte>, seq<byte>, seq<byte>)> {
    match Parse(f)
    case None => None
    case Some(items) =>
      if |items| != 2 || items[0].tag != TAG_SESSION || items[1].tag != TAG_1 then None
      else
        match ReadInner(items[1].value)
        case None => None
        case Some((header, data)) => Some((items[0].value, header, data))
  }

  lemma ReadInnerOfInner(header: seq<byte>, data: seq<byte>, answers: bool)
    requires |header| == 4 && |data| < 0x1_0000
    ensures ReadInner(Inner(header, data, answers)) == Some((header, data))
  {
    var inner, lc := Inner(header, data, answers), InnerLc(|data|, answers);
    assert inner == header + lc + data;
    if |lc| > 0 {
      assert inner[4] == lc[0];
    }
    if |lc| == 3 {
      assert inner[5] == lc[1] && inner[6] == lc[2];
    }
    assert inner[..4] == header && inner[4 + |lc|..] == data;
  }

  /** The applet finds in a frame exactly the session id, header and data it was built from,
      whichever of the two length encodings each level needed. */
  lemma ReadFrameOfFrame(sid: seq<byte>, header: seq<byte>, data: seq<byte>, answers: bool)
    requires |sid| == 8 && |header| == 4 && |data| <= 0xFF00
    ensures ReadFrame(Frame(sid, header, data, answers)) == Some((sid, header, data))
  {
    var inner := Inner(header, data, answers);
    var items := [Item(TAG_SESSION, sid), Item(TAG_1, inner)];
    assert items[1..] == [items[1]] && items[1..][1..] == [];
    assert Encode(items) == EncodeItem(items[0]) + (EncodeItem(items[1]) + Encode(items[1..][1..]));
    assert Encode(items) == Frame(sid, header, data, answers);
    ParseEncode(items);
    ReadInnerOfInner(header, data, answers);
  }
}
