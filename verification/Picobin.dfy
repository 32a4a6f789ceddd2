/** The RP2350 block loop (datasheet section 5.9) as the firmware walks it and as the host tool
    walks it: one definition of a well-formed block and of a closed loop, two implementations. */
module Picobin {
  import opened Bytes
  import opened Wrappers

  const BLOCK_START: nat := 0xFFFF_DED3
  const BLOCK_END: nat := 0xAB12_3579
  const ITEM_IMAGE_TYPE: nat := 0x42
  const ITEM_VERSION: nat := 0x48
  const ITEM_SIGNATURE: nat := 0x09
  const ITEM_LAST: nat := 0x7F
  const SIGNATURE_WORDS: nat := 33
  const FIRST_BLOCK_SEARCH: nat := 4096
  const MAX_BLOCK_BYTES: nat := 384
  const MAX_BLOCKS: nat := 16

  /** Little-endian reads. */
  function Rd16(img: seq<byte>, p: nat): nat
    requires p + 2 <= |img|
  {
    U16(img[p + 1], img[p])
  }

  function Rd32(img: seq<byte>, p: nat): nat
    requires p + 4 <= |img|
  {
    Rd16(img, p) + 0x1_0000 * Rd16(img, p + 2)
  }

  /** The same 32 bits read as a signed number. */
  function Signed32(n: nat): int {
    if n < 0x8000_0000 then n else n - 0x1_0000_0000
  }

  // ------------------------------------------------------------------ blocks

  datatype Item = Item(typ: nat, size: nat, off: nat)

  datatype Block = Block(off: nat, items: seq<Item>, link: int)

  function ItemAt(img: seq<byte>, p: nat): Item
    requires p + 4 <= |img|
  {
    Item(img[p] % 128, if img[p] >= 128 then U16(img[p + 2], img[p + 1]) else img[p + 1], p)
  }

  /** The items from `p` to the terminating one, and where they end. */
  function ItemsFrom(img: seq<byte>, off: nat, p: nat): Option<(seq<Item>, nat)>
    decreases |img| - p
  {
    if p + 4 > |img| || p - off > MAX_BLOCK_BYTES then None
    else
      var item := ItemAt(img, p);
      if item.typ == ITEM_LAST then Some(([item], p + 4))
      else if item.size == 0 then None
      else
        match ItemsFrom(img, off, p + 4 * item.size)
        case None => None
        case Some((rest, e)) => Some(([item] + rest, e))
  }

  /** The well-formed block at `off`, if there is one. */
  function BlockAt(img: seq<byte>, off: nat): Option<Block> {
    if off + 4 > |img| || Rd32(img, off) != BLOCK_START then None
    else
      match ItemsFrom(img, off, off + 4)
      case None => None
      case Some((items, e)) =>
        if e + 8 > |img| || Rd32(img, e + 4) != BLOCK_END then None
        else Some(Block(off, items, Signed32(Rd32(img, e))))
  }

  predicate IsImageDef(b: Block) {
    |b.items| > 0 && b.items[0].typ == ITEM_IMAGE_TYPE
  }

  // ------------------------------------------------------------------ loops

  function FirstBlock(img: seq<byte>, off: nat): Option<nat>
    decreases FIRST_BLOCK_SEARCH - off
  {
    if off + 4 > |img| || off >= FIRST_BLOCK_SEARCH then None
    else if BlockAt(img, off).Some? then Some(off)
    else FirstBlock(img, off + 4)
  }

  /** The blocks from `off` until a link returns to `first`, within `fuel` blocks. */
  function Walk(img: seq<byte>, first: nat, off: nat, fuel: nat): Option<seq<Block>>
    decreases fuel
  {
    hide BlockAt;
    if fuel == 0 then None
    else
      match BlockAt(img, off)
      case None => None
      case Some(b) =>
        var next := off + b.link;
        if next == first then Some([b])
        else if next < 0 || next >= |img| then None
        else
          match Walk(img, first, next, fuel - 1)
          case None => None
          case Some(rest) => Some([b] + rest)
  }

  /** The closed loop the bootrom follows. */
  function BlockLoop(img: seq<byte>): Option<seq<Block>> {
    match FirstBlock(img, 0)
    case None => None
    case Some(first) => Walk(img, first, first, MAX_BLOCKS)
  }

  /** The last IMAGE_DEF of a loop: the one that boots. */
  function LastDef(blocks: seq<Block>): (r: Option<Block>)
    ensures r.None? ==> forall i :: 0 <= i < |blocks| ==> !IsImageDef(blocks[i])
    ensures r.Some? ==> exists i :: 0 <= i < |blocks| && blocks[i] == r.value && IsImageDef(blocks[i])
                                    && forall j :: i < j < |blocks| ==> !IsImageDef(blocks[j])
  {
    if blocks == [] then None
    else if IsImageDef(blocks[|blocks| - 1]) then Some(blocks[|blocks| - 1])
    else LastDef(blocks[..|blocks| - 1])
  }

  // ------------------------------------------------------------------ what a closed loop is

  ghost predicate IsLoop(img: seq<byte>, first: nat, blocks: seq<Block>) {
    && 1 <= |blocks| <= MAX_BLOCKS && blocks[0].off == first
    && (forall i :: 0 <= i < |blocks| ==> BlockAt(img, blocks[i].off) == Some(blocks[i]))
    && (forall i :: 0 <= i < |blocks| - 1 ==> blocks[i].off + blocks[i].link == blocks[i + 1].off)
    && (forall i :: 0 <= i < |blocks| - 1 ==> blocks[i].off + blocks[i].link != first)
    && blocks[|blocks| - 1].off + blocks[|blocks| - 1].link == first
  }

  lemma {:induction false} WalkSteps(img: seq<byte>, first: nat, off: nat, fuel: nat)
    requires Walk(img, first, off, fuel).Some?
    ensures var bs := Walk(img, first, off, fuel).value;
            && 1 <= |bs| <= fuel && bs[0].off == off
            && (forall i :: 0 <= i < |bs| ==> BlockAt(img, bs[i].off) == Some(bs[i]))
            && (forall i :: 0 <= i < |bs| - 1 ==> bs[i].off + bs[i].link == bs[i + 1].off)
            && (forall i :: 0 <= i < |bs| - 1 ==> bs[i].off + bs[i].link != first)
            && bs[|bs| - 1].off + bs[|bs| - 1].link == first
    decreases fuel
  {
    hide ItemsFrom, Rd32;
    var b := BlockAt(img, off).value;
    var next := off + b.link;
    if next != first {
      WalkSteps(img, first, next, fuel - 1);
      var rest := Walk(img, first, next, fuel - 1).value;
      var bs := Walk(img, first, off, fuel).value;
      assert bs == [b] + rest;
      forall i | 0 <= i < |bs| - 1
        ensures bs[i].off + bs[i].link == bs[i + 1].off && bs[i].off + bs[i].link != first
      {
        if i > 0 {
          assert bs[i] == rest[i - 1] && bs[i + 1] == rest[i];
        }
      }
    }
  }

  /** Two visits to one offset would make the walk periodic, and it could never have closed. */
  lemma {:induction false} SameOffsetSameFuture(img: seq<byte>, first: nat, blocks: seq<Block>, i: nat, j: nat, k: nat)
    requires IsLoop(img, first, blocks) && i < j && j + k < |blocks|
    requires blocks[i].off == blocks[j].off
    ensures blocks[i + k].off == blocks[j + k].off
    decreases k
  {
    if k == 0 {
    } else {
      hide BlockAt;
      SameOffsetSameFuture(img, first, blocks, i, j, k - 1);
      assert BlockAt(img, blocks[i + k - 1].off) == BlockAt(img, blocks[j + k - 1].off);
      assert blocks[i + k - 1].off + blocks[i + k - 1].link == blocks[i + k - 1 + 1].off;
      assert blocks[j + k - 1].off + blocks[j + k - 1].link == blocks[j + k - 1 + 1].off;
    }
  }

  lemma LoopOffsetsDistinct(img: seq<byte>, first: nat, blocks: seq<Block>)
    requires IsLoop(img, first, blocks)
    ensures forall i, j :: 0 <= i < j < |blocks| ==> blocks[i].off != blocks[j].off
  {
    hide BlockAt;
    forall i, j | 0 <= i < j < |blocks|
      ensures blocks[i].off != blocks[j].off
    {
      if blocks[i].off == blocks[j].off {
        SameOffsetSameFuture(img, first, blocks, i, j, |blocks| - 1 - j);
      }
    }
  }

  /** A loop that is found is a loop: at most 16 well-formed blocks at pairwise distinct offsets,
      each linked to the next and the last to the first, and the first in the searched area. */
  lemma BlockLoopIsLoop(img: seq<byte>)
    ensures BlockLoop(img).Some? ==>
              var bs := BlockLoop(img).value;
              && IsLoop(img, FirstBlock(img, 0).value, bs)
              && (forall i, j :: 0 <= i < j < |bs| ==> bs[i].off != bs[j].off)
  {
    hide BlockAt;
    if BlockLoop(img).Some? {
      var first := FirstBlock(img, 0).value;
      WalkSteps(img, first, first, MAX_BLOCKS);
      LoopOffsetsDistinct(img, first, BlockLoop(img).value);
    }
  }

  // ------------------------------------------------------------------ images spelled word by word

  type Word = w: seq<byte> | |w| == 4 witness [0, 0, 0, 0]

  const START_WORD: Word := [0xD3, 0xDE, 0xFF, 0xFF]
  const END_WORD: Word := [0x79, 0x35, 0x12, 0xAB]
  const ZERO_WORD: Word := [0, 0, 0, 0]
  const IMAGE_TYPE_WORD: Word := [0x42, 0x01, 0x21, 0x10]
  const LAST_WORD: Word := [0xFF, 0x01, 0x00, 0x00]

  function Spelled(ws: seq<Word>): (s: seq<byte>)
    ensures |s| == 4 * |ws|
  {
    if ws == [] then [] else Spelled(ws[..|ws| - 1]) + ws[|ws| - 1]
  }

  lemma {:induction false} SpelledAt(ws: seq<Word>, k: nat)
    requires k < |ws|
    ensures Spelled(ws)[4 * k..4 * k + 4] == ws[k]
  {
    if k < |ws| - 1 {
      SpelledAt(ws[..|ws| - 1], k);
      assert Spelled(ws)[4 * k..4 * k + 4] == Spelled(ws[..|ws| - 1])[4 * k..4 * k + 4];
    }
  }

  /** The number and the item that stand at word `k`. */
  lemma WordReads(ws: seq<Word>, k: nat)
    requires k < |ws|
    ensures var (w, img) := (ws[k], Spelled(ws));
            && Rd32(img, 4 * k) == U16(w[1], w[0]) + 0x1_0000 * U16(w[3], w[2])
            && ItemAt(img, 4 * k) == Item(w[0] % 128, if w[0] >= 128 then U16(w[2], w[1]) else w[1], 4 * k)
            && Rd16(img, 4 * k) == U16(w[1], w[0]) && Rd16(img, 4 * k + 2) == U16(w[3], w[2])
  {
    hide Spelled;
    SpelledAt(ws, k);
    var img := Spelled(ws);
    var w := img[4 * k..4 * k + 4];
    assert img[4 * k] == w[0] && img[4 * k + 1] == w[1] && img[4 * k + 2] == w[2] && img[4 * k + 3] == w[3];
  }

  lemma Markers()
    ensures U16(START_WORD[1], START_WORD[0]) + 0x1_0000 * U16(START_WORD[3], START_WORD[2]) == BLOCK_START
    ensures U16(END_WORD[1], END_WORD[0]) + 0x1_0000 * U16(END_WORD[3], END_WORD[2]) == BLOCK_END
    ensures U16(ZERO_WORD[1], ZERO_WORD[0]) + 0x1_0000 * U16(ZERO_WORD[3], ZERO_WORD[2]) == 0
  {
  }

  lemma LastItem(img: seq<byte>, off: nat, p: nat)
    requires p + 4 <= |img| && p - off <= MAX_BLOCK_BYTES && ItemAt(img, p).typ == ITEM_LAST
    ensures ItemsFrom(img, off, p) == Some(([ItemAt(img, p)], p + 4))
  {
  }

  lemma ItemsStep(img: seq<byte>, off: nat, p: nat, item: Item, rest: seq<Item>, e: nat)
    requires p + 4 <= |img| && p - off <= MAX_BLOCK_BYTES && item == ItemAt(img, p) && item.typ != ITEM_LAST && item.size != 0
    requires ItemsFrom(img, off, p + 4 * item.size) == Some((rest, e))
    ensures ItemsFrom(img, off, p) == Some(([item] + rest, e))
  {
  }

  lemma OneBlockLoop(img: seq<byte>, b: Block)
    requires BlockAt(img, 0) == Some(b) && b.off == 0 && b.link == 0 && |img| >= 4
    ensures BlockLoop(img) == Some([b])
  {
    hide BlockAt;
  }

  /** The smallest image that boots: one IMAGE_DEF linked to itself. */
  const SMALLEST: seq<Word> := [START_WORD, IMAGE_TYPE_WORD, LAST_WORD, ZERO_WORD, END_WORD]

  lemma SmallestParses()
    ensures BlockAt(Spelled(SMALLEST), 0) == Some(Block(0, [Item(0x42, 1, 4), Item(0x7F, 1, 8)], 0))
  {
    hide Spelled, ItemAt, Rd32, ItemsFrom;
    var img := Spelled(SMALLEST);
    Markers();
    WordReads(SMALLEST, 0);
    WordReads(SMALLEST, 1);
    WordReads(SMALLEST, 2);
    WordReads(SMALLEST, 3);
    WordReads(SMALLEST, 4);
    LastItem(img, 0, 8);
    ItemsStep(img, 0, 4, Item(0x42, 1, 4), [Item(0x7F, 1, 8)], 12);
    assert [Item(0x42, 1, 4)] + [Item(0x7F, 1, 8)] == [Item(0x42, 1, 4), Item(0x7F, 1, 8)];
  }

  lemma SmallestIsLoop()
    ensures BlockLoop(Spelled(SMALLEST)) == Some([Block(0, [Item(0x42, 1, 4), Item(0x7F, 1, 8)], 0)])
  {
    hide BlockAt, Spelled;
    SmallestParses();
    OneBlockLoop(Spelled(SMALLEST), Block(0, [Item(0x42, 1, 4), Item(0x7F, 1, 8)], 0));
  }

  // ------------------------------------------------------------------ items

  /** The items of a block lie one after the other inside the image, the terminator last. */
  lemma {:induction false} ItemsLayout(img: seq<byte>, off: nat, p: nat)
    requires ItemsFrom(img, off, p).Some?
    ensures var (items, e) := ItemsFrom(img, off, p).value;
            && |items| >= 1 && items[0].off == p
            && (forall i :: 0 <= i < |items| ==> p <= items[i].off && items[i].off + 4 <= |img|)
            && (forall i :: 0 <= i < |items| ==> (items[i].typ == ITEM_LAST <==> i == |items| - 1))
            && (forall i :: 0 <= i < |items| - 1 ==> items[i].size >= 1 && items[i].off + 4 * items[i].size == items[i + 1].off)
    decreases |img| - p
  {
    var item := ItemAt(img, p);
    if item.typ != ITEM_LAST {
      hide ItemAt;
      ItemsLayout(img, off, p + 4 * item.size);
      var (rest, e) := ItemsFrom(img, off, p + 4 * item.size).value;
      var items := ItemsFrom(img, off, p).value.0;
      assert items == [item] + rest;
      forall i | 0 <= i < |items| - 1
        ensures items[i].size >= 1 && items[i].off + 4 * items[i].size == items[i + 1].off
      {
        if i > 0 {
          assert items[i] == rest[i - 1] && items[i + 1] == rest[i];
        }
      }
    }
  }

  lemma {:induction false} OffsetsIncrease(items: seq<Item>, i: nat, j: nat)
    requires forall k :: 0 <= k < |items| - 1 ==> items[k].size >= 1 && items[k].off + 4 * items[k].size == items[k + 1].off
    requires i < j < |items|
    ensures items[i].off + 4 * items[i].size <= items[j].off && items[i].off < items[j].off
    decreases j
  {
    assert items[j - 1].off + 4 * items[j - 1].size == items[j - 1 + 1].off;
    if i < j - 1 {
      OffsetsIncrease(items, i, j - 1);
    }
  }

  // ------------------------------------------------------------------ a block, octet by octet

  /** The four octets at `p` as an unsigned number, the first the least significant. */
  function Little(img: seq<byte>, p: nat): nat
    requires p + 4 <= |img|
  {
    (((img[p + 3] as int) * 256 + img[p + 2] as int) * 256 + img[p + 1] as int) * 256 + img[p] as int
  }

  /** An item's header: seven bits of type, and a size of one octet or, behind the top bit, of two. */
  predicate Heads(img: seq<byte>, item: Item) {
    && item.off + 4 <= |img|
    && item.typ == (img[item.off] as int) % 0x80
    && item.size == if img[item.off] < 0x80 then img[item.off + 1] as int else img[item.off + 1] as int + 0x100 * img[item.off + 2] as int
  }

  /** Items one behind the other from `p` on, none more than 384 octets into the block, the last and only
      the last of type 7F. */
  ghost predicate Lie(img: seq<byte>, off: nat, p: nat, items: seq<Item>) {
    && |items| >= 1 && items[0].off == p
    && (forall i :: 0 <= i < |items| ==> Heads(img, items[i]) && items[i].off - off <= 384)
    && (forall i :: 0 <= i < |items| ==> (items[i].typ == 0x7F <==> i == |items| - 1))
    && (forall i :: 0 <= i < |items| - 1 ==> items[i].size >= 1 && items[i + 1].off == items[i].off + 4 * items[i].size)
  }

  /** The marker D3 DE FF FF, the items, a link that is the next word read as a signed number, and the
      marker 79 35 12 AB. */
  ghost predicate IsBlock(img: seq<byte>, off: nat, b: Block) {
    && b.off == off && off + 4 <= |img| && img[off..off + 4] == [0xD3, 0xDE, 0xFF, 0xFF]
    && Lie(img, off, off + 4, b.items)
    && var p := b.items[|b.items| - 1].off + 4;
       && p + 8 <= |img| && img[p + 4..p + 8] == [0x79, 0x35, 0x12, 0xAB]
       && -0x8000_0000 <= b.link < 0x8000_0000 && (b.link - Little(img, p)) % 0x1_0000_0000 == 0
  }

  lemma Rd32Is(img: seq<byte>, p: nat)
    requires p + 4 <= |img|
    ensures Rd32(img, p) == Little(img, p) < 0x1_0000_0000
    ensures Rd32(img, p) == BLOCK_START <==> img[p..p + 4] == [0xD3, 0xDE, 0xFF, 0xFF]
    ensures Rd32(img, p) == BLOCK_END <==> img[p..p + 4] == [0x79, 0x35, 0x12, 0xAB]
  {
    assert img[p..p + 4] == [img[p], img[p + 1], img[p + 2], img[p + 3]];
  }

  lemma SignedIs(n: nat, link: int)
    requires n < 0x1_0000_0000
    ensures link == Signed32(n) <==> -0x8000_0000 <= link < 0x8000_0000 && (link - n) % 0x1_0000_0000 == 0
  {
    assert (Signed32(n) - n) % 0x1_0000_0000 == 0;
  }

  lemma HeadsIs(img: seq<byte>, item: Item)
    requires item.off + 4 <= |img|
    ensures Heads(img, item) <==> item == ItemAt(img, item.off)
  {
  }

  lemma {:induction false} ItemsLie(img: seq<byte>, off: nat, p: nat)
    requires ItemsFrom(img, off, p).Some?
    ensures var (items, e) := ItemsFrom(img, off, p).value;
            Lie(img, off, p, items) && e == items[|items| - 1].off + 4
    decreases |img| - p
  {
    hide Heads;
    var item := ItemAt(img, p);
    HeadsIs(img, item);
    if item.typ != ITEM_LAST {
      hide ItemAt;
      ItemsLie(img, off, p + 4 * item.size);
      var (rest, e) := ItemsFrom(img, off, p + 4 * item.size).value;
      var items := ItemsFrom(img, off, p).value.0;
      assert items == [item] + rest;
      forall i | 0 <= i < |items| - 1
        ensures items[i].size >= 1 && items[i + 1].off == items[i].off + 4 * items[i].size
      {
        if i > 0 {
          assert items[i] == rest[i - 1] && items[i + 1] == rest[i];
        }
      }
    }
  }

  lemma {:induction false} LyingItems(img: seq<byte>, off: nat, p: nat, items: seq<Item>)
    requires Lie(img, off, p, items)
    ensures ItemsFrom(img, off, p) == Some((items, items[|items| - 1].off + 4))
    decreases |items|
  {
    assert items[0].off + 4 <= |img|;
    hide Heads, ItemAt;
    HeadsIs(img, items[0]);
    if |items| == 1 {
      assert items == [items[0]];
    } else {
      var rest := items[1..];
      assert forall i :: 0 <= i < |rest| ==> rest[i] == items[i + 1];
      assert rest[0].off == p + 4 * items[0].size;
      LyingItems(img, off, p + 4 * items[0].size, rest);
      ItemsStep(img, off, p, items[0], rest, rest[|rest| - 1].off + 4);
      assert [items[0]] + rest == items;
    }
  }

  /** The block that is read at an offset is the one that is spelled there, and there is at most one. In
      particular its link lies in the signed range and is congruent to its four octets modulo 2^32. */
  lemma BlockOctets(img: seq<byte>, off: nat, b: Block)
    ensures BlockAt(img, off) == Some(b) <==> IsBlock(img, off, b)
  {
    hide ItemsFrom, Rd32, Signed32, Little, Lie;
    if off + 4 <= |img| {
      Rd32Is(img, off);
      if ItemsFrom(img, off, off + 4).Some? {
        ItemsLie(img, off, off + 4);
        BlockOctetsOf(img, off, ItemsFrom(img, off, off + 4).value.0, b);
      }
      if Lie(img, off, off + 4, b.items) {
        LyingItems(img, off, off + 4, b.items);
      }
    }
  }

  lemma BlockOctetsOf(img: seq<byte>, off: nat, items: seq<Item>, b: Block)
    requires off + 4 <= |img| && Lie(img, off, off + 4, items)
    requires ItemsFrom(img, off, off + 4) == Some((items, items[|items| - 1].off + 4))
    requires Rd32(img, off) == BLOCK_START <==> img[off..off + 4] == [0xD3, 0xDE, 0xFF, 0xFF]
    ensures b.items == items ==> (BlockAt(img, off) == Some(b) <==> IsBlock(img, off, b))
    ensures BlockAt(img, off) == Some(b) ==> b.items == items
  {
    assert |items| >= 1;
    hide ItemsFrom, Rd32, Signed32, Little, Lie;
    var e := items[|items| - 1].off + 4;
    if e + 8 <= |img| {
      Rd32Is(img, e);
      Rd32Is(img, e + 4);
      SignedIs(Rd32(img, e), b.link);
    }
  }

  /** The first block is the first well-formed one at a multiple of four below 4096. */
  lemma {:induction false} FirstBlockIs(img: seq<byte>, off: nat, first: nat)
    requires off % 4 == 0
    ensures FirstBlock(img, off) == Some(first) <==>
            && off <= first < 4096 && first % 4 == 0 && BlockAt(img, first).Some?
            && forall o :: off <= o < first && o % 4 == 0 ==> BlockAt(img, o).None?
    decreases FIRST_BLOCK_SEARCH - off
  {
    hide ItemsFrom, Rd32;
    if off + 4 <= |img| && off < FIRST_BLOCK_SEARCH {
      hide BlockAt;
      if BlockAt(img, off).None? {
        FirstBlockIs(img, off + 4, first);
      }
    } else if BlockAt(img, first).Some? && first >= off {
      assert first + 4 <= |img|;
    }
  }

  /** Block `i` links to the one after it, and not back to the first. */
  predicate Leads(bs: seq<Block>, i: nat, first: nat)
    requires i + 1 < |bs|
  {
    bs[i].off + bs[i].link == bs[i + 1].off && bs[i + 1].off != first
  }

  lemma WalkStep(img: seq<byte>, first: nat, b: Block, fuel: nat)
    requires fuel > 0 && BlockAt(img, b.off) == Some(b)
    ensures b.off + b.link == first ==> Walk(img, first, b.off, fuel) == Some([b])
    ensures b.off + b.link != first && 0 <= b.off + b.link < |img| && Walk(img, first, b.off + b.link, fuel - 1).Some? ==>
              Walk(img, first, b.off, fuel) == Some([b] + Walk(img, first, b.off + b.link, fuel - 1).value)
  {
    hide BlockAt;
  }

  lemma {:induction false} WalkFinds(img: seq<byte>, first: nat, bs: seq<Block>, fuel: nat)
    requires 1 <= |bs| <= fuel
    requires forall i :: 0 <= i < |bs| ==> BlockAt(img, bs[i].off) == Some(bs[i])
    requires forall i :: 0 <= i < |bs| - 1 ==> Leads(bs, i, first)
    requires bs[|bs| - 1].off + bs[|bs| - 1].link == first
    ensures Walk(img, first, bs[0].off, fuel) == Some(bs)
    decreases fuel
  {
    hide BlockAt, Walk;
    WalkStep(img, first, bs[0], fuel);
    if |bs| == 1 {
      assert bs == [bs[0]];
    } else {
      BlockInside(img, bs[1].off);
      var rest := bs[1..];
      assert Leads(bs, 0, first);
      forall i | 0 <= i < |rest|
        ensures BlockAt(img, rest[i].off) == Some(rest[i])
      {
        assert rest[i] == bs[i + 1];
      }
      forall i | 0 <= i < |rest| - 1
        ensures Leads(rest, i, first)
      {
        assert Leads(bs, i + 1, first) && rest[i] == bs[i + 1] && rest[i + 1] == bs[i + 2];
      }
      WalkFinds(img, first, rest, fuel - 1);
      assert [bs[0]] + rest == bs;
    }
  }

  lemma BlockInside(img: seq<byte>, off: nat)
    ensures BlockAt(img, off).Some? ==> off < |img|
  {
  }

  /** What both readers accept, in one line of definition each: the loop that is found is the one that is
      there. At most 16 blocks, the first the first in the searched area, each linked to the next, none but
      the last to the first. */
  lemma BlockLoopIff(img: seq<byte>, bs: seq<Block>)
    ensures BlockLoop(img) == Some(bs) <==>
            && 1 <= |bs| <= 16
            && (forall i :: 0 <= i < |bs| ==> IsBlock(img, bs[i].off, bs[i]))
            && (forall i :: 0 <= i < |bs| - 1 ==> Leads(bs, i, bs[0].off))
            && bs[|bs| - 1].off + bs[|bs| - 1].link == bs[0].off
            && bs[0].off < 4096 && bs[0].off % 4 == 0
            && forall o :: 0 <= o < bs[0].off && o % 4 == 0 ==> BlockAt(img, o).None?
  {
    hide BlockAt, IsBlock, Walk, FirstBlock;
    forall i | 0 <= i < |bs|
      ensures BlockAt(img, bs[i].off) == Some(bs[i]) <==> IsBlock(img, bs[i].off, bs[i])
    {
      BlockOctets(img, bs[i].off, bs[i]);
    }
    if |bs| > 0 {
      FirstBlockIs(img, 0, bs[0].off);
    }
    if BlockLoop(img) == Some(bs) {
      var first := FirstBlock(img, 0).value;
      WalkSteps(img, first, first, MAX_BLOCKS);
      forall i | 0 <= i < |bs| - 1
        ensures Leads(bs, i, first)
      {
      }
    } else if 1 <= |bs| <= 16 && FirstBlock(img, 0) == Some(bs[0].off)
              && (forall i :: 0 <= i < |bs| ==> BlockAt(img, bs[i].off) == Some(bs[i]))
              && (forall i :: 0 <= i < |bs| - 1 ==> Leads(bs, i, bs[0].off))
              && bs[|bs| - 1].off + bs[|bs| - 1].link == bs[0].off {
      WalkFinds(img, bs[0].off, bs, MAX_BLOCKS);
      assert false;
    }
  }

  /** An image whose loop has two blocks, the second linking back over 20 octets. */
  const TWO_BLOCKS: seq<Word> := [START_WORD, IMAGE_TYPE_WORD, LAST_WORD, [20, 0, 0, 0], END_WORD,
                                  START_WORD, IMAGE_TYPE_WORD, LAST_WORD, [0xEC, 0xFF, 0xFF, 0xFF], END_WORD]
  const FORTH := Block(0, [Item(0x42, 1, 4), Item(0x7F, 1, 8)], 20)
  const BACK := Block(20, [Item(0x42, 1, 24), Item(0x7F, 1, 28)], -20)

  lemma TwoItems(img: seq<byte>, off: nat, i1: Item, last: Item)
    requires off + 20 <= |img| && Rd32(img, off) == BLOCK_START && Rd32(img, off + 16) == BLOCK_END
    requires i1 == Item(0x42, 1, off + 4) && last == Item(0x7F, 1, off + 8)
    requires ItemAt(img, off + 4) == i1 && ItemAt(img, off + 8) == last
    ensures BlockAt(img, off) == Some(Block(off, [i1, last], Signed32(Rd32(img, off + 12))))
  {
    hide ItemsFrom, ItemAt, Rd32, Signed32;
    LastItem(img, off, off + 8);
    ItemsStep(img, off, off + 4, i1, [last], off + 12);
    assert [i1] + [last] == [i1, last];
  }

  lemma LinkWords()
    ensures U16([20, 0, 0, 0][1], [20, 0, 0, 0][0]) + 0x1_0000 * U16([20, 0, 0, 0][3], [20, 0, 0, 0][2]) == 20
    ensures U16(0xFF, 0xEC) + 0x1_0000 * U16(0xFF, 0xFF) == 0xFFFF_FFEC
    ensures Signed32(20) == 20 && Signed32(0xFFFF_FFEC) == -20
  {
  }

  lemma ForthParses()
    ensures BlockAt(Spelled(TWO_BLOCKS), 0) == Some(FORTH)
  {
    hide Spelled, ItemAt, Rd32, Signed32;
    Markers();
    LinkWords();
    WordReads(TWO_BLOCKS, 0);
    WordReads(TWO_BLOCKS, 1);
    WordReads(TWO_BLOCKS, 2);
    WordReads(TWO_BLOCKS, 3);
    WordReads(TWO_BLOCKS, 4);
    TwoItems(Spelled(TWO_BLOCKS), 0, Item(0x42, 1, 4), Item(0x7F, 1, 8));
  }

  lemma BackParses()
    ensures BlockAt(Spelled(TWO_BLOCKS), 20) == Some(BACK)
  {
    hide Spelled, ItemAt, Rd32, Signed32;
    Markers();
    LinkWords();
    WordReads(TWO_BLOCKS, 5);
    WordReads(TWO_BLOCKS, 6);
    WordReads(TWO_BLOCKS, 7);
    WordReads(TWO_BLOCKS, 8);
    WordReads(TWO_BLOCKS, 9);
    TwoItems(Spelled(TWO_BLOCKS), 20, Item(0x42, 1, 24), Item(0x7F, 1, 28));
  }

  /** Both blocks are visited, and the second is the one that boots. */
  lemma TwoBlocksLoop()
    ensures BlockLoop(Spelled(TWO_BLOCKS)) == Some([FORTH, BACK]) && LastDef([FORTH, BACK]) == Some(BACK)
  {
    hide BlockAt, Spelled;
    ForthParses();
    BackParses();
    WalkFinds(Spelled(TWO_BLOCKS), 0, [FORTH, BACK], MAX_BLOCKS);
  }

  ghost predicate LaidOut(img: seq<byte>, items: seq<Item>) {
    && |items| >= 1
    && (forall i :: 0 <= i < |items| ==> 4 <= items[i].off && items[i].off + 4 <= |img|)
    && (forall i :: 0 <= i < |items| ==> (items[i].typ == ITEM_LAST <==> i == |items| - 1))
    && (forall i :: 0 <= i < |items| - 1 ==> items[i].size >= 1 && items[i].off + 4 * items[i].size == items[i + 1].off)
  }

  lemma BlockLaidOut(img: seq<byte>, off: nat)
    requires BlockAt(img, off).Some?
    ensures LaidOut(img, BlockAt(img, off).value.items)
  {
    ItemsLayout(img, off, off + 4);
  }

  /** An item that is not the terminator has its whole payload, and a word more, inside the image. */
  lemma ItemRoom(img: seq<byte>, items: seq<Item>, i: nat)
    requires LaidOut(img, items) && i < |items| && items[i].typ != ITEM_LAST
    ensures items[i].off + 4 * items[i].size + 4 <= |img| && items[i].size >= 1
  {
    assert i < |items| - 1;
    assert items[i].off + 4 * items[i].size == items[i + 1].off;
  }

  predicate Matches(item: Item, typ: nat, words: Option<nat>) {
    item.typ == typ && (words.Some? ==> item.size == words.value)
  }

  /** Index of the last item of a type (and size, if given), as a loop that overwrites finds it. */
  function LastIndex(items: seq<Item>, typ: nat, words: Option<nat>): (r: Option<nat>)
    ensures r.Some? ==> r.value < |items| && Matches(items[r.value], typ, words)
                        && forall j :: r.value < j < |items| ==> !Matches(items[j], typ, words)
    ensures r.None? ==> forall j :: 0 <= j < |items| ==> !Matches(items[j], typ, words)
  {
    if items == [] then None
    else if Matches(items[|items| - 1], typ, words) then Some(|items| - 1)
    else LastIndex(items[..|items| - 1], typ, words)
  }

  /** Index of the first item of a type, as a search finds it. */
  function FirstIndex(items: seq<Item>, typ: nat): (r: Option<nat>)
    ensures r.Some? ==> r.value < |items| && items[r.value].typ == typ && forall j :: 0 <= j < r.value ==> items[j].typ != typ
    ensures r.None? ==> forall j :: 0 <= j < |items| ==> items[j].typ != typ
  {
    if items == [] then None
    else if items[0].typ == typ then Some(0)
    else match FirstIndex(items[1..], typ) case None => None case Some(k) => Some(k + 1)
  }

  /** The offset the firmware keeps for an item, 0 when there is none. */
  function LastOffset(items: seq<Item>, typ: nat, words: Option<nat>): nat {
    match LastIndex(items, typ, words)
    case None => 0
    case Some(i) => items[i].off
  }

  // ------------------------------------------------------------------ the firmware's reader

  /** The firmware's `Block`: item offsets instead of a list. */
  datatype FlatBlock = FlatBlock(off: nat, link: int, imageType: nat, version: nat, signature: nat, imageDef: bool)

  function Flat(b: Block): FlatBlock {
    FlatBlock(b.off, b.link, LastOffset(b.items, ITEM_IMAGE_TYPE, None), LastOffset(b.items, ITEM_VERSION, None),
              LastOffset(b.items, ITEM_SIGNATURE, Some(SIGNATURE_WORDS)), IsImageDef(b))
  }

  lemma LastOffsetSnoc(items: seq<Item>, item: Item, typ: nat, words: Option<nat>)
    ensures LastOffset(items + [item], typ, words)
            == if Matches(item, typ, words) then item.off else LastOffset(items, typ, words)
  {
    var all := items + [item];
    assert all[..|all| - 1] == items && all[|all| - 1] == item;
  }

  /** `parse`: one pass over the items, overwriting the offsets it keeps. */
  method Parse(img: seq<byte>, off: nat) returns (ok: bool, b: FlatBlock)
    ensures ok == BlockAt(img, off).Some?
    ensures ok ==> b == Flat(BlockAt(img, off).value)
  {
    hide Rd32, ItemAt, Signed32, LastIndex, LastOffset;
    b := FlatBlock(0, 0, 0, 0, 0, false);
    if off + 4 > |img| || Rd32(img, off) != BLOCK_START {
      return false, b;
    }
    var p := off + 4;
    var first, imageDef := true, false;
    var imageType, version, signature := 0, 0, 0;
    ghost var seen: seq<Item> := [];
    NoOffset();
    NothingSeen(ItemsFrom(img, off, p));
    while true
      invariant p >= off + 4 && (first <==> seen == [])
      invariant !first ==> imageDef == (seen[0].typ == ITEM_IMAGE_TYPE)
      invariant imageType == LastOffset(seen, ITEM_IMAGE_TYPE, None)
      invariant version == LastOffset(seen, ITEM_VERSION, None)
      invariant signature == LastOffset(seen, ITEM_SIGNATURE, Some(SIGNATURE_WORDS))
      invariant ItemsFrom(img, off, off + 4)
                == match ItemsFrom(img, off, p) case None => None case Some((rest, e)) => Some((seen + rest, e))
      decreases |img| - p
    {
      if p + 4 > |img| || p - off > MAX_BLOCK_BYTES {
        return false, b;
      }
      var item := ItemAt(img, p);
      if first {
        imageDef := item.typ == ITEM_IMAGE_TYPE;
        first := false;
      }
      if item.typ == ITEM_IMAGE_TYPE {
        imageType := p;
      } else if item.typ == ITEM_VERSION {
        version := p;
      } else if item.typ == ITEM_SIGNATURE && item.size == SIGNATURE_WORDS {
        signature := p;
      }
      ItemAtOffset(img, p);
      LastOffsetSnoc(seen, item, ITEM_IMAGE_TYPE, None);
      LastOffsetSnoc(seen, item, ITEM_VERSION, None);
      LastOffsetSnoc(seen, item, ITEM_SIGNATURE, Some(SIGNATURE_WORDS));
      if item.typ == ITEM_LAST {
        assert ItemsFrom(img, off, p) == Some(([item], p + 4));
        seen := seen + [item];
        p := p + 4;
        break;
      }
      if item.size == 0 {
        return false, b;
      }
      Regroup(seen, item, ItemsFrom(img, off, p + 4 * item.size));
      seen := seen + [item];
      p := p + 4 * item.size;
    }
    assert ItemsFrom(img, off, off + 4) == Some((seen, p));
    if p + 8 > |img| {
      return false, b;
    }
    b := FlatBlock(off, Signed32(Rd32(img, p)), imageType, version, signature, imageDef);
    ok := Rd32(img, p + 4) == BLOCK_END;
  }

  lemma NothingSeen(rest: Option<(seq<Item>, nat)>)
    ensures rest.Some? ==> [] + rest.value.0 == rest.value.0
  {
  }

  lemma NoneVisited(rest: Option<seq<Block>>)
    ensures rest.Some? ==> [] + rest.value == rest.value
  {
  }

  lemma NoOffset()
    ensures LastOffset([], ITEM_IMAGE_TYPE, None) == 0 && LastOffset([], ITEM_VERSION, None) == 0
    ensures LastOffset([], ITEM_SIGNATURE, Some(SIGNATURE_WORDS)) == 0
  {
  }

  lemma ItemAtOffset(img: seq<byte>, p: nat)
    requires p + 4 <= |img|
    ensures ItemAt(img, p).off == p
  {
  }

  lemma Regroup(seen: seq<Item>, item: Item, rest: Option<(seq<Item>, nat)>)
    ensures rest.Some? ==> seen + ([item] + rest.value.0) == (seen + [item]) + rest.value.0
  {
  }

  /** What `inspect` reports about the image it booted from. */
  datatype SignedImage = SignedImage(block: Option<nat>, major: nat, minor: nat, pubkey: seq<byte>, keyIndex: int)

  const NO_SIGNATURE := SignedImage(None, 0, 0, [], -1)

  /** The last of the keys that is this one, or -1. */
  function KeyIndex(pubkey: seq<byte>, keys: seq<seq<byte>>): (k: int)
    ensures -1 <= k < |keys| && (k >= 0 ==> keys[k] == pubkey) && forall j :: k < j < |keys| ==> keys[j] != pubkey
  {
    if keys == [] then -1
    else if keys[|keys| - 1] == pubkey then |keys| - 1
    else KeyIndex(pubkey, keys[..|keys| - 1])
  }

  /** Signature and version of the last IMAGE_DEF, read where the firmware's offsets point. */
  function Report(img: seq<byte>, last: Option<Block>, keys: seq<seq<byte>>): SignedImage
    requires last.Some? ==> BlockAt(img, last.value.off) == last
  {
    if last.None? || Flat(last.value).signature == 0 then NO_SIGNATURE
    else
      var f := Flat(last.value);
      PayloadsInside(img, last.value.off);
      var pub := img[f.signature + 4..f.signature + 68];
      SignedImage(Some(f.off),
                  if f.version == 0 then 0 else Rd16(img, f.version + 6),
                  if f.version == 0 then 0 else Rd16(img, f.version + 4),
                  pub, KeyIndex(pub, keys))
  }

  /** Every octet of version and public key that is read after the walk lies inside the image. */
  lemma PayloadsInside(img: seq<byte>, off: nat)
    requires BlockAt(img, off).Some?
    ensures var f := Flat(BlockAt(img, off).value);
            && (f.version != 0 ==> f.version + 8 <= |img|)
            && (f.signature != 0 ==> f.signature + 132 + 4 <= |img|)
  {
    hide BlockAt;
    BlockLaidOut(img, off);
    var items := BlockAt(img, off).value.items;
    var v, s := LastIndex(items, ITEM_VERSION, None), LastIndex(items, ITEM_SIGNATURE, Some(SIGNATURE_WORDS));
    if v.Some? {
      ItemRoom(img, items, v.value);
    }
    if s.Some? {
      ItemRoom(img, items, s.value);
    }
  }

  /** The first half of `inspect`: the first well-formed block, or -1. */
  method FindFirst(img: seq<byte>) returns (first: int)
    ensures first == match FirstBlock(img, 0) case None => -1 case Some(off) => off
  {
    hide BlockAt, Flat;
    var off: nat := 0;
    while off + 4 <= |img| && off < FIRST_BLOCK_SEARCH
      invariant off % 4 == 0 && FirstBlock(img, 0) == FirstBlock(img, off)
      decreases FIRST_BLOCK_SEARCH - off
    {
      var found, _ := Parse(img, off);
      if found {
        return off;
      }
      off := off + 4;
    }
    first := -1;
  }

  /** The second half: follow the links, keeping the last IMAGE_DEF. `visited` and `lastBlock` are
      ghosts of the blocks followed and of the one kept. */
  method FollowLoop(img: seq<byte>, first: nat)
    returns (ok: bool, haveDef: bool, last: FlatBlock, ghost lastBlock: Option<Block>, ghost visited: seq<Block>)
    requires FirstBlock(img, 0) == Some(first)
    ensures ok == BlockLoop(img).Some?
    ensures ok ==> visited == BlockLoop(img).value && lastBlock == LastDef(visited)
    ensures haveDef == lastBlock.Some?
    ensures haveDef ==> BlockAt(img, lastBlock.value.off) == lastBlock && last == Flat(lastBlock.value)
  {
    hide BlockAt, Flat, LastDef;
    last, haveDef, lastBlock, visited := FlatBlock(0, 0, 0, 0, 0, false), false, None, [];
    var off: nat := first;
    var i := 0;
    NoneVisited(Walk(img, first, off, MAX_BLOCKS));
    NoDef();
    while true
      invariant 0 <= i < MAX_BLOCKS
      invariant haveDef == lastBlock.Some? && lastBlock == LastDef(visited)
      invariant haveDef ==> BlockAt(img, lastBlock.value.off) == lastBlock && last == Flat(lastBlock.value)
      invariant BlockLoop(img)
                == match Walk(img, first, off, MAX_BLOCKS - i) case None => None case Some(rest) => Some(visited + rest)
      decreases MAX_BLOCKS - i
    {
      var good, b := Parse(img, off);
      if !good {
        return false, haveDef, last, lastBlock, visited;
      }
      ghost var block := BlockAt(img, off).value;
      FlatFields(img, off);
      if b.imageDef {
        last, haveDef, lastBlock := b, true, Some(block);
      }
      LastDefSnoc(visited, block);
      var next := off + b.link;
      RegroupBlocks(visited, block, if next < 0 then None else Walk(img, first, next, MAX_BLOCKS - i - 1));
      visited := visited + [block];
      if next == first {
        break;
      }
      if next < 0 || next >= |img| || i == MAX_BLOCKS - 1 {
        return false, haveDef, last, lastBlock, visited;
      }
      off := next;
      i := i + 1;
    }
    ok := true;
  }

  /** `inspect`: true exactly when the image has a closed block loop, with the report of its last
      IMAGE_DEF. `visited` is the ghost list of blocks it followed. */
  method Inspect(img: seq<byte>, keys: seq<seq<byte>>) returns (ok: bool, sig: SignedImage, ghost visited: seq<Block>)
    ensures ok == BlockLoop(img).Some?
    ensures ok ==> visited == BlockLoop(img).value
    ensures ok ==> var last := LastDef(BlockLoop(img).value);
                   (last.Some? ==> BlockAt(img, last.value.off) == last) && sig == Report(img, last, keys)
    ensures !ok ==> sig == NO_SIGNATURE
  {
    hide BlockAt, Flat, Report, Walk;
    sig, visited := NO_SIGNATURE, [];
    var first := FindFirst(img);
    if first == -1 {
      assert FirstBlock(img, 0) == None && BlockLoop(img) == None;
      return false, sig, [];
    }
    var haveDef, last;
    ghost var lastBlock;
    ok, haveDef, last, lastBlock, visited := FollowLoop(img, first);
    if !ok {
      return;
    }
    ReportOf(img, lastBlock, keys);
    if !haveDef || last.signature == 0 {
      return;
    }
    PayloadsInside(img, lastBlock.value.off);
    var minor, major := 0, 0;
    if last.version != 0 {
      minor := U16(img[last.version + 5], img[last.version + 4]);
      major := U16(img[last.version + 7], img[last.version + 6]);
    }
    var pub := img[last.signature + 4..last.signature + 68];
    var k := MatchKey(pub, keys);
    sig := SignedImage(Some(last.off), major, minor, pub, k);
  }

  lemma NoDef()
    ensures LastDef([]) == None
  {
  }

  lemma ReportOf(img: seq<byte>, last: Option<Block>, keys: seq<seq<byte>>)
    requires last.Some? ==> BlockAt(img, last.value.off) == last
    ensures last.None? || Flat(last.value).signature == 0 ==> Report(img, last, keys) == NO_SIGNATURE
    ensures last.Some? && Flat(last.value).signature != 0 ==>
              var f := Flat(last.value);
              && f.signature + 68 <= |img| && (f.version != 0 ==> f.version + 8 <= |img|)
              && var pub := img[f.signature + 4..f.signature + 68];
                 Report(img, last, keys)
                 == SignedImage(Some(f.off), if f.version == 0 then 0 else U16(img[f.version + 7], img[f.version + 6]),
                                if f.version == 0 then 0 else U16(img[f.version + 5], img[f.version + 4]),
                                pub, KeyIndex(pub, keys))
  {
    if last.Some? {
      PayloadsInside(img, last.value.off);
    }
  }

  lemma FlatFields(img: seq<byte>, off: nat)
    requires BlockAt(img, off).Some?
    ensures var b := BlockAt(img, off).value; b.off == off && Flat(b).imageDef == IsImageDef(b) && Flat(b).link == b.link
  {
  }

  lemma LastDefSnoc(bs: seq<Block>, b: Block)
    ensures LastDef(bs + [b]) == if IsImageDef(b) then Some(b) else LastDef(bs)
  {
    assert (bs + [b])[..|bs|] == bs;
  }

  lemma RegroupBlocks(seen: seq<Block>, b: Block, rest: Option<seq<Block>>)
    ensures rest.Some? ==> seen + ([b] + rest.value) == (seen + [b]) + rest.value
  {
  }

  method MatchKey(pub: seq<byte>, keys: seq<seq<byte>>) returns (index: int)
    ensures index == KeyIndex(pub, keys)
  {
    index := -1;
    for k := 0 to |keys|
      invariant index == KeyIndex(pub, keys[..k])
    {
      assert keys[..k + 1][..k] == keys[..k];
      if keys[k] == pub {
        index := k;
      }
    }
    assert keys[..|keys|] == keys;
  }

  // ------------------------------------------------------------------ the host tool's reader

  /** `parse_block`: the list of items, in order. */
  method ParseBlock(img: seq<byte>, off: nat) returns (r: Option<Block>)
    ensures r == BlockAt(img, off)
  {
    hide Rd32, ItemAt, Signed32;
    if off + 4 > |img| || Rd32(img, off) != BLOCK_START {
      return None;
    }
    var items: seq<Item> := [];
    var p := off + 4;
    NothingSeen(ItemsFrom(img, off, p));
    while true
      invariant p >= off + 4
      invariant ItemsFrom(img, off, off + 4)
                == match ItemsFrom(img, off, p) case None => None case Some((rest, e)) => Some((items + rest, e))
      decreases |img| - p
    {
      if p + 4 > |img| || p - off > MAX_BLOCK_BYTES {
        return None;
      }
      var item := ItemAt(img, p);
      if item.typ != ITEM_LAST && item.size != 0 {
        Regroup(items, item, ItemsFrom(img, off, p + 4 * item.size));
      }
      items := items + [item];
      if item.typ == ITEM_LAST {
        p := p + 4;
        break;
      }
      if item.size == 0 {
        return None;
      }
      p := p + 4 * item.size;
    }
    if p + 8 > |img| {
      return None;
    }
    if Rd32(img, p + 4) != BLOCK_END {
      return None;
    }
    r := Some(Block(off, items, Signed32(Rd32(img, p))));
  }

  /** `block_loop`: the blocks in list order, or the empty list. */
  method BlockLoopList(img: seq<byte>) returns (blocks: seq<Block>)
    ensures blocks == match BlockLoop(img) case None => [] case Some(bs) => bs
    ensures blocks == [] <==> BlockLoop(img).None?
  {
    hide BlockAt;
    var first: int := -1;
    var off := 0;
    var stop := (if |img| < FIRST_BLOCK_SEARCH then |img| else FIRST_BLOCK_SEARCH) - 3;
    while off < stop
      invariant off % 4 == 0 && FirstBlock(img, 0) == FirstBlock(img, off)
      decreases FIRST_BLOCK_SEARCH - off
    {
      var b := ParseBlock(img, off);
      if b.Some? {
        first := off;
        break;
      }
      off := off + 4;
    }
    if first == -1 {
      return [];
    }
    blocks := [];
    NoneVisited(Walk(img, first, off, MAX_BLOCKS));
    for i := 0 to MAX_BLOCKS
      invariant |blocks| == i && first >= 0 && off >= 0 && FirstBlock(img, 0) == Some(first)
      invariant BlockLoop(img)
                == match Walk(img, first, off, MAX_BLOCKS - i) case None => None case Some(rest) => Some(blocks + rest)
    {
      var b := ParseBlock(img, off);
      if b.None? {
        return [];
      }
      var nxt := off + b.value.link;
      RegroupBlocks(blocks, b.value, if nxt < 0 then None else Walk(img, first, nxt, MAX_BLOCKS - i - 1));
      blocks := blocks + [b.value];
      if nxt == first {
        return blocks;
      }
      if nxt < 0 || nxt >= |img| {
        return [];
      }
      off := nxt;
    }
    blocks := [];
  }

  /** `Block.item`: size and offset of the first item of a type. */
  function ItemOf(b: Block, typ: nat): Option<(nat, nat)> {
    match FirstIndex(b.items, typ)
    case None => None
    case Some(i) => Some((b.items[i].size, b.items[i].off))
  }

  /** `signature`: where the public key starts, if the SIGNATURE item is 33 words. */
  function ToolSignature(b: Block): Option<nat> {
    match ItemOf(b, ITEM_SIGNATURE)
    case None => None
    case Some((size, off)) => if size == SIGNATURE_WORDS then Some(off) else None
  }

  /** `version`: where the version is, if there is one. */
  function ToolVersion(b: Block): Option<nat> {
    match ItemOf(b, ITEM_VERSION)
    case None => None
    case Some((_, off)) => Some(off)
  }

  /** `signed_image_def`: the last IMAGE_DEF, if it has a SIGNATURE item of any size. */
  method SignedImageDef(img: seq<byte>) returns (r: Option<Block>)
    ensures r == match BlockLoop(img)
                 case None => None
                 case Some(bs) => if LastDef(bs).Some? && ItemOf(LastDef(bs).value, ITEM_SIGNATURE).Some? then LastDef(bs) else None
  {
    hide BlockLoop;
    var blocks := BlockLoopList(img);
    var last: Option<Block> := None;
    for i := 0 to |blocks|
      invariant last == LastDef(blocks[..i])
    {
      LastDefSnoc(blocks[..i], blocks[i]);
      assert blocks[..i + 1] == blocks[..i] + [blocks[i]];
      if IsImageDef(blocks[i]) {
        last := Some(blocks[i]);
      }
    }
    assert blocks[..|blocks|] == blocks;
    r := if last.Some? && ItemOf(last.value, ITEM_SIGNATURE).Some? then last else None;
  }

  // ------------------------------------------------------------------ where the two agree

  function AsOption(off: nat): Option<nat> {
    if off == 0 then None else Some(off)
  }

  /** The two readers find the same public key exactly when every 33-word SIGNATURE item is the
      first SIGNATURE item; in particular whenever the type is not repeated. */
  lemma SignaturesAgreeIff(img: seq<byte>, off: nat)
    requires BlockAt(img, off).Some?
    ensures var b := BlockAt(img, off).value;
            AsOption(Flat(b).signature) == ToolSignature(b)
            <==> forall j :: 0 <= j < |b.items| && Matches(b.items[j], ITEM_SIGNATURE, Some(SIGNATURE_WORDS)) ==>
                   forall i :: 0 <= i < j ==> b.items[i].typ != ITEM_SIGNATURE
  {
    hide BlockAt;
    BlockLaidOut(img, off);
    var items := BlockAt(img, off).value.items;
    var last, first := LastIndex(items, ITEM_SIGNATURE, Some(SIGNATURE_WORDS)), FirstIndex(items, ITEM_SIGNATURE);
    if last.Some? && first.Some? && first.value < last.value {
      OffsetsIncrease(items, first.value, last.value);
    }
  }

  /** Likewise for the version, which the firmware takes from the last such item and the tool from
      the first: they agree exactly when there is at most one. */
  lemma VersionsAgreeIff(img: seq<byte>, off: nat)
    requires BlockAt(img, off).Some?
    ensures var b := BlockAt(img, off).value;
            AsOption(Flat(b).version) == ToolVersion(b)
            <==> forall i, j :: 0 <= i < j < |b.items| ==> !(b.items[i].typ == ITEM_VERSION && b.items[j].typ == ITEM_VERSION)
  {
    hide BlockAt;
    BlockLaidOut(img, off);
    var items := BlockAt(img, off).value.items;
    var last, first := LastIndex(items, ITEM_VERSION, None), FirstIndex(items, ITEM_VERSION);
    if last.Some? && first.Some? && first.value < last.value {
      OffsetsIncrease(items, first.value, last.value);
    }
  }

  ghost predicate NoRepeats(b: Block) {
    forall i, j :: 0 <= i < j < |b.items| ==> b.items[i].typ != b.items[j].typ
  }

  lemma NothingLost(img: seq<byte>, b: Block)
    requires BlockAt(img, b.off) == Some(b) && NoRepeats(b)
    requires ToolSignature(b).None? ==> ItemOf(b, ITEM_SIGNATURE).None?
    ensures AsOption(Flat(b).signature) == ToolSignature(b) && AsOption(Flat(b).version) == ToolVersion(b)
  {
    hide BlockAt, Flat, ToolSignature, ToolVersion;
    SignaturesAgreeIff(img, b.off);
    VersionsAgreeIff(img, b.off);
  }

  /** On a boot block that repeats no item type and whose SIGNATURE item, if any, is 33 words, the
      firmware reports a signed image exactly when the tool finds a signed one, with the same public
      key octets and the same version octets. */
  lemma ReadersAgree(img: seq<byte>, b: Block, keys: seq<seq<byte>>)
    ensures BlockAt(img, b.off) == Some(b) && NoRepeats(b) && (ToolSignature(b).None? ==> ItemOf(b, ITEM_SIGNATURE).None?) ==>
              var report := Report(img, Some(b), keys);
              && (report.block.Some? <==> ItemOf(b, ITEM_SIGNATURE).Some?)
              && (report.block.Some? ==>
                    && report.block == Some(b.off)
                    && ToolSignature(b).Some? && ToolSignature(b).value + 68 <= |img|
                    && report.pubkey == img[ToolSignature(b).value + 4..ToolSignature(b).value + 68]
                    && (ToolVersion(b).Some? ==>
                          && ToolVersion(b).value + 8 <= |img|
                          && report.minor == Rd16(img, ToolVersion(b).value + 4)
                          && report.major == Rd16(img, ToolVersion(b).value + 6)))
  {
    hide BlockAt, ToolSignature, ToolVersion, FirstIndex;
    if BlockAt(img, b.off) == Some(b) && NoRepeats(b) && (ToolSignature(b).None? ==> ItemOf(b, ITEM_SIGNATURE).None?) {
      NothingLost(img, b);
      ToolFinds(b);
      FlatFields(img, b.off);
      ReportOf(img, Some(b), keys);
      FlatOffset(b);
    }
  }

  lemma FlatOffset(b: Block)
    ensures Flat(b).off == b.off
  {
  }

  lemma ToolFinds(b: Block)
    ensures ToolSignature(b).Some? ==> ItemOf(b, ITEM_SIGNATURE).Some?
  {
  }

  // ------------------------------------------------------------------ where the two do not agree

  /** A block at the start of an image, with three items before the terminator. */
  lemma FourItems(img: seq<byte>, i1: Item, i2: Item, i3: Item, last: Item, e: nat)
    requires i1.off == 4 && i2.off == 4 + 4 * i1.size && i3.off == i2.off + 4 * i2.size && last.off == i3.off + 4 * i3.size
    requires e == last.off + 4 && e + 8 <= |img| && e <= MAX_BLOCK_BYTES && i1.size > 0 && i2.size > 0 && i3.size > 0
    requires ItemAt(img, 4) == i1 && ItemAt(img, i2.off) == i2 && ItemAt(img, i3.off) == i3 && ItemAt(img, last.off) == last
    requires i1.typ != ITEM_LAST && i2.typ != ITEM_LAST && i3.typ != ITEM_LAST && last.typ == ITEM_LAST
    requires Rd32(img, 0) == BLOCK_START && Rd32(img, e) == 0 && Rd32(img, e + 4) == BLOCK_END
    ensures BlockAt(img, 0) == Some(Block(0, [i1, i2, i3, last], 0))
  {
    hide ItemsFrom, ItemAt, Rd32;
    LastItem(img, 0, last.off);
    ItemsStep(img, 0, i3.off, i3, [last], e);
    ItemsStep(img, 0, i2.off, i2, [i3] + [last], e);
    ItemsStep(img, 0, 4, i1, [i2] + ([i3] + [last]), e);
    assert [i1] + ([i2] + ([i3] + [last])) == [i1, i2, i3, last];
  }

  const VERSION_WORD: Word := [0x48, 0x02, 0x00, 0x00]

  /** An image with two VERSION items, 2.1 and then 4.3. */
  const TWO_VERSIONS: seq<Word> := [START_WORD, IMAGE_TYPE_WORD, VERSION_WORD, [1, 0, 2, 0], VERSION_WORD, [3, 0, 4, 0],
                                    LAST_WORD, ZERO_WORD, END_WORD]
  const TWO_VERSIONS_BLOCK := Block(0, [Item(0x42, 1, 4), Item(0x48, 2, 8), Item(0x48, 2, 16), Item(0x7F, 1, 24)], 0)

  lemma TwoVersionsItems()
    ensures var img := Spelled(TWO_VERSIONS);
            && ItemAt(img, 4) == Item(0x42, 1, 4) && ItemAt(img, 8) == Item(0x48, 2, 8)
            && ItemAt(img, 16) == Item(0x48, 2, 16) && ItemAt(img, 24) == Item(0x7F, 1, 24)
  {
    hide Spelled, ItemAt;
    WordReads(TWO_VERSIONS, 1);
    WordReads(TWO_VERSIONS, 2);
    WordReads(TWO_VERSIONS, 4);
    WordReads(TWO_VERSIONS, 6);
  }

  lemma TwoVersionsFrame()
    ensures var img := Spelled(TWO_VERSIONS);
            Rd32(img, 0) == BLOCK_START && Rd32(img, 28) == 0 && Rd32(img, 32) == BLOCK_END
  {
    hide Spelled, Rd32;
    Markers();
    WordReads(TWO_VERSIONS, 0);
    WordReads(TWO_VERSIONS, 7);
    WordReads(TWO_VERSIONS, 8);
  }

  lemma TwoVersionsNumbers()
    ensures var img := Spelled(TWO_VERSIONS);
            Rd16(img, 20) == 3 && Rd16(img, 22) == 4 && Rd16(img, 12) == 1 && Rd16(img, 14) == 2
  {
    hide Spelled, Rd16;
    WordReads(TWO_VERSIONS, 3);
    WordReads(TWO_VERSIONS, 5);
  }

  lemma TwoVersionsParse()
    ensures BlockAt(Spelled(TWO_VERSIONS), 0) == Some(TWO_VERSIONS_BLOCK)
  {
    hide BlockAt, ItemAt, Rd32, Spelled;
    TwoVersionsFrame();
    TwoVersionsItems();
    FourItems(Spelled(TWO_VERSIONS), Item(0x42, 1, 4), Item(0x48, 2, 8), Item(0x48, 2, 16), Item(0x7F, 1, 24), 28);
  }

  lemma FirstOf(items: seq<Item>, typ: nat, k: nat)
    requires k < |items| && items[k].typ == typ && forall j :: 0 <= j < k ==> items[j].typ != typ
    ensures FirstIndex(items, typ) == Some(k)
  {
    var i := FirstIndex(items, typ);
  }

  lemma LastOf(items: seq<Item>, typ: nat, words: Option<nat>, k: nat)
    requires k < |items| && Matches(items[k], typ, words) && forall j :: k < j < |items| ==> !Matches(items[j], typ, words)
    ensures LastIndex(items, typ, words) == Some(k)
  {
    var i := LastIndex(items, typ, words);
  }

  /** Both readers accept it and boot the same block; the firmware reads 4.3 and the tool 2.1. */
  lemma VersionsDisagree()
    ensures var img, b := Spelled(TWO_VERSIONS), TWO_VERSIONS_BLOCK;
            && BlockLoop(img) == Some([b]) && LastDef([b]) == Some(b)
            && AsOption(Flat(b).version) == Some(16) && ToolVersion(b) == Some(8)
            && Rd16(img, 20) == 3 && Rd16(img, 22) == 4 && Rd16(img, 12) == 1 && Rd16(img, 14) == 2
  {
    hide BlockAt, Rd16, Spelled, LastIndex, FirstIndex, BlockLoop;
    TwoVersionsNumbers();
    TwoVersionsParse();
    var b := TWO_VERSIONS_BLOCK;
    OneBlockLoop(Spelled(TWO_VERSIONS), b);
    LastOf(b.items, ITEM_VERSION, None, 2);
    FirstOf(b.items, ITEM_VERSION, 1);
  }

  /** An image with a SIGNATURE item of one word before one of 33. */
  const TWO_SIGNATURES: seq<Word> := [START_WORD, IMAGE_TYPE_WORD, [0x09, 0x01, 0x00, 0x00], [0x09, 0x21, 0x00, 0x00]]
                                     + seq(32, _ => ZERO_WORD) + [[0xFF, 0x23, 0x00, 0x00], ZERO_WORD, END_WORD]
  const TWO_SIGNATURES_BLOCK := Block(0, [Item(0x42, 1, 4), Item(0x09, 1, 8), Item(0x09, 33, 12), Item(0x7F, 35, 144)], 0)

  lemma TwoSignaturesWords()
    ensures |TWO_SIGNATURES| == 39
    ensures TWO_SIGNATURES[0] == START_WORD && TWO_SIGNATURES[1] == IMAGE_TYPE_WORD
    ensures TWO_SIGNATURES[2] == [0x09, 0x01, 0x00, 0x00] && TWO_SIGNATURES[3] == [0x09, 0x21, 0x00, 0x00]
    ensures TWO_SIGNATURES[36] == [0xFF, 0x23, 0x00, 0x00] && TWO_SIGNATURES[37] == ZERO_WORD && TWO_SIGNATURES[38] == END_WORD
  {
  }

  lemma TwoSignaturesItems()
    ensures |Spelled(TWO_SIGNATURES)| == 156
    ensures var img := Spelled(TWO_SIGNATURES);
            && ItemAt(img, 4) == Item(0x42, 1, 4) && ItemAt(img, 8) == Item(0x09, 1, 8)
            && ItemAt(img, 12) == Item(0x09, 33, 12) && ItemAt(img, 144) == Item(0x7F, 35, 144)
  {
    hide Spelled, ItemAt, TWO_SIGNATURES;
    TwoSignaturesWords();
    WordReads(TWO_SIGNATURES, 1);
    WordReads(TWO_SIGNATURES, 2);
    WordReads(TWO_SIGNATURES, 3);
    WordReads(TWO_SIGNATURES, 36);
  }

  lemma TwoSignaturesFrame()
    ensures |Spelled(TWO_SIGNATURES)| == 156
    ensures var img := Spelled(TWO_SIGNATURES);
            Rd32(img, 0) == BLOCK_START && Rd32(img, 148) == 0 && Rd32(img, 152) == BLOCK_END
  {
    hide Spelled, Rd32, TWO_SIGNATURES;
    TwoSignaturesWords();
    Markers();
    WordReads(TWO_SIGNATURES, 0);
    WordReads(TWO_SIGNATURES, 37);
    WordReads(TWO_SIGNATURES, 38);
  }

  lemma TwoSignaturesParse()
    ensures |Spelled(TWO_SIGNATURES)| == 156 && BlockAt(Spelled(TWO_SIGNATURES), 0) == Some(TWO_SIGNATURES_BLOCK)
  {
    hide BlockAt, ItemAt, Rd32, TWO_SIGNATURES, Spelled;
    TwoSignaturesItems();
    TwoSignaturesFrame();
    FourItems(Spelled(TWO_SIGNATURES), Item(0x42, 1, 4), Item(0x09, 1, 8), Item(0x09, 33, 12), Item(0x7F, 35, 144), 148);
  }

  /** The firmware takes the second as the signature; the tool finds none it can use. */
  lemma SignaturesDisagree()
    ensures var b := TWO_SIGNATURES_BLOCK;
            && BlockLoop(Spelled(TWO_SIGNATURES)) == Some([b]) && LastDef([b]) == Some(b)
            && AsOption(Flat(b).signature) == Some(12) && ToolSignature(b) == None
  {
    hide BlockAt, TWO_SIGNATURES, Spelled, LastIndex, FirstIndex, BlockLoop;
    TwoSignaturesParse();
    var b := TWO_SIGNATURES_BLOCK;
    OneBlockLoop(Spelled(TWO_SIGNATURES), b);
    LastOf(b.items, ITEM_SIGNATURE, Some(SIGNATURE_WORDS), 2);
    FirstOf(b.items, ITEM_SIGNATURE, 1);
  }
}
