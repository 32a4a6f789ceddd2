/** The T=1 over I2C link: CRC, one block exchange, and the wait-extension loop around it. */
module Link {
  type octet = bv8
  type Register = bv16

  // ------------------------------------------------------------------ CRC-16/X.25

  function Shift(c: Register): Register {
    if c & 1 == 1 then (c >> 1) ^ 0x8408 else c >> 1
  }

  function Shift8(c: Register): Register {
    Shift(Shift(Shift(Shift(Shift(Shift(Shift(Shift(c))))))))
  }

  function Mix(c: Register, b: octet): Register {
    c ^ (b as bv16)
  }

  function Absorb(c: Register, b: octet): Register {
    Shift8(Mix(c, b))
  }

  /** The register after a whole frame, from state `c`. */
  function Feed(c: Register, s: seq<octet>): Register
    decreases |s|
  {
    if s == [] then c else Absorb(Feed(c, s[..|s| - 1]), s[|s| - 1])
  }

  function Swap(c: Register): Register {
    (c << 8) | (c >> 8)
  }

  /** Complemented and byte-swapped, as it goes on the wire big-endian. */
  function OnWire(c: Register): Register {
    Swap(c ^ 0xFFFF)
  }

  function Crc(s: seq<octet>): Register {
    OnWire(Feed(0xFFFF, s))
  }

  function Hi(c: Register): octet {
    (c >> 8) as bv8
  }

  function Lo(c: Register): octet {
    (c & 0xFF) as bv8
  }

  /** A frame whose last two octets are the CRC of the rest. */
  predicate CrcOk(s: seq<octet>) {
    |s| >= 2 && s[|s| - 2] == Hi(Crc(s[..|s| - 2])) && s[|s| - 1] == Lo(Crc(s[..|s| - 2]))
  }

  function Shifts(c: Register, n: nat): Register {
    if n == 0 then c else Shift(Shifts(c, n - 1))
  }

  lemma EightShifts(c: Register)
    ensures Shifts(c, 8) == Shift8(c)
  {
    hide Shift;
    assert Shifts(c, 2) == Shift(Shift(Shifts(c, 0)));
    assert Shifts(c, 4) == Shift(Shift(Shifts(c, 2)));
    assert Shifts(c, 6) == Shift(Shift(Shifts(c, 4)));
    assert Shifts(c, 8) == Shift(Shift(Shifts(c, 6)));
  }

  /** The driver's bit loop. */
  method AbsorbOctet(c: Register, b: octet) returns (cal: Register)
    ensures cal == Absorb(c, b)
  {
    hide Shift8, Shifts;
    cal := Mix(c, b);
    ghost var start := cal;
    ShiftsFirst(start);
    for bit := 0 to 8
      invariant cal == Shifts(start, bit)
    {
      ShiftsNext(start, bit);
      cal := if cal & 1 == 1 then (cal >> 1) ^ 0x8408 else cal >> 1;
    }
    EightShifts(start);
  }

  lemma ShiftsFirst(c: Register)
    ensures Shifts(c, 0) == c
  {
  }

  lemma ShiftsNext(c: Register, n: nat)
    ensures Shifts(c, n + 1) == Shift(Shifts(c, n))
  {
  }

  method ComputeCrc(data: seq<octet>) returns (c: Register)
    ensures c == Crc(data)
  {
    hide Absorb, OnWire;
    var cal: Register := 0xFFFF;
    for i := 0 to |data|
      invariant cal == Feed(0xFFFF, data[..i])
    {
      assert data[..i + 1][..i] == data[..i];
      cal := AbsorbOctet(cal, data[i]);
    }
    assert data[..|data|] == data;
    c := OnWire(cal);
  }

  // ------------------------------------------------------------------ what it detects

  /** One shift is a bijection: the bit shifted out reappears as the top bit. */
  lemma ShiftInjective(c: Register, d: Register)
    requires Shift(c) == Shift(d)
    ensures c == d
  {
  }

  lemma Shift8Injective(c: Register, d: Register)
    requires Shift8(c) == Shift8(d)
    ensures c == d
  {
    hide Shift;
    ShiftInjective(Shift(Shift(Shift(Shift(Shift(Shift(Shift(c))))))), Shift(Shift(Shift(Shift(Shift(Shift(Shift(d))))))));
    ShiftInjective(Shift(Shift(Shift(Shift(Shift(Shift(c)))))), Shift(Shift(Shift(Shift(Shift(Shift(d)))))));
    ShiftInjective(Shift(Shift(Shift(Shift(Shift(c))))), Shift(Shift(Shift(Shift(Shift(d))))));
    ShiftInjective(Shift(Shift(Shift(Shift(c)))), Shift(Shift(Shift(Shift(d)))));
    ShiftInjective(Shift(Shift(Shift(c))), Shift(Shift(Shift(d))));
    ShiftInjective(Shift(Shift(c)), Shift(Shift(d)));
    ShiftInjective(Shift(c), Shift(d));
    ShiftInjective(c, d);
  }

  lemma XorInjective(c: Register, d: Register, b: octet)
    requires Mix(c, b) == Mix(d, b)
    ensures c == d
  {
  }

  lemma XorInjectiveOctet(c: Register, a: octet, b: octet)
    requires Mix(c, a) == Mix(c, b)
    ensures a == b
  {
  }

  lemma AbsorbInjective(c: Register, d: Register, b: octet)
    requires Absorb(c, b) == Absorb(d, b)
    ensures c == d
  {
    hide Shift8, Mix;
    Shift8Injective(Mix(c, b), Mix(d, b));
    XorInjective(c, d, b);
  }

  /** Different registers stay different under the same octets. */
  lemma {:induction false} FeedInjective(c: Register, d: Register, s: seq<octet>)
    requires c != d
    ensures Feed(c, s) != Feed(d, s)
    decreases |s|
  {
    if s == [] {
    } else {
      hide Absorb;
      var t, b := s[..|s| - 1], s[|s| - 1];
      FeedInjective(c, d, t);
      if Feed(c, s) == Feed(d, s) {
        AbsorbInjective(Feed(c, t), Feed(d, t), b);
      }
    }
  }

  function High(c: Register): Register {
    c >> 8
  }

  /** The high octet after eight shifts comes from the low octet alone. */
  lemma HighFromLow(x: Register)
    ensures High(Shift8(x)) == High(Shift8(x & 0xFF))
  {
  }

  lemma LowInjective(u: octet, v: octet)
    requires u != v
    ensures High(Shift8(u as bv16)) != High(Shift8(v as bv16))
  {
  }

  lemma MixLow(c: Register, a: octet, b: octet)
    requires a != b
    ensures Mix(c, a) & 0xFF == Lo(Mix(c, a)) as bv16 && Mix(c, b) & 0xFF == Lo(Mix(c, b)) as bv16
    ensures Lo(Mix(c, a)) != Lo(Mix(c, b))
  {
  }

  /** Two registers that differ in the low octet only cannot come out of eight shifts with the same
      high octet, whatever octet is then absorbed. */
  lemma HighOctetsDiffer(c: Register, a: octet, b: octet)
    requires a != b
    ensures High(Absorb(c, a)) != High(Absorb(c, b))
  {
    hide Shift8, Mix, High, Lo;
    MixLow(c, a, b);
    HighFromLow(Mix(c, a));
    HighFromLow(Mix(c, b));
    LowInjective(Lo(Mix(c, a)), Lo(Mix(c, b)));
  }

  lemma LowXorKeepsHigh(x: Register, y: Register, a: octet, b: octet)
    requires Mix(x, a) == Mix(y, b)
    ensures High(x) == High(y)
  {
  }

  /** One or two adjacent octets, not both right, leave a different register. */
  lemma PairDiffers(c: Register, a1: octet, a2: octet, b1: octet, b2: octet)
    requires a1 != b1 || a2 != b2
    ensures Absorb(Absorb(c, a1), a2) != Absorb(Absorb(c, b1), b2)
  {
    hide Shift8, Mix, High;
    var x, y := Absorb(c, a1), Absorb(c, b1);
    if Absorb(x, a2) == Absorb(y, b2) {
      Shift8Injective(Mix(x, a2), Mix(y, b2));
      LowXorKeepsHigh(x, y, a2, b2);
      if a1 != b1 {
        HighOctetsDiffer(c, a1, b1);
      } else {
        XorInjectiveOctet(x, a2, b2);
      }
    }
  }

  lemma {:induction false} FeedAppend(c: Register, s: seq<octet>, t: seq<octet>)
    ensures Feed(c, s + t) == Feed(Feed(c, s), t)
    decreases |t|
  {
    if t == [] {
      assert s + t == s;
    } else {
      hide Absorb;
      FeedAppend(c, s, t[..|t| - 1]);
      assert (s + t)[..|s + t| - 1] == s + t[..|t| - 1];
    }
  }

  lemma FeedTwo(c: Register, a: octet, b: octet)
    ensures Feed(c, [a, b]) == Absorb(Absorb(c, a), b)
  {
    hide Absorb;
    assert [a, b][..1] == [a] && [a][..0] == [];
    assert Feed(c, [a]) == Absorb(Feed(c, []), a);
  }

  /** Frames that differ somewhere in two adjacent octets, and nowhere else, have different
      registers. */
  lemma FramesDiffer(c: Register, pre: seq<octet>, a1: octet, a2: octet, b1: octet, b2: octet, post: seq<octet>)
    requires a1 != b1 || a2 != b2
    ensures Feed(c, pre + [a1, a2] + post) != Feed(c, pre + [b1, b2] + post)
  {
    hide Absorb;
    var x := Feed(c, pre);
    FeedAppend(c, pre, [a1, a2]);
    FeedAppend(c, pre, [b1, b2]);
    FeedAppend(c, pre + [a1, a2], post);
    FeedAppend(c, pre + [b1, b2], post);
    FeedTwo(x, a1, a2);
    FeedTwo(x, b1, b2);
    PairDiffers(x, a1, a2, b1, b2);
    FeedInjective(Absorb(Absorb(x, a1), a2), Absorb(Absorb(x, b1), b2), post);
  }

  /** No two frames of any length that differ in one octet, or in two adjacent ones, share a CRC. */
  lemma CrcDiffers(pre: seq<octet>, a1: octet, a2: octet, b1: octet, b2: octet, post: seq<octet>)
    requires a1 != b1 || a2 != b2
    ensures Crc(pre + [a1, a2] + post) != Crc(pre + [b1, b2] + post)
  {
    hide OnWire;
    FramesDiffer(0xFFFF, pre, a1, a2, b1, b2, post);
    SwapInjective(Feed(0xFFFF, pre + [a1, a2] + post), Feed(0xFFFF, pre + [b1, b2] + post));
  }

  lemma SwapInjective(c: Register, d: Register)
    requires c != d
    ensures OnWire(c) != OnWire(d)
  {
  }

  /** The register of a whole well-formed frame, CRC included, is one constant. */
  const RESIDUE: Register := 0xF0B8

  lemma ResidueOfPair(c: Register)
    ensures var w := OnWire(c); Absorb(Absorb(c, Hi(w)), Lo(w)) == RESIDUE
  {
  }

  lemma ResidueIff(s: seq<octet>)
    requires |s| >= 2
    ensures CrcOk(s) <==> Feed(0xFFFF, s) == RESIDUE
  {
    hide Absorb, OnWire, Hi, Lo;
    var m, a, b := s[..|s| - 2], s[|s| - 2], s[|s| - 1];
    var c := Feed(0xFFFF, m);
    var w := OnWire(c);
    assert s == m + [a, b];
    FeedAppend(0xFFFF, m, [a, b]);
    FeedTwo(c, a, b);
    ResidueOfPair(c);
    if a != Hi(w) || b != Lo(w) {
      PairDiffers(c, a, b, Hi(w), Lo(w));
    }
  }

  /** A frame corrupted in one octet, or in two adjacent ones, anywhere including its CRC, never
      passes the check a genuine frame passes. */
  lemma CorruptionDetected(pre: seq<octet>, a1: octet, a2: octet, b1: octet, b2: octet, post: seq<octet>)
    requires a1 != b1 || a2 != b2
    requires CrcOk(pre + [a1, a2] + post)
    ensures !CrcOk(pre + [b1, b2] + post)
  {
    hide CrcOk;
    ResidueIff(pre + [a1, a2] + post);
    ResidueIff(pre + [b1, b2] + post);
    FramesDiffer(0xFFFF, pre, a1, a2, b1, b2, post);
  }

  // ------------------------------------------------------------------ published values

  lemma FeedLast(s: seq<octet>, t: seq<octet>, c: Register, d: Register)
    requires |t| == |s| + 1 && t[..|s|] == s && Feed(0xFFFF, s) == c && Absorb(c, t[|s|]) == d
    ensures Feed(0xFFFF, t) == d
  {
    hide Absorb;
  }

  lemma AbsorbFirst()
    ensures Absorb(0xFFFF, 0x31) == 0x2F8D && Absorb(0x2F8D, 0x32) == 0x4D53 && Absorb(0x4D53, 0x33) == 0x634B
  {
  }

  lemma AbsorbSecond()
    ensures Absorb(0x634B, 0x34) == 0x8B13 && Absorb(0x8B13, 0x35) == 0x44BF && Absorb(0x44BF, 0x36) == 0x198D
  {
  }

  lemma AbsorbThird()
    ensures Absorb(0x198D, 0x37) == 0x1AC8 && Absorb(0x1AC8, 0x38) == 0xF795 && Absorb(0xF795, 0x39) == 0x6F91
  {
  }

  const DIGITS: seq<octet> := [0x31, 0x32, 0x33, 0x34, 0x35, 0x36, 0x37, 0x38, 0x39]

  /** The check value of CRC-16/X.25, 906E over the nine digits, byte-swapped as this link sends it. */
  lemma CheckValueOfDigits()
    ensures Crc(DIGITS) == 0x6E90
  {
    hide Absorb, Feed;
    AbsorbFirst();
    AbsorbSecond();
    AbsorbThird();
    assert Feed(0xFFFF, []) == 0xFFFF by {
      FeedNothing();
    }
    FeedLast([], [0x31], 0xFFFF, 0x2F8D);
    FeedLast([0x31], [0x31, 0x32], 0x2F8D, 0x4D53);
    FeedLast([0x31, 0x32], [0x31, 0x32, 0x33], 0x4D53, 0x634B);
    FeedLast([0x31, 0x32, 0x33], [0x31, 0x32, 0x33, 0x34], 0x634B, 0x8B13);
    FeedLast([0x31, 0x32, 0x33, 0x34], [0x31, 0x32, 0x33, 0x34, 0x35], 0x8B13, 0x44BF);
    FeedLast([0x31, 0x32, 0x33, 0x34, 0x35], [0x31, 0x32, 0x33, 0x34, 0x35, 0x36], 0x44BF, 0x198D);
    FeedLast([0x31, 0x32, 0x33, 0x34, 0x35, 0x36], [0x31, 0x32, 0x33, 0x34, 0x35, 0x36, 0x37], 0x198D, 0x1AC8);
    FeedLast([0x31, 0x32, 0x33, 0x34, 0x35, 0x36, 0x37], [0x31, 0x32, 0x33, 0x34, 0x35, 0x36, 0x37, 0x38], 0x1AC8, 0xF795);
    FeedLast([0x31, 0x32, 0x33, 0x34, 0x35, 0x36, 0x37, 0x38], [0x31, 0x32, 0x33, 0x34, 0x35, 0x36, 0x37, 0x38, 0x39], 0xF795, 0x6F91);
  }

  lemma FeedNothing()
    ensures Feed(0xFFFF, []) == 0xFFFF
  {
  }

  lemma AbsorbReset()
    ensures Absorb(0xFFFF, 0x5A) == 0xF258 && Absorb(0xF258, 0xCF) == 0xE0C4 && Absorb(0xE0C4, 0x00) == 0x80C8
  {
  }

  /** The interface reset on the wire: 5A CF 00 and its CRC, high octet first. */
  lemma ResetOctets()
    ensures WithCrc([0x5A, 0xCF, 0x00]) == [0x5A, 0xCF, 0x00, 0x37, 0x7F]
  {
    hide Absorb, Feed;
    AbsorbReset();
    FeedNothing();
    FeedLast([], [0x5A], 0xFFFF, 0xF258);
    FeedLast([0x5A], [0x5A, 0xCF], 0xF258, 0xE0C4);
    FeedLast([0x5A, 0xCF], [0x5A, 0xCF, 0x00], 0xE0C4, 0x80C8);
    assert Crc([0x5A, 0xCF, 0x00]) == 0x377F;
  }

  // ------------------------------------------------------------------ one block exchange

  const NAD_HOST_TO_SE: octet := 0x5A
  const NAD_SE_TO_HOST: octet := 0xA5
  const PCB_WTX_REQUEST: octet := 0xC3
  const PCB_WTX_RESPONSE: octet := 0xE3
  const MAX_WTX_GRANTS: nat := 20

  function Announced(len: octet): (n: nat)
    ensures n < 256
  {
    len as nat
  }

  /** What the bus does during exchange k: whether the write is acknowledged, what each poll for the
      three header octets reads, and what the read of the announced body yields. */
  datatype Bus = Bus(acked: nat -> bool, header: (nat, nat) -> seq<octet>, body: nat -> seq<octet>)

  /** The first poll that reads a start-of-frame, from attempt `i` on. */
  function FirstHeader(bus: Bus, k: nat, i: nat, attempts: nat): (h: seq<octet>)
    ensures h == [] || (|h| == 3 && h[0] == NAD_SE_TO_HOST)
    decreases attempts - i
  {
    if i >= attempts then []
    else if |bus.header(k, i)| == 3 && bus.header(k, i)[0] == NAD_SE_TO_HOST then bus.header(k, i)
    else FirstHeader(bus, k, i + 1, attempts)
  }

  /** Header and body together, if the body has the announced length, fits and passes the CRC. */
  function Accept(h: seq<octet>, b: seq<octet>, cap: nat): (r: seq<octet>)
    ensures r != [] ==> |r| >= 5 && |r| == 5 + Announced(r[2]) && |r| <= cap
  {
    if |h| == 3 && |b| == Announced(h[2]) + 2 && 3 + |b| <= cap && CrcOk(h + b) then h + b else []
  }

  function Received(bus: Bus, k: nat, attempts: nat, cap: nat): (r: seq<octet>)
    ensures r != [] ==> |r| >= 5 && |r| == 5 + Announced(r[2]) && |r| <= cap
  {
    if !bus.acked(k) then [] else Accept(FirstHeader(bus, k, 0, attempts), bus.body(k), cap)
  }

  /** A corruption of one octet or two adjacent ones that leaves the start and length octets alone
      is never handed on. */
  lemma CorruptFrameDropped(g: seq<octet>, h: seq<octet>, b: seq<octet>, i: nat, cap: nat)
    requires CrcOk(g) && |h| == 3 && |h + b| == |g| && i + 1 < |g|
    requires h + b != g
    requires forall j :: 0 <= j < |g| && j != i && j != i + 1 ==> (h + b)[j] == g[j]
    ensures Accept(h, b, cap) == []
  {
    hide CrcOk;
    var r := h + b;
    assert g == g[..i] + [g[i], g[i + 1]] + g[i + 2..];
    assert r == g[..i] + [r[i], r[i + 1]] + g[i + 2..];
    CorruptionDetected(g[..i], g[i], g[i + 1], r[i], r[i + 1], g[i + 2..]);
  }

  /** The block that is kept after granting up to 20 extensions, and how many exchanges it took. */
  function Await(bus: Bus, k: nat, grants: nat, attempts: nat, cap: nat): (r: (seq<octet>, nat))
    requires grants <= MAX_WTX_GRANTS
    ensures 1 <= r.1 <= MAX_WTX_GRANTS + 1 - grants
    ensures r.0 != [] ==> |r.0| >= 5 && r.0[1] != PCB_WTX_REQUEST && |r.0| == 5 + Announced(r.0[2])
    decreases MAX_WTX_GRANTS - grants
  {
    var rx := Received(bus, k, attempts, cap);
    if rx == [] then ([], 1)
    else if rx[1] != PCB_WTX_REQUEST then (rx, 1)
    else if grants >= MAX_WTX_GRANTS then ([], 1)
    else var (after, n) := Await(bus, k + 1, grants + 1, attempts, cap); (after, n + 1)
  }

  lemma AwaitStep(bus: Bus, k: nat, grants: nat, attempts: nat, cap: nat, rx: seq<octet>)
    requires grants <= MAX_WTX_GRANTS && rx == Received(bus, k, attempts, cap)
    ensures rx == [] ==> Await(bus, k, grants, attempts, cap) == ([], 1)
    ensures rx != [] && rx[1] != PCB_WTX_REQUEST ==> Await(bus, k, grants, attempts, cap) == (rx, 1)
    ensures rx != [] && rx[1] == PCB_WTX_REQUEST && grants == MAX_WTX_GRANTS ==>
              Await(bus, k, grants, attempts, cap) == ([], 1)
    ensures rx != [] && rx[1] == PCB_WTX_REQUEST && grants < MAX_WTX_GRANTS ==>
              var (after, n) := Await(bus, k + 1, grants + 1, attempts, cap);
              Await(bus, k, grants, attempts, cap) == (after, n + 1)
  {
  }

  /** A card that asks for time forever costs exactly 21 exchanges and yields nothing. */
  lemma {:induction false} EndlessExtension(bus: Bus, k: nat, grants: nat, attempts: nat, cap: nat)
    requires grants <= MAX_WTX_GRANTS
    requires forall m: nat :: m >= k ==>
               var rx := Received(bus, m, attempts, cap); rx != [] && rx[1] == PCB_WTX_REQUEST
    ensures Await(bus, k, grants, attempts, cap) == ([], 21 - grants)
    decreases MAX_WTX_GRANTS - grants
  {
    var rx := Received(bus, k, attempts, cap);
    if grants < MAX_WTX_GRANTS {
      EndlessExtension(bus, k + 1, grants + 1, attempts, cap);
    }
  }

  // ------------------------------------------------------------------ what the layer above sees

  /** A block the card sends: its start octet, its announced length and its CRC are right. */
  predicate WellFormed(g: seq<octet>) {
    |g| >= 5 && g[0] == NAD_SE_TO_HOST && |g| == 5 + Announced(g[2]) && CrcOk(g)
  }

  /** What is read differs from the block in at most two adjacent octets, start and length intact. */
  ghost predicate Distorted(g: seq<octet>, r: seq<octet>) {
    && |g| == |r| >= 5 && r[0] == g[0] && r[2] == g[2]
    && exists i :: 0 <= i < |g| - 1 && SameBut(g, r, i)
  }

  ghost predicate SameBut(g: seq<octet>, r: seq<octet>, i: nat)
    requires |g| == |r|
  {
    forall j :: 0 <= j < |g| && j != i && j != i + 1 ==> r[j] == g[j]
  }

  /** In exchange `k` the card sends `g`, and the bus loses the block, its answer or the end of it, or
      distorts the answer in one octet or two adjacent ones. */
  ghost predicate Carries(bus: Bus, k: nat, attempts: nat, g: seq<octet>) {
    var h := FirstHeader(bus, k, 0, attempts);
    WellFormed(g)
    && (!bus.acked(k) || h == [] || |bus.body(k)| != Announced(h[2]) + 2 || Distorted(g, h + bus.body(k)))
  }

  /** One exchange over such a bus is the card's block or nothing. */
  lemma ReceivedOrLost(bus: Bus, k: nat, attempts: nat, g: seq<octet>)
    requires Carries(bus, k, attempts, g)
    ensures Received(bus, k, attempts, 288) == [] || Received(bus, k, attempts, 288) == g
  {
    hide CrcOk, Announced;
    var h, b := FirstHeader(bus, k, 0, attempts), bus.body(k);
    if bus.acked(k) && h != [] && |b| == Announced(h[2]) + 2 && h + b != g {
      var i :| 0 <= i < |g| - 1 && SameBut(g, h + b, i);
      CorruptFrameDropped(g, h, b, i, 288);
    }
  }

  /** The whole exchange of an APDU, extensions included, over a bus that carries what the card sends
      in each of its exchanges: it yields nothing, or exactly the block the card sent last, after
      requests for time and nothing else. So to the layer above an answer is lost or it is the card's. */
  lemma {:induction false} AnsweredOrLost(bus: Bus, k: nat, grants: nat, attempts: nat, card: nat -> seq<octet>)
    requires grants <= MAX_WTX_GRANTS && forall m: nat :: m >= k ==> Carries(bus, m, attempts, card(m))
    ensures var (rx, n) := Await(bus, k, grants, attempts, 288);
            rx == [] || (rx == card(k + n - 1) && rx[1] != PCB_WTX_REQUEST
                         && forall m :: k <= m < k + n - 1 ==> |card(m)| >= 5 && card(m)[1] == PCB_WTX_REQUEST)
    decreases MAX_WTX_GRANTS - grants
  {
    hide Carries, Received;
    var rx := Received(bus, k, attempts, 288);
    ReceivedOrLost(bus, k, attempts, card(k));
    AwaitStep(bus, k, grants, attempts, 288, rx);
    if rx != [] && rx[1] == PCB_WTX_REQUEST && grants < MAX_WTX_GRANTS {
      AnsweredOrLost(bus, k + 1, grants + 1, attempts, card);
    }
  }

  function WithCrc(m: seq<octet>): seq<octet> {
    m + [Hi(Crc(m)), Lo(Crc(m))]
  }

  lemma WithCrcOk(m: seq<octet>)
    ensures CrcOk(WithCrc(m))
  {
    assert WithCrc(m)[..|m|] == m;
  }

  /** An I-block: address, N(S) in bit 6, one length octet, the APDU and its CRC. */
  function IBlock(ns: bool, apdu: seq<octet>): (f: seq<octet>)
    requires |apdu| <= 255
    ensures |f| == 5 + |apdu|
  {
    WithCrc([NAD_HOST_TO_SE, if ns then 0x40 else 0x00, |apdu| as bv8] + apdu)
  }

  lemma LengthOctet(n: nat)
    requires n < 256
    ensures Announced(n as bv8) == n
  {
  }

  /** The block is well formed, its length octet is the APDU's length, and it fits the frame buffer. */
  lemma IBlockWellFormed(ns: bool, apdu: seq<octet>)
    requires |apdu| <= 255
    ensures var f := IBlock(ns, apdu);
            && CrcOk(f) && |f| == 5 + |apdu| <= 288 && f[0] == 0x5A && f[1] == (if ns then 0x40 else 0x00)
            && Announced(f[2]) == |apdu| && f[3..3 + |apdu|] == apdu
  {
    hide Crc, CrcOk, Announced, Hi, Lo;
    LengthOctet(|apdu|);
    WithCrcOk([NAD_HOST_TO_SE, if ns then 0x40 else 0x00, |apdu| as bv8] + apdu);
  }

  lemma AnnouncedIs(len: octet)
    ensures Announced(len) >= 1 <==> len >= 1
  {
  }

  /** `tx` answers the request for time that came in exchange `m`: its octets, CRC apart, are 5A E3 01 and
      the time asked for. */
  ghost predicate Grants(bus: Bus, attempts: nat, m: nat, tx: seq<octet>) {
    var rx := Received(bus, m, attempts, 288);
    && |rx| >= 5 && rx[1] == 0xC3
    && |tx| == 6 && CrcOk(tx) && tx[..3] == [0x5A, 0xE3, 0x01] && tx[3] == if Announced(rx[2]) >= 1 then rx[3] else 1
  }

  lemma GrantOf(bus: Bus, attempts: nat, m: nat, rx: seq<octet>, wtx: octet)
    requires rx == Received(bus, m, attempts, 288) && rx != [] && rx[1] == 0xC3
    requires wtx == if Announced(rx[2]) >= 1 then rx[3] else 1
    ensures Grants(bus, attempts, m, WithCrc([NAD_HOST_TO_SE, PCB_WTX_RESPONSE, 0x01, wtx]))
  {
    hide Crc, CrcOk, Hi, Lo, Received, Announced;
    WithCrcOk([NAD_HOST_TO_SE, PCB_WTX_RESPONSE, 0x01, wtx]);
  }

  /** The answer to an interface reset. */
  predicate Reset(bus: Bus, attempts: nat, m: nat) {
    var rx := Received(bus, m, attempts, 128);
    rx != [] && rx[1] == 0xEF
  }

  /** One host end of the link. */
  class T1 {
    const bus: Bus
    const attempts: nat
    var ns: bool
    var exchanges: nat
    ghost var sent: seq<seq<octet>>

    constructor (bus: Bus, attempts: nat)
      ensures !ns && exchanges == 0 && sent == []
    {
      this.bus, this.attempts, ns, exchanges := bus, attempts, false, 0;
      sent := [];
    }

    /** Writes one block and reads the answer: header by polling, then exactly the body it
        announces. */
    method Xfer(tx: seq<octet>, cap: nat) returns (rx: seq<octet>)
      requires cap >= 3
      modifies this`exchanges, this`sent
      ensures exchanges == old(exchanges) + 1 && sent == old(sent) + [tx]
      ensures rx == Received(bus, old(exchanges), attempts, cap)
      ensures rx != [] ==> rx[0] == 0xA5
    {
      hide CrcOk, Crc, Announced;
      var k := exchanges;
      exchanges := exchanges + 1;
      sent := sent + [tx];
      if !bus.acked(k) {
        return [];
      }
      var header: seq<octet> := [];
      var attempt := 0;
      while attempt < attempts && header == []
        invariant attempt <= attempts
        invariant header == [] ==> FirstHeader(bus, k, 0, attempts) == FirstHeader(bus, k, attempt, attempts)
        invariant header != [] ==> |header| == 3 && FirstHeader(bus, k, 0, attempts) == header
      {
        var h := bus.header(k, attempt);
        if |h| == 3 && h[0] == NAD_SE_TO_HOST {
          header := h;
        }
        attempt := attempt + 1;
      }
      if header == [] {
        return [];
      }
      var body := Announced(header[2]) + 2;
      if 3 + body > cap || |bus.body(k)| != body {
        return [];
      }
      rx := header + bus.body(k);
      var total := 3 + body;
      var want := ComputeCrc(rx[..total - 2]);
      if rx[total - 2] != Hi(want) || rx[total - 1] != Lo(want) {
        CrcOkIs(rx);
        return [];
      }
      CrcOkIs(rx);
    }

    lemma CrcOkIs(s: seq<octet>)
      requires |s| >= 2
      ensures CrcOk(s) <==> s[|s| - 2] == Hi(Crc(s[..|s| - 2])) && s[|s| - 1] == Lo(Crc(s[..|s| - 2]))
    {
    }

    /** The interface reset, sent again until it is answered and four times at most. Only an answer starts
        the sequence over. */
    method ResetInterface() returns (ok: bool, atr: seq<octet>)
      modifies this
      ensures ok <==> exists m :: old(exchanges) <= m < old(exchanges) + 4 && Reset(bus, attempts, m)
      ensures old(exchanges) < exchanges <= old(exchanges) + 4 && (!ok ==> exchanges == old(exchanges) + 4)
      ensures forall m :: old(exchanges) <= m < exchanges - 1 ==> !Reset(bus, attempts, m)
      ensures ok ==> Reset(bus, attempts, exchanges - 1)
                     && var rx := Received(bus, exchanges - 1, attempts, 128); atr == rx[3..|rx| - 2]
      ensures ns == (old(ns) && !ok)
      ensures sent == old(sent) + seq(exchanges - old(exchanges), _ => [0x5A, 0xCF, 0x00, 0x37, 0x7F])
    {
      hide Received, WithCrc, Announced;
      ResetOctets();
      var frame := WithCrc([NAD_HOST_TO_SE, 0xCF, 0x00]);
      for attempt := 0 to 4
        invariant exchanges == old(exchanges) + attempt && ns == old(ns)
        invariant sent == old(sent) + seq(attempt, _ => [0x5A, 0xCF, 0x00, 0x37, 0x7F])
        invariant forall m :: old(exchanges) <= m < exchanges ==> !Reset(bus, attempts, m)
      {
        var rx := Xfer(frame, 128);
        if rx != [] && rx[1] == 0xEF {
          assert Reset(bus, attempts, exchanges - 1);
          atr := rx[3..3 + Announced(rx[2])];
          ns := false;
          return true, atr;
        }
      }
      return false, [];
    }

    /** Grants extensions while the card asks for them, 20 at most, and each for the time it asked for:
        what it sends in reply to each request is S(WTX response) with the request's own octet, or 1 for
        a request without one. */
    method GrantExtensions(first: seq<octet>) returns (rx: seq<octet>)
      requires exchanges >= 1 && first != [] && first == Received(bus, exchanges - 1, attempts, 288)
      modifies this`exchanges, this`sent
      ensures var (r, n) := Await(bus, old(exchanges) - 1, 0, attempts, 288);
              && rx == r && exchanges == old(exchanges) - 1 + n
              && old(sent) <= sent && |sent| == |old(sent)| + n - 1
              && forall i :: |old(sent)| <= i < |sent| ==> Grants(bus, attempts, old(exchanges) - 1 + i - |old(sent)|, sent[i])
    {
      hide Received, WithCrc, Announced, Await, Grants;
      rx := first;
      ghost var k0 := exchanges - 1;
      var grants := 0;
      while rx[1] == PCB_WTX_REQUEST
        invariant 0 <= grants <= MAX_WTX_GRANTS && exchanges == k0 + 1 + grants
        invariant old(sent) <= sent && |sent| == |old(sent)| + grants
        invariant forall i :: |old(sent)| <= i < |sent| ==> Grants(bus, attempts, k0 + i - |old(sent)|, sent[i])
        invariant rx != [] && rx == Received(bus, exchanges - 1, attempts, 288)
        invariant Await(bus, k0, 0, attempts, 288).0 == Await(bus, exchanges - 1, grants, attempts, 288).0
        invariant Await(bus, k0, 0, attempts, 288).1 == Await(bus, exchanges - 1, grants, attempts, 288).1 + grants
        decreases MAX_WTX_GRANTS - grants
      {
        AwaitStep(bus, exchanges - 1, grants, attempts, 288, rx);
        if grants >= MAX_WTX_GRANTS {
          return [];
        }
        var wtx: octet := if rx[2] >= 1 then rx[3] else 1;
        AnnouncedIs(rx[2]);
        GrantOf(bus, attempts, k0 + grants, rx, wtx);
        rx := Xfer(WithCrc([NAD_HOST_TO_SE, PCB_WTX_RESPONSE, 0x01, wtx]), 288);
        grants := grants + 1;
        if rx == [] {
          AwaitStep(bus, exchanges - 1, grants, attempts, 288, rx);
          return [];
        }
      }
      AwaitStep(bus, exchanges - 1, grants, attempts, 288, rx);
    }

    /** One APDU: an I-block, up to 20 granted extensions, and the payload of what is kept. It never
        spends more than 21 exchanges. */
    method Transceive(apdu: seq<octet>, respCap: nat) returns (ok: bool, resp: seq<octet>)
      modifies this
      ensures |apdu| > 255 ==> !ok && ns == old(ns) && exchanges == old(exchanges) && sent == old(sent)
      ensures |apdu| <= 255 ==>
                && var (rx, n) := Await(bus, old(exchanges), 0, attempts, 288);
                   (ok <==> rx != []) && exchanges == old(exchanges) + n
                   && (ok ==> resp == rx[3..3 + if Announced(rx[2]) > respCap then respCap else Announced(rx[2])])
      ensures |apdu| <= 255 ==> ns == !old(ns) && old(sent) + [IBlock(old(ns), apdu)] <= sent
      ensures |apdu| <= 255 ==> |sent| - |old(sent)| == exchanges - old(exchanges)
      ensures |apdu| <= 255 ==>
                forall i :: |old(sent)| < i < |sent| ==> Grants(bus, attempts, old(exchanges) + i - |old(sent)| - 1, sent[i])
      ensures exchanges <= old(exchanges) + 21
      ensures |resp| <= respCap && |resp| <= 255
    {
      hide Received, IBlock, Announced, Await, Grants;
      if |apdu| > 255 || 5 + |apdu| > 288 {
        return false, [];
      }
      var first := Xfer(IBlock(ns, apdu), 288);
      ns := !ns;
      if first == [] {
        AwaitStep(bus, exchanges - 1, 0, attempts, 288, first);
        return false, [];
      }
      var rx := GrantExtensions(first);
      if rx == [] {
        return false, [];
      }
      var len := Announced(rx[2]);
      if len > respCap {
        len := respCap;
      }
      return true, rx[3..3 + len];
    }
  }
}
