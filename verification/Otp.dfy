/** One-time-programmable memory: a console that only ever sets bits, in gated steps, and a seed stored
    beside its complement. */
module Otp {
  import opened Wrappers

  type Rows = seq<bv24>

  datatype Region = Crit1 | Flags0 | Flags1 | Key0 | Key1 | Seed | Chaff | Page1Lock | Page2Lock | SeedLock

  function Size(r: Region): nat {
    match r
    case Crit1 => 8
    case Flags0 => 3
    case Flags1 => 3
    case Key0 => 16
    case Key1 => 16
    case Seed => 16
    case Chaff => 16
    case _ => 1
  }

  const BLANK: map<Region, Rows> := map r: Region | true :: seq(Size(r), _ => 0)

  type Cells = m: map<Region, Rows> | forall r: Region :: r in m && |m[r]| == Size(r) witness BLANK

  // Register fields. The critical rows and the register decoded from them share positions.
  const SECURE_BOOT: bv24 := 0x1
  const SECURE_DEBUG_DISABLE: bv24 := 0x2
  const DEBUG_DISABLE: bv24 := 0x4
  const UART_OTP_WATCHDOG_OFF: bv24 := 0x092000
  const BOOT_PAGE_LOCK: bv24 := 0x141414
  const SEED_PAGE_LOCK: bv24 := 0x3D3D3D
  const LOCK_S: bv24 := 0x3

  /** What the chip and the build fix: the ECC of a row, the vote over the eight critical rows, and
      the fingerprints of our public keys. */
  datatype Chip = Chip(encode: bv16 -> bv24, decode: bv24 -> Option<bv16>, critical: Rows -> bv24, ours: seq<seq<bv16>>)

  function Join(a: bv24, b: bv24): bv24 {
    a | b
  }

  function Pick(a: bv24, m: bv24): bv24 {
    a & m
  }

  function Differ(a: bv24, b: bv24): bv24 {
    a ^ b
  }

  function Flip(a: bv24): bv24 {
    a ^ 0xFFFFFF
  }

  /** `a` has no bit that `b` lacks. */
  predicate Sub(a: bv24, b: bv24) {
    a & b == a
  }

  ghost predicate Within(a: Rows, b: Rows) {
    |a| == |b| && forall i :: 0 <= i < |a| ==> Sub(a[i], b[i])
  }

  ghost predicate Uniform(rows: Rows, x: bv24) {
    forall i :: 0 <= i < |rows| ==> rows[i] == x
  }

  ghost predicate EccLaws(c: Chip) {
    (forall x :: c.decode(c.encode(x)) == Some(x)) && c.decode(0) == Some(0)
  }

  /** A rising row never clears a decoded bit; blank and unanimous copies decode to themselves. */
  ghost predicate VoteLaws(c: Chip) {
    && (forall a: Rows, b: Rows :: |a| == 8 && Within(a, b) ==> Sub(c.critical(a), c.critical(b)))
    && (forall a: Rows, x: bv24 :: |a| == 8 && Uniform(a, x) ==> c.critical(a) == x)
  }

  ghost predicate KeyLaws(c: Chip) {
    |c.ours| == 2 && forall k :: 0 <= k < 2 ==> |c.ours[k]| == 16 && !AllZero(c.ours[k])
  }

  ghost predicate Lawful(c: Chip) {
    EccLaws(c) && VoteLaws(c) && KeyLaws(c)
  }

  function AllZero(v: seq<bv16>): bool {
    forall i :: 0 <= i < |v| ==> v[i] == 0
  }

  /** The cells, the CRITICAL register latched at the last reset, and the locks on the seed page. */
  datatype Vault = Vault(cells: Cells, latch: bv24, soft: bool, hard: bool)

  // ------------------------------------------------------------------ reading

  function Majority(a: bv24, b: bv24, c: bv24): bv24 {
    (a & b) | (a & c) | (b & c)
  }

  /** Bitwise majority of three copies. */
  function Vote3(r: Rows): bv24
    requires |r| == 3
  {
    Majority(r[0], r[1], r[2])
  }

  /** Majority of the three bytes of one row, in the low byte. */
  function VoteByte(raw: bv24): bv24 {
    var b0, b1, b2 := raw & 0xff, (raw >> 8) & 0xff, (raw >> 16) & 0xff;
    Majority(b0, b1, b2)
  }

  lemma VoteOutvotesOne(r: Rows, i: nat, x: bv24)
    requires |r| == 3 && i < 3 && forall j :: 0 <= j < 3 && j != i ==> r[j] == x
    ensures Vote3(r) == x
  {
    if i == 0 {
      assert r[1] == x && r[2] == x;
    } else if i == 1 {
      assert r[0] == x && r[2] == x;
    } else {
      assert r[0] == x && r[1] == x;
    }
  }

  lemma VoteRises(a: Rows, b: Rows)
    requires |a| == 3 && Within(a, b)
    ensures Sub(Vote3(a), Vote3(b))
  {
    hide Majority;
    assert Sub(a[0], b[0]) && Sub(a[1], b[1]) && Sub(a[2], b[2]);
    VoteBits(a[0], a[1], a[2], b[0], b[1], b[2]);
    assert Vote3(a) == Majority(a[0], a[1], a[2]) && Vote3(b) == Majority(b[0], b[1], b[2]);
  }

  lemma VoteBits(a: bv24, b: bv24, c: bv24, x: bv24, y: bv24, z: bv24)
    requires Sub(a, x) && Sub(b, y) && Sub(c, z)
    ensures Sub(Majority(a, b, c), Majority(x, y, z))
  {
  }

  function ReadEcc(c: Chip, rows: Rows): (r: Option<seq<bv16>>)
    ensures r.Some? ==> |r.value| == |rows|
  {
    if rows == [] then Some([])
    else
      var x, rest := c.decode(rows[0]), ReadEcc(c, rows[1..]);
      if x == None || rest == None then None else Some([x.value] + rest.value)
  }

  function Slot(n: nat): Region {
    if n == 0 then Key0 else Key1
  }

  function ReadBootkey(c: Chip, s: Vault, n: nat): Option<seq<bv16>> {
    ReadEcc(c, s.cells[Slot(n)])
  }

  function BurnedSlotFor(c: Chip, s: Vault, k: nat): (slot: int)
    requires k < |c.ours|
    ensures -1 <= slot < 2
  {
    if ReadBootkey(c, s, 0) == Some(c.ours[k]) then 0
    else if ReadBootkey(c, s, 1) == Some(c.ours[k]) then 1
    else -1
  }

  function AnyNonZeroEcc(c: Chip, rows: Rows): bool {
    var v := ReadEcc(c, rows);
    v.Some? && !AllZero(v.value)
  }

  function SecureNow(s: Vault): bool {
    s.latch & SECURE_BOOT != 0
  }

  function DebugOffNow(s: Vault): bool {
    s.latch & DEBUG_DISABLE != 0
  }

  function KeyValid(s: Vault): bv24 {
    Vote3(s.cells[Flags1]) & 0xF
  }

  function KeyInvalid(s: Vault): bv24 {
    (Vote3(s.cells[Flags1]) & 0xF00) >> 8
  }

  function SlotBit(slot: nat): bv24 {
    if slot == 0 then 1 else 2
  }

  predicate SlotValid(s: Vault, slot: nat) {
    KeyValid(s) & SlotBit(slot) != 0
  }

  datatype SeedState = Blank | Present(seed: seq<bv16>) | Corrupt | Unreadable

  /** Every row of one half is the complement of the other half's. */
  function Complementary(a: Rows, b: Rows): bool
    requires |a| == |b|
  {
    forall i :: 0 <= i < |a| ==> Differ(a[i], b[i]) == 0xFFFFFF
  }

  function Zero(rows: Rows): bool {
    forall i :: 0 <= i < |rows| ==> rows[i] == 0
  }

  /** What the two halves of the page say, locks aside. */
  function SeedIn(c: Chip, cells: Cells): SeedState {
    if Zero(cells[Seed]) && Zero(cells[Chaff]) then Blank
    else if !Complementary(cells[Seed], cells[Chaff]) then Corrupt
    else match ReadEcc(c, cells[Seed]) case None => Unreadable case Some(v) => Present(v)
  }

  function ReadSeed(c: Chip, s: Vault): SeedState {
    if s.soft then Unreadable else SeedIn(c, s.cells)
  }

  // ------------------------------------------------------------------ programming

  /** How one write went: whole and reported so, or reported failed with some of its new bits set.
      A power loss is a failed write of nothing, and of nothing again until the reset. */
  datatype Burn = Burn(ok: bool, mask: nat -> bv24)

  function InSeedPage(r: Region): bool {
    r == Seed || r == Chaff || r == SeedLock
  }

  /** The bootrom lets Secure write unless the page is locked; a lock word goes with its page. */
  function May(s: Vault, r: Region): bool {
    !(InSeedPage(r) && (s.soft || s.hard))
  }

  function CanRead(s: Vault, r: Region): bool {
    !(InSeedPage(r) && s.soft)
  }

  function Partial(old_: Rows, want: Rows, mask: nat -> bv24): (r: Rows)
    requires |old_| == |want|
    ensures |r| == |old_|
  {
    seq(|old_|, i requires 0 <= i < |old_| => Join(old_[i], Pick(want[i], mask(i))))
  }

  /** The rows a write leaves, and what the bootrom reports: refused when locked or when it would
      clear a bit. */
  function Programmed(was: Rows, want: Rows, may: bool, w: Burn): (r: (Rows, bool))
    requires |want| == |was|
    ensures |r.0| == |was|
  {
    if !may || !(forall i :: 0 <= i < |was| ==> Sub(was[i], want[i])) then (was, false)
    else if w.ok then (want, true)
    else (Partial(was, want, w.mask), false)
  }

  function With(s: Vault, r: Region, rows: Rows): Vault
    requires |rows| == Size(r)
  {
    s.(cells := s.cells[r := rows])
  }

  function Write(s: Vault, r: Region, want: Rows, w: Burn): (Vault, bool)
    requires |want| == Size(r)
  {
    var (rows, ok) := Programmed(s.cells[r], want, May(s, r), w);
    (With(s, r, rows), ok)
  }

  /** Rows with `bits` set in each. */
  function Ored(rows: Rows, bits: bv24): (r: Rows)
    ensures |r| == |rows|
  {
    seq(|rows|, i requires 0 <= i < |rows| => Join(rows[i], bits))
  }

  /** Sets `bits` in every copy; a read that is refused or copies that have them already end it. */
  function OrRows(cur: Rows, bits: bv24, readable: bool, may: bool, w: Burn): (r: (Rows, bool))
    ensures |r.0| == |cur|
  {
    if |cur| > 8 || !readable then (cur, false)
    else if Ored(cur, bits) == cur then (cur, true)
    else Programmed(cur, Ored(cur, bits), may, w)
  }

  function OrRaw(s: Vault, r: Region, bits: bv24, w: Burn): (Vault, bool) {
    var (rows, ok) := OrRows(s.cells[r], bits, CanRead(s, r), May(s, r), w);
    (With(s, r, rows), ok)
  }

  function Encoded(c: Chip, v: seq<bv16>): (r: Rows)
    ensures |r| == |v|
  {
    seq(|v|, i requires 0 <= i < |v| => c.encode(v[i]))
  }

  function Complement(rows: Rows): (r: Rows)
    ensures |r| == |rows|
  {
    seq(|rows|, i requires 0 <= i < |rows| => Flip(rows[i]))
  }

  // ------------------------------------------------------------------ the console's commands

  function WriteSeed(c: Chip, s: Vault, seed: seq<bv16>, w0: Burn, w1: Burn): (Vault, bool)
    requires |seed| == 16
  {
    if ReadSeed(c, s) != Blank then (s, false)
    else
      var (s1, ok) := Write(s, Seed, Encoded(c, seed), w0);
      if !ok then (s1, false)
      else
        var (s2, ok2) := Write(s1, Chaff, Complement(s1.cells[Seed]), w1);
        if !ok2 then (s2, false) else (s2, ReadSeed(c, s2) == Present(seed))
  }

  function LockSeedPage(c: Chip, s: Vault, w: Burn): (Vault, bool) {
    var st := ReadSeed(c, s);
    if !(st.Present? || (st == Unreadable && s.soft)) then (s, false)
    else if CanRead(s, SeedLock) && s.cells[SeedLock] == [SEED_PAGE_LOCK] then (s, false)
    else Write(s, SeedLock, [SEED_PAGE_LOCK], w)
  }

  /** Only one of our fingerprints, and only into a slot that does not read as written. */
  function WriteBootkey(c: Chip, s: Vault, slot: nat, fp: seq<bv16>, w: Burn): Vault
    requires |fp| == 16
  {
    var have := ReadBootkey(c, s, slot);
    if fp !in c.ours || (have.Some? && !AllZero(have.value)) then s
    else Write(s, Slot(slot), Encoded(c, fp), w).0
  }

  function MarkValid(c: Chip, s: Vault, w: Burn): Vault
    requires |c.ours| == 2
  {
    if !AnyNonZeroEcc(c, s.cells[Key0]) || !AnyNonZeroEcc(c, s.cells[Key1]) then s
    else if BurnedSlotFor(c, s, 0) != 0 || BurnedSlotFor(c, s, 1) != 1 then s
    else OrRaw(s, Flags1, 0x3, w).0
  }

  function CloseSlots(s: Vault, w: Burn): Vault {
    if !SecureNow(s) then s else OrRaw(s, Flags1, 0xC00, w).0
  }

  /** `imageKey` is which of our keys signed the running image, -1 for none. */
  function EnableSecureBoot(c: Chip, s: Vault, imageKey: int, w: Burn): Vault
    requires imageKey < |c.ours|
  {
    if SecureNow(s) || !SlotValid(s, 0) || imageKey < 0 then s
    else
      var slot := BurnedSlotFor(c, s, imageKey);
      if slot < 0 || !SlotValid(s, slot) then s else OrRaw(s, Crit1, SECURE_BOOT, w).0
  }

  function Lockdown(s: Vault, w0: Burn, w1: Burn): Vault {
    if !SecureNow(s) then s
    else OrRaw(OrRaw(s, Crit1, DEBUG_DISABLE | SECURE_DEBUG_DISABLE, w0).0, Flags0, UART_OTP_WATCHDOG_OFF, w1).0
  }

  function LockBootPages(s: Vault, w0: Burn, w1: Burn): Vault {
    if !SecureNow(s) || !DebugOffNow(s) || KeyInvalid(s) & 0xC == 0 then s
    else OrRaw(OrRaw(s, Page1Lock, BOOT_PAGE_LOCK, w0).0, Page2Lock, BOOT_PAGE_LOCK, w1).0
  }

  datatype Command =
    | DoWriteSeed(seed: seq<bv16>) | DoLockSeed | DoSoftLock | DoBootkey(slot: nat, fp: seq<bv16>) | DoValid | DoClose
    | DoSecureBoot(imageKey: int) | DoLockdown | DoLockPages

  datatype Event = Do(c: Command, w0: Burn, w1: Burn) | Reset

  /** A reset latches the critical rows and takes the seed page's lock word into effect. */
  function Restart(c: Chip, s: Vault): Vault {
    Vault(s.cells, c.critical(s.cells[Crit1]), false, VoteByte(s.cells[SeedLock][0]) & LOCK_S != 0)
  }

  predicate Fits(c: Chip, e: Event) {
    e.Do? ==>
      && (e.c.DoWriteSeed? ==> |e.c.seed| == 16)
      && (e.c.DoBootkey? ==> e.c.slot < 2 && |e.c.fp| == 16)
      && (e.c.DoSecureBoot? ==> e.c.imageKey < |c.ours|)
  }

  function Next(c: Chip, s: Vault, e: Event): Vault
    requires |c.ours| == 2 && Fits(c, e)
  {
    match e
    case Reset => Restart(c, s)
    case Do(DoWriteSeed(seed), w0, w1) => WriteSeed(c, s, seed, w0, w1).0
    case Do(DoLockSeed, w0, _) => LockSeedPage(c, s, w0).0
    case Do(DoSoftLock, _, _) => s.(soft := true)
    case Do(DoBootkey(slot, fp), w0, _) => WriteBootkey(c, s, slot, fp, w0)
    case Do(DoValid, w0, _) => MarkValid(c, s, w0)
    case Do(DoClose, w0, _) => CloseSlots(s, w0)
    case Do(DoSecureBoot(k), w0, _) => EnableSecureBoot(c, s, k, w0)
    case Do(DoLockdown, w0, w1) => Lockdown(s, w0, w1)
    case Do(DoLockPages, w0, w1) => LockBootPages(s, w0, w1)
  }

  predicate AllFit(c: Chip, es: seq<Event>) {
    forall i :: 0 <= i < |es| ==> Fits(c, es[i])
  }

  function Run(c: Chip, s: Vault, es: seq<Event>): Vault
    requires |c.ours| == 2 && AllFit(c, es)
  {
    if es == [] then s else Next(c, Run(c, s, es[..|es| - 1]), es[|es| - 1])
  }

  const FACTORY := Vault(BLANK, 0, false, false)

  // ------------------------------------------------------------------ bits only rise

  lemma SubRefl(a: Rows)
    ensures Within(a, a)
  {
  }

  lemma SubBits(a: bv24, b: bv24, d: bv24)
    ensures Sub(a, Join(a, b))
    ensures Sub(a, b) && Sub(b, d) ==> Sub(a, d)
  {
  }

  lemma PartialRises(a: Rows, want: Rows, mask: nat -> bv24)
    requires |a| == |want|
    ensures Within(a, Partial(a, want, mask))
  {
    var p := Partial(a, want, mask);
    forall i | 0 <= i < |a|
      ensures Sub(a[i], p[i])
    {
      SubBits(a[i], Pick(want[i], mask(i)), 0);
    }
  }

  lemma ProgrammedRises(was: Rows, want: Rows, may: bool, w: Burn)
    requires |want| == |was|
    ensures Within(was, Programmed(was, want, may, w).0)
  {
    hide Sub, Partial;
    SubRefl(was);
    PartialRises(was, want, w.mask);
  }

  lemma OrRowsRise(cur: Rows, bits: bv24, readable: bool, may: bool, w: Burn)
    ensures Within(cur, OrRows(cur, bits, readable, may, w).0)
  {
    hide Programmed, Within, Ored;
    SubRefl(cur);
    ProgrammedRises(cur, Ored(cur, bits), may, w);
  }

  ghost predicate Rises(s: Vault, t: Vault) {
    forall r: Region :: Within(s.cells[r], t.cells[r])
  }

  lemma RisesTrans(s: Vault, t: Vault, u: Vault)
    requires Rises(s, t) && Rises(t, u)
    ensures Rises(s, u)
  {
    forall r: Region
      ensures Within(s.cells[r], u.cells[r])
    {
      WithinTrans(s.cells[r], t.cells[r], u.cells[r]);
    }
  }

  lemma WithinTrans(a: Rows, b: Rows, d: Rows)
    requires Within(a, b) && Within(b, d)
    ensures Within(a, d)
  {
    forall i | 0 <= i < |a|
      ensures Sub(a[i], d[i])
    {
      SubBits(a[i], b[i], d[i]);
    }
  }

  lemma WithRises(s: Vault, r: Region, rows: Rows)
    requires |rows| == Size(r) && Within(s.cells[r], rows)
    ensures Rises(s, With(s, r, rows))
  {
    forall q: Region
      ensures Within(s.cells[q], With(s, r, rows).cells[q])
    {
      SubRefl(s.cells[q]);
    }
  }

  lemma SameCellsRise(s: Vault, t: Vault)
    requires s.cells == t.cells
    ensures Rises(s, t)
  {
    forall q: Region
      ensures Within(s.cells[q], t.cells[q])
    {
      SubRefl(s.cells[q]);
    }
  }

  lemma OrRawRises(s: Vault, r: Region, bits: bv24, w: Burn)
    ensures Rises(s, OrRaw(s, r, bits, w).0)
  {
    hide OrRows, Within, With, Rises, CanRead, May;
    OrRowsRise(s.cells[r], bits, CanRead(s, r), May(s, r), w);
    WithRises(s, r, OrRows(s.cells[r], bits, CanRead(s, r), May(s, r), w).0);
  }

  lemma WriteRises(s: Vault, r: Region, want: Rows, w: Burn)
    requires |want| == Size(r)
    ensures Rises(s, Write(s, r, want, w).0)
  {
    hide Programmed, Within, With, Rises, May;
    ProgrammedRises(s.cells[r], want, May(s, r), w);
    WithRises(s, r, Programmed(s.cells[r], want, May(s, r), w).0);
  }

  lemma SeedCommandsRise(c: Chip, s: Vault, seed: seq<bv16>, w0: Burn, w1: Burn)
    requires |seed| == 16
    ensures Rises(s, WriteSeed(c, s, seed, w0, w1).0) && Rises(s, LockSeedPage(c, s, w0).0)
  {
    hide Write, Rises, ReadSeed, Complement, Encoded;
    SameCellsRise(s, s);
    WriteRises(s, Seed, Encoded(c, seed), w0);
    WriteRises(s, SeedLock, [SEED_PAGE_LOCK], w0);
    var s1 := Write(s, Seed, Encoded(c, seed), w0).0;
    WriteRises(s1, Chaff, Complement(s1.cells[Seed]), w1);
    RisesTrans(s, s1, Write(s1, Chaff, Complement(s1.cells[Seed]), w1).0);
  }

  lemma TwoOrsRise(s: Vault, r: Region, b: bv24, w0: Burn, q: Region, d: bv24, w1: Burn)
    ensures Rises(s, OrRaw(OrRaw(s, r, b, w0).0, q, d, w1).0)
  {
    hide OrRaw, Rises;
    var s1 := OrRaw(s, r, b, w0).0;
    OrRawRises(s, r, b, w0);
    OrRawRises(s1, q, d, w1);
    RisesTrans(s, s1, OrRaw(s1, q, d, w1).0);
  }

  lemma NextRises(c: Chip, s: Vault, e: Event)
    requires |c.ours| == 2 && Fits(c, e)
    ensures Rises(s, Next(c, s, e))
  {
    hide OrRaw, Write, Rises, WriteSeed, LockSeedPage, ReadEcc, SecureNow, KeyValid, KeyInvalid, Vote3, VoteByte, Encoded;
    SameCellsRise(s, s);
    match e
    case Reset => SameCellsRise(s, Restart(c, s));
    case Do(DoWriteSeed(seed), w0, w1) => SeedCommandsRise(c, s, seed, w0, w1);
    case Do(DoLockSeed, w0, w1) => SeedCommandsRise(c, s, seq(16, _ => 0), w0, w1);
    case Do(DoSoftLock, _, _) => SameCellsRise(s, s.(soft := true));
    case Do(DoBootkey(slot, fp), w0, _) => WriteRises(s, Slot(slot), Encoded(c, fp), w0);
    case Do(DoValid, w0, _) => OrRawRises(s, Flags1, 0x3, w0);
    case Do(DoClose, w0, _) => OrRawRises(s, Flags1, 0xC00, w0);
    case Do(DoSecureBoot(k), w0, _) => OrRawRises(s, Crit1, SECURE_BOOT, w0);
    case Do(DoLockdown, w0, w1) => TwoOrsRise(s, Crit1, DEBUG_DISABLE | SECURE_DEBUG_DISABLE, w0, Flags0, UART_OTP_WATCHDOG_OFF, w1);
    case Do(DoLockPages, w0, w1) => TwoOrsRise(s, Page1Lock, BOOT_PAGE_LOCK, w0, Page2Lock, BOOT_PAGE_LOCK, w1);
  }

  /** In every run of commands, failed writes and resets, no bit of any row is ever cleared. */
  lemma {:induction false} BitsOnlyRise(c: Chip, s: Vault, es: seq<Event>)
    requires |c.ours| == 2 && AllFit(c, es)
    ensures Rises(s, Run(c, s, es))
  {
    if es == [] {
      SameCellsRise(s, s);
    } else {
      hide Rises, Next;
      var t := Run(c, s, es[..|es| - 1]);
      BitsOnlyRise(c, s, es[..|es| - 1]);
      NextRises(c, t, es[|es| - 1]);
      RisesTrans(s, t, Next(c, t, es[|es| - 1]));
    }
  }

  // ------------------------------------------------------------------ masks

  /** No copy has a bit of `m`. */
  ghost predicate Clear(rows: Rows, m: bv24) {
    forall i :: 0 <= i < |rows| ==> Pick(rows[i], m) == 0
  }

  lemma OrBits(a: bv24, b: bv24, d: bv24, m: bv24)
    requires Pick(a, m) == 0 && Pick(b, m) == 0
    ensures Pick(Join(a, b), m) == 0 && Pick(Join(a, Pick(Join(a, b), d)), m) == 0
  {
  }

  lemma MaskBits(a: bv24, b: bv24, m: bv24)
    requires Sub(a, b)
    ensures a & m != 0 ==> b & m != 0
  {
  }

  lemma OrRowsAt(cur: Rows, bits: bv24, readable: bool, may: bool, w: Burn, i: nat)
    requires i < |cur|
    ensures var x := OrRows(cur, bits, readable, may, w).0[i];
            x == cur[i] || x == Join(cur[i], bits) || x == Join(cur[i], Pick(Join(cur[i], bits), w.mask(i)))
  {
    hide Sub, Ored, Partial, Join, Pick;
    var want := Ored(cur, bits);
    OredAt(cur, bits, i);
    PartialAt(cur, want, w.mask, i);
  }

  lemma OredAt(cur: Rows, bits: bv24, i: nat)
    requires i < |cur|
    ensures Ored(cur, bits)[i] == Join(cur[i], bits)
  {
    hide Join;
  }

  lemma PartialAt(a: Rows, want: Rows, mask: nat -> bv24, i: nat)
    requires |a| == |want| && i < |a|
    ensures Partial(a, want, mask)[i] == Join(a[i], Pick(want[i], mask(i)))
  {
    hide Join, Pick;
  }

  /** Setting bits outside `m` leaves `m` clear, whether or not the write completes. */
  lemma OrRowsClear(cur: Rows, bits: bv24, readable: bool, may: bool, w: Burn, m: bv24)
    requires Clear(cur, m) && Pick(bits, m) == 0
    ensures Clear(OrRows(cur, bits, readable, may, w).0, m)
  {
    hide OrRows, Join, Pick;
    var got := OrRows(cur, bits, readable, may, w).0;
    forall i | 0 <= i < |got|
      ensures Pick(got[i], m) == 0
    {
      OrRowsAt(cur, bits, readable, may, w, i);
      OrBits(cur[i], bits, w.mask(i), m);
    }
  }

  lemma OrRawClear(s: Vault, r: Region, bits: bv24, w: Burn, m: bv24)
    requires Clear(s.cells[r], m) && bits & m == 0
    ensures Clear(OrRaw(s, r, bits, w).0.cells[r], m)
  {
    hide OrRows, Clear;
    OrRowsClear(s.cells[r], bits, CanRead(s, r), May(s, r), w, m);
  }

  /** Only the addressed region changes, and it rises. */
  lemma OrRawFrame(s: Vault, r: Region, bits: bv24, w: Burn)
    ensures var t := OrRaw(s, r, bits, w).0;
            && t.latch == s.latch && t.soft == s.soft && t.hard == s.hard
            && Within(s.cells[r], t.cells[r]) && forall q: Region :: q != r ==> t.cells[q] == s.cells[q]
  {
    hide OrRows, Within, CanRead, May;
    OrRowsRise(s.cells[r], bits, CanRead(s, r), May(s, r), w);
  }

  lemma WriteFrame(s: Vault, r: Region, want: Rows, w: Burn)
    requires |want| == Size(r)
    ensures var t := Write(s, r, want, w).0;
            && t.latch == s.latch && t.soft == s.soft && t.hard == s.hard
            && (!May(s, r) ==> t.cells[r] == s.cells[r]) && forall q: Region :: q != r ==> t.cells[q] == s.cells[q]
  {
    hide Sub, Partial;
  }

  lemma VoteClear(r: Rows, m: bv24)
    requires |r| == 3 && Clear(r, m)
    ensures Vote3(r) & m == 0
  {
    assert Pick(r[0], m) == 0 && Pick(r[1], m) == 0 && Pick(r[2], m) == 0;
    MajorityClear(r[0], r[1], r[2], m);
  }

  lemma MajorityClear(a: bv24, b: bv24, d: bv24, m: bv24)
    requires a & m == 0 && b & m == 0 && d & m == 0
    ensures Majority(a, b, d) & m == 0
  {
  }

  /** The fields of the vote, as masks of it. */
  lemma FieldBits(v: bv24)
    ensures ((v & 0xF00) >> 8) & 0xC != 0 <==> v & 0xC00 != 0
    ensures v & 0x300 == 0 ==> ((v & 0xF00) >> 8) & 1 == 0 && ((v & 0xF00) >> 8) & 2 == 0
    ensures (v & 0xF) & 1 == v & 1 && (v & 0xF) & 2 == v & 2
    ensures v & 3 == 0 ==> v & 1 == 0 && v & 2 == 0
  {
  }

  // ------------------------------------------------------------------ the order of the gates

  ghost predicate PagesLockable(s: Vault) {
    SecureNow(s) && DebugOffNow(s) && Vote3(s.cells[Flags1]) & 0xC00 != 0
  }

  /** What the burned bits say about the boot that burned them. */
  ghost predicate Gates(c: Chip, s: Vault) {
    && Clear(s.cells[Flags1], 0xFFF3FC)
    && (Clear(s.cells[Flags1], 0xC00) || SecureNow(s))
    && (Clear(s.cells[Crit1], 0xFFFFFE) || SecureNow(s))
    && (Clear(s.cells[Flags0], 0xFFFFFF) || SecureNow(s))
    && ((Clear(s.cells[Page1Lock], 0xFFFFFF) && Clear(s.cells[Page2Lock], 0xFFFFFF)) || PagesLockable(s))
    && Sub(s.latch, c.critical(s.cells[Crit1]))
  }

  ghost predicate Allowed(s: Vault, r: Region, bits: bv24) {
    match r
    case Crit1 => bits == SECURE_BOOT || SecureNow(s)
    case Flags0 => SecureNow(s)
    case Flags1 => bits == 0x3 || (bits == 0xC00 && SecureNow(s))
    case Page1Lock => PagesLockable(s)
    case Page2Lock => PagesLockable(s)
    case _ => false
  }

  lemma PagesStayLockable(s: Vault, t: Vault)
    requires PagesLockable(s) && Sub(s.latch, t.latch) && Within(s.cells[Flags1], t.cells[Flags1])
    ensures PagesLockable(t)
  {
    hide Vote3;
    VoteRises(s.cells[Flags1], t.cells[Flags1]);
    MaskBits(Vote3(s.cells[Flags1]), Vote3(t.cells[Flags1]), 0xC00);
    MaskBits(s.latch, t.latch, SECURE_BOOT);
    MaskBits(s.latch, t.latch, DEBUG_DISABLE);
  }

  lemma GatesOr(c: Chip, s: Vault, r: Region, bits: bv24, w: Burn)
    requires VoteLaws(c) && Gates(c, s) && Allowed(s, r, bits)
    ensures Gates(c, OrRaw(s, r, bits, w).0)
  {
    hide OrRaw, Clear, Within, VoteLaws, Sub, Vote3;
    var t := OrRaw(s, r, bits, w).0;
    OrRawFrame(s, r, bits, w);
    match r
    case Crit1 =>
      LatchStays(c, s, t);
      if bits == SECURE_BOOT && Clear(s.cells[Crit1], 0xFFFFFE) {
        OrRawClear(s, r, bits, w, 0xFFFFFE);
      }
    case Flags1 =>
      OrRawClear(s, r, bits, w, 0xFFF3FC);
      if bits == 0x3 && Clear(s.cells[Flags1], 0xC00) {
        OrRawClear(s, r, bits, w, 0xC00);
      }
      if PagesLockable(s) {
        SubSelf(s.latch);
        PagesStayLockable(s, t);
      }
    case _ =>
  }

  lemma SubSelf(a: bv24)
    ensures Sub(a, a)
  {
  }

  lemma LatchStays(c: Chip, s: Vault, t: Vault)
    requires VoteLaws(c) && Sub(s.latch, c.critical(s.cells[Crit1])) && Within(s.cells[Crit1], t.cells[Crit1])
    ensures Sub(s.latch, c.critical(t.cells[Crit1]))
  {
    hide Within;
    SubBits(s.latch, c.critical(s.cells[Crit1]), c.critical(t.cells[Crit1]));
  }

  /** Regions that no gate mentions. */
  lemma GatesWrite(c: Chip, s: Vault, t: Vault)
    requires Gates(c, s) && t.latch == s.latch
    requires forall q: Region :: (q.Crit1? || q.Flags0? || q.Flags1? || q.Page1Lock? || q.Page2Lock?) ==> t.cells[q] == s.cells[q]
    ensures Gates(c, t)
  {
    hide Clear, Sub, Vote3;
  }

  lemma GatesRestart(c: Chip, s: Vault)
    requires Gates(c, s)
    ensures Gates(c, Restart(c, s))
  {
    hide Clear, Sub, Vote3, VoteByte, Within;
    var t := Restart(c, s);
    SubSelf(t.latch);
    MaskBits(s.latch, t.latch, SECURE_BOOT);
    SubRefl(s.cells[Flags1]);
    if PagesLockable(s) {
      PagesStayLockable(s, t);
    }
  }

  /** Writing the seed leaves every region outside the seed page, and the latch. */
  lemma WriteSeedFrame(c: Chip, s: Vault, seed: seq<bv16>, w0: Burn, w1: Burn)
    requires |seed| == 16
    ensures var t := WriteSeed(c, s, seed, w0, w1).0;
            && t.latch == s.latch && t.soft == s.soft && t.hard == s.hard
            && t.cells[SeedLock] == s.cells[SeedLock]
            && forall q: Region :: !InSeedPage(q) ==> t.cells[q] == s.cells[q]
  {
    hide Write, WriteSeed, Complement, Encoded, May;
    WriteFrame(s, Seed, Encoded(c, seed), w0);
    var s1 := Write(s, Seed, Encoded(c, seed), w0).0;
    WriteFrame(s1, Chaff, Complement(s1.cells[Seed]), w1);
    WriteSeedStages(c, s, seed, w0, w1);
  }

  /** It stops before, between or after its two writes. */
  lemma WriteSeedStages(c: Chip, s: Vault, seed: seq<bv16>, w0: Burn, w1: Burn)
    requires |seed| == 16
    ensures var t := WriteSeed(c, s, seed, w0, w1).0;
            var s1 := Write(s, Seed, Encoded(c, seed), w0).0;
            t == s || t == s1 || t == Write(s1, Chaff, Complement(s1.cells[Seed]), w1).0
  {
    hide Write, ReadSeed, Complement, Encoded;
  }

  lemma LockSeedFrame(c: Chip, s: Vault, w0: Burn)
    ensures var t := LockSeedPage(c, s, w0).0;
            && t.latch == s.latch && t.soft == s.soft && t.hard == s.hard
            && forall q: Region :: q != SeedLock ==> t.cells[q] == s.cells[q]
  {
    hide Write, ReadSeed, May, CanRead;
    WriteFrame(s, SeedLock, [SEED_PAGE_LOCK], w0);
  }

  lemma WriteBootkeyFrame(c: Chip, s: Vault, slot: nat, fp: seq<bv16>, w: Burn)
    requires |fp| == 16
    ensures var t := WriteBootkey(c, s, slot, fp, w);
            && t.latch == s.latch && t.soft == s.soft && t.hard == s.hard
            && (forall q: Region :: q != Slot(slot) ==> t.cells[q] == s.cells[q])
            && (var have := ReadBootkey(c, s, slot); have.Some? && !AllZero(have.value) ==> t == s)
  {
    hide Write, Encoded, ReadEcc, AllZero, May;
    WriteFrame(s, Slot(slot), Encoded(c, fp), w);
  }

  lemma GatesNext(c: Chip, s: Vault, e: Event)
    requires |c.ours| == 2 && Fits(c, e) && VoteLaws(c) && Gates(c, s)
    ensures Gates(c, Next(c, s, e))
  {
    hide OrRaw, Write, WriteSeed, LockSeedPage, WriteBootkey, ReadEcc, Vote3, VoteByte, Encoded, Gates, VoteLaws;
    hide KeyValid, BurnedSlotFor, AnyNonZeroEcc, Restart;
    match e
    case Reset => GatesRestart(c, s);
    case Do(DoWriteSeed(seed), w0, w1) =>
      WriteSeedFrame(c, s, seed, w0, w1);
      GatesWrite(c, s, WriteSeed(c, s, seed, w0, w1).0);
    case Do(DoLockSeed, w0, w1) =>
      LockSeedFrame(c, s, w0);
      GatesWrite(c, s, LockSeedPage(c, s, w0).0);
    case Do(DoSoftLock, _, _) => GatesWrite(c, s, s.(soft := true));
    case Do(DoBootkey(slot, fp), w0, _) =>
      WriteBootkeyFrame(c, s, slot, fp, w0);
      GatesWrite(c, s, WriteBootkey(c, s, slot, fp, w0));
    case Do(DoValid, w0, _) => GatesOr(c, s, Flags1, 0x3, w0);
    case Do(DoClose, w0, _) => GatesClose(c, s, w0);
    case Do(DoSecureBoot(k), w0, _) => GatesOr(c, s, Crit1, SECURE_BOOT, w0);
    case Do(DoLockdown, w0, w1) => GatesLockdown(c, s, w0, w1);
    case Do(DoLockPages, w0, w1) => GatesLockPages(c, s, w0, w1);
  }

  lemma GatesClose(c: Chip, s: Vault, w: Burn)
    requires VoteLaws(c) && Gates(c, s)
    ensures Gates(c, CloseSlots(s, w))
  {
    hide OrRaw, Gates, VoteLaws;
    if SecureNow(s) {
      GatesOr(c, s, Flags1, 0xC00, w);
    }
  }

  lemma GatesLockdown(c: Chip, s: Vault, w0: Burn, w1: Burn)
    requires VoteLaws(c) && Gates(c, s)
    ensures Gates(c, Lockdown(s, w0, w1))
  {
    hide OrRaw, Gates, VoteLaws, Within;
    if SecureNow(s) {
      GatesOr(c, s, Crit1, DEBUG_DISABLE | SECURE_DEBUG_DISABLE, w0);
      OrRawFrame(s, Crit1, DEBUG_DISABLE | SECURE_DEBUG_DISABLE, w0);
      GatesOr(c, OrRaw(s, Crit1, DEBUG_DISABLE | SECURE_DEBUG_DISABLE, w0).0, Flags0, UART_OTP_WATCHDOG_OFF, w1);
    }
  }

  lemma GatesLockPages(c: Chip, s: Vault, w0: Burn, w1: Burn)
    requires VoteLaws(c) && Gates(c, s)
    ensures Gates(c, LockBootPages(s, w0, w1))
  {
    hide OrRaw, Gates, VoteLaws, Within, Vote3;
    if SecureNow(s) && DebugOffNow(s) && KeyInvalid(s) & 0xC != 0 {
      FieldBits(Vote3(s.cells[Flags1]));
      GatesOr(c, s, Page1Lock, BOOT_PAGE_LOCK, w0);
      OrRawFrame(s, Page1Lock, BOOT_PAGE_LOCK, w0);
      GatesOr(c, OrRaw(s, Page1Lock, BOOT_PAGE_LOCK, w0).0, Page2Lock, BOOT_PAGE_LOCK, w1);
    }
  }

  lemma BlankClear(r: Region, m: bv24)
    ensures Clear(BLANK[r], m)
  {
    assert forall i :: 0 <= i < Size(r) ==> BLANK[r][i] == 0;
  }

  lemma FactoryGates(c: Chip)
    ensures Gates(c, FACTORY)
  {
    hide Vote3;
    BlankClear(Flags1, 0xFFF3FC);
    BlankClear(Flags1, 0xC00);
    BlankClear(Crit1, 0xFFFFFE);
    BlankClear(Flags0, 0xFFFFFF);
    BlankClear(Page1Lock, 0xFFFFFF);
    BlankClear(Page2Lock, 0xFFFFFF);
  }

  lemma {:induction false} RunGates(c: Chip, es: seq<Event>)
    requires Lawful(c) && AllFit(c, es)
    ensures Gates(c, Run(c, FACTORY, es))
  {
    if es == [] {
      FactoryGates(c);
    } else {
      hide Gates, Next, VoteLaws, EccLaws, KeyLaws;
      RunGates(c, es[..|es| - 1]);
      AreKeys(c);
      GatesNext(c, Run(c, FACTORY, es[..|es| - 1]), es[|es| - 1]);
    }
  }

  lemma AreKeys(c: Chip)
    requires KeyLaws(c)
    ensures |c.ours| == 2
  {
  }

  // ------------------------------------------------------------------ the keys under secure boot

  ghost predicate Burned(c: Chip, s: Vault, n: nat)
    requires n < |c.ours|
  {
    ReadBootkey(c, s, n) == Some(c.ours[n])
  }

  /** A slot is marked valid only over the two burned keys. */
  ghost predicate Keyed(c: Chip, s: Vault)
    requires |c.ours| == 2
  {
    Clear(s.cells[Flags1], 0x3) || (Burned(c, s, 0) && Burned(c, s, 1))
  }

  /** Key `k` is burned in a slot that is valid and not invalidated. */
  ghost predicate Protected(c: Chip, s: Vault, k: int)
    requires |c.ours| == 2
  {
    && 0 <= k < 2
    && var slot := BurnedSlotFor(c, s, k);
       slot >= 0 && KeyValid(s) & SlotBit(slot) != 0 && KeyInvalid(s) & SlotBit(slot) == 0
  }

  /** The regions a command may burn into. */
  function Touched(c: Command): set<Region> {
    match c
    case DoWriteSeed(_) => {Seed, Chaff}
    case DoLockSeed => {SeedLock}
    case DoSoftLock => {}
    case DoBootkey(slot, _) => {Slot(slot)}
    case DoValid => {Flags1}
    case DoClose => {Flags1}
    case DoSecureBoot(_) => {Crit1}
    case DoLockdown => {Crit1, Flags0}
    case DoLockPages => {Page1Lock, Page2Lock}
  }

  ghost predicate Kept(s: Vault, t: Vault, rs: set<Region>) {
    t.latch == s.latch && t.hard == s.hard && forall q: Region :: q !in rs ==> t.cells[q] == s.cells[q]
  }

  lemma KeptOr(s: Vault, r: Region, bits: bv24, w: Burn)
    ensures Kept(s, OrRaw(s, r, bits, w).0, {r}) && Kept(s, s, {})
  {
    hide OrRaw, Within;
    OrRawFrame(s, r, bits, w);
  }

  lemma KeptTwo(s: Vault, r: Region, b: bv24, w0: Burn, q: Region, d: bv24, w1: Burn)
    ensures Kept(s, OrRaw(OrRaw(s, r, b, w0).0, q, d, w1).0, {r, q})
  {
    hide OrRaw, Within;
    OrRawFrame(s, r, b, w0);
    OrRawFrame(OrRaw(s, r, b, w0).0, q, d, w1);
  }

  lemma KeptNone(s: Vault, rs: set<Region>)
    ensures Kept(s, s, rs)
  {
  }

  lemma FlagFrame(c: Chip, s: Vault, e: Event)
    requires |c.ours| == 2 && Fits(c, e) && e.Do? && (e.c.DoValid? || e.c.DoClose? || e.c.DoSecureBoot?)
    ensures Kept(s, Next(c, s, e), Touched(e.c))
  {
    hide OrRaw, ReadEcc, Vote3, Kept, AnyNonZeroEcc, BurnedSlotFor, KeyValid, SecureNow;
    KeptNone(s, Touched(e.c));
    KeptOr(s, Flags1, 0x3, e.w0);
    KeptOr(s, Flags1, 0xC00, e.w0);
    KeptOr(s, Crit1, SECURE_BOOT, e.w0);
  }

  lemma PairFrame(c: Chip, s: Vault, e: Event)
    requires |c.ours| == 2 && Fits(c, e) && e.Do? && (e.c.DoLockdown? || e.c.DoLockPages?)
    ensures Kept(s, Next(c, s, e), Touched(e.c))
  {
    hide OrRaw, Kept, SecureNow, KeyInvalid, DebugOffNow;
    KeptNone(s, Touched(e.c));
    KeptTwo(s, Crit1, DEBUG_DISABLE | SECURE_DEBUG_DISABLE, e.w0, Flags0, UART_OTP_WATCHDOG_OFF, e.w1);
    KeptTwo(s, Page1Lock, BOOT_PAGE_LOCK, e.w0, Page2Lock, BOOT_PAGE_LOCK, e.w1);
  }

  lemma SeedPageFrame(c: Chip, s: Vault, e: Event)
    requires |c.ours| == 2 && Fits(c, e) && e.Do? && (e.c.DoWriteSeed? || e.c.DoLockSeed? || e.c.DoSoftLock?)
    ensures Kept(s, Next(c, s, e), Touched(e.c))
    ensures ReadSeed(c, s) != Blank ==> Next(c, s, e).cells[Seed] == s.cells[Seed] && Next(c, s, e).cells[Chaff] == s.cells[Chaff]
  {
    hide WriteSeed, LockSeedPage, ReadSeed;
    if e.c.DoWriteSeed? {
      WriteSeedFrame(c, s, e.c.seed, e.w0, e.w1);
      if ReadSeed(c, s) != Blank {
        NoSeedWrite(c, s, e.c.seed, e.w0, e.w1);
      }
    } else {
      LockSeedFrame(c, s, e.w0);
    }
  }

  lemma NoSeedWrite(c: Chip, s: Vault, seed: seq<bv16>, w0: Burn, w1: Burn)
    requires |seed| == 16 && ReadSeed(c, s) != Blank
    ensures WriteSeed(c, s, seed, w0, w1) == (s, false)
  {
    hide ReadSeed, Write;
  }

  lemma CommandFrame(c: Chip, s: Vault, e: Event)
    requires |c.ours| == 2 && Fits(c, e)
    ensures e.Do? ==> Kept(s, Next(c, s, e), Touched(e.c))
  {
    hide Next, Kept;
    if e.Do? {
      match e.c
      case DoBootkey(slot, fp) => BootkeyFrame(c, s, e);
      case DoWriteSeed(_) => SeedPageFrame(c, s, e);
      case DoLockSeed => SeedPageFrame(c, s, e);
      case DoSoftLock => SeedPageFrame(c, s, e);
      case DoLockdown => PairFrame(c, s, e);
      case DoLockPages => PairFrame(c, s, e);
      case _ => FlagFrame(c, s, e);
    }
  }

  lemma BootkeyFrame(c: Chip, s: Vault, e: Event)
    requires |c.ours| == 2 && Fits(c, e) && e.Do? && e.c.DoBootkey?
    ensures Kept(s, Next(c, s, e), Touched(e.c))
    ensures KeyLaws(c) ==> forall n: nat :: n < 2 && Burned(c, s, n) ==> Next(c, s, e).cells[Slot(n)] == s.cells[Slot(n)]
  {
    hide WriteBootkey, ReadEcc, AllZero;
    WriteBootkeyFrame(c, s, e.c.slot, e.c.fp, e.w0);
  }

  lemma ResetFrame(c: Chip, s: Vault)
    requires |c.ours| == 2
    ensures Next(c, s, Reset).cells == s.cells
  {
    hide VoteByte;
  }

  /** The boot keys and their flags as one event leaves them. */
  lemma FlagsAndCritFrame(c: Chip, s: Vault, e: Event)
    requires |c.ours| == 2 && Fits(c, e)
    ensures var t := Next(c, s, e);
            && (t.cells[Flags1] == s.cells[Flags1] || (e.Do? && (e.c.DoValid? || e.c.DoClose?)))
            && (t.cells[Crit1] == s.cells[Crit1] || (e.Do? && (e.c.DoSecureBoot? || e.c.DoLockdown?)))
  {
    hide Next;
    CommandFrame(c, s, e);
    ResetFrame(c, s);
  }

  lemma BootkeysFrame(c: Chip, s: Vault, e: Event)
    requires |c.ours| == 2 && Fits(c, e) && KeyLaws(c)
    ensures forall n: nat :: n < 2 && Burned(c, s, n) ==> Next(c, s, e).cells[Slot(n)] == s.cells[Slot(n)]
  {
    hide Burned, KeyLaws, Next, Fits;
    if e == Reset {
      ResetFrame(c, s);
    } else if e.c.DoBootkey? {
      BootkeyFrame(c, s, e);
    } else {
      CommandFrame(c, s, e);
      assert Key0 !in Touched(e.c) && Key1 !in Touched(e.c);
      hide Touched;
    }
  }

  lemma KeyFrame(c: Chip, s: Vault, e: Event)
    requires |c.ours| == 2 && Fits(c, e) && KeyLaws(c)
    ensures var t := Next(c, s, e);
            && (t.cells[Flags1] == s.cells[Flags1] || (e.Do? && (e.c.DoValid? || e.c.DoClose?)))
            && (forall n: nat :: n < 2 && Burned(c, s, n) ==> t.cells[Slot(n)] == s.cells[Slot(n)])
            && (t.cells[Crit1] == s.cells[Crit1] || (e.Do? && (e.c.DoSecureBoot? || e.c.DoLockdown?)))
  {
    hide Burned, KeyLaws, Next, Touched, Slot;
    FlagsAndCritFrame(c, s, e);
    BootkeysFrame(c, s, e);
  }

  lemma KeyedValid(c: Chip, s: Vault, w: Burn)
    requires |c.ours| == 2
    ensures var t := MarkValid(c, s, w);
            t == s || (Burned(c, s, 0) && Burned(c, s, 1) && t.cells[Key0] == s.cells[Key0] && t.cells[Key1] == s.cells[Key1])
  {
    hide OrRaw, ReadEcc, AnyNonZeroEcc, Within;
    OrRawFrame(s, Flags1, 0x3, w);
  }

  lemma KeyedClose(s: Vault, w: Burn)
    ensures var t := CloseSlots(s, w);
            (Clear(s.cells[Flags1], 0x3) ==> Clear(t.cells[Flags1], 0x3))
            && t.cells[Key0] == s.cells[Key0] && t.cells[Key1] == s.cells[Key1]
  {
    hide OrRaw, Clear, Within, SecureNow;
    OrRawFrame(s, Flags1, 0xC00, w);
    if Clear(s.cells[Flags1], 0x3) {
      OrRawClear(s, Flags1, 0xC00, w, 0x3);
    }
  }

  lemma KeyedNext(c: Chip, s: Vault, e: Event)
    requires |c.ours| == 2 && Fits(c, e) && KeyLaws(c) && Keyed(c, s)
    ensures Keyed(c, Next(c, s, e))
  {
    hide ReadEcc, Clear, KeyLaws, MarkValid, CloseSlots;
    if e.Do? && e.c.DoValid? {
      KeyedValid(c, s, e.w0);
    } else if e.Do? && e.c.DoClose? {
      KeyedClose(s, e.w0);
    } else {
      hide Next;
      KeyFrame(c, s, e);
    }
  }

  /** A protected key keeps its slot, its slot keeps its flag, and nothing here ever revokes it. */
  lemma ProtectedNext(c: Chip, s: Vault, e: Event, k: int)
    requires |c.ours| == 2 && Fits(c, e) && KeyLaws(c) && VoteLaws(c)
    requires Gates(c, s) && Keyed(c, s) && Protected(c, s, k)
    ensures Protected(c, Next(c, s, e), k)
  {
    hide Next, Gates, VoteLaws, ReadEcc, Vote3, Clear, Within, KeyLaws, Rises;
    var t := Next(c, s, e);
    GatesNext(c, s, e);
    KeyFrame(c, s, e);
    ValidMeansKeyed(c, s);
    NextRises(c, s, e);
    FlagsRise(s, t);
    NeverInvalid(c, t);
    var slot := BurnedSlotFor(c, s, k);
    SlotBits(Vote3(s.cells[Flags1]), Vote3(t.cells[Flags1]), slot);
  }

  lemma SlotBits(u: bv24, v: bv24, slot: nat)
    requires Sub(u, v) && (u & 0xF) & SlotBit(slot) != 0
    ensures (v & 0xF) & SlotBit(slot) != 0
  {
  }

  lemma FlagsRise(s: Vault, t: Vault)
    requires Rises(s, t)
    ensures Sub(Vote3(s.cells[Flags1]), Vote3(t.cells[Flags1]))
  {
    hide Within, Vote3;
    VoteRises(s.cells[Flags1], t.cells[Flags1]);
  }

  lemma ValidMeansKeyed(c: Chip, s: Vault)
    requires |c.ours| == 2 && Keyed(c, s)
    ensures KeyValid(s) & 1 != 0 || KeyValid(s) & 2 != 0 ==> Burned(c, s, 0) && Burned(c, s, 1)
  {
    hide ReadEcc, Vote3, Clear;
    if Clear(s.cells[Flags1], 0x3) {
      VoteClear(s.cells[Flags1], 0x3);
    }
    FieldBits(Vote3(s.cells[Flags1]));
  }

  lemma NeverInvalid(c: Chip, s: Vault)
    requires Gates(c, s)
    ensures KeyInvalid(s) & 1 == 0 && KeyInvalid(s) & 2 == 0
  {
    hide Vote3;
    VoteClear(s.cells[Flags1], 0xFFF3FC);
    FieldBits(Vote3(s.cells[Flags1]));
  }

  /** The secure-boot bit is set in some copy. */
  // ------------------------------------------------------------------ what a step burns, and when

  /** No bit is cleared, and none set outside `bits`. */
  ghost predicate Adds(a: Rows, b: Rows, bits: bv24) {
    Within(a, b) && forall i :: 0 <= i < |b| ==> Sub(b[i], Join(a[i], bits))
  }

  lemma JoinedBits(a: bv24, bits: bv24, d: bv24)
    ensures Sub(a, Join(a, bits)) && Sub(Join(a, bits), Join(a, bits)) && Sub(Join(a, Pick(Join(a, bits), d)), Join(a, bits))
  {
  }

  lemma AddsNothing(a: Rows, bits: bv24)
    ensures Adds(a, a, bits)
  {
    hide Sub, Join;
    SubRefl(a);
    forall i | 0 <= i < |a|
      ensures Sub(a[i], Join(a[i], bits))
    {
      JoinedBits(a[i], bits, 0);
    }
  }

  lemma OrRowsAdd(cur: Rows, bits: bv24, readable: bool, may: bool, w: Burn)
    ensures Adds(cur, OrRows(cur, bits, readable, may, w).0, bits)
  {
    hide OrRows, Sub, Join, Pick;
    var got := OrRows(cur, bits, readable, may, w).0;
    OrRowsRise(cur, bits, readable, may, w);
    forall i | 0 <= i < |got|
      ensures Sub(got[i], Join(cur[i], bits))
    {
      OrRowsAt(cur, bits, readable, may, w, i);
      JoinedBits(cur[i], bits, w.mask(i));
    }
  }

  lemma OrAdds(s: Vault, r: Region, bits: bv24, w: Burn)
    ensures Adds(s.cells[r], OrRaw(s, r, bits, w).0.cells[r], bits)
  {
    hide OrRows, Adds, CanRead, May;
    OrRowsAdd(s.cells[r], bits, CanRead(s, r), May(s, r), w);
  }

  /** The bits of the flag rows that each command may set. */
  lemma FlagsAdd(c: Chip, s: Vault, e: Event)
    requires |c.ours| == 2 && Fits(c, e) && e.Do?
    ensures Adds(s.cells[Flags1], Next(c, s, e).cells[Flags1], if e.c.DoValid? then 0x000003 else if e.c.DoClose? then 0x000C00 else 0)
  {
    hide Adds, OrRaw, KeyValid, ReadEcc, SecureNow, AnyNonZeroEcc, BurnedSlotFor;
    AddsNothing(s.cells[Flags1], if e.c.DoValid? then 0x000003 else if e.c.DoClose? then 0x000C00 else 0);
    OrAdds(s, Flags1, 0x3, e.w0);
    OrAdds(s, Flags1, 0xC00, e.w0);
    if !e.c.DoValid? && !e.c.DoClose? {
      hide Next;
      CommandFrame(c, s, e);
    }
  }

  lemma LockdownAdds(c: Chip, s: Vault, w0: Burn, w1: Burn)
    ensures Adds(s.cells[Crit1], Lockdown(s, w0, w1).cells[Crit1], 0x000006)
    ensures Adds(s.cells[Flags0], Lockdown(s, w0, w1).cells[Flags0], 0x092000)
  {
    hide Adds, OrRaw, SecureNow, Within;
    AddsNothing(s.cells[Crit1], 0x000006);
    AddsNothing(s.cells[Flags0], 0x092000);
    var s1 := OrRaw(s, Crit1, DEBUG_DISABLE | SECURE_DEBUG_DISABLE, w0).0;
    OrAdds(s, Crit1, DEBUG_DISABLE | SECURE_DEBUG_DISABLE, w0);
    OrRawFrame(s, Crit1, DEBUG_DISABLE | SECURE_DEBUG_DISABLE, w0);
    OrAdds(s1, Flags0, UART_OTP_WATCHDOG_OFF, w1);
    OrRawFrame(s1, Flags0, UART_OTP_WATCHDOG_OFF, w1);
  }

  lemma LockPagesAdds(c: Chip, s: Vault, w0: Burn, w1: Burn)
    ensures Adds(s.cells[Page1Lock], LockBootPages(s, w0, w1).cells[Page1Lock], 0x141414)
    ensures Adds(s.cells[Page2Lock], LockBootPages(s, w0, w1).cells[Page2Lock], 0x141414)
  {
    hide Adds, OrRaw, SecureNow, Within, DebugOffNow, KeyInvalid;
    AddsNothing(s.cells[Page1Lock], 0x141414);
    AddsNothing(s.cells[Page2Lock], 0x141414);
    var s1 := OrRaw(s, Page1Lock, BOOT_PAGE_LOCK, w0).0;
    OrAdds(s, Page1Lock, BOOT_PAGE_LOCK, w0);
    OrRawFrame(s, Page1Lock, BOOT_PAGE_LOCK, w0);
    OrAdds(s1, Page2Lock, BOOT_PAGE_LOCK, w1);
    OrRawFrame(s1, Page2Lock, BOOT_PAGE_LOCK, w1);
  }

  /** One event burns nothing but the bits of its command: CRITICAL bit 0 for secure boot and bits 1 and 2
      for the lockdown, with three boot flags; the valid bits of slots 0 and 1, or the invalid bits of
      slots 2 and 3; 14 14 14 into each boot page's lock row. */
  lemma StepBurns(c: Chip, s: Vault, e: Event)
    requires |c.ours| == 2 && Fits(c, e)
    ensures e == Reset ==> Next(c, s, e).cells == s.cells
    ensures e.Do? ==>
              var t := Next(c, s, e).cells;
              && Adds(s.cells[Crit1], t[Crit1], if e.c.DoSecureBoot? then 0x000001 else if e.c.DoLockdown? then 0x000006 else 0)
              && Adds(s.cells[Flags0], t[Flags0], if e.c.DoLockdown? then 0x092000 else 0)
              && Adds(s.cells[Flags1], t[Flags1], if e.c.DoValid? then 0x000003 else if e.c.DoClose? then 0x000C00 else 0)
              && Adds(s.cells[Page1Lock], t[Page1Lock], if e.c.DoLockPages? then 0x141414 else 0)
              && Adds(s.cells[Page2Lock], t[Page2Lock], if e.c.DoLockPages? then 0x141414 else 0)
  {
    hide Adds, Next;
    if e == Reset {
      ResetFrame(c, s);
    } else {
      FlagsAdd(c, s, e);
      CommandFrame(c, s, e);
      CritAdds(c, s, e);
      PagesAdd(c, s, e);
    }
  }

  lemma CritAdds(c: Chip, s: Vault, e: Event)
    requires |c.ours| == 2 && Fits(c, e) && e.Do?
    ensures Adds(s.cells[Crit1], Next(c, s, e).cells[Crit1], if e.c.DoSecureBoot? then 0x000001 else if e.c.DoLockdown? then 0x000006 else 0)
    ensures Adds(s.cells[Flags0], Next(c, s, e).cells[Flags0], if e.c.DoLockdown? then 0x092000 else 0)
  {
    hide Adds, OrRaw, SecureNow, SlotValid, BurnedSlotFor, Lockdown, Kept;
    AddsNothing(s.cells[Crit1], if e.c.DoSecureBoot? then 0x000001 else if e.c.DoLockdown? then 0x000006 else 0);
    AddsNothing(s.cells[Flags0], 0);
    LockdownAdds(c, s, e.w0, e.w1);
    OrAdds(s, Crit1, SECURE_BOOT, e.w0);
    CommandFrame(c, s, e);
    if !e.c.DoLockdown? {
      SameFlags0(c, s, e);
    }
  }

  lemma SameFlags0(c: Chip, s: Vault, e: Event)
    requires |c.ours| == 2 && Fits(c, e) && e.Do? && !e.c.DoLockdown?
    ensures Next(c, s, e).cells[Flags0] == s.cells[Flags0]
    ensures !e.c.DoSecureBoot? ==> Next(c, s, e).cells[Crit1] == s.cells[Crit1]
  {
    hide Next;
    CommandFrame(c, s, e);
  }

  lemma PagesAdd(c: Chip, s: Vault, e: Event)
    requires |c.ours| == 2 && Fits(c, e) && e.Do?
    ensures Adds(s.cells[Page1Lock], Next(c, s, e).cells[Page1Lock], if e.c.DoLockPages? then 0x141414 else 0)
    ensures Adds(s.cells[Page2Lock], Next(c, s, e).cells[Page2Lock], if e.c.DoLockPages? then 0x141414 else 0)
  {
    hide Adds, LockBootPages, Next;
    AddsNothing(s.cells[Page1Lock], 0);
    AddsNothing(s.cells[Page2Lock], 0);
    if e.c.DoLockPages? {
      LockPagesAdds(c, s, e.w0, e.w1);
      assert Next(c, s, e) == LockBootPages(s, e.w0, e.w1) by {
        NextIsLockPages(c, s, e);
      }
    } else {
      CommandFrame(c, s, e);
    }
  }

  lemma NextIsLockPages(c: Chip, s: Vault, e: Event)
    requires |c.ours| == 2 && Fits(c, e) && e.Do? && e.c.DoLockPages?
    ensures Next(c, s, e) == LockBootPages(s, e.w0, e.w1)
  {
    hide LockBootPages;
  }

  /** When an event burns anything into the boot pages' lock rows: under secure boot, without debug, with a
      spare slot closed. Into the boot flags: under secure boot. */
  lemma PageGates(c: Chip, s: Vault, e: Event)
    requires |c.ours| == 2 && Fits(c, e)
    ensures var t := Next(c, s, e).cells;
            && (t[Page1Lock] != s.cells[Page1Lock] || t[Page2Lock] != s.cells[Page2Lock] ==>
                  e.Do? && e.c.DoLockPages? && s.latch & 0x1 != 0 && s.latch & 0x4 != 0 && Vote3(s.cells[Flags1]) & 0xC00 != 0)
            && (t[Flags0] != s.cells[Flags0] ==> e.Do? && e.c.DoLockdown? && s.latch & 0x1 != 0)
  {
    hide Next, Vote3;
    if e == Reset {
      ResetFrame(c, s);
    } else {
      CommandFrame(c, s, e);
      GateBits(Vote3(s.cells[Flags1]));
      if e.c.DoLockdown? || e.c.DoLockPages? {
        PairGates(c, s, e);
      }
    }
  }

  lemma PairGates(c: Chip, s: Vault, e: Event)
    requires |c.ours| == 2 && Fits(c, e) && e.Do?
    ensures e.c.DoLockdown? && Next(c, s, e) != s ==> s.latch & 0x1 != 0
    ensures e.c.DoLockPages? && Next(c, s, e) != s ==> s.latch & 0x1 != 0 && s.latch & 0x4 != 0 && KeyInvalid(s) & 0xC != 0
  {
    hide OrRaw, KeyInvalid;
  }

  /** Into the key flags: over both our keys, each in its slot, or under secure boot. */
  lemma FlagGates(c: Chip, s: Vault, e: Event)
    requires |c.ours| == 2 && Fits(c, e) && Next(c, s, e).cells[Flags1] != s.cells[Flags1]
    ensures e.Do?
    ensures if e.c.DoClose? then s.latch & 0x1 != 0
            else e.c.DoValid? && ReadEcc(c, s.cells[Key0]) == Some(c.ours[0]) && ReadEcc(c, s.cells[Key1]) == Some(c.ours[1])
  {
    FlagsAndCritFrame(c, s, e);
    if e.c.DoClose? {
      hide OrRaw;
    } else {
      hide OrRaw, ReadEcc, AnyNonZeroEcc;
      assert BurnedSlotFor(c, s, 0) == 0 && BurnedSlotFor(c, s, 1) == 1;
    }
  }

  /** Into the critical row: under secure boot, or before it with slot 0 valid and the running image's key in
      a valid slot. */
  lemma CritGates(c: Chip, s: Vault, e: Event)
    requires |c.ours| == 2 && Fits(c, e) && Next(c, s, e).cells[Crit1] != s.cells[Crit1]
    ensures e.Do?
    ensures if e.c.DoLockdown? then s.latch & 0x1 != 0
            else
              && e.c.DoSecureBoot? && s.latch & 0x1 == 0 && 0 <= e.c.imageKey && Vote3(s.cells[Flags1]) & 0x1 != 0
              && (ReadEcc(c, s.cells[Key0]) == Some(c.ours[e.c.imageKey])
                  || (ReadEcc(c, s.cells[Key1]) == Some(c.ours[e.c.imageKey]) && Vote3(s.cells[Flags1]) & 0x2 != 0))
  {
    FlagsAndCritFrame(c, s, e);
    if e.c.DoLockdown? {
      PairGates(c, s, e);
    } else {
      hide OrRaw, ReadEcc, Vote3;
      GateBits(Vote3(s.cells[Flags1]));
    }
  }

  lemma GateBits(v: bv24)
    ensures ((v & 0xF00) >> 8) & 0xC != 0 <==> v & 0xC00 != 0
    ensures (v & 0xF) & 1 == v & 1 && (v & 0xF) & 2 == v & 2
  {
  }

  /** Into a key slot: one of our fingerprints, over nothing that reads as written. */
  lemma KeySlotGate(c: Chip, s: Vault, e: Event, n: nat)
    requires |c.ours| == 2 && Fits(c, e) && n < 2
    ensures Next(c, s, e).cells[Slot(n)] != s.cells[Slot(n)] ==>
              && e.Do? && e.c.DoBootkey? && e.c.slot == n && (e.c.fp == c.ours[0] || e.c.fp == c.ours[1])
              && var v := ReadEcc(c, s.cells[Slot(n)]); v.Some? ==> forall i :: 0 <= i < |v.value| ==> v.value[i] == 0
  {
    hide Next, ReadEcc;
    if e == Reset {
      ResetFrame(c, s);
    } else if e.c.DoBootkey? && e.c.slot == n {
      if Next(c, s, e) != s {
        BootkeyOnlyOurs(c, s, e);
      }
    } else {
      CommandFrame(c, s, e);
      assert Slot(n) !in Touched(e.c);
      hide Touched, Slot;
    }
  }

  lemma BootkeyOnlyOurs(c: Chip, s: Vault, e: Event)
    requires |c.ours| == 2 && Fits(c, e) && e.Do? && e.c.DoBootkey? && Next(c, s, e) != s
    ensures e.c.fp == c.ours[0] || e.c.fp == c.ours[1]
    ensures var v := ReadEcc(c, s.cells[Slot(e.c.slot)]); v.Some? ==> forall i :: 0 <= i < |v.value| ==> v.value[i] == 0
  {
    hide ReadEcc, Write, Encoded;
  }

  ghost predicate SecureBurned(s: Vault) {
    !Clear(s.cells[Crit1], SECURE_BOOT)
  }

  /** Only the one command sets it, and only when the key of the running image is protected. */
  lemma SetBySecureBoot(c: Chip, s: Vault, e: Event)
    requires |c.ours| == 2 && Fits(c, e) && KeyLaws(c) && Gates(c, s)
    requires !SecureBurned(s) && SecureBurned(Next(c, s, e))
    ensures e.Do? && e.c.DoSecureBoot? && Protected(c, s, e.c.imageKey)
  {
    hide OrRaw, Write, WriteSeed, LockSeedPage, WriteBootkey, ReadEcc, Vote3, Clear, Restart, LockBootPages, Within, Gates;
    hide KeyLaws, KeyValid, KeyInvalid;
    KeyFrame(c, s, e);
    NeverInvalid(c, s);
    if e.Do? && e.c.DoLockdown? {
      OrRawClear(s, Crit1, DEBUG_DISABLE | SECURE_DEBUG_DISABLE, e.w0, SECURE_BOOT);
      OrRawFrame(OrRaw(s, Crit1, DEBUG_DISABLE | SECURE_DEBUG_DISABLE, e.w0).0, Flags0, UART_OTP_WATCHDOG_OFF, e.w1);
    }
  }

  lemma FactoryKeyed(c: Chip)
    requires |c.ours| == 2
    ensures Keyed(c, FACTORY) && !SecureBurned(FACTORY)
  {
    BlankClear(Flags1, 0x3);
    BlankClear(Crit1, SECURE_BOOT);
  }

  lemma {:induction false} RunKeyed(c: Chip, es: seq<Event>)
    requires Lawful(c) && AllFit(c, es)
    ensures Keyed(c, Run(c, FACTORY, es))
  {
    hide KeyLaws;
    AreKeys(c);
    if es == [] {
      FactoryKeyed(c);
    } else {
      hide Keyed, Next, VoteLaws, EccLaws;
      RunKeyed(c, es[..|es| - 1]);
      KeyedNext(c, Run(c, FACTORY, es[..|es| - 1]), es[|es| - 1]);
    }
  }

  /** Event `i` set the secure-boot bit, from an image whose key was protected at that moment. */
  ghost predicate SetsSecureBoot(c: Chip, s: Vault, es: seq<Event>, i: nat)
    requires |c.ours| == 2 && AllFit(c, es) && i < |es|
  {
    && es[i].Do? && es[i].c.DoSecureBoot?
    && !SecureBurned(Run(c, s, es[..i])) && SecureBurned(Run(c, s, es[..i + 1]))
    && Protected(c, Run(c, s, es[..i]), es[i].c.imageKey)
  }

  /** From a blank memory and under every sequence of commands, failed writes and resets: once any copy
      of the secure-boot bit is set, the very command that set it ran from an image of ours, whose key
      was then burned in a valid slot and still is, never invalidated. */
  lemma {:induction false} SecureBootNeverBricks(c: Chip, es: seq<Event>)
    requires Lawful(c) && AllFit(c, es) && SecureBurned(Run(c, FACTORY, es))
    ensures |c.ours| == 2
            && exists i :: 0 <= i < |es| && SetsSecureBoot(c, FACTORY, es, i) && Protected(c, Run(c, FACTORY, es), es[i].c.imageKey)
  {
    hide KeyLaws, Keyed, Gates, Next, VoteLaws, EccLaws, SecureBurned, Protected;
    AreKeys(c);
    if es == [] {
      FactoryKeyed(c);
    } else {
      var init, e := es[..|es| - 1], es[|es| - 1];
      var s := Run(c, FACTORY, init);
      RunGates(c, init);
      RunKeyed(c, init);
      var i := |es| - 1;
      if SecureBurned(s) {
        SecureBootNeverBricks(c, init);
        i :| 0 <= i < |init| && SetsSecureBoot(c, FACTORY, init, i) && Protected(c, s, init[i].c.imageKey);
        assert init[..i] == es[..i] && init[..i + 1] == es[..i + 1];
      } else {
        SetBySecureBoot(c, s, e);
        assert es[..i] == init && es[..i + 1] == es;
      }
      ProtectedNext(c, s, e, es[i].c.imageKey);
      assert SetsSecureBoot(c, FACTORY, es, i);
    }
  }

  // ------------------------------------------------------------------ a boot under secure boot first

  lemma OnlyResetLatches(c: Chip, s: Vault, e: Event)
    requires |c.ours| == 2 && Fits(c, e)
    ensures e.Do? ==> Next(c, s, e).latch == s.latch
  {
    hide Next;
    CommandFrame(c, s, e);
  }

  /** Copies without the bit do not decode to it. */
  lemma ClearDecodesClear(c: Chip, rows: Rows)
    requires VoteLaws(c) && |rows| == 8 && Clear(rows, SECURE_BOOT)
    ensures c.critical(rows) & SECURE_BOOT == 0
  {
    var all := seq(8, _ => 0xFFFFFE as bv24);
    forall i | 0 <= i < 8
      ensures Sub(rows[i], all[i])
    {
      assert Pick(rows[i], SECURE_BOOT) == 0;
      LowBit(rows[i]);
    }
    assert Within(rows, all) && Uniform(all, 0xFFFFFE);
    LowBit(c.critical(rows));
  }

  lemma LowBit(a: bv24)
    ensures Sub(a, 0xFFFFFE) <==> Pick(a, SECURE_BOOT) == 0
  {
  }

  lemma NotSecureAtFirst()
    ensures !SecureNow(FACTORY)
  {
  }

  /** Event `i` is a reset that found the bit burned and, for the first time, latched it: the boot after
      it is the first to run under secure boot. */
  ghost predicate LatchesSecureBoot(c: Chip, s: Vault, es: seq<Event>, i: nat)
    requires |c.ours| == 2 && AllFit(c, es) && i < |es|
  {
    && es[i].Reset? && SecureBurned(Run(c, s, es[..i]))
    && !SecureNow(Run(c, s, es[..i])) && SecureNow(Run(c, s, es[..i + 1]))
  }

  /** Running under secure boot now means some reset latched it. */
  lemma {:induction false} LatchedByReset(c: Chip, es: seq<Event>)
    requires Lawful(c) && AllFit(c, es) && SecureNow(Run(c, FACTORY, es))
    ensures |c.ours| == 2 && exists i :: 0 <= i < |es| && LatchesSecureBoot(c, FACTORY, es, i)
  {
    hide KeyLaws, Next, VoteLaws, EccLaws, SecureBurned, SecureNow;
    AreKeys(c);
    if es == [] {
      NotSecureAtFirst();
    } else {
      var init, e := es[..|es| - 1], es[|es| - 1];
      var s := Run(c, FACTORY, init);
      OnlyResetLatches(c, s, e);
      var i := |es| - 1;
      SameLatch(s, Next(c, s, e));
      if SecureNow(s) {
        LatchedByReset(c, init);
        i :| 0 <= i < |init| && LatchesSecureBoot(c, FACTORY, init, i);
        assert init[..i] == es[..i] && init[..i + 1] == es[..i + 1];
      } else {
        ResetLatches(c, s);
        assert es[..i] == init && es[..i + 1] == es;
      }
      assert LatchesSecureBoot(c, FACTORY, es, i);
    }
  }

  lemma SameLatch(s: Vault, t: Vault)
    ensures s.latch == t.latch ==> SecureNow(s) == SecureNow(t)
  {
  }

  lemma ResetLatches(c: Chip, s: Vault)
    requires VoteLaws(c) && |c.ours| == 2
    ensures SecureNow(Next(c, s, Reset)) ==> SecureBurned(s)
  {
    hide VoteLaws, Clear, VoteByte;
    if Clear(s.cells[Crit1], SECURE_BOOT) {
      ClearDecodesClear(c, s.cells[Crit1]);
    }
  }

  /** Something that cannot be undone beyond the keys themselves. */
  ghost predicate Closing(s: Vault) {
    || !Clear(s.cells[Flags1], 0xC00) || !Clear(s.cells[Crit1], 0xFFFFFE) || !Clear(s.cells[Flags0], 0xFFFFFF)
    || !Clear(s.cells[Page1Lock], 0xFFFFFF) || !Clear(s.cells[Page2Lock], 0xFFFFFF)
  }

  /** Closing the spare slots, disabling debug and boot paths, and locking the pages are found only while
      running under secure boot, and all come after the reset that first latched it, at which none of
      them had been done; locking the pages also after a boot without debug and with a spare slot
      closed. */
  lemma ClosedOnlyUnderSecureBoot(c: Chip, es: seq<Event>)
    requires Lawful(c) && AllFit(c, es)
    ensures var s := Run(c, FACTORY, es);
            && (Closing(s) ==>
                  SecureNow(s)
                  && exists i :: 0 <= i < |es| && LatchesSecureBoot(c, FACTORY, es, i) && !Closing(Run(c, FACTORY, es[..i])))
            && (!Clear(s.cells[Page1Lock], 0xFFFFFF) || !Clear(s.cells[Page2Lock], 0xFFFFFF)
                ==> SecureNow(s) && DebugOffNow(s) && KeyInvalid(s) & 0xC != 0)
  {
    hide Next, VoteLaws, EccLaws, SecureBurned, Clear, Vote3, Sub;
    var s := Run(c, FACTORY, es);
    RunGates(c, es);
    FieldBits(Vote3(s.cells[Flags1]));
    if Closing(s) {
      LatchedByReset(c, es);
      var i :| 0 <= i < |es| && LatchesSecureBoot(c, FACTORY, es, i);
      RunGates(c, es[..i]);
    }
  }

  // ------------------------------------------------------------------ the seed

  /** Only the two seed commands touch the seed page. */
  lemma SeedFrame(c: Chip, s: Vault, e: Event)
    requires |c.ours| == 2 && Fits(c, e)
    ensures var t := Next(c, s, e);
            && (ReadSeed(c, s) != Blank ==> t.cells[Seed] == s.cells[Seed] && t.cells[Chaff] == s.cells[Chaff])
            && (t.cells[SeedLock] == s.cells[SeedLock] || (e.Do? && e.c.DoLockSeed?))
            && (e.Do? && !e.c.DoWriteSeed? ==> t.cells[Seed] == s.cells[Seed] && t.cells[Chaff] == s.cells[Chaff])
  {
    hide SeedIn, ReadSeed, Next;
    ResetFrame(c, s);
    CommandFrame(c, s, e);
    if e.Do? && e.c.DoWriteSeed? {
      SeedPageFrame(c, s, e);
    }
  }

  /** Anything but a blank page is left alone for ever: a seed that reads as present is never changed. */
  lemma {:induction false} SeedNeverChanges(c: Chip, s: Vault, es: seq<Event>)
    requires |c.ours| == 2 && AllFit(c, es) && SeedIn(c, s.cells) != Blank
    ensures var t := Run(c, s, es);
            t.cells[Seed] == s.cells[Seed] && t.cells[Chaff] == s.cells[Chaff] && SeedIn(c, t.cells) == SeedIn(c, s.cells)
  {
    if es != [] {
      hide Next, ReadEcc;
      var t := Run(c, s, es[..|es| - 1]);
      SeedNeverChanges(c, s, es[..|es| - 1]);
      SeedFrame(c, t, es[|es| - 1]);
    }
  }

  /** The complement catches every later change of the page: bits only rise, and one more bit in either
      half makes it read as corrupt. */
  lemma TamperDetected(c: Chip, a: Cells, b: Cells)
    requires SeedIn(c, a).Present? && Within(a[Seed], b[Seed]) && Within(a[Chaff], b[Chaff])
    ensures SeedIn(c, b) == if a[Seed] == b[Seed] && a[Chaff] == b[Chaff] then SeedIn(c, a) else Corrupt
  {
    hide ReadEcc, Within, Complementary, Zero;
    if a[Seed] != b[Seed] || a[Chaff] != b[Chaff] {
      PairTampered(a[Seed], a[Chaff], b[Seed], b[Chaff]);
    }
  }

  lemma PairTampered(a: Rows, ac: Rows, b: Rows, bc: Rows)
    requires |a| == |ac| && Complementary(a, ac) && Within(a, b) && Within(ac, bc) && (a != b || ac != bc)
    ensures !Complementary(b, bc) && !(Zero(b) && Zero(bc))
  {
    hide Sub, Differ;
    var i :| 0 <= i < |a| && (a[i] != b[i] || ac[i] != bc[i]);
    RowTampered(a[i], ac[i], b[i], bc[i]);
  }

  lemma RowTampered(x: bv24, y: bv24, x': bv24, y': bv24)
    requires Differ(x, y) == 0xFFFFFF && Sub(x, x') && Sub(y, y') && (x != x' || y != y')
    ensures Differ(x', y') != 0xFFFFFF && (x' != 0 || y' != 0)
  {
    Complements(x, y);
    if Differ(x', y') == 0xFFFFFF {
      Complements(x', y');
      NotRises(x, x');
      assert false;
    }
    if x' == 0 && y' == 0 {
      SubZero(x);
      SubZero(y);
      assert false;
    }
  }

  lemma SubZero(x: bv24)
    ensures Sub(x, 0) ==> x == 0
  {
  }

  lemma Complements(x: bv24, y: bv24)
    requires Differ(x, y) == 0xFFFFFF
    ensures y == x ^ 0xFFFFFF && x == y ^ 0xFFFFFF
  {
  }

  /** A value and its complement cannot both rise. */
  lemma NotRises(x: bv24, z: bv24)
    requires Sub(x, z) && Sub(x ^ 0xFFFFFF, z ^ 0xFFFFFF)
    ensures x == z
  {
  }

  lemma Decodes(c: Chip, x: bv16)
    requires EccLaws(c)
    ensures c.decode(c.encode(x)) == Some(x)
  {
  }

  lemma {:induction false} DecodesEncoded(c: Chip, v: seq<bv16>)
    requires EccLaws(c)
    ensures ReadEcc(c, Encoded(c, v)) == Some(v)
  {
    if v == [] {
    } else {
      var rows := Encoded(c, v);
      Decodes(c, v[0]);
      assert rows[0] == c.encode(v[0]);
      assert rows[1..] == Encoded(c, v[1..]);
      DecodesEncoded(c, v[1..]);
      assert v == [v[0]] + v[1..];
    }
  }

  /** Over zero rows a good write takes. */
  lemma ProgramsZero(was: Rows, want: Rows, w: Burn)
    requires |was| == |want| && Zero(was)
    ensures Programmed(was, want, true, w).1 == w.ok && (w.ok ==> Programmed(was, want, true, w).0 == want)
  {
    forall i | 0 <= i < |was|
      ensures Sub(was[i], want[i])
    {
      assert was[i] == 0;
    }
  }

  lemma ComplementIs(rows: Rows)
    ensures Complementary(rows, Complement(rows)) && (|rows| > 0 && Zero(rows) ==> !Zero(Complement(rows)))
  {
    var d := Complement(rows);
    forall i | 0 <= i < |rows|
      ensures Differ(rows[i], d[i]) == 0xFFFFFF
    {
      XorBack(rows[i]);
    }
    if |rows| > 0 && Zero(rows) {
      assert rows[0] == 0 && d[0] == Flip(rows[0]);
    }
  }

  lemma XorBack(x: bv24)
    ensures Differ(x, Flip(x)) == 0xFFFFFF
  {
  }

  lemma SeedPairReads(c: Chip, cells: Cells, v: seq<bv16>)
    requires EccLaws(c) && |v| == 16 && cells[Seed] == Encoded(c, v) && cells[Chaff] == Complement(Encoded(c, v))
    ensures SeedIn(c, cells) == Present(v)
  {
    hide ReadEcc, Encoded, Complement, Complementary;
    DecodesEncoded(c, v);
    ComplementIs(Encoded(c, v));
  }

  /** The seed command reports success exactly when the page was blank and unlocked and both writes
      took; and then the seed reads back. */
  lemma WriteSeedSucceedsIff(c: Chip, s: Vault, seed: seq<bv16>, w0: Burn, w1: Burn)
    requires EccLaws(c) && |seed| == 16
    ensures var (t, ok) := WriteSeed(c, s, seed, w0, w1);
            && (ok <==> ReadSeed(c, s) == Blank && !s.hard && w0.ok && w1.ok)
            && (ok ==> ReadSeed(c, t) == Present(seed))
  {
    hide ReadEcc, Encoded, Complement, Complementary, Programmed, EccLaws, Zero;
    var rows := Encoded(c, seed);
    if ReadSeed(c, s) == Blank {
      BlankIsZero(c, s);
      NotMay(s.cells[Seed], rows, w0);
      if !s.hard {
        ProgramsZero(s.cells[Seed], rows, w0);
        var s1 := Write(s, Seed, rows, w0).0;
        ProgramsZero(s.cells[Chaff], Complement(rows), w1);
        if w0.ok && w1.ok {
          SeedPairReads(c, Write(s1, Chaff, Complement(rows), w1).0.cells, seed);
        } else if w0.ok {
          assert s1.cells[Seed] == rows && s1.cells[Chaff] == s.cells[Chaff];
          assert !Write(s1, Chaff, Complement(rows), w1).1;
        }
      }
    }
  }

  lemma NotMay(was: Rows, want: Rows, w: Burn)
    requires |was| == |want|
    ensures Programmed(was, want, false, w) == (was, false)
  {
  }

  lemma BlankIsZero(c: Chip, s: Vault)
    requires ReadSeed(c, s) == Blank
    ensures !s.soft && Zero(s.cells[Seed]) && Zero(s.cells[Chaff])
  {
    hide ReadEcc, Complementary;
  }

  /** The page is locked for good, in OTP or in effect, only over a seed that reads back. */
  ghost predicate LockedOverSeed(c: Chip, s: Vault) {
    (!Zero(s.cells[SeedLock]) || s.hard) ==> SeedIn(c, s.cells).Present?
  }

  lemma LockNext(c: Chip, s: Vault, e: Event)
    requires |c.ours| == 2 && Fits(c, e) && LockedOverSeed(c, s)
    ensures LockedOverSeed(c, Next(c, s, e))
  {
    hide ReadEcc, OrRaw, Write, WriteSeed, WriteBootkey, Vote3, VoteByte, Complementary, BurnedSlotFor, KeyValid;
    hide AnyNonZeroEcc, Zero, CloseSlots, Lockdown, LockBootPages, EnableSecureBoot, MarkValid, LockSeedPage;
    SeedFrame(c, s, e);
    if e.Reset? {
      LockByte(s);
    } else {
      HardStays(c, s, e);
      if e.c.DoLockSeed? {
        LockNeedsSeed(c, s, e.w0);
      }
    }
  }

  lemma LockNeedsSeed(c: Chip, s: Vault, w: Burn)
    ensures var t := LockSeedPage(c, s, w).0;
            && t.cells[Seed] == s.cells[Seed] && t.cells[Chaff] == s.cells[Chaff]
            && (t.cells[SeedLock] != s.cells[SeedLock] ==> SeedIn(c, s.cells).Present?)
  {
    hide Write, ReadEcc, Complementary, Zero;
    LockSeedFrame(c, s, w);
    WriteFrame(s, SeedLock, [SEED_PAGE_LOCK], w);
  }

  lemma HardStays(c: Chip, s: Vault, e: Event)
    requires |c.ours| == 2 && Fits(c, e) && e.Do?
    ensures Next(c, s, e).hard == s.hard
  {
    hide Next;
    CommandFrame(c, s, e);
  }

  lemma LockByte(s: Vault)
    ensures VoteByte(s.cells[SeedLock][0]) & LOCK_S != 0 ==> !Zero(s.cells[SeedLock])
  {
    ZeroByte();
  }

  lemma ZeroByte()
    ensures VoteByte(0) & LOCK_S == 0
  {
  }

  /** From a blank memory the seed page is never locked over a blank, corrupt or half-written seed,
      soft-locking it first included. */
  lemma {:induction false} SeedLockedOnlyWhenPresent(c: Chip, es: seq<Event>)
    requires |c.ours| == 2 && AllFit(c, es)
    ensures LockedOverSeed(c, Run(c, FACTORY, es))
  {
    if es == [] {
      assert Zero(FACTORY.cells[SeedLock]);
    } else {
      hide Next, LockedOverSeed;
      SeedLockedOnlyWhenPresent(c, es[..|es| - 1]);
      LockNext(c, Run(c, FACTORY, es[..|es| - 1]), es[|es| - 1]);
    }
  }

  // ------------------------------------------------------------------ the documented order completes

  lemma GoodOr(s: Vault, r: Region, bits: bv24, w: Burn, x: bv24)
    requires Uniform(s.cells[r], x) && w.ok && Size(r) <= 8 && !InSeedPage(r)
    ensures Uniform(OrRaw(s, r, bits, w).0.cells[r], Join(x, bits))
  {
    var cur := s.cells[r];
    var want := Ored(cur, bits);
    forall i | 0 <= i < |cur|
      ensures want[i] == Join(x, bits) && Sub(cur[i], want[i])
    {
      OredAt(cur, bits, i);
      SubBits(x, bits, 0);
    }
  }

  lemma ZeroReads(c: Chip, rows: Rows)
    requires EccLaws(c) && Zero(rows)
    ensures ReadEcc(c, rows).Some? && AllZero(ReadEcc(c, rows).value)
  {
    if rows != [] {
      ZeroReads(c, rows[1..]);
    }
  }

  lemma GoodBootkey(c: Chip, s: Vault, slot: nat, w: Burn)
    requires EccLaws(c) && KeyLaws(c) && slot < 2 && Zero(s.cells[Slot(slot)]) && w.ok
    ensures var t := WriteBootkey(c, s, slot, c.ours[slot], w);
            Burned(c, t, slot) && Kept(s, t, {Slot(slot)})
  {
    hide ReadEcc, Zero, Programmed, Encoded, AllZero;
    ZeroReads(c, s.cells[Slot(slot)]);
    ProgramsZero(s.cells[Slot(slot)], Encoded(c, c.ours[slot]), w);
    DecodesEncoded(c, c.ours[slot]);
  }

  lemma GoodValid(c: Chip, s: Vault, w: Burn)
    requires KeyLaws(c) && c.ours[0] != c.ours[1] && w.ok
    requires Burned(c, s, 0) && Burned(c, s, 1) && Uniform(s.cells[Flags1], 0)
    ensures Uniform(MarkValid(c, s, w).cells[Flags1], 3) && Kept(s, MarkValid(c, s, w), {Flags1})
  {
    hide ReadEcc, Uniform, OrRaw, AllZero;
    GoodOr(s, Flags1, 0x3, w, 0);
    KeptOr(s, Flags1, 0x3, w);
    JoinZero(0x3);
  }

  /** The boot flags, critical rows and boot keys are still as they left the factory. */
  ghost predicate BootBlank(s: Vault) {
    && Zero(s.cells[Key0]) && Zero(s.cells[Key1]) && Uniform(s.cells[Flags1], 0) && s.latch == 0
    && Uniform(s.cells[Crit1], 0) && Uniform(s.cells[Flags0], 0)
    && Uniform(s.cells[Page1Lock], 0) && Uniform(s.cells[Page2Lock], 0)
  }

  /** Both fingerprints burned. */
  lemma GoodBothKeys(c: Chip, s: Vault, w: Burn)
    requires EccLaws(c) && KeyLaws(c) && w.ok && Zero(s.cells[Key0]) && Zero(s.cells[Key1])
    ensures var s2 := WriteBootkey(c, WriteBootkey(c, s, 0, c.ours[0], w), 1, c.ours[1], w);
            Burned(c, s2, 0) && Burned(c, s2, 1) && Kept(s, s2, {Key0, Key1})
  {
    hide ReadEcc, WriteBootkey, AllZero, Zero;
    var s1 := WriteBootkey(c, s, 0, c.ours[0], w);
    GoodBootkey(c, s, 0, w);
    GoodBootkey(c, s1, 1, w);
  }

  /** And marked valid. */
  lemma GoodKeys(c: Chip, s: Vault, w: Burn)
    requires EccLaws(c) && KeyLaws(c) && c.ours[0] != c.ours[1] && w.ok && BootBlank(s)
    ensures var s2 := WriteBootkey(c, WriteBootkey(c, s, 0, c.ours[0], w), 1, c.ours[1], w);
            var s3 := MarkValid(c, s2, w);
            Burned(c, s3, 0) && Burned(c, s3, 1) && Uniform(s3.cells[Flags1], 3) && Kept(s, s3, {Key0, Key1, Flags1})
  {
    hide ReadEcc, Uniform, WriteBootkey, MarkValid, AllZero, Zero;
    var s2 := WriteBootkey(c, WriteBootkey(c, s, 0, c.ours[0], w), 1, c.ours[1], w);
    GoodBothKeys(c, s, w);
    GoodValid(c, s2, w);
  }

  lemma JoinZero(x: bv24)
    ensures Join(0, x) == x
  {
  }

  lemma BlankUniform(r: Region)
    ensures Uniform(BLANK[r], 0) && Zero(BLANK[r])
  {
  }

  lemma VoteUniform(rows: Rows, x: bv24)
    requires |rows| == 3 && Uniform(rows, x)
    ensures Vote3(rows) == x
  {
    VoteOutvotesOne(rows, 0, x);
  }

  /** The running image signed with our first key: secure boot goes in, and the next reset has it. */
  lemma GoodSecureBoot(c: Chip, s: Vault, w: Burn)
    requires VoteLaws(c) && |c.ours| == 2 && w.ok && Burned(c, s, 0) && Uniform(s.cells[Flags1], 3)
    requires Uniform(s.cells[Crit1], 0) && s.latch == 0
    ensures var t := Restart(c, EnableSecureBoot(c, s, 0, w));
            Uniform(t.cells[Crit1], SECURE_BOOT) && t.latch == SECURE_BOOT
            && forall q: Region :: q != Crit1 ==> t.cells[q] == s.cells[q]
  {
    hide ReadEcc, Uniform, OrRaw, Vote3, VoteByte;
    VoteUniform(s.cells[Flags1], 3);
    GoodOr(s, Crit1, SECURE_BOOT, w, 0);
    KeptOr(s, Crit1, SECURE_BOOT, w);
    JoinZero(SECURE_BOOT);
  }

  lemma GoodCloseAndLockdown(c: Chip, s: Vault, w: Burn)
    requires VoteLaws(c) && w.ok && Uniform(s.cells[Flags1], 3) && Uniform(s.cells[Crit1], SECURE_BOOT)
    requires Uniform(s.cells[Flags0], 0) && s.latch == SECURE_BOOT
    ensures var t := Restart(c, Lockdown(CloseSlots(s, w), w, w));
            && Uniform(t.cells[Flags1], 0xC03) && Uniform(t.cells[Crit1], 0x7) && Uniform(t.cells[Flags0], UART_OTP_WATCHDOG_OFF)
            && t.latch == 0x7 && t.hard == (VoteByte(s.cells[SeedLock][0]) & LOCK_S != 0)
            && forall q: Region :: q != Crit1 && q != Flags0 && q != Flags1 ==> t.cells[q] == s.cells[q]
  {
    hide Uniform, OrRaw, VoteByte;
    var debug := DEBUG_DISABLE | SECURE_DEBUG_DISABLE;
    GoodOr(s, Flags1, 0xC00, w, 3);
    KeptOr(s, Flags1, 0xC00, w);
    var s1 := OrRaw(s, Flags1, 0xC00, w).0;
    GoodOr(s1, Crit1, debug, w, SECURE_BOOT);
    KeptOr(s1, Crit1, debug, w);
    var s2 := OrRaw(s1, Crit1, debug, w).0;
    GoodOr(s2, Flags0, UART_OTP_WATCHDOG_OFF, w, 0);
    KeptOr(s2, Flags0, UART_OTP_WATCHDOG_OFF, w);
  }

  lemma GoodLockPages(s: Vault, w: Burn)
    requires w.ok && s.latch == 0x7 && Uniform(s.cells[Flags1], 0xC03)
    requires Uniform(s.cells[Page1Lock], 0) && Uniform(s.cells[Page2Lock], 0)
    ensures var t := LockBootPages(s, w, w);
            Uniform(t.cells[Page1Lock], BOOT_PAGE_LOCK) && Uniform(t.cells[Page2Lock], BOOT_PAGE_LOCK)
            && Kept(s, t, {Page1Lock, Page2Lock})
  {
    hide Uniform, OrRaw, Vote3;
    VoteUniform(s.cells[Flags1], 0xC03);
    GoodOr(s, Page1Lock, BOOT_PAGE_LOCK, w, 0);
    KeptOr(s, Page1Lock, BOOT_PAGE_LOCK, w);
    var s1 := OrRaw(s, Page1Lock, BOOT_PAGE_LOCK, w).0;
    GoodOr(s1, Page2Lock, BOOT_PAGE_LOCK, w, 0);
    KeptOr(s1, Page2Lock, BOOT_PAGE_LOCK, w);
  }

  /** The boot keys and flags in the documented order, the running image signed with our first key. */
  function BootSteps(c: Chip, w: Burn): seq<Event>
    requires |c.ours| == 2
  {
    [Do(DoBootkey(0, c.ours[0]), w, w), Do(DoBootkey(1, c.ours[1]), w, w), Do(DoValid, w, w), Do(DoSecureBoot(0), w, w),
     Reset, Do(DoClose, w, w), Do(DoLockdown, w, w), Reset, Do(DoLockPages, w, w)]
  }

  /** The seed before them: written, a reset so that the keys are derived from it, locked, soft-locked. */
  function SeedSteps(seed: seq<bv16>, w: Burn): seq<Event> {
    [Do(DoWriteSeed(seed), w, w), Reset, Do(DoLockSeed, w, w), Do(DoSoftLock, w, w)]
  }

  function Ceremony(c: Chip, seed: seq<bv16>, w: Burn): seq<Event>
    requires |c.ours| == 2
  {
    SeedSteps(seed, w) + BootSteps(c, w)
  }

  lemma RunStep(c: Chip, s: Vault, es: seq<Event>, k: nat)
    requires |c.ours| == 2 && AllFit(c, es) && k < |es|
    ensures Run(c, s, es[..k + 1]) == Next(c, Run(c, s, es[..k]), es[k])
  {
    hide Next;
    assert es[..k + 1][..k] == es[..k];
  }

  lemma BootStepsFit(c: Chip, w: Burn)
    requires KeyLaws(c)
    ensures AllFit(c, BootSteps(c, w))
  {
  }

  /** After the first `k` of the boot steps. */
  function After(c: Chip, s: Vault, w: Burn, k: nat): Vault
    requires |c.ours| == 2 && AllFit(c, BootSteps(c, w)) && k <= 9
  {
    Run(c, s, BootSteps(c, w)[..k])
  }

  lemma AfterStep(c: Chip, s: Vault, w: Burn, k: nat)
    requires |c.ours| == 2 && AllFit(c, BootSteps(c, w)) && k < 9
    ensures After(c, s, w, k + 1) == Next(c, After(c, s, w, k), BootSteps(c, w)[k])
  {
    hide Next;
    RunStep(c, s, BootSteps(c, w), k);
  }

  lemma AfterNone(c: Chip, s: Vault, w: Burn)
    requires |c.ours| == 2 && AllFit(c, BootSteps(c, w))
    ensures After(c, s, w, 0) == s
  {
    hide Next;
  }

  ghost predicate KeysDone(c: Chip, s: Vault, t: Vault)
    requires |c.ours| == 2
  {
    && Burned(c, t, 0) && Burned(c, t, 1) && Uniform(t.cells[Flags1], 3) && t.latch == 0 && Uniform(t.cells[Crit1], 0)
    && Uniform(t.cells[Flags0], 0) && Uniform(t.cells[Page1Lock], 0) && Uniform(t.cells[Page2Lock], 0)
    && t.cells[Seed] == s.cells[Seed] && t.cells[Chaff] == s.cells[Chaff] && t.cells[SeedLock] == s.cells[SeedLock]
  }

  lemma StepsToKeys(c: Chip, s: Vault, w: Burn)
    requires |c.ours| == 2 && AllFit(c, BootSteps(c, w)) && |c.ours[0]| == |c.ours[1]| == 16
    ensures After(c, s, w, 3) == MarkValid(c, WriteBootkey(c, WriteBootkey(c, s, 0, c.ours[0], w), 1, c.ours[1], w), w)
  {
    hide After, AllFit, WriteBootkey, MarkValid;
    AfterNone(c, s, w);
    AfterStep(c, s, w, 0);
    AfterStep(c, s, w, 1);
    AfterStep(c, s, w, 2);
  }

  lemma AfterKeys(c: Chip, s: Vault, w: Burn)
    requires EccLaws(c) && KeyLaws(c) && c.ours[0] != c.ours[1] && w.ok && AllFit(c, BootSteps(c, w)) && BootBlank(s)
    ensures KeysDone(c, s, After(c, s, w, 3))
  {
    hide After, AllFit, Burned, Uniform, WriteBootkey, MarkValid, Zero;
    StepsToKeys(c, s, w);
    GoodKeys(c, s, w);
  }

  lemma StepsToSecureBoot(c: Chip, s: Vault, w: Burn)
    requires |c.ours| == 2 && AllFit(c, BootSteps(c, w))
    ensures After(c, s, w, 5) == Restart(c, EnableSecureBoot(c, After(c, s, w, 3), 0, w))
  {
    hide After, AllFit, EnableSecureBoot, Restart;
    AfterStep(c, s, w, 3);
    AfterStep(c, s, w, 4);
  }

  lemma StepsToLockdown(c: Chip, s: Vault, w: Burn)
    requires |c.ours| == 2 && AllFit(c, BootSteps(c, w))
    ensures After(c, s, w, 8) == Restart(c, Lockdown(CloseSlots(After(c, s, w, 5), w), w, w))
  {
    hide After, AllFit, CloseSlots, Lockdown, Restart;
    AfterStep(c, s, w, 5);
    AfterStep(c, s, w, 6);
    AfterStep(c, s, w, 7);
  }

  lemma AfterSecureBoot(c: Chip, s: Vault, w: Burn)
    requires VoteLaws(c) && |c.ours| == 2 && w.ok && AllFit(c, BootSteps(c, w)) && KeysDone(c, s, After(c, s, w, 3))
    ensures var t := After(c, s, w, 5);
            && Uniform(t.cells[Crit1], SECURE_BOOT) && t.latch == SECURE_BOOT
            && forall q: Region :: q != Crit1 ==> t.cells[q] == After(c, s, w, 3).cells[q]
  {
    hide After, AllFit, Burned, Uniform, EnableSecureBoot, VoteLaws, Restart, Next, BootSteps;
    StepsToSecureBoot(c, s, w);
    GoodSecureBoot(c, After(c, s, w, 3), w);
  }

  lemma AfterLockdown(c: Chip, s: Vault, w: Burn)
    requires VoteLaws(c) && |c.ours| == 2 && w.ok && AllFit(c, BootSteps(c, w)) && KeysDone(c, s, After(c, s, w, 3))
    ensures var t := After(c, s, w, 8);
            && Uniform(t.cells[Flags1], 0xC03) && Uniform(t.cells[Crit1], 0x7) && Uniform(t.cells[Flags0], 0x092000) && t.latch == 0x7
            && t.hard == (VoteByte(After(c, s, w, 3).cells[SeedLock][0]) & LOCK_S != 0)
            && forall q: Region :: q != Crit1 && q != Flags0 && q != Flags1 ==> t.cells[q] == After(c, s, w, 3).cells[q]
  {
    hide After, AllFit, Burned, Uniform, CloseSlots, Lockdown, VoteLaws, Restart, Next, BootSteps;
    AfterSecureBoot(c, s, w);
    StepsToLockdown(c, s, w);
    GoodCloseAndLockdown(c, After(c, s, w, 5), w);
  }

  /** The whole ceremony has taken. */
  ghost predicate Sealed(c: Chip, t: Vault, seed: seq<bv16>)
    requires |c.ours| == 2
  {
    && SecureNow(t) && DebugOffNow(t) && Uniform(t.cells[Flags1], 0xC03) && Burned(c, t, 0) && Burned(c, t, 1)
    && Uniform(t.cells[Crit1], 0x7) && Uniform(t.cells[Flags0], 0x092000)
    && Uniform(t.cells[Page1Lock], 0x141414) && Uniform(t.cells[Page2Lock], 0x141414)
    && SeedIn(c, t.cells) == Present(seed) && t.cells[SeedLock] == [0x3D3D3D] && t.hard
  }

  ghost predicate SeedDone(c: Chip, s: Vault, seed: seq<bv16>) {
    SeedIn(c, s.cells) == Present(seed) && s.cells[SeedLock] == [SEED_PAGE_LOCK]
  }

  lemma LockWordLocks()
    ensures VoteByte(SEED_PAGE_LOCK) & LOCK_S != 0
  {
  }

  lemma AfterLockPages(c: Chip, s: Vault, w: Burn, seed: seq<bv16>)
    requires VoteLaws(c) && |c.ours| == 2 && w.ok && AllFit(c, BootSteps(c, w)) && KeysDone(c, s, After(c, s, w, 3))
    requires SeedDone(c, s, seed)
    ensures Sealed(c, After(c, s, w, 9), seed)
  {
    hide After, AllFit, Uniform, LockBootPages, VoteLaws, ReadEcc, VoteByte, Complementary, Zero;
    AfterLockdown(c, s, w);
    LastStep(c, s, w);
    GoodLockPages(After(c, s, w, 8), w);
    LockWordLocks();
  }

  lemma LastStep(c: Chip, s: Vault, w: Burn)
    requires |c.ours| == 2 && AllFit(c, BootSteps(c, w))
    ensures After(c, s, w, 9) == LockBootPages(After(c, s, w, 8), w, w)
  {
    hide After, AllFit, LockBootPages;
    AfterStep(c, s, w, 8);
  }

  /** The seed steps from the factory: the seed reads back, its page is locked over it, and nothing
      else has changed. */
  lemma SeedStepsTake(c: Chip, seed: seq<bv16>, w: Burn)
    requires EccLaws(c) && VoteLaws(c) && |c.ours| == 2 && |seed| == 16 && w.ok
    ensures AllFit(c, SeedSteps(seed, w))
            && var t := Run(c, FACTORY, SeedSteps(seed, w)); SeedDone(c, t, seed) && BootBlank(t)
  {
    hide WriteSeed, LockSeedPage, Restart, SeedIn, EccLaws, VoteLaws, BootBlank;
    var s1 := WriteSeed(c, FACTORY, seed, w, w).0;
    var s2 := Restart(c, s1);
    var s3 := LockSeedPage(c, s2, w).0;
    FactorySeed(c, seed, w);
    UnlockedRestart(c, s1, seed);
    GoodSeedLock(c, s2, seed, w);
    RunFour(c, FACTORY, Do(DoWriteSeed(seed), w, w), Reset, Do(DoLockSeed, w, w), Do(DoSoftLock, w, w));
    SoftBlank(s3);
  }

  lemma SoftBlank(s: Vault)
    ensures BootBlank(s) ==> BootBlank(s.(soft := true))
  {
  }

  lemma RunSnoc(c: Chip, s: Vault, es: seq<Event>, e: Event)
    requires |c.ours| == 2 && AllFit(c, es) && Fits(c, e)
    ensures AllFit(c, es + [e]) && Run(c, s, es + [e]) == Next(c, Run(c, s, es), e)
  {
    hide Next, Fits;
    assert (es + [e])[..|es|] == es;
  }

  lemma RunNothing(c: Chip, s: Vault)
    requires |c.ours| == 2
    ensures AllFit(c, []) && Run(c, s, []) == s
  {
  }

  lemma RunFour(c: Chip, s: Vault, e1: Event, e2: Event, e3: Event, e4: Event)
    requires |c.ours| == 2 && Fits(c, e1) && Fits(c, e2) && Fits(c, e3) && Fits(c, e4)
    ensures AllFit(c, [e1, e2, e3, e4])
    ensures Run(c, s, [e1, e2, e3, e4]) == Next(c, Next(c, Next(c, Next(c, s, e1), e2), e3), e4)
  {
    hide Next, Fits, Run, AllFit;
    RunNothing(c, s);
    RunSnoc(c, s, [], e1);
    assert [] + [e1] == [e1];
    RunSnoc(c, s, [e1], e2);
    assert [e1] + [e2] == [e1, e2];
    RunSnoc(c, s, [e1, e2], e3);
    assert [e1, e2] + [e3] == [e1, e2, e3];
    RunSnoc(c, s, [e1, e2, e3], e4);
    assert [e1, e2, e3] + [e4] == [e1, e2, e3, e4];
  }

  lemma FactorySeed(c: Chip, seed: seq<bv16>, w: Burn)
    requires EccLaws(c) && |seed| == 16 && w.ok
    ensures var t := WriteSeed(c, FACTORY, seed, w, w).0;
            SeedIn(c, t.cells) == Present(seed) && t.cells[SeedLock] == [0] && BootBlank(t) && !t.soft && !t.hard
  {
    hide WriteSeed, ReadEcc, Uniform, Zero, Complementary;
    FactoryBlank(c);
    WriteSeedSucceedsIff(c, FACTORY, seed, w, w);
    WriteSeedFrame(c, FACTORY, seed, w, w);
  }

  lemma FactoryBlank(c: Chip)
    ensures ReadSeed(c, FACTORY) == Blank && BootBlank(FACTORY) && FACTORY.cells[SeedLock] == [0]
  {
    hide ReadEcc;
    BlankUniform(Seed);
    BlankUniform(Chaff);
    BlankUniform(Key0);
    BlankUniform(Key1);
    BlankUniform(Flags0);
    BlankUniform(Flags1);
    BlankUniform(Crit1);
    BlankUniform(Page1Lock);
    BlankUniform(Page2Lock);
    BlankUniform(SeedLock);
  }

  lemma UnlockedRestart(c: Chip, s: Vault, seed: seq<bv16>)
    requires VoteLaws(c) && BootBlank(s) && s.cells[SeedLock] == [0] && SeedIn(c, s.cells) == Present(seed)
    ensures var t := Restart(c, s);
            SeedIn(c, t.cells) == Present(seed) && t.cells[SeedLock] == [0] && BootBlank(t) && !t.soft && !t.hard
  {
    hide VoteByte, SeedIn, Uniform;
    ZeroByte();
  }

  lemma GoodSeedLock(c: Chip, s: Vault, seed: seq<bv16>, w: Burn)
    requires BootBlank(s) && s.cells[SeedLock] == [0] && SeedIn(c, s.cells) == Present(seed) && !s.soft && !s.hard && w.ok
    ensures var t := LockSeedPage(c, s, w).0; SeedDone(c, t, seed) && BootBlank(t)
  {
    hide ReadEcc, Zero, Uniform, Complementary, Programmed;
    LockSeedFrame(c, s, w);
    LockWordTakes(w);
  }

  lemma LockWordTakes(w: Burn)
    requires w.ok
    ensures Programmed([0], [SEED_PAGE_LOCK], true, w) == ([SEED_PAGE_LOCK], true)
  {
  }

  lemma {:induction false} RunAppend(c: Chip, s: Vault, a: seq<Event>, b: seq<Event>)
    requires |c.ours| == 2 && AllFit(c, a) && AllFit(c, b)
    ensures AllFit(c, a + b) && Run(c, s, a + b) == Run(c, Run(c, s, a), b)
    decreases |b|
  {
    forall i | 0 <= i < |a + b|
      ensures Fits(c, (a + b)[i])
    {
      assert (a + b)[i] == if i < |a| then a[i] else b[i - |a|];
    }
    if b == [] {
      assert a + b == a;
    } else {
      hide Next;
      var init := b[..|b| - 1];
      RunAppend(c, s, a, init);
      assert (a + b)[..|a + b| - 1] == a + init;
    }
  }

  /** Every gate can be passed: with writes that take, the documented order, seed first, ends with the
      seed locked in, secure boot and debug-off latched, both boot pages locked, and both keys in valid
      slots. */
  lemma CeremonyCompletes(c: Chip, seed: seq<bv16>, w: Burn)
    requires Lawful(c) && c.ours[0] != c.ours[1] && |seed| == 16 && w.ok
    ensures AllFit(c, Ceremony(c, seed, w)) && Sealed(c, Run(c, FACTORY, Ceremony(c, seed, w)), seed)
  {
    hide AllFit, Sealed, EccLaws, KeyLaws, VoteLaws, Run, KeysDone, SeedDone, BootBlank, BootSteps, SeedSteps;
    AreKeys(c);
    BootStepsFit(c, w);
    SeedStepsTake(c, seed, w);
    var s := Run(c, FACTORY, SeedSteps(seed, w));
    AfterKeys(c, s, w);
    AfterLockPages(c, s, w, seed);
    RunAppend(c, FACTORY, SeedSteps(seed, w), BootSteps(c, w));
    NineSteps(c, w);
  }

  lemma NineSteps(c: Chip, w: Burn)
    requires |c.ours| == 2
    ensures BootSteps(c, w)[..9] == BootSteps(c, w)
  {
  }

  // ------------------------------------------------------------------ the console itself

  lemma OrRawUnfold(s: Vault, r: Region, bits: bv24, w: Burn)
    requires Size(r) <= 8 && CanRead(s, r)
    ensures Ored(s.cells[r], bits) == s.cells[r] ==> OrRaw(s, r, bits, w) == (s, true)
    ensures Ored(s.cells[r], bits) != s.cells[r] ==> OrRaw(s, r, bits, w) == Write(s, r, Ored(s.cells[r], bits), w)
  {
    hide Ored, Programmed;
    assert s.cells[r := s.cells[r]] == s.cells;
  }

  lemma OrRawRefused(s: Vault, r: Region, bits: bv24, w: Burn)
    requires Size(r) > 8 || !CanRead(s, r)
    ensures OrRaw(s, r, bits, w) == (s, false)
  {
    hide Ored, Programmed;
    assert s.cells[r := s.cells[r]] == s.cells;
  }

  /** A write reported good is what reads back. */
  lemma WriteReadsBack(s: Vault, r: Region, want: Rows, w: Burn)
    requires |want| == Size(r)
    ensures var (t, ok) := Write(s, r, want, w);
            (ok ==> t.cells[r] == want) && (!May(s, r) ==> t == s && !ok) && CanRead(t, r) == CanRead(s, r)
  {
    hide Sub, Partial;
    assert s.cells[r := s.cells[r]] == s.cells;
  }

  /** The board's OTP as the firmware reaches it through the bootrom. */
  class Console {
    const chip: Chip
    var s: Vault

    constructor (chip: Chip)
      ensures this.chip == chip && s == FACTORY
    {
      this.chip, s := chip, FACTORY;
    }

    method ReadRaw(r: Region) returns (rows: Option<Rows>)
      ensures rows == if CanRead(s, r) then Some(s.cells[r]) else None
    {
      rows := if CanRead(s, r) then Some(s.cells[r]) else None;
    }

    method WriteRaw(r: Region, want: Rows, w: Burn) returns (ok: bool)
      requires |want| == Size(r)
      modifies this
      ensures (s, ok) == Write(old(s), r, want, w)
    {
      var (t, done) := Write(s, r, want, w);
      s, ok := t, done;
    }

    /** Sets bits in every copy of a flag and reads them back. */
    method SetBits(r: Region, bits: bv24, w: Burn) returns (ok: bool)
      modifies this
      ensures (s, ok) == OrRaw(old(s), r, bits, w)
    {
      hide OrRaw, Write, Sub, Join, May;
      var n := Size(r);
      var cur := ReadRaw(r);
      if n > 8 || cur == None {
        OrRawRefused(s, r, bits, w);
        return false;
      }
      OrRawUnfold(s, r, bits, w);
      var want := new bv24[n];
      var change := false;
      for i := 0 to n
        modifies want
        invariant forall k :: 0 <= k < i ==> want[k] == Join(cur.value[k], bits)
        invariant change == exists k :: 0 <= k < i && Join(cur.value[k], bits) != cur.value[k]
      {
        want[i] := Join(cur.value[i], bits);
        if want[i] != cur.value[i] {
          change := true;
        }
      }
      assert want[..] == Ored(cur.value, bits);
      if !change {
        assert Ored(cur.value, bits) == cur.value;
        return true;
      }
      assert Ored(cur.value, bits) != cur.value by {
        var k :| 0 <= k < n && Join(cur.value[k], bits) != cur.value[k];
        OredAt(cur.value, bits, k);
      }
      WriteReadsBack(s, r, want[..], w);
      ok := WriteRaw(r, want[..], w);
      if !ok {
        return false;
      }
      var back := ReadRaw(r);
      for i := 0 to n
        invariant back == Some(want[..])
      {
        if back.value[i] != want[i] {
          return false;
        }
      }
    }

    /** What the seed page holds, row by row. */
    method ReadSeedPage() returns (st: SeedState)
      ensures st == ReadSeed(chip, s)
    {
      hide ReadEcc, Differ;
      var raw := ReadRaw(Seed);
      var chaff := ReadRaw(Chaff);
      if raw == None || chaff == None {
        return Unreadable;
      }
      var blank := true;
      for i := 0 to 16
        invariant blank == forall k :: 0 <= k < i ==> raw.value[k] == 0 && chaff.value[k] == 0
      {
        if raw.value[i] != 0 || chaff.value[i] != 0 {
          blank := false;
        }
      }
      if blank {
        return Blank;
      }
      for i := 0 to 16
        invariant forall k :: 0 <= k < i ==> Differ(raw.value[k], chaff.value[k]) == 0xFFFFFF
      {
        if Differ(raw.value[i], chaff.value[i]) != 0xFFFFFF {
          return Corrupt;
        }
      }
      var rows := ReadEcc(chip, raw.value);
      return match rows case None => Unreadable case Some(v) => Present(v);
    }

    method StoreSeed(seed: seq<bv16>, w0: Burn, w1: Burn) returns (ok: bool)
      requires |seed| == 16
      modifies this
      ensures (s, ok) == WriteSeed(chip, old(s), seed, w0, w1)
    {
      hide ReadSeed, Write, Encoded, Flip, May;
      var st := ReadSeedPage();
      if st != Blank {
        return false;
      }
      ghost var rows := Encoded(chip, seed);
      WriteReadsBack(s, Seed, rows, w0);
      CanReadBlank(chip, s);
      ok := WriteRaw(Seed, Encoded(chip, seed), w0);
      if !ok {
        return false;
      }
      var raw := ReadRaw(Seed);
      if raw == None {
        return false;
      }
      var chaff := new bv24[16];
      for i := 0 to 16
        modifies chaff
        invariant forall k :: 0 <= k < i ==> chaff[k] == Flip(raw.value[k])
      {
        chaff[i] := Flip(raw.value[i]);
      }
      assert chaff[..] == Complement(raw.value);
      ok := WriteRaw(Chaff, chaff[..], w1);
      if !ok {
        return false;
      }
      st := ReadSeedPage();
      return st == Present(seed);
    }

    method LockSeed(w: Burn) returns (ok: bool)
      modifies this
      ensures (s, ok) == LockSeedPage(chip, old(s), w)
    {
      hide ReadSeed, Write;
      var st := ReadSeedPage();
      if !(st.Present? || (st == Unreadable && s.soft)) {
        return false;
      }
      var have := ReadRaw(SeedLock);
      if have == Some([SEED_PAGE_LOCK]) {
        return false;
      }
      WriteReadsBack(s, SeedLock, [SEED_PAGE_LOCK], w);
      ok := WriteRaw(SeedLock, [SEED_PAGE_LOCK], w);
      if !ok {
        return false;
      }
      have := ReadRaw(SeedLock);
      if have != Some([SEED_PAGE_LOCK]) {
        return false;
      }
    }

    method StoreBootkey(slot: nat, fp: seq<bv16>, w: Burn)
      requires |fp| == 16
      modifies this
      ensures s == WriteBootkey(chip, old(s), slot, fp, w)
    {
      hide ReadEcc, Write, Encoded;
      var ours := -1;
      for k := 0 to |chip.ours|
        invariant ours >= 0 <==> exists j :: 0 <= j < k && chip.ours[j] == fp
      {
        if chip.ours[k] == fp {
          ours := k;
        }
      }
      if ours < 0 {
        return;
      }
      var have := ReadBootkey(chip, s, slot);
      if have.Some? {
        var blank := true;
        for i := 0 to |have.value|
          invariant blank == forall k :: 0 <= k < i ==> have.value[k] == 0
        {
          if have.value[i] != 0 {
            blank := false;
          }
        }
        if !blank {
          return;
        }
      }
      var _ := WriteRaw(Slot(slot), Encoded(chip, fp), w);
    }

    method MarkKeysValid(w: Burn)
      requires |chip.ours| == 2
      modifies this
      ensures s == MarkValid(chip, old(s), w)
    {
      hide OrRaw, ReadEcc;
      if !AnyNonZeroEcc(chip, s.cells[Key0]) || !AnyNonZeroEcc(chip, s.cells[Key1]) {
        return;
      }
      if BurnedSlotFor(chip, s, 0) != 0 || BurnedSlotFor(chip, s, 1) != 1 {
        return;
      }
      var _ := SetBits(Flags1, 0x3, w);
    }

    method CloseSpareSlots(w: Burn)
      modifies this
      ensures s == CloseSlots(old(s), w)
    {
      hide OrRaw;
      if !SecureNow(s) {
        return;
      }
      var _ := SetBits(Flags1, 0xC00, w);
    }

    method TurnOnSecureBoot(imageKey: int, w: Burn)
      requires imageKey < |chip.ours|
      modifies this
      ensures s == EnableSecureBoot(chip, old(s), imageKey, w)
    {
      hide OrRaw, SlotValid, BurnedSlotFor, SecureNow;
      if SecureNow(s) || !SlotValid(s, 0) || imageKey < 0 {
        return;
      }
      var slot := BurnedSlotFor(chip, s, imageKey);
      if slot < 0 || !SlotValid(s, slot) {
        return;
      }
      var _ := SetBits(Crit1, SECURE_BOOT, w);
    }

    /** Both halves are attempted, and the report is of both. */
    method LockDown(w0: Burn, w1: Burn) returns (ok: bool)
      modifies this
      ensures s == Lockdown(old(s), w0, w1)
      ensures ok <==>
                SecureNow(old(s))
                && var (s1, first) := OrRaw(old(s), Crit1, DEBUG_DISABLE | SECURE_DEBUG_DISABLE, w0);
                   first && OrRaw(s1, Flags0, UART_OTP_WATCHDOG_OFF, w1).1
    {
      hide OrRaw;
      if !SecureNow(s) {
        return false;
      }
      var first := SetBits(Crit1, DEBUG_DISABLE | SECURE_DEBUG_DISABLE, w0);
      ok := SetBits(Flags0, UART_OTP_WATCHDOG_OFF, w1);
      ok := ok && first;
    }

    method LockPages(w0: Burn, w1: Burn)
      modifies this
      ensures s == LockBootPages(old(s), w0, w1)
    {
      hide OrRaw, KeyInvalid;
      if !SecureNow(s) || !DebugOffNow(s) || KeyInvalid(s) & 0xC == 0 {
        return;
      }
      var _ := SetBits(Page1Lock, BOOT_PAGE_LOCK, w0);
      var _ := SetBits(Page2Lock, BOOT_PAGE_LOCK, w1);
    }
  }

  lemma CanReadBlank(c: Chip, s: Vault)
    requires ReadSeed(c, s) == Blank
    ensures CanRead(s, Seed)
  {
    hide SeedIn;
  }
}
