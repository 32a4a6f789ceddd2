/** Runtime settings: overrides of compile-time defaults, kept in a text file, changed all or nothing
    by a JSON object, with a static address that boots on trial. */
module Settings {
  import opened Wrappers

  const F_ANNOUNCE: nat := 0
  const F_TXPOWER: nat := 1
  const F_NTP: nat := 2
  const F_TCP_HOST: nat := 3
  const F_TCP_PORT: nat := 4
  const F_IP_MODE: nat := 5
  const F_IP: nat := 6
  const F_COUNT: nat := 10
  const KEYS: seq<string> := ["announce_interval_s", "lora_tx_power_dbm", "ntp_interval_s", "tcp_host", "tcp_port",
                              "ip_mode", "ip", "subnet", "gateway", "dns"]
  const TRIAL_KEY: string := "ip_trial_boots"
  const TRIAL_REVERTED_KEY: string := "ip_trial_reverted"
  const IP_TRIAL_BOOTS: nat := 3

  type Field = f: nat | f < F_COUNT

  /** Address fields in order: ip, subnet, gateway, dns. */
  type Addresses = a: seq<string> | |a| == 4 witness ["", "", "", ""]

  datatype Trial = NoTrial | OnTrial(boots: nat) | Reverted

  /** The persistent values: five settings, the address mode and fields, which of them are overridden,
      and the state of the static-address trial. */
  datatype Values = Values(announce: nat, tx: int, ntp: nat, host: string, port: nat, isStatic: bool, addr: Addresses,
                           over: set<Field>, trial: Trial)

  const DEFAULTS := Values(120, 10, 21600, "192.168.1.187", 4242, false, ["", "", "", ""], {}, NoTrial)

  // ------------------------------------------------------------------ decimal text

  function Digit(n: nat): char
    requires n < 10
  {
    '0' + n as char
  }

  function PrintNat(n: nat): (s: string)
    ensures |s| >= 1 && forall i :: 0 <= i < |s| ==> '0' <= s[i] <= '9'
  {
    if n < 10 then [Digit(n)] else PrintNat(n / 10) + [Digit(n % 10)]
  }

  predicate IsDigit(c: char) {
    '0' <= c <= '9'
  }

  /** The number a text of digits spells. */
  function ParseNat(s: string): nat {
    if s == [] || !IsDigit(s[|s| - 1]) then 0
    else 10 * ParseNat(s[..|s| - 1]) + (s[|s| - 1] as nat - '0' as nat)
  }

  function LeadingDigits(s: string): string {
    if s == [] || !IsDigit(s[0]) then "" else [s[0]] + LeadingDigits(s[1..])
  }

  predicate IsBlank(c: char) {
    c == ' ' || '\U{9}' <= c <= '\U{D}'
  }

  function SkipBlanks(s: string): string {
    if s != "" && IsBlank(s[0]) then SkipBlanks(s[1..]) else s
  }

  /** What strtoul and strtol read: the sign, if there is one, and the digits after it. */
  function Numeral(s: string): (r: (bool, string)) {
    var t := SkipBlanks(s);
    if t != "" && (t[0] == '-' || t[0] == '+') then (t[0] == '-', LeadingDigits(t[1..])) else (false, LeadingDigits(t))
  }

  /** strtoul in base 10, on 32 bits: saturating, and negated modulo 2^32 after a minus. */
  function Strtoul(s: string): (n: nat)
    ensures n < 0x1_0000_0000
  {
    var (neg, digits) := Numeral(s);
    var n := ParseNat(digits);
    if n >= 0x1_0000_0000 then 0xFFFF_FFFF else if neg && n > 0 then 0x1_0000_0000 - n else n
  }

  /** strtol in base 10, saturating at 32 bits, then cast to a signed byte. */
  function StrtolByte(s: string): (n: int)
    ensures -128 <= n < 128
  {
    var (neg, digits) := Numeral(s);
    var m: int := ParseNat(digits);
    var n: int := if neg then (if m <= 0x8000_0000 then -m else -0x8000_0000) else if m < 0x8000_0000 then m else 0x7FFF_FFFF;
    (n + 128) % 256 - 128
  }

  lemma {:induction false} ParsePrintNat(n: nat)
    ensures ParseNat(PrintNat(n)) == n
  {
    if n < 10 {
      assert PrintNat(n)[..0] == [];
    } else {
      ParsePrintNat(n / 10);
      var s := PrintNat(n);
      assert s[..|s| - 1] == PrintNat(n / 10) && s[|s| - 1] == Digit(n % 10);
      assert n == 10 * (n / 10) + n % 10;
    }
  }

  lemma {:induction false} PrintNatLength(n: nat, k: nat, bound: nat)
    requires 1 <= k && n < bound && bound == Power10(k)
    ensures |PrintNat(n)| <= k
    decreases k
  {
    if n >= 10 {
      PrintNatLength(n / 10, k - 1, Power10(k - 1));
    }
  }

  function Power10(k: nat): nat {
    if k == 0 then 1 else 10 * Power10(k - 1)
  }

  function PrintInt(n: int): string {
    if n < 0 then "-" + PrintNat(-n) else PrintNat(n)
  }

  lemma {:induction false} LeadingDigitsAll(s: string)
    requires forall i :: 0 <= i < |s| ==> IsDigit(s[i])
    ensures LeadingDigits(s) == s
  {
    if s != [] {
      LeadingDigitsAll(s[1..]);
    }
  }

  lemma NumeralOfDigits(s: string)
    requires s != "" && forall i :: 0 <= i < |s| ==> IsDigit(s[i])
    ensures Numeral(s) == (false, s) && Numeral("-" + s) == (true, s)
  {
    LeadingDigitsAll(s);
    assert ("-" + s)[1..] == s;
  }

  lemma StrtoulOfPrint(n: nat)
    requires n < 0x1_0000_0000
    ensures Strtoul(PrintNat(n)) == n
  {
    hide PrintNat, ParseNat, Numeral;
    ParsePrintNat(n);
    NumeralOfDigits(PrintNat(n));
  }

  lemma StrtolOfPrint(n: int)
    requires -128 <= n < 128
    ensures StrtolByte(PrintInt(n)) == n
  {
    hide PrintNat, ParseNat, Numeral;
    var m := if n < 0 then -n else n;
    ParsePrintNat(m);
    NumeralOfDigits(PrintNat(m));
  }

  // ------------------------------------------------------------------ lines

  const LINE_MAX: nat := 95

  /** readBytesUntil: up to the newline (consumed) or 95 characters. */
  function ReadLine(f: string, room: nat): (r: (string, string))
    ensures f != [] && room > 0 ==> |r.1| < |f|
    ensures |r.1| <= |f|
    decreases room
  {
    if f == [] || room == 0 then ([], f)
    else if f[0] == '\n' then ([], f[1..])
    else var (line, rest) := ReadLine(f[1..], room - 1); ([f[0]] + line, rest)
  }

  function IndexOfEquals(line: string): (i: nat)
    ensures i <= |line|
  {
    if line == [] || line[0] == '=' then 0 else 1 + IndexOfEquals(line[1..])
  }

  ghost predicate Free(s: string, c: char) {
    forall i :: 0 <= i < |s| ==> s[i] != c
  }

  lemma {:induction false} ReadLineOf(line: string, rest: string, room: nat)
    requires Free(line, '\n') && |line| < room
    ensures ReadLine(line + "\n" + rest, room) == (line, rest)
    decreases room
  {
    var f := line + "\n" + rest;
    if line == [] {
      assert f == "\n" + rest;
      assert f[1..] == rest;
    } else {
      assert f[1..] == line[1..] + "\n" + rest;
      ReadLineOf(line[1..], rest, room - 1);
      assert line == [line[0]] + line[1..];
    }
  }

  lemma {:induction false} EqualsAfterKey(key: string, value: string)
    requires Free(key, '=')
    ensures IndexOfEquals(key + "=" + value) == |key|
  {
    var line := key + "=" + value;
    if key == [] {
      assert line == "=" + value;
    } else {
      assert line[1..] == key[1..] + "=" + value;
      EqualsAfterKey(key[1..], value);
    }
  }

  // ------------------------------------------------------------------ one field

  function WithAddr(v: Values, i: nat, s: string): Values
    requires i < 4
  {
    v.(addr := v.addr[i := s])
  }

  /** copyStr into a 16-byte buffer. */
  function CopyStr(s: string): string {
    if |s| <= 15 then s else s[..15]
  }

  /** A value as the file spells it. */
  function Text(v: Values, f: Field): string {
    if f == F_ANNOUNCE then PrintNat(v.announce)
    else if f == F_TXPOWER then PrintInt(v.tx)
    else if f == F_NTP then PrintNat(v.ntp)
    else if f == F_TCP_HOST then v.host
    else if f == F_TCP_PORT then PrintNat(v.port)
    else if f == F_IP_MODE then (if v.isStatic then "static" else "dhcp")
    else v.addr[f - F_IP]
  }

  /** A line of the file taken over: the field set from its text and marked overridden. */
  function SetText(v: Values, f: Field, t: string): Values {
    var w := v.(over := v.over + {f});
    if f == F_ANNOUNCE then w.(announce := Strtoul(t))
    else if f == F_TXPOWER then w.(tx := StrtolByte(t))
    else if f == F_NTP then w.(ntp := Strtoul(t))
    else if f == F_TCP_HOST then w.(host := CopyStr(t))
    else if f == F_TCP_PORT then w.(port := Strtoul(t) % 0x1_0000)
    else if f == F_IP_MODE then w.(isStatic := t == "static")
    else WithAddr(w, f - F_IP, CopyStr(t))
  }

  /** The field of `v` copied from `s`. */
  function CopyField(v: Values, s: Values, f: Field): Values {
    var w := v.(over := v.over + {f});
    if f == F_ANNOUNCE then w.(announce := s.announce)
    else if f == F_TXPOWER then w.(tx := s.tx)
    else if f == F_NTP then w.(ntp := s.ntp)
    else if f == F_TCP_HOST then w.(host := s.host)
    else if f == F_TCP_PORT then w.(port := s.port)
    else if f == F_IP_MODE then w.(isStatic := s.isStatic)
    else WithAddr(w, f - F_IP, s.addr[f - F_IP])
  }

  lemma SetTextOfText(v: Values, s: Values, f: Field)
    requires Printable(s)
    ensures SetText(v, f, Text(s, f)) == CopyField(v, s, f)
  {
    hide PrintNat, PrintInt, Strtoul, StrtolByte;
    StrtoulOfPrint(s.announce);
    StrtoulOfPrint(s.ntp);
    StrtoulOfPrint(s.port);
    StrtolOfPrint(s.tx);
    assert "dhcp"[0] != "static"[0];
  }

  /** The field a key names, F_COUNT when none. */
  function FieldOf(key: string, from: nat): (f: nat)
    requires from <= F_COUNT
    ensures from <= f <= F_COUNT && (f < F_COUNT ==> key == KEYS[f]) && forall j :: from <= j < f ==> key != KEYS[j]
    decreases F_COUNT - from
  {
    if from == F_COUNT || key == KEYS[from] then from else FieldOf(key, from + 1)
  }

  /** One line of the file, split at its first `=`. */
  function TakeLine(v: Values, line: string): Values {
    var i := IndexOfEquals(line);
    if i == |line| then v
    else
      var key, t := line[..i], line[i + 1..];
      var f := FieldOf(key, 0);
      if f < F_COUNT then SetText(v, f, t)
      else if key == TRIAL_KEY then v.(trial := OnTrial(Strtoul(t)))
      else if key == TRIAL_REVERTED_KEY then v.(trial := Reverted)
      else v
  }

  function TakeLines(v: Values, file: string): Values
    decreases |file|
  {
    if file == [] then v
    else var (line, rest) := ReadLine(file, LINE_MAX); TakeLines(TakeLine(v, line), rest)
  }

  /** A static mode without an address is read as dhcp. */
  function Normal(v: Values): Values {
    if v.isStatic && v.addr[0] == "" then v.(isStatic := false) else v
  }

  /** What a boot makes of the file. */
  function LoadFile(file: Option<string>): Values {
    match file
    case None => DEFAULTS
    case Some(text) => Normal(TakeLines(DEFAULTS, text))
  }

  /** Whatever the file says, a static mode that is loaded has an address; nothing else is changed for it. */
  lemma LoadedStaticHasAddress(file: Option<string>)
    ensures LoadFile(file).isStatic ==> LoadFile(file).addr[0] != ""
    ensures file.Some? ==> LoadFile(file) == TakeLines(DEFAULTS, file.value).(isStatic := LoadFile(file).isStatic)
    ensures file.Some? && TakeLines(DEFAULTS, file.value).addr[0] != "" ==>
              LoadFile(file).isStatic == TakeLines(DEFAULTS, file.value).isStatic
  {
    hide TakeLines;
  }

  // ------------------------------------------------------------------ the whole file

  function Line(key: string, value: string): string {
    key + "=" + value + "\n"
  }

  function FieldLine(v: Values, f: Field): string {
    if f in v.over then Line(KEYS[f], Text(v, f)) else ""
  }

  function TrialLine(v: Values): string {
    match v.trial
    case OnTrial(boots) => Line(TRIAL_KEY, PrintNat(boots))
    case Reverted => Line(TRIAL_REVERTED_KEY, "1")
    case NoTrial => ""
  }

  /** The lines from field `f` on. */
  function PrintFrom(v: Values, f: nat): string
    requires f <= F_COUNT
    decreases F_COUNT - f
  {
    if f == F_COUNT then TrialLine(v) else FieldLine(v, f) + PrintFrom(v, f + 1)
  }

  function Print(v: Values): string {
    PrintFrom(v, 0)
  }

  /** Values the file can carry: short texts without newlines, numbers within their widths. */
  ghost predicate Printable(v: Values) {
    && v.announce < 0x1_0000_0000 && v.ntp < 0x1_0000_0000 && v.port < 0x1_0000 && -128 <= v.tx < 128
    && |v.host| <= 15 && Free(v.host, '\n')
    && (forall i :: 0 <= i < 4 ==> |v.addr[i]| <= 15 && Free(v.addr[i], '\n'))
    && (v.trial.OnTrial? ==> v.trial.boots < 0x1_0000_0000)
  }

  lemma DigitsAreFree(n: nat)
    requires n < 0x1_0000_0000
    ensures Free(PrintNat(n), '\n') && |PrintNat(n)| <= 10
  {
    assert Power10(5) == 100000;
    assert Power10(10) == 10000000000;
    SmallerBound(n);
  }

  lemma SmallerBound(n: nat)
    requires n < 0x1_0000_0000 && Power10(10) == 10000000000
    ensures |PrintNat(n)| <= 10
  {
    PrintNatLength(n, 10, Power10(10));
  }

  lemma TextIsShort(v: Values, f: Field)
    requires Printable(v)
    ensures Free(Text(v, f), '\n') && |Text(v, f)| <= 15
  {
    hide PrintNat;
    DigitsAreFree(v.announce);
    DigitsAreFree(v.ntp);
    DigitsAreFree(v.port);
    DigitsAreFree(if v.tx < 0 then -v.tx else v.tx);
  }

  lemma KeyShape(f: Field)
    ensures |KEYS[f]| <= 20 && Free(KEYS[f], '=') && Free(KEYS[f], '\n')
  {
  }

  lemma KeyNamesField(f: Field)
    ensures FieldOf(KEYS[f], 0) == f
  {
    var g := FieldOf(KEYS[f], 0);
    if g < f {
      KeysDistinct(g, f);
    }
  }

  lemma KeysDistinct(f: nat, g: Field)
    requires f < g
    ensures KEYS[f] != KEYS[g]
  {
    assert |KEYS[0]| == 19 && |KEYS[1]| == 17 && |KEYS[2]| == 14 && |KEYS[3]| == 8 && |KEYS[4]| == 8;
    assert |KEYS[5]| == 7 && |KEYS[6]| == 2 && |KEYS[7]| == 6 && |KEYS[8]| == 7 && |KEYS[9]| == 3;
    assert KEYS[3][4] == 'h' && KEYS[4][4] == 'p' && KEYS[5][0] == 'i' && KEYS[8][0] == 'g';
  }

  lemma TrialKeysShape()
    ensures |TRIAL_KEY| == 14 && Free(TRIAL_KEY, '=') && Free(TRIAL_KEY, '\n') && FieldOf(TRIAL_KEY, 0) == F_COUNT
    ensures |TRIAL_REVERTED_KEY| == 17 && Free(TRIAL_REVERTED_KEY, '=') && Free(TRIAL_REVERTED_KEY, '\n')
            && FieldOf(TRIAL_REVERTED_KEY, 0) == F_COUNT
  {
    assert |KEYS[0]| == 19 && |KEYS[1]| == 17 && |KEYS[2]| == 14 && |KEYS[3]| == 8 && |KEYS[4]| == 8;
    assert |KEYS[5]| == 7 && |KEYS[6]| == 2 && |KEYS[7]| == 6 && |KEYS[8]| == 7 && |KEYS[9]| == 3;
    assert KEYS[1][0] == 'l' && TRIAL_REVERTED_KEY[0] == 'i' && KEYS[2][0] == 'n' && TRIAL_KEY[0] == 'i';
  }

  /** One line, read back on its own. */
  lemma TakeOwnLine(v: Values, key: string, value: string, rest: string)
    requires Free(key, '=') && Free(key, '\n') && Free(value, '\n') && |key| + |value| <= 93
    ensures TakeLines(v, Line(key, value) + rest) == TakeLines(TakeLine(v, key + "=" + value), rest)
    ensures var line := key + "=" + value; var i := IndexOfEquals(line);
            i < |line| && line[..i] == key && line[i + 1..] == value
  {
    hide TakeLine;
    var line := key + "=" + value;
    EqualsAfterKey(key, value);
    ReadLineOf(line, rest, LINE_MAX);
    assert Line(key, value) + rest == line + "\n" + rest;
  }

  lemma TakeFieldLine(v: Values, s: Values, f: Field, rest: string)
    requires Printable(s) && f in s.over
    ensures TakeLines(v, FieldLine(s, f) + rest) == TakeLines(CopyField(v, s, f), rest)
  {
    hide Text, SetText, CopyField, TakeLines, FieldOf, Line;
    TextIsShort(s, f);
    KeyShape(f);
    KeyNamesField(f);
    TakeOwnLine(v, KEYS[f], Text(s, f), rest);
    SetTextOfText(v, s, f);
  }

  lemma TakeTrialLine(v: Values, s: Values)
    requires Printable(s) && v.trial == NoTrial
    ensures TakeLines(v, TrialLine(s)) == v.(trial := s.trial)
  {
    hide FieldOf, PrintNat, Strtoul, Line;
    TrialKeysShape();
    match s.trial
    case OnTrial(boots) =>
      DigitsAreFree(boots);
      StrtoulOfPrint(boots);
      TakeOwnLine(v, TRIAL_KEY, PrintNat(boots), "");
      assert Line(TRIAL_KEY, PrintNat(boots)) + "" == Line(TRIAL_KEY, PrintNat(boots));
    case Reverted =>
      TakeOwnLine(v, TRIAL_REVERTED_KEY, "1", "");
      assert Line(TRIAL_REVERTED_KEY, "1") + "" == Line(TRIAL_REVERTED_KEY, "1");
      assert |TRIAL_KEY| != |TRIAL_REVERTED_KEY|;
    case NoTrial =>
  }

  /** The defaults with the overridden fields of `s` below `f` copied in. */
  function Partial(s: Values, f: nat): Values
    requires f <= F_COUNT
  {
    if f == 0 then DEFAULTS
    else if f - 1 in s.over then CopyField(Partial(s, f - 1), s, f - 1)
    else Partial(s, f - 1)
  }

  lemma {:induction false} TakePrinted(s: Values, f: nat)
    requires Printable(s) && f <= F_COUNT
    ensures TakeLines(Partial(s, f), PrintFrom(s, f)) == Partial(s, F_COUNT).(trial := s.trial)
    decreases F_COUNT - f
  {
    hide FieldLine, TrialLine, TakeLines, CopyField;
    if f == F_COUNT {
      PartialHasNoTrial(s, F_COUNT);
      TakeTrialLine(Partial(s, f), s);
    } else {
      TakePrinted(s, f + 1);
      if f in s.over {
        TakeFieldLine(Partial(s, f), s, f, PrintFrom(s, f + 1));
      } else {
        NoLine(s, f);
        assert "" + PrintFrom(s, f + 1) == PrintFrom(s, f + 1);
      }
    }
  }

  lemma NoLine(s: Values, f: Field)
    requires f !in s.over
    ensures FieldLine(s, f) == ""
  {
  }

  lemma {:induction false} PartialHasNoTrial(s: Values, f: nat)
    requires f <= F_COUNT
    ensures Partial(s, f).trial == NoTrial
  {
    if f > 0 {
      PartialHasNoTrial(s, f - 1);
    }
  }

  /** A field that is not overridden has its default. */
  ghost predicate OverridesOnly(v: Values) {
    && (F_ANNOUNCE !in v.over ==> v.announce == DEFAULTS.announce)
    && (F_TXPOWER !in v.over ==> v.tx == DEFAULTS.tx)
    && (F_NTP !in v.over ==> v.ntp == DEFAULTS.ntp)
    && (F_TCP_HOST !in v.over ==> v.host == DEFAULTS.host)
    && (F_TCP_PORT !in v.over ==> v.port == DEFAULTS.port)
    && (F_IP_MODE !in v.over ==> !v.isStatic)
    && (forall i :: 0 <= i < 4 && F_IP + i !in v.over ==> v.addr[i] == "")
  }

  /** Field by field, `Partial` agrees with `s` below `f` and with the defaults from there on. */
  ghost predicate Agrees(p: Values, s: Values, f: nat) {
    && p.announce == (if F_ANNOUNCE < f then s.announce else DEFAULTS.announce)
    && p.tx == (if F_TXPOWER < f then s.tx else DEFAULTS.tx)
    && p.ntp == (if F_NTP < f then s.ntp else DEFAULTS.ntp)
    && p.host == (if F_TCP_HOST < f then s.host else DEFAULTS.host)
    && p.port == (if F_TCP_PORT < f then s.port else DEFAULTS.port)
    && p.isStatic == (if F_IP_MODE < f then s.isStatic else DEFAULTS.isStatic)
    && (forall i :: 0 <= i < 4 ==> p.addr[i] == if F_IP + i < f then s.addr[i] else "")
    && (forall g: Field :: g in p.over <==> g in s.over && g < f)
  }

  lemma {:induction false} PartialAgrees(s: Values, f: nat)
    requires OverridesOnly(s) && f <= F_COUNT
    ensures Agrees(Partial(s, f), s, f)
  {
    if f == 0 {
    } else {
      hide Agrees, CopyField, OverridesOnly;
      PartialAgrees(s, f - 1);
      AgreesStep(Partial(s, f - 1), s, f - 1);
    }
  }

  lemma AgreesStep(p: Values, s: Values, f: Field)
    requires Agrees(p, s, f) && OverridesOnly(s)
    ensures Agrees(if f in s.over then CopyField(p, s, f) else p, s, f + 1)
  {
  }

  lemma PartialIsAll(s: Values)
    requires OverridesOnly(s)
    ensures Partial(s, F_COUNT).(trial := s.trial) == s
  {
    PartialAgrees(s, F_COUNT);
    PartialHasNoTrial(s, F_COUNT);
    var p := Partial(s, F_COUNT);
    assert p.addr == s.addr;
    assert p.over == s.over;
  }

  /** Round trip: what was saved is what the next boot loads, settings, override flags and trial. */
  lemma LoadPrint(s: Values)
    requires Printable(s) && OverridesOnly(s) && (s.isStatic ==> s.addr[0] != "")
    ensures LoadFile(Some(Print(s))) == s
  {
    TakePrinted(s, 0);
    PartialIsAll(s);
  }

  // ------------------------------------------------------------------ the lines, spelled out

  lemma OwnLine(key: string, t: string)
    requires Free(key, '=')
    ensures var line := key + "=" + t;
            var i := IndexOfEquals(line);
            i < |line| && line[..i] == key && line[i + 1..] == t
  {
    EqualsAfterKey(key, t);
  }

  lemma TakesKey(v: Values, begin: string, t: string, f: Field)
    requires begin == KEYS[f] + "="
    ensures TakeLine(v, begin + t) == SetText(v, f, t)
  {
    hide SetText, FieldOf;
    KeyShape(f);
    KeyNamesField(f);
    OwnLine(KEYS[f], t);
    assert begin + t == KEYS[f] + "=" + t;
  }

  lemma TakesTrial(v: Values, t: string)
    ensures TakeLine(v, "ip_trial_boots=" + t) == v.(trial := OnTrial(Strtoul(t)))
    ensures TakeLine(v, "ip_trial_reverted=" + t) == v.(trial := Reverted)
  {
    hide SetText, FieldOf, Strtoul;
    TrialKeysShape();
    OwnLine(TRIAL_KEY, t);
    OwnLine(TRIAL_REVERTED_KEY, t);
    assert |TRIAL_KEY| != |TRIAL_REVERTED_KEY|;
    assert "ip_trial_boots=" + t == TRIAL_KEY + "=" + t;
    assert "ip_trial_reverted=" + t == TRIAL_REVERTED_KEY + "=" + t;
  }

  lemma KeysSpelled()
    ensures KEYS[0] + "=" == "announce_interval_s=" && KEYS[1] + "=" == "lora_tx_power_dbm=" && KEYS[2] + "=" == "ntp_interval_s="
    ensures KEYS[3] + "=" == "tcp_host=" && KEYS[4] + "=" == "tcp_port=" && KEYS[5] + "=" == "ip_mode=" && KEYS[6] + "=" == "ip="
    ensures KEYS[7] + "=" == "subnet=" && KEYS[8] + "=" == "gateway=" && KEYS[9] + "=" == "dns="
  {
  }

  /** What each line of the file says: the key as it is spelled, and how its text is taken. */
  lemma LinesRead(v: Values, t: string)
    ensures TakeLine(v, "announce_interval_s=" + t) == v.(over := v.over + {0}, announce := Strtoul(t))
    ensures TakeLine(v, "lora_tx_power_dbm=" + t) == v.(over := v.over + {1}, tx := StrtolByte(t))
    ensures TakeLine(v, "ntp_interval_s=" + t) == v.(over := v.over + {2}, ntp := Strtoul(t))
    ensures TakeLine(v, "tcp_host=" + t) == v.(over := v.over + {3}, host := CopyStr(t))
    ensures TakeLine(v, "tcp_port=" + t) == v.(over := v.over + {4}, port := Strtoul(t) % 65536)
    ensures TakeLine(v, "ip_mode=" + t) == v.(over := v.over + {5}, isStatic := t == "static")
  {
    hide TakeLine, Strtoul, StrtolByte, CopyStr, KEYS;
    KeysSpelled();
    TakesKey(v, "announce_interval_s=", t, 0);
    TakesKey(v, "lora_tx_power_dbm=", t, 1);
    TakesKey(v, "ntp_interval_s=", t, 2);
    TakesKey(v, "tcp_host=", t, 3);
    TakesKey(v, "tcp_port=", t, 4);
    TakesKey(v, "ip_mode=", t, 5);
  }

  lemma AddressLinesRead(v: Values, t: string)
    ensures TakeLine(v, "ip=" + t) == v.(over := v.over + {6}, addr := v.addr[0 := CopyStr(t)])
    ensures TakeLine(v, "subnet=" + t) == v.(over := v.over + {7}, addr := v.addr[1 := CopyStr(t)])
    ensures TakeLine(v, "gateway=" + t) == v.(over := v.over + {8}, addr := v.addr[2 := CopyStr(t)])
    ensures TakeLine(v, "dns=" + t) == v.(over := v.over + {9}, addr := v.addr[3 := CopyStr(t)])
  {
    hide TakeLine, CopyStr, KEYS;
    KeysSpelled();
    TakesKey(v, "ip=", t, 6);
    TakesKey(v, "subnet=", t, 7);
    TakesKey(v, "gateway=", t, 8);
    TakesKey(v, "dns=", t, 9);
  }

  /** And how a save spells them. */
  lemma LinesWritten(v: Values)
    ensures FieldLine(v, 0) == if 0 in v.over then "announce_interval_s=" + PrintNat(v.announce) + "\n" else ""
    ensures FieldLine(v, 1) == if 1 in v.over then "lora_tx_power_dbm=" + PrintInt(v.tx) + "\n" else ""
    ensures FieldLine(v, 2) == if 2 in v.over then "ntp_interval_s=" + PrintNat(v.ntp) + "\n" else ""
    ensures FieldLine(v, 3) == if 3 in v.over then "tcp_host=" + v.host + "\n" else ""
    ensures FieldLine(v, 4) == if 4 in v.over then "tcp_port=" + PrintNat(v.port) + "\n" else ""
    ensures FieldLine(v, 5) == if 5 in v.over then "ip_mode=" + (if v.isStatic then "static" else "dhcp") + "\n" else ""
    ensures FieldLine(v, 6) == if 6 in v.over then "ip=" + v.addr[0] + "\n" else ""
    ensures FieldLine(v, 7) == if 7 in v.over then "subnet=" + v.addr[1] + "\n" else ""
    ensures FieldLine(v, 8) == if 8 in v.over then "gateway=" + v.addr[2] + "\n" else ""
    ensures FieldLine(v, 9) == if 9 in v.over then "dns=" + v.addr[3] + "\n" else ""
    ensures v.trial.OnTrial? ==> TrialLine(v) == "ip_trial_boots=" + PrintNat(v.trial.boots) + "\n"
    ensures v.trial.Reverted? ==> TrialLine(v) == "ip_trial_reverted=1\n"
  {
    hide PrintNat, PrintInt;
    KeysSpelled();
    assert TRIAL_KEY + "=" == "ip_trial_boots=" && TRIAL_REVERTED_KEY + "=" + "1" + "\n" == "ip_trial_reverted=1\n";
  }

  /** What any number of the file is read as: an unsigned one saturates at 32 bits, and a minus wraps it; a
      power saturates at 32 bits with its sign, and of that the low octet counts. */
  lemma NumbersRead(n: nat)
    ensures Strtoul(PrintNat(n)) == if n < 0x1_0000_0000 then n else 0xFFFF_FFFF
    ensures Strtoul("-" + PrintNat(n)) == if n >= 0x1_0000_0000 then 0xFFFF_FFFF else if n == 0 then 0 else 0x1_0000_0000 - n
    ensures LowOctet(StrtolByte(PrintNat(n)), if n < 0x8000_0000 then n else 0x7FFF_FFFF)
    ensures LowOctet(StrtolByte("-" + PrintNat(n)), 0 - (if n <= 0x8000_0000 then n else 0x8000_0000))
  {
    hide PrintNat, ParseNat, Numeral, LowOctet;
    ParsePrintNat(n);
    NumeralOfDigits(PrintNat(n));
    LowOctetIs(if n < 0x8000_0000 then n else 0x7FFF_FFFF);
    LowOctetIs(0 - (if n <= 0x8000_0000 then n else 0x8000_0000));
  }

  /** The signed octet that is congruent to `m` modulo 256. */
  predicate LowOctet(n: int, m: int) {
    -128 <= n < 128 && (n - m) % 256 == 0
  }

  lemma LowOctetIs(m: int)
    ensures LowOctet((m + 128) % 256 - 128, m)
  {
    var q, r := (m + 128) / 256, (m + 128) % 256;
    assert m + 128 == 256 * q + r;
    assert r - 128 - m == 256 * -q;
  }

  lemma PrintStep(n: nat, s: string)
    requires n >= 10 && PrintNat(n / 10) == s
    ensures PrintNat(n) == s + [Digit(n % 10)]
  {
  }

  lemma PrintDigit(n: nat)
    requires n < 10
    ensures PrintNat(n) == [Digit(n)]
  {
  }

  /** Numbers are decimal; a minus wraps around at 32 bits, and a power at 8. */
  lemma NumbersSpelled()
    ensures PrintNat(86400) == "86400" && Strtoul("86400") == 86400
    ensures PrintInt(-9) == "-9" && StrtolByte("-9") == -9
    ensures Strtoul("-9") == 0xFFFF_FFF7 && StrtolByte("200") == -56
  {
    hide PrintNat, ParseNat, Numeral;
    PrintDigit(8);
    PrintStep(86, "8");
    PrintStep(864, "86");
    PrintStep(8640, "864");
    PrintStep(86400, "8640");
    StrtoulOfPrint(86400);
    PrintDigit(9);
    assert PrintInt(-9) == "-" + "9" == "-9";
    StrtolOfPrint(-9);
    ParsePrintNat(9);
    NumeralOfDigits("9");
    PrintDigit(2);
    PrintStep(20, "2");
    PrintStep(200, "20");
    assert PrintNat(200) == "200";
    ParsePrintNat(200);
    NumeralOfDigits("200");
  }

  // ------------------------------------------------------------------ a request

  /** A JSON value as the library converts it: to an unsigned number, to a signed one, to a string
      if it is one. */
  datatype Json = Json(u32: nat, i32: int, text: Option<string>)

  datatype Pair = Pair(key: string, value: Json)

  /** What validation is parameterised by: which texts are dotted IPv4 addresses, and whether the
      radio accepts a power (None before it is up). */
  datatype Env = Env(validIpv4: string -> bool, applyTxPower: Option<int -> bool>)

  /** An address contains no newline. */
  ghost predicate Sane(env: Env) {
    forall s: string :: env.validIpv4(s) ==> Free(s, '\n')
  }

  /** The proposed values and which fields the request names. */
  datatype Draft = Draft(announce: nat, tx: int, ntp: nat, host: string, port: nat, isStatic: bool, addr: Addresses, named: set<Field>)

  function DraftOf(v: Values): Draft {
    Draft(v.announce, v.tx, v.ntp, v.host, v.port, v.isStatic, v.addr, {})
  }

  /** Is this value acceptable for this field. The answer does not depend on the rest of the body. */
  predicate Acceptable(env: Env, f: Field, j: Json) {
    if f == F_ANNOUNCE then 10 <= j.u32 <= 86400
    else if f == F_TXPOWER then -9 <= j.i32 <= 30
    else if f == F_NTP then 60 <= j.u32 <= 604800
    else if f == F_TCP_HOST then j.text.Some? && |j.text.value| <= 15 && env.validIpv4(j.text.value)
    else if f == F_TCP_PORT then 1 <= j.u32 <= 65535
    else if f == F_IP_MODE then j.text == Some("dhcp") || j.text == Some("static")
    else j.text.Some? && |j.text.value| <= 15 && (j.text.value == "" || env.validIpv4(j.text.value))
  }

  function Propose(d: Draft, f: Field, j: Json): Draft
    requires F_TCP_HOST == f || f >= F_IP ==> j.text.Some?
  {
    var n := d.(named := d.named + {f});
    if f == F_ANNOUNCE then n.(announce := j.u32)
    else if f == F_TXPOWER then n.(tx := j.i32)
    else if f == F_NTP then n.(ntp := j.u32)
    else if f == F_TCP_HOST then n.(host := j.text.value)
    else if f == F_TCP_PORT then n.(port := j.u32)
    else if f == F_IP_MODE then n.(isStatic := j.text == Some("static"))
    else n.(addr := d.addr[f - F_IP := j.text.value])
  }

  function StagePair(env: Env, d: Draft, p: Pair): Option<Draft> {
    var f := FieldOf(p.key, 0);
    if f == F_COUNT || !Acceptable(env, f, p.value) then None else Some(Propose(d, f, p.value))
  }

  function StageAll(env: Env, d: Draft, ps: seq<Pair>): Option<Draft>
    decreases |ps|
  {
    if ps == [] then Some(d)
    else
      match StagePair(env, d, ps[0])
      case None => None
      case Some(d1) => StageAll(env, d1, ps[1..])
  }

  /** The radio is asked only when the power changes. */
  predicate RadioRefuses(env: Env, v: Values, d: Draft) {
    F_TXPOWER in d.named && d.tx != v.tx && env.applyTxPower.Some? && !env.applyTxPower.value(d.tx)
  }

  function NewOver(v: Values, d: Draft): set<Field> {
    set f: Field | 0 <= f < F_COUNT && (if f in d.named then f < F_IP || d.addr[f - F_IP] != "" else f in v.over)
  }

  /** Does the request change the addressing that is running. */
  predicate AddressChanges(v: Values, d: Draft) {
    v.isStatic != d.isStatic || v.addr != d.addr
  }

  /** The values after a request that passed: named fields replaced, and a changed static
      configuration put on trial from scratch. */
  function Committed(v: Values, d: Draft): Values {
    Values(d.announce, d.tx, d.ntp, d.host, d.port, d.isStatic, d.addr, NewOver(v, d),
           if AddressChanges(v, d) then (if d.isStatic then OnTrial(0) else NoTrial) else v.trial)
  }

  /** A whole request: refused without a trace, or the values it leaves. */
  function Decide(env: Env, v: Values, ps: seq<Pair>): Option<Values> {
    match StageAll(env, DraftOf(v), ps)
    case None => None
    case Some(d) =>
      if ps == [] || (d.isStatic && d.addr[0] == "") || RadioRefuses(env, v, d) then None
      else Some(Committed(v, d))
  }

  // ------------------------------------------------------------------ key order

  ghost predicate DistinctKeys(ps: seq<Pair>) {
    forall i, j :: 0 <= i < j < |ps| ==> ps[i].key != ps[j].key
  }

  lemma ProposeCommutes(d: Draft, f: Field, x: Json, g: Field, y: Json)
    requires f != g
    requires F_TCP_HOST == f || f >= F_IP ==> x.text.Some?
    requires F_TCP_HOST == g || g >= F_IP ==> y.text.Some?
    ensures Propose(Propose(d, f, x), g, y) == Propose(Propose(d, g, y), f, x)
  {
    assert d.named + {f} + {g} == d.named + {g} + {f};
    if f >= F_IP && g >= F_IP {
      assert d.addr[f - F_IP := x.text.value][g - F_IP := y.text.value] == d.addr[g - F_IP := y.text.value][f - F_IP := x.text.value];
    }
  }

  lemma StageTwo(env: Env, d: Draft, p: Pair, q: Pair)
    ensures StageAll(env, d, [p, q])
            == match StagePair(env, d, p) case None => None case Some(d1) => StagePair(env, d1, q)
  {
    hide StagePair;
    assert [p, q][1..] == [q] && [q][1..] == [];
    var r := StagePair(env, d, p);
    if r.Some? {
      assert StageAll(env, r.value, [q]) == match StagePair(env, r.value, q) case None => None case Some(d2) => StageAll(env, d2, []);
    }
  }

  lemma StageCommutes(env: Env, d: Draft, p: Pair, q: Pair)
    requires p.key != q.key
    ensures StageAll(env, d, [p, q]) == StageAll(env, d, [q, p])
  {
    hide Propose, Acceptable;
    AcceptableHasText(env, p);
    AcceptableHasText(env, q);
    StageTwo(env, d, p, q);
    StageTwo(env, d, q, p);
    var f, g := FieldOf(p.key, 0), FieldOf(q.key, 0);
    if f < F_COUNT && g < F_COUNT && Acceptable(env, f, p.value) && Acceptable(env, g, q.value) {
      ProposeCommutes(d, f, p.value, g, q.value);
    }
  }

  lemma AcceptableHasText(env: Env, p: Pair)
    ensures var f := FieldOf(p.key, 0);
            f < F_COUNT && Acceptable(env, f, p.value) && (F_TCP_HOST == f || f >= F_IP) ==> p.value.text.Some?
  {
  }

  lemma {:induction false} StageAppend(env: Env, d: Draft, a: seq<Pair>, b: seq<Pair>)
    ensures StageAll(env, d, a + b)
            == match StageAll(env, d, a) case None => None case Some(d1) => StageAll(env, d1, b)
    decreases |a|
  {
    if a == [] {
      assert a + b == b;
    } else {
      hide StagePair;
      assert (a + b)[0] == a[0] && (a + b)[1..] == a[1..] + b;
      var r := StagePair(env, d, a[0]);
      if r.Some? {
        StageAppend(env, r.value, a[1..], b);
      }
    }
  }

  /** A pair may move to the front of any pairs with other keys. */
  lemma {:induction false} StageMove(env: Env, d: Draft, pre: seq<Pair>, p: Pair, post: seq<Pair>)
    requires forall i :: 0 <= i < |pre| ==> pre[i].key != p.key
    ensures StageAll(env, d, pre + [p] + post) == StageAll(env, d, [p] + pre + post)
    decreases |pre|
  {
    if pre == [] {
      assert pre + [p] + post == [p] + pre + post;
    } else {
      hide StagePair;
      hide StageAll;
      var init, q := pre[..|pre| - 1], pre[|pre| - 1];
      StageMove(env, d, init, p, [q] + post);
      assert pre == init + [q];
      Rebracket(init, q, p, post);
      StageSwap(env, d, init, q, p, post);
    }
  }

  lemma Rebracket(init: seq<Pair>, q: Pair, p: Pair, post: seq<Pair>)
    ensures (init + [q]) + [p] + post == init + ([q, p] + post)
    ensures [p] + (init + [q]) + post == [p] + init + ([q] + post)
    ensures init + [p] + ([q] + post) == init + ([p, q] + post)
  {
  }

  /** Two neighbours with different keys may change places. */
  lemma StageSwap(env: Env, d: Draft, pre: seq<Pair>, q: Pair, p: Pair, post: seq<Pair>)
    requires p.key != q.key
    ensures StageAll(env, d, pre + ([q, p] + post)) == StageAll(env, d, pre + ([p, q] + post))
  {
    hide StageAll;
    StageAppend(env, d, pre, [q, p] + post);
    StageAppend(env, d, pre, [p, q] + post);
    var r := StageAll(env, d, pre);
    if r.Some? {
      StageAppend(env, r.value, [q, p], post);
      StageAppend(env, r.value, [p, q], post);
      StageCommutes(env, r.value, q, p);
    }
  }

  /** The keys of a body may come in any order: the same pairs give the same outcome. */
  lemma {:induction false} KeyOrderIrrelevant(env: Env, d: Draft, ps: seq<Pair>, qs: seq<Pair>)
    requires DistinctKeys(ps) && DistinctKeys(qs)
    requires multiset(ps) == multiset(qs)
    ensures StageAll(env, d, ps) == StageAll(env, d, qs)
    decreases |ps|
  {
    assert |ps| == |multiset(ps)| == |multiset(qs)| == |qs|;
    if ps == [] {
    } else {
      hide StagePair, Acceptable, DistinctKeys;
      hide StageAll;
      var p := ps[0];
      var pre, post := FindFirstPair(ps, qs);
      StageMove(env, d, pre, p, post);
      assert ps == [p] + ps[1..];
      StageFirst(env, d, p, ps[1..]);
      StageFirstOf(env, d, p, pre, post);
      var r := StagePair(env, d, p);
      if r.Some? {
        KeyOrderIrrelevant(env, r.value, ps[1..], pre + post);
      }
    }
  }

  lemma StageFirstOf(env: Env, d: Draft, p: Pair, pre: seq<Pair>, post: seq<Pair>)
    ensures StageAll(env, d, [p] + pre + post)
            == match StagePair(env, d, p) case None => None case Some(d1) => StageAll(env, d1, pre + post)
  {
    hide StagePair, StageAll;
    assert [p] + pre + post == [p] + (pre + post);
    StageFirst(env, d, p, pre + post);
  }

  lemma StageFirst(env: Env, d: Draft, p: Pair, ps: seq<Pair>)
    ensures StageAll(env, d, [p] + ps) == match StagePair(env, d, p) case None => None case Some(d1) => StageAll(env, d1, ps)
  {
    hide StagePair;
    assert ([p] + ps)[1..] == ps;
  }

  /** Where the first pair of one body stands in the other, and what is left of both. */
  lemma FindFirstPair(ps: seq<Pair>, qs: seq<Pair>) returns (pre: seq<Pair>, post: seq<Pair>)
    requires ps != [] && DistinctKeys(ps) && DistinctKeys(qs) && multiset(ps) == multiset(qs)
    ensures qs == pre + [ps[0]] + post && DistinctKeys(ps[1..]) && DistinctKeys(pre + post)
    ensures multiset(ps[1..]) == multiset(pre + post)
    ensures forall i :: 0 <= i < |pre| ==> pre[i].key != ps[0].key
  {
    hide DistinctKeys;
    var p := ps[0];
    assert p in multiset(ps);
    var k := IndexIn(p, qs);
    pre, post := qs[..k], qs[k + 1..];
    assert ps == [p] + ps[1..];
    DropKeepsDistinct(ps, 0);
    DropKeepsDistinct(qs, k);
    assert ps[..0] + ps[1..] == ps[1..];
    SameRest(p, ps[1..], pre, post);
  }

  lemma SameRest(p: Pair, a: seq<Pair>, b: seq<Pair>, c: seq<Pair>)
    requires multiset([p] + a) == multiset(b + [p] + c)
    ensures multiset(a) == multiset(b + c)
  {
    assert multiset([p] + a) == multiset{p} + multiset(a);
    assert multiset(b + [p] + c) == multiset(b) + multiset{p} + multiset(c);
    assert multiset(b + c) == multiset(b) + multiset(c);
    assert multiset(a) == (multiset{p} + multiset(a)) - multiset{p};
    assert multiset(b + c) == (multiset(b) + multiset{p} + multiset(c)) - multiset{p};
  }

  lemma IndexIn(p: Pair, qs: seq<Pair>) returns (k: nat)
    requires p in multiset(qs)
    ensures k < |qs| && qs[k] == p && qs == qs[..k] + [p] + qs[k + 1..]
  {
    k :| 0 <= k < |qs| && qs[k] == p;
  }

  lemma DropKeepsDistinct(ps: seq<Pair>, k: nat)
    requires DistinctKeys(ps) && k < |ps|
    ensures DistinctKeys(ps[..k] + ps[k + 1..])
    ensures forall i :: 0 <= i < k ==> ps[..k][i].key != ps[k].key
  {
    var qs := ps[..k] + ps[k + 1..];
    forall i, j | 0 <= i < j < |qs|
      ensures qs[i].key != qs[j].key
    {
      assert qs[i] == ps[if i < k then i else i + 1];
      assert qs[j] == ps[if j < k then j else j + 1];
    }
  }

  lemma RequestOrderIrrelevant(env: Env, v: Values, ps: seq<Pair>, qs: seq<Pair>)
    requires DistinctKeys(ps) && DistinctKeys(qs) && multiset(ps) == multiset(qs)
    ensures Decide(env, v, ps) == Decide(env, v, qs)
  {
    assert |ps| == |multiset(ps)| == |multiset(qs)| == |qs|;
    KeyOrderIrrelevant(env, DraftOf(v), ps, qs);
  }

  // ------------------------------------------------------------------ what a request does

  /** The proposal holds this value in field `f`. */
  ghost predicate Holds(d: Draft, f: Field, j: Json) {
    && (f == 0 ==> d.announce == j.u32) && (f == 1 ==> d.tx == j.i32) && (f == 2 ==> d.ntp == j.u32)
    && (f == 3 ==> j.text == Some(d.host)) && (f == 4 ==> d.port == j.u32)
    && (f == 5 ==> (d.isStatic <==> j.text == Some("static")))
    && (f >= 6 ==> j.text == Some(d.addr[f - 6]))
  }

  ghost predicate SameField(d: Draft, e: Draft, f: Field) {
    && (f == 0 ==> d.announce == e.announce) && (f == 1 ==> d.tx == e.tx) && (f == 2 ==> d.ntp == e.ntp)
    && (f == 3 ==> d.host == e.host) && (f == 4 ==> d.port == e.port) && (f == 5 ==> d.isStatic == e.isStatic)
    && (f >= 6 ==> d.addr[f - 6] == e.addr[f - 6]) && (f in d.named <==> f in e.named)
  }

  ghost predicate Absent(ps: seq<Pair>, key: string) {
    forall i :: 0 <= i < |ps| ==> ps[i].key != key
  }

  /** No later pair has the key of pair `k`. */
  ghost predicate Final(ps: seq<Pair>, k: nat) {
    k < |ps| && forall i :: k < i < |ps| ==> ps[i].key != ps[k].key
  }

  lemma StageSnoc(env: Env, d: Draft, ps: seq<Pair>, p: Pair)
    ensures StageAll(env, d, ps + [p])
            == match StageAll(env, d, ps) case None => None case Some(d1) => StagePair(env, d1, p)
  {
    hide StagePair;
    StageAppend(env, d, ps, [p]);
    var r := StageAll(env, d, ps);
    if r.Some? {
      StageFirst(env, r.value, p, []);
      assert [p] + [] == [p];
    }
  }

  lemma PairEffect(env: Env, d: Draft, p: Pair)
    requires StagePair(env, d, p).Some?
    ensures var f := FieldOf(p.key, 0);
            var e := StagePair(env, d, p).value;
            && f < F_COUNT && Acceptable(env, f, p.value) && Holds(e, f, p.value) && f in e.named
            && forall g: Field :: g != f ==> SameField(d, e, g)
  {
    hide FieldOf;
  }

  lemma {:induction false} KeptField(env: Env, d: Draft, ps: seq<Pair>, f: Field)
    requires StageAll(env, d, ps).Some? && Absent(ps, KEYS[f])
    ensures SameField(d, StageAll(env, d, ps).value, f)
    decreases |ps|
  {
    if ps == [] {
    } else {
      hide StagePair, StageAll, Acceptable, Holds, SameField, FieldOf, KEYS;
      var init, p := ps[..|ps| - 1], ps[|ps| - 1];
      assert ps == init + [p] && Absent(init, KEYS[f]) && p.key != KEYS[f];
      hide Absent;
      StageSnoc(env, d, init, p);
      KeptField(env, d, init, f);
      var d1 := StageAll(env, d, init).value;
      OtherField(env, d1, p, f);
      SameTwice(d, d1, StagePair(env, d1, p).value, f);
    }
  }

  lemma OtherField(env: Env, d: Draft, p: Pair, f: Field)
    requires StagePair(env, d, p).Some? && p.key != KEYS[f]
    ensures SameField(d, StagePair(env, d, p).value, f)
  {
    hide StagePair, Acceptable, Holds, SameField, FieldOf;
    PairEffect(env, d, p);
    FieldNamed(p.key);
  }

  lemma SameTwice(d: Draft, e: Draft, g: Draft, f: Field)
    requires SameField(d, e, f) && SameField(e, g, f)
    ensures SameField(d, g, f)
  {
  }

  lemma {:induction false} SetField(env: Env, d: Draft, ps: seq<Pair>, k: nat)
    requires StageAll(env, d, ps).Some? && Final(ps, k)
    ensures var f := FieldOf(ps[k].key, 0);
            var e := StageAll(env, d, ps).value;
            f < F_COUNT && Acceptable(env, f, ps[k].value) && Holds(e, f, ps[k].value) && f in e.named
    decreases |ps|
  {
    hide StagePair, StageAll, Acceptable;
    var init, p := ps[..|ps| - 1], ps[|ps| - 1];
    assert ps == init + [p];
    StageSnoc(env, d, init, p);
    var d1 := StageAll(env, d, init).value;
    PairEffect(env, d1, p);
    if k < |init| {
      assert Final(init, k) && init[k] == ps[k];
      SetField(env, d, init, k);
      var f := FieldOf(ps[k].key, 0);
      assert FieldOf(p.key, 0) != f;
      HeldOn(d1, StagePair(env, d1, p).value, f, ps[k].value);
    }
  }

  lemma HeldOn(d: Draft, e: Draft, f: Field, j: Json)
    requires Holds(d, f, j) && SameField(d, e, f)
    ensures Holds(e, f, j)
  {
  }

  /** What a request that passes leaves in each field it names: the last value it gives for the key, which
      lies in the field's range. */
  lemma PutSets(env: Env, v: Values, ps: seq<Pair>, k: nat)
    requires Decide(env, v, ps).Some? && Final(ps, k)
    ensures var w, key, j := Decide(env, v, ps).value, ps[k].key, ps[k].value;
            && (key == "announce_interval_s" ==> w.announce == j.u32 && 10 <= j.u32 <= 86400 && 0 in w.over)
            && (key == "lora_tx_power_dbm" ==> w.tx == j.i32 && -9 <= j.i32 <= 30 && 1 in w.over)
            && (key == "ntp_interval_s" ==> w.ntp == j.u32 && 60 <= j.u32 <= 604800 && 2 in w.over)
            && (key == "tcp_host" ==> j.text == Some(w.host) && |w.host| <= 15 && env.validIpv4(w.host) && 3 in w.over)
            && (key == "tcp_port" ==> w.port == j.u32 && 1 <= j.u32 <= 65535 && 4 in w.over)
            && (key == "ip_mode" ==>
                  && (w.isStatic <==> j.text == Some("static")) && (!w.isStatic <==> j.text == Some("dhcp")) && 5 in w.over)
            && (key == "ip" ==> j.text == Some(w.addr[0]) && IsAddress(env, w.addr[0]) && (6 in w.over <==> w.addr[0] != ""))
            && (key == "subnet" ==> j.text == Some(w.addr[1]) && IsAddress(env, w.addr[1]) && (7 in w.over <==> w.addr[1] != ""))
            && (key == "gateway" ==> j.text == Some(w.addr[2]) && IsAddress(env, w.addr[2]) && (8 in w.over <==> w.addr[2] != ""))
            && (key == "dns" ==> j.text == Some(w.addr[3]) && IsAddress(env, w.addr[3]) && (9 in w.over <==> w.addr[3] != ""))
            && key in KEYS
  {
    hide StageAll, FieldOf;
    SetField(env, DraftOf(v), ps, k);
    NamesFields();
    var f := FieldOf(ps[k].key, 0);
    assert KEYS[f] == ps[k].key by {
      FieldNamed(ps[k].key);
    }
    assert "dhcp"[0] != "static"[0];
  }

  lemma FieldNamed(key: string)
    ensures var f := FieldOf(key, 0); f < F_COUNT ==> key == KEYS[f]
  {
  }

  /** The empty text, or a dotted address of at most 15 characters. */
  predicate IsAddress(env: Env, s: string) {
    |s| <= 15 && (s == "" || env.validIpv4(s))
  }

  /** The ten keys, in order. */
  lemma NamesFields()
    ensures FieldOf("announce_interval_s", 0) == 0 && FieldOf("lora_tx_power_dbm", 0) == 1 && FieldOf("ntp_interval_s", 0) == 2
    ensures FieldOf("tcp_host", 0) == 3 && FieldOf("tcp_port", 0) == 4 && FieldOf("ip_mode", 0) == 5 && FieldOf("ip", 0) == 6
    ensures FieldOf("subnet", 0) == 7 && FieldOf("gateway", 0) == 8 && FieldOf("dns", 0) == 9
  {
    hide FieldOf;
    KeyNamesField(0);
    KeyNamesField(1);
    KeyNamesField(2);
    KeyNamesField(3);
    KeyNamesField(4);
    KeyNamesField(5);
    KeyNamesField(6);
    KeyNamesField(7);
    KeyNamesField(8);
    KeyNamesField(9);
  }

  /** And every field it does not name is as it was, overridden if it was. */
  lemma PutKeeps(env: Env, v: Values, ps: seq<Pair>)
    requires Decide(env, v, ps).Some?
    ensures var w := Decide(env, v, ps).value;
            && (Absent(ps, "announce_interval_s") ==> w.announce == v.announce && (0 in w.over <==> 0 in v.over))
            && (Absent(ps, "lora_tx_power_dbm") ==> w.tx == v.tx && (1 in w.over <==> 1 in v.over))
            && (Absent(ps, "ntp_interval_s") ==> w.ntp == v.ntp && (2 in w.over <==> 2 in v.over))
            && (Absent(ps, "tcp_host") ==> w.host == v.host && (3 in w.over <==> 3 in v.over))
            && (Absent(ps, "tcp_port") ==> w.port == v.port && (4 in w.over <==> 4 in v.over))
            && (Absent(ps, "ip_mode") ==> w.isStatic == v.isStatic && (5 in w.over <==> 5 in v.over))
            && (Absent(ps, "ip") ==> w.addr[0] == v.addr[0] && (6 in w.over <==> 6 in v.over))
            && (Absent(ps, "subnet") ==> w.addr[1] == v.addr[1] && (7 in w.over <==> 7 in v.over))
            && (Absent(ps, "gateway") ==> w.addr[2] == v.addr[2] && (8 in w.over <==> 8 in v.over))
            && (Absent(ps, "dns") ==> w.addr[3] == v.addr[3] && (9 in w.over <==> 9 in v.over))
  {
    hide StageAll, Absent, Committed, DraftOf, SameField;
    var d := StageAll(env, DraftOf(v), ps).value;
    KeptAt(env, v, ps, 0, "announce_interval_s");
    KeptAt(env, v, ps, 1, "lora_tx_power_dbm");
    KeptAt(env, v, ps, 2, "ntp_interval_s");
    KeptAt(env, v, ps, 3, "tcp_host");
    KeptAt(env, v, ps, 4, "tcp_port");
    KeptAt(env, v, ps, 5, "ip_mode");
    KeptAt(env, v, ps, 6, "ip");
    KeptAt(env, v, ps, 7, "subnet");
    KeptAt(env, v, ps, 8, "gateway");
    KeptAt(env, v, ps, 9, "dns");
  }

  lemma KeptAt(env: Env, v: Values, ps: seq<Pair>, f: Field, key: string)
    requires Decide(env, v, ps).Some? && key == KEYS[f]
    ensures var w := Decide(env, v, ps).value;
            Absent(ps, key) ==>
              && (f == 0 ==> w.announce == v.announce) && (f == 1 ==> w.tx == v.tx) && (f == 2 ==> w.ntp == v.ntp)
              && (f == 3 ==> w.host == v.host) && (f == 4 ==> w.port == v.port) && (f == 5 ==> w.isStatic == v.isStatic)
              && (f >= 6 ==> w.addr[f - 6] == v.addr[f - 6]) && (f in w.over <==> f in v.over)
  {
    hide StageAll, FieldOf, Absent;
    if Absent(ps, key) {
      KeptField(env, DraftOf(v), ps, f);
    }
  }

  /** A pair the settings take: one of the ten keys with a value in its range. */
  predicate Fine(env: Env, p: Pair) {
    var j := p.value;
    || (p.key == "announce_interval_s" && 10 <= j.u32 <= 86400)
    || (p.key == "lora_tx_power_dbm" && -9 <= j.i32 <= 30)
    || (p.key == "ntp_interval_s" && 60 <= j.u32 <= 604800)
    || (p.key == "tcp_host" && j.text.Some? && |j.text.value| <= 15 && env.validIpv4(j.text.value))
    || (p.key == "tcp_port" && 1 <= j.u32 <= 65535)
    || (p.key == "ip_mode" && j.text in [Some("dhcp"), Some("static")])
    || (p.key in ["ip", "subnet", "gateway", "dns"] && j.text.Some? && IsAddress(env, j.text.value))
  }

  lemma FineIff(env: Env, d: Draft, p: Pair)
    ensures StagePair(env, d, p).Some? <==> Fine(env, p)
  {
    hide FieldOf, Propose;
    NamesFields();
    FieldNamed(p.key);
    AcceptableHasText(env, p);
  }

  lemma {:induction false} StagedIff(env: Env, d: Draft, ps: seq<Pair>)
    ensures StageAll(env, d, ps).Some? <==> forall i :: 0 <= i < |ps| ==> Fine(env, ps[i])
    decreases |ps|
  {
    if ps == [] {
    } else {
      hide StagePair, Fine, StageAll;
      var init, p := ps[..|ps| - 1], ps[|ps| - 1];
      assert ps == init + [p];
      StageSnoc(env, d, init, p);
      StagedIff(env, d, init);
      if StageAll(env, d, init).Some? {
        FineIff(env, StageAll(env, d, init).value, p);
      }
    }
  }

  /** When a request passes: it names something, every pair is fine, what it comes to is not a static
      address without an address, and the radio, if the power changes while it is up, takes the new one. */
  lemma PutPassesIff(env: Env, v: Values, ps: seq<Pair>)
    ensures Decide(env, v, ps).Some? <==>
            && ps != [] && (forall i :: 0 <= i < |ps| ==> Fine(env, ps[i])) && StageAll(env, DraftOf(v), ps).Some?
            && var w := Committed(v, StageAll(env, DraftOf(v), ps).value);
               && !(w.isStatic && w.addr[0] == "")
               && (w.tx != v.tx && env.applyTxPower.Some? ==> env.applyTxPower.value(w.tx))
    ensures Decide(env, v, ps).Some? ==> Decide(env, v, ps).value == Committed(v, StageAll(env, DraftOf(v), ps).value)
  {
    hide Fine, StageAll;
    StagedIff(env, DraftOf(v), ps);
    if StageAll(env, DraftOf(v), ps).Some? && Absent(ps, KEYS[F_TXPOWER]) {
      KeptField(env, DraftOf(v), ps, F_TXPOWER);
    } else if StageAll(env, DraftOf(v), ps).Some? {
      var k :| 0 <= k < |ps| && ps[k].key == KEYS[F_TXPOWER];
      var m := LastWithKey(ps, KEYS[F_TXPOWER], k);
      SetField(env, DraftOf(v), ps, m);
      KeyNamesField(F_TXPOWER);
    }
  }

  lemma {:induction false} LastWithKey(ps: seq<Pair>, key: string, k: nat) returns (m: nat)
    requires k < |ps| && ps[k].key == key
    ensures k <= m && Final(ps, m) && ps[m].key == key
    decreases |ps| - k
  {
    m := k;
    if i :| k < i < |ps| && ps[i].key == key {
      m := LastWithKey(ps, key, i);
    }
  }

  /** The example of the documentation, both ways: an address and static mode put the address on trial;
      dhcp with an address set does not. */
  lemma ModesNamed(env: Env)
    requires env.validIpv4("10.0.0.5")
    ensures var ip, mode := Json(0, 0, Some("10.0.0.5")), Json(0, 0, Some("static"));
            var r := Decide(env, DEFAULTS, [Pair("ip", ip), Pair("ip_mode", mode)]);
            r.Some? && r.value.isStatic && r.value.addr[0] == "10.0.0.5" && r.value.trial == OnTrial(0)
    ensures var r := Decide(env, DEFAULTS.(isStatic := true, addr := ["10.0.0.5", "", "", ""]), [Pair("ip_mode", Json(0, 0, Some("dhcp")))]);
            r.Some? && !r.value.isStatic && r.value.addr[0] == "10.0.0.5" && r.value.trial == NoTrial
  {
    hide FieldOf, StageAll;
    NamesFields();
    var ip, mode := Json(0, 0, Some("10.0.0.5")), Json(0, 0, Some("static"));
    StageTwo(env, DraftOf(DEFAULTS), Pair("ip", ip), Pair("ip_mode", mode));
    var v := DEFAULTS.(isStatic := true, addr := ["10.0.0.5", "", "", ""]);
    var p := Pair("ip_mode", Json(0, 0, Some("dhcp")));
    StageSnoc(env, DraftOf(v), [], p);
    assert [] + [p] == [p];
    assert StageAll(env, DraftOf(v), []) == Some(DraftOf(v)) by {
      StageNothing(env, DraftOf(v));
    }
    assert "dhcp"[0] != "static"[0];
  }

  lemma StageNothing(env: Env, d: Draft)
    ensures StageAll(env, d, []) == Some(d)
  {
  }

  // ------------------------------------------------------------------ the node across boots

  /** The settings file, the values in RAM, whether this boot is the one on trial, and whether the
      node is up at all. */
  datatype Node = Node(file: Option<string>, v: Values, thisBoot: bool, up: bool)

  /** The file after a save that may fail to open it. */
  function Stored(file: Option<string>, v: Values, saves: bool): Option<string> {
    if saves then Some(Print(v)) else file
  }

  function Saved(v: Values, thisBoot: bool): Node {
    Node(Some(Print(v)), v, thisBoot, true)
  }

  function Halted(file: Option<string>): Node {
    Node(file, DEFAULTS, false, false)
  }

  function RevertToDhcp(v: Values): Values {
    v.(isStatic := false, over := v.over + {F_IP_MODE}, trial := Reverted)
  }

  /** `begin`: load, and count a boot of a static address that is still on trial. `saves` is whether
      the file can be written; nothing here looks at the answer. */
  function Boot(n: Node, saves: bool): Node {
    var v := LoadFile(n.file);
    if !v.trial.OnTrial? then Node(n.file, v, false, true)
    else if !v.isStatic || v.addr[0] == "" then
      var w := v.(trial := NoTrial);
      Node(Stored(n.file, w, saves), w, false, true)
    else if v.trial.boots + 1 > IP_TRIAL_BOOTS then Halted(Stored(n.file, RevertToDhcp(v), saves))
    else
      var w := v.(trial := OnTrial(v.trial.boots + 1));
      Node(Stored(n.file, w, saves), w, true, true)
  }

  function ConfirmIp(n: Node, saves: bool): Node {
    if !n.up || !n.v.trial.OnTrial? || !n.thisBoot then n
    else
      var w := n.v.(trial := NoTrial);
      Node(Stored(n.file, w, saves), w, false, true)
  }

  function TimeoutIpTrial(n: Node, saves: bool): Node {
    if !n.up || !n.v.trial.OnTrial? || !n.thisBoot then n else Halted(Stored(n.file, RevertToDhcp(n.v), saves))
  }

  /** A configuration PUT, and whether it reports success; `saves` is whether the file is written. */
  function Put(env: Env, n: Node, ps: seq<Pair>, saves: bool): (Node, bool) {
    match Decide(env, n.v, ps)
    case None => (n, false)
    case Some(v) =>
      var d := StageAll(env, DraftOf(n.v), ps).value;
      (Node(Stored(n.file, v, saves), v, n.thisBoot && !AddressChanges(n.v, d), n.up), saves)
  }

  /** `reset`: the file is removed, unless that fails, which nobody looks at. */
  function DropOverrides(n: Node, removes: bool): Node {
    Node(if removes then None else n.file, DEFAULTS, false, n.up)
  }

  /** The runs are those in which every save and removal succeeds. */
  datatype Event = Start | Reached | TrialTimeout | Request(env: Env, pairs: seq<Pair>) | Drop | Stop

  function Next(n: Node, e: Event): Node {
    match e
    case Start => if n.up then n else Boot(n, true)
    case Reached => ConfirmIp(n, true)
    case TrialTimeout => TimeoutIpTrial(n, true)
    case Request(env, ps) => if n.up then Put(env, n, ps, true).0 else n
    case Drop => if n.up then DropOverrides(n, true) else n
    case Stop => Halted(n.file)
  }

  function Run(n: Node, es: seq<Event>): Node
    decreases |es|
  {
    if es == [] then n else Run(Next(n, es[0]), es[1..])
  }

  /** Overrides and nothing else differ from the defaults, a static mode has an address, only a
      static mode is on trial, and not for longer than the limit. */
  ghost predicate Good(v: Values) {
    && Printable(v) && OverridesOnly(v) && (v.isStatic ==> v.addr[0] != "")
    && (v.trial.OnTrial? ==> v.isStatic && v.trial.boots <= IP_TRIAL_BOOTS)
  }

  ghost predicate NodeInv(n: Node) {
    && Good(LoadFile(n.file))
    && (n.up ==> n.v == LoadFile(n.file))
    && (n.thisBoot ==> n.up && n.v.trial.OnTrial?)
  }

  lemma SavedHolds(v: Values, thisBoot: bool)
    requires Good(v) && (thisBoot ==> v.trial.OnTrial?)
    ensures NodeInv(Saved(v, thisBoot)) && NodeInv(Halted(Some(Print(v)))) && LoadFile(Some(Print(v))) == v
  {
    hide LoadFile, Print;
    LoadPrint(v);
  }

  /** A confirmation takes the address off trial and changes nothing else, in RAM and in the file. */
  lemma ConfirmEnds(n: Node)
    requires NodeInv(n)
    ensures var n' := ConfirmIp(n, true);
            if n.up && n.v.trial.OnTrial? && n.thisBoot
            then n'.up && !n'.thisBoot && n'.v == n.v.(trial := NoTrial) && LoadFile(n'.file) == LoadFile(n.file).(trial := NoTrial)
            else n' == n
  {
    hide LoadFile, Print;
    if n.up && n.v.trial.OnTrial? && n.thisBoot {
      SavedHolds(n.v.(trial := NoTrial), false);
    }
  }

  lemma RevertGood(v: Values)
    requires Good(v)
    ensures Good(RevertToDhcp(v))
  {
  }

  ghost predicate DraftGood(d: Draft) {
    && d.announce < 0x1_0000_0000 && d.ntp < 0x1_0000_0000 && d.port < 0x1_0000 && -128 <= d.tx < 128
    && |d.host| <= 15 && Free(d.host, '\n')
    && (forall i :: 0 <= i < 4 ==> |d.addr[i]| <= 15 && Free(d.addr[i], '\n'))
  }

  /** Named or as it was. */
  ghost predicate DraftFrom(v: Values, d: Draft) {
    && (F_ANNOUNCE in d.named || d.announce == v.announce) && (F_TXPOWER in d.named || d.tx == v.tx)
    && (F_NTP in d.named || d.ntp == v.ntp) && (F_TCP_HOST in d.named || d.host == v.host)
    && (F_TCP_PORT in d.named || d.port == v.port) && (F_IP_MODE in d.named || d.isStatic == v.isStatic)
    && (forall i :: 0 <= i < 4 ==> F_IP + i in d.named || d.addr[i] == v.addr[i])
  }

  lemma ProposeGood(env: Env, v: Values, d: Draft, p: Pair)
    requires Sane(env) && DraftGood(d) && DraftFrom(v, d)
    ensures var r := StagePair(env, d, p); r.Some? ==> DraftGood(r.value) && DraftFrom(v, r.value)
  {
    hide FieldOf, DraftGood, DraftFrom, Propose;
    var f := FieldOf(p.key, 0);
    if f < F_COUNT && Acceptable(env, f, p.value) {
      AcceptableHasText(env, p);
      AcceptedStaysGood(env, d, f, p.value);
      AcceptedIsNamed(v, d, f, p.value);
    }
  }

  lemma AcceptedStaysGood(env: Env, d: Draft, f: Field, j: Json)
    requires Sane(env) && DraftGood(d) && Acceptable(env, f, j)
    ensures DraftGood(Propose(d, f, j))
  {
  }

  lemma AcceptedIsNamed(v: Values, d: Draft, f: Field, j: Json)
    requires DraftFrom(v, d)
    requires F_TCP_HOST == f || f >= F_IP ==> j.text.Some?
    ensures DraftFrom(v, Propose(d, f, j))
  {
  }

  lemma {:induction false} StageGood(env: Env, v: Values, d: Draft, ps: seq<Pair>)
    requires Sane(env) && DraftGood(d) && DraftFrom(v, d)
    ensures var r := StageAll(env, d, ps); r.Some? ==> DraftGood(r.value) && DraftFrom(v, r.value)
    decreases |ps|
  {
    if ps == [] {
    } else {
      hide StagePair, DraftGood, DraftFrom;
      ProposeGood(env, v, d, ps[0]);
      var r := StagePair(env, d, ps[0]);
      if r.Some? {
        StageGood(env, v, r.value, ps[1..]);
      }
    }
  }

  lemma CommittedGood(v: Values, d: Draft)
    requires Good(v) && DraftGood(d) && DraftFrom(v, d) && !(d.isStatic && d.addr[0] == "")
    ensures Good(Committed(v, d))
  {
  }

  lemma DecideGood(env: Env, v: Values, ps: seq<Pair>)
    requires Sane(env) && Good(v)
    ensures var r := Decide(env, v, ps); r.Some? ==> Good(r.value)
  {
    hide StageAll, DraftGood, DraftFrom, Committed, Good;
    DraftStarts(v);
    StageGood(env, v, DraftOf(v), ps);
    var d := StageAll(env, DraftOf(v), ps);
    if d.Some? && !(d.value.isStatic && d.value.addr[0] == "") {
      CommittedGood(v, d.value);
    }
  }

  lemma DraftStarts(v: Values)
    requires Good(v)
    ensures DraftGood(DraftOf(v)) && DraftFrom(v, DraftOf(v))
  {
  }

  lemma DefaultsGood()
    ensures Good(DEFAULTS) && LoadFile(None) == DEFAULTS
  {
  }

  /** A trial this boot is on survives a request only if the addressing did not change. */
  lemma PutKeepsTrial(env: Env, n: Node, ps: seq<Pair>)
    ensures var (n', _) := Put(env, n, ps, true); n'.thisBoot ==> n.thisBoot && n'.v.trial == n.v.trial
  {
    hide StageAll;
  }

  lemma NextHolds(n: Node, e: Event)
    requires NodeInv(n) && (e.Request? ==> Sane(e.env))
    ensures NodeInv(Next(n, e))
  {
    hide LoadFile, Good, Print, Decide, StageAll;
    var v := LoadFile(n.file);
    match e
    case Start =>
      CountedGood(v);
      if v.trial.OnTrial? && v.isStatic && v.addr[0] != "" {
        if v.trial.boots + 1 > IP_TRIAL_BOOTS {
          RevertGood(v);
          SavedHolds(RevertToDhcp(v), false);
        } else {
          SavedHolds(v.(trial := OnTrial(v.trial.boots + 1)), true);
        }
      }
      if v.trial.OnTrial? && !(v.isStatic && v.addr[0] != "") {
        SavedHolds(v.(trial := NoTrial), false);
      }
    case Reached =>
      CountedGood(v);
      SavedHolds(v.(trial := NoTrial), false);
    case TrialTimeout =>
      RevertGood(v);
      SavedHolds(RevertToDhcp(v), false);
    case Request(env, ps) =>
      DecideGood(env, v, ps);
      PutKeepsTrial(env, n, ps);
      var r := Decide(env, v, ps);
      if n.up && r.Some? {
        SavedHolds(r.value, false);
      }
    case Drop =>
      DefaultsGood();
    case Stop =>
  }

  lemma CountedGood(v: Values)
    requires Good(v)
    ensures Good(v.(trial := NoTrial))
    ensures v.trial.OnTrial? && v.trial.boots < IP_TRIAL_BOOTS ==> Good(v.(trial := OnTrial(v.trial.boots + 1)))
  {
  }

  /** In every run of boots, requests, confirmations, timeouts, resets of the settings and power
      losses, with successful writes: what is in RAM is what the file reloads to, and it is good. */
  lemma {:induction false} RunHolds(n: Node, es: seq<Event>)
    requires NodeInv(n) && forall i :: 0 <= i < |es| && es[i].Request? ==> Sane(es[i].env)
    ensures NodeInv(Run(n, es))
    decreases |es|
  {
    if es == [] {
    } else {
      hide NodeInv, Next;
      NextHolds(n, es[0]);
      RunHolds(Next(n, es[0]), es[1..]);
    }
  }

  lemma FromBlank(es: seq<Event>)
    requires forall i :: 0 <= i < |es| && es[i].Request? ==> Sane(es[i].env)
    ensures var n := Run(Halted(None), es);
            && (n.up ==> n.v == LoadFile(n.file))
            && OverridesOnly(LoadFile(n.file))
            && (LoadFile(n.file).isStatic ==> LoadFile(n.file).addr[0] != "")
            && (LoadFile(n.file).trial.OnTrial? ==> LoadFile(n.file).isStatic)
  {
    DefaultsGood();
    assert NodeInv(Halted(None));
    RunHolds(Halted(None), es);
  }

  // ------------------------------------------------------------------ the trial

  /** `k` boots in a row, each ended by a power loss, none reached. */
  function Unreached(n: Node, k: nat): Node
    decreases k
  {
    if k == 0 then n else Unreached(Next(Next(n, Stop), Start), k - 1)
  }

  lemma OneMoreBoot(n: Node)
    requires NodeInv(n) && LoadFile(n.file).trial.OnTrial?
    ensures var v := LoadFile(n.file);
            var n' := Next(Next(n, Stop), Start);
            var v' := LoadFile(n'.file);
            && NodeInv(n')
            && if v.trial.boots < IP_TRIAL_BOOTS then n'.up && v' == v.(trial := OnTrial(v.trial.boots + 1)) && n'.thisBoot
               else !n'.up && v' == RevertToDhcp(v)
  {
    hide LoadFile, Good, Print;
    var v := LoadFile(n.file);
    GoodTrial(v);
    CountedGood(v);
    RevertGood(v);
    SavedHolds(RevertToDhcp(v), false);
    if v.trial.boots < IP_TRIAL_BOOTS {
      SavedHolds(v.(trial := OnTrial(v.trial.boots + 1)), true);
    }
  }

  lemma GoodTrial(v: Values)
    requires Good(v) && v.trial.OnTrial?
    ensures v.isStatic && v.addr[0] != "" && v.trial.boots <= IP_TRIAL_BOOTS
  {
  }

  /** A static address nobody reaches is used for at most three boots: the boot after that leaves the
      node in dhcp mode, explicitly, with every address field kept as the fallback. */
  lemma {:induction false} UnreachedReverts(n: Node)
    requires NodeInv(n) && LoadFile(n.file).trial.OnTrial?
    ensures var v := LoadFile(n.file);
            var k := 3 - v.trial.boots;
            && 0 <= k <= 3
            && LoadFile(Unreached(n, k + 1).file) == RevertToDhcp(v) && !RevertToDhcp(v).isStatic && RevertToDhcp(v).addr == v.addr
            && forall j :: 1 <= j <= k ==> Unreached(n, j).v.isStatic && Unreached(n, j).thisBoot
    decreases IP_TRIAL_BOOTS - LoadFile(n.file).trial.boots
  {
    hide LoadFile, NodeInv, Next;
    var v := LoadFile(n.file);
    InvTrial(n);
    OneMoreBoot(n);
    var n' := Next(Next(n, Stop), Start);
    var k := IP_TRIAL_BOOTS - v.trial.boots;
    if k == 0 {
      assert Unreached(n, 1) == Unreached(n', 0);
    } else {
      UnreachedReverts(n');
      InvTrial(n');
      forall j | 1 <= j <= k
        ensures Unreached(n, j).v.isStatic && Unreached(n, j).thisBoot
      {
        assert Unreached(n, j) == Unreached(n', j - 1);
        if j == 1 {
          assert Unreached(n', 0) == n';
        }
      }
    }
  }

  // ------------------------------------------------------------------ the bound over every run

  /** Nobody reaches the API, the settings are not dropped and no request changes the addressing. */
  predicate Unproven(n: Node, e: Event) {
    match e
    case Reached => false
    case Drop => false
    case Request(env, ps) =>
      n.up ==> (var d := StageAll(env, DraftOf(n.v), ps); Decide(env, n.v, ps).Some? ==> !AddressChanges(n.v, d.value))
    case _ => true
  }

  predicate RunUnproven(n: Node, es: seq<Event>)
    decreases |es|
  {
    es == [] || (Unproven(n, es[0]) && RunUnproven(Next(n, es[0]), es[1..]))
  }

  /** Does this event bring the node up on a static address. */
  function StaticBoot(n: Node, e: Event): nat {
    if e.Start? && !n.up && Next(n, e).up && Next(n, e).v.isStatic then 1 else 0
  }

  function StaticBoots(n: Node, es: seq<Event>): nat
    decreases |es|
  {
    if es == [] then 0 else StaticBoot(n, es[0]) + StaticBoots(Next(n, es[0]), es[1..])
  }

  /** The boots a static address still has. */
  function BootsLeft(v: Values): int {
    if v.isStatic && v.trial.OnTrial? then IP_TRIAL_BOOTS - v.trial.boots else 0
  }

  /** The timeout of a boot on trial. */
  predicate EndsTrial(n: Node, e: Event) {
    e.TrialTimeout? && n.up && n.thisBoot && n.v.trial.OnTrial?
  }

  /** In dhcp mode, or static and not proven yet. */
  predicate NotProven(v: Values) {
    v.isStatic ==> v.trial.OnTrial?
  }

  /** A request that leaves the addressing leaves mode, addresses and trial. */
  lemma SameAddressing(env: Env, v: Values, ps: seq<Pair>)
    requires Decide(env, v, ps).Some? && !AddressChanges(v, StageAll(env, DraftOf(v), ps).value)
    ensures var w := Decide(env, v, ps).value; w.isStatic == v.isStatic && w.addr == v.addr && w.trial == v.trial
  {
    hide StageAll;
  }

  lemma UnprovenStep(n: Node, e: Event)
    requires NodeInv(n) && (e.Request? ==> Sane(e.env)) && Unproven(n, e) && NotProven(LoadFile(n.file))
    ensures var v, w := LoadFile(n.file), LoadFile(Next(n, e).file);
            && NodeInv(Next(n, e)) && NotProven(w) && w.addr == v.addr
            && 0 <= BootsLeft(w) && StaticBoot(n, e) <= BootsLeft(v)
            && BootsLeft(w) == if EndsTrial(n, e) then 0 else BootsLeft(v) - StaticBoot(n, e)
  {
    hide LoadFile, Good, Print, Decide, StageAll, AddressChanges;
    var v := LoadFile(n.file);
    NextHolds(n, e);
    CountedGood(v);
    RevertGood(v);
    SavedHolds(RevertToDhcp(v), false);
    if v.trial.OnTrial? {
      GoodTrial(v);
    }
    match e
    case Start =>
      if v.trial.OnTrial? && v.trial.boots < IP_TRIAL_BOOTS {
        SavedHolds(v.(trial := OnTrial(v.trial.boots + 1)), true);
      }
    case Request(env, ps) =>
      DecideGood(env, v, ps);
      var r := Decide(env, v, ps);
      if n.up && r.Some? {
        SavedHolds(r.value, false);
        SameAddressing(env, v, ps);
      }
    case _ =>
  }

  /** In every run in which nobody reaches the API and no request changes the addressing, whatever
      boots, power losses, timeouts and other requests it holds: an unproven static address is booted
      at most as often as its trial has boots left, three in all, and the address fields are kept. */
  lemma {:induction false} StaticBootsBounded(n: Node, es: seq<Event>)
    requires NodeInv(n) && NotProven(LoadFile(n.file)) && RunUnproven(n, es)
    requires forall i :: 0 <= i < |es| && es[i].Request? ==> Sane(es[i].env)
    ensures var v, w := LoadFile(n.file), LoadFile(Run(n, es).file);
            && StaticBoots(n, es) <= BootsLeft(v) - BootsLeft(w) && 0 <= BootsLeft(w) <= BootsLeft(v) <= 3
            && NotProven(w) && w.addr == v.addr
    decreases |es|
  {
    BootsLeftBounds(n);
    if es == [] {
    } else {
      hide NodeInv, Next, LoadFile, Unproven, NotProven, BootsLeft, StaticBoot;
      UnprovenStep(n, es[0]);
      StaticBootsBounded(Next(n, es[0]), es[1..]);
    }
  }

  lemma BootsLeftBounds(n: Node)
    requires NodeInv(n)
    ensures 0 <= BootsLeft(LoadFile(n.file)) <= IP_TRIAL_BOOTS
  {
    hide LoadFile, Print;
  }

  /** The boot after the last one, and the timeout of any trial boot, leave the node in dhcp mode with
      the address fields as they were. */
  lemma TrialEndsInDhcp(n: Node, e: Event)
    requires NodeInv(n) && LoadFile(n.file).trial.OnTrial?
    requires (e.Start? && !n.up && BootsLeft(LoadFile(n.file)) == 0) || (e.TrialTimeout? && n.thisBoot)
    ensures !Next(n, e).up && LoadFile(Next(n, e).file) == RevertToDhcp(LoadFile(n.file))
    ensures !LoadFile(Next(n, e).file).isStatic && LoadFile(Next(n, e).file).trial == Reverted
  {
    hide LoadFile, Good, Print;
    var v := LoadFile(n.file);
    GoodTrial(v);
    RevertGood(v);
    SavedHolds(RevertToDhcp(v), false);
  }

  lemma InvTrial(n: Node)
    requires NodeInv(n) && LoadFile(n.file).trial.OnTrial?
    ensures var v := LoadFile(n.file);
            v.isStatic && v.addr[0] != "" && v.trial.boots <= IP_TRIAL_BOOTS && (n.up ==> n.v == v)
  {
    GoodTrial(LoadFile(n.file));
  }

  /** A request that changes the addressing can be neither confirmed nor timed out before the next
      boot, whatever else happens in this one. */
  lemma {:induction false} NotByTheSameBoot(n: Node, es: seq<Event>)
    requires !n.thisBoot && forall i :: 0 <= i < |es| ==> !es[i].Start?
    ensures !Run(n, es).thisBoot
    ensures forall saves :: ConfirmIp(Run(n, es), saves) == Run(n, es) && TimeoutIpTrial(Run(n, es), saves) == Run(n, es)
    decreases |es|
  {
    if es == [] {
    } else {
      if es[0].Request? {
        PutKeepsTrial(es[0].env, n, es[0].pairs);
      }
      NotByTheSameBoot(Next(n, es[0]), es[1..]);
    }
  }

  lemma PutEndsTrial(env: Env, n: Node, ps: seq<Pair>, saves: bool)
    requires var d := StageAll(env, DraftOf(n.v), ps); d.Some? && AddressChanges(n.v, d.value)
    ensures Decide(env, n.v, ps).Some? ==>
              var (n', _) := Put(env, n, ps, saves);
              !n'.thisBoot && n'.v.trial == if n'.v.isStatic then OnTrial(0) else NoTrial
  {
  }

  /** A PUT that reports failure has changed nothing exactly when validation or the radio refused it,
      or it asked for what was already there: a failed write leaves the new values in RAM, against
      the header's promise. */
  lemma FailureChangesNothingIff(env: Env, n: Node, ps: seq<Pair>, saves: bool)
    ensures var (n', ok) := Put(env, n, ps, saves);
            && (ok <==> saves && Decide(env, n.v, ps).Some?)
            && (!ok ==> n'.file == n.file)
            && (!ok ==> (n' == n <==> Decide(env, n.v, ps) == None || Decide(env, n.v, ps) == Some(n.v)))
  {
    hide StageAll, Print;
    var r := Decide(env, n.v, ps);
    if r == Some(n.v) {
      var d := StageAll(env, DraftOf(n.v), ps).value;
      assert !AddressChanges(n.v, d);
    }
  }

  /** It does happen: an interval of 60 seconds over the defaults, and a file that cannot be opened. */
  lemma FailedSaveHappens(env: Env)
    ensures var n := Boot(Halted(None), true);
            var (n', ok) := Put(env, n, [Pair("announce_interval_s", Json(60, 60, None))], false);
            && n == Node(None, DEFAULTS, false, true)
            && !ok && n'.file == None && n'.v == DEFAULTS.(announce := 60, over := {F_ANNOUNCE}) && n'.v != n.v
  {
    hide Print;
    var p := Pair("announce_interval_s", Json(60, 60, None));
    var d := DraftOf(DEFAULTS);
    assert KEYS[F_ANNOUNCE] == p.key && FieldOf(p.key, 0) == F_ANNOUNCE;
    assert d.named + {F_ANNOUNCE} == {F_ANNOUNCE};
    assert StagePair(env, d, p) == Some(d.(announce := 60, named := {F_ANNOUNCE}));
    assert [p][1..] == [];
    assert StageAll(env, d, [p]) == Some(d.(announce := 60, named := {F_ANNOUNCE}));
    assert NewOver(DEFAULTS, d.(announce := 60, named := {F_ANNOUNCE})) == {F_ANNOUNCE};
  }

  // ------------------------------------------------------------------ the object

  /** The line of one field, after which the rest is printed. */
  lemma PrintOne(out: string, v: Values, f: Field)
    ensures out + PrintFrom(v, f) == out + FieldLine(v, f) + PrintFrom(v, f + 1)
  {
    hide FieldLine;
  }

  /** The settings of the node and the file they are kept in. A reboot leaves the object down. */
  class NodeSettings {
    var announce: nat
    var tx: int
    var ntp: nat
    var host: string
    var port: nat
    var isStatic: bool
    var addr: Addresses
    const overridden: array<bool>
    var trial: Trial
    var thisBoot: bool
    var up: bool
    var file: Option<string>

    ghost predicate Valid()
      reads this
    {
      overridden.Length == F_COUNT
    }

    ghost function Over(): set<Field>
      reads overridden
      requires overridden.Length == F_COUNT
    {
      set f: Field | 0 <= f < F_COUNT && overridden[f]
    }

    ghost function V(): Values
      reads this, overridden
      requires Valid()
    {
      Values(announce, tx, ntp, host, port, isStatic, addr, Over(), trial)
    }

    /** What the rest of the node sees: nothing in RAM while it is down. */
    ghost function State(): Node
      reads this, overridden
      requires Valid()
    {
      if up then Node(file, V(), thisBoot, true) else Halted(file)
    }

    constructor (file: Option<string>)
      ensures Valid() && fresh(overridden) && State() == Halted(file)
    {
      announce, tx, ntp, host, port, isStatic, addr := 120, 10, 21600, "192.168.1.187", 4242, false, ["", "", "", ""];
      trial, thisBoot, up := NoTrial, false, false;
      this.file := file;
      overridden := new bool[F_COUNT](_ => false);
    }

    method SetDefaults()
      requires Valid()
      modifies this`announce, this`tx, this`ntp, this`host, this`port, this`isStatic, this`addr, overridden
      ensures V() == DEFAULTS.(trial := trial)
    {
      announce, tx, ntp, host, port, isStatic, addr := 120, 10, 21600, "192.168.1.187", 4242, false, ["", "", "", ""];
      for i := 0 to F_COUNT
        modifies overridden
        invariant forall f: Field :: f < i ==> !overridden[f]
      {
        overridden[i] := false;
      }
      assert Over() == {};
    }

    method Mark(f: Field)
      requires Valid()
      modifies overridden
      ensures V() == old(V()).(over := old(V()).over + {f})
    {
      overridden[f] := true;
      assert Over() == old(Over()) + {f};
    }

    /** One recognised key of the file. */
    method TakeField(f: Field, t: string)
      requires Valid()
      modifies this`announce, this`tx, this`ntp, this`host, this`port, this`isStatic, this`addr, overridden
      ensures V() == SetText(old(V()), f, t)
    {
      hide Strtoul, StrtolByte, CopyStr;
      if f == F_ANNOUNCE {
        announce := Strtoul(t);
      } else if f == F_TXPOWER {
        tx := StrtolByte(t);
      } else if f == F_NTP {
        ntp := Strtoul(t);
      } else if f == F_TCP_HOST {
        host := CopyStr(t);
      } else if f == F_TCP_PORT {
        port := Strtoul(t) % 0x1_0000;
      } else if f == F_IP_MODE {
        isStatic := t == "static";
      } else {
        addr := addr[f - F_IP := CopyStr(t)];
      }
      Mark(f);
    }

    /** Line by line over the values already there. */
    method Load() returns (any: bool)
      requires Valid() && V() == DEFAULTS
      modifies this`announce, this`tx, this`ntp, this`host, this`port, this`isStatic, this`addr, this`trial, overridden
      ensures V() == LoadFile(file)
    {
      hide SetText, ReadLine, FieldOf, Strtoul, IndexOfEquals;
      any := false;
      if file == None {
        return;
      }
      var rest := file.value;
      while rest != ""
        invariant Valid() && TakeLines(V(), rest) == TakeLines(DEFAULTS, file.value)
        decreases |rest|
      {
        var (line, tail) := ReadLine(rest, LINE_MAX);
        rest := tail;
        var eq := IndexOfEquals(line);
        if eq < |line| {
          var key, t := line[..eq], line[eq + 1..];
          var f := FieldOf(key, 0);
          if f < F_COUNT {
            TakeField(f, t);
            any := true;
          } else if key == TRIAL_KEY {
            trial := OnTrial(Strtoul(t));
          } else if key == TRIAL_REVERTED_KEY {
            trial := Reverted;
          }
        }
      }
      if isStatic && addr[0] == "" {
        isStatic := false;
      }
    }

    method PrintField(out: string, f: Field, text: string) returns (r: string)
      requires Valid() && text == Text(V(), f)
      ensures r + PrintFrom(V(), f + 1) == out + PrintFrom(V(), f)
    {
      hide Text, PrintFrom;
      PrintOne(out, V(), f);
      r := if overridden[f] then out + (KEYS[f] + "=" + text + "\n") else out;
      assert r == out + FieldLine(V(), f);
    }

    method PrintPlain() returns (out: string)
      requires Valid()
      ensures out + PrintFrom(V(), F_IP_MODE) == Print(V())
    {
      hide PrintFrom, PrintNat, PrintInt;
      out := PrintField("", F_ANNOUNCE, PrintNat(announce));
      out := PrintField(out, F_TXPOWER, PrintInt(tx));
      out := PrintField(out, F_NTP, PrintNat(ntp));
      out := PrintField(out, F_TCP_HOST, host);
      out := PrintField(out, F_TCP_PORT, PrintNat(port));
      assert "" + PrintFrom(V(), 0) == PrintFrom(V(), 0);
    }

    method PrintAddresses(before: string) returns (out: string)
      requires Valid()
      ensures out + PrintFrom(V(), F_COUNT) == before + PrintFrom(V(), F_IP_MODE)
    {
      hide PrintFrom, PrintNat, PrintInt;
      out := PrintField(before, F_IP_MODE, if isStatic then "static" else "dhcp");
      out := PrintField(out, 6, addr[0]);
      out := PrintField(out, 7, addr[1]);
      out := PrintField(out, 8, addr[2]);
      out := PrintField(out, 9, addr[3]);
    }

    /** Writes the file, when it can be opened. */
    method Save(writable: bool) returns (ok: bool)
      requires Valid()
      modifies this`file
      ensures ok == writable && file == if writable then Some(Print(V())) else old(file)
    {
      if !writable {
        return false;
      }
      hide PrintFrom, PrintNat, FieldLine;
      var out := PrintPlain();
      out := PrintAddresses(out);
      var last := match trial
        case OnTrial(boots) => TRIAL_KEY + "=" + PrintNat(boots) + "\n"
        case Reverted => TRIAL_REVERTED_KEY + "=" + "1" + "\n"
        case NoTrial => "";
      PrintEnd(V());
      assert last == TrialLine(V());
      out := out + last;
      file := Some(out);
      return true;
    }

    /** `applied` is the power the radio is told, if it is up. */
    method Reset(removes: bool, radioUp: bool) returns (applied: Option<int>)
      requires Valid() && up
      modifies this, overridden
      ensures State() == DropOverrides(old(State()), removes)
      ensures applied == if radioUp then Some(DEFAULTS.tx) else None
    {
      SetDefaults();
      trial, thisBoot := NoTrial, false;
      if removes {
        file := None;
      }
      applied := if radioUp then Some(tx) else None;
    }

    method RevertIpToDhcp()
      requires Valid()
      modifies this`isStatic, this`trial, this`thisBoot, overridden
      ensures V() == RevertToDhcp(old(V())) && !thisBoot
    {
      isStatic := false;
      Mark(F_IP_MODE);
      trial, thisBoot := Reverted, false;
    }

    /** At boot. */
    method Begin(writable: bool)
      requires Valid() && !up
      modifies this, overridden
      ensures State() == Boot(old(State()), writable)
    {
      hide LoadFile, Print;
      trial, thisBoot, up := NoTrial, false, true;
      SetDefaults();
      var _ := Load();
      if trial.OnTrial? {
        if !isStatic || addr[0] == "" {
          trial := NoTrial;
          var _ := Save(writable);
        } else {
          trial := OnTrial(trial.boots + 1);
          if trial.boots > IP_TRIAL_BOOTS {
            RevertIpToDhcp();
            var _ := Save(writable);
            up := false;
          } else {
            thisBoot := true;
            var _ := Save(writable);
          }
        }
      }
    }

    method Confirm(writable: bool)
      requires Valid() && up
      modifies this
      ensures State() == ConfirmIp(old(State()), writable)
    {
      hide Print;
      if !trial.OnTrial? || !thisBoot {
        return;
      }
      trial, thisBoot := NoTrial, false;
      var _ := Save(writable);
    }

    method Timeout(writable: bool)
      requires Valid() && up
      modifies this, overridden
      ensures State() == TimeoutIpTrial(old(State()), writable)
    {
      hide Print;
      if !trial.OnTrial? || !thisBoot {
        return;
      }
      RevertIpToDhcp();
      var _ := Save(writable);
      up := false;
    }

    /** The validating pass over a body: nothing is changed, and the proposal is the fold of the pairs. */
    method Stage(env: Env, pairs: seq<Pair>) returns (d: Option<Draft>)
      requires Valid()
      ensures d == StageAll(env, DraftOf(V()), pairs)
    {
      hide FieldOf, Acceptable;
      var newAnnounce, newTx, newNtp, newPort, newHost := announce, tx, ntp, port, host;
      var newStatic, newAddr := isStatic, addr;
      var named: set<Field> := {};
      var i: nat := 0;
      while i < |pairs|
        invariant i <= |pairs|
        invariant StageAll(env, Draft(newAnnounce, newTx, newNtp, newHost, newPort, newStatic, newAddr, named), pairs[i..])
                  == StageAll(env, DraftOf(V()), pairs)
      {
        ghost var was := Draft(newAnnounce, newTx, newNtp, newHost, newPort, newStatic, newAddr, named);
        var f, j := FieldOf(pairs[i].key, 0), pairs[i].value;
        if f == F_COUNT || !Acceptable(env, f, j) {
          return None;
        }
        AcceptableHasText(env, pairs[i]);
        if f == F_ANNOUNCE {
          newAnnounce := j.u32;
        } else if f == F_TXPOWER {
          newTx := j.i32;
        } else if f == F_NTP {
          newNtp := j.u32;
        } else if f == F_TCP_HOST {
          newHost := j.text.value;
        } else if f == F_TCP_PORT {
          newPort := j.u32;
        } else if f == F_IP_MODE {
          newStatic := j.text == Some("static");
        } else {
          newAddr := newAddr[f - F_IP := j.text.value];
        }
        named := named + {f};
        assert Draft(newAnnounce, newTx, newNtp, newHost, newPort, newStatic, newAddr, named) == Propose(was, f, j);
        assert pairs[i..][1..] == pairs[i + 1..];
        i := i + 1;
      }
      assert pairs[i..] == [];
      return Some(Draft(newAnnounce, newTx, newNtp, newHost, newPort, newStatic, newAddr, named));
    }

    /** The four address fields; says whether one of them changed. */
    method CommitAddresses(d: Draft) returns (addrChanged: bool)
      requires Valid() && forall i :: 0 <= i < 4 && F_IP + i !in d.named ==> d.addr[i] == addr[i]
      modifies this`addr, overridden
      ensures addr == d.addr && addrChanged == (old(addr) != d.addr)
      ensures forall f: Field :: overridden[f] == if f >= F_IP && f in d.named then d.addr[f - F_IP] != "" else old(overridden[f])
    {
      addrChanged := false;
      for i: nat := 0 to 4
        invariant forall k :: 0 <= k < 4 ==> addr[k] == if k < i then d.addr[k] else old(addr)[k]
        invariant addrChanged == exists k :: 0 <= k < i && old(addr)[k] != d.addr[k]
        invariant forall f: Field :: overridden[f]
                    == if F_IP <= f < F_IP + i && f in d.named then d.addr[f - F_IP] != "" else old(overridden[f])
      {
        if F_IP + i in d.named {
          if addr[i] != d.addr[i] {
            addrChanged := true;
          }
          addr := addr[i := d.addr[i]];
          overridden[F_IP + i] := d.addr[i] != "";
        }
      }
    }

    /** The plain settings a request names. */
    method CommitPlain(d: Draft)
      requires Valid()
      requires forall f: Field :: f < F_IP_MODE && f !in d.named ==>
                (f == F_ANNOUNCE ==> d.announce == announce) && (f == F_TXPOWER ==> d.tx == tx) && (f == F_NTP ==> d.ntp == ntp)
                && (f == F_TCP_HOST ==> d.host == host) && (f == F_TCP_PORT ==> d.port == port)
      modifies this`announce, this`tx, this`ntp, this`host, this`port, overridden
      ensures announce == d.announce && tx == d.tx && ntp == d.ntp && host == d.host && port == d.port
      ensures forall f: Field :: overridden[f] == if f < F_IP_MODE && f in d.named then true else old(overridden[f])
    {
      if F_TXPOWER in d.named {
        tx, overridden[F_TXPOWER] := d.tx, true;
      }
      if F_ANNOUNCE in d.named {
        announce, overridden[F_ANNOUNCE] := d.announce, true;
      }
      if F_NTP in d.named {
        ntp, overridden[F_NTP] := d.ntp, true;
      }
      if F_TCP_HOST in d.named {
        host, overridden[F_TCP_HOST] := d.host, true;
      }
      if F_TCP_PORT in d.named {
        port, overridden[F_TCP_PORT] := d.port, true;
      }
    }

    /** Everything validated: takes the named fields over and puts a changed static address on trial. */
    method Commit(d: Draft)
      requires Valid() && DraftFrom(V(), d)
      modifies this`announce, this`tx, this`ntp, this`host, this`port, this`isStatic, this`addr, this`trial, this`thisBoot, overridden
      ensures V() == Committed(old(V()), d) && thisBoot == (old(thisBoot) && !AddressChanges(old(V()), d))
    {
      CommitPlain(d);
      var addrChanged := CommitAddresses(d);
      if F_IP_MODE in d.named {
        if d.isStatic != isStatic {
          addrChanged := true;
        }
        isStatic, overridden[F_IP_MODE] := d.isStatic, true;
      }
      if addrChanged {
        trial := if isStatic then OnTrial(0) else NoTrial;
        thisBoot := false;
      }
      assert Over() == NewOver(old(V()), d);
    }

    /** A PUT of `doc` (None: the body is no JSON object). */
    method ApplyJson(env: Env, doc: Option<seq<Pair>>, writable: bool) returns (ok: bool)
      requires Valid() && up
      modifies this, overridden
      ensures doc == None ==> !ok && State() == old(State())
      ensures doc.Some? ==> (State(), ok) == Put(env, old(State()), doc.value, writable)
    {
      hide StageAll, Committed, Print, DraftFrom, AddressChanges;
      if doc == None {
        return false;
      }
      var staged := Stage(env, doc.value);
      if staged == None || doc.value == [] {
        return false;
      }
      var d := staged.value;
      if d.isStatic && d.addr[0] == "" {
        return false;
      }
      if F_TXPOWER in d.named && d.tx != tx && env.applyTxPower.Some? && !env.applyTxPower.value(d.tx) {
        return false;
      }
      StagedFrom(env, V(), doc.value);
      Commit(d);
      ok := Save(writable);
    }
  }

  lemma PrintEnd(v: Values)
    ensures PrintFrom(v, F_COUNT) == TrialLine(v)
  {
  }

  lemma StagedFrom(env: Env, v: Values, ps: seq<Pair>)
    ensures var d := StageAll(env, DraftOf(v), ps); d.Some? ==> DraftFrom(v, d.value)
  {
    StageFrom(env, v, DraftOf(v), ps);
  }

  lemma {:induction false} StageFrom(env: Env, v: Values, d: Draft, ps: seq<Pair>)
    requires DraftFrom(v, d)
    ensures var r := StageAll(env, d, ps); r.Some? ==> DraftFrom(v, r.value)
    decreases |ps|
  {
    if ps == [] {
    } else {
      hide FieldOf, DraftFrom, Propose, Acceptable;
      var f, j := FieldOf(ps[0].key, 0), ps[0].value;
      if f < F_COUNT && Acceptable(env, f, j) {
        AcceptableHasText(env, ps[0]);
        AcceptedIsNamed(v, d, f, j);
        StageFrom(env, v, Propose(d, f, j), ps[1..]);
      }
    }
  }
}
