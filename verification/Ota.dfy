/** Over-the-air update with a trial boot: two image files, a staged command, a boot counter that
    survives resets, and a machine that may lose power at any moment. */
module Ota {
  import opened Bytes
  import opened Wrappers

  const TRIAL_BOOTS: nat := 3

  type Image = seq<byte>

  datatype State = NoUpdate | Pending | Confirmed | RolledBack | Failed

  /** What the state file says. */
  datatype Record = Record(state: State, boots: nat)

  datatype File = ImageFile | PrevFile

  /** Everything that survives a reset: the two image files, the state file, the OTA stub's pending
      command and the image in flash. */
  datatype Disk = Disk(image: Option<Image>, prev: Option<Image>, record: Option<Record>, command: Option<File>, running: Image)

  /** The fields of the firmware object. */
  datatype Ram = Ram(state: State, boots: nat, trial: bool)

  /** A machine: its disk, its RAM, and whether it is up. */
  datatype Machine = Machine(disk: Disk, ram: Ram, up: bool)

  const OFF := Ram(NoUpdate, 0, false)

  // ------------------------------------------------------------------ boot

  /** The stub copies the named file into flash and forgets the command. */
  function Stub(d: Disk): Disk {
    match d.command
    case None => d
    case Some(f) =>
      var file := if f == ImageFile then d.image else d.prev;
      d.(command := None, running := if file.Some? then file.value else d.running)
  }

  function Load(d: Disk): Ram {
    match d.record
    case None => OFF
    case Some(r) => Ram(r.state, r.boots, false)
  }

  function Save(d: Disk, r: Ram): Disk {
    d.(record := Some(Record(r.state, r.boots)))
  }

  function Down(d: Disk): Machine {
    Machine(d, OFF, false)
  }

  /** Stage the previous image and reboot into it, or give up when there is none or it cannot be
      staged. `cut` is a power loss right after the staging, before the state is saved. */
  function Rollback(d: Disk, r: Ram, stages: bool, cut: bool): Machine {
    if d.prev.Some? && stages then
      var staged := d.(command := Some(PrevFile));
      if cut then Down(staged) else Down(Save(staged, r.(state := RolledBack)))
    else if cut then Down(d)
    else Machine(Save(d, r.(state := Failed)), r.(state := Failed), true)
  }

  /** A boot up to the end of `begin`; `cut` is a power loss before its state is saved. */
  function Boot(d0: Disk, stages: bool, cut: bool): Machine {
    var d := Stub(d0);
    var r := Load(d);
    if r.state != Pending then Machine(d, r, true)
    else
      var counted := r.(boots := r.boots + 1);
      if counted.boots > TRIAL_BOOTS then Rollback(d, counted, stages, cut)
      else if cut then Down(d)
      else Machine(Save(d, counted), counted.(trial := true), true)
  }

  /** Only the boot that is on trial confirms. `cut` loses power before the fallback is removed. */
  function Confirm(m: Machine, cut: bool): Machine {
    if !m.up || m.ram.state != Pending || !m.ram.trial then m
    else
      var r := Ram(Confirmed, 0, false);
      var d := Save(m.disk, r);
      if cut then Down(d) else Machine(d.(prev := None), r, true)
  }

  /** The trial timeout and the reboot into a staged image are both a reset. */
  function Reset(m: Machine): Machine {
    Down(m.disk)
  }

  /** How the body of an upload ended: received and accepted; refused, be it by a check, a timeout, a
      lost client or a failed write, which removes the file; or cut off by a power loss, which leaves
      whatever part of the file had been committed. */
  datatype Body = Accepted | Refused | CutOff(part: Option<Image>)

  /** An upload past the header checks: `keepRoom` and `room` answer the two free-space questions,
      `staged` says whether the command was written. */
  datatype Attempt = Attempt(image: Image, keepRoom: bool, room: bool, body: Body, staged: bool)

  function MoveAside(d: Disk, s: State): Disk {
    if d.image.None? then d
    else if s == RolledBack then d.(image := None)
    else d.(image := None, prev := d.image)
  }

  predicate Succeeds(a: Attempt) {
    (a.keepRoom || a.room) && a.body.Accepted? && a.staged
  }

  function Upload(m: Machine, a: Attempt): Machine {
    if !m.up then m
    else
      var d1 := MoveAside(m.disk, m.ram.state);
      var d2 := if a.keepRoom then d1 else d1.(prev := None);
      if !(a.keepRoom || a.room) then Machine(d2, m.ram, true)
      else if a.body.CutOff? then Down(d2.(image := a.body.part))
      else if !Succeeds(a) then Machine(d2, m.ram, true)
      else
        var r := Ram(Pending, 0, false);
        Machine(Save(d2.(image := Some(a.image), command := Some(ImageFile)), r), r, true)
  }

  // ------------------------------------------------------------------ the streamed body

  const BUFFER: nat := 1024

  /** What the board brings to the checks: the digest, whether one of the boot keys signed a digest,
      and the size of the area the image is written to. */
  datatype Checks = Checks(digest: seq<byte> -> seq<byte>, signed: (seq<byte>, seq<byte>) -> bool, sketchArea: nat)

  /** One turn of the loop: how many octets wait on the socket, how many of those asked for the read
      hands over, whether the client is still there, whether the idle time is up, and whether the
      file takes what was read. */
  datatype Poll = Poll(available: nat, given: nat, connected: bool, expired: bool, writes: bool)

  /** An upload's body: whether the file can be created, the announced size, what the client sends, the
      turns of the loop (the power is lost after the last), the declared digest, the signature if one
      came, and the part of the file a power loss would leave. */
  datatype Transfer = Transfer(creates: bool, size: nat, sent: seq<byte>, polls: seq<Poll>, declared: seq<byte>,
                               signature: Option<seq<byte>>, part: Option<Image>)

  function Min(a: nat, b: nat): nat {
    if a < b then a else b
  }

  /** The octets one turn reads. */
  function Taken(t: Transfer, p: Poll, got: nat): nat
    requires got < t.size && got <= |t.sent|
  {
    Min(p.given, Min(Min(p.available, |t.sent| - got), Min(t.size - got, BUFFER)))
  }

  datatype Streamed = Complete | Broken | Off

  function Stream(t: Transfer, i: nat, got: nat): Streamed
    requires i <= |t.polls| && got <= |t.sent|
    decreases |t.polls| - i
  {
    if got >= t.size then Complete
    else if i == |t.polls| then Off
    else
      var p := t.polls[i];
      if p.available == 0 then
        if !p.connected || p.expired then Broken else Stream(t, i + 1, got)
      else
        var r := Taken(t, p, got);
        if r == 0 then Stream(t, i + 1, got)
        else if !p.writes then Broken
        else Stream(t, i + 1, got + r)
  }

  /** The gzip trailer: the last four octets, least significant first (zeros where there are fewer). */
  function ImageSize(body: seq<byte>): nat {
    var tail := (Zeros(4) + body)[|body|..];
    U16(tail[1], tail[0]) + 0x1_0000 * U16(tail[3], tail[2])
  }

  /** Everything the body itself is checked for. */
  predicate Acceptable(c: Checks, t: Transfer, body: seq<byte>) {
    && c.digest(body) == t.declared
    && (t.signature.Some? ==> c.signed(c.digest(body), t.signature.value))
    && |body| >= 2 && body[0] == 0x1F && body[1] == 0x8B
    && 0 < ImageSize(body) <= c.sketchArea
  }

  /** How the body of an upload ends. */
  function BodyOf(c: Checks, t: Transfer): Body {
    if !t.creates then Refused
    else
      match Stream(t, 0, 0)
      case Off => CutOff(t.part)
      case Broken => Refused
      case Complete => if t.size <= |t.sent| && Acceptable(c, t, t.sent[..t.size]) then Accepted else Refused
  }

  /** A stream is complete only once the announced size has been sent. */
  lemma {:induction false} CompleteIsWhole(t: Transfer, i: nat, got: nat)
    requires i <= |t.polls| && got <= |t.sent|
    ensures Stream(t, i, got) == Complete ==> t.size <= |t.sent|
    decreases |t.polls| - i
  {
    if got < t.size && i < |t.polls| {
      CompleteIsWhole(t, i + 1, got);
      CompleteIsWhole(t, i + 1, got + Taken(t, t.polls[i], got));
    }
  }

  /** How much has arrived after `k` turns. */
  function Got(t: Transfer, k: nat): (g: nat)
    requires k <= |t.polls|
    ensures g <= |t.sent|
  {
    if k == 0 then 0
    else
      var g := Got(t, k - 1);
      if g >= t.size || t.polls[k - 1].available == 0 then g else g + Taken(t, t.polls[k - 1], g)
  }

  /** Turn `k` is still needed, and finds the client gone, the idle time up, or a file that does not
      take what came. */
  predicate Breaks(t: Transfer, k: nat)
    requires k < |t.polls|
  {
    var p := t.polls[k];
    Got(t, k) < t.size
    && if p.available == 0 then !p.connected || p.expired else Taken(t, p, Got(t, k)) > 0 && !p.writes
  }

  lemma {:induction false} StreamEnds(t: Transfer, i: nat)
    requires i <= |t.polls|
    ensures Stream(t, i, Got(t, i))
            == if exists j :: i <= j < |t.polls| && Breaks(t, j) then Broken
               else if Got(t, |t.polls|) >= t.size then Complete else Off
    decreases |t.polls| - i
  {
    if i < |t.polls| {
      StreamEnds(t, i + 1);
      if Got(t, i) >= t.size {
        GotStays(t, i, |t.polls|);
        forall j | i <= j < |t.polls|
          ensures !Breaks(t, j)
        {
          GotStays(t, i, j);
        }
      } else if !Breaks(t, i) {
        StreamStep(t, i);
        assert forall j :: i <= j < |t.polls| && Breaks(t, j) ==> i + 1 <= j;
      }
    }
  }

  lemma StreamStep(t: Transfer, i: nat)
    requires i < |t.polls| && Got(t, i) < t.size && !Breaks(t, i)
    ensures Stream(t, i, Got(t, i)) == Stream(t, i + 1, Got(t, i + 1))
  {
    hide Taken;
    assert Got(t, i + 1) == if t.polls[i].available == 0 then Got(t, i) else Got(t, i) + Taken(t, t.polls[i], Got(t, i));
  }

  lemma {:induction false} GotStays(t: Transfer, i: nat, k: nat)
    requires i <= k <= |t.polls| && Got(t, i) >= t.size
    ensures Got(t, k) == Got(t, i)
    decreases k
  {
    if i < k {
      GotStays(t, i, k - 1);
    }
  }

  /** Two streams of the same octets that both complete are judged alike, however they were cut. */
  lemma ChunkingIrrelevant(c: Checks, t: Transfer, polls: seq<Poll>)
    ensures var u := t.(polls := polls);
            t.creates && Stream(t, 0, 0) == Complete && Stream(u, 0, 0) == Complete ==> BodyOf(c, t) == BodyOf(c, u)
  {
    hide Stream, ImageSize;
  }

  /** An upload is accepted exactly when the file can be created, no turn breaks, the announced size
      arrives, and those octets pass every check; it is cut off exactly when nothing broke and the power
      went before all had arrived; and every other end is a refusal. */
  lemma AcceptedIff(c: Checks, t: Transfer)
    ensures var whole := (forall j :: 0 <= j < |t.polls| ==> !Breaks(t, j)) && Got(t, |t.polls|) >= t.size;
            && (BodyOf(c, t) == Accepted <==> t.creates && whole && t.size <= |t.sent| && Acceptable(c, t, t.sent[..t.size]))
            && (BodyOf(c, t).CutOff? <==>
                  t.creates && (forall j :: 0 <= j < |t.polls| ==> !Breaks(t, j)) && Got(t, |t.polls|) < t.size)
  {
    hide Stream, Acceptable, Breaks, Got;
    StreamEnds(t, 0);
    GotNothing(t);
  }

  /** What an accepted body is, check by check. The file was created; as long as octets were missing the
      client was there or something was waiting, the idle time was not up, and the file took what came;
      the announced size arrived; its digest is the declared one; if there was a signature, one of the
      keys made it over that digest; it starts with the two octets of gzip; and its last four octets are a
      size that is not zero and fits. A body of which all this holds is accepted. */
  lemma AcceptedMeans(c: Checks, t: Transfer)
    ensures BodyOf(c, t) == Accepted <==>
            && t.creates && t.size <= |t.sent| && Got(t, |t.polls|) >= t.size
            && (forall j :: 0 <= j < |t.polls| && Got(t, j) < t.size ==>
                  && (t.polls[j].available == 0 ==> t.polls[j].connected && !t.polls[j].expired)
                  && (t.polls[j].available > 0 && Taken(t, t.polls[j], Got(t, j)) > 0 ==> t.polls[j].writes))
            && var b := t.sent[..t.size];
               && c.digest(b) == t.declared
               && (t.signature.Some? ==> c.signed(c.digest(b), t.signature.value))
               && |b| >= 2 && b[0] == 0x1F && b[1] == 0x8B
               && var last := if |b| >= 4 then b[|b| - 4..] else Zeros(4 - |b|) + b;
                  0 < last[0] as int + 0x100 * last[1] as int + 0x1_0000 * last[2] as int + 0x100_0000 * last[3] as int <= c.sketchArea
  {
    AcceptedIff(c, t);
    hide Stream, BodyOf, Got, Taken, ImageSize;
    if t.size <= |t.sent| {
      TrailerIs(t.sent[..t.size]);
    }
    forall j | 0 <= j < |t.polls|
      ensures Breaks(t, j) <==>
              !(Got(t, j) < t.size ==>
                  && (t.polls[j].available == 0 ==> t.polls[j].connected && !t.polls[j].expired)
                  && (t.polls[j].available > 0 && Taken(t, t.polls[j], Got(t, j)) > 0 ==> t.polls[j].writes))
    {
    }
  }

  lemma TrailerIs(b: seq<byte>)
    ensures var last := if |b| >= 4 then b[|b| - 4..] else Zeros(4 - |b|) + b;
            ImageSize(b) == last[0] as int + 0x100 * last[1] as int + 0x1_0000 * last[2] as int + 0x100_0000 * last[3] as int
  {
    var last := if |b| >= 4 then b[|b| - 4..] else Zeros(4 - |b|) + b;
    assert (Zeros(4) + b)[|b|..] == last;
  }

  /** An upload whose body is not accepted leaves the running image, the state file and the stub's command
      as they were, and no image file, unless a power loss cut it off. */
  lemma RefusedLeavesNothing(m: Machine, a: Attempt)
    requires m.up && a.body != Accepted
    ensures var after := Upload(m, a);
            && after.disk.running == m.disk.running && after.disk.record == m.disk.record && after.disk.command == m.disk.command
            && (after.up ==> after.disk.image == None && after.ram == m.ram)
            && (!after.up ==> a.body.CutOff? && after.disk.image == a.body.part)
  {
  }

  /** What that means for `HandleUpload`: a body with another digest than the declared one, or with a signature
      that no boot key made over its digest, changes nothing that a later boot reads, and if the machine
      is still up there is no image file. */
  lemma ForgedLeavesNothing(m: Machine, c: Checks, t: Transfer, keepRoom: bool, room: bool, staged: bool)
    requires m.up
    requires t.size <= |t.sent| ==>
               var digest := c.digest(t.sent[..t.size]);
               digest != t.declared || (t.signature.Some? && !c.signed(digest, t.signature.value))
    ensures var after := Upload(m, AttemptOf(c, t, keepRoom, room, staged));
            && after.disk.running == m.disk.running && after.disk.record == m.disk.record && after.disk.command == m.disk.command
            && (after.up ==> after.disk.image == None && after.ram == m.ram)
  {
    hide BodyOf, Upload, Got, Taken;
    AcceptedMeans(c, t);
    RefusedLeavesNothing(m, AttemptOf(c, t, keepRoom, room, staged));
  }

  /** A confirmation ends the update for good: nothing to fall back to is left, and nothing to count. */
  lemma ConfirmEnds(m: Machine)
    ensures var after := Confirm(m, false);
            if m.up && m.ram.state == Pending && m.ram.trial
            then after.disk == m.disk.(prev := None, record := Some(Record(Confirmed, 0))) && after.up && !after.ram.trial
            else after == m
  {
  }

  lemma GotNothing(t: Transfer)
    ensures Got(t, 0) == 0
  {
  }

  /** What the captured octets are octets of, also while it is not known that all will come. */
  ghost function Padded(t: Transfer): (b: seq<byte>)
    ensures |b| == t.size
  {
    (t.sent + Zeros(t.size))[..t.size]
  }

  lemma PaddedSlice(t: Transfer, a: nat, b: nat)
    requires a <= b <= |t.sent| && b <= t.size
    ensures Padded(t)[a..b] == t.sent[a..b]
  {
    var all := t.sent + Zeros(t.size);
    assert all[..t.size][a..b] == all[a..b];
  }

  function AttemptOf(c: Checks, t: Transfer, keepRoom: bool, room: bool, staged: bool): Attempt {
    Attempt(if t.size <= |t.sent| then t.sent[..t.size] else t.sent, keepRoom, room, BodyOf(c, t), staged)
  }

  /** Head and tail hold what they should of the first `n` octets of `body`, and zeros elsewhere. */
  ghost predicate Captured(head: array<byte>, tail: array<byte>, body: seq<byte>, n: nat)
    reads head, tail
  {
    && head.Length == 2 && tail.Length == 4 && n <= |body|
    && (forall i :: 0 <= i < 2 ==> head[i] == if i < n then body[i] else 0)
    && (forall i :: 0 <= i < 4 ==> tail[i] == if 4 <= |body| + i < n + 4 then body[|body| + i - 4] else 0)
  }

  /** One piece of the body, octet by octet. */
  method CaptureChunk(buf: seq<byte>, got: nat, size: nat, head: array<byte>, tail: array<byte>, ghost body: seq<byte>)
    requires |body| == size && got + |buf| <= size && body[got..got + |buf|] == buf
    requires head != tail && Captured(head, tail, body, got)
    modifies head, tail
    ensures Captured(head, tail, body, got + |buf|)
  {
    for i := 0 to |buf|
      invariant Captured(head, tail, body, got + i)
    {
      var pos := got + i;
      assert body[got..got + |buf|][i] == body[pos];
      if pos < 2 {
        head[pos] := buf[i];
      }
      if pos + 4 >= size {
        tail[pos + 4 - size] := buf[i];
      }
    }
  }

  lemma CapturedNothing(head: array<byte>, tail: array<byte>, body: seq<byte>)
    requires head.Length == 2 && tail.Length == 4 && head[..] == [0, 0] && tail[..] == [0, 0, 0, 0]
    ensures Captured(head, tail, body, 0)
  {
    assert forall i :: 0 <= i < 2 ==> head[i] == head[..][i];
    assert forall i :: 0 <= i < 4 ==> tail[i] == tail[..][i];
  }

  /** A whole body captured: its first two octets and its trailer. */
  lemma CapturedWhole(head: array<byte>, tail: array<byte>, body: seq<byte>)
    requires Captured(head, tail, body, |body|)
    ensures head[0] == 0x1F && head[1] == 0x8B <==> |body| >= 2 && body[0] == 0x1F && body[1] == 0x8B
    ensures U16(tail[1], tail[0]) + 0x1_0000 * U16(tail[3], tail[2]) == ImageSize(body)
  {
    var all := Zeros(4) + body;
    assert forall i :: 0 <= i < 4 ==> all[|body|..][i] == all[|body| + i];
  }

  // ------------------------------------------------------------------ the firmware object

  class Updater {
    var disk: Disk
    var state: State
    var boots: nat
    var trialThisBoot: bool
    var up: bool

    constructor (disk: Disk)
      ensures this.disk == disk && Now() == Down(disk)
    {
      this.disk, state, boots, trialThisBoot, up := disk, NoUpdate, 0, false, false;
    }

    function Now(): Machine
      reads this
    {
      Machine(disk, Ram(state, boots, trialThisBoot), up)
    }

    method LosePower()
      modifies this
      ensures Now() == Down(old(disk))
    {
      state, boots, trialThisBoot, up := NoUpdate, 0, false, false;
    }

    method SaveState()
      modifies this`disk
      ensures disk == Save(old(disk), Ram(state, boots, trialThisBoot))
    {
      disk := disk.(record := Some(Record(state, boots)));
    }

    /** Power-on: the stub, then `begin`. */
    method Begin(stages: bool, cut: bool)
      modifies this
      ensures Now() == Boot(old(disk), stages, cut)
    {
      disk := Stub(disk);
      state, boots, trialThisBoot, up := NoUpdate, 0, false, true;
      if disk.record.Some? {
        state, boots := disk.record.value.state, disk.record.value.boots;
      }
      if state == Pending {
        boots := boots + 1;
        if boots > TRIAL_BOOTS {
          RollbackNow(stages, cut);
          return;
        }
        if cut {
          LosePower();
          return;
        }
        SaveState();
        trialThisBoot := true;
      }
    }

    method RollbackNow(stages: bool, cut: bool)
      requires up && !trialThisBoot
      modifies this
      ensures Now() == Rollback(old(disk), Ram(old(state), old(boots), false), stages, cut)
    {
      if disk.prev.Some? && stages {
        disk := disk.(command := Some(PrevFile));
        if cut {
          LosePower();
          return;
        }
        state := RolledBack;
        SaveState();
        LosePower();
        return;
      }
      if cut {
        LosePower();
        return;
      }
      state := Failed;
      SaveState();
    }

    method ConfirmTrial(cut: bool)
      requires up
      modifies this
      ensures Now() == Confirm(old(Now()), cut)
    {
      if state != Pending || !trialThisBoot {
        return;
      }
      state, boots, trialThisBoot := Confirmed, 0, false;
      SaveState();
      if cut {
        LosePower();
        return;
      }
      disk := disk.(prev := None);
    }

    /** The body, turn by turn, into the image file, and the checks of what came. `alive` is false when
        the power was lost on the way. */
    method ReceiveBody(c: Checks, t: Transfer) returns (ok: bool, alive: bool)
      requires disk.image == None
      modifies this`disk
      ensures ok == (BodyOf(c, t) == Accepted) && alive == !BodyOf(c, t).CutOff?
      ensures disk == old(disk).(image := match BodyOf(c, t) case Accepted => Some(t.sent[..t.size]) case Refused => None case CutOff(part) => part)
    {
      hide Acceptable, ImageSize, Captured, Breaks, Got;
      alive := true;
      if !t.creates {
        return false, true;
      }
      disk := disk.(image := Some([]));
      var got: nat, i: nat := 0, 0;
      var hashed: seq<byte> := [];
      var head, tail := new byte[2](_ => 0), new byte[4](_ => 0);
      ghost var body := Padded(t);
      CapturedNothing(head, tail, body);
      while got < t.size
        invariant i <= |t.polls| && got <= |t.sent| && got <= t.size
        invariant Stream(t, i, got) == Stream(t, 0, 0)
        invariant hashed == t.sent[..got] && disk == old(disk).(image := Some(hashed))
        invariant Captured(head, tail, body, got)
        decreases |t.polls| - i
      {
        if i == |t.polls| {
          disk := disk.(image := t.part);
          return false, false;
        }
        var p := t.polls[i];
        i := i + 1;
        if p.available == 0 {
          if !p.connected || p.expired {
            disk := disk.(image := None);
            return false, true;
          }
          continue;
        }
        var r := Taken(t, p, got);
        if r == 0 {
          continue;
        }
        var buf := t.sent[got..got + r];
        PaddedSlice(t, got, got + r);
        CaptureChunk(buf, got, t.size, head, tail, body);
        if !p.writes {
          disk := disk.(image := None);
          return false, true;
        }
        disk := disk.(image := Some(hashed + buf));
        hashed := hashed + buf;
        got := got + r;
      }
      PaddedSlice(t, 0, t.size);
      assert body == hashed == t.sent[..t.size];
      CapturedWhole(head, tail, body);
      ok := ChecksPass(c, t, hashed, head, tail);
      if !ok {
        disk := disk.(image := None);
      }
    }

    /** Digest, signature, gzip magic and inflated size, in this order. */
    method ChecksPass(c: Checks, t: Transfer, body: seq<byte>, head: array<byte>, tail: array<byte>) returns (ok: bool)
      requires Captured(head, tail, body, |body|)
      ensures ok == Acceptable(c, t, body)
    {
      CapturedWhole(head, tail, body);
      var digest := c.digest(body);
      if digest != t.declared {
        return false;
      }
      if t.signature.Some? && !c.signed(digest, t.signature.value) {
        return false;
      }
      if head[0] != 0x1F || head[1] != 0x8B {
        return false;
      }
      var imageSize := U16(tail[1], tail[0]) + 0x1_0000 * U16(tail[3], tail[2]);
      if imageSize == 0 || imageSize > c.sketchArea {
        return false;
      }
      return true;
    }

    /** An upload past the header checks: the file moves, the body, the staging. */
    method HandleUpload(c: Checks, t: Transfer, keepRoom: bool, room: bool, staged: bool)
      requires up
      modifies this
      ensures Now() == Upload(old(Now()), AttemptOf(c, t, keepRoom, room, staged))
    {
      hide BodyOf, Acceptable;
      AcceptedIff(c, t);
      if disk.image.Some? {
        if state == RolledBack {
          disk := disk.(image := None);
        } else {
          disk := disk.(prev := None);
          disk := disk.(prev := disk.image, image := None);
        }
      }
      if !keepRoom && disk.prev.Some? {
        disk := disk.(prev := None);
      }
      if !keepRoom && !room {
        return;
      }
      var received, alive := ReceiveBody(c, t);
      if !alive {
        LosePower();
        return;
      }
      if !received {
        return;
      }
      if !staged {
        disk := disk.(image := None);
        return;
      }
      disk := disk.(command := Some(ImageFile));
      state, boots, trialThisBoot := Pending, 0, false;
      SaveState();
    }
  }

  // ------------------------------------------------------------------ runs

  datatype Event =
    | PowerOn(stages: bool, cut: bool)
    | Prove(cut: bool)
    | Restart
    | Put(attempt: Attempt)

  /** A machine with the history the properties speak of: for the last image staged, what was
      running when it was uploaded, what was kept to fall back to, and how many boots were its trial;
      and the part of a body that a power loss left in the image file, or that has since been set aside. */
  datatype Story = Story(m: Machine, base: Image, candidate: Image, fallback: Option<Image>, trials: nat,
                         leftover: Option<Image>, spoilt: Option<Image>)

  /** Outside the runs: an upload while a staged image waits for its reboot, one during a trial that
      does not succeed (`UploadWhilePending` says what each of them does), and a staging that fails when
      it is repeated after a power loss. */
  predicate Admissible(s: Story, e: Event) {
    match e
    case PowerOn(stages, _) => !s.m.up && (stages || s.m.disk.command != Some(PrevFile))
    case Prove(_) => true
    case Restart => true
    case Put(a) => s.m.up && (s.m.ram.state != Pending || (OnTrial(s) && Succeeds(a)))
  }

  function Next(s: Story, e: Event): Story {
    match e
    case PowerOn(stages, cut) =>
      var m := Boot(s.m.disk, stages, cut);
      s.(m := m, trials := if m.ram.trial then s.trials + 1 else s.trials,
         spoilt := if m.up && m.ram.state == RolledBack then None else s.spoilt)
    case Prove(cut) => s.(m := Confirm(s.m, cut))
    case Restart => s.(m := Reset(s.m))
    case Put(a) =>
      if !s.m.up then s
      else
        var m := Upload(s.m, a);
        var moved := s.m.disk.image.Some? && s.m.ram.state != RolledBack;
        var spoilt := if !a.keepRoom then None else if moved then s.leftover else s.spoilt;
        if Succeeds(a) then Story(m, s.m.disk.running, a.image, m.disk.prev, 0, None, spoilt)
        else s.(m := m, leftover := if (a.keepRoom || a.room) && a.body.CutOff? then a.body.part else None, spoilt := spoilt)
  }

  predicate RunOk(s: Story, es: seq<Event>)
    decreases |es|
  {
    es == [] || (Admissible(s, es[0]) && RunOk(Next(s, es[0]), es[1..]))
  }

  function Run(s: Story, es: seq<Event>): Story
    decreases |es|
  {
    if es == [] then s else Run(Next(s, es[0]), es[1..])
  }

  /** A board fresh from USB: no image files, no state. */
  function Fresh(running: Image): Story {
    Story(Down(Disk(None, None, None, None, running)), running, running, None, 0, None, None)
  }

  // ------------------------------------------------------------------ the invariant

  predicate RollbackFile(s: Story) {
    s.m.disk.prev == s.fallback && (s.fallback.Some? ==> s.fallback == if s.spoilt.Some? then s.spoilt else Some(s.base))
  }

  /** Between updates: the image file, if any, is the running image (unless that image failed, or the
      file is what a cut-off upload left), and otherwise the previous file is (unless it is such a
      leftover). So the next upload sets the running image aside. */
  predicate Quiet(s: Story) {
    var d := s.m.disk;
    var failed := d.record.Some? && d.record.value.state == RolledBack;
    && d.command == None
    && (d.record.None? || d.record.value.state != Pending)
    && (s.leftover.Some? ==> d.image == s.leftover)
    && (d.image.Some? && !failed && s.leftover.None? ==> d.image == Some(d.running))
    && (d.image.None? || failed || s.leftover.Some? ==>
          d.prev == None || d.prev == if s.spoilt.Some? then s.spoilt else Some(d.running))
    && (d.record.Some? && d.record.value.state == Confirmed ==> d.running == s.candidate && s.trials >= 1)
    && (failed ==> s.fallback == Some(d.running) && s.spoilt.None?)
  }

  /** Uploaded, not booted yet. */
  predicate Staged(s: Story) {
    var d := s.m.disk;
    && d.command == Some(ImageFile) && d.record == Some(Record(Pending, 0)) && d.image == Some(s.candidate)
    && d.running == s.base && RollbackFile(s) && s.trials == 0 && !s.m.ram.trial && s.leftover.None?
  }

  /** Booted at least once, not confirmed, not yet rolled back. */
  predicate OnTrial(s: Story) {
    var d := s.m.disk;
    && d.command == None && d.record.Some? && d.record.value.state == Pending && d.record.value.boots == s.trials <= TRIAL_BOOTS
    && d.image == Some(s.candidate) && d.running == s.candidate && RollbackFile(s) && s.leftover.None?
  }

  /** The previous image is staged, possibly already copied by the stub after a power loss, with the
      state file still saying pending. */
  predicate RollingBack(s: Story) {
    var d := s.m.disk;
    && d.record == Some(Record(Pending, TRIAL_BOOTS)) && d.prev.Some? && RollbackFile(s) && s.trials == TRIAL_BOOTS
    && d.image == Some(s.candidate) && d.command == Some(PrevFile) && !s.m.up && s.leftover.None?
  }

  /** Recorded as rolled back, waiting for the boot that copies the image. */
  predicate RollbackDue(s: Story) {
    var d := s.m.disk;
    && d.record.Some? && d.record.value.state == RolledBack && d.prev.Some? && RollbackFile(s)
    && d.command == Some(PrevFile) && d.image == Some(s.candidate) && !s.m.up && s.leftover.None?
  }

  predicate RamMatches(s: Story) {
    if s.m.up then
      && s.m.ram.state == Load(s.m.disk).state
      && (s.m.ram.trial ==> OnTrial(s) && s.trials >= 1)
    else s.m.ram == OFF
  }

  predicate Inv(s: Story) {
    && s.trials <= TRIAL_BOOTS
    && RamMatches(s)
    && (Quiet(s) || Staged(s) || OnTrial(s) || RollingBack(s) || RollbackDue(s))
  }

  lemma FreshHolds(running: Image)
    ensures Inv(Fresh(running))
  {
  }

  lemma PowerOnHolds(s: Story, stages: bool, cut: bool)
    requires Inv(s) && Admissible(s, PowerOn(stages, cut))
    ensures Inv(Next(s, PowerOn(stages, cut)))
  {
  }

  lemma ProveHolds(s: Story, cut: bool)
    requires Inv(s)
    ensures Inv(Next(s, Prove(cut)))
  {
  }

  lemma PutHolds(s: Story, a: Attempt)
    requires Inv(s) && Admissible(s, Put(a))
    ensures Inv(Next(s, Put(a)))
  {
  }

  lemma NextHolds(s: Story, e: Event)
    requires Inv(s) && Admissible(s, e)
    ensures Inv(Next(s, e))
  {
    match e
    case PowerOn(stages, cut) => hide Inv, Next; PowerOnHolds(s, stages, cut);
    case Prove(cut) => hide Inv, Next; ProveHolds(s, cut);
    case Put(a) => hide Inv, Next; PutHolds(s, a);
    case Restart =>
  }

  lemma {:induction false} RunHolds(s: Story, es: seq<Event>)
    requires Inv(s) && RunOk(s, es)
    ensures Inv(Run(s, es))
    decreases |es|
  {
    if es == [] {
    } else {
      hide Inv, Next, Admissible;
      NextHolds(s, es[0]);
      RunHolds(Next(s, es[0]), es[1..]);
    }
  }

  /** In every run from a fresh board: at most three boots of a staged image are trials; Confirmed is
      only ever on record for the candidate, while it runs and after a trial boot of it; a machine
      that has come up rolled back runs exactly what was kept to fall back to. */
  lemma TrialSafety(running: Image, es: seq<Event>)
    requires RunOk(Fresh(running), es)
    ensures var s := Run(Fresh(running), es);
            var d := s.m.disk;
            && s.trials <= 3
            && (d.record.Some? && d.record.value.state == Confirmed ==> d.running == s.candidate && s.trials >= 1)
            && (s.m.ram.trial ==> d.running == s.candidate)
            && (s.m.up && s.m.ram.state == RolledBack ==> s.fallback == Some(d.running))
  {
    FreshHolds(running);
    RunHolds(Fresh(running), es);
  }

  predicate CutsOff(e: Event) {
    e.Put? && e.attempt.body.CutOff?
  }

  /** What is kept to fall back to is the image that was running at the upload. */
  predicate Clean(s: Story) {
    s.leftover.None? && s.spoilt.None? && (s.fallback.Some? ==> s.fallback == Some(s.base))
  }

  lemma NextClean(s: Story, e: Event)
    requires Inv(s) && Admissible(s, e) && Clean(s) && !CutsOff(e)
    ensures Clean(Next(s, e))
  {
  }

  lemma {:induction false} RunClean(s: Story, es: seq<Event>)
    requires Inv(s) && Clean(s) && RunOk(s, es) && forall i :: 0 <= i < |es| ==> !CutsOff(es[i])
    ensures Clean(Run(s, es))
    decreases |es|
  {
    if es == [] {
    } else {
      hide Inv, Next, Admissible, Clean;
      NextHolds(s, es[0]);
      NextClean(s, es[0]);
      RunClean(Next(s, es[0]), es[1..]);
    }
  }

  /** When no power loss cuts an upload off, a machine that has come up rolled back runs exactly the image that
      was running when the candidate was uploaded. */
  lemma RollbackRestoresBase(running: Image, es: seq<Event>)
    requires RunOk(Fresh(running), es) && forall i :: 0 <= i < |es| ==> !CutsOff(es[i])
    ensures var s := Run(Fresh(running), es);
            s.m.up && s.m.ram.state == RolledBack ==> s.m.disk.running == s.base
  {
    FreshHolds(running);
    RunHolds(Fresh(running), es);
    RunClean(Fresh(running), es);
  }

  // ------------------------------------------------------------------ an image that never confirms

  /** `n` restarts in a row, none of them cut short, nobody confirming. */
  function Restarts(s: Story, n: nat): Story
    decreases n
  {
    if n == 0 then s else Restarts(Next(Next(s, Restart), PowerOn(true, false)), n - 1)
  }

  /** How many more restarts an unconfirmed image survives. */
  function Left(s: Story): nat
    requires Inv(s)
  {
    if Staged(s) then TRIAL_BOOTS + 1
    else if OnTrial(s) then TRIAL_BOOTS + 1 - s.trials
    else if RollingBack(s) then 1
    else 0
  }

  lemma RestartStep(s: Story)
    requires Inv(s) && Left(s) > 0
    ensures var s' := Next(Next(s, Restart), PowerOn(true, false));
            Inv(s') && Left(s') == Left(s) - 1 && s'.base == s.base && s'.candidate == s.candidate && s'.fallback == s.fallback
            && (Left(s') > 0 ==> !Quiet(s'))
            && (Left(s') == 0 ==>
                  if s.fallback.Some? then RollbackDue(s')
                  else s'.m.disk.record.value.state == Failed && s'.m.disk.running == s.candidate)
  {
  }

  /** An image that never confirms is gone after at most four restarts: the next boot runs exactly
      what was kept to fall back to; if nothing was, the update is recorded as failed. It holds from
      wherever a power loss left the trial. */
  lemma {:induction false} NeverConfirmed(s: Story)
    requires Inv(s) && Left(s) > 0
    ensures Left(s) <= 4
    ensures var s' := Restarts(s, Left(s));
            var s'' := Next(Next(s', Restart), PowerOn(true, false));
            if s.fallback.Some? then s''.m.up && s''.m.ram.state == RolledBack && Some(s''.m.disk.running) == s.fallback
            else s'.m.disk.record.Some? && s'.m.disk.record.value.state == Failed && s'.m.disk.running == s.candidate
    decreases Left(s)
  {
    RestartStep(s);
    var s1 := Next(Next(s, Restart), PowerOn(true, false));
    if Left(s) == 1 {
      assert Restarts(s, 1) == Restarts(s1, 0) == s1;
    } else {
      NeverConfirmed(s1);
    }
  }

  /** A successful upload starts the clock. What it will come back to is what runs now, exactly when
      nothing that a power loss cut off was set aside instead, or that part is what runs now. */
  lemma UploadStarts(s: Story, a: Attempt)
    requires Inv(s) && Admissible(s, Put(a)) && Succeeds(a)
    ensures var s' := Next(s, Put(a));
            var moved := s.m.disk.image.Some? && s.m.ram.state != RolledBack;
            var part := if moved then s.leftover else s.spoilt;
            && Inv(s') && Staged(s') && Left(s') == 4
            && s'.base == s.m.disk.running && s'.candidate == a.image
            && (s'.fallback.Some? <==> a.keepRoom && (moved || s.m.disk.prev.Some?))
            && (s'.fallback.Some? ==> (s'.fallback == Some(s'.base) <==> part.None? || part.value == s.m.disk.running))
  {
  }

  /** A power loss while a body streams, then an upload that succeeds: it sets aside, as the image to
      come back to, the part that came of the first, and removes the copy of the running image. If the
      new image never confirms, the rollback stages that part. */
  lemma CutOffUploadSpoilsFallback(s: Story, first: Attempt, second: Attempt)
    requires Inv(s) && s.m.up && s.m.ram.state != Pending && s.m.ram.state != RolledBack && s.m.disk.image.Some?
    requires first.keepRoom && first.body.CutOff? && first.body.part.Some? && second.keepRoom && Succeeds(second)
    requires first.body.part.value != s.m.disk.running
    ensures var s2 := Next(Next(Next(s, Put(first)), PowerOn(true, false)), Put(second));
            && s2.base == s.m.disk.running && Inv(s2) && Left(s2) == TRIAL_BOOTS + 1
            && var last := Next(Next(Restarts(s2, TRIAL_BOOTS + 1), Restart), PowerOn(true, false));
               last.m.up && last.m.ram.state == RolledBack && last.m.disk.running == first.body.part.value != s2.base
  {
    hide Restarts;
    NextHolds(s, Put(first));
    var s1 := Next(s, Put(first));
    NextHolds(s1, PowerOn(true, false));
    var s1' := Next(s1, PowerOn(true, false));
    NextHolds(s1', Put(second));
    var s2 := Next(s1', Put(second));
    assert s2.fallback == first.body.part;
    NeverConfirmed(s2);
  }

  // ------------------------------------------------------------------ uploads while an update is pending

  /** A rollback from here comes back to what was running at the last upload, or there is none. */
  predicate PromiseKept(s: Story) {
    s.m.disk.prev.Some? ==> s.m.disk.prev == Some(s.base)
  }

  /** An upload that arrives while an update is pending, on trial or waiting for its reboot, sets the
      candidate aside in place of the image that was running before it. The rollback promise survives
      exactly when nothing is kept, or the upload succeeds during the trial (so that the candidate is
      what runs), or the candidate is the image from before. */
  lemma UploadWhilePending(s: Story, a: Attempt)
    requires Inv(s) && s.m.up && s.m.ram.state == Pending
    ensures var s1 := Next(s, Put(a));
            && s1.m.disk.prev == (if a.keepRoom then Some(s.candidate) else None)
            && (PromiseKept(s1) <==> !a.keepRoom || (OnTrial(s) && Succeeds(a)) || s.candidate == s.base)
            && (OnTrial(s) && Succeeds(a) ==> Staged(s1) && Inv(s1) && (s1.fallback.Some? ==> s1.fallback == Some(s1.base)))
            && PendingRecord(s1)
  {
  }

  /** On record as pending, within the limit, with no rollback staged. */
  predicate PendingRecord(s: Story) {
    var d := s.m.disk;
    d.record.Some? && d.record.value.state == Pending && d.record.value.boots <= TRIAL_BOOTS && d.command != Some(PrevFile)
  }

  lemma PendingStep(s: Story)
    requires PendingRecord(s)
    ensures var d := s.m.disk;
            var s1 := Next(Next(s, Restart), PowerOn(true, false));
            var last := Next(Next(s1, Restart), PowerOn(true, false));
            && (d.record.value.boots < TRIAL_BOOTS ==> s1.m.disk == Stub(d).(record := Some(Record(Pending, d.record.value.boots + 1))))
            && (d.record.value.boots == TRIAL_BOOTS ==>
                  if d.prev.Some? then last.m.up && last.m.ram.state == RolledBack && last.m.disk.running == d.prev.value
                  else s1.m.disk == Stub(d).(record := Some(Record(Failed, TRIAL_BOOTS + 1))))
  {
  }

  /** Where a pending record leads when nobody confirms, whatever the image files hold: to the
      previous file, or to Failed on what the stub last copied. */
  lemma {:induction false} PendingEnds(s: Story)
    requires PendingRecord(s)
    ensures var d := s.m.disk;
            var s' := Restarts(s, TRIAL_BOOTS + 1 - d.record.value.boots);
            var s'' := Next(Next(s', Restart), PowerOn(true, false));
            if d.prev.Some? then s''.m.up && s''.m.ram.state == RolledBack && s''.m.disk.running == d.prev.value
            else s'.m.disk.record.Some? && s'.m.disk.record.value.state == Failed && s'.m.disk.running == Stub(d).running
    decreases TRIAL_BOOTS - s.m.disk.record.value.boots
  {
    hide Next;
    var s1 := Next(Next(s, Restart), PowerOn(true, false));
    var b := s.m.disk.record.value.boots;
    PendingStep(s);
    if b == TRIAL_BOOTS {
      assert Restarts(s, 1) == Restarts(s1, 0) == s1;
    } else {
      PendingEnds(s1);
      assert Restarts(s, TRIAL_BOOTS + 1 - b) == Restarts(s1, TRIAL_BOOTS - b);
    }
  }

  /** What that comes to: if there was room to keep it, the rollback after an upload while pending runs
      the candidate of before, on trial or never booted, and not the image from before the update. It
      holds for every attempt, successful or not, at every boot of the trial. */
  lemma UploadWhilePendingEnds(s: Story, a: Attempt)
    requires Inv(s) && s.m.up && s.m.ram.state == Pending
    ensures var s1 := Next(s, Put(a));
            && PendingRecord(s1)
            && var s2 := Restarts(s1, TRIAL_BOOTS + 1 - s1.m.disk.record.value.boots);
               var last := Next(Next(s2, Restart), PowerOn(true, false));
               && (a.keepRoom ==>
                     last.m.up && last.m.ram.state == RolledBack && last.m.disk.running == s.candidate
                     && (last.m.disk.running == s1.base <==> (OnTrial(s) && Succeeds(a)) || s.candidate == s.base))
               && (!a.keepRoom ==> s2.m.disk.record.Some? && s2.m.disk.record.value.state == Failed)
  {
    hide Restarts;
    UploadWhilePending(s, a);
    PendingEnds(Next(s, Put(a)));
  }

  /** A second upload before the reboot that fails leaves the stub's command in place with the file it
      names gone or cut off: the next boot runs what runs now, or the part, never the candidate, yet
      counts as its trial and can be confirmed. */
  lemma FailedUploadBeforeReboot(s: Story, a: Attempt)
    requires Inv(s) && Staged(s) && s.m.up && !Succeeds(a)
    ensures var s1 := Next(s, Put(a));
            var s2 := Next(Next(Next(s1, Restart), PowerOn(true, false)), Prove(false));
            var part := if (a.keepRoom || a.room) && a.body.CutOff? then a.body.part else None;
            && s2.m.disk.running == (if part.Some? then part.value else s.base)
            && s2.m.disk.record == Some(Record(Confirmed, 0)) && s2.m.disk.prev == None
  {
    var s1 := Next(s, Put(a));
    assert s1.m.disk.command == Some(ImageFile) && s1.m.disk.record == Some(Record(Pending, 0));
  }

  // ------------------------------------------------------------------ runs in which it goes wrong

  function Good(image: Image): Attempt {
    Attempt(image, true, true, Accepted, true)
  }

  function Bad(image: Image): Attempt {
    Attempt(image, true, true, Refused, true)
  }

  /** A board fresh from USB, updated once and confirmed. */
  const FIRST: Image := [0]
  const UPDATED: Image := [1]

  function OneUpdate(): seq<Event> {
    [PowerOn(true, false), Put(Good(UPDATED)), Restart, PowerOn(true, false), Prove(false)]
  }

  const AFTER_UPDATE := Story(Machine(Disk(Some(UPDATED), None, Some(Record(Confirmed, 0)), None, UPDATED), Ram(Confirmed, 0, false), true),
                              FIRST, UPDATED, None, 1, None, None)

  lemma RunStep(s: Story, es: seq<Event>)
    requires es != []
    ensures Run(s, es) == Run(Next(s, es[0]), es[1..])
    ensures RunOk(s, es) <==> Admissible(s, es[0]) && RunOk(Next(s, es[0]), es[1..])
  {
  }

  lemma OneUpdateRuns()
    ensures RunOk(Fresh(FIRST), OneUpdate()) && Run(Fresh(FIRST), OneUpdate()) == AFTER_UPDATE && Inv(AFTER_UPDATE)
  {
    hide Run, RunOk;
    var es := OneUpdate();
    var s0 := Fresh(FIRST);
    var s1, s2 := Next(s0, es[0]), Next(Next(s0, es[0]), es[1]);
    var s3 := Next(s2, es[2]);
    var s4 := Next(s3, es[3]);
    RunStep(s0, es);
    RunStep(s1, es[1..]);
    RunStep(s2, es[1..][1..]);
    RunStep(s3, es[1..][1..][1..]);
    RunStep(s4, es[1..][1..][1..][1..]);
    RunNone(Next(s4, es[4]));
    assert es[1..][1..][1..][1..][1..] == [];
    assert Next(s4, es[4]) == AFTER_UPDATE;
    NothingElse(es);
  }

  lemma RunNone(s: Story)
    ensures Run(s, []) == s && RunOk(s, [])
  {
  }

  lemma NothingElse(es: seq<Event>)
    requires |es| == 5
    ensures es[1..][0] == es[1] && es[1..][1..][0] == es[2] && es[1..][1..][1..][0] == es[3] && es[1..][1..][1..][1..][0] == es[4]
  {
  }

  /** Then a power loss while the next body streams, a full upload, and nobody confirming: the node
      ends on the part that came of the first, not on the image it ran. */
  lemma CutOffUploadHappens()
    ensures var first, second := Good([2]).(body := CutOff(Some([9]))), Good([3]);
            var s := AFTER_UPDATE;
            && RunOk(Fresh(FIRST), OneUpdate()) && Run(Fresh(FIRST), OneUpdate()) == s
            && RunOk(s, [Put(first), PowerOn(true, false), Put(second)])
            && var s2 := Next(Next(Next(s, Put(first)), PowerOn(true, false)), Put(second));
               var last := Next(Next(Restarts(s2, TRIAL_BOOTS + 1), Restart), PowerOn(true, false));
               s2.base == UPDATED && last.m.up && last.m.ram.state == RolledBack && last.m.disk.running == [9]
  {
    hide Restarts, RunOk, Run;
    OneUpdateRuns();
    var first, second := Good([2]).(body := CutOff(Some([9]))), Good([3]);
    var s := AFTER_UPDATE;
    var es := [Put(first), PowerOn(true, false), Put(second)];
    var s1 := Next(s, Put(first));
    RunStep(s, es);
    RunStep(s1, es[1..]);
    RunStep(Next(s1, PowerOn(true, false)), es[1..][1..]);
    RunNone(Next(Next(s1, PowerOn(true, false)), Put(second)));
    assert es[1..][1..][1..] == [];
    CutOffUploadSpoilsFallback(s, first, second);
  }

  /** The same board with its next update on trial. */
  const ON_TRIAL := Story(Machine(Disk(Some([2]), Some(UPDATED), Some(Record(Pending, 1)), None, [2]), Ram(Pending, 1, true), true),
                          UPDATED, [2], Some(UPDATED), 1, None, None)

  lemma OnTrialReached()
    ensures Next(Next(Next(AFTER_UPDATE, Put(Good([2]))), Restart), PowerOn(true, false)) == ON_TRIAL
    ensures Inv(ON_TRIAL) && ON_TRIAL.m.ram.state == Pending && ON_TRIAL.candidate != ON_TRIAL.base
  {
  }

  /** An upload refused during the trial: the rollback runs the candidate on trial again. */
  lemma UploadDuringTrialHappens()
    ensures RunOk(Fresh(FIRST), OneUpdate()) && Run(Fresh(FIRST), OneUpdate()) == AFTER_UPDATE
    ensures Next(Next(Next(AFTER_UPDATE, Put(Good([2]))), Restart), PowerOn(true, false)) == ON_TRIAL
    ensures var s1 := Next(ON_TRIAL, Put(Bad([3])));
            var last := Next(Next(Restarts(s1, TRIAL_BOOTS), Restart), PowerOn(true, false));
            s1.base == UPDATED && last.m.up && last.m.ram.state == RolledBack && last.m.disk.running == [2]
  {
    hide Restarts, RunOk, Run, Inv;
    OneUpdateRuns();
    OnTrialReached();
    TrialRecord();
    UploadWhilePendingEnds(ON_TRIAL, Bad([3]));
  }

  lemma TrialRecord()
    ensures var s1 := Next(ON_TRIAL, Put(Bad([3])));
            s1.m.disk.record == Some(Record(Pending, 1)) && s1.base == UPDATED
  {
  }

  /** An upload refused in the reboot window: the next boot runs the image from before, and can confirm
      it as the update. */
  lemma UploadBeforeRebootHappens()
    ensures RunOk(Fresh(FIRST), OneUpdate()) && Run(Fresh(FIRST), OneUpdate()) == AFTER_UPDATE
    ensures var s := Next(AFTER_UPDATE, Put(Good([2])));
            var s2 := Next(Next(Next(Next(s, Put(Bad([3]))), Restart), PowerOn(true, false)), Prove(false));
            s.candidate == [2] && s2.m.disk.record == Some(Record(Confirmed, 0)) && s2.m.disk.running == UPDATED
  {
    hide RunOk, Run;
    OneUpdateRuns();
    NextHolds(AFTER_UPDATE, Put(Good([2])));
    FailedUploadBeforeReboot(Next(AFTER_UPDATE, Put(Good([2]))), Bad([3]));
  }
}
