/** What a command frame does to a device: the face check, the pin writes, the announcement, and
    the door that closes again. Commands are handled one at a time. */
module DoorControl {
  import opened Options
  import opened Frames
  import opened DeviceRegistry

  datatype PinEffect = ModeSet(pin: int, mode: int) | LevelSet(pin: int, level: int)

  /** What `set_gpio_gdevice_status` writes; -1 leaves a setting alone. */
  function GpioEffects(d: Device): seq<PinEffect> {
    if d.pin == -1 then []
    else (if d.mode != -1 then [ModeSet(d.pin, d.mode)] else [])
         + (if d.status != -1 then [LevelSet(d.pin, d.status)] else [])
  }

  /** The pins, as the log of the writes to them. */
  class Board {
    var log: seq<PinEffect>

    constructor ()
      ensures log == []
    {
      log := [];
    }

    /** `set_gpio_gdevice_status` */
    method SetGpioStatus(dev: GDevice?) returns (ret: int)
      modifies this
      ensures dev == null ==> ret == -1 && log == old(log)
      ensures dev != null ==> ret == 0 && log == old(log) + GpioEffects(dev.Value())
    {
      if dev == null {
        return -1;
      }
      if dev.gpioPin != -1 {
        if dev.gpioMode != -1 {
          log := log + [ModeSet(dev.gpioPin, dev.gpioMode)];
        }
        if dev.gpioStatus != -1 {
          log := log + [LevelSet(dev.gpioPin, dev.gpioStatus)];
        }
      }
      return 0;
    }
  }

  /** A command: bytes 2 and 3 of its frame, the score a face check would give, and whether a
      voice module is listed. */
  datatype Command = Command(key: byte, value: byte, score: real, voiceListed: bool)

  function Requested(c: Command): int {
    if c.value == 0 then LOW else HIGH
  }

  predicate Checked(d: Device) {
    d.faceCheck == 1
  }

  /** The command may switch the device. */
  predicate Granted(d: Device, c: Command) {
    !Checked(d) || c.score > 0.5
  }

  /** Byte 3 of the frame once the face check had its say. */
  function Verdict(d: Device, c: Command): byte {
    if !Checked(d) then c.value else if c.score > 0.5 then 0x2E else 0x2F
  }

  /** Bytes 2 and 3 of the frame handed to the voice module. */
  function Announcement(key: byte, verdict: byte): (byte, byte) {
    if key == 0x45 && verdict == 0x00 then (0x2D, 0x2D)
    else if key == 0x44 && verdict == 0x2E then (0x2E, verdict)
    else if key == 0x44 && verdict == 0x2F then (0x2F, verdict)
    else (key, verdict)
  }

  /** The devices and pin writes a command leaves, what was announced, and bytes 2 and 3 of the
      frame at the end. */
  datatype Response = Response(
    list: seq<Device>, effects: seq<PinEffect>, announced: Option<(byte, byte)>, rest: (byte, byte))

  /** What `handld_device` does with a command. */
  function Respond(list: seq<Device>, c: Command): Response {
    var i := IndexOf(list, c.key, 0);
    if i == |list| then Response(list, [], None, (c.key, c.value))
    else
      var d := list[i].(status := Requested(c));
      var closed := d.(status := HIGH);
      var announced := if d.voice == 1 && c.voiceListed then Some(Announcement(c.key, Verdict(d, c))) else None;
      var rest := if announced.Some? then (0, 0) else (c.key, Verdict(d, c));
      if !Granted(d, c) then Response(list[i := d], [], announced, rest)
      else if !Checked(d) then Response(list[i := d], GpioEffects(d), announced, rest)
      else Response(list[i := closed], GpioEffects(d) + GpioEffects(closed), announced, rest)
  }

  lemma {:induction false} RespondMissing(list: seq<Device>, c: Command)
    requires IndexOf(list, c.key, 0) == |list|
    ensures Respond(list, c) == Response(list, [], None, (c.key, c.value))
  {
  }

  lemma {:induction false} RespondFound(list: seq<Device>, c: Command)
    requires IndexOf(list, c.key, 0) < |list|
    ensures var i, r := IndexOf(list, c.key, 0), Respond(list, c);
            var d := list[i].(status := if c.value == 0 then 0 else 1);
            var closed := d.(status := 1);
            var granted, twice := d.faceCheck != 1 || c.score > 0.5, d.faceCheck == 1 && c.score > 0.5;
            var status := if d.faceCheck != 1 then c.value else if c.score > 0.5 then 0x2E else 0x2F;
            && r.list == (if twice then list[i := d][i := closed] else list[i := d])
            && r.effects == (if granted then GpioEffects(d) else []) + (if twice then GpioEffects(closed) else [])
            && r.announced == (if d.voice == 1 && c.voiceListed then Some(Announcement(c.key, status)) else None)
            && r.rest == if r.announced.Some? then (0, 0) else (c.key, status)
  {
    hide IndexOf, GpioEffects, Announcement;
  }

  /** The first half: finds the device, takes over the requested level, and switches it if the
      face check allows that. `ret` is -1 for a refused command. */
  method Switch(list: DeviceList, board: Board, buffer: array<byte>, score: real, ghost c: Command)
    returns (dev: GDevice?, ret: int)
    requires list.Valid() && buffer.Length >= FRAME_SIZE
    requires c.key == buffer[2] && c.value == buffer[3] && c.score == score
    modifies list.nodes, board, buffer
    ensures list.Valid() && list.nodes == old(list.nodes)
    ensures dev == NodeAt(list.nodes, IndexOf(old(list.Contents()), c.key, 0))
    ensures forall k | 0 <= k < buffer.Length && k != 3 :: buffer[k] == old(buffer[k])
    ensures dev == null ==> list.Contents() == old(list.Contents()) && board.log == old(board.log)
                            && buffer[3] == old(buffer[3])
    ensures dev != null ==>
              var i := IndexOf(old(list.Contents()), c.key, 0);
              var d := old(list.Contents())[i].(status := if old(buffer[3]) == 0 then 0 else 1);
              var granted := d.faceCheck != 1 || score > 0.5;
              && list.Contents() == old(list.Contents())[i := d]
              && board.log == old(board.log) + (if granted then GpioEffects(d) else [])
              && ret == (if granted then 0 else -1) && buffer[2] == old(buffer[2])
              && buffer[3] == if d.faceCheck != 1 then old(buffer[3]) else if score > 0.5 then 0x2E else 0x2F
  {
    hide IndexOf, GpioEffects, Values, Lookup;
    ghost var i := IndexOf(list.Contents(), buffer[2], 0);
    ret := -1;
    dev := list.FindByKey(buffer[2]);
    if dev == null {
      return;
    }
    list.SetStatus(dev, if buffer[3] == 0 then LOW else HIGH, i);
    assert dev.Value() == list.Contents()[i];
    ret := WriteIfGranted(dev, board, buffer, score, c);
  }

  /** The face check and the first write. */
  method WriteIfGranted(dev: GDevice, board: Board, buffer: array<byte>, score: real, ghost c: Command)
    returns (ret: int)
    requires buffer.Length >= FRAME_SIZE && c.value == buffer[3] && c.score == score
    modifies board, buffer
    ensures forall k | 0 <= k < buffer.Length && k != 3 :: buffer[k] == old(buffer[k])
    ensures board.log == old(board.log) + (if Granted(dev.Value(), c) then GpioEffects(dev.Value()) else [])
    ensures ret == (if Granted(dev.Value(), c) then 0 else -1) && buffer[3] == Verdict(dev.Value(), c)
  {
    hide GpioEffects;
    ret := -1;
    if dev.checkFaceStatus == 1 {
      if score > 0.5 {
        buffer[3] := 0x2E;
        ret := board.SetGpioStatus(dev);
      } else {
        buffer[3] := 0x2F;
      }
    } else {
      ret := board.SetGpioStatus(dev);
    }
  }

  /** The second half for a granted face check: the door closes again. */
  method Close(list: DeviceList, board: Board, dev: GDevice, ghost i: nat)
    requires list.Valid() && i < |list.nodes| && dev == list.nodes[i]
    modifies dev, board
    ensures list.Valid() && list.nodes == old(list.nodes)
    ensures var closed := old(list.Contents())[i].(status := HIGH);
            list.Contents() == old(list.Contents())[i := closed] && board.log == old(board.log) + GpioEffects(closed)
  {
    hide GpioEffects;
    list.SetStatus(dev, HIGH, i);
    assert dev.Value() == list.Contents()[i];
    var ret := board.SetGpioStatus(dev);
  }

  /** The announcement: rewrites bytes 2 and 3 for the voice module, hands them on and resets
      them. */
  method Announce(dev: GDevice, buffer: array<byte>, voiceListed: bool) returns (announced: Option<(byte, byte)>)
    requires buffer.Length >= FRAME_SIZE
    modifies buffer
    ensures announced == if dev.voiceSetStatus == 1 && voiceListed
                         then Some(Announcement(old(buffer[2]), old(buffer[3]))) else None
    ensures forall k | 0 <= k < buffer.Length && k != 2 && k != 3 :: buffer[k] == old(buffer[k])
    ensures if announced.Some? then buffer[2] == 0 && buffer[3] == 0
            else buffer[2] == old(buffer[2]) && buffer[3] == old(buffer[3])
  {
    announced := None;
    if dev.voiceSetStatus == 1 && voiceListed {
      if buffer[2] == 0x45 && buffer[3] == 0x00 {
        buffer[2] := 0x2D;
        buffer[3] := 0x2D;
      } else if buffer[2] == 0x44 && buffer[3] == 0x2E {
        buffer[2] := 0x2E;
      } else if buffer[2] == 0x44 && buffer[3] == 0x2F {
        buffer[2] := 0x2F;
      }
      announced := Some((buffer[2], buffer[3]));
      buffer[2], buffer[3] := 0x00, 0x00;
    }
  }

  /** What follows the first write: the announcement and, for a granted face check, the way back. */
  method AnnounceAndClose(list: DeviceList, board: Board, dev: GDevice, buffer: array<byte>, score: real,
                          voiceListed: bool, ret: int, ghost i: nat)
    returns (announced: Option<(byte, byte)>)
    requires list.Valid() && i < |list.nodes| && dev == list.nodes[i] && buffer.Length >= FRAME_SIZE
    modifies dev, board, buffer
    ensures list.Valid() && list.nodes == old(list.nodes)
    ensures var d := old(list.Contents())[i];
            var closed := d.(status := HIGH);
            var closes := Checked(d) && ret == 0 && score > 0.5;
            && list.Contents() == (if closes then old(list.Contents())[i := closed] else old(list.Contents()))
            && board.log == old(board.log) + (if closes then GpioEffects(closed) else [])
            && announced == (if d.voice == 1 && voiceListed
                             then Some(Announcement(old(buffer[2]), old(buffer[3]))) else None)
    ensures if announced.Some? then buffer[2] == 0 && buffer[3] == 0
            else buffer[2] == old(buffer[2]) && buffer[3] == old(buffer[3])
    ensures forall k | 0 <= k < buffer.Length && k != 2 && k != 3 :: buffer[k] == old(buffer[k])
  {
    hide GpioEffects, Announcement, Values;
    assert dev.Value() == list.Contents()[i];
    announced := Announce(dev, buffer, voiceListed);
    if dev.checkFaceStatus == 1 && ret == 0 && score > 0.5 {
      Close(list, board, dev, i);
    }
  }

  /** `handld_device` for the frame in `buffer`, to the end of the thread. */
  method HandleDevice(list: DeviceList, board: Board, buffer: array<byte>, score: real, voiceListed: bool)
    returns (announced: Option<(byte, byte)>)
    requires list.Valid() && buffer.Length >= FRAME_SIZE
    modifies list.nodes, board, buffer
    ensures list.Valid() && list.nodes == old(list.nodes)
    ensures var r := Respond(old(list.Contents()), Command(old(buffer[2]), old(buffer[3]), score, voiceListed));
            && list.Contents() == r.list && board.log == old(board.log) + r.effects
            && announced == r.announced && (buffer[2], buffer[3]) == r.rest
    ensures forall k | 0 <= k < buffer.Length && k != 2 && k != 3 :: buffer[k] == old(buffer[k])
  {
    hide IndexOf, GpioEffects, Announcement, Values, Respond;
    ghost var before := list.Contents();
    ghost var i := IndexOf(before, buffer[2], 0);
    ghost var c := Command(buffer[2], buffer[3], score, voiceListed);
    var dev, ret := Switch(list, board, buffer, score, c);
    if dev == null {
      RespondMissing(before, c);
      return None;
    }
    RespondFound(before, c);
    announced := AnnounceAndClose(list, board, dev, buffer, score, voiceListed, ret, i);
  }

  // ---------------------------------------------------------------- one command

  /** The levels written to a pin, in order. */
  function LevelsOn(log: seq<PinEffect>, pin: int): seq<int> {
    if log == [] then []
    else
      var e := log[|log| - 1];
      LevelsOn(log[..|log| - 1], pin) + if e.LevelSet? && e.pin == pin then [e.level] else []
  }

  ghost predicate Touches(log: seq<PinEffect>, pin: int) {
    exists e | e in log :: e.pin == pin
  }

  lemma {:induction false} LevelsAppend(a: seq<PinEffect>, b: seq<PinEffect>, pin: int)
    ensures LevelsOn(a + b, pin) == LevelsOn(a, pin) + LevelsOn(b, pin)
    decreases |b|
  {
    if b == [] {
      assert a + b == a;
    } else {
      assert (a + b)[..|a + b| - 1] == a + b[..|b| - 1];
      LevelsAppend(a, b[..|b| - 1], pin);
    }
  }

  lemma {:induction false} GpioLevels(d: Device, pin: int)
    requires d.status != -1
    ensures LevelsOn(GpioEffects(d), pin) == if d.pin == pin && pin != -1 then [d.status] else []
    ensures Touches(GpioEffects(d), pin) <==> d.pin == pin && pin != -1
  {
    if d.pin != -1 {
      var m := if d.mode != -1 then [ModeSet(d.pin, d.mode)] else [];
      var l := [LevelSet(d.pin, d.status)];
      assert GpioEffects(d) == m + l;
      LevelsAppend(m, l, pin);
      assert LevelsOn(m, pin) == [];
      assert l[0] in GpioEffects(d);
    }
  }

  /** A command writes to a pin exactly when it names a device of that pin that needs no face check
      or passes it; then it writes LOW for byte 0 and HIGH for any other, and a face-checked device
      goes back to HIGH. */
  lemma {:induction false} CommandWrites(list: seq<Device>, c: Command, pin: int)
    ensures var i, r := IndexOf(list, c.key, 0), Respond(list, c);
            var hit := i < |list| && list[i].pin == pin && pin != -1 && (list[i].faceCheck != 1 || c.score > 0.5);
            && (Touches(r.effects, pin) <==> hit)
            && LevelsOn(r.effects, pin)
               == if hit then [if c.value == 0 then 0 else 1] + (if list[i].faceCheck == 1 then [1] else []) else []
  {
    hide IndexOf, GpioEffects, LevelsOn, Announcement;
    var i := IndexOf(list, c.key, 0);
    NoLevels(pin);
    if i < |list| {
      var d := list[i].(status := Requested(c));
      var closed := d.(status := HIGH);
      GpioLevels(d, pin);
      GpioLevels(closed, pin);
      LevelsAppend(GpioEffects(d), GpioEffects(closed), pin);
      TouchesAppend(GpioEffects(d), GpioEffects(closed), pin);
    }
  }

  /** Every write of a command, in order: the mode of the device, unless that is -1, in front of each
      level. */
  lemma {:induction false} CommandEffects(list: seq<Device>, c: Command)
    ensures var i, effects := IndexOf(list, c.key, 0), Respond(list, c).effects;
            if i == |list| || list[i].pin == -1 || (list[i].faceCheck == 1 && c.score <= 0.5) then effects == []
            else
              var d := list[i];
              var mode := if d.mode == -1 then [] else [ModeSet(d.pin, d.mode)];
              effects == mode + [LevelSet(d.pin, if c.value == 0 then 0 else 1)]
                         + (if d.faceCheck == 1 then mode + [LevelSet(d.pin, 1)] else [])
  {
    hide IndexOf, Announcement;
  }

  /** What is announced, and bytes 2 and 3 at the end. An unchecked 0x45 with byte 0 is announced
      as 0x2D 0x2D; a face check puts its result, 0x2E or 0x2F, into byte 3, and key 0x44 also has
      it in byte 2. */
  lemma {:induction false} AnnouncedBytes(list: seq<Device>, c: Command)
    requires IndexOf(list, c.key, 0) < |list|
    ensures var d, r := list[IndexOf(list, c.key, 0)], Respond(list, c);
            var status := if d.faceCheck != 1 then c.value else if c.score > 0.5 then 0x2E else 0x2F;
            && (r.announced.Some? <==> d.voice == 1 && c.voiceListed)
            && (r.announced.Some? ==>
                  r.announced.value == if c.key == 0x45 && d.faceCheck != 1 && c.value == 0 then (0x2D, 0x2D)
                                       else if c.key == 0x44 && (status == 0x2E || status == 0x2F) then (status, status)
                                       else (c.key, status))
            && r.rest == if r.announced.Some? then (0, 0) else (c.key, status)
  {
    hide IndexOf, GpioEffects;
  }

  lemma {:induction false} NoLevels(pin: int)
    ensures LevelsOn([], pin) == [] && !Touches([], pin)
  {
  }

  lemma {:induction false} TouchesAppend(a: seq<PinEffect>, b: seq<PinEffect>, pin: int)
    ensures Touches(a + b, pin) <==> Touches(a, pin) || Touches(b, pin)
  {
    if Touches(a, pin) {
      var e :| e in a && e.pin == pin;
      assert e in a + b;
    } else if Touches(b, pin) {
      var e :| e in b && e.pin == pin;
      assert e in a + b;
    }
  }

  /** The lock's announcement tells what happened: opened exactly when its pin was written,
      refused exactly when it was not. */
  lemma {:induction false} LockAnnouncement(list: seq<Device>, c: Command)
    requires c.key == 0x44 && c.voiceListed && Lookup(list, c.key).Some?
    requires var d := Lookup(list, c.key).value; d.faceCheck == 1 && d.voice == 1 && d.pin != -1
    ensures var r, pin := Respond(list, c), Lookup(list, c.key).value.pin;
            && (r.announced == Some((0x2E, 0x2E)) <==> Touches(r.effects, pin))
            && (r.announced == Some((0x2F, 0x2F)) <==> !Touches(r.effects, pin))
  {
    hide IndexOf, GpioEffects, LevelsOn, Touches;
    CommandWrites(list, c, Lookup(list, c.key).value.pin);
  }

  function LastOr(levels: seq<int>, initial: int): int {
    if levels == [] then initial else levels[|levels| - 1]
  }

  /** The level the list records for a device after a command is the level of its pin, exactly
      unless the command was refused and asked for another level than the pin has. */
  lemma {:induction false} ShownLevel(list: seq<Device>, c: Command, level: int)
    requires Lookup(list, c.key).Some? && Lookup(list, c.key).value.pin != -1
    ensures var i, r := IndexOf(list, c.key, 0), Respond(list, c);
            r.list[i].status == LastOr(LevelsOn(r.effects, list[i].pin), level)
            <==> list[i].faceCheck != 1 || c.score > 0.5 || level == if c.value == 0 then 0 else 1
  {
    hide IndexOf, GpioEffects, LevelsOn, Announcement, Touches;
    CommandWrites(list, c, list[IndexOf(list, c.key, 0)].pin);
  }

  /** A refused request to open leaves the door shut but recorded as open. */
  lemma {:induction false} RefusedExample()
    ensures var lock := Device("lock", 0x44, 8, OUTPUT, HIGH, 1, 1);
            var r := Respond([lock], Command(0x44, 0x00, 0.0, true));
            r.effects == [] && r.list[0].status == LOW
  {
    var lock := Device("lock", 0x44, 8, OUTPUT, HIGH, 1, 1);
    assert IndexOf([lock], 0x44, 0) == 0;
  }

  // ---------------------------------------------------------------- runs of commands

  datatype Played = Played(list: seq<Device>, log: seq<PinEffect>)

  /** The devices and the log after some commands. */
  function Play(list: seq<Device>, commands: seq<Command>): Played {
    if commands == [] then Played(list, [])
    else
      var p := Play(list, commands[..|commands| - 1]);
      var r := Respond(p.list, commands[|commands| - 1]);
      Played(r.list, p.log + r.effects)
  }

  /** Commands change nothing of a device but its level. */
  ghost predicate SameDevices(a: seq<Device>, b: seq<Device>) {
    |a| == |b| && forall i | 0 <= i < |a| :: b[i] == a[i].(status := b[i].status)
  }

  lemma {:induction false} RespondKeeps(list: seq<Device>, c: Command)
    ensures SameDevices(list, Respond(list, c).list)
  {
    hide IndexOf, GpioEffects, Announcement;
  }

  lemma {:induction false} PlayKeeps(list: seq<Device>, commands: seq<Command>)
    ensures SameDevices(list, Play(list, commands).list)
    decreases |commands|
  {
    hide Respond;
    if commands != [] {
      PlayKeeps(list, commands[..|commands| - 1]);
      RespondKeeps(Play(list, commands[..|commands| - 1]).list, commands[|commands| - 1]);
    }
  }

  lemma {:induction false} SameIndex(a: seq<Device>, b: seq<Device>, key: int)
    requires SameDevices(a, b)
    ensures IndexOf(a, key, 0) == IndexOf(b, key, 0)
  {
    hide IndexOf;
    var i, j := IndexOf(a, key, 0), IndexOf(b, key, 0);
    assert i < |a| ==> b[i].key == key;
    assert j < |a| ==> a[j].key == key;
  }

  /** No other device has the pin of device `i`. */
  ghost predicate OwnPin(list: seq<Device>, i: nat) {
    i < |list| && forall j | 0 <= j < |list| && j != i :: list[j].pin != list[i].pin
  }

  /** A face-checked device with a pin of its own. */
  ghost predicate Door(list: seq<Device>, i: nat) {
    OwnPin(list, i) && list[i].faceCheck == 1
  }

  /** A command of a run that writes to the door's pin names the door and passes the face check;
      the writes end with HIGH. */
  lemma {:induction false} DoorWrites(list: seq<Device>, i: nat, commands: seq<Command>, c: Command)
    requires Door(list, i)
    ensures var effects := Respond(Play(list, commands).list, c).effects;
            var levels := LevelsOn(effects, list[i].pin);
            && (Touches(effects, list[i].pin) ==> c.score > 0.5 && IndexOf(list, c.key, 0) == i)
            && (levels != [] ==> levels[|levels| - 1] == 1)
  {
    hide IndexOf, Respond, Play, LevelsOn, Touches;
    var now := Play(list, commands).list;
    PlayKeeps(list, commands);
    SameIndex(list, now, c.key);
    CommandWrites(now, c, list[i].pin);
    var k := IndexOf(now, c.key, 0);
    assert k < |now| ==> now[k].pin == list[k].pin && now[k].faceCheck == list[k].faceCheck;
  }

  // ---------------------------------------------------------------- recorded and real levels

  /** One past the last command that names device `i`, or 0 when none does. */
  function LastNaming(list: seq<Device>, i: nat, commands: seq<Command>): (n: nat)
    ensures n <= |commands| && (n > 0 ==> IndexOf(list, commands[n - 1].key, 0) == i)
    ensures forall j | n <= j < |commands| :: IndexOf(list, commands[j].key, 0) != i
  {
    var n := |commands|;
    if n == 0 || IndexOf(list, commands[n - 1].key, 0) == i then n else LastNaming(list, i, commands[..n - 1])
  }

  /** The level of a pin after some commands. */
  function LevelAfter(list: seq<Device>, commands: seq<Command>, pin: int, initial: int): int {
    LastOr(LevelsOn(Play(list, commands).log, pin), initial)
  }

  /** One more command of a run, for a device with a pin of its own: a command that names it is
      recorded and, when granted, ends with the recorded level at the pin. */
  lemma {:induction false} OneMore(list: seq<Device>, i: nat, commands: seq<Command>, c: Command, initial: int)
    requires OwnPin(list, i) && list[i].pin != -1
    ensures var p, q, pin := Play(list, commands), Play(list, commands + [c]), list[i].pin;
            var level := LevelAfter(list, commands + [c], pin, initial);
            && |p.list| == |q.list| == |list|
            && if IndexOf(list, c.key, 0) != i
               then q.list[i] == p.list[i] && level == LevelAfter(list, commands, pin, initial)
               else
                 var asked := if c.value == 0 then 0 else 1;
                 if list[i].faceCheck != 1 then q.list[i].status == level == asked
                 else if c.score > 0.5 then q.list[i].status == level == 1
                 else q.list[i].status == asked && level == LevelAfter(list, commands, pin, initial)
  {
    hide IndexOf, LevelsOn, Touches, GpioEffects, Announcement;
    var p := Play(list, commands);
    assert (commands + [c])[..|commands|] == commands;
    PlayKeeps(list, commands);
    SameIndex(list, p.list, c.key);
    CommandWrites(p.list, c, list[i].pin);
    LevelsAppend(p.log, Respond(p.list, c).effects, list[i].pin);
  }

  lemma {:induction false} AtStart(list: seq<Device>, pin: int, initial: int)
    ensures Play(list, []).list == list && LevelAfter(list, [], pin, initial) == initial
  {
    NoLevels(pin);
  }

  /** The recorded level of a device with a pin of its own is that of the pin, after any run,
      exactly when the last command that named the device was granted or asked for the level then
      at the pin; without such a command, exactly when the two agreed at the start. */
  lemma {:induction false} ShownLevels(list: seq<Device>, i: nat, commands: seq<Command>, initial: int)
    requires OwnPin(list, i) && list[i].pin != -1
    ensures var n, pin := LastNaming(list, i, commands), list[i].pin;
            && |Play(list, commands).list| == |list|
            && (Play(list, commands).list[i].status == LevelAfter(list, commands, pin, initial)
                <==> if n == 0 then list[i].status == initial
                     else
                       var c := commands[n - 1];
                       || list[i].faceCheck != 1 || c.score > 0.5
                       || LevelAfter(list, commands[..n - 1], pin, initial) == if c.value == 0 then 0 else 1)
    decreases |commands|
  {
    hide IndexOf, Play, LevelAfter;
    if commands == [] {
      AtStart(list, list[i].pin, initial);
    } else {
      var n := |commands| - 1;
      var rest, c := commands[..n], commands[n];
      assert commands == rest + [c];
      OneMore(list, i, rest, c, initial);
      if IndexOf(list, c.key, 0) != i {
        ShownLevels(list, i, rest, initial);
        var m := LastNaming(list, i, rest);
        assert m > 0 ==> rest[..m - 1] == commands[..m - 1];
      }
    }
  }

  /** The last command that names a device without a face check decides its level, at a pin of its
      own and in the list: LOW for byte 0, HIGH for any other. Without such a command both are as
      they were. */
  lemma {:induction false} LastByteDecides(list: seq<Device>, i: nat, commands: seq<Command>, initial: int)
    requires OwnPin(list, i) && list[i].pin != -1 && list[i].faceCheck != 1
    ensures var n, p := LastNaming(list, i, commands), Play(list, commands);
            var level := LevelAfter(list, commands, list[i].pin, initial);
            && |p.list| == |list|
            && if n == 0 then level == initial && p.list[i].status == list[i].status
               else
                 && (level == 0 <==> commands[n - 1].value == 0) && (level == 1 <==> commands[n - 1].value != 0)
                 && p.list[i].status == level
    decreases |commands|
  {
    hide IndexOf, Play, LevelAfter;
    if commands == [] {
      AtStart(list, list[i].pin, initial);
    } else {
      var n := |commands| - 1;
      var rest, c := commands[..n], commands[n];
      assert commands == rest + [c];
      OneMore(list, i, rest, c, initial);
      if IndexOf(list, c.key, 0) != i {
        LastByteDecides(list, i, rest, initial);
      }
    }
  }

  /** Nothing is ever written to pin -1. */
  lemma {:induction false} NoPin(list: seq<Device>, commands: seq<Command>)
    ensures LevelsOn(Play(list, commands).log, -1) == []
    decreases |commands|
  {
    hide Respond, LevelsOn, Touches;
    if commands == [] {
      NoLevels(-1);
    } else {
      var rest, c := commands[..|commands| - 1], commands[|commands| - 1];
      NoPin(list, rest);
      CommandWrites(Play(list, rest).list, c, -1);
      LevelsAppend(Play(list, rest).log, Respond(Play(list, rest).list, c).effects, -1);
    }
  }

  /** After every run the door's pin is HIGH if a command that named the door passed the face check,
      and at its initial level if none did. */
  lemma {:induction false} DoorSafe(list: seq<Device>, i: nat, commands: seq<Command>, initial: int)
    requires Door(list, i)
    ensures LevelAfter(list, commands, list[i].pin, initial)
         == if list[i].pin != -1
               && exists j | 0 <= j < |commands| :: IndexOf(list, commands[j].key, 0) == i && commands[j].score > 0.5
            then 1 else initial
    decreases |commands|
  {
    hide IndexOf, Play, LevelsOn;
    if list[i].pin == -1 {
      NoPin(list, commands);
    } else if commands == [] {
      AtStart(list, list[i].pin, initial);
    } else {
      var n := |commands| - 1;
      var rest, c := commands[..n], commands[n];
      assert commands == rest + [c];
      DoorSafe(list, i, rest, initial);
      OneMore(list, i, rest, c, initial);
      if j :| 0 <= j < |commands| && IndexOf(list, commands[j].key, 0) == i && commands[j].score > 0.5 && j < n {
        assert rest[j] == commands[j];
      }
    }
  }
}
