/** From the text of a configuration to the result of a lookup: the parser, the device list it
    fills and the search of that list, put together. */
module DeviceConfig {
  import opened CText
  import opened Options
  import opened IniSpec
  import opened IniReader
  import opened IniLines
  import opened IniParser
  import opened IniRuns
  import opened IniRoundTrip
  import opened CNumbers
  import opened DeviceRegistry
  import opened DeviceRuns

  // ---------------------------------------------------------------- loading

  /** A callback that takes down every call and accepts it. */
  function Record(calls: seq<Call>, c: Call): (seq<Call>, bool) {
    (calls + [c], true)
  }

  lemma {:induction false} RecordKeeps(calls: seq<Call>)
    ensures Deliver(Record, [], calls) == calls
    decreases |calls|
  {
    hide Deliver;
    if calls == [] {
      DeliverNone(Record, []);
    } else {
      var n := |calls| - 1;
      RecordKeeps(calls[..n]);
      assert calls[..n] + [calls[n]] == calls;
      DeliverOne(Record, [], calls[..n], calls[n]);
    }
  }

  /** The list that a configuration text stands for. */
  function DevicesIn(text: string): seq<Device> {
    Run(DEFAULT, DeviceHandler, [], text).user
  }

  lemma {:induction false} RecordedCalls(text: string)
    ensures var calls := Run(DEFAULT, Record, [], text).user;
            && calls == Run(DEFAULT, DeviceHandler, [], text).trace
            && Registry(calls) == DevicesIn(text)
            && forall c | c in calls :: c.value.Some?
  {
    hide Run, Deliver;
    RunUser(DEFAULT, Record, [], text);
    RecordKeeps(Run(DEFAULT, Record, [], text).trace);
    CallsFixedByText(DEFAULT, Record, [], DeviceHandler, [], text);
    RunUser(DEFAULT, DeviceHandler, [], text);
    ValuesPresent(DEFAULT, Record, [], text);
  }

  lemma {:induction false} DeliverNext<U>(h: Handler<U>, u: U, calls: seq<Call>, i: nat)
    requires i < |calls|
    ensures Deliver(h, u, calls[..i + 1]) == h(Deliver(h, u, calls[..i]), calls[i]).0
  {
    hide Deliver;
    assert calls[..i + 1] == calls[..i] + [calls[i]];
    DeliverOne(h, u, calls[..i], calls[i]);
  }

  /** `receive_init`: parses the text with the default flags and handles its calls one by one.
      Section names longer than a device name can hold are outside what the C code can take. */
  method LoadDevices(text: string) returns (list: DeviceList)
    requires NUL !in text
    requires forall c | c in Run(DEFAULT, DeviceHandler, [], text).trace :: |c.section| < NAME_SIZE
    ensures list.Valid() && list.Contents() == DevicesIn(text)
  {
    hide Run, Deliver, Handled;
    RecordedCalls(text);
    var r, calls, trace := ParseString(DEFAULT, Record, (_: nat) => true, [], text);
    list := new DeviceList();
    var i := 0;
    DeliverNone(DeviceHandler, []);
    assert calls[..0] == [];
    while i < |calls|
      invariant 0 <= i <= |calls| && list.Valid() && fresh(list) && fresh(list.nodes)
      invariant list.Contents() == Deliver(DeviceHandler, [], calls[..i])
    {
      DeliverNext(DeviceHandler, [], calls, i);
      var c := calls[i];
      list.Handle(c.section, c.name, c.value.value);
      i := i + 1;
    }
    assert calls[..i] == calls;
  }

  // ---------------------------------------------------------------- printing a configuration

  function ModeWord(mode: int): string {
    if mode == OUTPUT then "OUTPUT" else "INPUT"
  }

  function LevelWord(level: int): string {
    if level == HIGH then "HIGH" else "LOW"
  }

  function Fields(d: Device): seq<(string, string)> {
    [("key", Hex(d.key)), ("gpio_pin", Decimal(d.pin)), ("gpio_mode", ModeWord(d.mode)),
     ("gpio_status", LevelWord(d.status)), ("check_face_status", Decimal(d.faceCheck)),
     ("voice_set_status", Decimal(d.voice))]
  }

  function Entries(fields: seq<(string, string)>): seq<Item> {
    if fields == [] then [] else [Entry(fields[0].0, fields[0].1)] + Entries(fields[1..])
  }

  function ConfigDoc(devs: seq<Device>): seq<Item> {
    if devs == [] then []
    else [Section(devs[0].name)] + (Entries(Fields(devs[0])) + ConfigDoc(devs[1..]))
  }

  /** A device that a configuration can state: its name fits the name field and survives as a
      section, its numbers are 32-bit and its mode and level have a keyword. */
  ghost predicate Statable(d: Device) {
    && |d.name| < NAME_SIZE && '\n' !in d.name && NUL !in d.name && Undisturbed(DEFAULT.syntax, d.name, "]")
    && INT_MIN <= d.key <= INT_MAX && INT_MIN <= d.pin <= INT_MAX
    && INT_MIN <= d.faceCheck <= INT_MAX && INT_MIN <= d.voice <= INT_MAX
    && (d.mode == INPUT || d.mode == OUTPUT) && (d.status == LOW || d.status == HIGH)
  }

  ghost predicate NeighboursDiffer(devs: seq<Device>) {
    forall i | 0 < i < |devs| :: devs[i].name != devs[i - 1].name
  }

  // ---- every line is clean

  ghost predicate AlwaysClean(item: Item) {
    forall first, name :: CleanItem(DEFAULT, first, name, item)
  }

  lemma {:induction false} AllClean(doc: seq<Item>, first: bool, name: string)
    requires forall i | 0 <= i < |doc| :: AlwaysClean(doc[i])
    ensures CleanDoc(DEFAULT, first, name, doc)
    decreases |doc|
  {
    hide CleanItem;
    if doc != [] {
      AllClean(doc[1..], false, NameAfter(name, doc[0]));
    }
  }

  /** Short texts of printable characters without white space. */
  ghost predicate Token(s: string) {
    0 < |s| <= 20 && forall i | 0 <= i < |s| :: !IsSpace(s[i]) && s[i] != NUL
  }

  ghost predicate KeyToken(s: string) {
    Token(s) && (forall i | 0 <= i < |s| :: s[i] != '=' && s[i] != ':') && s[0] !in ";#[" && s[0] != BOM[0]
  }

  lemma {:induction false} TokenEntryClean(n: string, v: string)
    requires KeyToken(n) && Token(v)
    ensures AlwaysClean(Entry(n, v))
  {
    var l := n + "=" + v + "\n";
    assert forall i | 0 <= i < |l| - 1 :: l[i] != '\n';
    assert (n + "=")[0] == n[0];
    forall first, name
      ensures CleanItem(DEFAULT, first, name, Entry(n, v))
    {
      Unmarked(DEFAULT.syntax, first, l);
    }
  }

  lemma {:induction false} SectionClean(d: Device)
    requires Statable(d)
    ensures AlwaysClean(Section(d.name))
  {
    hide Undisturbed;
    var l := "[" + d.name + "]\n";
    assert forall i | 0 <= i < |d.name| :: d.name[i] in d.name;
    assert forall i | 0 <= i < |l| - 1 :: l[i] != '\n';
    forall first, name
      ensures CleanItem(DEFAULT, first, name, Section(d.name))
    {
      Unmarked(DEFAULT.syntax, first, l);
    }
  }

  lemma {:induction false} DigitsAreToken(n: nat, base: nat)
    requires (base == 10 || base == 16) && n <= 0xffff_ffff
    ensures Token(Digits(n, base)) && |Digits(n, base)| <= 10
  {
    hide Digits;
    assert Power(10, 10) == 100_0000_0000;
    assert Power(16, 8) == 0x1_0000_0000;
    DigitsFit(n, base, if base == 10 then 10 else 8);
    assert !IsDigit(NUL, base);
  }

  lemma {:induction false} HexIsToken(n: int)
    ensures Token(Hex(n))
  {
    hide Digits;
    DigitsAreToken(n % 0x1_0000_0000, 16);
  }

  lemma {:induction false} FieldsClean(d: Device, i: nat)
    requires Statable(d) && i < |Fields(d)|
    ensures AlwaysClean(Entry(Fields(d)[i].0, Fields(d)[i].1))
  {
    hide AlwaysClean, Token, KeyToken, Hex, Decimal, ModeWord, LevelWord, Undisturbed;
    HexIsToken(d.key);
    DecimalIsToken(d.pin);
    DecimalIsToken(d.faceCheck);
    DecimalIsToken(d.voice);
    WordsAreTokens(d);
    NamesAreTokens();
    LongNamesAreTokens();
    TokenEntryClean(Fields(d)[i].0, Fields(d)[i].1);
  }

  lemma {:induction false} WordsAreTokens(d: Device)
    ensures Token(ModeWord(d.mode)) && Token(LevelWord(d.status))
  {
  }

  lemma {:induction false} NamesAreTokens()
    ensures KeyToken("key") && KeyToken("gpio_pin") && KeyToken("gpio_mode") && KeyToken("gpio_status")
  {
  }

  lemma {:induction false} LongNamesAreTokens()
    ensures KeyToken("check_face_status") && KeyToken("voice_set_status")
  {
  }

  lemma {:induction false} DecimalIsToken(n: int)
    requires INT_MIN <= n <= INT_MAX
    ensures Token(Decimal(n))
  {
    hide Digits;
    DigitsAreToken(if n < 0 then -n else n, 10);
  }

  lemma {:induction false} EntriesClean(d: Device, i: nat)
    requires Statable(d) && i <= |Fields(d)|
    ensures forall item | item in Entries(Fields(d)[i..]) :: AlwaysClean(item)
    decreases |Fields(d)| - i
  {
    hide AlwaysClean, Statable, Fields;
    if i < |Fields(d)| {
      FieldsClean(d, i);
      EntriesClean(d, i + 1);
      assert Fields(d)[i..][1..] == Fields(d)[i + 1..];
    }
  }

  lemma {:induction false} ConfigClean(devs: seq<Device>)
    requires forall i | 0 <= i < |devs| :: Statable(devs[i])
    ensures forall item | item in ConfigDoc(devs) :: AlwaysClean(item)
    decreases |devs|
  {
    hide AlwaysClean, Statable, Fields, Entries;
    if devs != [] {
      SectionClean(devs[0]);
      EntriesClean(devs[0], 0);
      assert Fields(devs[0])[0..] == Fields(devs[0]);
      ConfigClean(devs[1..]);
    }
  }

  // ---- its calls build the devices

  function FieldCalls(section: string, fields: seq<(string, string)>): seq<Call> {
    if fields == [] then []
    else [Call(section, fields[0].0, Some(fields[0].1))] + FieldCalls(section, fields[1..])
  }

  lemma {:induction false} EntryCalls(section: string, name: string, fields: seq<(string, string)>, rest: seq<Item>)
    returns (name': string)
    ensures DocCalls(section, name, Entries(fields) + rest)
         == FieldCalls(section, fields) + DocCalls(section, name', rest)
    decreases |fields|
  {
    hide ItemCall, SectionAfter, NameAfter, DocCalls;
    if fields == [] {
      assert Entries(fields) + rest == rest;
      name' := name;
    } else {
      var item := Entry(fields[0].0, fields[0].1);
      var tail := Entries(fields[1..]) + rest;
      assert Entries(fields) + rest == [item] + tail;
      name' := EntryCalls(section, NameAfter(name, item), fields[1..], rest);
      DocCallsCons(section, name, item, tail);
      CallOfEntry(section, name, fields[0].0, fields[0].1);
    }
  }

  lemma {:induction false} CallOfEntry(section: string, name: string, n: string, v: string)
    ensures ItemCall(section, name, Entry(n, v)) == [Call(section, n, Some(v))]
    ensures SectionAfter(section, Entry(n, v)) == section
  {
  }

  lemma {:induction false} DocCallsCons(section: string, name: string, item: Item, rest: seq<Item>)
    ensures DocCalls(section, name, [item] + rest)
         == ItemCall(section, name, item) + DocCalls(SectionAfter(section, item), NameAfter(name, item), rest)
  {
    hide ItemCall, SectionAfter, NameAfter;
    assert ([item] + rest)[1..] == rest;
  }

  lemma {:induction false} DeliverAppend<U>(h: Handler<U>, u: U, a: seq<Call>, b: seq<Call>)
    ensures Deliver(h, u, a + b) == Deliver(h, Deliver(h, u, a), b)
    decreases |b|
  {
    hide Deliver;
    if b == [] {
      assert a + b == a;
      DeliverNone(h, Deliver(h, u, a));
    } else {
      var n := |b| - 1;
      assert b == b[..n] + [b[n]] && a + b == (a + b[..n]) + [b[n]];
      DeliverOne(h, u, a + b[..n], b[n]);
      DeliverOne(h, Deliver(h, u, a), b[..n], b[n]);
      DeliverAppend(h, u, a, b[..n]);
    }
  }

  /** A device after a list of assignments. */
  function WithFields(d: Device, fields: seq<(string, string)>): Device
    decreases |fields|
  {
    if fields == [] then d else WithFields(Assigned(d, fields[0].0, fields[0].1), fields[1..])
  }

  lemma {:induction false} DeliverFields(d: Device, list: seq<Device>, fields: seq<(string, string)>)
    ensures Deliver(DeviceHandler, [d] + list, FieldCalls(d.name, fields)) == [WithFields(d, fields)] + list
    decreases |fields|
  {
    hide Assigned, Deliver;
    if fields == [] {
      DeliverNone(DeviceHandler, [d] + list);
    } else {
      var c := Call(d.name, fields[0].0, Some(fields[0].1));
      var e := Assigned(d, fields[0].0, fields[0].1);
      AssignedField(d, fields[0].0, fields[0].1, Key);
      assert Handled([d] + list, c) == [e] + list;
      DeliverFields(e, list, fields[1..]);
      DeliverAppend(DeviceHandler, [d] + list, [c], FieldCalls(d.name, fields[1..]));
      DeliverNone(DeviceHandler, [d] + list);
      DeliverOne(DeviceHandler, [d] + list, [], c);
      assert [] + [c] == [c];
    }
  }

  lemma {:induction false} StartsDevice(name: string, list: seq<Device>, fields: seq<(string, string)>)
    requires fields != [] && (list == [] || list[0].name != name)
    ensures Deliver(DeviceHandler, list, FieldCalls(name, fields)) == [WithFields(NewDevice(name), fields)] + list
  {
    hide Assigned, Deliver;
    var c := Call(name, fields[0].0, Some(fields[0].1));
    var e := Assigned(NewDevice(name), fields[0].0, fields[0].1);
    AssignedField(NewDevice(name), fields[0].0, fields[0].1, Key);
    assert Handled(list, c) == [e] + list;
    DeliverFields(e, list, fields[1..]);
    DeliverAppend(DeviceHandler, list, [c], FieldCalls(name, fields[1..]));
    DeliverNone(DeviceHandler, list);
    DeliverOne(DeviceHandler, list, [], c);
    assert [] + [c] == [c];
  }

  lemma {:induction false} WithNext(d: Device, e: Device, fields: seq<(string, string)>, i: nat)
    requires i < |fields| && Assigned(d, fields[i].0, fields[i].1) == e
    ensures WithFields(d, fields[i..]) == WithFields(e, fields[i + 1..])
  {
    hide Assigned;
    assert fields[i..][1..] == fields[i + 1..];
  }

  /** The printed fields give the device back. */
  lemma {:induction false} FieldsRestore(d: Device)
    requires Statable(d)
    ensures WithFields(NewDevice(d.name), Fields(d)) == d
  {
    hide ScanHex, Atoi, Hex, Decimal, WithFields, Undisturbed;
    ScanHexHex(d.key);
    AtoiDecimal(d.pin);
    AtoiDecimal(d.faceCheck);
    AtoiDecimal(d.voice);
    var fs := Fields(d);
    var d0 := NewDevice(d.name);
    var d1 := d0.(key := d.key);
    var d2 := d1.(pin := d.pin);
    var d3 := d2.(mode := d.mode);
    var d4 := d3.(status := d.status);
    var d5 := d4.(faceCheck := d.faceCheck);
    WithNext(d0, d1, fs, 0);
    WithNext(d1, d2, fs, 1);
    WithNext(d2, d3, fs, 2);
    WithNext(d3, d4, fs, 3);
    WithNext(d4, d5, fs, 4);
    WithNext(d5, d, fs, 5);
    assert fs[0..] == fs && fs[6..] == [];
    WithNone(d);
  }

  lemma {:induction false} WithNone(d: Device)
    ensures WithFields(d, []) == d
  {
  }

  function Reversed(devs: seq<Device>): seq<Device> {
    if devs == [] then [] else Reversed(devs[1..]) + [devs[0]]
  }

  lemma {:induction false} ConfigCalls(devs: seq<Device>, section: string, name: string) returns (name': string)
    requires devs != [] && Statable(devs[0])
    ensures DocCalls(section, name, ConfigDoc(devs))
         == FieldCalls(devs[0].name, Fields(devs[0])) + DocCalls(devs[0].name, name', ConfigDoc(devs[1..]))
  {
    hide DocCalls, Fields, Entries, Undisturbed;
    var d := devs[0];
    DocCallsCons(section, name, Section(d.name), Entries(Fields(d)) + ConfigDoc(devs[1..]));
    name' := EntryCalls(d.name, "", Fields(d), ConfigDoc(devs[1..]));
  }

  /** The calls of a printed configuration build its devices, the last one first. */
  lemma {:induction false} ConfigBuilds(devs: seq<Device>, section: string, name: string, list: seq<Device>)
    requires (forall i | 0 <= i < |devs| :: Statable(devs[i])) && NeighboursDiffer(devs)
    requires list == [] || devs == [] || list[0].name != devs[0].name
    ensures Deliver(DeviceHandler, list, DocCalls(section, name, ConfigDoc(devs))) == Reversed(devs) + list
    decreases |devs|
  {
    hide Deliver, Statable, ConfigDoc, Assigned, WithFields, FieldCalls, Hex, Decimal;
    if devs == [] {
      NoCalls(section, name);
      DeliverNone(DeviceHandler, list);
    } else {
      var d, rest := devs[0], devs[1..];
      var name' := ConfigCalls(devs, section, name);
      StartsDevice(d.name, list, Fields(d));
      FieldsRestore(d);
      DeliverAppend(DeviceHandler, list, FieldCalls(d.name, Fields(d)), DocCalls(d.name, name', ConfigDoc(rest)));
      ConfigBuilds(rest, d.name, name', [d] + list);
      assert Reversed(devs) + list == Reversed(rest) + ([d] + list);
    }
  }

  lemma {:induction false} NoCalls(section: string, name: string)
    ensures DocCalls(section, name, ConfigDoc([])) == []
  {
  }

  // ---- neighbours of one name merge

  lemma {:induction false} SameSectionMerges(section: string, list: seq<Device>, calls: seq<Call>)
    requires calls != [] && forall c | c in calls :: c.section == section
    ensures var r := Deliver(DeviceHandler, list, calls);
            && r != [] && r[0].name == section
            && |r| == |list| + (if list == [] || list[0].name != section then 1 else 0)
    decreases |calls|
  {
    hide Deliver, Assigned;
    var n := |calls| - 1;
    assert calls == calls[..n] + [calls[n]];
    DeliverOne(DeviceHandler, list, calls[..n], calls[n]);
    if n == 0 {
      DeliverNone(DeviceHandler, list);
    } else {
      SameSectionMerges(section, list, calls[..n]);
    }
  }

  lemma {:induction false} FieldSections(section: string, fields: seq<(string, string)>)
    ensures |FieldCalls(section, fields)| == |fields|
    ensures forall c | c in FieldCalls(section, fields) :: c.section == section
    decreases |fields|
  {
    if fields != [] {
      FieldSections(section, fields[1..]);
    }
  }

  /** A configuration never builds more devices than it has sections, and fewer when two
      neighbours share a name. */
  lemma {:induction false} ConfigMerges(devs: seq<Device>, section: string, name: string, list: seq<Device>)
    requires forall i | 0 <= i < |devs| :: Statable(devs[i])
    ensures var r := Deliver(DeviceHandler, list, DocCalls(section, name, ConfigDoc(devs)));
            && |r| <= |list| + |devs|
            && (list != [] && devs != [] && list[0].name == devs[0].name ==> |r| < |list| + |devs|)
            && (!NeighboursDiffer(devs) ==> |r| < |list| + |devs|)
    decreases |devs|
  {
    hide Deliver, Statable, ConfigDoc, FieldCalls, Hex, Decimal;
    if devs == [] {
      NoCalls(section, name);
      DeliverNone(DeviceHandler, list);
    } else {
      var d, rest := devs[0], devs[1..];
      var name' := ConfigCalls(devs, section, name);
      var calls := FieldCalls(d.name, Fields(d));
      FieldSections(d.name, Fields(d));
      SameSectionMerges(d.name, list, calls);
      DeliverAppend(DeviceHandler, list, calls, DocCalls(d.name, name', ConfigDoc(rest)));
      ConfigMerges(rest, d.name, name', Deliver(DeviceHandler, list, calls));
      if !NeighboursDiffer(devs) {
        NeighboursTail(devs);
      }
    }
  }

  lemma {:induction false} NeighboursTail(devs: seq<Device>)
    requires devs != [] && !NeighboursDiffer(devs)
    ensures (|devs| > 1 && devs[1].name == devs[0].name) || !NeighboursDiffer(devs[1..])
  {
    var i :| 0 < i < |devs| && devs[i].name == devs[i - 1].name;
    if i > 1 {
      assert devs[1..][i - 1].name == devs[1..][i - 2].name;
    }
  }

  lemma {:induction false} LoadedDevices(devs: seq<Device>)
    requires forall i | 0 <= i < |devs| :: Statable(devs[i])
    ensures DevicesIn(Print(ConfigDoc(devs))) == Deliver(DeviceHandler, [], DocCalls("", "", ConfigDoc(devs)))
    ensures Run(DEFAULT, DeviceHandler, [], Print(ConfigDoc(devs))).trace == DocCalls("", "", ConfigDoc(devs))
    ensures Run(DEFAULT, DeviceHandler, [], Print(ConfigDoc(devs))).error == 0
    ensures NUL !in Print(ConfigDoc(devs))
  {
    hide Run, Deliver, ConfigDoc, Print, DocCalls, CleanDoc, Statable, AlwaysClean;
    var doc := ConfigDoc(devs);
    ConfigClean(devs);
    AllClean(doc, true, "");
    PrintedText(DEFAULT, true, "", doc);
    RoundTrip(DEFAULT, DeviceHandler, [], doc);
    RunUser(DEFAULT, DeviceHandler, [], Print(doc));
  }

  lemma {:induction false} ReversedAt(devs: seq<Device>, i: nat)
    requires i < |devs|
    ensures |Reversed(devs)| == |devs| && Reversed(devs)[|devs| - 1 - i] == devs[i]
    decreases |devs|
  {
    ReversedLength(devs[1..]);
    if i > 0 {
      ReversedAt(devs[1..], i - 1);
    }
  }

  lemma {:induction false} ReversedLength(devs: seq<Device>)
    ensures |Reversed(devs)| == |devs|
    decreases |devs|
  {
    if devs != [] {
      ReversedLength(devs[1..]);
    }
  }

  /** Printing devices and loading the text gives the same devices, in reverse, exactly when no
      two neighbours have the same name. */
  lemma {:induction false} ConfigRoundTrip(devs: seq<Device>)
    requires forall i | 0 <= i < |devs| :: Statable(devs[i])
    ensures DevicesIn(Print(ConfigDoc(devs))) == Reversed(devs) <==> NeighboursDiffer(devs)
  {
    hide Run, Deliver, ConfigDoc, Print, DocCalls, Statable, Reversed, DevicesIn;
    LoadedDevices(devs);
    ReversedLength(devs);
    if NeighboursDiffer(devs) {
      ConfigBuilds(devs, "", "", []);
      assert Reversed(devs) + [] == Reversed(devs);
    } else {
      ConfigMerges(devs, "", "", []);
    }
  }

  /** End to end: a lookup in a printed and loaded configuration finds exactly the last device
      that was printed with the key, and nothing when none was. */
  lemma {:induction false} ConfigLookup(devs: seq<Device>, key: int)
    requires (forall i | 0 <= i < |devs| :: Statable(devs[i])) && NeighboursDiffer(devs)
    ensures match Lookup(DevicesIn(Print(ConfigDoc(devs))), key)
            case None => forall i | 0 <= i < |devs| :: devs[i].key != key
            case Some(d) => exists i | 0 <= i < |devs| ::
              devs[i] == d && d.key == key && forall j | i < j < |devs| :: devs[j].key != key
  {
    hide DevicesIn, Reversed, Statable, NeighboursDiffer, ConfigDoc, Print, IndexOf;
    var n, list := |devs|, Reversed(devs);
    ConfigRoundTrip(devs);
    ReversedLength(devs);
    var m := IndexOf(list, key, 0);
    forall i {:trigger devs[i]} | 0 <= i < n
      ensures devs[i] == list[n - 1 - i]
    {
      ReversedAt(devs, i);
    }
    if m < n {
      assert devs[n - 1 - m] == list[m];
    }
  }

  /** No section of a printed configuration is longer than a name field. */
  lemma {:induction false} SectionsFit(devs: seq<Device>, section: string, name: string)
    requires forall i | 0 <= i < |devs| :: Statable(devs[i])
    ensures forall c | c in DocCalls(section, name, ConfigDoc(devs)) :: |c.section| < NAME_SIZE
    decreases |devs|
  {
    hide ConfigDoc, DocCalls, FieldCalls, Fields, Undisturbed;
    if devs == [] {
      NoCalls(section, name);
    } else {
      var name' := ConfigCalls(devs, section, name);
      FieldSections(devs[0].name, Fields(devs[0]));
      SectionsFit(devs[1..], devs[0].name, name');
    }
  }

  /** The same in memory: devices are printed, the text is loaded and the list searched for a key.
      The node found holds the last printed device with the key; there is none exactly when no
      device has the key. */
  method FindPrinted(devs: seq<Device>, key: int) returns (list: DeviceList, p: GDevice?)
    requires (forall i | 0 <= i < |devs| :: Statable(devs[i])) && NeighboursDiffer(devs)
    ensures list.Valid() && list.Contents() == Reversed(devs)
    ensures p == null <==> forall i | 0 <= i < |devs| :: devs[i].key != key
    ensures p != null ==> p in list.nodes && exists i | 0 <= i < |devs| ::
      devs[i] == p.Value() && p.key == key && forall j | i < j < |devs| :: devs[j].key != key
  {
    hide Run, DevicesIn, Reversed, Statable, NeighboursDiffer, ConfigDoc, Print, DocCalls, Lookup;
    LoadedDevices(devs);
    SectionsFit(devs, "", "");
    ConfigRoundTrip(devs);
    ConfigLookup(devs, key);
    list := LoadDevices(Print(ConfigDoc(devs)));
    p := list.FindByKey(key);
  }

  /** Two sections of one name in a row are one device. */
  lemma {:induction false} SameNameExample()
    ensures var devs := [Device("led", 0x41, 5, OUTPUT, HIGH, 0, 0), Device("led", 0x42, 6, OUTPUT, HIGH, 0, 0)];
            DevicesIn(Print(ConfigDoc(devs))) != Reversed(devs)
  {
    hide DevicesIn, Print, ConfigDoc, Reversed;
    var devs := [Device("led", 0x41, 5, OUTPUT, HIGH, 0, 0), Device("led", 0x42, 6, OUTPUT, HIGH, 0, 0)];
    assert devs[1].name == devs[0].name;
    ConfigRoundTrip(devs);
  }

  // ---------------------------------------------------------------- in characters

  const LIGHT: Device := Device("lrled", 65, 5, 1, 1, 0, 0)

  const LIGHT_LINES: seq<string> :=
    ["[lrled]\n", "key=0x41\n", "gpio_pin=5\n", "gpio_mode=OUTPUT\n", "gpio_status=HIGH\n",
     "check_face_status=0\n", "voice_set_status=0\n"]

  lemma {:induction false} OneDigit(n: nat, base: nat)
    requires n < 10 && (base == 10 || base == 16)
    ensures Digits(n, base) == ["0123456789abcdef"[n]]
  {
    assert n % base == n;
  }

  lemma {:induction false} LightNumbers()
    ensures Hex(65) == "0x41" && Decimal(5) == "5" && Decimal(0) == "0"
  {
    hide Digits;
    OneDigit(5, 10);
    OneDigit(0, 10);
    LightKey();
  }

  lemma {:induction false} LightKey()
    ensures Digits(65, 16) == "41"
  {
    OneDigit(4, 16);
    assert Digits(65, 16) == Digits(4, 16) + ["0123456789abcdef"[1]];
  }

  lemma {:induction false} LightFields()
    ensures Fields(LIGHT) == [("key", "0x41"), ("gpio_pin", "5"), ("gpio_mode", "OUTPUT"), ("gpio_status", "HIGH"),
                              ("check_face_status", "0"), ("voice_set_status", "0")]
  {
    hide Hex, Decimal;
    LightNumbers();
  }

  lemma {:induction false} PrintedLines(doc: seq<Item>)
    ensures Print(doc) == Concat(ItemLines(doc))
    decreases |doc|
  {
    hide PrintItem;
    if doc != [] {
      PrintedLines(doc[1..]);
    }
  }

  lemma {:induction false} EntryLines(fields: seq<(string, string)>, rest: seq<Item>)
    ensures ItemLines(Entries(fields) + rest)
         == seq(|fields|, i requires 0 <= i < |fields| => fields[i].0 + "=" + fields[i].1 + "\n") + ItemLines(rest)
    decreases |fields|
  {
    if fields == [] {
      assert Entries(fields) + rest == rest;
    } else {
      assert (Entries(fields) + rest)[1..] == Entries(fields[1..]) + rest;
      EntryLines(fields[1..], rest);
    }
  }

  lemma {:induction false} LightLines()
    ensures ItemLines(ConfigDoc([LIGHT])) == LIGHT_LINES
  {
    hide Fields, Entries;
    LightFields();
    var fields := Fields(LIGHT);
    var entries := Entries(fields) + [];
    EntryLines(fields, []);
    assert [LIGHT][1..] == [] && ConfigDoc([LIGHT]) == [Section("lrled")] + entries;
    assert ([Section("lrled")] + entries)[1..] == entries;
    assert ItemLines(ConfigDoc([LIGHT])) == ["[" + "lrled" + "]\n"] + ItemLines(entries);
    assert ItemLines([]) == [] && "[" + "lrled" + "]\n" == LIGHT_LINES[0];
    forall i | 0 <= i < 6
      ensures fields[i].0 + "=" + fields[i].1 + "\n" == LIGHT_LINES[i + 1]
    {
      LightText(i);
    }
  }

  lemma {:induction false} LightText(i: nat)
    requires i < 6
    ensures Fields(LIGHT)[i].0 + "=" + Fields(LIGHT)[i].1 + "\n" == LIGHT_LINES[i + 1]
  {
    hide Fields;
    LightFields();
  }

  /** The text of one device of the controller's own configuration, and the device it loads as. */
  lemma {:induction false} LightLoads()
    ensures Print(ConfigDoc([LIGHT])) == Concat(LIGHT_LINES)
    ensures DevicesIn(Concat(LIGHT_LINES)) == [Device("lrled", 65, 5, 1, 1, 0, 0)]
  {
    hide Print, ConfigDoc, ItemLines, Concat, DevicesIn, Undisturbed;
    PrintedLines(ConfigDoc([LIGHT]));
    LightLines();
    LightIsStatable();
    ConfigRoundTrip([LIGHT]);
  }

  lemma {:induction false} LightIsStatable()
    ensures Statable(LIGHT) && Reversed([LIGHT]) == [LIGHT]
  {
    hide CommentAt;
    assert Reversed([LIGHT][1..]) == [];
    var name := LIGHT.name;
    assert forall i | 0 <= i < |name| :: !CommentAt(DEFAULT.syntax, name, i) by {
      LightName();
    }
  }

  lemma {:induction false} LightName()
    ensures forall i | 0 <= i < |LIGHT.name| :: !CommentAt(DEFAULT.syntax, LIGHT.name, i)
  {
  }
}
