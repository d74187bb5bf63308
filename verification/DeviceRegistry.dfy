/** The device list that `src/receive_interface.c` builds from the configuration, and the lookup
    of `src/gdevice.c`. */
module DeviceRegistry {
  import opened Options
  import opened IniSpec
  import opened CNumbers

  const INPUT: int := 0
  const OUTPUT: int := 1
  const LOW: int := 0
  const HIGH: int := 1
  const NAME_SIZE: nat := 36

  datatype Device = Device(
    name: string, key: int, pin: int, mode: int, status: int, faceCheck: int, voice: int)

  function NewDevice(name: string): Device {
    Device(name, 0, 0, 0, 0, 0, 0)
  }

  /** What one assignment does to the device it falls on. */
  function Assigned(d: Device, name: string, value: string): Device {
    if name == "key" then
      (match ScanHex(value) case Some(v) => d.(key := v) case None => d)
    else if name == "gpio_pin" then d.(pin := Atoi(value))
    else if name == "gpio_mode" then
      (if value == "OUTPUT" then d.(mode := OUTPUT) else if value == "INPUT" then d.(mode := INPUT) else d)
    else if name == "gpio_status" then
      (if value == "LOW" then d.(status := LOW) else if value == "HIGH" then d.(status := HIGH) else d)
    else if name == "check_face_status" then d.(faceCheck := Atoi(value))
    else if name == "voice_set_status" then d.(voice := Atoi(value))
    else d
  }

  /** The list, newest device first, after one call: a section other than the head's starts a
      device. */
  function Handled(list: seq<Device>, c: Call): (r: seq<Device>)
    ensures r != [] && r[0].name == c.section
  {
    var l := if list == [] || list[0].name != c.section then [NewDevice(c.section)] + list else list;
    match c.value
    case Some(v) => [Assigned(l[0], c.name, v)] + l[1..]
    case None => l
  }

  function DeviceHandler(list: seq<Device>, c: Call): (seq<Device>, bool) {
    (Handled(list, c), true)
  }

  /** The first position at or after `i` with the key, or the end. */
  function IndexOf(list: seq<Device>, key: int, i: nat): (k: nat)
    requires i <= |list|
    ensures i <= k <= |list| && (k < |list| ==> list[k].key == key)
    ensures forall j | i <= j < k :: list[j].key != key
    decreases |list| - i
  {
    if i == |list| || list[i].key == key then i else IndexOf(list, key, i + 1)
  }

  /** The first device of the list with the key. */
  function Lookup(list: seq<Device>, key: int): Option<Device> {
    var k := IndexOf(list, key, 0);
    if k < |list| then Some(list[k]) else None
  }

  // ---------------------------------------------------------------- the list in memory

  class GDevice {
    var devName: string
    var key: int
    var gpioPin: int
    var gpioMode: int
    var gpioStatus: int
    var checkFaceStatus: int
    var voiceSetStatus: int
    var next: GDevice?

    ghost function Value(): Device
      reads this
    {
      Device(devName, key, gpioPin, gpioMode, gpioStatus, checkFaceStatus, voiceSetStatus)
    }

    /** `malloc`, `memset` to zero, `strcpy` of the name. */
    constructor (name: string, next: GDevice?)
      requires |name| < NAME_SIZE
      ensures Value() == NewDevice(name) && this.next == next
    {
      devName, this.next := name, next;
      key, gpioPin, gpioMode, gpioStatus, checkFaceStatus, voiceSetStatus := 0, 0, 0, 0, 0, 0;
    }

    /** The chain of MATCH tests. */
    method Assign(name: string, value: string)
      modifies this
      ensures Value() == Assigned(old(Value()), name, value) && next == old(next)
    {
      hide ScanHex, Atoi;
      if name == "key" {
        var scanned := ScanHex(value);
        if scanned.Some? {
          key := scanned.value;
        }
      } else if name == "gpio_pin" {
        gpioPin := Atoi(value);
      } else if name == "gpio_mode" {
        if value == "OUTPUT" {
          gpioMode := OUTPUT;
        } else if value == "INPUT" {
          gpioMode := INPUT;
        }
      } else if name == "gpio_status" {
        if value == "LOW" {
          gpioStatus := LOW;
        } else if value == "HIGH" {
          gpioStatus := HIGH;
        }
      } else if name == "check_face_status" {
        checkFaceStatus := Atoi(value);
      } else if name == "voice_set_status" {
        voiceSetStatus := Atoi(value);
      }
    }
  }

  ghost function Values(nodes: seq<GDevice>): (r: seq<Device>)
    reads nodes
    ensures |r| == |nodes| && forall i | 0 <= i < |r| :: r[i] == nodes[i].Value()
  {
    if nodes == [] then [] else [nodes[0].Value()] + Values(nodes[1..])
  }

  /** The node at position `i` of a chain, null behind its end. */
  ghost function NodeAt(nodes: seq<GDevice>, i: nat): GDevice? {
    if i < |nodes| then nodes[i] else null
  }

  class DeviceList {
    var head: GDevice?
    ghost var nodes: seq<GDevice>

    /** `nodes` is the chain of `next` pointers from the head; no node occurs twice. */
    ghost predicate Valid()
      reads this, nodes
    {
      && head == NodeAt(nodes, 0)
      && (forall i {:trigger nodes[i].next} | 0 <= i < |nodes| :: nodes[i].next == NodeAt(nodes, i + 1))
      && (forall i, j | 0 <= i < j < |nodes| :: nodes[i] != nodes[j])
    }

    ghost function Contents(): seq<Device>
      reads this, nodes
    {
      Values(nodes)
    }

    constructor ()
      ensures Valid() && Contents() == [] && nodes == []
    {
      head, nodes := null, [];
    }

    /** Puts a new device in front. */
    method Prepend(name: string)
      requires Valid() && |name| < NAME_SIZE
      modifies this
      ensures Valid() && Contents() == [NewDevice(name)] + old(Contents())
      ensures nodes != [] && fresh(nodes[0]) && nodes[1..] == old(nodes)
    {
      var pdev := new GDevice(name, head);
      nodes := [pdev] + nodes;
      head := pdev;
      assert nodes[1..] == old(nodes);
      assert forall i | 0 <= i < |old(nodes)| :: nodes[i + 1] == old(nodes)[i];
    }

    /** `handler`: one call of the parser. Names longer than the field, and missing values for
        the names it knows, are outside what the C code can take. */
    method Handle(section: string, name: string, value: string)
      requires Valid() && |section| < NAME_SIZE
      modifies this, head
      ensures Valid() && Contents() == Handled(old(Contents()), Call(section, name, Some(value)))
      ensures nodes == old(nodes) || (nodes != [] && fresh(nodes[0]) && nodes[1..] == old(nodes))
    {
      hide Assigned;
      if head == null || head.devName != section {
        Prepend(section);
      }
      AssignHead(name, value);
    }

    method AssignHead(name: string, value: string)
      requires Valid() && nodes != []
      modifies head
      ensures Valid() && nodes == old(nodes)
      ensures Contents() == [Assigned(old(Contents())[0], name, value)] + old(Contents())[1..]
    {
      hide Assigned;
      head.Assign(name, value);
      assert nodes == old(nodes);
      assert head == old(head);
      assert nodes[0].next == old(nodes[0].next);
      assert forall i | 1 <= i < |nodes| ::
          nodes[i].next == old(nodes[i].next) && nodes[i].Value() == old(nodes[i].Value());
      assert Contents()[1..] == old(Contents())[1..];
    }

    /** `find_device_by_key`: the first node with the key, or null when there is none. */
    method FindByKey(key: int) returns (p: GDevice?)
      requires Valid()
      ensures p == NodeAt(nodes, IndexOf(Contents(), key, 0))
      ensures if p == null then Lookup(Contents(), key) == None
              else p in nodes && Lookup(Contents(), key) == Some(p.Value())
    {
      p := head;
      ghost var i := 0;
      while p != null
        invariant 0 <= i <= |nodes| && p == NodeAt(nodes, i)
        invariant IndexOf(Contents(), key, 0) == IndexOf(Contents(), key, i)
        decreases |nodes| - i
      {
        if p.key == key {
          return;
        }
        p, i := p.next, i + 1;
      }
    }

    /** Assigns the level of the node at position `i`; the other nodes stay as they are. */
    method SetStatus(p: GDevice, level: int, ghost i: nat)
      requires Valid() && i < |nodes| && p == nodes[i]
      modifies p
      ensures Valid() && nodes == old(nodes)
      ensures Contents() == old(Contents())[i := old(Contents())[i].(status := level)]
    {
      p.gpioStatus := level;
      assert forall j | 0 <= j < |nodes| && j != i :: nodes[j].Value() == old(nodes[j].Value());
    }
  }
}
