/** What the device list is in terms of the calls that built it: one device per maximal run of
    calls with the same section, the latest run first, every field as last assigned in its run. */
module DeviceRuns {
  import opened Options
  import opened IniSpec
  import opened CNumbers
  import opened DeviceRegistry
  import opened IniRuns

  /** The list after a sequence of calls. */
  function Registry(calls: seq<Call>): seq<Device> {
    Deliver(DeviceHandler, [], calls)
  }

  // ---------------------------------------------------------------- one run

  datatype Field = Key | Pin | Mode | Status | FaceCheck | Voice

  function FieldNamed(name: string): Option<Field> {
    if name == "key" then Some(Key)
    else if name == "gpio_pin" then Some(Pin)
    else if name == "gpio_mode" then Some(Mode)
    else if name == "gpio_status" then Some(Status)
    else if name == "check_face_status" then Some(FaceCheck)
    else if name == "voice_set_status" then Some(Voice)
    else None
  }

  function Word(value: string, zero: string, one: string): Option<int> {
    if value == one then Some(1) else if value == zero then Some(0) else None
  }

  /** The number a value stands for in a field, if it stands for one. */
  function Reads(f: Field, value: string): Option<int> {
    match f
    case Key => ScanHex(value)
    case Mode => Word(value, "INPUT", "OUTPUT")
    case Status => Word(value, "LOW", "HIGH")
    case _ => Some(Atoi(value))
  }

  /** What a call assigns to a field. */
  function Gives(f: Field, c: Call): Option<int> {
    if c.value.Some? && FieldNamed(c.name) == Some(f) then Reads(f, c.value.value) else None
  }

  function Get(d: Device, f: Field): int {
    match f
    case Key => d.key
    case Pin => d.pin
    case Mode => d.mode
    case Status => d.status
    case FaceCheck => d.faceCheck
    case Voice => d.voice
  }

  /** `v` is the last number the calls give the field, or 0 when they give it none. */
  ghost predicate LastGiven(calls: seq<Call>, f: Field, v: int) {
    || (v == 0 && forall i | 0 <= i < |calls| :: Gives(f, calls[i]) == None)
    || exists i | 0 <= i < |calls| ::
         Gives(f, calls[i]) == Some(v) && forall j | i < j < |calls| :: Gives(f, calls[j]) == None
  }

  /** The device a run of calls describes. */
  ghost predicate Describes(run: seq<Call>, d: Device) {
    run != [] && d.name == run[0].section && forall f: Field :: LastGiven(run, f, Get(d, f))
  }

  lemma {:induction false} LastGivenNext(calls: seq<Call>, c: Call, f: Field, v: int)
    requires LastGiven(calls, f, v)
    ensures LastGiven(calls + [c], f, match Gives(f, c) case Some(w) => w case None => v)
  {
    hide Gives;
    var cs := calls + [c];
    assert cs[|calls|] == c;
    if Gives(f, c) == None {
      if !(v == 0 && forall i | 0 <= i < |calls| :: Gives(f, calls[i]) == None) {
        var i :| 0 <= i < |calls| && Gives(f, calls[i]) == Some(v)
                 && forall j | i < j < |calls| :: Gives(f, calls[j]) == None;
        assert Gives(f, cs[i]) == Some(v) && forall j | i < j < |cs| :: Gives(f, cs[j]) == None;
      }
    } else {
      assert Gives(f, cs[|calls|]) == Some(Gives(f, c).value);
    }
  }

  lemma {:induction false} AssignedField(d: Device, name: string, value: string, f: Field)
    ensures Get(Assigned(d, name, value), f)
         == match Gives(f, Call(d.name, name, Some(value))) case Some(w) => w case None => Get(d, f)
    ensures Assigned(d, name, value).name == d.name
  {
    hide ScanHex, Atoi;
  }

  lemma {:induction false} DescribesNew(c: Call)
    requires c.value.Some?
    ensures Describes([c], Assigned(NewDevice(c.section), c.name, c.value.value))
  {
    hide Assigned, Gives, LastGiven;
    var d := NewDevice(c.section);
    forall f: Field
      ensures LastGiven([c], f, Get(Assigned(d, c.name, c.value.value), f))
    {
      AssignedField(d, c.name, c.value.value, f);
      NothingGiven(f);
      LastGivenNext([], c, f, 0);
      assert [] + [c] == [c];
      SameGift(f, c);
    }
    AssignedField(d, c.name, c.value.value, Key);
  }

  lemma {:induction false} SameGift(f: Field, c: Call)
    requires c.value.Some?
    ensures forall s :: Gives(f, Call(s, c.name, c.value)) == Gives(f, c)
  {
  }

  lemma {:induction false} NothingGiven(f: Field)
    ensures LastGiven([], f, 0)
  {
  }

  lemma {:induction false} DescribesNext(run: seq<Call>, d: Device, c: Call)
    requires Describes(run, d) && c.value.Some?
    ensures Describes(run + [c], Assigned(d, c.name, c.value.value))
  {
    hide Assigned, Gives, LastGiven;
    forall f: Field
      ensures LastGiven(run + [c], f, Get(Assigned(d, c.name, c.value.value), f))
    {
      AssignedField(d, c.name, c.value.value, f);
      LastGivenNext(run, c, f, Get(d, f));
      SameGift(f, c);
    }
    AssignedField(d, c.name, c.value.value, Key);
  }

  // ---------------------------------------------------------------- all runs

  function Flatten(runs: seq<seq<Call>>): seq<Call> {
    if runs == [] then [] else Flatten(runs[..|runs| - 1]) + runs[|runs| - 1]
  }

  /** The calls cut into runs of one section each, as long as they can be. */
  ghost predicate MaximalRuns(calls: seq<Call>, runs: seq<seq<Call>>) {
    && Flatten(runs) == calls
    && (forall i | 0 <= i < |runs| :: runs[i] != [] && forall c | c in runs[i] :: c.section == runs[i][0].section)
    && (forall i | 0 < i < |runs| :: runs[i][0].section != runs[i - 1][0].section)
  }

  /** The list holds one device per run, in reverse. */
  ghost predicate Mirrors(list: seq<Device>, runs: seq<seq<Call>>) {
    |list| == |runs| && forall i | 0 <= i < |runs| :: Describes(runs[i], list[|runs| - 1 - i])
  }

  /** The list mirrors the maximal runs of the calls, however they were found. */
  lemma {:induction false} RegistryMirrorsRuns(calls: seq<Call>, runs: seq<seq<Call>>)
    requires MaximalRuns(calls, runs) && forall c | c in calls :: c.value.Some?
    ensures Mirrors(Registry(calls), runs)
    decreases |calls|
  {
    hide Describes, Handled, Mirrors, Gives;
    if runs == [] {
      NoMirror();
      assert calls == [];
    } else {
      var k := |runs| - 1;
      var run := runs[k];
      var c := run[|run| - 1];
      LastCall(calls, runs);
      var calls' := calls[..|calls| - 1];
      var list := Registry(calls');
      assert Registry(calls) == Handled(list, c);
      if |run| == 1 {
        RegistryMirrorsRuns(calls', runs[..k]);
        MirrorNew(list, runs[..k], c);
        assert run == [c] && runs == runs[..k] + [run];
      } else {
        var shorter := run[..|run| - 1];
        RegistryMirrorsRuns(calls', runs[k := shorter]);
        assert runs[k := shorter] == runs[..k] + [shorter] && run == shorter + [c];
        assert shorter[0] == run[0] && c in run;
        MirrorNext(list, runs[..k], shorter, c);
        assert runs == runs[..k] + [shorter + [c]];
      }
    }
  }

  lemma {:induction false} NoMirror()
    ensures Mirrors(Registry([]), [])
  {
  }

  /** Taking the last call away leaves maximal runs. */
  lemma {:induction false} LastCall(calls: seq<Call>, runs: seq<seq<Call>>)
    requires MaximalRuns(calls, runs) && runs != []
    ensures var k := |runs| - 1; var run := runs[k];
            && calls != [] && calls[|calls| - 1] == run[|run| - 1]
            && (|run| == 1 ==> MaximalRuns(calls[..|calls| - 1], runs[..k]))
            && (|run| > 1 ==> MaximalRuns(calls[..|calls| - 1], runs[k := run[..|run| - 1]]))
  {
    var k := |runs| - 1;
    var run := runs[k];
    var p := Flatten(runs[..k]);
    assert calls == p + run;
    assert calls[..|calls| - 1] == p + run[..|run| - 1];
    if |run| > 1 {
      var shorter := run[..|run| - 1];
      var runs' := runs[k := shorter];
      assert runs'[..k] == runs[..k];
      assert forall c | c in shorter :: c in run;
    } else {
      assert p + run[..0] == p;
    }
  }

  lemma {:induction false} MirrorNew(list: seq<Device>, runs: seq<seq<Call>>, c: Call)
    requires Mirrors(list, runs) && c.value.Some?
    requires runs != [] ==> runs[|runs| - 1] != [] && runs[|runs| - 1][0].section != c.section
    ensures Mirrors(Handled(list, c), runs + [[c]])
  {
    hide Assigned, LastGiven;
    DescribesNew(c);
    if runs != [] {
      assert Describes(runs[|runs| - 1], list[0]);
    }
    var d := Assigned(NewDevice(c.section), c.name, c.value.value);
    assert ([NewDevice(c.section)] + list)[1..] == list;
    assert Handled(list, c) == [d] + list;
    MirrorCons(list, runs, [c], d);
  }

  lemma {:induction false} MirrorCons(list: seq<Device>, runs: seq<seq<Call>>, run: seq<Call>, d: Device)
    requires Mirrors(list, runs) && Describes(run, d)
    ensures Mirrors([d] + list, runs + [run])
  {
    hide Describes;
    forall i | 0 <= i < |runs| + 1
      ensures Describes((runs + [run])[i], ([d] + list)[|runs| - i])
    {
      if i < |runs| {
        assert Describes(runs[i], list[|runs| - 1 - i]);
      }
    }
  }

  lemma {:induction false} MirrorNext(list: seq<Device>, runs: seq<seq<Call>>, run: seq<Call>, c: Call)
    requires Mirrors(list, runs + [run]) && c.value.Some? && run != [] && run[0].section == c.section
    ensures Mirrors(Handled(list, c), runs + [run + [c]])
  {
    hide Assigned, LastGiven;
    assert (runs + [run])[|runs|] == run;
    assert Describes(run, list[0]);
    DescribesNext(run, list[0], c);
    var d := Assigned(list[0], c.name, c.value.value);
    assert Handled(list, c) == [d] + list[1..];
    MirrorTail(list, runs, run);
    MirrorCons(list[1..], runs, run + [c], d);
  }

  lemma {:induction false} MirrorTail(list: seq<Device>, runs: seq<seq<Call>>, run: seq<Call>)
    requires Mirrors(list, runs + [run])
    ensures Mirrors(list[1..], runs)
  {
    hide Describes;
    forall i | 0 <= i < |runs|
      ensures Describes(runs[i], list[1..][|runs| - 1 - i])
    {
      assert Describes((runs + [run])[i], list[|runs| - i]);
    }
  }

  /** Every sequence of calls can be cut into maximal runs. */
  function Runs(calls: seq<Call>): (runs: seq<seq<Call>>)
    ensures MaximalRuns(calls, runs)
    decreases |calls|
  {
    if calls == [] then []
    else
      var c := calls[|calls| - 1];
      var runs := Runs(calls[..|calls| - 1]);
      var k := |runs| - 1;
      assert calls == calls[..|calls| - 1] + [c];
      if runs != [] && runs[k][0].section == c.section then
        LongerRun(calls[..|calls| - 1], runs, c);
        runs[k := runs[k] + [c]]
      else
        NextRun(calls[..|calls| - 1], runs, c);
        runs + [[c]]
  }

  lemma {:induction false} LongerRun(calls: seq<Call>, runs: seq<seq<Call>>, c: Call)
    requires MaximalRuns(calls, runs) && runs != [] && runs[|runs| - 1][0].section == c.section
    ensures MaximalRuns(calls + [c], runs[|runs| - 1 := runs[|runs| - 1] + [c]])
  {
    var k := |runs| - 1;
    assert runs[k := runs[k] + [c]][..k] == runs[..k];
  }

  lemma {:induction false} NextRun(calls: seq<Call>, runs: seq<seq<Call>>, c: Call)
    requires MaximalRuns(calls, runs) && (runs != [] ==> runs[|runs| - 1][0].section != c.section)
    ensures MaximalRuns(calls + [c], runs + [[c]])
  {
    assert (runs + [[c]])[..|runs|] == runs;
  }

  // ---------------------------------------------------------------- lookup

  /** The lookup finds the device of the latest run in the file whose key matches, and nothing
      exactly when no run has the key. */
  lemma {:induction false} LookupAgreesWithFile(calls: seq<Call>, runs: seq<seq<Call>>, key: int)
    requires MaximalRuns(calls, runs) && forall c | c in calls :: c.value.Some?
    ensures match Lookup(Registry(calls), key)
            case None => forall i | 0 <= i < |runs| :: !LastGiven(runs[i], Key, key)
            case Some(d) => exists i | 0 <= i < |runs| ::
              Describes(runs[i], d) && d.key == key && forall j | i < j < |runs| :: !LastGiven(runs[j], Key, key)
  {
    hide LastGiven, Registry;
    RegistryMirrorsRuns(calls, runs);
    var list := Registry(calls);
    var n := |runs|;
    forall i | 0 <= i < n
      ensures Describes(runs[i], list[n - 1 - i])
      ensures LastGiven(runs[i], Key, key) <==> list[n - 1 - i].key == key
    {
      assert Describes(runs[i], list[n - 1 - i]);
      assert LastGiven(runs[i], Key, Get(list[n - 1 - i], Key));
      LastGivenOnce(runs[i], Key, key, list[n - 1 - i].key);
    }
    match Lookup(list, key)
    case None =>
    case Some(d) =>
      var m := IndexOf(list, key, 0);
      assert Describes(runs[n - 1 - m], d);
  }

  lemma {:induction false} LastGivenOnce(calls: seq<Call>, f: Field, v: int, w: int)
    requires LastGiven(calls, f, w)
    ensures LastGiven(calls, f, v) <==> v == w
  {
    hide Gives;
  }
}
