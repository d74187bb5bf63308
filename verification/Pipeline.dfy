/** The three producers, the bounded queue and the receiver as one transition system: every
    interleaving of their reads, samples, sends and receives. */
module Pipeline {
  import opened Frames
  import opened SmokeMonitor

  datatype Source = FromSmoke | FromVoice | FromSocket

  /** A message, and who sent it; the queue itself carries the bytes only. */
  datatype Message = Message(source: Source, bytes: seq<byte>)

  /** A producer is at its read or sample, or at the send of the last frame in `tried`, the
      history of the frames it set out to send. */
  datatype Producer = Producer(buffer: seq<byte>, sending: bool, tried: seq<seq<byte>>)

  datatype System = System(
    smoke: Producer,
    switchOn: bool,
    voice: Producer,
    voiceLen: nat,
    socket: Producer,
    queue: seq<Message>,
    received: seq<byte>,              // the receiver's buffer
    running: bool,                    // the receiver has not given up
    levels: seq<Level>,               // history: readings of the smoke pin
    heard: seq<seq<byte>>,            // history: reads from the serial port
    net: seq<seq<byte>>,              // history: reads from connections
    accepted: seq<Message>,           // history: sends that succeeded, in order
    dispatched: seq<seq<byte>>)       // history: copies handed to device threads, in order

  function Idle(buffer: seq<byte>): Producer {
    Producer(buffer, false, [])
  }

  function Start(): System {
    System(Idle([0xAA, 0x55, 0x00, 0x00, 0x55, 0xAA]), false, Idle(Zeros(FRAME_SIZE)), 0, Idle(Zeros(FRAME_SIZE)),
           [], Zeros(SIZE), true, [], [], [], [], [])
  }

  datatype Action =
    | Sample(level: Level)            // the smoke thread reads its pin
    | VoiceRead(input: seq<byte>)     // [] stands for nothing read, or an error
    | SocketRead(input: seq<byte>)    // [] ends the connection; the next accept follows
    | Send(source: Source, ok: bool)
    | Receive
    | ReceiveFails(again: bool)       // EAGAIN, or an error that ends the receiver

  function ProducerOf(s: System, source: Source): Producer {
    match source case FromSmoke => s.smoke case FromVoice => s.voice case FromSocket => s.socket
  }

  /** A send can go ahead when the queue has room, and can fail at any time; a full queue makes
      it wait. A receive waits for a message. */
  predicate Enabled(s: System, a: Action) {
    match a
    case Sample(_) => !s.smoke.sending
    case VoiceRead(input) => !s.voice.sending && |input| <= FRAME_SIZE
    case SocketRead(input) => !s.socket.sending && |input| <= FRAME_SIZE
    case Send(source, ok) => ProducerOf(s, source).sending && (ok ==> |s.queue| < MAX_MESSAGES)
    case Receive => s.running && s.queue != []
    case ReceiveFails(_) => s.running
  }

  /** The buffers have their sizes and messages fit the receiver's. */
  ghost predicate Sized(s: System) {
    && |s.smoke.buffer| == |s.voice.buffer| == |s.socket.buffer| == FRAME_SIZE
    && |s.received| == SIZE && s.voiceLen <= FRAME_SIZE
    && forall m | m in s.queue :: |m.bytes| <= SIZE
  }

  /** The producer with the frame in its buffer on its way. */
  function Sending(p: Producer, buffer: seq<byte>, frame: seq<byte>): Producer {
    Producer(buffer, true, p.tried + [frame])
  }

  function SampleStep(s: System, level: Level): (t: System)
    requires Sized(s)
    ensures Sized(t)
  {
    var next := s.(levels := s.levels + [level]);
    if level == Low then
      var b := s.smoke.buffer[2 := 0x45][3 := 0x00];
      next.(smoke := Sending(s.smoke, b, b), switchOn := true)
    else if s.switchOn then
      var b := s.smoke.buffer[2 := 0x45][3 := 0x01];
      next.(smoke := Sending(s.smoke, b, b), switchOn := false)
    else next
  }

  function VoiceStep(s: System, input: seq<byte>): (t: System)
    requires Sized(s) && |input| <= FRAME_SIZE
    ensures Sized(t)
  {
    var next := s.(heard := s.heard + [input]);
    if input == [] then next
    else
      var b := Overlay(s.voice.buffer, input);
      if Marked(b) then next.(voice := Sending(s.voice, b, b[..|input|]), voiceLen := |input|)
      else next.(voice := s.voice.(buffer := Zeros(FRAME_SIZE)))
  }

  function SocketStep(s: System, input: seq<byte>): (t: System)
    requires Sized(s) && |input| <= FRAME_SIZE
    ensures Sized(t)
  {
    var b := Overlay(Zeros(FRAME_SIZE), input);
    var next := s.(net := s.net + [input]);
    if input != [] && Marked(b) then next.(socket := Sending(s.socket, b, b))
    else next.(socket := s.socket.(buffer := b))
  }

  /** What a producer does to its buffer once its send is over. */
  function Sent(s: System, source: Source, ok: bool): (t: System)
    requires Sized(s)
    ensures Sized(t)
  {
    match source
    case FromSmoke =>
      var b := s.smoke.buffer;
      s.(smoke := s.smoke.(sending := false, buffer := if ok && b[3] == 0x01 then b[2 := 0x00] else b))
    case FromVoice => s.(voice := s.voice.(sending := false, buffer := Zeros(FRAME_SIZE)))
    case FromSocket => s.(socket := s.socket.(sending := false))
  }

  function Content(s: System, source: Source): seq<byte>
    requires Sized(s)
  {
    match source
    case FromSmoke => s.smoke.buffer
    case FromVoice => s.voice.buffer[..s.voiceLen]
    case FromSocket => s.socket.buffer
  }

  function Enqueue(s: System, m: Message): System {
    s.(queue := s.queue + [m], accepted := s.accepted + [m])
  }

  function ReceiveStep(s: System): (t: System)
    requires Sized(s) && s.queue != []
    ensures Sized(t)
  {
    var m := s.queue[0];
    var b := Overlay(s.received, m.bytes);
    var next := s.(queue := s.queue[1..], received := b);
    if Marked(b) then next.(dispatched := s.dispatched + [b[..|m.bytes|]]) else next
  }

  function Step(s: System, a: Action): (t: System)
    requires Sized(s) && Enabled(s, a)
    ensures Sized(t)
  {
    match a
    case Sample(level) => SampleStep(s, level)
    case VoiceRead(input) => VoiceStep(s, input)
    case SocketRead(input) => SocketStep(s, input)
    case Send(source, ok) =>
      var m := Message(source, Content(s, source));
      if ok then Sent(Enqueue(s, m), source, ok) else Sent(s, source, ok)
    case Receive => ReceiveStep(s)
    case ReceiveFails(again) => s.(running := again)
  }

  function Bytes(ms: seq<Message>): (r: seq<seq<byte>>)
    ensures |r| == |ms| && forall i | 0 <= i < |r| :: r[i] == ms[i].bytes
  {
    seq(|ms|, i requires 0 <= i < |ms| => ms[i].bytes)
  }

  // ---------------------------------------------------------------- the invariant

  /** The buffer is always a frame; what was set out to be sent are the attempts that the
      readings call for. */
  ghost predicate SmokeOk(p: Producer, switchOn: bool, levels: seq<Level>) {
    && ValidFrame(p.buffer) && switchOn == Alarmed(levels) && p.tried == FramesOf(Attempts(levels))
    && (p.sending ==> Ready(p, p.buffer))
  }

  /** The buffer is zero at each read, so that only a read of a whole frame gets to the send. */
  ghost predicate VoiceOk(p: Producer, len: nat, heard: seq<seq<byte>>) {
    && p.tried == FramesIn(heard) && len <= FRAME_SIZE
    && if p.sending then ValidFrame(p.buffer) && len == FRAME_SIZE && Ready(p, p.buffer)
       else p.buffer == Zeros(FRAME_SIZE)
  }

  ghost predicate SocketOk(p: Producer, net: seq<seq<byte>>) {
    && |p.buffer| == FRAME_SIZE && p.tried == FramesIn(net)
    && (p.sending ==> ValidFrame(p.buffer) && Ready(p, p.buffer))
  }

  ghost predicate Ready(p: Producer, frame: seq<byte>) {
    p.tried != [] && p.tried[|p.tried| - 1] == frame
  }

  /** Whole frames only; none is lost, invented, doubled or overtaken on its way through the
      queue to the device threads. */
  ghost predicate QueueOk(s: System) {
    && |s.queue| <= MAX_MESSAGES && |s.received| == SIZE
    && (forall m | m in s.accepted :: ValidFrame(m.bytes))
    && s.dispatched + Bytes(s.queue) == Bytes(s.accepted)
  }

  /** `a` is `b` with some elements left out. */
  predicate Thinned(a: seq<seq<byte>>, b: seq<seq<byte>>) {
    a == [] ||
    (b != [] &&
     (Thinned(a, b[..|b| - 1]) ||
      (a[|a| - 1] == b[|b| - 1] && Thinned(a[..|a| - 1], b[..|b| - 1]))))
  }

  function From(ms: seq<Message>, source: Source): seq<seq<byte>> {
    if ms == [] then []
    else
      var m := ms[|ms| - 1];
      From(ms[..|ms| - 1], source) + if m.source == source then [m.bytes] else []
  }

  /** The frames whose sends are over. */
  function Done(p: Producer): seq<seq<byte>> {
    if p.sending && p.tried != [] then p.tried[..|p.tried| - 1] else p.tried
  }

  /** What the queue took from each producer is what that producer sent, failed sends left out. */
  ghost predicate Honest(s: System) {
    forall source: Source :: Thinned(From(s.accepted, source), Done(ProducerOf(s, source)))
  }

  ghost predicate Inv(s: System) {
    && SmokeOk(s.smoke, s.switchOn, s.levels) && VoiceOk(s.voice, s.voiceLen, s.heard)
    && SocketOk(s.socket, s.net) && QueueOk(s) && Honest(s)
  }

  lemma {:induction false} StartInv()
    ensures Inv(Start())
  {
  }

  /** What is queued was accepted, so it is whole frames. */
  lemma {:induction false} QueuedWasAccepted(s: System)
    requires QueueOk(s)
    ensures forall i | 0 <= i < |s.queue| :: ValidFrame(s.queue[i].bytes)
  {
    hide Marked, ValidFrame;
    var n := |s.dispatched|;
    forall i | 0 <= i < |s.queue|
      ensures ValidFrame(s.queue[i].bytes)
    {
      assert (s.dispatched + Bytes(s.queue))[n + i] == Bytes(s.queue)[i];
      assert s.accepted[n + i] in s.accepted;
    }
  }

  lemma {:induction false} InvSized(s: System)
    requires Inv(s)
    ensures Sized(s)
  {
    hide Marked, FramesIn, FramesOf, Attempts, Alarmed, Bytes;
    QueuedWasAccepted(s);
    assert forall m | m in s.queue :: ValidFrame(m.bytes);
  }

  /** What the queue took is honest as long as no send is over. */
  lemma {:induction false} HonestKept(s: System, t: System)
    requires Honest(s) && t.accepted == s.accepted
    requires Done(t.smoke) == Done(s.smoke) && Done(t.voice) == Done(s.voice) && Done(t.socket) == Done(s.socket)
    ensures Honest(t)
  {
    hide Thinned, From, Done;
    forall source: Source
      ensures Thinned(From(t.accepted, source), Done(ProducerOf(t, source)))
    {
      assert Thinned(From(s.accepted, source), Done(ProducerOf(s, source)));
    }
  }

  lemma {:induction false} SameDone(p: Producer, buffer: seq<byte>)
    ensures Done(p.(buffer := buffer)) == Done(p)
  {
  }

  /** The queue's part of the invariant does not look at the producers. */
  lemma {:induction false} QueueKept(s: System, t: System)
    requires QueueOk(s)
    requires t.queue == s.queue && t.received == s.received && t.accepted == s.accepted && t.dispatched == s.dispatched
    ensures QueueOk(t)
  {
    hide ValidFrame, Bytes;
  }

  lemma {:induction false} StartsSending(p: Producer, buffer: seq<byte>, frame: seq<byte>)
    requires !p.sending
    ensures Done(Sending(p, buffer, frame)) == Done(p)
  {
  }

  lemma {:induction false} SampleInv(s: System, level: Level)
    requires Inv(s) && Sized(s) && !s.smoke.sending
    ensures Inv(SampleStep(s, level))
  {
    hide VoiceOk, SocketOk, QueueOk, Honest, Done, Alarmed, Attempts, FramesOf;
    var n, levels := |s.levels|, s.levels + [level];
    assert levels[..n] == s.levels && levels[..n + 1] == levels;
    AttemptsNext(levels, n);
    FramesOfAppend(Attempts(s.levels), Reaction(Alarmed(s.levels), level));
    var b := s.smoke.buffer;
    assert b[2 := 0x45][3 := 0x00] == FrameOf(Alarm) && b[2 := 0x45][3 := 0x01] == FrameOf(AllClear);
    StartsSending(s.smoke, FrameOf(Alarm), FrameOf(Alarm));
    StartsSending(s.smoke, FrameOf(AllClear), FrameOf(AllClear));
    QueueKept(s, SampleStep(s, level));
    HonestKept(s, SampleStep(s, level));
  }

  lemma {:induction false} VoiceInv(s: System, input: seq<byte>)
    requires Inv(s) && Sized(s) && !s.voice.sending && |input| <= FRAME_SIZE
    ensures Inv(VoiceStep(s, input))
  {
    hide SmokeOk, SocketOk, QueueOk, Honest, Done, Overlay, Marked, FramesIn;
    MarkedMeansWhole(input);
    FramesInOne(s.heard, input);
    assert |input| == FRAME_SIZE ==> input[..|input|] == input;
    StartsSending(s.voice, input, input);
    SameDone(s.voice, Zeros(FRAME_SIZE));
    QueueKept(s, VoiceStep(s, input));
    HonestKept(s, VoiceStep(s, input));
  }

  lemma {:induction false} SocketInv(s: System, input: seq<byte>)
    requires Inv(s) && Sized(s) && !s.socket.sending && |input| <= FRAME_SIZE
    ensures Inv(SocketStep(s, input))
  {
    hide SmokeOk, VoiceOk, QueueOk, Honest, Done, Overlay, Marked, FramesIn;
    MarkedMeansWhole(input);
    FramesInOne(s.net, input);
    StartsSending(s.socket, input, input);
    SameDone(s.socket, Overlay(Zeros(FRAME_SIZE), input));
    QueueKept(s, SocketStep(s, input));
    HonestKept(s, SocketStep(s, input));
  }

  lemma {:induction false} BytesAppend(a: seq<Message>, b: seq<Message>)
    ensures Bytes(a + b) == Bytes(a) + Bytes(b)
  {
  }

  /** A send that is over adds its frame to `Done`, and to the accepted ones if it succeeded. */
  lemma {:induction false} SendHonest(s: System, t: System, source: Source, ok: bool, f: seq<byte>)
    requires Honest(s) && ProducerOf(s, source).sending && Ready(ProducerOf(s, source), f)
    requires t.accepted == if ok then s.accepted + [Message(source, f)] else s.accepted
    requires ProducerOf(t, source).tried == ProducerOf(s, source).tried && !ProducerOf(t, source).sending
    requires forall other | other != source :: ProducerOf(t, other) == ProducerOf(s, other)
    ensures Honest(t)
  {
    hide From, Thinned;
    forall src: Source
      ensures Thinned(From(t.accepted, src), Done(ProducerOf(t, src)))
    {
      assert Thinned(From(s.accepted, src), Done(ProducerOf(s, src)));
      FromOne(s.accepted, Message(source, f), src);
      if src == source {
        var tried := ProducerOf(s, source).tried;
        assert tried == Done(ProducerOf(s, source)) + [f];
        ThinnedOne(From(s.accepted, source), Done(ProducerOf(s, source)), f);
      }
    }
  }

  lemma {:induction false} FromOne(ms: seq<Message>, m: Message, source: Source)
    ensures From(ms + [m], source) == if m.source == source then From(ms, source) + [m.bytes] else From(ms, source)
  {
    assert (ms + [m])[..|ms|] == ms;
  }

  lemma {:induction false} ThinnedOne(a: seq<seq<byte>>, b: seq<seq<byte>>, f: seq<byte>)
    requires Thinned(a, b)
    ensures Thinned(a, b + [f]) && Thinned(a + [f], b + [f])
  {
    assert (a + [f])[..|a|] == a && (b + [f])[..|b|] == b;
  }

  lemma {:induction false} SentOk(s: System, source: Source, ok: bool)
    requires Inv(s) && Sized(s) && ProducerOf(s, source).sending
    ensures var t := Sent(s, source, ok);
            && SmokeOk(t.smoke, t.switchOn, t.levels) && VoiceOk(t.voice, t.voiceLen, t.heard)
            && SocketOk(t.socket, t.net)
            && ProducerOf(t, source).tried == ProducerOf(s, source).tried && !ProducerOf(t, source).sending
            && (forall other | other != source :: ProducerOf(t, other) == ProducerOf(s, other))
  {
    hide QueueOk, Honest, Alarmed, Attempts, FramesOf, FramesIn;
  }

  lemma {:induction false} SendInv(s: System, source: Source, ok: bool)
    requires Inv(s) && Sized(s) && Enabled(s, Send(source, ok))
    ensures Inv(Step(s, Send(source, ok)))
  {
    hide SmokeOk, VoiceOk, SocketOk, QueueOk, Honest, Ready, ValidFrame;
    var f := Content(s, source);
    ContentIsFrame(s, source);
    SentOk(s, source, ok);
    var t := Step(s, Send(source, ok));
    SendHonest(s, t, source, ok, f);
    if ok {
      EnqueueOk(s, Message(source, f));
      QueueKept(Enqueue(s, Message(source, f)), t);
    } else {
      QueueKept(s, t);
    }
  }

  lemma {:induction false} EnqueueOk(s: System, m: Message)
    requires QueueOk(s) && |s.queue| < MAX_MESSAGES && ValidFrame(m.bytes)
    ensures QueueOk(Enqueue(s, m))
  {
    hide ValidFrame, Bytes;
    BytesAppend(s.queue, [m]);
    BytesAppend(s.accepted, [m]);
    OneMessage(m);
    assert s.dispatched + (Bytes(s.queue) + [m.bytes]) == (s.dispatched + Bytes(s.queue)) + [m.bytes];
  }

  lemma {:induction false} OneMessage(m: Message)
    ensures Bytes([m]) == [m.bytes]
  {
  }

  lemma {:induction false} ContentIsFrame(s: System, source: Source)
    requires Inv(s) && Sized(s) && ProducerOf(s, source).sending
    ensures ValidFrame(Content(s, source)) && Ready(ProducerOf(s, source), Content(s, source))
  {
    hide QueueOk, Honest, Marked, FramesIn, FramesOf, Attempts;
    assert s.voice.sending ==> s.voice.buffer[..s.voiceLen] == s.voice.buffer;
  }

  /** The receiver's buffer starts with the whole frame it has just received. */
  lemma {:induction false} ReceivesFrame(s: System)
    requires QueueOk(s) && Sized(s) && s.queue != []
    ensures ReceiveStep(s).dispatched == s.dispatched + [s.queue[0].bytes]
  {
    hide Bytes, ValidFrame;
    QueuedWasAccepted(s);
    OverlayStart(s.received, s.queue[0].bytes);
    SameMarks(s.queue[0].bytes, Overlay(s.received, s.queue[0].bytes));
  }

  lemma {:induction false} SameMarks(frame: seq<byte>, buffer: seq<byte>)
    requires ValidFrame(frame) && frame <= buffer
    ensures Marked(buffer)
  {
  }

  lemma {:induction false} ReceiveInv(s: System)
    requires Inv(s) && Sized(s) && s.queue != []
    ensures Inv(ReceiveStep(s))
    ensures ReceiveStep(s).dispatched == s.dispatched + [s.queue[0].bytes]
  {
    hide SmokeOk, VoiceOk, SocketOk, QueueOk, Honest, Overlay, Marked;
    HonestKept(s, ReceiveStep(s));
    ReceivesFrame(s);
    ReceiveQueueOk(s);
  }

  lemma {:induction false} ReceiveQueueOk(s: System)
    requires QueueOk(s) && Sized(s) && s.queue != []
    ensures QueueOk(ReceiveStep(s))
  {
    hide Bytes, ValidFrame, Marked, Overlay;
    ReceivesFrame(s);
    OneMessage(s.queue[0]);
    BytesAppend([s.queue[0]], s.queue[1..]);
    assert s.queue == [s.queue[0]] + s.queue[1..];
    MovesOver(s.dispatched, s.queue[0].bytes, Bytes(s.queue[1..]));
  }

  lemma {:induction false} MovesOver(a: seq<seq<byte>>, m: seq<byte>, b: seq<seq<byte>>)
    ensures a + ([m] + b) == (a + [m]) + b
  {
  }

  lemma {:induction false} StepInv(s: System, a: Action)
    requires Inv(s) && Sized(s) && Enabled(s, a)
    ensures Inv(Step(s, a))
  {
    hide Inv, Sized, SampleStep, VoiceStep, SocketStep, Sent, ReceiveStep, Content, ValidFrame;
    match a
    case Sample(level) => SampleInv(s, level);
    case VoiceRead(input) => VoiceInv(s, input);
    case SocketRead(input) => SocketInv(s, input);
    case Send(source, ok) => SendInv(s, source, ok);
    case Receive => ReceiveInv(s);
    case ReceiveFails(again) => RunningInv(s, again);
  }

  lemma {:induction false} RunningInv(s: System, again: bool)
    requires Inv(s)
    ensures Inv(s.(running := again))
  {
    hide SmokeOk, VoiceOk, SocketOk, Honest;
    QueueKept(s, s.(running := again));
    HonestKept(s, s.(running := again));
  }

  // ---------------------------------------------------------------- runs

  /** The actions can be taken in this order. */
  ghost predicate CanRun(s: System, actions: seq<Action>)
    decreases |actions|
  {
    actions == [] || (Sized(s) && Enabled(s, actions[0]) && CanRun(Step(s, actions[0]), actions[1..]))
  }

  ghost function Exec(s: System, actions: seq<Action>): System
    requires CanRun(s, actions)
    decreases |actions|
  {
    if actions == [] then s else Exec(Step(s, actions[0]), actions[1..])
  }

  lemma {:induction false} ExecInv(s: System, actions: seq<Action>)
    requires CanRun(s, actions) && Inv(s)
    ensures Inv(Exec(s, actions))
    decreases |actions|
  {
    hide Inv, Step, Sized, Enabled;
    if actions != [] {
      StepInv(s, actions[0]);
      ExecInv(Step(s, actions[0]), actions[1..]);
    }
  }

  /** The sizes a step needs are there in every reachable state, so a run can go on with any
      action that is enabled. */
  lemma {:induction false} RunGoesOn(s: System, actions: seq<Action>, a: Action)
    requires Inv(s) && CanRun(s, actions) && Enabled(Exec(s, actions), a)
    ensures CanRun(s, actions + [a])
    decreases |actions|
  {
    hide Inv, Step, Sized, Enabled;
    InvSized(s);
    if actions == [] {
      assert actions + [a] == [a] && [a][1..] == [];
    } else {
      StepInv(s, actions[0]);
      RunGoesOn(Step(s, actions[0]), actions[1..], a);
      assert (actions + [a])[1..] == actions[1..] + [a];
    }
  }

  /** In every run, what the queue took from a producer is what that producer's own loop would
      send on the inputs it had, with failed and pending sends left out: nothing another thread
      does shows in it. */
  lemma {:induction false} EveryRunIsHonest(actions: seq<Action>)
    requires CanRun(Start(), actions)
    ensures var s := Exec(Start(), actions);
            && Thinned(From(s.accepted, FromSmoke), FramesOf(Attempts(s.levels)))
            && Thinned(From(s.accepted, FromVoice), FramesIn(s.heard))
            && Thinned(From(s.accepted, FromSocket), FramesIn(s.net))
  {
    hide Step, Sized, Enabled, Start, From, Thinned, QueueOk, FramesOf, FramesIn, Attempts, Alarmed;
    StartInv();
    ExecInv(Start(), actions);
    var s := Exec(Start(), actions);
    forall source: Source
      ensures Thinned(From(s.accepted, source), ProducerOf(s, source).tried)
    {
      var p := ProducerOf(s, source);
      assert Thinned(From(s.accepted, source), Done(p));
      if p.sending && p.tried != [] {
        ThinnedOne(From(s.accepted, source), Done(p), p.tried[|p.tried| - 1]);
        assert Done(p) + [p.tried[|p.tried| - 1]] == p.tried;
      }
    }
    assert Thinned(From(s.accepted, FromSmoke), ProducerOf(s, FromSmoke).tried);
    assert Thinned(From(s.accepted, FromVoice), ProducerOf(s, FromVoice).tried);
    assert Thinned(From(s.accepted, FromSocket), ProducerOf(s, FromSocket).tried);
  }

  lemma {:induction false} DispatchedWasAccepted(s: System)
    requires QueueOk(s)
    ensures forall m | m in s.dispatched :: ValidFrame(m)
  {
    hide ValidFrame;
    forall i | 0 <= i < |s.dispatched|
      ensures ValidFrame(s.dispatched[i])
    {
      assert (s.dispatched + Bytes(s.queue))[i] == s.dispatched[i];
      assert s.accepted[i] in s.accepted;
    }
  }

  // ---------------------------------------------------------------- a run from its actions alone

  /** The readings, the reads from the serial port and the reads from connections among some actions. */
  function Readings(actions: seq<Action>): seq<Level> {
    if actions == [] then []
    else
      var n := |actions| - 1;
      Readings(actions[..n]) + match actions[n] case Sample(level) => [level] case _ => []
  }

  function VoiceReads(actions: seq<Action>): seq<seq<byte>> {
    if actions == [] then []
    else
      var n := |actions| - 1;
      VoiceReads(actions[..n]) + match actions[n] case VoiceRead(input) => [input] case _ => []
  }

  function SocketReads(actions: seq<Action>): seq<seq<byte>> {
    if actions == [] then []
    else
      var n := |actions| - 1;
      SocketReads(actions[..n]) + match actions[n] case SocketRead(input) => [input] case _ => []
  }

  /** How the sends of a producer ended, in order. */
  function Outcomes(actions: seq<Action>, source: Source): seq<bool> {
    if actions == [] then []
    else
      var n := |actions| - 1;
      Outcomes(actions[..n], source)
      + match actions[n] case Send(src, ok) => (if src == source then [ok] else []) case _ => []
  }

  /** Who made the sends that succeeded, in order. */
  function Senders(actions: seq<Action>): seq<Source> {
    if actions == [] then []
    else
      var n := |actions| - 1;
      Senders(actions[..n]) + match actions[n] case Send(src, ok) => (if ok then [src] else []) case _ => []
  }

  function Receives(actions: seq<Action>): nat {
    if actions == [] then 0
    else
      var n := |actions| - 1;
      Receives(actions[..n]) + if actions[n] == Receive then 1 else 0
  }

  /** The frames that a producer's own loop sets out to send on the inputs of a run. */
  function Tried(actions: seq<Action>, source: Source): seq<seq<byte>> {
    match source
    case FromSmoke => FramesOf(Attempts(Readings(actions)))
    case FromVoice => FramesIn(VoiceReads(actions))
    case FromSocket => FramesIn(SocketReads(actions))
  }

  /** The frames whose send succeeded. */
  function Kept(frames: seq<seq<byte>>, oks: seq<bool>): seq<seq<byte>>
    requires |oks| <= |frames|
  {
    if oks == [] then []
    else
      var n := |oks| - 1;
      Kept(frames, oks[..n]) + if oks[n] then [frames[n]] else []
  }

  function SourcesOf(ms: seq<Message>): seq<Source> {
    seq(|ms|, i requires 0 <= i < |ms| => ms[i].source)
  }

  /** The queue's side of a run: every successful send put one message in, from that sender, and
      every receive took one out. */
  ghost predicate QueueFollows(s: System, actions: seq<Action>) {
    && SourcesOf(s.accepted) == Senders(actions) && |s.dispatched| == Receives(actions)
    && |s.queue| + Receives(actions) == |Senders(actions)|
    && (s.running <==> ReceiveFails(false) !in actions)
  }

  /** A producer's side: it has tried the frames its loop alone would try, has sent them one by
      one, and the queue took those whose send succeeded. */
  ghost predicate ProducerFollows(s: System, actions: seq<Action>, source: Source) {
    var p, tried, oks := ProducerOf(s, source), Tried(actions, source), Outcomes(actions, source);
    && p.tried == tried && |tried| == |oks| + (if p.sending then 1 else 0)
    && From(s.accepted, source) == Kept(tried, oks)
  }

  ghost predicate Follows(s: System, actions: seq<Action>) {
    && s.levels == Readings(actions) && s.heard == VoiceReads(actions) && s.net == SocketReads(actions)
    && QueueFollows(s, actions) && forall source :: ProducerFollows(s, actions, source)
  }

  lemma {:induction false} ExecLast(s: System, actions: seq<Action>)
    requires CanRun(s, actions) && actions != []
    ensures var rest, a := actions[..|actions| - 1], actions[|actions| - 1];
            && CanRun(s, rest) && Sized(Exec(s, rest)) && Enabled(Exec(s, rest), a)
            && Exec(s, actions) == Step(Exec(s, rest), a)
    decreases |actions|
  {
    hide Step, Sized, Enabled;
    var rest := actions[..|actions| - 1];
    if |actions| > 1 {
      ExecLast(Step(s, actions[0]), actions[1..]);
      assert actions[1..][..|actions| - 2] == rest[1..];
    }
  }

  lemma {:induction false} OneMoreAction(actions: seq<Action>, a: Action)
    ensures var all := actions + [a];
            && Readings(all) == Readings(actions) + (match a case Sample(level) => [level] case _ => [])
            && VoiceReads(all) == VoiceReads(actions) + (match a case VoiceRead(input) => [input] case _ => [])
            && SocketReads(all) == SocketReads(actions) + (match a case SocketRead(input) => [input] case _ => [])
            && Senders(all) == Senders(actions) + (if a.Send? && a.ok then [a.source] else [])
            && Receives(all) == Receives(actions) + (if a == Receive then 1 else 0)
            && (ReceiveFails(false) in all <==> ReceiveFails(false) in actions || a == ReceiveFails(false))
  {
    assert (actions + [a])[..|actions|] == actions;
  }

  lemma {:induction false} OneMoreOutcome(actions: seq<Action>, a: Action, source: Source)
    ensures Outcomes(actions + [a], source)
         == Outcomes(actions, source) + if a.Send? && a.source == source then [a.ok] else []
  {
    assert (actions + [a])[..|actions|] == actions;
  }

  /** A step records its input and moves messages as its action says. */
  lemma {:induction false} StepRecords(s: System, a: Action)
    requires Sized(s) && Enabled(s, a)
    ensures var t := Step(s, a);
            && t.levels == s.levels + (match a case Sample(level) => [level] case _ => [])
            && t.heard == s.heard + (match a case VoiceRead(input) => [input] case _ => [])
            && t.net == s.net + (match a case SocketRead(input) => [input] case _ => [])
  {
    hide Overlay, Marked, Zeros, Sized;
  }

  lemma {:induction false} StepQueues(s: System, a: Action)
    requires Sized(s) && Enabled(s, a)
    ensures var t := Step(s, a);
            && t.accepted == s.accepted + (if a.Send? && a.ok then [Message(a.source, Content(s, a.source))] else [])
            && |t.queue| == |s.queue| + (if a.Send? && a.ok then 1 else 0) - (if a == Receive then 1 else 0)
            && t.running == (s.running && a != ReceiveFails(false))
  {
    hide Overlay, Marked, Zeros, Sized;
  }

  lemma {:induction false} QueueFollowsStep(s: System, actions: seq<Action>, a: Action)
    requires Inv(s) && Sized(s) && Enabled(s, a) && QueueFollows(s, actions)
    ensures QueueFollows(Step(s, a), actions + [a])
  {
    hide Inv, Step, Senders, Receives;
    StepQueues(s, a);
    OneMoreAction(actions, a);
    StepDispatches(s, a);
    var t := Step(s, a);
    assert SourcesOf(t.accepted) == SourcesOf(s.accepted) + (if a.Send? && a.ok then [a.source] else []);
  }

  lemma {:induction false} StepDispatches(s: System, a: Action)
    requires Inv(s) && Sized(s) && Enabled(s, a)
    ensures |Step(s, a).dispatched| == |s.dispatched| + if a == Receive then 1 else 0
  {
    hide Inv, Overlay, Marked, ReceiveStep;
    if a == Receive {
      ReceiveInv(s);
    }
  }

  lemma {:induction false} KeptMore(frames: seq<seq<byte>>, more: seq<seq<byte>>, oks: seq<bool>)
    requires |oks| <= |frames|
    ensures Kept(frames + more, oks) == Kept(frames, oks)
    decreases |oks|
  {
    if oks != [] {
      KeptMore(frames, more, oks[..|oks| - 1]);
    }
  }

  lemma {:induction false} KeptOne(frames: seq<seq<byte>>, oks: seq<bool>, ok: bool)
    requires |oks| < |frames|
    ensures Kept(frames, oks + [ok]) == Kept(frames, oks) + if ok then [frames[|oks|]] else []
  {
    assert (oks + [ok])[..|oks|] == oks;
  }

  /** What a step does to a producer: nothing, the start of a send, or the end of one. */
  lemma {:induction false} StepProducer(s: System, a: Action, source: Source)
    requires Inv(s) && Sized(s) && Enabled(s, a)
    ensures var p, q, t := ProducerOf(s, source), ProducerOf(Step(s, a), source), Step(s, a);
            if a.Send? && a.source == source then
              && p.sending && !q.sending && q.tried == p.tried && p.tried != []
              && From(t.accepted, source) == From(s.accepted, source) + if a.ok then [p.tried[|p.tried| - 1]] else []
            else
              && From(t.accepted, source) == From(s.accepted, source)
              && ((q.sending == p.sending && q.tried == p.tried)
                  || (!p.sending && q.sending && exists f :: q.tried == p.tried + [f]))
  {
    hide Inv, Step, From, Content;
    StepQueues(s, a);
    StepTries(s, a, source);
    assert s.accepted + [] == s.accepted;
    if a.Send? {
      ContentIsFrame(s, a.source);
      FromOne(s.accepted, Message(a.source, Content(s, a.source)), source);
      assert From(s.accepted, source) + [] == From(s.accepted, source);
    }
  }

  lemma {:induction false} StepTries(s: System, a: Action, source: Source)
    requires Sized(s) && Enabled(s, a)
    ensures var p, q := ProducerOf(s, source), ProducerOf(Step(s, a), source);
            if a.Send? && a.source == source then p.sending && !q.sending && q.tried == p.tried
            else
              || (q.sending == p.sending && q.tried == p.tried)
              || (!p.sending && q.sending && exists f :: q.tried == p.tried + [f])
  {
    hide Overlay, Marked, Zeros, Sized, Content;
  }

  lemma {:induction false} TriedIs(s: System, actions: seq<Action>)
    requires Inv(s)
    requires s.levels == Readings(actions) && s.heard == VoiceReads(actions) && s.net == SocketReads(actions)
    ensures forall source :: ProducerOf(s, source).tried == Tried(actions, source)
  {
    hide FramesIn, FramesOf, Attempts, Alarmed, QueueOk, Honest, ValidFrame;
  }

  lemma {:induction false} ProducerFollowsStep(s: System, actions: seq<Action>, a: Action, source: Source)
    requires Inv(s) && Sized(s) && Enabled(s, a) && ProducerFollows(s, actions, source)
    requires ProducerOf(Step(s, a), source).tried == Tried(actions + [a], source)
    ensures ProducerFollows(Step(s, a), actions + [a], source)
  {
    hide Inv, Step, Sized, Enabled, Tried, Outcomes, Kept, From;
    StepProducer(s, a, source);
    OneMoreOutcome(actions, a, source);
    var p, q, oks := ProducerOf(s, source), ProducerOf(Step(s, a), source), Outcomes(actions, source);
    assert oks + [] == oks;
    if a.Send? && a.source == source {
      KeptOne(p.tried, oks, a.ok);
    } else if q.tried != p.tried {
      var f :| q.tried == p.tried + [f];
      KeptMore(p.tried, [f], oks);
    }
  }

  lemma {:induction false} FollowsStep(s: System, actions: seq<Action>, a: Action)
    requires Inv(s) && Sized(s) && Enabled(s, a) && Follows(s, actions)
    ensures Follows(Step(s, a), actions + [a])
  {
    hide Inv, Step, Sized, Enabled, QueueFollows, ProducerFollows, Tried, Readings, VoiceReads, SocketReads;
    StepInv(s, a);
    StepRecords(s, a);
    OneMoreAction(actions, a);
    QueueFollowsStep(s, actions, a);
    TriedIs(Step(s, a), actions + [a]);
    forall source
      ensures ProducerFollows(Step(s, a), actions + [a], source)
    {
      ProducerFollowsStep(s, actions, a, source);
    }
  }

  lemma {:induction false} FollowsStart()
    ensures Follows(Start(), [])
  {
  }

  /** Every run is told by its actions alone: what was read, who put messages into the queue in
      which order, how many were dispatched and are queued, and, for each producer, that the queue
      took exactly those of its frames whose send succeeded. */
  lemma {:induction false} EveryRunFollows(actions: seq<Action>)
    requires CanRun(Start(), actions)
    ensures Follows(Exec(Start(), actions), actions)
    decreases |actions|
  {
    hide Step, Sized, Enabled, Follows, Start, Inv;
    if actions == [] {
      FollowsStart();
    } else {
      var rest, a := actions[..|actions| - 1], actions[|actions| - 1];
      ExecLast(Start(), actions);
      EveryRunFollows(rest);
      StartInv();
      ExecInv(Start(), rest);
      FollowsStep(Exec(Start(), rest), rest, a);
      assert actions == rest + [a];
    }
  }

  /** In every run, every queued and every dispatched message is a whole frame, and the messages
      dispatched and then those still queued are the accepted sends in order: as many as sends
      succeeded in the run, and as many dispatched as it has receives. */
  lemma {:induction false} EveryRunConserves(actions: seq<Action>)
    requires CanRun(Start(), actions)
    ensures var s := Exec(Start(), actions);
            && s.dispatched + Bytes(s.queue) == Bytes(s.accepted) && |s.queue| <= MAX_MESSAGES
            && |s.accepted| == |Senders(actions)| && |s.dispatched| == Receives(actions)
            && (forall m | m in s.queue :: ValidFrame(m.bytes))
            && (forall m | m in s.dispatched :: ValidFrame(m))
  {
    hide Step, Sized, Enabled, Start, ValidFrame, Bytes, Honest, SmokeOk, VoiceOk, SocketOk, ProducerFollows;
    StartInv();
    ExecInv(Start(), actions);
    var s := Exec(Start(), actions);
    EveryRunFollows(actions);
    QueuedWasAccepted(s);
    DispatchedWasAccepted(s);
  }

  lemma {:induction false} KeptAll(frames: seq<seq<byte>>, oks: seq<bool>)
    requires |oks| <= |frames| && false !in oks
    ensures Kept(frames, oks) == frames[..|oks|]
    decreases |oks|
  {
    if oks != [] {
      var n := |oks| - 1;
      assert oks[n] in oks && forall ok | ok in oks[..n] :: ok in oks;
      KeptAll(frames, oks[..n]);
      assert frames[..n] + [frames[n]] == frames[..n + 1];
    }
  }

  /** Without a failed send, all finished frames of a producer have got into the queue. */
  lemma {:induction false} NothingLost(actions: seq<Action>, source: Source)
    requires CanRun(Start(), actions) && false !in Outcomes(actions, source)
    ensures From(Exec(Start(), actions).accepted, source) == Done(ProducerOf(Exec(Start(), actions), source))
  {
    hide Start, Tried, Outcomes, Kept, From, QueueFollows;
    EveryRunFollows(actions);
    assert ProducerFollows(Exec(Start(), actions), actions, source);
    KeptAll(Tried(actions, source), Outcomes(actions, source));
  }

  /** What can happen next in a run, from its actions. A producer samples or reads exactly when its
      last frame is dealt with, and ends a send when one is not; a send succeeds only with fewer than
      ten messages in the queue. Receives need a message, and end with the first failure for good. */
  lemma {:induction false} WhenEnabled(
      actions: seq<Action>, source: Source, level: Level, input: seq<byte>, again: bool)
    requires CanRun(Start(), actions)
    ensures var s := Exec(Start(), actions);
            && (Enabled(s, Sample(level)) <==> |Tried(actions, FromSmoke)| == |Outcomes(actions, FromSmoke)|)
            && (Enabled(s, VoiceRead(input))
                <==> |Tried(actions, FromVoice)| == |Outcomes(actions, FromVoice)| && |input| <= 6)
            && (Enabled(s, SocketRead(input))
                <==> |Tried(actions, FromSocket)| == |Outcomes(actions, FromSocket)| && |input| <= 6)
            && (Enabled(s, Send(source, false)) <==> |Tried(actions, source)| == |Outcomes(actions, source)| + 1)
            && (Enabled(s, Send(source, true))
                <==> |Tried(actions, source)| == |Outcomes(actions, source)| + 1
                     && |Senders(actions)| < Receives(actions) + 10)
            && (Enabled(s, Receive)
                <==> |Senders(actions)| > Receives(actions) && ReceiveFails(false) !in actions)
            && (Enabled(s, ReceiveFails(again)) <==> ReceiveFails(false) !in actions)
  {
    hide Start, Tried, Outcomes, Kept, From, SourcesOf;
    EveryRunFollows(actions);
    var s := Exec(Start(), actions);
    assert ProducerFollows(s, actions, FromSmoke) && ProducerFollows(s, actions, FromVoice)
           && ProducerFollows(s, actions, FromSocket);
  }
}
