/** Command frames, and the loops that produce and consume them: the serial port of the voice
    module, the network connection, the smoke sensor and the receiver. */
module Frames {

  type byte = x: int | 0 <= x < 256

  const FRAME_SIZE: nat := 6
  const SIZE: nat := 108           // room of one message
  const MAX_MESSAGES: nat := 10    // room of the queue

  /** The check every thread makes on the first six bytes of its buffer. */
  predicate Marked(b: seq<byte>)
    requires |b| >= FRAME_SIZE
  {
    b[0] == 0xAA && b[1] == 0x55 && b[4] == 0x55 && b[5] == 0xAA
  }

  predicate ValidFrame(m: seq<byte>) {
    |m| == FRAME_SIZE && Marked(m)
  }

  function Zeros(n: nat): seq<byte> {
    seq(n, _ => 0)
  }

  /** A buffer after a read: the bytes read, then what was there. */
  function Overlay(buffer: seq<byte>, bytes: seq<byte>): (r: seq<byte>)
    requires |bytes| <= |buffer|
    ensures |r| == |buffer|
  {
    bytes + buffer[|bytes|..]
  }

  /** The valid frames among some inputs, in order. */
  function FramesIn(inputs: seq<seq<byte>>): seq<seq<byte>> {
    if inputs == [] then []
    else
      var m := inputs[|inputs| - 1];
      FramesIn(inputs[..|inputs| - 1]) + if ValidFrame(m) then [m] else []
  }

  lemma {:induction false} FramesInNext(inputs: seq<seq<byte>>, i: nat)
    requires i < |inputs|
    ensures FramesIn(inputs[..i + 1]) == FramesIn(inputs[..i]) + if ValidFrame(inputs[i]) then [inputs[i]] else []
  {
    assert inputs[..i + 1][..i] == inputs[..i];
  }

  /** `r` is what is at the positions `at` of `from`, in order. */
  ghost predicate Picks(r: seq<seq<byte>>, from: seq<seq<byte>>, at: seq<nat>) {
    && |at| == |r| && (forall k | 0 <= k < |at| :: at[k] < |from| && r[k] == from[at[k]])
    && forall j, k | 0 <= j < k < |at| :: at[j] < at[k]
  }

  lemma {:induction false} PicksNext(r: seq<seq<byte>>, from: seq<seq<byte>>, at: seq<nat>, m: seq<byte>)
    requires Picks(r, from, at)
    ensures Picks(r + [], from + [m], at) && Picks(r + [m], from + [m], at + [|from|])
  {
    assert r + [] == r;
  }

  /** A whole frame is six bytes: 0xAA 0x55, the key, the value, 0x55 0xAA. */
  lemma {:induction false} FrameBytes(m: seq<byte>)
    ensures ValidFrame(m) <==> exists key: byte, value: byte :: m == [0xAA, 0x55, key, value, 0x55, 0xAA]
  {
    if ValidFrame(m) {
      assert m == [0xAA, 0x55, m[2], m[3], 0x55, 0xAA];
    }
  }

  /** The frames among some inputs are the inputs that consist of such bytes, each in its place. */
  lemma {:induction false} FramesInBytes(inputs: seq<seq<byte>>) returns (at: seq<nat>)
    ensures Picks(FramesIn(inputs), inputs, at)
    ensures forall i | 0 <= i < |inputs| ::
              i in at <==> exists key: byte, value: byte :: inputs[i] == [0xAA, 0x55, key, value, 0x55, 0xAA]
    decreases |inputs|
  {
    hide ValidFrame, Picks;
    if inputs == [] {
      at := [];
      NoPicks();
    } else {
      var n := |inputs| - 1;
      at := FramesInBytes(inputs[..n]);
      assert inputs == inputs[..n] + [inputs[n]];
      FrameBytes(inputs[n]);
      PicksNext(FramesIn(inputs[..n]), inputs[..n], at, inputs[n]);
      PicksBelow(FramesIn(inputs[..n]), inputs[..n], at);
      if ValidFrame(inputs[n]) {
        at := at + [n];
      }
    }
  }

  lemma {:induction false} NoPicks()
    ensures Picks([], [], [])
  {
  }

  lemma {:induction false} PicksBelow(r: seq<seq<byte>>, from: seq<seq<byte>>, at: seq<nat>)
    requires Picks(r, from, at)
    ensures forall i | i in at :: i < |from|
  {
  }

  /** In a zeroed buffer the check succeeds exactly for a read of one whole frame. */
  lemma {:induction false} MarkedMeansWhole(bytes: seq<byte>)
    requires |bytes| <= FRAME_SIZE
    ensures Marked(Overlay(Zeros(FRAME_SIZE), bytes)) <==> ValidFrame(bytes)
    ensures |bytes| == FRAME_SIZE ==> Overlay(Zeros(FRAME_SIZE), bytes) == bytes
  {
    var b := Overlay(Zeros(FRAME_SIZE), bytes);
    assert forall i | |bytes| <= i < FRAME_SIZE :: b[i] == 0;
    assert forall i | 0 <= i < |bytes| :: b[i] == bytes[i];
  }

  // ---------------------------------------------------------------- buffers

  /** `read`, `recv` or `mq_receive` into the start of a buffer. */
  method Fill(buffer: array<byte>, bytes: seq<byte>) returns (len: nat)
    requires |bytes| <= buffer.Length
    modifies buffer
    ensures len == |bytes| && buffer[..] == Overlay(old(buffer[..]), bytes)
  {
    len := 0;
    while len < |bytes|
      invariant len <= |bytes|
      invariant forall k | 0 <= k < len :: buffer[k] == bytes[k]
      invariant forall k | len <= k < buffer.Length :: buffer[k] == old(buffer[k])
    {
      buffer[len] := bytes[len];
      len := len + 1;
    }
  }

  /** `memset(buffer, 0, sizeof(buffer))` */
  method Clear(buffer: array<byte>)
    modifies buffer
    ensures buffer[..] == Zeros(buffer.Length)
  {
    for i := 0 to buffer.Length
      invariant forall k | 0 <= k < i :: buffer[k] == 0
    {
      buffer[i] := 0;
    }
  }

  // ---------------------------------------------------------------- the producers

  /** The loop of `voice_get` over any inputs from the serial port; an empty one stands for a read
      that returns nothing or fails. What it sends are the inputs that are whole frames. */
  method VoiceGet(inputs: seq<seq<byte>>) returns (sent: seq<seq<byte>>)
    requires forall r | r in inputs :: |r| <= FRAME_SIZE
    ensures sent == FramesIn(inputs)
  {
    hide Overlay, Marked;
    var buffer := new byte[FRAME_SIZE](_ => 0);
    sent := [];
    assert inputs[..0] == [] && buffer[..] == Zeros(FRAME_SIZE);
    for i := 0 to |inputs|
      invariant buffer[..] == Zeros(FRAME_SIZE) && sent == FramesIn(inputs[..i])
    {
      assert inputs[i] in inputs;
      MarkedMeansWhole(inputs[i]);
      FramesInNext(inputs, i);
      var len := Fill(buffer, inputs[i]);
      if len > 0 {
        if Marked(buffer[..]) {
          assert buffer[..][..len] == inputs[i];
          sent := sent + [buffer[..][..len]];
        }
        Clear(buffer);
      } else {
        NothingRead(Zeros(FRAME_SIZE), inputs[i]);
      }
    }
    assert inputs[..|inputs|] == inputs;
  }

  lemma {:induction false} NothingRead(buffer: seq<byte>, bytes: seq<byte>)
    requires bytes == []
    ensures Overlay(buffer, bytes) == buffer
  {
  }

  /** The inputs up to the first empty one. */
  function UntilClosed(inputs: seq<seq<byte>>): seq<seq<byte>> {
    if inputs == [] || inputs[0] == [] then [] else [inputs[0]] + UntilClosed(inputs[1..])
  }

  lemma {:induction false} UntilClosedMeans(inputs: seq<seq<byte>>)
    ensures var r := UntilClosed(inputs); r <= inputs && [] !in r && (|r| < |inputs| ==> inputs[|r|] == [])
    decreases |inputs|
  {
    if inputs != [] && inputs[0] != [] {
      UntilClosedMeans(inputs[1..]);
    }
  }

  /** The inner loop of `tcpsocket_get` over the inputs of one connection, of at most six bytes
      each; it ends at the first read that returns nothing or fails. */
  method SocketGet(inputs: seq<seq<byte>>) returns (sent: seq<seq<byte>>)
    requires forall r | r in inputs :: |r| <= FRAME_SIZE
    ensures sent == FramesIn(UntilClosed(inputs))
  {
    hide Overlay, Marked, FramesIn;
    var readbuf := new byte[FRAME_SIZE];
    sent := [];
    var i := 0;
    NoFrames();
    ghost var seen: seq<seq<byte>> := [];
    while i < |inputs|
      invariant 0 <= i <= |inputs| && sent == FramesIn(seen)
      invariant UntilClosed(inputs) == seen + UntilClosed(inputs[i..])
    {
      assert inputs[i] in inputs;
      Clear(readbuf);
      var ret := Fill(readbuf, inputs[i]);
      assert inputs[i..][1..] == inputs[i + 1..];
      if ret > 0 {
        MarkedMeansWhole(inputs[i]);
        FramesInOne(seen, inputs[i]);
        if Marked(readbuf[..]) {
          sent := sent + [readbuf[..]];
        }
        seen := seen + [inputs[i]];
        i := i + 1;
      } else {
        break;
      }
    }
    assert UntilClosed(inputs) == seen;
  }

  lemma {:induction false} NoFrames()
    ensures FramesIn([]) == []
  {
  }

  lemma {:induction false} FramesInOne(inputs: seq<seq<byte>>, m: seq<byte>)
    ensures FramesIn(inputs + [m]) == FramesIn(inputs) + if ValidFrame(m) then [m] else []
  {
    assert (inputs + [m])[..|inputs|] == inputs;
  }

  // ---------------------------------------------------------------- the receiver

  /** The buffer of `receive_get` after some messages: a short one leaves the end of an earlier
      one in place. */
  function Received(messages: seq<seq<byte>>): (r: seq<byte>)
    requires forall m | m in messages :: |m| <= SIZE
    ensures |r| == SIZE
  {
    if messages == [] then Zeros(SIZE)
    else Overlay(Received(messages[..|messages| - 1]), messages[|messages| - 1])
  }

  /** The messages handed on: those after which the buffer starts with a frame. */
  function Dispatched(messages: seq<seq<byte>>): seq<seq<byte>>
    requires forall m | m in messages :: |m| <= SIZE
  {
    if messages == [] then []
    else
      Dispatched(messages[..|messages| - 1])
      + if Marked(Received(messages)) then [messages[|messages| - 1]] else []
  }

  /** Each byte of the buffer is that of the last message long enough to have one there. */
  lemma {:induction false} ReceivedByte(messages: seq<seq<byte>>, k: nat)
    requires (forall m | m in messages :: |m| <= SIZE) && k < SIZE
    ensures (forall m | m in messages :: |m| <= k) ==> Received(messages)[k] == 0
    ensures forall i: nat | LastReaching(messages, k, i) :: Received(messages)[k] == messages[i][k]
    decreases |messages|
  {
    hide Overlay;
    if messages != [] {
      var n := |messages| - 1;
      ReceivedByte(messages[..n], k);
      OverlayByte(Received(messages[..n]), messages[n], k);
      forall i: nat | LastReaching(messages, k, i)
        ensures Received(messages)[k] == messages[i][k]
      {
        if i < n {
          assert LastReaching(messages[..n], k, i);
        }
      }
    }
  }

  /** Message `i` is the last one with a byte at position `k`. */
  ghost predicate LastReaching(messages: seq<seq<byte>>, k: nat, i: nat) {
    i < |messages| && k < |messages[i]| && forall j | i < j < |messages| :: |messages[j]| <= k
  }

  lemma {:induction false} OverlayByte(buffer: seq<byte>, bytes: seq<byte>, k: nat)
    requires |bytes| <= |buffer| && k < |buffer|
    ensures Overlay(buffer, bytes)[k] == if k < |bytes| then bytes[k] else buffer[k]
  {
  }

  /** The buffer behind message `i` has the bytes of a frame. */
  ghost predicate FrameAfter(messages: seq<seq<byte>>, i: nat)
    requires i < |messages| && forall m | m in messages :: |m| <= SIZE
  {
    var b := Received(messages[..i + 1]);
    b[0] == 0xAA && b[1] == 0x55 && b[4] == 0x55 && b[5] == 0xAA
  }

  lemma {:induction false} FrameAtEnd(messages: seq<seq<byte>>)
    requires messages != [] && forall m | m in messages :: |m| <= SIZE
    ensures FrameAfter(messages, |messages| - 1) == Marked(Received(messages))
  {
    hide Received;
    assert messages[..|messages|] == messages;
  }

  lemma {:induction false} FramesBefore(messages: seq<seq<byte>>, i: nat)
    requires i < |messages| - 1 && forall m | m in messages :: |m| <= SIZE
    ensures FrameAfter(messages[..|messages| - 1], i) == FrameAfter(messages, i)
  {
    hide Received;
    assert messages[..|messages| - 1][..i + 1] == messages[..i + 1];
  }

  /** The messages handed on are those after which the buffer has the bytes of a frame. */
  lemma {:induction false} DispatchedBytes(messages: seq<seq<byte>>) returns (at: seq<nat>)
    requires forall m | m in messages :: |m| <= SIZE
    ensures Picks(Dispatched(messages), messages, at)
    ensures forall i | 0 <= i < |messages| :: i in at <==> FrameAfter(messages, i)
    decreases |messages|
  {
    hide Received, Picks, Marked, FrameAfter;
    if messages == [] {
      at := [];
      NoPicks();
    } else {
      var n := |messages| - 1;
      at := DispatchedBytes(messages[..n]);
      assert messages == messages[..n] + [messages[n]];
      forall i | 0 <= i < n
        ensures FrameAfter(messages[..n], i) == FrameAfter(messages, i)
      {
        FramesBefore(messages, i);
      }
      FrameAtEnd(messages);
      PicksNext(Dispatched(messages[..n]), messages[..n], at, messages[n]);
      PicksBelow(Dispatched(messages[..n]), messages[..n], at);
      if Marked(Received(messages)) {
        at := at + [n];
      }
    }
  }

  /** The loop of `receive_get` over the messages it receives; it hands on copies. */
  method ReceiveGet(messages: seq<seq<byte>>) returns (handed: seq<seq<byte>>)
    requires forall m | m in messages :: |m| <= SIZE
    ensures handed == Dispatched(messages)
  {
    hide Marked, Overlay;
    var copy, buffer := new byte[SIZE](_ => 0), new byte[SIZE](_ => 0);
    handed := [];
    assert messages[..0] == [] && buffer[..] == Zeros(SIZE);
    for i := 0 to |messages|
      invariant forall m | m in messages[..i] :: |m| <= SIZE
      invariant buffer[..] == Received(messages[..i]) && handed == Dispatched(messages[..i])
    {
      assert messages[i] in messages;
      assert messages[..i + 1][..i] == messages[..i] && messages[..i + 1][i] == messages[i];
      var len := Fill(buffer, messages[i]);
      assert buffer[..] == Received(messages[..i + 1]);
      if Marked(buffer[..]) {
        OverlayStart(Received(messages[..i]), messages[i]);
        OverlayStart(copy[..], messages[i]);
        var copied := Fill(copy, buffer[..][..len]);
        handed := handed + [copy[..][..copied]];
      }
    }
    assert messages[..|messages|] == messages;
  }

  lemma {:induction false} OverlayStart(buffer: seq<byte>, bytes: seq<byte>)
    requires |bytes| <= |buffer|
    ensures Overlay(buffer, bytes)[..|bytes|] == bytes
  {
  }

  /** A queue of whole frames is handed on whole. */
  lemma {:induction false} FramesAreDispatched(messages: seq<seq<byte>>)
    requires forall m | m in messages :: ValidFrame(m)
    ensures (forall m | m in messages :: |m| <= SIZE) && Dispatched(messages) == messages
    decreases |messages|
  {
    if messages != [] {
      var n := |messages| - 1;
      FramesAreDispatched(messages[..n]);
      assert ValidFrame(messages[n]);
      assert messages == messages[..n] + [messages[n]];
    }
  }
}
