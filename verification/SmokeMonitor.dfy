/** The smoke sensor's loop: an alarm frame for every LOW reading, and one clear frame when the
    readings go back to HIGH. */
module SmokeMonitor {
  import opened Frames

  datatype Level = Low | High

  datatype Attempt = Alarm | AllClear

  function FrameOf(a: Attempt): seq<byte> {
    [0xAA, 0x55, 0x45, if a == Alarm then 0x00 else 0x01, 0x55, 0xAA]
  }

  /** `switch_status` after some readings: LOW sets it, and the first HIGH behind resets it. */
  predicate Alarmed(levels: seq<Level>) {
    levels != [] && levels[|levels| - 1] == Low
  }

  /** What one reading makes the loop send, given `switch_status`. */
  function Reaction(alarmed: bool, level: Level): seq<Attempt> {
    if level == Low then [Alarm] else if alarmed then [AllClear] else []
  }

  /** The frames the loop tries to send, in order. */
  function Attempts(levels: seq<Level>): seq<Attempt> {
    if levels == [] then []
    else
      var n := |levels| - 1;
      Attempts(levels[..n]) + Reaction(Alarmed(levels[..n]), levels[n])
  }

  function FramesOf(attempts: seq<Attempt>): (r: seq<seq<byte>>)
    ensures |r| == |attempts| && forall i | 0 <= i < |r| :: r[i] == FrameOf(attempts[i])
  {
    seq(|attempts|, i requires 0 <= i < |attempts| => FrameOf(attempts[i]))
  }

  lemma {:induction false} AttemptsNext(levels: seq<Level>, i: nat)
    requires i < |levels|
    ensures Attempts(levels[..i + 1]) == Attempts(levels[..i]) + Reaction(Alarmed(levels[..i]), levels[i])
    ensures Alarmed(levels[..i + 1]) == (levels[i] == Low)
  {
    assert levels[..i + 1][..i] == levels[..i];
  }

  /** The loop of `smoke_get` over any readings and any outcomes of its sends. The frames it tries
      to send do not depend on the outcomes. */
  method SmokeGet(levels: seq<Level>, outcomes: seq<bool>) returns (tried: seq<seq<byte>>)
    requires |outcomes| == |levels|
    ensures tried == FramesOf(Attempts(levels)) && SmokeFrames(levels, tried)
  {
    hide Attempts, Alarmed, FramesOf;
    var buffer := new byte[FRAME_SIZE] [0xAA, 0x55, 0x00, 0x00, 0x55, 0xAA];
    var switchStatus := 0;
    tried := [];
    Start(levels);
    for i := 0 to |levels|
      invariant buffer[0] == 0xAA && buffer[1] == 0x55 && buffer[4] == 0x55 && buffer[5] == 0xAA
      invariant switchStatus == if Alarmed(levels[..i]) then 1 else 0
      invariant tried == FramesOf(Attempts(levels[..i]))
    {
      AttemptsNext(levels, i);
      FramesOfAppend(Attempts(levels[..i]), Reaction(Alarmed(levels[..i]), levels[i]));
      if levels[i] == Low {
        buffer[2], buffer[3] := 0x45, 0x00;
        switchStatus := 1;
        assert buffer[..] == FrameOf(Alarm);
        tried := tried + [buffer[..]];
        if !outcomes[i] {
          continue;
        }
      } else if levels[i] == High && switchStatus == 1 {
        buffer[2], buffer[3] := 0x45, 0x01;
        switchStatus := 0;
        assert buffer[..] == FrameOf(AllClear);
        tried := tried + [buffer[..]];
        if !outcomes[i] {
          continue;
        }
        buffer[2] := 0x00;
      }
    }
    assert levels[..|levels|] == levels;
    SmokeBytes(levels);
  }

  lemma {:induction false} Start(levels: seq<Level>)
    ensures !Alarmed(levels[..0]) && FramesOf(Attempts(levels[..0])) == []
  {
  }

  lemma {:induction false} FramesOfAppend(a: seq<Attempt>, b: seq<Attempt>)
    ensures FramesOf(a + b) == FramesOf(a) + FramesOf(b)
    ensures forall x :: FramesOf([x]) == [FrameOf(x)]
    ensures FramesOf([]) == []
  {
  }

  // ---------------------------------------------------------------- counting

  function CountLow(levels: seq<Level>): nat {
    if levels == [] then 0 else (if levels[0] == Low then 1 else 0) + CountLow(levels[1..])
  }

  /** Readings of HIGH right after a reading of LOW. */
  function CountRises(levels: seq<Level>): nat {
    if |levels| < 2 then 0
    else (if levels[0] == Low && levels[1] == High then 1 else 0) + CountRises(levels[1..])
  }

  function Count(attempts: seq<Attempt>, a: Attempt): nat {
    if attempts == [] then 0 else (if attempts[0] == a then 1 else 0) + Count(attempts[1..], a)
  }

  lemma {:induction false} CountAppend(x: seq<Attempt>, y: seq<Attempt>, a: Attempt)
    ensures Count(x + y, a) == Count(x, a) + Count(y, a)
    decreases |x|
  {
    if x == [] {
      assert x + y == y;
    } else {
      assert (x + y)[1..] == x[1..] + y;
      CountAppend(x[1..], y, a);
    }
  }

  lemma {:induction false} LowAppend(levels: seq<Level>, l: Level)
    ensures CountLow(levels + [l]) == CountLow(levels) + (if l == Low then 1 else 0)
    ensures CountRises(levels + [l]) == CountRises(levels)
         + (if levels != [] && levels[|levels| - 1] == Low && l == High then 1 else 0)
    decreases |levels|
  {
    if levels != [] {
      assert (levels + [l])[1..] == levels[1..] + [l];
      LowAppend(levels[1..], l);
    }
  }

  /** As many alarms as LOW readings, as many clears as changes from LOW to HIGH. */
  lemma {:induction false} AttemptCounts(levels: seq<Level>)
    ensures Count(Attempts(levels), Alarm) == CountLow(levels)
    ensures Count(Attempts(levels), AllClear) == CountRises(levels)
    decreases |levels|
  {
    if levels != [] {
      hide CountLow, CountRises;
      var n := |levels| - 1;
      var rest := levels[..n];
      AttemptCounts(rest);
      CountAppend(Attempts(rest), Reaction(Alarmed(rest), levels[n]), Alarm);
      CountAppend(Attempts(rest), Reaction(Alarmed(rest), levels[n]), AllClear);
      assert levels == rest + [levels[n]];
      LowAppend(rest, levels[n]);
    }
  }

  // ---------------------------------------------------------------- the bytes

  function CountFrames(frames: seq<seq<byte>>, f: seq<byte>): nat {
    if frames == [] then 0 else (if frames[0] == f then 1 else 0) + CountFrames(frames[1..], f)
  }

  /** The frames are AA 55 45 00 55 AA for smoke, as many as LOW readings, and AA 55 45 01 55 AA for
      its end, as many as changes from LOW to HIGH. The last tells the last reading. */
  ghost predicate SmokeFrames(levels: seq<Level>, frames: seq<seq<byte>>) {
    && (forall f | f in frames ::
          f == [0xAA, 0x55, 0x45, 0x00, 0x55, 0xAA] || f == [0xAA, 0x55, 0x45, 0x01, 0x55, 0xAA])
    && CountFrames(frames, [0xAA, 0x55, 0x45, 0x00, 0x55, 0xAA]) == CountLow(levels)
    && CountFrames(frames, [0xAA, 0x55, 0x45, 0x01, 0x55, 0xAA]) == CountRises(levels)
    && (frames != [] && frames[|frames| - 1] == [0xAA, 0x55, 0x45, 0x00, 0x55, 0xAA]
        <==> levels != [] && levels[|levels| - 1] == Low)
  }

  lemma {:induction false} CountOfFrames(attempts: seq<Attempt>)
    ensures CountFrames(FramesOf(attempts), [0xAA, 0x55, 0x45, 0x00, 0x55, 0xAA]) == Count(attempts, Alarm)
    ensures CountFrames(FramesOf(attempts), [0xAA, 0x55, 0x45, 0x01, 0x55, 0xAA]) == Count(attempts, AllClear)
    decreases |attempts|
  {
    if attempts != [] {
      CountOfFrames(attempts[1..]);
      assert FramesOf(attempts)[1..] == FramesOf(attempts[1..]);
      assert FrameOf(attempts[0])[3] == if attempts[0] == Alarm then 0x00 else 0x01;
    }
  }

  /** Over any readings, in bytes. */
  lemma {:induction false} SmokeBytes(levels: seq<Level>)
    ensures SmokeFrames(levels, FramesOf(Attempts(levels)))
  {
    hide Attempts, CountLow, CountRises, CountFrames, Count;
    var t := Attempts(levels);
    CountOfFrames(t);
    AttemptCounts(levels);
    LastAttempt(levels);
    assert t != [] ==> FramesOf(t)[|t| - 1][3] == if t[|t| - 1] == Alarm then 0x00 else 0x01;
  }

  /** A reading that makes the loop send: LOW, or HIGH right behind LOW. */
  predicate Sends(levels: seq<Level>, i: nat)
    requires i < |levels|
  {
    levels[i] == Low || (i > 0 && levels[i - 1] == Low)
  }

  /** Every frame has its reading, in order: the alarm one LOW, the clear one HIGH behind LOW. */
  ghost predicate SmokeAt(levels: seq<Level>, frames: seq<seq<byte>>, at: seq<nat>) {
    && |at| == |frames| && (forall j, k | 0 <= j < k < |at| :: at[j] < at[k])
    && (forall k | 0 <= k < |at| ::
          && at[k] < |levels| && Sends(levels, at[k])
          && frames[k] == [0xAA, 0x55, 0x45, if levels[at[k]] == Low then 0x00 else 0x01, 0x55, 0xAA])
    && forall i | 0 <= i < |levels| :: Sends(levels, i) ==> i in at
  }

  lemma {:induction false} SmokeAtNext(levels: seq<Level>, frames: seq<seq<byte>>, at: seq<nat>, l: Level)
    requires SmokeAt(levels, frames, at)
    ensures var all, n := levels + [l], |levels|;
            if Sends(all, n)
            then SmokeAt(all, frames + [[0xAA, 0x55, 0x45, if l == Low then 0x00 else 0x01, 0x55, 0xAA]], at + [n])
            else SmokeAt(all, frames, at)
  {
    var all := levels + [l];
    assert forall i | 0 <= i < |levels| :: Sends(all, i) == Sends(levels, i);
  }

  /** The frames tried over any readings, with the readings they answer. */
  lemma {:induction false} SmokePlaces(levels: seq<Level>) returns (at: seq<nat>)
    ensures SmokeAt(levels, FramesOf(Attempts(levels)), at)
    decreases |levels|
  {
    hide SmokeAt;
    if levels == [] {
      at := [];
      NoPlaces();
    } else {
      var n := |levels| - 1;
      var rest := levels[..n];
      at := SmokePlaces(rest);
      assert levels == rest + [levels[n]];
      SmokeAtNext(rest, FramesOf(Attempts(rest)), at, levels[n]);
      FramesOfAppend(Attempts(rest), Reaction(Alarmed(rest), levels[n]));
      if Sends(levels, n) {
        at := at + [n];
      } else {
        assert FramesOf(Attempts(rest)) + [] == FramesOf(Attempts(rest));
      }
    }
  }

  lemma {:induction false} NoPlaces()
    ensures SmokeAt([], FramesOf(Attempts([])), [])
  {
  }

  // ---------------------------------------------------------------- order

  /** No clear follows a clear directly, and the last attempt tells the last level: it is an
      alarm exactly when that is LOW. */
  ghost predicate Alternates(attempts: seq<Attempt>) {
    forall i | 0 < i < |attempts| :: attempts[i] == AllClear ==> attempts[i - 1] == Alarm
  }

  lemma {:induction false} LastAttempt(levels: seq<Level>)
    ensures Alternates(Attempts(levels))
    ensures var t := Attempts(levels);
            t != [] && t[|t| - 1] == Alarm <==> levels != [] && levels[|levels| - 1] == Low
    decreases |levels|
  {
    if levels != [] {
      LastAttempt(levels[..|levels| - 1]);
    }
  }

  /** Between two clear attempts there is always an alarm attempt. */
  lemma {:induction false} AlarmBetweenClears(levels: seq<Level>, i: nat, j: nat)
    requires i < j < |Attempts(levels)|
    requires Attempts(levels)[i] == AllClear && Attempts(levels)[j] == AllClear
    ensures exists k | i < k < j :: Attempts(levels)[k] == Alarm
  {
    hide Attempts;
    LastAttempt(levels);
    assert Attempts(levels)[j - 1] == Alarm;
  }
}
