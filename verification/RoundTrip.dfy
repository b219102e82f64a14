/** What one receiver makes of a stream of frames in which every frame is repeated. */
module RoundTrip {
  import opened Wrappers
  import opened Time
  import opened Format
  import opened Priorities
  import opened Segmentation
  import opened Reassembly
  import opened Transfers

  // ---------------------------------------------------------------- runs

  datatype Heard = Heard(priority: Priority, frame: Frame, timestamp: Instant)

  function Hear(m: Session, timeout: Duration, h: Heard): (Session, Option<Delivery>) {
    Step(m, timeout, h.priority, h.frame.tail, h.frame.payload, h.timestamp)
  }

  function Final(m: Session, timeout: Duration, heard: seq<Heard>): Session
    decreases |heard|
  {
    if heard == [] then m
    else Final(Hear(m, timeout, heard[0]).0, timeout, heard[1..])
  }

  function Once<T>(d: Option<T>): seq<T> {
    match d
    case None => []
    case Some(x) => [x]
  }

  function Deliveries(m: Session, timeout: Duration, heard: seq<Heard>): seq<Delivery>
    decreases |heard|
  {
    if heard == [] then []
    else
      Once(Hear(m, timeout, heard[0]).1) + Deliveries(Hear(m, timeout, heard[0]).0, timeout, heard[1..])
  }

  lemma {:induction false} RunAppend(m: Session, timeout: Duration, a: seq<Heard>, b: seq<Heard>)
    ensures Final(m, timeout, a + b) == Final(Final(m, timeout, a), timeout, b)
    ensures Deliveries(m, timeout, a + b)
         == Deliveries(m, timeout, a) + Deliveries(Final(m, timeout, a), timeout, b)
    decreases |a|
  {
    if a == [] {
      assert a + b == b;
    } else {
      assert (a + b)[1..] == a[1..] + b;
      RunAppend(Hear(m, timeout, a[0]).0, timeout, a[1..], b);
    }
  }

  function Copies(f: Frame, priority: Priority, times: seq<Instant>): seq<Heard> {
    if times == [] then []
    else [Heard(priority, f, times[0])] + Copies(f, priority, times[1..])
  }

  /** Every frame in order, frame `i` once for each instant in `times[i]`. */
  function Stutter(frames: seq<Frame>, priority: Priority, times: seq<seq<Instant>>): seq<Heard>
    requires |frames| == |times|
  {
    if frames == [] then []
    else Copies(frames[0], priority, times[0]) + Stutter(frames[1..], priority, times[1..])
  }

  lemma FirstCopy(m: Session, timeout: Duration, priority: Priority, f: Frame, times: seq<Instant>)
    requires times != []
    ensures Copies(f, priority, times)[0] == Heard(priority, f, times[0])
    ensures Copies(f, priority, times)[1..] == Copies(f, priority, times[1..])
    ensures Final(m, timeout, Copies(f, priority, times))
         == Final(Hear(m, timeout, Heard(priority, f, times[0])).0, timeout, Copies(f, priority, times[1..]))
    ensures Deliveries(m, timeout, Copies(f, priority, times))
         == Once(Hear(m, timeout, Heard(priority, f, times[0])).1)
            + Deliveries(Hear(m, timeout, Heard(priority, f, times[0])).0, timeout, Copies(f, priority, times[1..]))
  {
    var rest := Copies(f, priority, times[1..]);
    assert ([Heard(priority, f, times[0])] + rest)[1..] == rest;
  }

  lemma StutterSplit(m: Session, timeout: Duration, priority: Priority, frames: seq<Frame>, times: seq<seq<Instant>>)
    requires frames != [] && |frames| == |times|
    ensures Deliveries(m, timeout, Stutter(frames, priority, times))
         == Deliveries(m, timeout, Copies(frames[0], priority, times[0]))
            + Deliveries(Final(m, timeout, Copies(frames[0], priority, times[0])), timeout,
                         Stutter(frames[1..], priority, times[1..]))
    ensures |frames| == 1 ==> Stutter(frames[1..], priority, times[1..]) == []
  {
    RunAppend(m, timeout, Copies(frames[0], priority, times[0]), Stutter(frames[1..], priority, times[1..]));
  }

  // ---------------------------------------------------------------- the same runs over bytes

  function Encode(heard: seq<Heard>): seq<Arrival> {
    if heard == [] then []
    else [Arrival(heard[0].priority, FrameBytes(heard[0].frame), heard[0].timestamp)] + Encode(heard[1..])
  }

  function ByteDeliveries(m: Session, timeout: Duration, arrivals: seq<Arrival>): seq<Delivery>
    decreases |arrivals|
  {
    if arrivals == [] then []
    else
      Once(Receive(m, timeout, arrivals[0]).1)
        + ByteDeliveries(Receive(m, timeout, arrivals[0]).0, timeout, arrivals[1..])
  }

  /** The frames of a byte history that have a tail byte. */
  function Decode(arrivals: seq<Arrival>): seq<Heard> {
    if arrivals == [] then []
    else
      var a := arrivals[0];
      (if a.data == [] then [] else [Heard(a.priority, Frame(TailOf(a.data), Payload(a.data)), a.timestamp)])
        + Decode(arrivals[1..])
  }

  /** A receiver fed bytes delivers what it delivers for the decoded frames. */
  lemma {:induction false} BytesAsHeard(m: Session, timeout: Duration, arrivals: seq<Arrival>)
    ensures ByteDeliveries(m, timeout, arrivals) == Deliveries(m, timeout, Decode(arrivals))
    decreases |arrivals|
  {
    if arrivals != [] {
      var a := arrivals[0];
      var rest := Decode(arrivals[1..]);
      BytesAsHeard(Receive(m, timeout, a).0, timeout, arrivals[1..]);
      if a.data != [] {
        var h := Heard(a.priority, Frame(TailOf(a.data), Payload(a.data)), a.timestamp);
        assert Decode(arrivals) == [h] + rest && ([h] + rest)[1..] == rest;
      } else {
        assert Decode(arrivals) == rest;
      }
    }
  }

  lemma DecodesTo(f: Frame)
    ensures FrameBytes(f) != []
    ensures TailOf(FrameBytes(f)) == f.tail && Payload(FrameBytes(f)) == f.payload
  {
    DecodeEncodeTail(f.tail);
  }

  lemma {:induction false} DecodeEncode(heard: seq<Heard>)
    ensures Decode(Encode(heard)) == heard
  {
    if heard != [] {
      var h := heard[0];
      DecodesTo(h.frame);
      assert Encode(heard)[1..] == Encode(heard[1..]);
      DecodeEncode(heard[1..]);
    }
  }

  ghost predicate Within(times: seq<Instant>, from: Instant, timeout: Duration) {
    forall i :: 0 <= i < |times| ==> from <= times[i] <= SaturatingAdd(from, timeout)
  }

  // ---------------------------------------------------------------- groups of copies

  /** No frame but a start of transfer gets anything out of a session that is not collecting. */
  lemma {:induction false} DeafGroup(m: Session, timeout: Duration, priority: Priority, f: Frame, times: seq<Instant>)
    requires !f.tail.sot && !IsAccumulating(m.state)
    ensures !IsAccumulating(Final(m, timeout, Copies(f, priority, times)).state)
    ensures Deliveries(m, timeout, Copies(f, priority, times)) == []
    decreases |times|
  {
    if times != [] {
      FirstCopy(m, timeout, priority, f, times);
      DeafGroup(Hear(m, timeout, Heard(priority, f, times[0])).0, timeout, priority, f, times[1..]);
    }
  }

  lemma {:induction false} DeafGroups(m: Session, timeout: Duration, priority: Priority, frames: seq<Frame>,
                                      times: seq<seq<Instant>>)
    requires |frames| == |times| && !IsAccumulating(m.state)
    requires forall i :: 0 <= i < |frames| ==> !frames[i].tail.sot
    ensures Deliveries(m, timeout, Stutter(frames, priority, times)) == []
    decreases |frames|
  {
    if frames != [] {
      StutterSplit(m, timeout, priority, frames, times);
      DeafGroup(m, timeout, priority, frames[0], times[0]);
      DeafGroups(Final(m, timeout, Copies(frames[0], priority, times[0])), timeout, priority, frames[1..], times[1..]);
    }
  }

  /** The session is collecting transfer `id`, started at `from`, and has `content`. */
  predicate Collecting(m: Session, id: TransferId, from: Instant, content: seq<byte>) {
    && IsAccumulating(m.state)
    && m == Session(m.state, Some(from), Some(id), content)
  }

  /** Copies of a frame the session is done with change nothing. */
  lemma {:induction false} RepeatedGroup(m: Session, timeout: Duration, priority: Priority, f: Frame,
                                         times: seq<Instant>,
                                         from: Instant)
    requires m.sofTimestamp == Some(from) && m.transferId == Some(f.tail.transferId)
    requires NotAfter(times, SaturatingAdd(from, timeout))
    requires m.state == Assembled
          || ((m.state == AccumulatedOdd || m.state == AccumulatedEven)
              && !f.tail.sot && !f.tail.eot && f.tail.toggle == LastToggle(m.state))
    ensures Final(m, timeout, Copies(f, priority, times)) == m
    ensures Deliveries(m, timeout, Copies(f, priority, times)) == []
    decreases |times|
  {
    if times != [] {
      FirstCopy(m, timeout, priority, f, times);
      assert Hear(m, timeout, Heard(priority, f, times[0])) == (m, None);
      RepeatedGroup(m, timeout, priority, f, times[1..], from);
    }
  }

  lemma MiddleGroup(m: Session, timeout: Duration, priority: Priority, f: Frame, times: seq<Instant>,
                    id: TransferId, from: Instant, content: seq<byte>)
    requires Collecting(m, id, from, content) && times != []
    requires f.tail == Tail(false, false, !LastToggle(m.state), id) && IsMtuSize(|f.payload| + 1)
    requires NotAfter(times, SaturatingAdd(from, timeout))
    ensures Deliveries(m, timeout, Copies(f, priority, times)) == []
    ensures var after := Final(m, timeout, Copies(f, priority, times));
      if |content| + |f.payload| <= U32_MAX then
        Collecting(after, id, from, content + f.payload) && LastToggle(after.state) == f.tail.toggle
      else
        !IsAccumulating(after.state)
  {
    FirstCopy(m, timeout, priority, f, times);
    var next := Hear(m, timeout, Heard(priority, f, times[0])).0;
    if |content| + |f.payload| <= U32_MAX {
      RepeatedGroup(next, timeout, priority, f, times[1..], from);
    } else {
      DeafGroup(next, timeout, priority, f, times[1..]);
    }
  }

  /** What the collected bytes of a finished multi-frame transfer are good for. */
  function Outcome(id: TransferId, priority: Priority, from: Instant, all: seq<byte>): seq<Delivery> {
    if |all| <= U32_MAX && |all| >= CRC_LENGTH && Crc(all) == 0
    then [Delivery(id, priority, from, all[..|all| - CRC_LENGTH])]
    else []
  }

  ghost predicate NotAfter(times: seq<Instant>, limit: Instant) {
    forall i :: 0 <= i < |times| ==> times[i] <= limit
  }

  ghost predicate Timely(times: seq<seq<Instant>>, limit: Instant) {
    forall i :: 0 <= i < |times| ==> times[i] != [] && NotAfter(times[i], limit)
  }

  lemma LastGroup(m: Session, timeout: Duration, priority: Priority, f: Frame, times: seq<Instant>,
                  id: TransferId, from: Instant, content: seq<byte>)
    requires Collecting(m, id, from, content) && times != []
    requires f.tail == Tail(false, true, !LastToggle(m.state), id) && f.payload != []
    requires NotAfter(times, SaturatingAdd(from, timeout))
    ensures Deliveries(m, timeout, Copies(f, priority, times)) == Outcome(id, priority, from, content + f.payload)
  {
    FirstCopy(m, timeout, priority, f, times);
    var next := Hear(m, timeout, Heard(priority, f, times[0])).0;
    if Completes(content, f.payload) {
      RepeatedGroup(next, timeout, priority, f, times[1..], from);
    } else {
      DeafGroup(next, timeout, priority, f, times[1..]);
    }
  }

  lemma RemainingHead(m: Session, timeout: Duration, priority: Priority, frames: seq<Frame>,
      times: seq<seq<Instant>>, toggle: bool, id: TransferId, from: Instant, content: seq<byte>)
    requires Collecting(m, id, from, content)
    requires Shaped(frames, id, false, toggle) && |frames| == |times|
    requires LastToggle(m.state) == !toggle
    requires Timely(times, SaturatingAdd(from, timeout))
    ensures var head := Copies(frames[0], priority, times[0]);
      var all := content + frames[0].payload;
      var after := Final(m, timeout, head);
      if |frames| == 1 then
        Deliveries(m, timeout, head) == Outcome(id, priority, from, all)
      else
        && Deliveries(m, timeout, head) == []
        && if |all| <= U32_MAX then Collecting(after, id, from, all) && LastToggle(after.state) == toggle
           else !IsAccumulating(after.state)
  {
    if |frames| == 1 {
      LastGroup(m, timeout, priority, frames[0], times[0], id, from, content);
    } else {
      MiddleGroup(m, timeout, priority, frames[0], times[0], id, from, content);
    }
  }

  /** The frames after those collected, `toggle` being the toggle bit of the next. */
  lemma {:induction false} RemainingGroups(m: Session, timeout: Duration, priority: Priority, frames: seq<Frame>,
      times: seq<seq<Instant>>, toggle: bool, id: TransferId, from: Instant, content: seq<byte>)
    requires Collecting(m, id, from, content)
    requires Shaped(frames, id, false, toggle) && |frames| == |times|
    requires LastToggle(m.state) == !toggle
    requires Timely(times, SaturatingAdd(from, timeout))
    ensures Deliveries(m, timeout, Stutter(frames, priority, times))
         == Outcome(id, priority, from, content + Concat(frames))
    decreases |frames|
  {
    StutterSplit(m, timeout, priority, frames, times);
    RemainingHead(m, timeout, priority, frames, times, toggle, id, from, content);
    RemainingConcat(frames, content);
    if |frames| > 1 {
      var after := Final(m, timeout, Copies(frames[0], priority, times[0]));
      var all := content + frames[0].payload;
      if |all| <= U32_MAX {
        RemainingGroups(after, timeout, priority, frames[1..], times[1..], !toggle, id, from, all);
      } else {
        RestIsNotStart(frames, id, false, toggle);
        DeafGroups(after, timeout, priority, frames[1..], times[1..]);
      }
    }
  }

  lemma RemainingConcat(frames: seq<Frame>, content: seq<byte>)
    requires frames != []
    ensures content + Concat(frames) == content + frames[0].payload + Concat(frames[1..])
    ensures |frames| == 1 ==> Concat(frames) == frames[0].payload
  {
    assert Concat(frames) == frames[0].payload + Concat(frames[1..]);
  }

  lemma {:induction false} RestIsNotStart(frames: seq<Frame>, id: TransferId, sot: bool, toggle: bool)
    requires Shaped(frames, id, sot, toggle)
    ensures forall i :: 0 < i < |frames| ==> !frames[i].tail.sot
    ensures forall i :: 0 <= i < |frames[1..]| ==> !frames[1..][i].tail.sot
  {
    if |frames| > 1 {
      var rest := frames[1..];
      RestIsNotStart(rest, id, false, !toggle);
      assert forall i :: 0 <= i < |rest| ==> !rest[i].tail.sot;
      forall i | 0 < i < |frames|
        ensures !frames[i].tail.sot
      {
        assert frames[i] == rest[i - 1];
      }
    }
  }

  // ---------------------------------------------------------------- start of transfer

  /** A start of transfer is ignored exactly when this transfer id is assembled and not timed out. */
  predicate Accepts(m: Session, timeout: Duration, id: TransferId, timestamp: Instant) {
    !(m.state == Assembled && m.transferId == Some(id) && m.sofTimestamp.Some?
      && timestamp <= SaturatingAdd(m.sofTimestamp.value, timeout))
  }

  /** The first copy of the start of transfer that is not ignored. */
  function FirstAccepted(m: Session, timeout: Duration, id: TransferId, times: seq<Instant>): (r: Option<nat>)
    ensures r.Some? ==> r.value < |times|
  {
    if times == [] then None
    else if Accepts(m, timeout, id, times[0]) then Some(0)
    else
      match FirstAccepted(m, timeout, id, times[1..])
      case None => None
      case Some(i) => Some(i + 1)
  }

  lemma {:induction false} FirstAcceptedIs(m: Session, timeout: Duration, id: TransferId, times: seq<Instant>)
    ensures match FirstAccepted(m, timeout, id, times)
      case None => forall i :: 0 <= i < |times| ==> !Accepts(m, timeout, id, times[i])
      case Some(k) =>
        k < |times| && Accepts(m, timeout, id, times[k])
        && forall i :: 0 <= i < k ==> !Accepts(m, timeout, id, times[i])
  {
    if times != [] && !Accepts(m, timeout, id, times[0]) {
      FirstAcceptedIs(m, timeout, id, times[1..]);
    }
  }

  /** Each accepted copy of a first frame starts over: the last copy sets the clock. */
  lemma {:induction false} StartGroup(m: Session, timeout: Duration, priority: Priority, f: Frame, times: seq<Instant>)
    requires f.tail == Tail(true, false, SOT_TOGGLE_BIT, f.tail.transferId) && IsMtuSize(|f.payload| + 1)
    ensures Deliveries(m, timeout, Copies(f, priority, times)) == []
    ensures Final(m, timeout, Copies(f, priority, times))
         == if FirstAccepted(m, timeout, f.tail.transferId, times) == None then m
            else Session(AccumulatedFirst, Some(times[|times| - 1]), Some(f.tail.transferId), f.payload)
    decreases |times|
  {
    if times != [] {
      FirstCopy(m, timeout, priority, f, times);
      var next := Hear(m, timeout, Heard(priority, f, times[0])).0;
      StartGroup(next, timeout, priority, f, times[1..]);
      if times[1..] == [] {
      } else if Accepts(m, timeout, f.tail.transferId, times[0]) {
        assert Accepts(next, timeout, f.tail.transferId, times[1]);
      }
    }
  }

  lemma {:induction false} SingleGroup(m: Session, timeout: Duration, priority: Priority, f: Frame,
                                       times: seq<Instant>, from: Instant)
    requires f.tail == Tail(true, true, SOT_TOGGLE_BIT, f.tail.transferId)
    requires Within(times, from, timeout)
    ensures Deliveries(m, timeout, Copies(f, priority, times))
         == match FirstAccepted(m, timeout, f.tail.transferId, times)
            case None => []
            case Some(k) => [Delivery(f.tail.transferId, priority, times[k], f.payload)]
    decreases |times|
  {
    if times != [] {
      FirstCopy(m, timeout, priority, f, times);
      var next := Hear(m, timeout, Heard(priority, f, times[0])).0;
      if Accepts(m, timeout, f.tail.transferId, times[0]) {
        RepeatedGroup(next, timeout, priority, f, times[1..], times[0]);
      } else {
        SingleGroup(m, timeout, priority, f, times[1..], from);
        FirstAcceptedIs(m, timeout, f.tail.transferId, times[1..]);
      }
    }
  }

  // ---------------------------------------------------------------- the round trip

  /** What a receiver in session `m` owes for the repeated frames of one transfer. */
  function Expected(m: Session, timeout: Duration, priority: Priority, id: TransferId, frames: seq<Frame>,
                    sotTimes: seq<Instant>)
    : seq<Delivery>
    requires frames != []
  {
    match FirstAccepted(m, timeout, id, sotTimes)
    case None => []
    case Some(k) =>
      if |frames| == 1 then [Delivery(id, priority, sotTimes[k], Announced(frames))]
      else if |Concat(frames)| <= U32_MAX then
        [Delivery(id, priority, sotTimes[|sotTimes| - 1], Announced(frames))]
      else []
  }

  /** From any session, a stuttered well-formed transfer is delivered once if a start frame is accepted and
      its length fits 32 bits, and not at all otherwise. */
  lemma StutteredTransfer(m: Session, timeout: Duration, priority: Priority, id: TransferId,
                          frames: seq<Frame>, times: seq<seq<Instant>>, from: Instant)
    requires IsSingleFrame(frames, id)
             || (IsMultiFrame(frames, id) && Crc(Concat(frames)) == 0 && |Concat(frames)| >= CRC_LENGTH)
    requires |frames| == |times|
    requires forall i :: 0 <= i < |times| ==> times[i] != [] && Within(times[i], from, timeout)
    ensures Deliveries(m, timeout, Stutter(frames, priority, times))
         == Expected(m, timeout, priority, id, frames, times[0])
  {
    if |frames| == 1 {
      RemainingConcat(frames, []);
      RunAppend(m, timeout, Copies(frames[0], priority, times[0]), []);
      assert Stutter(frames, priority, times) == Copies(frames[0], priority, times[0]) + [];
      SingleGroup(m, timeout, priority, frames[0], times[0], from);
    } else {
      StutteredMultiFrame(m, timeout, priority, id, frames, times, from);
    }
  }

  lemma StutteredMultiFrame(m: Session, timeout: Duration, priority: Priority, id: TransferId,
                            frames: seq<Frame>, times: seq<seq<Instant>>, from: Instant)
    requires IsMultiFrame(frames, id) && Crc(Concat(frames)) == 0 && |Concat(frames)| >= CRC_LENGTH
    requires |frames| == |times|
    requires forall i :: 0 <= i < |times| ==> times[i] != [] && Within(times[i], from, timeout)
    ensures Deliveries(m, timeout, Stutter(frames, priority, times))
         == if FirstAccepted(m, timeout, id, times[0]) == None then []
            else Outcome(id, priority, times[0][|times[0]| - 1], Concat(frames))
  {
    var f, rest := frames[0], frames[1..];
    var head, tail := Copies(f, priority, times[0]), Stutter(rest, priority, times[1..]);
    RunAppend(m, timeout, head, tail);
    StartGroup(m, timeout, priority, f, times[0]);
    if FirstAccepted(m, timeout, id, times[0]) == None {
      FirstAcceptedIs(m, timeout, id, times[0]);
      RestIsNotStart(frames, id, true, SOT_TOGGLE_BIT);
      DeafGroups(m, timeout, priority, rest, times[1..]);
    } else {
      var start := times[0][|times[0]| - 1];
      AllTimely(times, start, from, timeout);
      RemainingGroups(Final(m, timeout, head), timeout, priority, rest, times[1..], !SOT_TOGGLE_BIT, id, start,
                      f.payload);
    }
  }

  lemma AllTimely(times: seq<seq<Instant>>, start: Instant, from: Instant, timeout: Duration)
    requires times != []
    requires forall i :: 0 <= i < |times| ==> times[i] != [] && Within(times[i], from, timeout)
    requires from <= start
    ensures Timely(times[1..], SaturatingAdd(start, timeout))
  {
    forall i | 0 <= i < |times[1..]|
      ensures times[1..][i] != [] && NotAfter(times[1..][i], SaturatingAdd(start, timeout))
    {
      assert Within(times[i + 1], from, timeout);
    }
  }

  /** Round trip: whatever MTU each fetch was given and however often each frame is repeated, the
      receiver delivers exactly the payload and its zero padding. */
  lemma ScatterGatherRoundTrip(m: Session, timeout: Duration, priority: Priority, id: TransferId, payload: seq<byte>,
                               mtus: seq<Mtu>, times: seq<seq<Instant>>, from: Instant)
    requires IsExhausted(After(Start(id, |payload|, Crc(payload)), payload, mtus))
    requires |times| == |Output(Start(id, |payload|, Crc(payload)), payload, mtus)|
    requires forall i :: 0 <= i < |times| ==> times[i] != [] && Within(times[i], from, timeout)
    ensures var frames := Output(Start(id, |payload|, Crc(payload)), payload, mtus);
      && frames != []
      && IsPadded(Announced(frames), payload)
      && ByteDeliveries(m, timeout, Encode(Stutter(frames, priority, times)))
         == Expected(m, timeout, priority, id, frames, times[0])
  {
    var frames := Output(Start(id, |payload|, Crc(payload)), payload, mtus);
    SenderTransfer(id, payload, mtus);
    if IsMultiFrame(frames, id) {
      assert [frames[0]] + frames[1..] == frames;
      ConcatCons(frames[0], frames[1..]);
    }
    StutteredTransfer(m, timeout, priority, id, frames, times, from);
    BytesAsHeard(m, timeout, Encode(Stutter(frames, priority, times)));
    DecodeEncode(Stutter(frames, priority, times));
  }

  /** Every schedule of at least `dataLength + 2` fetches sends the whole transfer. */
  lemma {:induction false} FetchingEnds(c: Cutter, buffer: seq<byte>, mtus: seq<Mtu>)
    requires Fits(c, buffer) && |mtus| >= c.dataLength + CRC_LENGTH - c.offset
    ensures IsExhausted(After(c, buffer, mtus))
    decreases |mtus|
  {
    if !IsExhausted(c) {
      FetchFits(c, buffer, mtus[0]);
      FetchingEnds(Fetch(c, buffer, mtus[0]).0, buffer, mtus[1..]);
    }
  }
}
