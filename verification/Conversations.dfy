/** Whole conversations: every transfer of a source arrives, one after the other. */
module Conversations {
  import opened Wrappers
  import opened Time
  import opened Format
  import opened Priorities
  import opened Segmentation
  import opened Reassembly
  import opened Transfers
  import opened RoundTrip

  /** A transfer, the MTU of each fetch, and the instants at which each frame is heard, none before `from`. */
  datatype Sent = Sent(priority: Priority, id: TransferId, payload: seq<byte>, mtus: seq<Mtu>,
                       times: seq<seq<Instant>>, from: Instant)

  function FramesOf(s: Sent): seq<Frame> {
    Output(Start(s.id, |s.payload|, Crc(s.payload)), s.payload, s.mtus)
  }

  /** Everything is fetched, every frame is heard within the timeout, and the length fits 32 bits. */
  ghost predicate WellSent(s: Sent, timeout: Duration) {
    && IsExhausted(After(Start(s.id, |s.payload|, Crc(s.payload)), s.payload, s.mtus))
    && |s.times| == |FramesOf(s)| && |Concat(FramesOf(s))| <= U32_MAX
    && (forall i :: 0 <= i < |s.times| ==> s.times[i] != [] && Within(s.times[i], s.from, timeout))
  }

  function HeardOf(s: Sent): seq<Heard>
    requires |s.times| == |FramesOf(s)|
  {
    Stutter(FramesOf(s), s.priority, s.times)
  }

  /** What the receiver owes for it. */
  function Owed(s: Sent): Delivery
    requires |s.times| == |FramesOf(s)| && s.times != [] && s.times[0] != []
  {
    Delivery(s.id, s.priority, s.times[0][if |FramesOf(s)| == 1 then 0 else |s.times[0]| - 1], Announced(FramesOf(s)))
  }

  /** The timeout of whatever started at `t` is over at `now`. */
  predicate IsOver(t: Instant, timeout: Duration, now: Instant) {
    SaturatingAdd(t, timeout) < now
  }

  ghost predicate AllOver(heard: seq<Heard>, timeout: Duration, now: Instant) {
    forall i :: 0 <= i < |heard| ==> IsOver(heard[i].timestamp, timeout, now)
  }

  /** The next transfer has another id, or comes after the timeout of the one before. */
  ghost predicate Distinct(s: Sent, next: Sent, timeout: Duration)
    requires WellSent(s, timeout) && WellSent(next, timeout)
  {
    s.id != next.id || (next.times != [] && AllOver(HeardOf(s), timeout, next.times[0][0]))
  }

  /** A receiver that has not just assembled transfer `id`, or for which that is over. */
  predicate Awaits(m: Session, timeout: Duration, id: TransferId, now: Instant) {
    m.state == Assembled && m.transferId == Some(id) && m.sofTimestamp.Some? ==>
      IsOver(m.sofTimestamp.value, timeout, now)
  }

  // ---------------------------------------------------------------- one transfer

  lemma SentIsShaped(s: Sent, timeout: Duration)
    requires WellSent(s, timeout)
    ensures FramesOf(s) != [] && s.times != [] && s.times[0] != []
    ensures IsPadded(Announced(FramesOf(s)), s.payload)
    ensures IsSingleFrame(FramesOf(s), s.id)
            || (IsMultiFrame(FramesOf(s), s.id) && Crc(Concat(FramesOf(s))) == 0
                && |Concat(FramesOf(s))| >= CRC_LENGTH)
  {
    var frames := FramesOf(s);
    SenderTransfer(s.id, s.payload, s.mtus);
    if IsMultiFrame(frames, s.id) {
      assert [frames[0]] + frames[1..] == frames;
      ConcatCons(frames[0], frames[1..]);
    }
  }

  /** A receiver that awaits it delivers the transfer, exactly once. */
  lemma OneArrives(m: Session, timeout: Duration, s: Sent)
    requires WellSent(s, timeout) && s.times != [] && s.times[0] != []
    requires Awaits(m, timeout, s.id, s.times[0][0])
    ensures Deliveries(m, timeout, HeardOf(s)) == [Owed(s)]
  {
    SentIsShaped(s, timeout);
    StutteredTransfer(m, timeout, s.priority, s.id, FramesOf(s), s.times, s.from);
  }

  // ---------------------------------------------------------------- what it leaves behind

  /** All frames are of transfer `id`. */
  ghost predicate AllOf(heard: seq<Heard>, id: TransferId) {
    forall i :: 0 <= i < |heard| ==> heard[i].frame.tail.transferId == id
  }

  lemma {:induction false} CopiesOf(f: Frame, priority: Priority, times: seq<Instant>)
    ensures AllOf(Copies(f, priority, times), f.tail.transferId)
    ensures Copies(f, priority, times) == [] <==> times == []
  {
    if times != [] {
      CopiesOf(f, priority, times[1..]);
    }
  }

  lemma {:induction false} StutterOf(frames: seq<Frame>, priority: Priority, times: seq<seq<Instant>>, id: TransferId)
    requires |frames| == |times| && forall i :: 0 <= i < |frames| ==> frames[i].tail.transferId == id
    ensures AllOf(Stutter(frames, priority, times), id)
    ensures frames != [] && times[0] != [] ==> Stutter(frames, priority, times) != []
  {
    if frames != [] {
      CopiesOf(frames[0], priority, times[0]);
      StutterOf(frames[1..], priority, times[1..], id);
    }
  }

  lemma {:induction false} ShapedOf(frames: seq<Frame>, id: TransferId, sot: bool, toggle: bool)
    requires Shaped(frames, id, sot, toggle)
    ensures forall i :: 0 <= i < |frames| ==> frames[i].tail.transferId == id
  {
    if |frames| > 1 {
      var rest := frames[1..];
      ShapedOf(rest, id, false, !toggle);
      forall i | 0 <= i < |frames| ensures frames[i].tail.transferId == id {
        assert i > 0 ==> frames[i] == rest[i - 1];
      }
    }
  }

  /** A receiver that has assembled something has assembled what it heard last. */
  lemma {:induction false} AssembledIsHeard(m: Session, timeout: Duration, heard: seq<Heard>, id: TransferId)
    requires heard != [] && AllOf(heard, id)
    ensures Final(m, timeout, heard).state == Assembled ==> Final(m, timeout, heard).transferId == Some(id)
    decreases |heard|
  {
    var next := Hear(m, timeout, heard[0]).0;
    assert heard[0].frame.tail.transferId == id;
    if |heard| > 1 {
      AssembledIsHeard(next, timeout, heard[1..], id);
    }
  }

  /** The start of what a receiver has is over when that of everything it heard is. */
  predicate StartIsOver(m: Session, timeout: Duration, now: Instant) {
    m.sofTimestamp.Some? ==> IsOver(m.sofTimestamp.value, timeout, now)
  }

  lemma {:induction false} StaysOver(m: Session, timeout: Duration, heard: seq<Heard>, now: Instant)
    requires StartIsOver(m, timeout, now) && AllOver(heard, timeout, now)
    ensures StartIsOver(Final(m, timeout, heard), timeout, now)
    decreases |heard|
  {
    if heard != [] {
      assert IsOver(heard[0].timestamp, timeout, now);
      StaysOver(Hear(m, timeout, heard[0]).0, timeout, heard[1..], now);
    }
  }

  /** The first frame of an awaited transfer sets the start, or leaves the receiver with nothing assembled. */
  lemma FirstSets(m: Session, timeout: Duration, h: Heard)
    requires h.frame.tail.sot && h.frame.tail.toggle && Awaits(m, timeout, h.frame.tail.transferId, h.timestamp)
    requires h.frame.tail.eot || IsMtuSize(|h.frame.payload| + 1)
    ensures Hear(m, timeout, h).0.sofTimestamp == Some(h.timestamp)
  {
  }

  lemma FirstHeard(s: Sent, timeout: Duration)
    requires WellSent(s, timeout)
    ensures FramesOf(s) != [] && s.times != [] && s.times[0] != [] && HeardOf(s) != []
    ensures HeardOf(s)[0] == Heard(s.priority, FramesOf(s)[0], s.times[0][0])
    ensures AllOf(HeardOf(s), s.id)
    ensures var t := FramesOf(s)[0].tail; t.sot && t.toggle && t.transferId == s.id
    ensures FramesOf(s)[0].tail.eot || IsMtuSize(|FramesOf(s)[0].payload| + 1)
  {
    SentIsShaped(s, timeout);
    var frames := FramesOf(s);
    if IsMultiFrame(frames, s.id) {
      ShapedOf(frames, s.id, true, SOT_TOGGLE_BIT);
    }
    StutterOf(frames, s.priority, s.times, s.id);
    assert HeardOf(s) == Copies(frames[0], s.priority, s.times[0]) + Stutter(frames[1..], s.priority, s.times[1..]);
  }

  lemma FinalStep(m: Session, timeout: Duration, heard: seq<Heard>)
    requires heard != []
    ensures Final(m, timeout, heard) == Final(Hear(m, timeout, heard[0]).0, timeout, heard[1..])
  {
  }

  /** After an awaited transfer the receiver awaits the next. */
  lemma AwaitsNext(m: Session, timeout: Duration, s: Sent, next: Sent)
    requires WellSent(s, timeout) && WellSent(next, timeout) && Distinct(s, next, timeout)
    requires s.times != [] && s.times[0] != [] && Awaits(m, timeout, s.id, s.times[0][0])
    ensures next.times != [] && next.times[0] != []
    ensures Awaits(Final(m, timeout, HeardOf(s)), timeout, next.id, next.times[0][0])
  {
    var heard := HeardOf(s);
    FirstHeard(s, timeout);
    FirstHeard(next, timeout);
    AssembledIsHeard(m, timeout, heard, s.id);
    if s.id == next.id {
      var now := next.times[0][0];
      FirstSets(m, timeout, heard[0]);
      FinalStep(m, timeout, heard);
      assert IsOver(heard[0].timestamp, timeout, now);
      StaysOver(Hear(m, timeout, heard[0]).0, timeout, heard[1..], now);
    }
  }

  // ---------------------------------------------------------------- the whole conversation

  ghost predicate AllWellSent(sents: seq<Sent>, timeout: Duration) {
    && (forall i :: 0 <= i < |sents| ==> WellSent(sents[i], timeout))
    && (forall i :: 0 <= i < |sents| - 1 ==> Distinct(sents[i], sents[i + 1], timeout))
  }

  function AllHeard(sents: seq<Sent>): seq<Heard>
    requires forall i :: 0 <= i < |sents| ==> |sents[i].times| == |FramesOf(sents[i])|
  {
    if sents == [] then [] else HeardOf(sents[0]) + AllHeard(sents[1..])
  }

  function AllOwed(sents: seq<Sent>): seq<Delivery>
    requires forall i :: 0 <= i < |sents| ==>
      |sents[i].times| == |FramesOf(sents[i])| && sents[i].times != [] && sents[i].times[0] != []
  {
    if sents == [] then [] else [Owed(sents[0])] + AllOwed(sents[1..])
  }

  lemma AllShaped(sents: seq<Sent>, timeout: Duration)
    requires AllWellSent(sents, timeout)
    ensures forall i :: 0 <= i < |sents| ==>
      && FramesOf(sents[i]) != [] && sents[i].times != [] && sents[i].times[0] != []
      && IsPadded(Announced(FramesOf(sents[i])), sents[i].payload)
  {
    forall i | 0 <= i < |sents|
      ensures FramesOf(sents[i]) != [] && sents[i].times != [] && sents[i].times[0] != []
      ensures IsPadded(Announced(FramesOf(sents[i])), sents[i].payload)
    {
      SentIsShaped(sents[i], timeout);
    }
  }

  lemma RestWellSent(sents: seq<Sent>, timeout: Duration)
    requires AllWellSent(sents, timeout) && sents != []
    ensures AllWellSent(sents[1..], timeout) && WellSent(sents[0], timeout)
    ensures |sents| > 1 ==> Distinct(sents[0], sents[1..][0], timeout)
  {
    var rest := sents[1..];
    forall i | 0 <= i < |rest| - 1 ensures Distinct(rest[i], rest[i + 1], timeout) {
      assert Distinct(sents[i + 1], sents[i + 1 + 1], timeout);
    }
    if |sents| > 1 {
      assert Distinct(sents[0], sents[0 + 1], timeout);
    }
  }

  lemma {:induction false} AllArrive(m: Session, timeout: Duration, sents: seq<Sent>)
    requires AllWellSent(sents, timeout)
    requires sents != [] ==>
      sents[0].times != [] && sents[0].times[0] != [] && Awaits(m, timeout, sents[0].id, sents[0].times[0][0])
    ensures forall i :: 0 <= i < |sents| ==> sents[i].times != [] && sents[i].times[0] != []
    ensures Deliveries(m, timeout, AllHeard(sents)) == AllOwed(sents)
    decreases |sents|
  {
    AllShaped(sents, timeout);
    if sents != [] {
      var s, rest := sents[0], sents[1..];
      RestWellSent(sents, timeout);
      OneArrives(m, timeout, s);
      if rest != [] {
        AwaitsNext(m, timeout, s, rest[0]);
      }
      RunAppend(m, timeout, HeardOf(s), AllHeard(rest));
      AllArrive(Final(m, timeout, HeardOf(s)), timeout, rest);
    }
  }

  /** Every transfer arrives: a receiver that awaits the first of them delivers all transfers of a source, in order and
      once each, payload and zero padding, whatever MTU each fetch was given and however often frames are repeated,
      provided each has another id than the one before or comes after its timeout. */
  lemma EveryTransferArrives(m: Session, timeout: Duration, sents: seq<Sent>)
    requires AllWellSent(sents, timeout)
    requires sents != [] ==>
      sents[0].times != [] && sents[0].times[0] != [] && Awaits(m, timeout, sents[0].id, sents[0].times[0][0])
    ensures forall i :: 0 <= i < |sents| ==>
      && sents[i].times != [] && sents[i].times[0] != []
      && IsPadded(Announced(FramesOf(sents[i])), sents[i].payload)
    ensures ByteDeliveries(m, timeout, Encode(AllHeard(sents))) == AllOwed(sents)
  {
    AllShaped(sents, timeout);
    AllArrive(m, timeout, sents);
    BytesAsHeard(m, timeout, Encode(AllHeard(sents)));
    DecodeEncode(AllHeard(sents));
  }
}
