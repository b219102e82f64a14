/** Whatever a receiver hears: how every transfer it delivers came about. */
module Soundness {
  import opened Wrappers
  import opened Time
  import opened Format
  import opened Reassembly
  import opened Transfers
  import opened RoundTrip

  /** The session after the first `n` frames. */
  function At(timeout: Duration, heard: seq<Heard>, n: nat): Session
    requires n <= |heard|
  {
    if n == 0 then FRESH else Hear(At(timeout, heard, n - 1), timeout, heard[n - 1]).0
  }

  lemma {:induction false} AtIsFinal(timeout: Duration, heard: seq<Heard>, n: nat)
    requires n <= |heard|
    ensures At(timeout, heard, n) == Final(FRESH, timeout, heard[..n])
  {
    if n > 0 {
      AtIsFinal(timeout, heard, n - 1);
      assert heard[..n] == heard[..n - 1] + [heard[n - 1]];
      RunAppend(FRESH, timeout, heard[..n - 1], [heard[n - 1]]);
      assert [heard[n - 1]][1..] == [];
    }
  }

  /** The frames at the chosen positions. */
  function Pick(heard: seq<Heard>, chosen: seq<nat>): seq<Frame>
    requires forall i :: 0 <= i < |chosen| ==> chosen[i] < |heard|
  {
    seq(|chosen|, i requires 0 <= i < |chosen| => heard[chosen[i]].frame)
  }

  ghost predicate Increasing(chosen: seq<nat>, n: nat) {
    && (forall i :: 0 <= i < |chosen| ==> chosen[i] < n)
    && (forall i, j :: 0 <= i < j < |chosen| ==> chosen[i] < chosen[j])
  }

  /** Frame `h` arrived within the timeout of the start of transfer `first`, with the same transfer id. */
  ghost predicate BelongsTo(h: Heard, first: Heard, timeout: Duration) {
    && h.frame.tail.transferId == first.frame.tail.transferId
    && h.timestamp <= SaturatingAdd(first.timestamp, timeout)
  }

  /** Position `j`, below `n`, comes after chosen position number `i` and before the next one. */
  ghost predicate Between(chosen: seq<nat>, i: int, j: int, n: nat) {
    && 0 <= i < |chosen|
    && chosen[i] < j < (if i + 1 < |chosen| then chosen[i + 1] else n)
  }

  /** `h` repeats the toggle bit of `latest`, a frame of the transfer after its first. */
  ghost predicate Repeats(h: Heard, latest: Heard, first: Heard, timeout: Duration) {
    && !latest.frame.tail.sot
    && BelongsTo(h, first, timeout)
    && h.frame.tail == Tail(false, false, latest.frame.tail.toggle, first.frame.tail.transferId)
  }

  /** Up to position `n` the chosen frames follow one start of transfer, and every other frame since
      repeats the toggle bit of the chosen frame before it. */
  ghost predicate Follows(heard: seq<Heard>, timeout: Duration, n: nat, chosen: seq<nat>) {
    && n <= |heard| && chosen != [] && Increasing(chosen, n)
    && (forall i :: 0 < i < |chosen| ==> BelongsTo(heard[chosen[i]], heard[chosen[0]], timeout))
    && (forall i, j :: Between(chosen, i, j, n) ==>
          Repeats(heard[j], heard[chosen[i]], heard[chosen[0]], timeout))
  }

  /** A transfer without its last frame. */
  ghost predicate Opens(frames: seq<Frame>, id: TransferId, sot: bool, toggle: bool) {
    frames == []
    || (&& frames[0].tail == Tail(sot, false, toggle, id)
        && IsMtuSize(|frames[0].payload| + 1)
        && Opens(frames[1..], id, false, !toggle))
  }

  lemma {:induction false} OpensMore(frames: seq<Frame>, f: Frame, id: TransferId, sot: bool, toggle: bool)
    requires frames != [] && Opens(frames, id, sot, toggle)
    requires f.tail == Tail(false, f.tail.eot, !frames[|frames| - 1].tail.toggle, id)
    ensures !f.tail.eot && IsMtuSize(|f.payload| + 1) ==> Opens(frames + [f], id, sot, toggle)
    ensures f.tail.eot && f.payload != [] ==> Shaped(frames + [f], id, sot, toggle)
  {
    assert (frames + [f])[1..] == frames[1..] + [f];
    if |frames| > 1 {
      OpensMore(frames[1..], f, id, false, !toggle);
    }
  }

  /** The session has collected exactly these frames of the transfer that `first` started. */
  ghost predicate HasCollected(m: Session, frames: seq<Frame>, first: Heard) {
    && frames != []
    && Opens(frames, first.frame.tail.transferId, true, SOT_TOGGLE_BIT)
    && Collecting(m, first.frame.tail.transferId, first.timestamp, Concat(frames))
    && LastToggle(m.state) == frames[|frames| - 1].tail.toggle
    && (m.state == AccumulatedFirst <==> frames[|frames| - 1].tail.sot)
  }

  ghost predicate Explains(heard: seq<Heard>, timeout: Duration, n: nat, chosen: seq<nat>, m: Session) {
    && Follows(heard, timeout, n, chosen)
    && HasCollected(m, Pick(heard, chosen), heard[chosen[0]])
  }

  lemma {:induction false} ConcatSnoc(frames: seq<Frame>, f: Frame)
    ensures Concat(frames + [f]) == Concat(frames) + f.payload
  {
    if frames == [] {
      assert frames + [f] == [f] + [];
      ConcatCons(f, []);
    } else {
      assert (frames + [f])[1..] == frames[1..] + [f];
      ConcatSnoc(frames[1..], f);
    }
  }

  lemma FollowsOneMore(heard: seq<Heard>, timeout: Duration, n: nat, chosen: seq<nat>)
    requires n < |heard| && Follows(heard, timeout, n, chosen)
    requires BelongsTo(heard[n], heard[chosen[0]], timeout)
    ensures Follows(heard, timeout, n + 1, chosen + [n])
    ensures Pick(heard, chosen + [n]) == Pick(heard, chosen) + [heard[n].frame]
  {
    var more := chosen + [n];
    var first := heard[chosen[0]];
    assert more[0] == chosen[0];
    forall i, j | Between(more, i, j, n + 1)
      ensures Repeats(heard[j], heard[more[i]], first, timeout)
    {
      assert Between(chosen, i, j, n);
    }
  }

  lemma FollowsSkip(heard: seq<Heard>, timeout: Duration, n: nat, chosen: seq<nat>)
    requires n < |heard| && Follows(heard, timeout, n, chosen)
    requires Repeats(heard[n], heard[chosen[|chosen| - 1]], heard[chosen[0]], timeout)
    ensures Follows(heard, timeout, n + 1, chosen)
  {
    forall i, j | Between(chosen, i, j, n + 1)
      ensures Repeats(heard[j], heard[chosen[i]], heard[chosen[0]], timeout)
    {
      assert j == n || Between(chosen, i, j, n);
    }
  }

  /** A start of transfer explains itself. */
  lemma FollowsStart(heard: seq<Heard>, timeout: Duration, n: nat)
    requires n < |heard|
    ensures Follows(heard, timeout, n + 1, [n])
    ensures Pick(heard, [n]) == [heard[n].frame]
    ensures Concat([heard[n].frame]) == heard[n].frame.payload
  {
    ConcatCons(heard[n].frame, []);
    assert [heard[n].frame] + [] == [heard[n].frame];
  }

  ghost predicate Explained(heard: seq<Heard>, timeout: Duration, n: nat, chosen: seq<nat>, m: Session) {
    IsAccumulating(m.state) ==> Explains(heard, timeout, n, chosen, m)
  }

  /** One frame carries the explanation of the session forward. */
  lemma ExplainNext(heard: seq<Heard>, timeout: Duration, n: nat, m: Session, chosen: seq<nat>) returns (next: seq<nat>)
    requires n < |heard|
    requires Explained(heard, timeout, n, chosen, m)
    ensures Explained(heard, timeout, n + 1, next, Hear(m, timeout, heard[n]).0)
  {
    var h := heard[n];
    var after := Hear(m, timeout, h).0;
    if !IsAccumulating(after.state) {
      next := [];
    } else if h.frame.tail.sot {
      next := [n];
      FollowsStart(heard, timeout, n);
    } else if after == m {
      next := chosen;
      FollowsSkip(heard, timeout, n, chosen);
    } else {
      next := chosen + [n];
      ExplainMore(heard, timeout, n, m, chosen);
    }
  }

  lemma ExplainMore(heard: seq<Heard>, timeout: Duration, n: nat, m: Session, chosen: seq<nat>)
    requires n < |heard| && Explains(heard, timeout, n, chosen, m)
    requires var h := heard[n];
      && IsCurrent(m, timeout, h.frame.tail.transferId, h.timestamp)
      && !h.frame.tail.sot && !h.frame.tail.eot && h.frame.tail.toggle != LastToggle(m.state)
      && IsAccumulating(Collect(m, h.frame.payload).state)
    ensures Explains(heard, timeout, n + 1, chosen + [n], Collect(m, heard[n].frame.payload))
  {
    FollowsOneMore(heard, timeout, n, chosen);
    CollectedMore(m, Pick(heard, chosen), heard[chosen[0]], heard[n].frame);
    assert (chosen + [n])[0] == chosen[0];
  }

  lemma CollectedMore(m: Session, kept: seq<Frame>, first: Heard, f: Frame)
    requires HasCollected(m, kept, first)
    requires f.tail == Tail(false, false, !LastToggle(m.state), first.frame.tail.transferId)
    requires IsAccumulating(Collect(m, f.payload).state)
    ensures HasCollected(Collect(m, f.payload), kept + [f], first)
  {
    ConcatSnoc(kept, f);
    OpensMore(kept, f, first.frame.tail.transferId, true, SOT_TOGGLE_BIT);
  }

  lemma {:induction false} Explain(heard: seq<Heard>, timeout: Duration, n: nat) returns (chosen: seq<nat>)
    requires n <= |heard|
    ensures Explained(heard, timeout, n, chosen, At(timeout, heard, n))
  {
    if n == 0 {
      chosen := [];
    } else {
      var before := Explain(heard, timeout, n - 1);
      chosen := ExplainNext(heard, timeout, n - 1, At(timeout, heard, n - 1), before);
    }
  }

  /** The frames make one transfer, and `d` is what it announces. */
  ghost predicate IsWhole(frames: seq<Frame>, first: Heard, last: Heard, d: Delivery) {
    && (IsSingleFrame(frames, d.id) || (IsMultiFrame(frames, d.id) && Crc(Concat(frames)) == 0))
    && d == Delivery(d.id, last.priority, first.timestamp, Announced(frames))
  }

  /** A well-formed transfer whose frames are among those heard up to position `n`, the last at `n`. */
  ghost predicate Witnessed(heard: seq<Heard>, timeout: Duration, n: nat, chosen: seq<nat>, d: Delivery) {
    && n < |heard|
    && Follows(heard, timeout, n + 1, chosen)
    && chosen[|chosen| - 1] == n
    && IsWhole(Pick(heard, chosen), heard[chosen[0]], heard[n], d)
  }

  /** Frame `h` finishes the transfer collected in `m` with delivery `d`. */
  ghost predicate Finishes(m: Session, timeout: Duration, h: Heard, d: Delivery) {
    && IsCurrent(m, timeout, h.frame.tail.transferId, h.timestamp)
    && h.frame.tail == Tail(false, true, !LastToggle(m.state), d.id)
    && Completes(m.content, h.frame.payload)
    && var all := m.content + h.frame.payload;
       d == Delivery(h.frame.tail.transferId, h.priority, m.sofTimestamp.value, all[..|all| - CRC_LENGTH])
  }

  lemma DeliveryFinishes(m: Session, timeout: Duration, h: Heard, d: Delivery)
    requires Hear(m, timeout, h).1 == Some(d) && !h.frame.tail.sot
    ensures IsAccumulating(m.state) && Finishes(m, timeout, h, d)
  {
  }

  lemma FinishIsWhole(kept: seq<Frame>, m: Session, timeout: Duration, first: Heard, h: Heard, d: Delivery)
    requires kept != [] && Opens(kept, d.id, true, SOT_TOGGLE_BIT)
    requires m.content == Concat(kept) && m.sofTimestamp == Some(first.timestamp)
    requires LastToggle(m.state) == kept[|kept| - 1].tail.toggle
    requires Finishes(m, timeout, h, d)
    ensures IsWhole(kept + [h.frame], first, h, d)
  {
    var frames := kept + [h.frame];
    ConcatSnoc(kept, h.frame);
    assert Announced(frames) == d.bytes;
    OpensMore(kept, h.frame, d.id, true, SOT_TOGGLE_BIT);
  }

  lemma FinishIsWitnessed(heard: seq<Heard>, timeout: Duration, n: nat, m: Session, before: seq<nat>, d: Delivery)
    requires n < |heard| && Explains(heard, timeout, n, before, m) && Finishes(m, timeout, heard[n], d)
    ensures Witnessed(heard, timeout, n, before + [n], d)
  {
    FollowsOneMore(heard, timeout, n, before);
    FinishIsWhole(Pick(heard, before), m, timeout, heard[before[0]], heard[n], d);
    assert (before + [n])[0] == before[0];
  }

  /** Reassembly is sound: over any history of frames, a delivered transfer was sent as the specification
      prescribes, and nothing else of its sender was heard in between but repeated frames. */
  lemma DeliveryIsWitnessed(heard: seq<Heard>, timeout: Duration, n: nat) returns (chosen: seq<nat>)
    requires n < |heard|
    ensures match Hear(At(timeout, heard, n), timeout, heard[n]).1
      case None => true
      case Some(d) => Witnessed(heard, timeout, n, chosen, d)
  {
    var m, h := At(timeout, heard, n), heard[n];
    match Hear(m, timeout, h).1
    case None => chosen := [];
    case Some(d) =>
      if h.frame.tail.sot {
        chosen := [n];
        FollowsStart(heard, timeout, n);
      } else {
        var before := Explain(heard, timeout, n);
        chosen := before + [n];
        DeliveryFinishes(m, timeout, h, d);
        FinishIsWitnessed(heard, timeout, n, m, before, d);
      }
  }

  lemma {:induction false} PrefixDeliveries(heard: seq<Heard>, timeout: Duration, k: nat)
    requires k <= |heard|
    ensures forall d :: d in Deliveries(FRESH, timeout, heard[..k]) ==>
      exists n, chosen :: Witnessed(heard, timeout, n, chosen, d)
  {
    if k > 0 {
      var n := k - 1;
      PrefixDeliveries(heard, timeout, n);
      assert heard[..k] == heard[..n] + [heard[n]];
      RunAppend(FRESH, timeout, heard[..n], [heard[n]]);
      AtIsFinal(timeout, heard, n);
      var chosen := DeliveryIsWitnessed(heard, timeout, n);
      assert Deliveries(At(timeout, heard, n), timeout, [heard[n]])
          == Once(Hear(At(timeout, heard, n), timeout, heard[n]).1) + [];
    }
  }

  /** The same for a history of raw frames. */
  lemma ByteDeliveriesAreWitnessed(arrivals: seq<Arrival>, timeout: Duration)
    ensures forall d :: d in ByteDeliveries(FRESH, timeout, arrivals) ==>
      exists n, chosen :: Witnessed(Decode(arrivals), timeout, n, chosen, d)
  {
    BytesAsHeard(FRESH, timeout, arrivals);
    var heard := Decode(arrivals);
    PrefixDeliveries(heard, timeout, |heard|);
    assert heard[..|heard|] == heard;
  }
}
