/** A transfer on the bus: what every sender emits, and what every receiver makes of it. */
module Transfers {
  import opened Format
  import opened Segmentation

  function Concat(frames: seq<Frame>): seq<byte> {
    if frames == [] then [] else frames[0].payload + Concat(frames[1..])
  }

  lemma ConcatCons(f: Frame, rest: seq<Frame>)
    ensures Concat([f] + rest) == f.payload + Concat(rest)
  {
    assert ([f] + rest)[1..] == rest;
  }

  lemma SplitAt(s: seq<byte>, a: nat, b: nat)
    requires a <= b <= |s|
    ensures s[a..] == s[a..b] + s[b..]
  {
  }

  /** Table 4.4 of the Cyphal Specification v1.0: only the first frame starts the transfer, only the last
      ends it and is not empty, the others fill the MTU, and the toggle bit alternates. */
  ghost predicate Shaped(frames: seq<Frame>, id: TransferId, sot: bool, toggle: bool) {
    && frames != []
    && frames[0].tail == Tail(sot, |frames| == 1, toggle, id)
    && if |frames| == 1 then frames[0].payload != []
       else IsMtuSize(|frames[0].payload| + 1) && Shaped(frames[1..], id, false, !toggle)
  }

  ghost predicate IsMultiFrame(frames: seq<Frame>, id: TransferId) {
    |frames| >= 2 && Shaped(frames, id, true, SOT_TOGGLE_BIT)
  }

  ghost predicate IsSingleFrame(frames: seq<Frame>, id: TransferId) {
    |frames| == 1 && frames[0].tail == Tail(true, true, SOT_TOGGLE_BIT, id)
  }

  lemma ShapedCons(f: Frame, rest: seq<Frame>, id: TransferId, sot: bool, toggle: bool)
    requires Shaped(rest, id, false, !toggle)
    requires f.tail == Tail(sot, false, toggle, id) && IsMtuSize(|f.payload| + 1)
    ensures Shaped([f] + rest, id, sot, toggle)
  {
    assert ([f] + rest)[1..] == rest;
  }

  // ---------------------------------------------------------------- sender

  /** The frames fetched under a schedule of MTUs, one per fetch. */
  function Output(c: Cutter, buffer: seq<byte>, mtus: seq<Mtu>): seq<Frame>
    requires Fits(c, buffer)
    decreases |mtus|
  {
    if mtus == [] || IsExhausted(c) then []
    else
      FetchFits(c, buffer, mtus[0]);
      var (next, f) := Fetch(c, buffer, mtus[0]);
      [f.value] + Output(next, buffer, mtus[1..])
  }

  function After(c: Cutter, buffer: seq<byte>, mtus: seq<Mtu>): Cutter
    requires Fits(c, buffer)
    decreases |mtus|
  {
    if mtus == [] || IsExhausted(c) then c
    else
      FetchFits(c, buffer, mtus[0]);
      After(Fetch(c, buffer, mtus[0]).0, buffer, mtus[1..])
  }

  /** Every frame sent has a valid length within the MTU of its fetch, and all but the last fill it. */
  lemma {:induction false} OutputLengths(c: Cutter, buffer: seq<byte>, mtus: seq<Mtu>, i: nat)
    requires Fits(c, buffer) && i < |Output(c, buffer, mtus)|
    ensures i < |mtus|
    ensures var n := |FrameBytes(Output(c, buffer, mtus)[i])|;
      && n in VALID_CAN_LENGTHS && n <= Longest(mtus[i])
      && (i < |Output(c, buffer, mtus)| - 1 ==> n == Longest(mtus[i]))
    decreases |mtus|
  {
    var next := Fetch(c, buffer, mtus[0]).0;
    FetchFits(c, buffer, mtus[0]);
    FrameLength(c, buffer, mtus[0]);
    if i > 0 {
      OutputLengths(next, buffer, mtus[1..], i - 1);
    } else if |Output(c, buffer, mtus)| > 1 {
      FullUnlessLast(c, buffer, mtus[0]);
    }
  }

  lemma FullUnlessLast(c: Cutter, buffer: seq<byte>, mtu: Mtu)
    requires Fits(c, buffer) && Fetch(c, buffer, mtu).1.Some? && !IsExhausted(Fetch(c, buffer, mtu).0)
    ensures |FrameBytes(Fetch(c, buffer, mtu).1.value)| == Longest(mtu)
  {
    PaddingPrecedesCrc(c.dataLength + CRC_LENGTH - c.offset, Longest(mtu) - 1);
  }

  /** Everything a multi-frame transfer carries when `k` bytes of padding go before the CRC. */
  function Whole(c: Cutter, buffer: seq<byte>, k: nat): seq<byte>
    requires Fits(c, buffer)
  {
    buffer[..c.dataLength] + Zeros(k) + BigEndian(CrcBytes(c.crc, Zeros(k)))
  }

  lemma FullCut(c: Cutter, buffer: seq<byte>, room: nat, k: nat)
    requires Fits(c, buffer) && c.offset + room <= c.dataLength + CRC_LENGTH
    requires k == 0 || c.offset + room <= c.dataLength
    ensures FullPayload(c, buffer, room) == Whole(c, buffer, k)[c.offset..c.offset + room]
  {
    if k == 0 {
      assert Zeros(0) == [];
      assert Whole(c, buffer, 0) == Wire(c, buffer);
    } else {
      assert FullPayload(c, buffer, room) == buffer[c.offset..c.offset + room];
    }
  }

  lemma PaddedCut(c: Cutter, buffer: seq<byte>, room: nat)
    requires Fits(c, buffer) && c.offset <= c.dataLength && c.offset + room > c.dataLength + CRC_LENGTH
    ensures PaddedPayload(c, buffer, room)
         == Whole(c, buffer, c.offset + room - (c.dataLength + CRC_LENGTH))[c.offset..]
  {
  }

  /** What is still to be sent of a multi-frame transfer, `k` bytes of padding included. */
  ghost predicate Remainder(frames: seq<Frame>, c: Cutter, buffer: seq<byte>, k: nat) {
    && Fits(c, buffer)
    && k <= 15
    && (c.offset > c.dataLength ==> k == 0)
    && Shaped(frames, c.id, c.offset == 0, c.toggle)
    && Concat(frames) == Whole(c, buffer, k)[c.offset..]
  }

  predicate ContinuesMulti(c: Cutter, mtu: Mtu) {
    && (c.offset == 0 ==> c.dataLength > MtuSize(mtu) - TAIL_LENGTH)
    && c.offset < c.dataLength + CRC_LENGTH
  }

  /** One fetch in a multi-frame transfer: a full frame while more follows, else the padded rest. */
  ghost predicate IsNext(c: Cutter, buffer: seq<byte>, most: nat, next: Cutter, f: Frame)
    requires Fits(c, buffer)
  {
    var end := c.dataLength + CRC_LENGTH;
    && f.tail == Tail(c.offset == 0, next.offset == end, c.toggle, c.id)
    && next == c.(offset := next.offset, toggle := !c.toggle)
    && c.offset < next.offset <= end
    && (next.offset < end ==> next.offset == c.offset + most && f.payload == FullPayload(c, buffer, most))
    && (next.offset == end ==> c.offset > 0 && exists room ::
          end - c.offset <= room <= end - c.offset + 15
          && (c.offset > c.dataLength ==> room == end - c.offset)
          && f.payload == LastPayload(c, buffer, room))
  }

  ghost function LastPayload(c: Cutter, buffer: seq<byte>, room: nat): seq<byte>
    requires Fits(c, buffer) && room >= c.dataLength + CRC_LENGTH - c.offset
    requires c.offset > c.dataLength ==> room == c.dataLength + CRC_LENGTH - c.offset
  {
    if c.offset + room == c.dataLength + CRC_LENGTH then FullPayload(c, buffer, room)
    else PaddedPayload(c, buffer, room)
  }

  lemma FetchIsNext(c: Cutter, buffer: seq<byte>, mtu: Mtu)
    requires Fits(c, buffer) && ContinuesMulti(c, mtu)
    ensures Fetch(c, buffer, mtu).1.Some?
    ensures IsNext(c, buffer, MtuSize(mtu) - TAIL_LENGTH, Fetch(c, buffer, mtu).0, Fetch(c, buffer, mtu).1.value)
  {
    var most, end := MtuSize(mtu) - TAIL_LENGTH, c.dataLength + CRC_LENGTH;
    var wanted := MinNat(end - c.offset, most);
    PaddingPrecedesCrc(end - c.offset, most);
    RoomFacts(wanted);
    var frame := Fetch(c, buffer, mtu).1.value;
    if Fetch(c, buffer, mtu).0.offset == end {
      assert frame.payload == LastPayload(c, buffer, Room(wanted));
    }
  }

  lemma LastFrame(c: Cutter, buffer: seq<byte>, most: nat, next: Cutter, f: Frame) returns (k: nat)
    requires Fits(c, buffer) && IsExhausted(next) && IsNext(c, buffer, most, next, f)
    ensures Remainder([f], c, buffer, k)
  {
    var end := c.dataLength + CRC_LENGTH;
    var room :| end - c.offset <= room <= end - c.offset + 15
      && (c.offset > c.dataLength ==> room == end - c.offset)
      && f.payload == LastPayload(c, buffer, room);
    ConcatCons(f, []);
    k := c.offset + room - end;
    if k > 0 {
      PaddedCut(c, buffer, room);
    } else {
      FullCut(c, buffer, room, 0);
    }
    assert [f] + [] == [f];
  }

  lemma OneMoreFrame(c: Cutter, buffer: seq<byte>, most: nat, next: Cutter, f: Frame, rest: seq<Frame>, k: nat)
    requires Fits(c, buffer) && !IsExhausted(next) && IsNext(c, buffer, most, next, f)
    requires IsMtuSize(most + 1)
    requires Remainder(rest, next, buffer, k)
    ensures Remainder([f] + rest, c, buffer, k)
  {
    ConcatCons(f, rest);
    FullCut(c, buffer, most, k);
    SplitAt(Whole(c, buffer, k), c.offset, next.offset);
    ShapedCons(f, rest, c.id, c.offset == 0, c.toggle);
  }

  lemma {:induction false} MultiFrameOutput(c: Cutter, buffer: seq<byte>, mtus: seq<Mtu>) returns (k: nat)
    requires Fits(c, buffer) && mtus != [] && ContinuesMulti(c, mtus[0])
    requires IsExhausted(After(c, buffer, mtus))
    ensures Remainder(Output(c, buffer, mtus), c, buffer, k)
    ensures c.offset == 0 ==> |Output(c, buffer, mtus)| >= 2
    decreases |mtus|
  {
    var most := MtuSize(mtus[0]) - TAIL_LENGTH;
    FetchFits(c, buffer, mtus[0]);
    FetchIsNext(c, buffer, mtus[0]);
    var (next, f) := Fetch(c, buffer, mtus[0]);
    var rest := Output(next, buffer, mtus[1..]);
    assert Output(c, buffer, mtus) == [f.value] + rest;
    assert After(c, buffer, mtus) == After(next, buffer, mtus[1..]);
    if IsExhausted(next) {
      k := LastFrame(c, buffer, most, next, f.value);
      assert [f.value] + rest == [f.value];
    } else {
      k := MultiFrameOutput(next, buffer, mtus[1..]);
      OneMoreFrame(c, buffer, most, next, f.value, rest, k);
    }
  }

  /** The bytes a transfer announces: the payload and the padding the frame lengths forced. */
  ghost predicate IsPadded(bytes: seq<byte>, payload: seq<byte>) {
    && |payload| <= |bytes| <= |payload| + 15
    && bytes[..|payload|] == payload && forall i :: |payload| <= i < |bytes| ==> bytes[i] == 0
  }

  /** What a transfer delivers when every frame arrives: without the CRC of a multi-frame transfer. */
  function Announced(frames: seq<Frame>): seq<byte> {
    var all := Concat(frames);
    if |frames| <= 1 || |all| < CRC_LENGTH then all else all[..|all| - CRC_LENGTH]
  }

  /** Every complete fetch sequence is a well-formed transfer of the padded payload, CRC included,
      whatever MTU each fetch was given. */
  lemma SenderTransfer(id: TransferId, payload: seq<byte>, mtus: seq<Mtu>)
    requires IsExhausted(After(Start(id, |payload|, Crc(payload)), payload, mtus))
    ensures var frames := Output(Start(id, |payload|, Crc(payload)), payload, mtus);
      && (IsSingleFrame(frames, id) || (IsMultiFrame(frames, id) && Crc(Concat(frames)) == 0))
      && IsPadded(Announced(frames), payload)
  {
    var c := Start(id, |payload|, Crc(payload));
    var frames := Output(c, payload, mtus);
    var most := MtuSize(mtus[0]) - TAIL_LENGTH;
    if |payload| <= most {
      FetchFits(c, payload, mtus[0]);
      var (next, f) := Fetch(c, payload, mtus[0]);
      assert frames == [f.value] + Output(next, payload, mtus[1..]) == [f.value];
      RoomFacts(|payload|);
      ConcatCons(f.value, []);
      assert [f.value] + [] == [f.value];
    } else {
      var k := MultiFrameOutput(c, payload, mtus);
      var padded := payload + Zeros(k);
      CrcAppend(INIT_VALUE, payload, Zeros(k));
      assert payload[..|payload|] == payload;
      assert Concat(frames) == padded + BigEndian(Crc(padded));
      PayloadResidue(padded);
      assert Announced(frames) == padded;
    }
  }
}
