/** Cutting a payload into frames: the sender's view as a stream of bytes, and the object doing it. */
module Segmentation {
  import opened Wrappers
  import opened Format

  const TAIL_LENGTH := 1

  datatype Cutter = Cutter(id: TransferId, toggle: bool, dataLength: nat, offset: nat, crc: bv16)

  function Start(id: TransferId, dataLength: nat, crc: bv16): Cutter {
    Cutter(id, SOT_TOGGLE_BIT, dataLength, 0, crc)
  }

  predicate IsExhausted(c: Cutter) {
    c.offset == c.dataLength + CRC_LENGTH
  }

  ghost predicate Fits(c: Cutter, buffer: seq<byte>) {
    c.dataLength <= |buffer| && c.offset <= c.dataLength + CRC_LENGTH
  }

  function Zeros(n: nat): (r: seq<byte>)
    ensures |r| == n
  {
    seq(n, _ => PAD_VALUE)
  }

  /** Payload room of the shortest CAN frame that takes `n` payload bytes and the tail byte. */
  function Room(n: nat): nat
    requires n + TAIL_LENGTH <= MAX_LENGTH
  {
    NewCeil(n + TAIL_LENGTH).value - TAIL_LENGTH
  }

  lemma RoomFacts(n: nat)
    requires n + TAIL_LENGTH <= MAX_LENGTH
    ensures n <= Room(n) <= n + 15
    ensures n < 8 ==> Room(n) == n
    ensures n == 63 ==> Room(n) == 63
  {
  }

  /** The bytes a multi-frame transfer carries when nothing is padded. */
  function Wire(c: Cutter, buffer: seq<byte>): seq<byte>
    requires Fits(c, buffer)
  {
    buffer[..c.dataLength] + BigEndian(c.crc)
  }

  function MinNat(a: nat, b: nat): nat {
    if a <= b then a else b
  }

  function SinglePayload(c: Cutter, buffer: seq<byte>, room: nat): seq<byte>
    requires Fits(c, buffer) && c.dataLength <= room
  {
    buffer[..c.dataLength] + Zeros(room - c.dataLength)
  }

  function FullPayload(c: Cutter, buffer: seq<byte>, room: nat): seq<byte>
    requires Fits(c, buffer) && c.offset + room <= c.dataLength + CRC_LENGTH
  {
    Wire(c, buffer)[c.offset..c.offset + room]
  }

  /** What is left of the data, padding, and the CRC carried on over the padding. */
  function PaddedPayload(c: Cutter, buffer: seq<byte>, room: nat): seq<byte>
    requires Fits(c, buffer) && c.offset <= c.dataLength && c.offset + room > c.dataLength + CRC_LENGTH
  {
    var pad := Zeros(c.offset + room - (c.dataLength + CRC_LENGTH));
    buffer[c.offset..c.dataLength] + pad + BigEndian(CrcBytes(c.crc, pad))
  }

  /** The next frame of the transfer and the cutter after it. */
  function Fetch(c: Cutter, buffer: seq<byte>, mtu: Mtu): (Cutter, Option<Frame>)
    requires Fits(c, buffer)
  {
    var most := MtuSize(mtu) - TAIL_LENGTH;
    var end := c.dataLength + CRC_LENGTH;
    if c.offset == 0 && c.dataLength <= most then
      (c.(offset := end),
       Some(Frame(Tail(true, true, SOT_TOGGLE_BIT, c.id), SinglePayload(c, buffer, Room(c.dataLength)))))
    else if c.offset == end then
      (c, None)
    else
      var room := Room(MinNat(end - c.offset, most));
      if c.offset + room <= end then
        (c.(offset := c.offset + room, toggle := !c.toggle),
         Some(Frame(Tail(c.offset == 0, c.offset + room == end, c.toggle, c.id), FullPayload(c, buffer, room))))
      else
        PaddingPrecedesCrc(end - c.offset, most);
        (c.(offset := end, toggle := !c.toggle),
         Some(Frame(Tail(c.offset == 0, true, c.toggle, c.id), PaddedPayload(c, buffer, room))))
  }

  ghost predicate IsFrame(r: Option<seq<byte>>, f: Option<Frame>) {
    match f
    case None => r == None
    case Some(f) => r == Some(FrameBytes(f))
  }

  /** Once a CRC byte is out the remaining byte fits exactly, so padding always precedes the CRC. */
  lemma PaddingPrecedesCrc(residual: nat, most: nat)
    requires residual > 0 && (most == 7 || most == 63)
    ensures residual < Room(MinNat(residual, most)) ==> residual >= 8
    ensures residual >= most ==> Room(MinNat(residual, most)) == most
  {
  }

  lemma FetchFits(c: Cutter, buffer: seq<byte>, mtu: Mtu)
    requires Fits(c, buffer)
    ensures Fits(Fetch(c, buffer, mtu).0, buffer)
    ensures Fetch(c, buffer, mtu).1.None? <==> IsExhausted(c)
    ensures Fetch(c, buffer, mtu).1.Some? ==> Fetch(c, buffer, mtu).0.offset > c.offset
    ensures Fetch(c, buffer, mtu).1.Some? ==>
      (Fetch(c, buffer, mtu).1.value.tail.eot <==> IsExhausted(Fetch(c, buffer, mtu).0))
  {
    var residual := c.dataLength + CRC_LENGTH - c.offset;
    if residual > 0 {
      PaddingPrecedesCrc(residual, MtuSize(mtu) - TAIL_LENGTH);
    }
  }

  /** The longest frame of an MTU. */
  function Longest(mtu: Mtu): nat {
    if mtu.Classic? then 8 else 64
  }

  /** Bytes of data and CRC still to be carried; a transfer that fits one frame has no CRC. */
  function Left(c: Cutter, mtu: Mtu): nat
    requires c.offset <= c.dataLength + CRC_LENGTH
  {
    if c.offset == 0 && c.dataLength < Longest(mtu) then c.dataLength else c.dataLength + CRC_LENGTH - c.offset
  }

  lemma LeastLength(wanted: nat, most: nat)
    requires wanted <= most && most in VALID_CAN_LENGTHS
    ensures NewCeil(wanted).Some? && NewCeil(wanted).value in VALID_CAN_LENGTHS
    ensures wanted <= NewCeil(wanted).value <= most
    ensures forall l :: l in VALID_CAN_LENGTHS && wanted <= l ==> NewCeil(wanted).value <= l
  {
    CeilIsLeast(wanted, most);
    forall l | l in VALID_CAN_LENGTHS && wanted <= l ensures NewCeil(wanted).value <= l {
      CeilIsLeast(wanted, l);
    }
  }

  lemma FetchedRoom(c: Cutter, buffer: seq<byte>, mtu: Mtu)
    requires Fits(c, buffer) && Fetch(c, buffer, mtu).1.Some?
    ensures |Fetch(c, buffer, mtu).1.value.payload| == Room(MinNat(Left(c, mtu), Longest(mtu) - 1))
  {
    if Left(c, mtu) > 0 {
      PaddingPrecedesCrc(Left(c, mtu), Longest(mtu) - 1);
    }
  }

  lemma FetchedLength(c: Cutter, buffer: seq<byte>, mtu: Mtu)
    requires Fits(c, buffer) && Fetch(c, buffer, mtu).1.Some?
    ensures NewCeil(MinNat(Left(c, mtu) + 1, Longest(mtu))) == Some(|FrameBytes(Fetch(c, buffer, mtu).1.value)|)
  {
    FetchedRoom(c, buffer, mtu);
  }

  /** A frame has a length a data length code can name: the least that holds the tail byte and what is left to carry,
      or as much of it as the MTU allows. */
  lemma FrameLength(c: Cutter, buffer: seq<byte>, mtu: Mtu)
    requires Fits(c, buffer) && Fetch(c, buffer, mtu).1.Some?
    ensures var n, wanted := |FrameBytes(Fetch(c, buffer, mtu).1.value)|, MinNat(Left(c, mtu) + 1, Longest(mtu));
      && n in VALID_CAN_LENGTHS && wanted <= n <= Longest(mtu)
      && (forall l :: l in VALID_CAN_LENGTHS && wanted <= l ==> n <= l)
  {
    LeastLength(MinNat(Left(c, mtu) + 1, Longest(mtu)), Longest(mtu));
    FetchedLength(c, buffer, mtu);
  }

  /** A frame starts the transfer when nothing was sent before, and ends it exactly when it holds all that is left. */
  lemma FrameEnds(c: Cutter, buffer: seq<byte>, mtu: Mtu)
    requires Fits(c, buffer) && Fetch(c, buffer, mtu).1.Some?
    ensures var t := Fetch(c, buffer, mtu).1.value.tail;
      (t.sot <==> c.offset == 0) && (t.eot <==> Left(c, mtu) < Longest(mtu))
  {
    if Left(c, mtu) > 0 {
      PaddingPrecedesCrc(Left(c, mtu), Longest(mtu) - 1);
    }
  }

  /** A stretch of the wire is a stretch of the data and then a stretch of the CRC. */
  lemma WireSplit(c: Cutter, buffer: seq<byte>, n: nat)
    requires Fits(c, buffer) && c.offset + n <= c.dataLength + CRC_LENGTH
    ensures var data := buffer[MinNat(c.offset, c.dataLength)..c.dataLength];
      var crc := BigEndian(c.crc)[if c.offset > c.dataLength then c.offset - c.dataLength else 0..];
      FullPayload(c, buffer, n) == data[..MinNat(|data|, n)] + crc[..n - MinNat(|data|, n)]
  {
  }

  // ---------------------------------------------------------------- the segmenter object

  class Scatter {
    const transferId: TransferId
    var toggleBit: bool
    const dataLength: nat
    var offset: nat
    const crc: bv16

    ghost function Model(): Cutter
      reads this
    {
      Cutter(transferId, toggleBit, dataLength, offset, crc)
    }

    constructor (id: TransferId, dataLength: nat, crc: bv16)
      ensures Model() == Start(id, dataLength, crc)
    {
      transferId := id;
      toggleBit := SOT_TOGGLE_BIT;
      this.dataLength := dataLength;
      offset := 0;
      this.crc := crc;
    }

    /** A segmenter stored in a transfer entry. */
    constructor Resume(c: Cutter)
      ensures Model() == c
    {
      transferId, toggleBit, dataLength, offset, crc := c.id, c.toggle, c.dataLength, c.offset, c.crc;
    }

    function Save(): (c: Cutter)
      reads this
      ensures c == Model()
    {
      Cutter(transferId, toggleBit, dataLength, offset, crc)
    }

    predicate GetIsExhausted()
      reads this
      ensures GetIsExhausted() <==> IsExhausted(Model())
    {
      offset == dataLength + CRC_LENGTH
    }

    method FetchFrameData(buffer: seq<byte>, mtu: Mtu) returns (r: Option<seq<byte>>)
      requires Fits(Model(), buffer)
      modifies this
      ensures Model() == Fetch(old(Model()), buffer, mtu).0
      ensures IsFrame(r, Fetch(old(Model()), buffer, mtu).1)
    {
      var maxPayloadLength := MtuSize(mtu) - TAIL_LENGTH;
      if offset == 0 && dataLength <= maxPayloadLength {
        var frameLength := NewCeil(dataLength + TAIL_LENGTH).value;
        var frame := new byte[frameLength](_ => 0);
        FetchSingleSegment(buffer, frame, frameLength - 1);
        var data := Seal(frame, Tail(true, true, SOT_TOGGLE_BIT, transferId));
        return Some(data);
      }
      if dataLength + CRC_LENGTH - offset == 0 {
        return None;
      }
      r := FetchMultiFrameData(buffer, mtu);
    }

    method FetchMultiFrameData(buffer: seq<byte>, mtu: Mtu) returns (r: Option<seq<byte>>)
      requires Fits(Model(), buffer) && !IsExhausted(Model())
      requires offset > 0 || dataLength > MtuSize(mtu) - TAIL_LENGTH
      modifies this
      ensures Model() == Fetch(old(Model()), buffer, mtu).0
      ensures IsFrame(r, Fetch(old(Model()), buffer, mtu).1)
    {
      var maxPayloadLength := MtuSize(mtu) - TAIL_LENGTH;
      var residualLength := dataLength + CRC_LENGTH - offset;
      PaddingPrecedesCrc(residualLength, maxPayloadLength);
      var frameLength := NewCeil(MinNat(residualLength, maxPayloadLength) + TAIL_LENGTH).value;
      assert frameLength - 1 == Room(MinNat(residualLength, maxPayloadLength));
      var frame := new byte[frameLength](_ => 0);
      var sot := offset == 0;
      if residualLength >= frameLength - 1 {
        FetchFullSegment(buffer, frame, frameLength - 1);
      } else {
        assert offset <= dataLength;
        FetchPaddedSegment(buffer, frame, frameLength - 1);
      }
      var data := Seal(frame, Tail(sot, offset == dataLength + CRC_LENGTH, toggleBit, transferId));
      toggleBit := !toggleBit;
      r := Some(data);
    }

    /** Puts the tail byte at the end of the frame. */
    method Seal(frame: array<byte>, tail: Tail) returns (data: seq<byte>)
      requires frame.Length > 0
      modifies frame
      ensures data == FrameBytes(Frame(tail, old(frame[..frame.Length - 1])))
    {
      frame[frame.Length - 1] := EncodeTail(tail);
      data := frame[..];
    }

    /** Writes `src` at `at`. */
    method Copy(frame: array<byte>, at: nat, src: seq<byte>)
      requires at + |src| <= frame.Length
      modifies frame
      ensures frame[at..at + |src|] == src
      ensures frame[..at] == old(frame[..at])
    {
      for i := 0 to |src|
        invariant frame[at..at + i] == src[..i]
        invariant frame[..at] == old(frame[..at])
      {
        frame[at + i] := src[i];
      }
    }

    method FetchSingleSegment(buffer: seq<byte>, frame: array<byte>, n: nat)
      requires Fits(Model(), buffer) && dataLength <= n < frame.Length
      modifies this`offset, frame
      ensures offset == dataLength + CRC_LENGTH
      ensures frame[..n] == SinglePayload(old(Model()), buffer, n)
    {
      Copy(frame, 0, buffer[..dataLength]);
      Copy(frame, dataLength, Zeros(n - dataLength));
      assert frame[..n] == frame[..dataLength] + frame[dataLength..n];
      offset := dataLength + CRC_LENGTH;
    }

    method FetchFullSegment(buffer: seq<byte>, frame: array<byte>, n: nat)
      requires Fits(Model(), buffer) && offset + n <= dataLength + CRC_LENGTH && n < frame.Length
      modifies this`offset, frame
      ensures offset == old(offset) + n
      ensures frame[..n] == FullPayload(old(Model()), buffer, n)
    {
      var residualData := buffer[MinNat(offset, dataLength)..dataLength];
      var dataPart := MinNat(|residualData|, n);
      Copy(frame, 0, residualData[..dataPart]);
      var crcOffset := if offset > dataLength then offset - dataLength else 0;
      var residualCrc := BigEndian(crc)[crcOffset..];
      Copy(frame, dataPart, residualCrc[..n - dataPart]);
      assert frame[..n] == frame[..dataPart] + frame[dataPart..n];
      WireSplit(Model(), buffer, n);
      offset := offset + n;
    }

    method FetchPaddedSegment(buffer: seq<byte>, frame: array<byte>, n: nat)
      requires Fits(Model(), buffer) && offset <= dataLength
      requires dataLength + CRC_LENGTH - offset < n < frame.Length
      modifies this`offset, frame
      ensures offset == dataLength + CRC_LENGTH
      ensures frame[..n] == PaddedPayload(old(Model()), buffer, n)
    {
      var residualData := buffer[offset..dataLength];
      var padEnd := n - CRC_LENGTH;
      var pad := Zeros(padEnd - |residualData|);
      Copy(frame, 0, residualData);
      Copy(frame, |residualData|, pad);
      assert frame[..padEnd] == frame[..|residualData|] + frame[|residualData|..padEnd];
      var sum := CrcAddBytes(crc, pad);
      Copy(frame, padEnd, BigEndian(sum));
      assert frame[..n] == frame[..padEnd] + frame[padEnd..n];
      offset := offset + |residualData| + CRC_LENGTH;
    }
  }
}
