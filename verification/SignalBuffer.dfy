/** The double buffer object: indices move between a waiting, a sent and a written transfer. */
module SignalBuffers {
  import opened Wrappers
  import opened Time
  import opened Format
  import opened Priorities
  import opened Segmentation
  import opened Signals

  class SignalBuffer {
    const priority: Priority
    const buffers: seq<array<byte>>
    var pendingTransfer: Option<Job>
    var fragmentedTransfer: Option<Job>
    var scratchpadBufferIdx: Option<nat>
    var freeBufferIndexes: seq<nat>

    ghost predicate Paired() {
      |buffers| == 2 && buffers[0] != buffers[1]
    }

    ghost function Model(): Signal
      requires Paired()
      reads this, buffers
    {
      Signal(pendingTransfer, fragmentedTransfer, scratchpadBufferIdx, freeBufferIndexes,
             [buffers[0][..], buffers[1][..]])
    }

    ghost predicate Valid()
      reads this, buffers
    {
      Paired() && Sound(Model())
    }

    constructor (priority: Priority, buffers: seq<array<byte>>)
      requires |buffers| == 2 && buffers[0] != buffers[1]
      ensures Valid() && this.buffers == buffers && this.priority == priority
      ensures Model() == Signal(None, None, None, [0, 1], [buffers[0][..], buffers[1][..]])
    {
      this.priority, this.buffers := priority, buffers;
      pendingTransfer, fragmentedTransfer, scratchpadBufferIdx, freeBufferIndexes := None, None, None, [0, 1];
    }

    predicate IsEmptyBuffer()
      requires Paired()
      reads this, buffers
      ensures IsEmptyBuffer() <==> IsEmpty(Model())
    {
      fragmentedTransfer.None? && pendingTransfer.None?
    }

    function PopReadiness(): (r: set<Priority>)
      requires Paired()
      reads this, buffers
      ensures r == if IsEmpty(Model()) then {} else {priority}
    {
      if IsEmptyBuffer() then {} else {priority}
    }

    /** The buffer to write the next transfer to: no one else owns it. */
    method Scratchpad() returns (buffer: array<byte>)
      requires Valid()
      modifies this
      ensures Valid() && Model() == GetScratchpad(old(Model()))
      ensures scratchpadBufferIdx.Some? && scratchpadBufferIdx.value < 2 && buffer == buffers[scratchpadBufferIdx.value]
      ensures PopReadiness() == old(PopReadiness())
    {
      GetScratchpadSound(Model());
      if scratchpadBufferIdx.None? {
        if |freeBufferIndexes| > 0 {
          scratchpadBufferIdx := Some(freeBufferIndexes[|freeBufferIndexes| - 1]);
          freeBufferIndexes := freeBufferIndexes[..|freeBufferIndexes| - 1];
        } else {
          scratchpadBufferIdx := Some(pendingTransfer.value.bufferIdx);
          pendingTransfer := None;
        }
      }
      buffer := buffers[scratchpadBufferIdx.value];
    }

    method PushTransfer(id: TransferId, length: nat, crc: bv16, timestamp: Instant, loopBack: bool, addressed: bool,
                        at: Priority) returns (r: PushResult)
      requires Valid()
      requires scratchpadBufferIdx.Some? ==> length <= buffers[scratchpadBufferIdx.value].Length
      modifies this
      ensures Valid()
      ensures (Model(), r) ==
              TryPush(old(Model()), priority, Start(id, length, crc), timestamp, loopBack, addressed, at)
    {
      TryPushSound(Model(), priority, Start(id, length, crc), timestamp, loopBack, addressed, at);
      if addressed {
        return MessageAddressSpecified;
      }
      if at != priority {
        return PriorityNotReady;
      }
      if scratchpadBufferIdx.None? {
        return ScratchpadNotInitialized;
      }
      var bufferIdx := scratchpadBufferIdx.value;
      scratchpadBufferIdx := None;
      var scatter := new Scatter(id, length, crc);
      var prev := pendingTransfer;
      pendingTransfer := Some(Job(bufferIdx, scatter.Save(), timestamp, loopBack));
      if prev.Some? {
        freeBufferIndexes := freeBufferIndexes + [prev.value.bufferIdx];
      }
      r := Pushed;
    }

    /** The next frame of the transfer under way, as bytes with its time and loop-back mark. */
    method CutFrame(mtu: Mtu) returns (data: seq<byte>, timestamp: Instant, loopBack: bool)
      requires Valid() && fragmentedTransfer.Some?
      modifies this
      ensures Valid() && Model() == Cut(old(Model()), mtu).0
      ensures var frame := Cut(old(Model()), mtu).1;
        data == FrameBytes(frame.frame) && timestamp == frame.timestamp && loopBack == frame.loopBack
    {
      CutSound(Model(), mtu);
      var entry := fragmentedTransfer.value;
      var scatter := new Scatter.Resume(entry.cutter);
      FetchFits(entry.cutter, buffers[entry.bufferIdx][..], mtu);
      var fetched := scatter.FetchFrameData(buffers[entry.bufferIdx][..], mtu);
      data, timestamp, loopBack := fetched.value, entry.timestamp, entry.loopBack;
      if scatter.GetIsExhausted() {
        fragmentedTransfer := None;
        freeBufferIndexes := freeBufferIndexes + [entry.bufferIdx];
      } else {
        fragmentedTransfer := Some(entry.(cutter := scatter.Save()));
      }
    }

    method PopFrame(mask: set<Priority>, mtu: Mtu) returns (r: Option<(seq<byte>, Instant, bool)>)
      requires Valid()
      modifies this
      ensures Valid() && Model() == TryPop(old(Model()), priority, mask, mtu).0
      ensures r == match TryPop(old(Model()), priority, mask, mtu).1
        case None => None
        case Some(f) => Some((FrameBytes(f.frame), f.timestamp, f.loopBack))
    {
      if priority !in mask {
        return None;
      }
      if fragmentedTransfer.None? {
        fragmentedTransfer := pendingTransfer;
        pendingTransfer := None;
      }
      assert Model() == Begin(old(Model()));
      if fragmentedTransfer.None? {
        return None;
      }
      var data, timestamp, loopBack := CutFrame(mtu);
      r := Some((data, timestamp, loopBack));
    }
  }
}
