/** The double buffer of a publisher: one transfer being sent, one waiting, one being written. */
module Signals {
  import opened Wrappers
  import opened Time
  import opened Format
  import opened Priorities
  import opened Segmentation

  /** A transfer in a buffer, as far as it was cut. */
  datatype Job = Job(bufferIdx: nat, cutter: Cutter, timestamp: Instant, loopBack: bool)

  datatype Signal = Signal(pending: Option<Job>, fragmented: Option<Job>, scratchpad: Option<nat>, free: seq<nat>,
                           buffers: seq<seq<byte>>)

  datatype TxFrame = TxFrame(frame: Frame, timestamp: Instant, loopBack: bool)

  datatype PushResult = Pushed | MessageAddressSpecified | PriorityNotReady | ScratchpadNotInitialized

  predicate IsEmpty(m: Signal) {
    m.pending.None? && m.fragmented.None?
  }

  // ---------------------------------------------------------------- each index has one owner

  function IndexOf(job: Option<Job>): Option<nat> {
    if job.Some? then Some(job.value.bufferIdx) else None
  }

  ghost predicate Apart(a: Option<nat>, b: Option<nat>) {
    a.Some? && b.Some? ==> a.value != b.value
  }

  ghost predicate NotIn(i: Option<nat>, free: seq<nat>) {
    i.Some? ==> i.value < 2 && forall j :: 0 <= j < |free| ==> free[j] != i.value
  }

  function Count(i: Option<nat>): nat {
    if i.Some? then 1 else 0
  }

  /** Both buffer indices are owned, each once: waiting, being sent, being written or free. */
  ghost predicate Partitioned(m: Signal) {
    var (p, f, s) := (IndexOf(m.pending), IndexOf(m.fragmented), m.scratchpad);
    && |m.buffers| == 2
    && Apart(p, f) && Apart(p, s) && Apart(f, s)
    && NotIn(p, m.free) && NotIn(f, m.free) && NotIn(s, m.free)
    && (forall j :: 0 <= j < |m.free| ==> m.free[j] < 2)
    && (forall j, k :: 0 <= j < k < |m.free| ==> m.free[j] != m.free[k])
    && Count(p) + Count(f) + Count(s) + |m.free| == 2
  }

  /** Every index has an owner. */
  lemma EachIsOwned(m: Signal, i: nat)
    requires Partitioned(m) && i < 2
    ensures IndexOf(m.pending) == Some(i) || IndexOf(m.fragmented) == Some(i) || m.scratchpad == Some(i) || i in m.free
  {
    assert |m.free| > 0 ==> m.free[0] in m.free;
    assert |m.free| > 1 ==> m.free[1] in m.free;
  }

  ghost predicate JobFits(m: Signal, job: Job) {
    job.bufferIdx < |m.buffers| && Fits(job.cutter, m.buffers[job.bufferIdx]) && !IsExhausted(job.cutter)
  }

  ghost predicate Sound(m: Signal) {
    && Partitioned(m)
    && (m.pending.Some? ==> JobFits(m, m.pending.value))
    && (m.fragmented.Some? ==> JobFits(m, m.fragmented.value))
  }

  // ---------------------------------------------------------------- the operations

  /** Two free buffers of `size` bytes. */
  function NewSignal(size: nat): Signal {
    Signal(None, None, None, [0, 1], [Zeros(size), Zeros(size)])
  }

  /** A buffer to write to: a free one, else that of the waiting transfer. */
  function GetScratchpad(m: Signal): Signal {
    if m.scratchpad.Some? then m
    else if m.free != [] then m.(scratchpad := Some(m.free[|m.free| - 1]), free := m.free[..|m.free| - 1])
    else if m.pending.Some? then m.(scratchpad := Some(m.pending.value.bufferIdx), pending := None)
    else m
  }

  /** The owner of the token writes to the scratchpad. */
  function Write(m: Signal, bytes: seq<byte>): Signal {
    if m.scratchpad.Some? && m.scratchpad.value < |m.buffers| then
      m.(buffers := m.buffers[m.scratchpad.value := bytes])
    else m
  }

  /** The scratchpad becomes the waiting transfer, replacing the one that was. */
  function TryPush(m: Signal, priority: Priority, cutter: Cutter, timestamp: Instant, loopBack: bool, addressed: bool,
                   at: Priority): (Signal, PushResult)
  {
    if addressed then (m, MessageAddressSpecified)
    else if at != priority then (m, PriorityNotReady)
    else
      match m.scratchpad
      case None => (m, ScratchpadNotInitialized)
      case Some(idx) =>
        (m.(scratchpad := None, pending := Some(Job(idx, cutter, timestamp, loopBack)),
            free := if m.pending.Some? then m.free + [m.pending.value.bufferIdx] else m.free),
         Pushed)
  }

  /** A transfer under way goes on; when there is none the waiting one starts. */
  function Begin(m: Signal): Signal {
    if m.fragmented.None? then m.(fragmented := m.pending, pending := None) else m
  }

  /** The next frame of the transfer under way; after its last frame the buffer is free. */
  function Cut(m: Signal, mtu: Mtu): (Signal, TxFrame)
    requires m.fragmented.Some? && JobFits(m, m.fragmented.value)
  {
    var job := m.fragmented.value;
    FetchFits(job.cutter, m.buffers[job.bufferIdx], mtu);
    var (cutter, frame) := Fetch(job.cutter, m.buffers[job.bufferIdx], mtu);
    (if IsExhausted(cutter) then m.(fragmented := None, free := m.free + [job.bufferIdx])
     else m.(fragmented := Some(job.(cutter := cutter))),
     TxFrame(frame.value, job.timestamp, job.loopBack))
  }

  function TryPop(m: Signal, priority: Priority, mask: set<Priority>, mtu: Mtu): (Signal, Option<TxFrame>)
    requires Sound(m)
  {
    if priority !in mask || Begin(m).fragmented.None? then (m, None)
    else
      var (r, frame) := Cut(Begin(m), mtu);
      (r, Some(frame))
  }

  // ---------------------------------------------------------------- each step is sound

  lemma GetScratchpadSound(m: Signal)
    requires Sound(m)
    ensures Sound(GetScratchpad(m)) && GetScratchpad(m).scratchpad.Some?
    ensures IsEmpty(GetScratchpad(m)) <==> IsEmpty(m)
  {
  }

  lemma WriteSound(m: Signal, bytes: seq<byte>)
    requires Sound(m)
    requires m.scratchpad.Some? && m.scratchpad.value < 2 ==> |bytes| == |m.buffers[m.scratchpad.value]|
    ensures Sound(Write(m, bytes))
  {
  }

  lemma TryPushSound(m: Signal, priority: Priority, cutter: Cutter, timestamp: Instant, loopBack: bool, addressed: bool,
                     at: Priority)
    requires Sound(m) && cutter.offset == 0
    requires m.scratchpad.Some? && m.scratchpad.value < 2 ==> cutter.dataLength <= |m.buffers[m.scratchpad.value]|
    ensures Sound(TryPush(m, priority, cutter, timestamp, loopBack, addressed, at).0)
  {
  }

  lemma TryPopSound(m: Signal, priority: Priority, mask: set<Priority>, mtu: Mtu)
    requires Sound(m)
    ensures Sound(TryPop(m, priority, mask, mtu).0)
  {
    if Begin(m).fragmented.Some? {
      CutSound(Begin(m), mtu);
    }
  }

  lemma CutSound(m: Signal, mtu: Mtu)
    requires Sound(m) && m.fragmented.Some?
    ensures Sound(Cut(m, mtu).0)
  {
    var job := m.fragmented.value;
    FetchFits(job.cutter, m.buffers[job.bufferIdx], mtu);
  }

  // ---------------------------------------------------------------- what each step does for its caller

  /** A push succeeds exactly when it names no address, is at the priority of the buffer and the scratchpad was taken;
      then the scratchpad is the waiting transfer. Otherwise nothing changes, and the first reason is told. */
  lemma PushIff(m: Signal, priority: Priority, cutter: Cutter, timestamp: Instant, loopBack: bool, addressed: bool,
                at: Priority)
    requires Sound(m)
    ensures var (r, result) := TryPush(m, priority, cutter, timestamp, loopBack, addressed, at);
      if !addressed && at == priority && m.scratchpad.Some? then
        && result == Pushed && r.pending == Some(Job(m.scratchpad.value, cutter, timestamp, loopBack))
        && r.scratchpad == None && r.fragmented == m.fragmented && r.buffers == m.buffers
      else
        && r == m
        && result == (if addressed then MessageAddressSpecified else if at != priority then PriorityNotReady
                      else ScratchpadNotInitialized)
  {
  }

  /** Taking the scratchpad gives up the waiting transfer exactly when the other buffer is being sent from. */
  lemma ScratchpadGivesUp(m: Signal)
    requires Sound(m)
    ensures var r := GetScratchpad(m);
      && r.fragmented == m.fragmented && r.buffers == m.buffers
      && (m.scratchpad.Some? ==> r == m)
      && r.pending == (if m.scratchpad == None && m.fragmented.Some? then None else m.pending)
  {
  }

  /** A pop gets a frame exactly when a transfer is waiting or under way and the priority of the buffer is in the
      mask; a waiting transfer is begun only when none is under way. */
  lemma PopIff(m: Signal, priority: Priority, mask: set<Priority>, mtu: Mtu)
    requires Sound(m)
    ensures var (r, out) := TryPop(m, priority, mask, mtu);
      && (out.Some? <==> priority in mask && (m.pending.Some? || m.fragmented.Some?))
      && (out.None? ==> r == m)
      && r.buffers == m.buffers && r.scratchpad == m.scratchpad
      && r.pending == (if out.Some? && m.fragmented == None then None else m.pending)
  {
  }

  // ---------------------------------------------------------------- what the scheduler relies on

  /** A ready buffer asked for a frame has one, no longer than the MTU, and stays ready until the frame that
      ends its transfer. */
  lemma ReadyUntilEnd(m: Signal, priority: Priority, mask: set<Priority>, mtu: Mtu)
    requires Sound(m) && !IsEmpty(m) && priority in mask
    ensures var (r, out) := TryPop(m, priority, mask, mtu);
      && out.Some? && |FrameBytes(out.value.frame)| <= MtuSize(mtu)
      && (out.value.frame.tail.eot <==> r.fragmented.None?)
      && (!out.value.frame.tail.eot ==> !IsEmpty(r))
  {
    var b := Begin(m);
    var job := b.fragmented.value;
    FetchFits(job.cutter, b.buffers[job.bufferIdx], mtu);
    FrameLength(job.cutter, b.buffers[job.bufferIdx], mtu);
  }
}
