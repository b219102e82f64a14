/** Runs of the double buffer: what was sent, told from what was pushed. */
module SignalRuns {
  import opened Time
  import opened Format
  import opened Priorities
  import opened Segmentation
  import opened Transfers
  import opened Signals

  /** A pushed transfer with the bytes its buffer held at the push. */
  datatype Push = Push(cutter: Cutter, bytes: seq<byte>, timestamp: Instant, loopBack: bool)

  /** A transfer that was begun: which push, and the MTUs of its frames so far. */
  datatype Sending = Sending(push: nat, mtus: seq<Mtu>)

  datatype History = History(pushes: seq<Push>, sendings: seq<Sending>, frames: seq<TxFrame>)

  datatype Event =
    | AskScratchpad
    | WriteScratchpad(bytes: seq<byte>)
    | PushTransfer(cutter: Cutter, timestamp: Instant, loopBack: bool, addressed: bool, at: Priority)
    | PopFrame(mask: set<Priority>, mtu: Mtu)

  // ---------------------------------------------------------------- frames of a sending, one by one

  lemma {:induction false} OutputMore(c: Cutter, buffer: seq<byte>, mtus: seq<Mtu>, mtu: Mtu)
    requires Fits(c, buffer) && !IsExhausted(After(c, buffer, mtus))
    ensures Fits(After(c, buffer, mtus), buffer)
    ensures var next := Fetch(After(c, buffer, mtus), buffer, mtu);
      && next.1.Some?
      && After(c, buffer, mtus + [mtu]) == next.0
      && Output(c, buffer, mtus + [mtu]) == Output(c, buffer, mtus) + [next.1.value]
    decreases |mtus|
  {
    if mtus == [] || IsExhausted(c) {
      FetchFits(c, buffer, mtu);
      assert [mtu][1..] == [];
    } else {
      FetchFits(c, buffer, mtus[0]);
      assert (mtus + [mtu])[1..] == mtus[1..] + [mtu];
      OutputMore(Fetch(c, buffer, mtus[0]).0, buffer, mtus[1..], mtu);
    }
  }

  function Tagged(frames: seq<Frame>, p: Push): (r: seq<TxFrame>)
    ensures |r| == |frames|
  {
    seq(|frames|, i requires 0 <= i < |frames| => TxFrame(frames[i], p.timestamp, p.loopBack))
  }

  ghost predicate PushFits(p: Push) {
    Fits(p.cutter, p.bytes) && p.cutter.offset == 0
  }

  /** The frames of one sending. */
  function FramesOf(pushes: seq<Push>, s: Sending): seq<TxFrame>
    requires s.push < |pushes| && PushFits(pushes[s.push])
  {
    var p := pushes[s.push];
    Tagged(Output(p.cutter, p.bytes, s.mtus), p)
  }

  ghost predicate AllFit(pushes: seq<Push>, sendings: seq<Sending>) {
    && (forall i :: 0 <= i < |pushes| ==> PushFits(pushes[i]))
    && (forall i :: 0 <= i < |sendings| ==> sendings[i].push < |pushes|)
  }

  /** The frames of all sendings, one transfer after the other. */
  function AllFrames(pushes: seq<Push>, sendings: seq<Sending>): seq<TxFrame>
    requires AllFit(pushes, sendings)
  {
    if sendings == [] then []
    else AllFrames(pushes, sendings[..|sendings| - 1]) + FramesOf(pushes, sendings[|sendings| - 1])
  }

  ghost predicate Complete(pushes: seq<Push>, s: Sending)
    requires s.push < |pushes| && PushFits(pushes[s.push])
  {
    IsExhausted(After(pushes[s.push].cutter, pushes[s.push].bytes, s.mtus))
  }

  // ---------------------------------------------------------------- the history a run leaves

  /** `job` is push number `k` with its bytes untouched, cut as `cutter`. */
  ghost predicate Holds(m: Signal, job: Job, p: Push, cutter: Cutter) {
    && job == Job(job.bufferIdx, cutter, p.timestamp, p.loopBack)
    && job.bufferIdx < |m.buffers| && m.buffers[job.bufferIdx] == p.bytes
  }

  ghost predicate PendingTold(m: Signal, h: History) {
    m.pending.Some? ==>
      && h.pushes != []
      && var last := |h.pushes| - 1;
         Holds(m, m.pending.value, h.pushes[last], h.pushes[last].cutter)
         && (h.sendings != [] ==> h.sendings[|h.sendings| - 1].push < last)
  }

  ghost predicate FragmentedTold(m: Signal, h: History)
    requires AllFit(h.pushes, h.sendings)
  {
    if m.fragmented.None? then forall i :: 0 <= i < |h.sendings| ==> Complete(h.pushes, h.sendings[i])
    else
      && h.sendings != []
      && (forall i :: 0 <= i < |h.sendings| - 1 ==> Complete(h.pushes, h.sendings[i]))
      && var s := h.sendings[|h.sendings| - 1];
         var p := h.pushes[s.push];
         Holds(m, m.fragmented.value, p, After(p.cutter, p.bytes, s.mtus))
  }

  /** The frames sent are those of an in-order choice of the pushes, each transfer complete before the next
      begins, with the bytes it had at its push. */
  ghost predicate Told(m: Signal, h: History) {
    && Sound(m)
    && AllFit(h.pushes, h.sendings)
    && (forall i, j :: 0 <= i < j < |h.sendings| ==> h.sendings[i].push < h.sendings[j].push)
    && h.frames == AllFrames(h.pushes, h.sendings)
    && PendingTold(m, h) && FragmentedTold(m, h)
  }

  // ---------------------------------------------------------------- steps and runs

  /** Callers write buffers of the buffer size and push no more than they wrote. */
  ghost predicate Allowed(m: Signal, ev: Event)
    requires Sound(m)
  {
    match ev
    case WriteScratchpad(bytes) => m.scratchpad.Some? ==> |bytes| == |m.buffers[m.scratchpad.value]|
    case PushTransfer(cutter, _, _, _, _) =>
      cutter == Start(cutter.id, cutter.dataLength, cutter.crc)
      && (m.scratchpad.Some? ==> cutter.dataLength <= |m.buffers[m.scratchpad.value]|)
    case _ => true
  }

  function Apply(m: Signal, priority: Priority, ev: Event): Signal
    requires Sound(m)
  {
    match ev
    case AskScratchpad => GetScratchpad(m)
    case WriteScratchpad(bytes) => Write(m, bytes)
    case PushTransfer(cutter, timestamp, loopBack, addressed, at) =>
      TryPush(m, priority, cutter, timestamp, loopBack, addressed, at).0
    case PopFrame(mask, mtu) => TryPop(m, priority, mask, mtu).0
  }

  /** The last sending gets one more frame. */
  function OneMore(sendings: seq<Sending>, mtu: Mtu): seq<Sending>
    requires sendings != []
  {
    var n := |sendings| - 1;
    sendings[n := sendings[n].(mtus := sendings[n].mtus + [mtu])]
  }

  /** The waiting transfer begins, its first frame still to come. */
  function Begun(h: History): History
    requires h.pushes != []
  {
    h.(sendings := h.sendings + [Sending(|h.pushes| - 1, [])])
  }

  /** One frame further. */
  function Extended(h: History, mtu: Mtu, frame: TxFrame): History
    requires h.sendings != []
  {
    h.(sendings := OneMore(h.sendings, mtu), frames := h.frames + [frame])
  }

  /** What a step adds to the history. */
  function Note(m: Signal, priority: Priority, ev: Event, h: History): History
    requires Sound(m)
  {
    match ev
    case PushTransfer(cutter, timestamp, loopBack, addressed, at) =>
      if TryPush(m, priority, cutter, timestamp, loopBack, addressed, at).1.Pushed? then
        h.(pushes := h.pushes + [Push(cutter, m.buffers[m.scratchpad.value], timestamp, loopBack)])
      else h
    case PopFrame(mask, mtu) =>
      var out := TryPop(m, priority, mask, mtu).1;
      var g := if m.fragmented.None? && h.pushes != [] then Begun(h) else h;
      if out.None? || g.sendings == [] then h else Extended(g, mtu, out.value)
    case _ => h
  }

  lemma MorePushes(pushes: seq<Push>, p: Push, sendings: seq<Sending>)
    requires AllFit(pushes, sendings) && PushFits(p)
    ensures AllFit(pushes + [p], sendings) && AllFrames(pushes + [p], sendings) == AllFrames(pushes, sendings)
    decreases |sendings|
  {
    if sendings != [] {
      MorePushes(pushes, p, sendings[..|sendings| - 1]);
    }
  }

  lemma PushTold(m: Signal, priority: Priority, ev: Event, h: History)
    requires Told(m, h) && ev.PushTransfer? && Allowed(m, ev)
    ensures Told(Apply(m, priority, ev), Note(m, priority, ev, h))
  {
    TryPushSound(m, priority, ev.cutter, ev.timestamp, ev.loopBack, ev.addressed, ev.at);
    if TryPush(m, priority, ev.cutter, ev.timestamp, ev.loopBack, ev.addressed, ev.at).1.Pushed? {
      var p := Push(ev.cutter, m.buffers[m.scratchpad.value], ev.timestamp, ev.loopBack);
      MorePushes(h.pushes, p, h.sendings);
      forall i | 0 <= i < |h.sendings| && Complete(h.pushes, h.sendings[i])
        ensures Complete(h.pushes + [p], h.sendings[i])
      {
      }
    }
  }

  /** A frame of the transfer under way. */
  lemma MoreFrames(pushes: seq<Push>, sendings: seq<Sending>, mtu: Mtu)
    requires AllFit(pushes, sendings) && sendings != [] && !Complete(pushes, sendings[|sendings| - 1])
    ensures var last := sendings[|sendings| - 1];
      var p := pushes[last.push];
      var at := After(p.cutter, p.bytes, last.mtus);
      && Fits(at, p.bytes) && Fetch(at, p.bytes, mtu).1.Some?
      && AllFit(pushes, OneMore(sendings, mtu))
      && AllFrames(pushes, OneMore(sendings, mtu))
         == AllFrames(pushes, sendings) + [TxFrame(Fetch(at, p.bytes, mtu).1.value, p.timestamp, p.loopBack)]
      && After(p.cutter, p.bytes, last.mtus + [mtu]) == Fetch(at, p.bytes, mtu).0
  {
    var n, more := |sendings| - 1, OneMore(sendings, mtu);
    var last, p := sendings[n], pushes[sendings[n].push];
    OutputMore(p.cutter, p.bytes, last.mtus, mtu);
    assert more[..n] == sendings[..n];
    var next := Fetch(After(p.cutter, p.bytes, last.mtus), p.bytes, mtu).1.value;
    TaggedMore(Output(p.cutter, p.bytes, last.mtus), next, p);
  }

  lemma TaggedMore(frames: seq<Frame>, f: Frame, p: Push)
    ensures Tagged(frames + [f], p) == Tagged(frames, p) + [TxFrame(f, p.timestamp, p.loopBack)]
  {
  }

  lemma BeginTold(m: Signal, h: History)
    requires Told(m, h) && m.fragmented.None? && m.pending.Some?
    ensures Told(Begin(m), Begun(h))
  {
    var g := Begun(h);
    assert g.sendings[..|h.sendings|] == h.sendings;
    assert FramesOf(h.pushes, g.sendings[|h.sendings|]) == [];
    BeginFragment(m, h);
  }

  lemma BeginFragment(m: Signal, h: History)
    requires AllFit(h.pushes, h.sendings) && PendingTold(m, h) && FragmentedTold(m, h)
    requires m.fragmented.None? && m.pending.Some?
    ensures AllFit(h.pushes, Begun(h).sendings) && FragmentedTold(Begin(m), Begun(h))
  {
    var g := Begun(h);
    forall i | 0 <= i < |h.sendings| ensures Complete(g.pushes, g.sendings[i]) {
      assert Complete(h.pushes, h.sendings[i]);
    }
  }

  /** The sendings before the last are none of a frame's business. */
  lemma EarlierStay(pushes: seq<Push>, sendings: seq<Sending>, mtu: Mtu, i: nat)
    requires AllFit(pushes, sendings) && i < |sendings| - 1 && Complete(pushes, sendings[i])
    requires AllFit(pushes, OneMore(sendings, mtu))
    ensures Complete(pushes, OneMore(sendings, mtu)[i])
  {
  }

  /** The transfer under way after one more frame: ended, its sending complete, or further on. */
  lemma CutLast(m: Signal, h: History, mtu: Mtu)
    requires Sound(m) && m.fragmented.Some? && AllFit(h.pushes, h.sendings) && FragmentedTold(m, h)
    requires !Complete(h.pushes, h.sendings[|h.sendings| - 1])
    ensures AllFit(h.pushes, OneMore(h.sendings, mtu))
    ensures var r, s := Cut(m, mtu).0, OneMore(h.sendings, mtu)[|h.sendings| - 1];
      var p := h.pushes[s.push];
      if r.fragmented.None? then Complete(h.pushes, s)
      else Holds(r, r.fragmented.value, p, After(p.cutter, p.bytes, s.mtus))
  {
    MoreFrames(h.pushes, h.sendings, mtu);
  }

  lemma CutFragment(m: Signal, h: History, mtu: Mtu)
    requires Sound(m) && m.fragmented.Some? && AllFit(h.pushes, h.sendings) && FragmentedTold(m, h)
    requires !Complete(h.pushes, h.sendings[|h.sendings| - 1])
    ensures var g := Extended(h, mtu, Cut(m, mtu).1); AllFit(g.pushes, g.sendings) && FragmentedTold(Cut(m, mtu).0, g)
  {
    CutLast(m, h, mtu);
    var more := OneMore(h.sendings, mtu);
    forall i | 0 <= i < |h.sendings| - 1 ensures Complete(h.pushes, more[i]) {
      EarlierStay(h.pushes, h.sendings, mtu, i);
    }
  }

  /** The frame itself, and the waiting transfer, which it leaves alone. */
  lemma CutFrame(m: Signal, h: History, mtu: Mtu)
    requires Told(m, h) && m.fragmented.Some? && !Complete(h.pushes, h.sendings[|h.sendings| - 1])
    ensures var g := Extended(h, mtu, Cut(m, mtu).1);
      && AllFit(g.pushes, g.sendings) && g.frames == AllFrames(g.pushes, g.sendings)
      && PendingTold(Cut(m, mtu).0, g)
  {
    MoreFrames(h.pushes, h.sendings, mtu);
  }

  lemma CutTold(m: Signal, h: History, mtu: Mtu)
    requires Told(m, h) && m.fragmented.Some?
    ensures Told(Cut(m, mtu).0, Extended(h, mtu, Cut(m, mtu).1))
  {
    UnderWay(m, h);
    CutSound(m, mtu);
    CutFrame(m, h, mtu);
    CutFragment(m, h, mtu);
  }

  lemma UnderWay(m: Signal, h: History)
    requires Told(m, h) && m.fragmented.Some?
    ensures !Complete(h.pushes, h.sendings[|h.sendings| - 1])
  {
  }

  /** A pop begins the waiting transfer if none is under way, and cuts the next frame. */
  lemma PopIsCut(m: Signal, priority: Priority, mask: set<Priority>, mtu: Mtu, h: History)
    requires Sound(m) && (m.fragmented.Some? ==> h.sendings != []) && (m.pending.Some? ==> h.pushes != [])
    ensures Sound(Begin(m))
    ensures priority in mask && Begin(m).fragmented.Some? ==>
      && Apply(m, priority, PopFrame(mask, mtu)) == Cut(Begin(m), mtu).0
      && Note(m, priority, PopFrame(mask, mtu), h) ==
         Extended(if m.fragmented.None? then Begun(h) else h, mtu, Cut(Begin(m), mtu).1)
    ensures priority !in mask || Begin(m).fragmented.None? ==>
      Apply(m, priority, PopFrame(mask, mtu)) == m && Note(m, priority, PopFrame(mask, mtu), h) == h
  {
  }

  lemma PopTold(m: Signal, priority: Priority, mask: set<Priority>, mtu: Mtu, h: History)
    requires Told(m, h)
    ensures Told(Apply(m, priority, PopFrame(mask, mtu)), Note(m, priority, PopFrame(mask, mtu), h))
  {
    PopIsCut(m, priority, mask, mtu, h);
    if priority in mask && Begin(m).fragmented.Some? {
      if m.fragmented.None? {
        BeginTold(m, h);
        CutTold(Begin(m), Begun(h), mtu);
      } else {
        CutTold(m, h, mtu);
      }
    }
  }

  lemma StepTold(m: Signal, priority: Priority, ev: Event, h: History)
    requires Told(m, h) && Allowed(m, ev)
    ensures Told(Apply(m, priority, ev), Note(m, priority, ev, h))
  {
    match ev
    case AskScratchpad => GetScratchpadSound(m);
    case WriteScratchpad(bytes) => WriteSound(m, bytes);
    case PushTransfer(_, _, _, _, _) => PushTold(m, priority, ev, h);
    case PopFrame(mask, mtu) => PopTold(m, priority, mask, mtu, h);
  }

  // ---------------------------------------------------------------- whole runs

  const NOTHING: History := History([], [], [])

  lemma StepSound(m: Signal, priority: Priority, ev: Event)
    requires Sound(m) && Allowed(m, ev)
    ensures Sound(Apply(m, priority, ev))
  {
    match ev
    case AskScratchpad => GetScratchpadSound(m);
    case WriteScratchpad(bytes) => WriteSound(m, bytes);
    case PushTransfer(cutter, timestamp, loopBack, addressed, at) =>
      TryPushSound(m, priority, cutter, timestamp, loopBack, addressed, at);
    case PopFrame(mask, mtu) => TryPopSound(m, priority, mask, mtu);
  }

  /** Every step is allowed where it happens. */
  ghost predicate RunsFrom(m: Signal, priority: Priority, events: seq<Event>)
    requires Sound(m)
    decreases |events|
  {
    events == []
    || (Allowed(m, events[0])
        && (StepSound(m, priority, events[0]); RunsFrom(Apply(m, priority, events[0]), priority, events[1..])))
  }

  ghost function RunTo(m: Signal, priority: Priority, events: seq<Event>, h: History): (Signal, History)
    requires Sound(m) && RunsFrom(m, priority, events)
    decreases |events|
  {
    if events == [] then (m, h)
    else
      StepSound(m, priority, events[0]);
      RunTo(Apply(m, priority, events[0]), priority, events[1..], Note(m, priority, events[0], h))
  }

  lemma {:induction false} RunTold(m: Signal, priority: Priority, events: seq<Event>, h: History)
    requires Told(m, h) && RunsFrom(m, priority, events)
    ensures var (r, g) := RunTo(m, priority, events, h); Told(r, g)
    decreases |events|
  {
    if events != [] {
      StepTold(m, priority, events[0], h);
      RunTold(Apply(m, priority, events[0]), priority, events[1..], Note(m, priority, events[0], h));
    }
  }

  /** A new buffer has nothing to tell. */
  lemma NewIsTold(size: nat)
    ensures Told(NewSignal(size), NOTHING)
  {
  }

  ghost predicate IsRun(size: nat, priority: Priority, events: seq<Event>) {
    NewIsTold(size); RunsFrom(NewSignal(size), priority, events)
  }

  /** The buffer never tears or mixes transfers: however asking for the scratchpad, writing it, pushing and
      popping interleave on a new buffer, the popped frames are those of an in-order choice of the pushed
      transfers, one whole transfer after the other, each cut from the bytes it had at its push; and each of the
      two indices keeps one owner. */
  lemma NeverTears(size: nat, priority: Priority, events: seq<Event>)
    requires IsRun(size, priority, events)
    ensures Sound(NewSignal(size))
    ensures var (r, g) := RunTo(NewSignal(size), priority, events, NOTHING); Told(r, g)
  {
    NewIsTold(size);
    RunTold(NewSignal(size), priority, events, NOTHING);
  }
}
