/** The pushes a publisher's calls amount to: those at the right priority, without an address, with the scratchpad. */
module SignalCalls {
  import opened Wrappers
  import opened Time
  import opened Format
  import opened Priorities
  import opened Segmentation
  import opened Signals
  import opened SignalRuns

  /** What the caller knows of the scratchpad: whether it was taken since the last accepted push, and what was written
      to it since. */
  datatype Desk = Desk(taken: bool, written: Option<seq<byte>>)

  /** An accepted push as the caller made it. */
  datatype Call = Call(cutter: Cutter, timestamp: Instant, loopBack: bool, written: Option<seq<byte>>)

  predicate IsAccepted(d: Desk, priority: Priority, ev: Event) {
    ev.PushTransfer? && !ev.addressed && ev.at == priority && d.taken
  }

  function DeskAfter(d: Desk, priority: Priority, ev: Event): Desk {
    match ev
    case AskScratchpad => if d.taken then d else Desk(true, None)
    case WriteScratchpad(bytes) => if d.taken then Desk(true, Some(bytes)) else d
    case PushTransfer(_, _, _, _, _) => if IsAccepted(d, priority, ev) then Desk(false, None) else d
    case PopFrame(_, _) => d
  }

  /** The accepted calls of a run, told from the calls alone. */
  function Calls(d: Desk, priority: Priority, events: seq<Event>): seq<Call>
    decreases |events|
  {
    if events == [] then []
    else
      (if IsAccepted(d, priority, events[0])
       then [Call(events[0].cutter, events[0].timestamp, events[0].loopBack, d.written)] else [])
        + Calls(DeskAfter(d, priority, events[0]), priority, events[1..])
  }

  /** The buffer's scratchpad is as the caller knows it. */
  ghost predicate Reflects(m: Signal, d: Desk) {
    && Sound(m) && (m.scratchpad.Some? <==> d.taken)
    && (d.taken && d.written.Some? ==> m.buffers[m.scratchpad.value] == d.written.value)
  }

  /** A recorded push is the call. */
  ghost predicate IsCall(p: Push, c: Call) {
    && p.cutter == c.cutter && p.timestamp == c.timestamp && p.loopBack == c.loopBack
    && (c.written.Some? ==> p.bytes == c.written.value)
  }

  lemma StepReflects(m: Signal, priority: Priority, ev: Event, d: Desk)
    requires Reflects(m, d) && Allowed(m, ev)
    ensures Reflects(Apply(m, priority, ev), DeskAfter(d, priority, ev))
  {
    StepSound(m, priority, ev);
    match ev
    case AskScratchpad => ScratchpadGivesUp(m); GetScratchpadSound(m);
    case WriteScratchpad(bytes) =>
    case PushTransfer(cutter, timestamp, loopBack, addressed, at) =>
      PushIff(m, priority, cutter, timestamp, loopBack, addressed, at);
    case PopFrame(mask, mtu) => PopIff(m, priority, mask, mtu);
  }

  /** A step records a push exactly when the call is accepted. */
  lemma StepRecords(m: Signal, priority: Priority, ev: Event, h: History, d: Desk)
    requires Reflects(m, d) && Allowed(m, ev)
    ensures var more := Note(m, priority, ev, h).pushes;
      if IsAccepted(d, priority, ev) then
        && |more| == |h.pushes| + 1 && more[..|h.pushes|] == h.pushes
        && IsCall(more[|h.pushes|], Call(ev.cutter, ev.timestamp, ev.loopBack, d.written))
      else more == h.pushes
  {
    if ev.PushTransfer? {
      PushIff(m, priority, ev.cutter, ev.timestamp, ev.loopBack, ev.addressed, ev.at);
    }
  }

  /** Pushes from number `n` on are the calls. */
  ghost predicate AreCalls(pushes: seq<Push>, n: nat, calls: seq<Call>) {
    |pushes| == n + |calls| && forall i :: 0 <= i < |calls| ==> IsCall(pushes[n + i], calls[i])
  }

  lemma {:induction false} RunRecords(m: Signal, priority: Priority, events: seq<Event>, h: History, d: Desk)
    requires Reflects(m, d) && RunsFrom(m, priority, events)
    ensures var pushes := RunTo(m, priority, events, h).1.pushes;
      && |h.pushes| <= |pushes| && pushes[..|h.pushes|] == h.pushes
      && AreCalls(pushes, |h.pushes|, Calls(d, priority, events))
    decreases |events|
  {
    if events != [] {
      var ev := events[0];
      StepReflects(m, priority, ev, d);
      StepRecords(m, priority, ev, h, d);
      var g := Note(m, priority, ev, h);
      RunRecords(Apply(m, priority, ev), priority, events[1..], g, DeskAfter(d, priority, ev));
      var pushes := RunTo(m, priority, events, h).1.pushes;
      PrefixOfPrefix(pushes, g.pushes, h.pushes);
      if IsAccepted(d, priority, ev) {
        var call := Call(ev.cutter, ev.timestamp, ev.loopBack, d.written);
        FirstCall(pushes, g.pushes, |h.pushes|, call, Calls(DeskAfter(d, priority, ev), priority, events[1..]));
      }
    }
  }

  lemma PrefixOfPrefix(all: seq<Push>, more: seq<Push>, some: seq<Push>)
    requires |some| <= |more| <= |all| && all[..|more|] == more && more[..|some|] == some
    ensures all[..|some|] == some
  {
    assert all[..|more|][..|some|] == all[..|some|];
  }

  lemma FirstCall(pushes: seq<Push>, before: seq<Push>, n: nat, call: Call, calls: seq<Call>)
    requires |before| == n + 1 <= |pushes| && pushes[..n + 1] == before && IsCall(before[n], call)
    requires AreCalls(pushes, n + 1, calls)
    ensures AreCalls(pushes, n, [call] + calls)
  {
    assert pushes[n] == before[n];
    forall i | 0 <= i < |[call] + calls| ensures IsCall(pushes[n + i], ([call] + calls)[i]) {
      assert i > 0 ==> IsCall(pushes[n + 1 + (i - 1)], calls[i - 1]);
    }
  }

  /** Every accepted call is recorded, and no other: over every run of a new buffer the pushes told of are exactly the
      calls at the priority of the buffer, without an address, with the scratchpad taken since the last of them, and
      they have the bytes last written to it. */
  lemma PushesAreCalls(size: nat, priority: Priority, events: seq<Event>)
    requires IsRun(size, priority, events)
    ensures Sound(NewSignal(size))
    ensures AreCalls(RunTo(NewSignal(size), priority, events, NOTHING).1.pushes, 0,
                     Calls(Desk(false, None), priority, events))
  {
    NewIsTold(size);
    RunRecords(NewSignal(size), priority, events, NOTHING, Desk(false, None));
  }
}
