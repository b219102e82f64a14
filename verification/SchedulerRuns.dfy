/** Runs of the scheduler: agreement of lists and readiness, and waking. */
module SchedulerRuns {
  import opened Lists
  import opened Wrappers
  import opened Priorities
  import opened Scheduler

  datatype Event =
    | RegisterEntry(entry: Entry, ready: set<Priority>)
    | UnregisterEntry(entry: Entry)
    | PushTransfer(entry: Entry, ready: set<Priority>)
    | Poll(mask: set<Priority>, answer: Answer)

  /** The chosen list, if any, has a registered front entry. */
  ghost predicate CanPop(m: Sched, mask: set<Priority>) {
    && m.ready.Keys == m.begun.Keys
    && (Chosen(m, mask).Some? ==>
          List(m.lists, Chosen(m, mask).value) != [] && List(m.lists, Chosen(m, mask).value)[0] in m.ready)
  }

  ghost predicate Allowed(m: Sched, ev: Event) {
    match ev
    case RegisterEntry(e, _) => e !in m.ready
    case UnregisterEntry(e) => e in m.ready
    case PushTransfer(e, _) => e in m.ready
    case Poll(_, _) => true
  }

  ghost function Apply(m: Sched, ev: Event): Sched
    requires Indexed(m) && Allowed(m, ev)
  {
    match ev
    case RegisterEntry(e, ready) => Register(m, e, ready)
    case UnregisterEntry(e) => Unregister(m, e)
    case PushTransfer(e, ready) => Push(m, e, ready)
    case Poll(mask, a) => ChosenFront(m, mask); PollPop(m, mask, a).0
  }

  /** The frame that goes out. */
  ghost function Emitted(m: Sched, ev: Event): Option<Emission>
    requires Indexed(m)
  {
    match ev
    case Poll(mask, a) => ChosenFront(m, mask); PollPop(m, mask, a).1
    case _ => None
  }

  // ---------------------------------------------------------------- every run

  ghost predicate Good(m: Sched) {
    Indexed(m) && WaitsRightly(m)
  }

  lemma UnregisterWakes(m: Sched, e: Entry)
    requires WaitsRightly(m)
    ensures WaitsRightly(Unregister(m, e))
  {
    assert forall id :: id in Dequeue(m, e).flags ==> id in m.flags;
  }

  /** Index agreement survives every step, whatever the buffers answer. */
  lemma StepIndexed(m: Sched, ev: Event)
    requires Indexed(m) && Allowed(m, ev)
    ensures Indexed(Apply(m, ev))
  {
    match ev
    case RegisterEntry(e, ready) => RegisterIndexed(m, e, ready);
    case UnregisterEntry(e) => UnregisterIndexed(m, e);
    case PushTransfer(e, ready) => PushIndexed(m, e, ready);
    case Poll(mask, a) =>
      TryPopIndexed(m, mask, a);
      PollIndexed(m, mask, a);
  }

  lemma PollIndexed(m: Sched, mask: set<Priority>, a: Answer)
    requires CanPop(m, mask) && Indexed(TryPop(m, mask, a).0)
    ensures Indexed(PollPop(m, mask, a).0)
  {
    var t, r := TryPop(m, mask, a).0, PollPop(m, mask, a).0;
    forall e | e in r.ready ensures Placed(r, e) {
      assert Placed(t, e);
    }
  }

  /** The most urgent ready priority is in the mask. */
  predicate FirstIn(ready: set<Priority>, mask: set<Priority>) {
    First(ready).Some? && First(ready).value in mask
  }

  /** A poll gets a frame from the buffer it asks; or that buffer reports no priority in the mask as its most urgent
      one, and neither did any other. */
  ghost predicate Answered(m: Sched, ev: Event)
    requires Indexed(m)
  {
    match ev
    case Poll(mask, a) =>
      ChosenFront(m, mask);
      Chosen(m, mask).Some? && a.frame.None? ==>
        var x := List(m.lists, Chosen(m, mask).value)[0];
        !FirstIn(a.ready, mask) && forall y :: y in m.ready && y != x ==> !FirstIn(m.ready[y], mask)
    case _ => true
  }

  /** Entry `e` is available in the mask. */
  ghost predicate Offers(ready: map<Entry, set<Priority>>, e: Entry, mask: set<Priority>) {
    e in ready && FirstIn(ready[e], mask)
  }

  lemma NoneChosenIff(m: Sched, mask: set<Priority>)
    requires Indexed(m)
    ensures Chosen(m, mask) == None <==> forall e :: e in m.ready ==> !Offers(m.ready, e, mask)
  {
    ChosenIffReady(m, mask);
    if Chosen(m, mask).Some? {
      var e :| e in m.ready && First(m.ready[e]).Some? && First(m.ready[e]).value in mask;
      assert Offers(m.ready, e, mask);
    } else {
      forall e | e in m.ready ensures !Offers(m.ready, e, mask) {
      }
    }
  }

  lemma AskedReady(m: Sched, mask: set<Priority>, a: Answer)
    requires CanPop(m, mask) && a.frame == None && Chosen(m, mask).Some?
    ensures TryPop(m, mask, a).0.ready == m.ready[List(m.lists, Chosen(m, mask).value)[0] := a.ready]
  {
  }

  lemma OffersAfter(ready: map<Entry, set<Priority>>, x: Entry, answer: set<Priority>, mask: set<Priority>)
    requires x in ready
    ensures var after := ready[x := answer];
      (forall e :: e in after ==> !Offers(after, e, mask)) <==>
      !FirstIn(answer, mask) && forall y :: y in ready && y != x ==> !FirstIn(ready[y], mask)
  {
    var after := ready[x := answer];
    assert Offers(after, x, mask) == FirstIn(answer, mask);
    forall y | y in ready && y != x ensures Offers(after, y, mask) == FirstIn(ready[y], mask) {
    }
  }

  /** What a poll without a frame leaves available, in terms of what was there before. */
  lemma LeftOver(m: Sched, mask: set<Priority>, a: Answer)
    requires Indexed(m) && CanPop(m, mask) && Indexed(TryPop(m, mask, a).0) && TryPop(m, mask, a).1.None?
    ensures Chosen(TryPop(m, mask, a).0, mask) == None <==> Answered(m, Poll(mask, a))
  {
    if Chosen(m, mask).Some? {
      AskedReady(m, mask, a);
      NoneChosenIff(TryPop(m, mask, a).0, mask);
      OffersAfter(m.ready, List(m.lists, Chosen(m, mask).value)[0], a.ready, mask);
    }
  }

  /** The waiting hub is woken for what it waits for after a step exactly when the step was answered. */
  lemma StepGood(m: Sched, ev: Event)
    requires Good(m) && Allowed(m, ev)
    ensures Good(Apply(m, ev)) <==> Answered(m, ev)
  {
    StepIndexed(m, ev);
    match ev
    case RegisterEntry(e, ready) => UpdateWakes(m.(ready := m.ready[e := ready], begun := m.begun[e := {}]), e);
    case UnregisterEntry(e) => UnregisterWakes(m, e);
    case PushTransfer(e, ready) => UpdateWakes(m.(ready := m.ready[e := ready]), e);
    case Poll(mask, a) =>
      TryPopIndexed(m, mask, a);
      TryPopWakes(m, mask, a);
      if TryPop(m, mask, a).1.None? {
        PendingWaits(TryPop(m, mask, a).0, mask);
        LeftOver(m, mask, a);
      }
  }

  lemma StepKeeps(m: Sched, ev: Event)
    requires Indexed(m) && Allowed(m, ev)
    ensures Indexed(Apply(m, ev))
    ensures Good(m) ==> (Good(Apply(m, ev)) <==> Answered(m, ev))
  {
    StepIndexed(m, ev);
    if Good(m) {
      StepGood(m, ev);
    }
  }

  lemma FlaggedIsOffered(flags: set<QueueId>, mask: set<Priority>, id: QueueId)
    requires id in flags && id.priority in mask
    ensures FirstQueueId(FlaggedPriorities(flags, Started) * mask, FlaggedPriorities(flags, Finished) * mask).Some?
  {
    var (started, finished) := (FlaggedPriorities(flags, Started) * mask, FlaggedPriorities(flags, Finished) * mask);
    match id.kind {
      case Started => assert FlaggedAs(flags, Started, id.priority) && id.priority in started + finished;
      case Finished => assert FlaggedAs(flags, Finished, id.priority) && id.priority in started + finished;
    }
  }

  /** A hub that starts to wait waits rightly exactly when nothing in its mask is available. */
  lemma PendingWaits(m: Sched, mask: set<Priority>)
    requires Indexed(m)
    ensures WaitsRightly(m.(filter := mask, woken := false)) <==> Chosen(m, mask) == None
  {
    if Chosen(m, mask) == None {
      forall id: QueueId | id in m.flags ensures id.priority !in mask {
        if id.priority in mask {
          FlaggedIsOffered(m.flags, mask, id);
        }
      }
    } else {
      ChosenFront(m, mask);
    }
  }

  /** The poll yields a frame exactly when some entry's most urgent ready priority is in the mask and the buffer
      of the chosen one has a frame. */
  lemma PendingIffNoneReady(m: Sched, mask: set<Priority>, a: Answer)
    requires Indexed(m)
    ensures CanPop(m, mask)
    ensures PollPop(m, mask, a).1.Some? <==>
      a.frame.Some? && exists e :: e in m.ready && First(m.ready[e]).Some? && First(m.ready[e]).value in mask
  {
    ChosenFront(m, mask);
    ChosenIffReady(m, mask);
  }

  /** The steps of a run from `m`, each allowed where it happens. */
  ghost predicate RunsFrom(m: Sched, events: seq<Event>)
    requires Indexed(m)
    decreases |events|
  {
    events == []
    || (Allowed(m, events[0]) && (StepIndexed(m, events[0]); RunsFrom(Apply(m, events[0]), events[1..])))
  }

  ghost function RunTo(m: Sched, events: seq<Event>): Sched
    requires Indexed(m) && RunsFrom(m, events)
    decreases |events|
  {
    if events == [] then m else StepIndexed(m, events[0]); RunTo(Apply(m, events[0]), events[1..])
  }

  /** What goes out at each step of a run. */
  ghost function Outputs(m: Sched, events: seq<Event>): (r: seq<Option<Emission>>)
    requires Indexed(m) && RunsFrom(m, events)
    ensures |r| == |events|
    decreases |events|
  {
    if events == [] then []
    else StepIndexed(m, events[0]); [Emitted(m, events[0])] + Outputs(Apply(m, events[0]), events[1..])
  }

  /** The state before step `i`. */
  ghost function StateAt(m: Sched, events: seq<Event>, i: nat): (r: Sched)
    requires Indexed(m) && RunsFrom(m, events) && i <= |events|
    ensures Indexed(r) && (i < |events| ==> Allowed(r, events[i]))
    decreases i
  {
    if i == 0 then m else StepIndexed(m, events[0]); StateAt(Apply(m, events[0]), events[1..], i - 1)
  }

  ghost predicate AllAnswered(m: Sched, events: seq<Event>)
    requires Indexed(m) && RunsFrom(m, events)
    decreases |events|
  {
    events == []
    || (Answered(m, events[0]) && (StepIndexed(m, events[0]); AllAnswered(Apply(m, events[0]), events[1..])))
  }

  lemma {:induction false} RunIndexed(m: Sched, events: seq<Event>)
    requires Indexed(m) && RunsFrom(m, events)
    ensures Indexed(RunTo(m, events))
    decreases |events|
  {
    if events != [] {
      StepIndexed(m, events[0]);
      RunIndexed(Apply(m, events[0]), events[1..]);
    }
  }

  lemma {:induction false} RunGood(m: Sched, events: seq<Event>)
    requires Good(m) && RunsFrom(m, events) && AllAnswered(m, events)
    ensures Good(RunTo(m, events))
    decreases |events|
  {
    if events != [] {
      StepIndexed(m, events[0]);
      StepGood(m, events[0]);
      RunGood(Apply(m, events[0]), events[1..]);
    }
  }

  /** A run of a new scheduler. */
  ghost predicate IsRun(events: seq<Event>) {
    IdleIsGood(); RunsFrom(IDLE, events)
  }

  /** Scheduler index agreement: in every run of a new scheduler, whatever the buffers answer, every registered
      entry is in exactly the list its mark names, at its most urgent ready priority, and the flags match the
      lists; and when every poll was answered, whenever something the hub waits for is available it was woken. */
  lemma EveryRunGood(events: seq<Event>)
    requires IsRun(events)
    ensures Indexed(IDLE) && Indexed(RunTo(IDLE, events))
    ensures AllAnswered(IDLE, events) ==> WaitsRightly(RunTo(IDLE, events))
  {
    IdleIsGood();
    RunIndexed(IDLE, events);
    if AllAnswered(IDLE, events) {
      RunGood(IDLE, events);
    }
  }

  lemma IdleIsGood()
    ensures Good(IDLE)
  {
    forall id ensures ListRight(List(IDLE.lists, id), id, IDLE.marks) && FlagRight(IDLE.lists, IDLE.flags, id) {
    }
  }

  // ---------------------------------------------------------------- what the hub waits for

  /** The mask of the last poll that got no frame. */
  function WaitingFor(mask: set<Priority>, events: seq<Event>, outputs: seq<Option<Emission>>): set<Priority>
    requires |events| == |outputs|
    decreases |events|
  {
    if events == [] then mask
    else WaitingFor(if events[0].Poll? && outputs[0] == None then events[0].mask else mask, events[1..], outputs[1..])
  }

  lemma UpdateKeepsFilter(m: Sched, e: Entry)
    requires e in m.ready && e in m.begun
    ensures UpdatePosition(m, e).filter == m.filter
  {
  }

  lemma PollWaits(m: Sched, mask: set<Priority>, a: Answer)
    requires CanPop(m, mask)
    ensures var (r, out) := PollPop(m, mask, a);
      r.filter == (if out == None then mask else m.filter) && (out == None ==> !r.woken)
  {
    if Chosen(m, mask).Some? && a.frame.Some? {
      var e, id := List(m.lists, Chosen(m, mask).value)[0], Chosen(m, mask).value;
      UpdateKeepsFilter(AfterFrame(m.(ready := m.ready[e := a.ready]), e, id.priority, a.frame.value), e);
    }
  }

  lemma StepWaits(m: Sched, ev: Event)
    requires Indexed(m) && Allowed(m, ev)
    ensures Apply(m, ev).filter == if ev.Poll? && Emitted(m, ev) == None then ev.mask else m.filter
    ensures ev.Poll? && Emitted(m, ev) == None ==> !Apply(m, ev).woken
  {
    match ev
    case RegisterEntry(e, ready) => UpdateKeepsFilter(m.(ready := m.ready[e := ready], begun := m.begun[e := {}]), e);
    case UnregisterEntry(e) =>
    case PushTransfer(e, ready) => UpdateKeepsFilter(m.(ready := m.ready[e := ready]), e);
    case Poll(mask, a) =>
      ChosenFront(m, mask);
      PollWaits(m, mask, a);
  }

  lemma {:induction false} RunWaits(m: Sched, events: seq<Event>)
    requires Indexed(m) && RunsFrom(m, events)
    ensures RunTo(m, events).filter == WaitingFor(m.filter, events, Outputs(m, events))
    decreases |events|
  {
    if events != [] {
      StepIndexed(m, events[0]);
      StepWaits(m, events[0]);
      RunWaits(Apply(m, events[0]), events[1..]);
      assert Outputs(m, events)[1..] == Outputs(Apply(m, events[0]), events[1..]);
    }
  }

  /** An entry that is ready has its list flagged. */
  lemma ReadyIsFlagged(m: Sched, e: Entry)
    requires Indexed(m) && WaitsRightly(m) && e in m.ready && FirstIn(m.ready[e], m.filter)
    ensures m.woken
  {
    assert Placed(m, e);
    assert InList(m.lists, m.marks[e], e) && FlagRight(m.lists, m.flags, m.marks[e]);
  }

  /** A step other than a poll wakes the hub exactly when it moves its entry to a list the hub waits for. */
  lemma WakesIff(m: Sched, ev: Event)
    requires Indexed(m) && Allowed(m, ev) && !ev.Poll?
    ensures var r := Apply(m, ev);
      r.woken <==>
        m.woken || (MarkOf(r, ev.entry) != MarkOf(m, ev.entry) && MarkOf(r, ev.entry).Some?
                    && MarkOf(r, ev.entry).value.priority in m.filter)
  {
    match ev
    case RegisterEntry(e, ready) => UpdateWakesIff(m.(ready := m.ready[e := ready], begun := m.begun[e := {}]), e);
    case UnregisterEntry(e) =>
    case PushTransfer(e, ready) => UpdateWakesIff(m.(ready := m.ready[e := ready]), e);
  }

  lemma UpdateWakesIff(m: Sched, e: Entry)
    requires e in m.ready && e in m.begun
    ensures var r := UpdatePosition(m, e);
      r.woken <==> m.woken || (MarkOf(r, e) != MarkOf(m, e) && MarkOf(r, e).Some?
                               && MarkOf(r, e).value.priority in m.filter)
  {
    match Target(m.begun[e], m.ready[e])
    case None =>
    case Some(id) =>
      assert id.priority in m.filter <==> {id.priority} * m.filter != {} by {
        assert id.priority in m.filter ==> id.priority in {id.priority} * m.filter;
      }
  }

  /** The hub is woken in time: in every run of a new scheduler whose polls were answered, if the most urgent ready
      priority of a registered entry is in the mask of the last poll that got no frame, the hub was woken since. */
  lemma HubIsWoken(events: seq<Event>, e: Entry)
    requires IsRun(events) && Indexed(IDLE) && AllAnswered(IDLE, events) && e in RunTo(IDLE, events).ready
    requires FirstIn(RunTo(IDLE, events).ready[e], WaitingFor({}, events, Outputs(IDLE, events)))
    ensures RunTo(IDLE, events).woken
  {
    EveryRunGood(events);
    RunWaits(IDLE, events);
    ReadyIsFlagged(RunTo(IDLE, events), e);
  }

  // ---------------------------------------------------------------- what a step does to one list

  /** List `id` after the position of `e` was updated. */
  function Updated(m: Sched, e: Entry, id: QueueId): seq<Entry>
    requires e in m.ready && e in m.begun
  {
    var target := Target(m.begun[e], m.ready[e]);
    if MarkOf(m, e) == target then List(m.lists, id)
    else if target == Some(id) then Rest(m, id, e) + [e]
    else Rest(m, id, e)
  }

  lemma UpdateList(m: Sched, e: Entry, id: QueueId)
    requires ListsRight(m.lists, m.flags, m.marks) && e in m.ready && e in m.begun
    ensures List(UpdatePosition(m, e).lists, id) == Updated(m, e, id)
  {
    match Target(m.begun[e], m.ready[e])
    case None => DequeueList(m, e, id);
    case Some(t) => MoveBackList(m, t, e, id);
  }

  lemma LeaveList(m: Sched, e: Entry, id: QueueId)
    requires Indexed(m) && e in m.ready
    ensures List(Unregister(m, e).lists, id) == Rest(m, id, e)
  {
    DequeueList(m, e, id);
  }
}
