/** Transfers of one priority do not interleave, and entries take turns: for any buffers as long as the entry in
    question keeps its most urgent priority, and always for buffers that send at a single priority. */
module Turns {
  import opened Lists
  import opened Wrappers
  import opened Priorities
  import opened Scheduler
  import opened SchedulerRuns
  import opened RoundRobin

  // ---------------------------------------------------------------- what a step does to the buffers

  /** The entry a step asks for a frame, and what goes out. */
  datatype Doing = Doing(asked: Option<Entry>, out: Option<Emission>)

  ghost predicate Possible(m: Sched, ev: Event, d: Doing) {
    && (d.asked.Some? ==> ev.Poll? && d.asked.value in m.ready && d.asked.value in m.begun)
    && (d.out.Some? ==> d.asked == Some(d.out.value.entry))
  }

  ghost function DoingOf(m: Sched, ev: Event): (d: Doing)
    requires Indexed(m)
    ensures Possible(m, ev, d) && d.out == Emitted(m, ev)
  {
    match ev
    case Poll(mask, a) =>
      ChosenFront(m, mask);
      if Chosen(m, mask).Some? then Doing(Some(List(m.lists, Chosen(m, mask).value)[0]), Emitted(m, ev))
      else Doing(None, None)
    case _ => Doing(None, None)
  }

  /** What buffers report as ready after a step. */
  ghost function ReadyAfter(m: Sched, ev: Event, d: Doing): map<Entry, set<Priority>> {
    match ev
    case RegisterEntry(x, ready) => m.ready[x := ready]
    case UnregisterEntry(x) => m.ready - {x}
    case PushTransfer(x, ready) => m.ready[x := ready]
    case Poll(_, a) => if d.asked.Some? then m.ready[d.asked.value := a.ready] else m.ready
  }

  /** The transfers under way after a step. */
  ghost function BegunAfter(m: Sched, ev: Event, d: Doing): map<Entry, set<Priority>>
    requires Possible(m, ev, d)
  {
    match ev
    case RegisterEntry(x, _) => m.begun[x := {}]
    case UnregisterEntry(x) => m.begun - {x}
    case PushTransfer(_, _) => m.begun
    case Poll(_, _) =>
      match d.out
      case None => m.begun
      case Some(Emission(x, q, eot)) => m.begun[x := if eot then m.begun[x] - {q} else m.begun[x] + {q}]
  }

  /** `r` is the state after `ev` as far as its buffers go. */
  ghost predicate BuffersAfter(m: Sched, ev: Event, d: Doing, r: Sched) {
    && m.ready.Keys == m.begun.Keys && r.ready.Keys == r.begun.Keys && Allowed(m, ev) && Possible(m, ev, d)
    && r.ready == ReadyAfter(m, ev, d) && r.begun == BegunAfter(m, ev, d)
  }

  lemma StepBuffers(m: Sched, ev: Event)
    requires Indexed(m) && Allowed(m, ev)
    ensures Indexed(Apply(m, ev)) && BuffersAfter(m, ev, DoingOf(m, ev), Apply(m, ev))
  {
    StepIndexed(m, ev);
    StepMaps(m, ev);
  }

  lemma StepMaps(m: Sched, ev: Event)
    requires Indexed(m) && Allowed(m, ev)
    ensures Apply(m, ev).ready == ReadyAfter(m, ev, DoingOf(m, ev))
    ensures Apply(m, ev).begun == BegunAfter(m, ev, DoingOf(m, ev))
  {
    match ev
    case RegisterEntry(x, ready) => PlacedBuffers(m.(ready := m.ready[x := ready], begun := m.begun[x := {}]), x);
    case UnregisterEntry(x) =>
    case PushTransfer(x, ready) => PlacedBuffers(m.(ready := m.ready[x := ready]), x);
    case Poll(mask, a) => PollMaps(m, mask, a);
  }

  lemma PollMaps(m: Sched, mask: set<Priority>, a: Answer)
    requires Indexed(m)
    ensures CanPop(m, mask)
    ensures var (r, ev) := (PollPop(m, mask, a).0, Poll(mask, a));
      r.ready == ReadyAfter(m, ev, DoingOf(m, ev)) && r.begun == BegunAfter(m, ev, DoingOf(m, ev))
  {
    ChosenFront(m, mask);
    if Chosen(m, mask).Some? {
      PollBuffers(m, mask, a);
    }
  }

  lemma PlacedBuffers(m: Sched, x: Entry)
    requires x in m.ready && x in m.begun
    ensures UpdatePosition(m, x).ready == m.ready && UpdatePosition(m, x).begun == m.begun
  {
  }

  lemma PollBuffers(m: Sched, mask: set<Priority>, a: Answer)
    requires Indexed(m) && CanPop(m, mask) && Chosen(m, mask).Some?
    ensures var (r, id) := (PollPop(m, mask, a).0, Chosen(m, mask).value);
      var x := List(m.lists, id)[0];
      && r.ready == m.ready[x := a.ready]
      && (a.frame == None ==> r.begun == m.begun)
      && (a.frame.Some? ==>
            r.begun == m.begun[x := if a.frame.value then m.begun[x] - {id.priority} else m.begun[x] + {id.priority}])
  {
    match a.frame
    case None => SilentBuffers(m, mask, a);
    case Some(eot) => FrameBuffers(m.(ready := m.ready[List(m.lists, Chosen(m, mask).value)[0] := a.ready]),
                                   List(m.lists, Chosen(m, mask).value)[0], Chosen(m, mask).value.priority, eot);
  }

  lemma SilentBuffers(m: Sched, mask: set<Priority>, a: Answer)
    requires Indexed(m) && CanPop(m, mask) && Chosen(m, mask).Some? && a.frame == None
    ensures var r, x := PollPop(m, mask, a).0, List(m.lists, Chosen(m, mask).value)[0];
      r.ready == m.ready[x := a.ready] && r.begun == m.begun
  {
    var x := List(m.lists, Chosen(m, mask).value)[0];
    SilentPoll(m, mask, a);
    UpdateRight(m.(ready := m.ready[x := a.ready]), x);
  }

  /** Whether `x` is in the middle of a transfer at `p` after a step. */
  ghost predicate StillUnderWay(m: Sched, ev: Event, out: Option<Emission>, p: Priority, x: Entry)
    requires m.ready.Keys == m.begun.Keys
  {
    && (x in InTransfer(m, p) || out == Some(Emission(x, p, false)))
    && out != Some(Emission(x, p, true)) && ev != UnregisterEntry(x)
  }

  lemma TransferAfter(m: Sched, ev: Event, d: Doing, r: Sched, p: Priority, x: Entry)
    requires BuffersAfter(m, ev, d, r)
    ensures x in InTransfer(r, p) <==> StillUnderWay(m, ev, d.out, p, x)
  {
    match ev
    case RegisterEntry(y, _) =>
    case UnregisterEntry(y) =>
    case PushTransfer(y, _) =>
    case Poll(_, _) =>
      match d.out
      case None =>
      case Some(Emission(y, q, eot)) =>
  }

  /** Only its own frames and its removal change whether an entry is in the middle of a transfer at `p`. */
  lemma TransfersAfter(m: Sched, ev: Event, d: Doing, r: Sched, p: Priority)
    requires BuffersAfter(m, ev, d, r)
    ensures forall x :: x in InTransfer(r, p) <==> StillUnderWay(m, ev, d.out, p, x)
  {
    forall x ensures x in InTransfer(r, p) <==> StillUnderWay(m, ev, d.out, p, x) {
      TransferAfter(m, ev, d, r, p, x);
    }
  }

  // ---------------------------------------------------------------- who sends at a priority

  /** A finished list is chosen only when the started list of its priority is empty. */
  lemma StartedFirst(m: Sched, mask: set<Priority>)
    requires Indexed(m) && Chosen(m, mask).Some? && Chosen(m, mask).value.kind.Finished?
    ensures StartedList(m, Chosen(m, mask).value.priority) == []
  {
    var p := Chosen(m, mask).value.priority;
    ChosenFront(m, mask);
    assert FlagRight(m.lists, m.flags, QueueId(p, Started));
    assert FlaggedAs(m.flags, Started, p) ==> p in FlaggedPriorities(m.flags, Started) * mask;
  }

  /** An entry is in the list of its most urgent ready priority, in the started one when in the middle of a transfer. */
  lemma ListedAt(m: Sched, x: Entry, p: Priority)
    requires Indexed(m) && x in m.ready
    ensures x in StartedList(m, p) <==> First(m.ready[x]) == Some(p) && p in m.begun[x]
    ensures x in FinishedList(m, p) <==> First(m.ready[x]) == Some(p) && p !in m.begun[x]
  {
    assert Placed(m, x);
    MarkedIff(m, x, QueueId(p, Started));
    MarkedIff(m, x, QueueId(p, Finished));
  }

  lemma MarkedIff(m: Sched, x: Entry, id: QueueId)
    requires Indexed(m)
    ensures x in List(m.lists, id) <==> MarkOf(m, x) == Some(id)
  {
    var q := List(m.lists, id);
    assert ListRight(q, id, m.marks);
    if x in q {
      assert MarkedAs(q, id, m.marks, Find(q, x));
    }
    if MarkOf(m, x) == Some(id) {
      assert InList(m.lists, m.marks[x], x);
    }
  }

  /** The asked entry is in the list chosen. */
  lemma AskedAt(m: Sched, mask: set<Priority>)
    requires Indexed(m) && Chosen(m, mask).Some?
    ensures CanPop(m, mask)
    ensures var x, p := List(m.lists, Chosen(m, mask).value)[0], Chosen(m, mask).value.priority;
      First(m.ready[x]) == Some(p) && (x in StartedList(m, p) || (x in FinishedList(m, p) && StartedList(m, p) == []))
  {
    ChosenFront(m, mask);
    var id := Chosen(m, mask).value;
    ListedAt(m, List(m.lists, id)[0], id.priority);
    if id.kind.Finished? {
      StartedFirst(m, mask);
    }
  }

  predicate IsOther(out: Option<Emission>, e: Entry, p: Priority) {
    out.Some? && out.value.priority == p && out.value.entry != e
  }

  /** Another entry sends at `p`. */
  ghost predicate OtherSends(m: Sched, ev: Event, e: Entry, p: Priority)
    requires Indexed(m)
  {
    IsOther(Emitted(m, ev), e, p)
  }

  /** While an entry in the middle of a transfer at `p` is ready there, only such entries are asked at `p`. */
  lemma AskedIsUnderWay(m: Sched, mask: set<Priority>, e: Entry, p: Priority)
    requires Indexed(m) && e in m.ready && p in m.begun[e] && First(m.ready[e]) == Some(p)
    requires Chosen(m, mask).Some? && Chosen(m, mask).value.priority == p
    ensures CanPop(m, mask) && p in m.begun[List(m.lists, Chosen(m, mask).value)[0]]
  {
    ListedAt(m, e, p);
    AskedAt(m, mask);
    ListedAt(m, List(m.lists, Chosen(m, mask).value)[0], p);
  }

  /** The one entry in the middle of a transfer at `p` is asked at `p` while that is its most urgent ready priority. */
  lemma OnlyItsOwn(m: Sched, ev: Event, e: Entry, p: Priority)
    requires Indexed(m) && InTransfer(m, p) == {e} && First(m.ready[e]) == Some(p)
    ensures !OtherSends(m, ev, e, p)
  {
    assert e in InTransfer(m, p);
    if ev.Poll? && Chosen(m, ev.mask).Some? && Chosen(m, ev.mask).value.priority == p {
      AskedIsUnderWay(m, ev.mask, e, p);
      assert List(m.lists, Chosen(m, ev.mask).value)[0] in InTransfer(m, p);
    }
  }

  /** Who sends at a priority has it as its most urgent ready one. */
  lemma SenderAt(m: Sched, ev: Event)
    requires Indexed(m) && Emitted(m, ev).Some?
    ensures var x, p := Emitted(m, ev).value.entry, Emitted(m, ev).value.priority;
      x in m.ready && First(m.ready[x]) == Some(p)
  {
    ChosenFront(m, ev.mask);
    AskedAt(m, ev.mask);
  }

  /** `p` is not the most urgent ready priority of `e`, but is that of some other entry. */
  ghost predicate OtherIsReady(m: Sched, e: Entry, p: Priority) {
    && e in m.ready && First(m.ready[e]) != Some(p)
    && exists x :: x in m.ready && First(m.ready[x]) == Some(p)
  }

  lemma SendsIfReady(m: Sched, ev: Event, e: Entry, p: Priority)
    requires Indexed(m) && InTransfer(m, p) == {e} && OtherSends(m, ev, e, p)
    ensures OtherIsReady(m, e, p)
  {
    assert e in InTransfer(m, p);
    SenderAt(m, ev);
    if First(m.ready[e]) == Some(p) {
      OnlyItsOwn(m, ev, e, p);
    }
  }

  /** Exactly when another entry can send in the middle of a transfer: some poll lets another entry send at `p` if
      and only if `p` is not the most urgent ready priority of the entry in the middle of its transfer, but is that
      of some other entry. */
  lemma InterleavesIff(m: Sched, e: Entry, p: Priority)
    requires Indexed(m) && InTransfer(m, p) == {e}
    ensures (exists mask, a :: OtherSends(m, Poll(mask, a), e, p)) <==> OtherIsReady(m, e, p)
  {
    forall mask, a | OtherSends(m, Poll(mask, a), e, p) ensures OtherIsReady(m, e, p) {
      SendsIfReady(m, Poll(mask, a), e, p);
    }
    if OtherIsReady(m, e, p) {
      OtherIsAsked(m, e, p);
    }
  }

  lemma OtherIsAsked(m: Sched, e: Entry, p: Priority)
    requires Indexed(m) && OtherIsReady(m, e, p)
    ensures OtherSends(m, Poll({p}, Answer(Some(true), {})), e, p)
  {
    var x :| x in m.ready && First(m.ready[x]) == Some(p);
    ChosenIffReady(m, {p});
    AskedAt(m, {p});
    ChosenFront(m, {p});
  }

  // ---------------------------------------------------------------- no interleaving

  /** The buffer of `x` keeps `p` as its most urgent priority, unless its transfer at `p` ends. */
  ghost predicate Keeps(ev: Event, d: Doing, x: Entry, p: Priority) {
    match ev
    case PushTransfer(y, ready) => y == x ==> First(ready) == Some(p)
    case Poll(_, a) => d.asked == Some(x) && d.out != Some(Emission(x, p, true)) ==> First(a.ready) == Some(p)
    case _ => true
  }

  ghost predicate KeepsFirst(m: Sched, ev: Event, x: Entry, p: Priority)
    requires Indexed(m)
  {
    Keeps(ev, DoingOf(m, ev), x, p)
  }

  /** What an entry in the middle of a transfer needs to stay first is exactly that. */
  lemma StaysFirst(m: Sched, ev: Event, d: Doing, r: Sched, x: Entry, p: Priority)
    requires BuffersAfter(m, ev, d, r) && x in m.ready && First(m.ready[x]) == Some(p)
    requires ev != UnregisterEntry(x) && d.out != Some(Emission(x, p, true))
    ensures x in r.ready
    ensures Keeps(ev, d, x, p) <==> First(r.ready[x]) == Some(p)
  {
  }

  lemma StaysFirstIff(m: Sched, ev: Event, x: Entry, p: Priority)
    requires Indexed(m) && Allowed(m, ev) && x in m.ready && First(m.ready[x]) == Some(p)
    requires ev != UnregisterEntry(x) && Emitted(m, ev) != Some(Emission(x, p, true))
    ensures x in Apply(m, ev).ready
    ensures KeepsFirst(m, ev, x, p) <==> First(Apply(m, ev).ready[x]) == Some(p)
  {
    StepBuffers(m, ev);
    StaysFirst(m, ev, DoingOf(m, ev), Apply(m, ev), x, p);
  }

  /** Nothing ends the transfer of `e` at `p` at step `k`. */
  ghost predicate GoesOn(events: seq<Event>, outputs: seq<Option<Emission>>, e: Entry, p: Priority, k: int) {
    0 <= k < |events| == |outputs| && events[k] != UnregisterEntry(e) && outputs[k] != Some(Emission(e, p, true))
  }

  ghost predicate KeepsFirstAt(m: Sched, events: seq<Event>, e: Entry, p: Priority, k: int)
    requires Indexed(m) && RunsFrom(m, events)
  {
    0 <= k < |events| ==> KeepsFirst(StateAt(m, events, k), events[k], e, p)
  }

  /** What a step of a run does, seen at that step. */
  lemma {:induction false} StepAt(m: Sched, events: seq<Event>, k: nat)
    requires Indexed(m) && RunsFrom(m, events) && k < |events|
    ensures Outputs(m, events)[k] == Emitted(StateAt(m, events, k), events[k])
    ensures StateAt(m, events, k + 1) == Apply(StateAt(m, events, k), events[k])
    decreases k
  {
    StepIndexed(m, events[0]);
    if k > 0 {
      StepAt(Apply(m, events[0]), events[1..], k - 1);
    }
  }

  /** `e` is the one entry in the middle of a transfer at `p`, and first there. */
  ghost predicate Alone(m: Sched, e: Entry, p: Priority) {
    m.ready.Keys == m.begun.Keys && InTransfer(m, p) == {e} && e in m.ready && First(m.ready[e]) == Some(p)
  }

  lemma OneUnderWay(m: Sched, ev: Event, d: Doing, r: Sched, e: Entry, p: Priority)
    requires BuffersAfter(m, ev, d, r) && InTransfer(m, p) <= {e} && !IsOther(d.out, e, p)
    requires ev != UnregisterEntry(e) && d.out != Some(Emission(e, p, true))
    requires e in InTransfer(m, p) || d.out == Some(Emission(e, p, false))
    ensures InTransfer(r, p) == {e}
  {
    TransfersAfter(m, ev, d, r, p);
    forall x ensures StillUnderWay(m, ev, d.out, p, x) <==> x == e {
    }
  }

  /** `e` is alone and first after a step that keeps it in its transfer. */
  lemma AloneAfter(m: Sched, ev: Event, d: Doing, r: Sched, e: Entry, p: Priority)
    requires BuffersAfter(m, ev, d, r) && InTransfer(m, p) <= {e} && !IsOther(d.out, e, p)
    requires ev != UnregisterEntry(e) && d.out != Some(Emission(e, p, true))
    requires e in InTransfer(m, p) || d.out == Some(Emission(e, p, false))
    requires e in m.ready && First(m.ready[e]) == Some(p) && Keeps(ev, d, e, p)
    ensures Alone(r, e, p)
  {
    StaysFirst(m, ev, d, r, e, p);
    OneUnderWay(m, ev, d, r, e, p);
  }

  lemma StillAlone(m: Sched, ev: Event, e: Entry, p: Priority)
    requires Indexed(m) && Alone(m, e, p) && Allowed(m, ev)
    requires ev != UnregisterEntry(e) && Emitted(m, ev) != Some(Emission(e, p, true)) && KeepsFirst(m, ev, e, p)
    ensures Alone(Apply(m, ev), e, p)
  {
    assert e in InTransfer(m, p);
    OnlyItsOwn(m, ev, e, p);
    StepBuffers(m, ev);
    AloneAfter(m, ev, DoingOf(m, ev), Apply(m, ev), e, p);
  }

  /** A frame that does not end its transfer leaves its entry in the middle of it, first at `p`. */
  lemma StartsTransfer(m: Sched, ev: Event, e: Entry, p: Priority)
    requires Indexed(m) && Allowed(m, ev) && Emitted(m, ev) == Some(Emission(e, p, false))
    requires InTransfer(m, p) <= {e} && KeepsFirst(m, ev, e, p)
    ensures Alone(Apply(m, ev), e, p)
  {
    SenderAt(m, ev);
    StepBuffers(m, ev);
    AloneAfter(m, ev, DoingOf(m, ev), Apply(m, ev), e, p);
  }

  /** At step `i` the entry `e` begins or goes on with the only transfer at `p`, and keeps `p` first. */
  ghost predicate BeginsAt(m: Sched, events: seq<Event>, e: Entry, p: Priority, i: nat)
    requires Indexed(m) && RunsFrom(m, events)
  {
    && i < |events| && Outputs(m, events)[i] == Some(Emission(e, p, false))
    && InTransfer(StateAt(m, events, i), p) <= {e} && KeepsFirstAt(m, events, e, p, i)
  }

  lemma StartsAt(m: Sched, events: seq<Event>, i: nat, e: Entry, p: Priority)
    requires Indexed(m) && RunsFrom(m, events)
    ensures BeginsAt(m, events, e, p, i) ==> AloneAt(m, events, e, p, i + 1)
  {
    if BeginsAt(m, events, e, p, i) {
      StepAt(m, events, i);
      StartsTransfer(StateAt(m, events, i), events[i], e, p);
    }
  }

  /** From step `i` to before step `j` the transfer of `e` at `p` goes on, and `e` keeps `p` first. */
  ghost predicate GoesOnBetween(m: Sched, events: seq<Event>, e: Entry, p: Priority, i: nat, j: nat)
    requires Indexed(m) && RunsFrom(m, events)
  {
    forall k :: i <= k < j ==> GoesOn(events, Outputs(m, events), e, p, k) && KeepsFirstAt(m, events, e, p, k)
  }

  /** At step `k` the entry `e` is the one in a transfer at `p`. */
  ghost predicate AloneAt(m: Sched, events: seq<Event>, e: Entry, p: Priority, k: nat)
    requires Indexed(m) && RunsFrom(m, events)
  {
    k <= |events| && Alone(StateAt(m, events, k), e, p)
  }

  lemma AloneNext(m: Sched, events: seq<Event>, i: nat, j: nat, k: nat, e: Entry, p: Priority)
    requires Indexed(m) && RunsFrom(m, events) && i <= k < j <= |events|
    ensures AloneAt(m, events, e, p, k) && GoesOnBetween(m, events, e, p, i, j) ==> AloneAt(m, events, e, p, k + 1)
  {
    StepAt(m, events, k);
    if AloneAt(m, events, e, p, k) && GoesOnBetween(m, events, e, p, i, j) {
      assert GoesOn(events, Outputs(m, events), e, p, k) && KeepsFirstAt(m, events, e, p, k);
      StillAlone(StateAt(m, events, k), events[k], e, p);
    }
  }

  lemma {:induction false} StaysAlone(m: Sched, events: seq<Event>, i: nat, j: nat, k: nat, e: Entry, p: Priority)
    requires Indexed(m) && RunsFrom(m, events) && i <= k <= j <= |events|
    ensures AloneAt(m, events, e, p, i) && GoesOnBetween(m, events, e, p, i, j) ==> AloneAt(m, events, e, p, k)
    decreases k
  {
    if i < k && AloneAt(m, events, e, p, i) && GoesOnBetween(m, events, e, p, i, j) {
      StaysAlone(m, events, i, j, k - 1, e, p);
      AloneNext(m, events, i, j, k - 1, e, p);
    }
  }

  lemma OthersSilent(m: Sched, events: seq<Event>, j: nat, e: Entry, p: Priority)
    requires Indexed(m) && RunsFrom(m, events) && j < |events|
    ensures AloneAt(m, events, e, p, j) ==> !IsOther(Outputs(m, events)[j], e, p)
  {
    if AloneAt(m, events, e, p, j) {
      StepAt(m, events, j);
      OnlyItsOwn(StateAt(m, events, j), events[j], e, p);
    }
  }

  /** While `e` is the one in a transfer at `p` and keeps it first, every frame at `p` is its own. */
  lemma StaysInTransfer(m: Sched, events: seq<Event>, i: nat, j: nat, e: Entry, p: Priority)
    requires Indexed(m) && RunsFrom(m, events) && i <= j < |events|
    ensures AloneAt(m, events, e, p, i) && GoesOnBetween(m, events, e, p, i, j) ==>
      !IsOther(Outputs(m, events)[j], e, p)
  {
    StaysAlone(m, events, i, j, j, e, p);
    OthersSilent(m, events, j, e, p);
  }

  lemma OnceBegun(m: Sched, events: seq<Event>, i: nat, j: nat, e: Entry, p: Priority)
    requires Indexed(m) && RunsFrom(m, events) && i < j < |events|
    ensures BeginsAt(m, events, e, p, i) && GoesOnBetween(m, events, e, p, i + 1, j) ==>
      !IsOther(Outputs(m, events)[j], e, p)
  {
    if BeginsAt(m, events, e, p, i) && GoesOnBetween(m, events, e, p, i + 1, j) {
      StartsAt(m, events, i, e, p);
      StaysInTransfer(m, events, i + 1, j, e, p);
    }
  }

  /** No interleaving within a priority, for any buffers: from a frame of `e` at `p` that does not end its transfer,
      nobody else being in the middle of one there, to the end of that transfer or the removal of `e`, every frame at
      `p` is from `e`, provided each push to and answer of `e` keeps `p` its most urgent priority. */
  lemma NoInterleaving(m: Sched, events: seq<Event>, i: nat, j: nat, e: Entry, p: Priority)
    requires Indexed(m) && RunsFrom(m, events) && i < j < |events|
    requires BeginsAt(m, events, e, p, i) && GoesOnBetween(m, events, e, p, i + 1, j)
    ensures !IsOther(Outputs(m, events)[j], e, p)
  {
    OnceBegun(m, events, i, j, e, p);
  }

  // ---------------------------------------------------------------- one transfer at a time

  /** At most one entry is in the middle of a transfer at `p`, and `p` is its most urgent ready priority. */
  ghost predicate Steady(m: Sched, p: Priority) {
    && Indexed(m)
    && forall x, y :: x in InTransfer(m, p) && y in InTransfer(m, p) ==> x == y && First(m.ready[x]) == Some(p)
  }

  /** Every entry in the middle of a transfer at `p`, or beginning one, keeps `p` its most urgent priority. */
  ghost predicate AllKeepFirst(m: Sched, ev: Event, p: Priority)
    requires Indexed(m)
  {
    && (forall x :: x in InTransfer(m, p) ==> KeepsFirst(m, ev, x, p))
    && match Emitted(m, ev)
       case Some(Emission(x, q, eot)) => q == p && !eot ==> KeepsFirst(m, ev, x, p)
       case None => true
  }

  lemma StepSteady(m: Sched, ev: Event, p: Priority)
    requires Steady(m, p) && Allowed(m, ev) && AllKeepFirst(m, ev, p)
    ensures Steady(Apply(m, ev), p)
  {
    StepBuffers(m, ev);
    SteadyAfter(m, ev, DoingOf(m, ev), Apply(m, ev), p);
  }

  lemma SteadyAfter(m: Sched, ev: Event, d: Doing, r: Sched, p: Priority)
    requires Steady(m, p) && Allowed(m, ev) && AllKeepFirst(m, ev, p)
    requires d == DoingOf(m, ev) && BuffersAfter(m, ev, d, r) && Indexed(r)
    ensures Steady(r, p)
  {
    TransfersAfter(m, ev, d, r, p);
    forall x, y | x in InTransfer(r, p) && y in InTransfer(r, p) ensures x == y && First(r.ready[x]) == Some(p) {
      assert StillUnderWay(m, ev, d.out, p, x) && StillUnderWay(m, ev, d.out, p, y);
      OnlyOneLeft(m, ev, p, x, y);
      StaysFirst(m, ev, d, r, x, p);
    }
  }

  /** Nobody begins a transfer at `p` while another entry is in the middle of one. */
  lemma OnlyOneLeft(m: Sched, ev: Event, p: Priority, x: Entry, y: Entry)
    requires Steady(m, p) && Allowed(m, ev)
    requires x in InTransfer(m, p) || Emitted(m, ev) == Some(Emission(x, p, false))
    requires y in InTransfer(m, p) || Emitted(m, ev) == Some(Emission(y, p, false))
    ensures x == y && x in m.ready && First(m.ready[x]) == Some(p)
  {
    if x in InTransfer(m, p) {
      assert InTransfer(m, p) == {x};
      OnlyItsOwn(m, ev, x, p);
    } else {
      SenderAt(m, ev);
      if y in InTransfer(m, p) {
        assert InTransfer(m, p) == {y};
        OnlyItsOwn(m, ev, y, p);
      }
    }
  }

  ghost predicate AllKeepFirstAlways(m: Sched, events: seq<Event>, p: Priority)
    requires Indexed(m) && RunsFrom(m, events)
    decreases |events|
  {
    events == []
    || (AllKeepFirst(m, events[0], p)
        && (StepIndexed(m, events[0]); AllKeepFirstAlways(Apply(m, events[0]), events[1..], p)))
  }

  lemma IdleIsSteady(p: Priority)
    ensures Steady(IDLE, p)
  {
    IdleIsGood();
  }

  lemma {:induction false} RunSteady(m: Sched, events: seq<Event>, p: Priority)
    requires Steady(m, p) && RunsFrom(m, events) && AllKeepFirstAlways(m, events, p)
    ensures Steady(RunTo(m, events), p)
    decreases |events|
  {
    if events != [] {
      StepSteady(m, events[0], p);
      RunSteady(Apply(m, events[0]), events[1..], p);
    }
  }

  lemma StartedAreInTransfer(m: Sched, p: Priority)
    requires Indexed(m)
    ensures |StartedList(m, p)| <= |InTransfer(m, p)|
  {
    var q := StartedList(m, p);
    assert ListRight(q, QueueId(p, Started), m.marks);
    forall x | x in q ensures x in InTransfer(m, p) {
      MarkedIff(m, x, QueueId(p, Started));
      ListedAt(m, x, p);
    }
    DistinctSize(q, InTransfer(m, p));
  }

  lemma SteadySize(m: Sched, p: Priority)
    requires Steady(m, p)
    ensures |InTransfer(m, p)| <= 1 && |StartedList(m, p)| <= 1
  {
    var s := InTransfer(m, p);
    if s != {} {
      var x :| x in s;
      assert s == {x};
    }
    StartedAreInTransfer(m, p);
  }

  /** At most one transfer is under way at a priority after every run of a new scheduler in which entries in the
      middle of one keep it first. */
  lemma AtMostOneStarted(events: seq<Event>, p: Priority)
    requires IsRun(events) && Indexed(IDLE) && AllKeepFirstAlways(IDLE, events, p)
    ensures Steady(RunTo(IDLE, events), p) && |StartedList(RunTo(IDLE, events), p)| <= 1
  {
    IdleIsSteady(p);
    RunSteady(IDLE, events, p);
    SteadySize(RunTo(IDLE, events), p);
  }

  lemma {:induction false} SteadyAt(m: Sched, events: seq<Event>, p: Priority, k: nat)
    requires Indexed(m) && RunsFrom(m, events) && AllKeepFirstAlways(m, events, p) && k <= |events|
    ensures Steady(m, p) ==> Steady(StateAt(m, events, k), p)
    decreases k
  {
    if k > 0 && Steady(m, p) {
      StepSteady(m, events[0], p);
      SteadyAt(Apply(m, events[0]), events[1..], p, k - 1);
    }
  }

  /** Only the end of its transfer or its removal takes an entry out of a transfer. */
  lemma StaysUnderWay(m: Sched, ev: Event, e: Entry, p: Priority)
    requires Indexed(m) && Allowed(m, ev) && ev != UnregisterEntry(e) && Emitted(m, ev) != Some(Emission(e, p, true))
    requires e in InTransfer(m, p) || Emitted(m, ev) == Some(Emission(e, p, false))
    ensures Indexed(Apply(m, ev)) && e in InTransfer(Apply(m, ev), p)
  {
    StepBuffers(m, ev);
    TransferAfter(m, ev, DoingOf(m, ev), Apply(m, ev), p, e);
  }

  /** At step `k` the entry `e` is in a transfer at `p`. */
  ghost predicate UnderWay(m: Sched, events: seq<Event>, e: Entry, p: Priority, k: nat)
    requires Indexed(m) && RunsFrom(m, events)
  {
    k <= |events| && e in InTransfer(StateAt(m, events, k), p)
  }

  lemma UnderWayNext(m: Sched, events: seq<Event>, k: nat, e: Entry, p: Priority)
    requires Indexed(m) && RunsFrom(m, events) && k < |events|
    ensures UnderWay(m, events, e, p, k) && GoesOn(events, Outputs(m, events), e, p, k) ==>
      UnderWay(m, events, e, p, k + 1)
    ensures Outputs(m, events)[k] == Some(Emission(e, p, false)) ==> UnderWay(m, events, e, p, k + 1)
  {
    StepAt(m, events, k);
    if Outputs(m, events)[k] == Some(Emission(e, p, false))
      || (UnderWay(m, events, e, p, k) && GoesOn(events, Outputs(m, events), e, p, k)) {
      StaysUnderWay(StateAt(m, events, k), events[k], e, p);
    }
  }

  lemma {:induction false} UnderWayAt(m: Sched, events: seq<Event>, i: nat, j: nat, e: Entry, p: Priority)
    requires Indexed(m) && RunsFrom(m, events) && i <= j <= |events|
    requires forall k :: i <= k < j ==> GoesOn(events, Outputs(m, events), e, p, k)
    ensures UnderWay(m, events, e, p, i) ==> UnderWay(m, events, e, p, j)
    decreases j - i
  {
    if i < j {
      UnderWayNext(m, events, i, e, p);
      UnderWayAt(m, events, i + 1, j, e, p);
    }
  }

  lemma SteadySilent(m: Sched, events: seq<Event>, j: nat, e: Entry, p: Priority)
    requires Indexed(m) && RunsFrom(m, events) && AllKeepFirstAlways(m, events, p) && j < |events|
    ensures Steady(m, p) && UnderWay(m, events, e, p, j) ==> !IsOther(Outputs(m, events)[j], e, p)
  {
    var s := StateAt(m, events, j);
    SteadyAt(m, events, p, j);
    StepAt(m, events, j);
    if Steady(s, p) && e in InTransfer(s, p) {
      assert InTransfer(s, p) == {e};
      OnlyItsOwn(s, events[j], e, p);
    }
  }

  /** No interleaving when every entry in the middle of a transfer at `p` keeps it first: from a frame of `e` at `p`
      that does not end its transfer to the end of it or the removal of `e`, every frame at `p` is from `e`. */
  lemma SteadyNoInterleaving(m: Sched, events: seq<Event>, i: nat, j: nat, e: Entry, p: Priority)
    requires Steady(m, p) && RunsFrom(m, events) && AllKeepFirstAlways(m, events, p) && i < j < |events|
    requires Outputs(m, events)[i] == Some(Emission(e, p, false))
    requires forall k :: i < k < j ==> GoesOn(events, Outputs(m, events), e, p, k)
    ensures !IsOther(Outputs(m, events)[j], e, p)
  {
    UnderWayNext(m, events, i, e, p);
    UnderWayAt(m, events, i + 1, j, e, p);
    SteadySilent(m, events, j, e, p);
  }
}
