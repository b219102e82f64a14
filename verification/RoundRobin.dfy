/** Taking turns: a bound for any buffers as long as the waiting entry stays where it waits. */
module RoundRobin {
  import opened Lists
  import opened Wrappers
  import opened Priorities
  import opened Scheduler
  import opened SchedulerRuns

  function StartedList(m: Sched, p: Priority): seq<Entry> {
    List(m.lists, QueueId(p, Started))
  }

  function FinishedList(m: Sched, p: Priority): seq<Entry> {
    List(m.lists, QueueId(p, Finished))
  }

  // ---------------------------------------------------------------- places in a list

  ghost predicate Before(q: seq<Entry>, x: Entry, e: Entry) {
    x in q && e in q && Find(q, x) < Find(q, e)
  }

  /** `x` left the list, or stayed, or is at its end. */
  ghost predicate Moved(q: seq<Entry>, r: seq<Entry>, x: Entry) {
    r == q || r == Without(q, x) || r == Without(q, x) + [x]
  }

  lemma FindAt(q: seq<Entry>, k: nat)
    requires NoRepeats(q) && k < |q|
    ensures Find(q, q[k]) == k
  {
    assert q[Find(q, q[k])] == q[k];
  }

  lemma WithoutOrder(q: seq<Entry>, x: Entry, e: Entry)
    requires NoRepeats(q) && e in q && x != e
    ensures NoRepeats(Without(q, x)) && e in Without(q, x) && x !in Without(q, x)
    ensures forall y :: Before(Without(q, x), y, e) ==> Before(q, y, e)
  {
    WithoutKeeps(q, x);
    if x in q {
      var k, r := Find(q, x), Without(q, x);
      forall y | y in r ensures Find(r, y) == if Find(q, y) < k then Find(q, y) else Find(q, y) - 1 {
        FindAt(r, if Find(q, y) < k then Find(q, y) else Find(q, y) - 1);
      }
    }
  }

  lemma AppendOrder(q: seq<Entry>, x: Entry, e: Entry)
    requires NoRepeats(q) && e in q && x !in q
    ensures NoRepeats(q + [x]) && e in q + [x]
    ensures forall y :: Before(q + [x], y, e) ==> Before(q, y, e)
  {
    forall y | y in q + [x] ensures Find(q + [x], y) == if y in q then Find(q, y) else |q| {
      FindAt(q + [x], if y in q then Find(q, y) else |q|);
    }
  }

  /** Nobody gets ahead of a waiting entry because another one moved. */
  lemma MovedOrder(q: seq<Entry>, r: seq<Entry>, x: Entry, e: Entry)
    requires NoRepeats(q) && Moved(q, r, x) && e in q && x != e
    ensures e in r && forall y :: Before(r, y, e) ==> Before(q, y, e)
    ensures r != q ==> !Before(r, x, e)
  {
    WithoutOrder(q, x, e);
    AppendOrder(Without(q, x), x, e);
  }

  // ---------------------------------------------------------------- what a step moves

  lemma UpdateMoves(m: Sched, x: Entry, id: QueueId)
    requires ListsRight(m.lists, m.flags, m.marks) && x in m.ready && x in m.begun
    ensures Moved(List(m.lists, id), List(UpdatePosition(m, x).lists, id), x)
  {
    UpdateList(m, x, id);
    AbsentStays(m, x, id);
  }

  lemma AbsentStays(m: Sched, x: Entry, id: QueueId)
    requires ListsRight(m.lists, m.flags, m.marks)
    ensures Rest(m, id, x) == Without(List(m.lists, id), x)
  {
    var q := List(m.lists, id);
    assert ListRight(q, id, m.marks);
    if x in q {
      assert MarkedAs(q, id, m.marks, Find(q, x));
    }
  }

  /** A frame that ends its transfer takes its entry out of the list before it is placed again. */
  lemma FrameMoves(m: Sched, x: Entry, p: Priority, eot: bool, id: QueueId)
    requires IndexedBut(m, x)
    ensures var after := AfterFrame(m, x, p, eot);
      var r := List(UpdatePosition(after, x).lists, id);
      && Moved(List(m.lists, id), r, x)
      && (eot ==> r == Without(List(m.lists, id), x) || r == Without(List(m.lists, id), x) + [x])
  {
    var q, after := List(m.lists, id), AfterFrame(m, x, p, eot);
    FrameIndexed(m, x, p, eot);
    UpdateMoves(after, x, id);
    if eot {
      var marked := m.(begun := m.begun[x := m.begun[x] - {p}]);
      DequeueList(marked, x, id);
      AbsentStays(marked, x, id);
      assert ListRight(q, id, m.marks);
      WithoutKeeps(q, x);
    }
  }

  // ---------------------------------------------------------------- who is ahead

  /** The entries that may end a transfer at `p` before waiting entry `e` is served: those in the middle of one
      and those before it in the finished list. */
  ghost function Ahead(m: Sched, p: Priority, e: Entry): set<Entry>
    requires m.ready.Keys == m.begun.Keys
  {
    set x | x in m.ready && x != e && (p in m.begun[x] || Before(FinishedList(m, p), x, e))
  }

  predicate EndsOther(out: Option<Emission>, e: Entry, p: Priority) {
    out.Some? && out.value.entry != e && out.value.priority == p && out.value.eot
  }

  /** The waiting entry stays: it is not unregistered, its buffer keeps `p` as its most urgent priority, and it
      gives no frame. */
  ghost predicate LetsWait(m: Sched, ev: Event, e: Entry, p: Priority)
    requires Indexed(m)
  {
    match ev
    case RegisterEntry(_, _) => true
    case UnregisterEntry(x) => x != e
    case PushTransfer(x, ready) => x == e ==> First(ready) == Some(p)
    case Poll(mask, a) =>
      ChosenFront(m, mask);
      Chosen(m, mask).Some? && List(m.lists, Chosen(m, mask).value)[0] == e ==>
        a.frame == None && First(a.ready) == Some(p)
  }

  /** An entry in the finished list of `p` is ready there and not in the middle of a transfer. */
  lemma WaitingIs(m: Sched, p: Priority, e: Entry)
    requires Indexed(m) && e in FinishedList(m, p)
    ensures e in m.ready && MarkOf(m, e) == Some(QueueId(p, Finished)) && p !in m.begun[e]
    ensures NoRepeats(FinishedList(m, p))
  {
    var q := FinishedList(m, p);
    assert ListRight(q, QueueId(p, Finished), m.marks);
    assert MarkedAs(q, QueueId(p, Finished), m.marks, Find(q, e));
    assert Placed(m, e);
  }

  /** The entry of a step moved, and nothing else: who was ahead before includes who is ahead after. */
  lemma MoveAhead(m: Sched, r: Sched, x: Entry, e: Entry, p: Priority)
    requires Indexed(m) && r.ready.Keys == r.begun.Keys && e in FinishedList(m, p) && x != e
    requires Moved(FinishedList(m, p), FinishedList(r, p), x)
    requires forall y :: y in r.ready && y != x ==> y in m.ready && r.begun[y] == m.begun[y]
    requires x in r.ready && p in r.begun[x] ==> x in Ahead(m, p, e)
    ensures e in FinishedList(r, p) && Ahead(r, p, e) <= Ahead(m, p, e)
  {
    WaitingIs(m, p, e);
    MovedOrder(FinishedList(m, p), FinishedList(r, p), x, e);
    forall y | y in Ahead(r, p, e) ensures y in Ahead(m, p, e) {
      if !(y == x && p in r.begun[x]) && p !in r.begun[y] {
        FoundIsReady(m, p, y);
      }
    }
  }

  lemma FoundIsReady(m: Sched, p: Priority, y: Entry)
    requires Indexed(m)
    ensures y in FinishedList(m, p) ==> y in m.ready
  {
    if y in FinishedList(m, p) {
      WaitingIs(m, p, y);
    }
  }

  /** The entry asked for a frame at `p` is ahead of every waiting entry but itself. */
  lemma ChosenAhead(m: Sched, mask: set<Priority>, e: Entry, p: Priority)
    requires Indexed(m) && Chosen(m, mask).Some? && Chosen(m, mask).value.priority == p && e in FinishedList(m, p)
    ensures CanPop(m, mask)
    ensures var x := List(m.lists, Chosen(m, mask).value)[0]; x != e ==> x in Ahead(m, p, e)
  {
    ChosenFront(m, mask);
    var id := Chosen(m, mask).value;
    var x := List(m.lists, id)[0];
    assert Placed(m, x);
    if id.kind.Finished? && x != e {
      WaitingIs(m, p, e);
      FindAt(List(m.lists, id), 0);
    }
  }

  /** An entry taken out of the finished list, or put at its end, is not before anyone in it. */
  lemma EndedIsBehind(m: Sched, r: Sched, x: Entry, e: Entry, p: Priority)
    requires Indexed(m) && r.ready.Keys == r.begun.Keys && e in FinishedList(m, p) && x != e
    requires x in r.ready ==> p !in r.begun[x]
    requires var q := FinishedList(m, p);
      FinishedList(r, p) == Without(q, x) || FinishedList(r, p) == Without(q, x) + [x]
    ensures x !in Ahead(r, p, e)
  {
    var q := FinishedList(m, p);
    WaitingIs(m, p, e);
    WithoutOrder(q, x, e);
    AppendOrder(Without(q, x), x, e);
  }

  /** A buffer reports what it has ready, and its entry is placed again. */
  lemma AskedAhead(m: Sched, x: Entry, ready: set<Priority>, e: Entry, p: Priority)
    requires Indexed(m) && x in m.ready && x != e && e in FinishedList(m, p)
    ensures var r := UpdatePosition(m.(ready := m.ready[x := ready]), x);
      r.ready.Keys == r.begun.Keys && e in FinishedList(r, p) && Ahead(r, p, e) <= Ahead(m, p, e)
  {
    var asked := m.(ready := m.ready[x := ready]);
    UpdateMoves(asked, x, QueueId(p, Finished));
    UpdateRight(asked, x);
    MoveAhead(m, UpdatePosition(asked, x), x, e, p);
  }

  lemma FrameBuffers(m: Sched, x: Entry, q: Priority, eot: bool)
    requires x in m.ready && x in m.begun
    ensures var r := UpdatePosition(AfterFrame(m, x, q, eot), x);
      r.ready == m.ready && r.begun == m.begun[x := if eot then m.begun[x] - {q} else m.begun[x] + {q}]
  {
  }

  /** What a frame of `x` at priority `q` changes, its buffer reporting `ready`. */
  ghost predicate FrameSent(m: Sched, r: Sched, x: Entry, ready: set<Priority>, q: Priority, eot: bool, p: Priority)
    requires x in m.begun
  {
    var list := FinishedList(m, p);
    && r.ready == m.ready[x := ready]
    && r.begun == m.begun[x := if eot then m.begun[x] - {q} else m.begun[x] + {q}]
    && Moved(list, FinishedList(r, p), x)
    && (eot ==> FinishedList(r, p) == Without(list, x) || FinishedList(r, p) == Without(list, x) + [x])
  }

  lemma FrameEffect(m: Sched, x: Entry, ready: set<Priority>, q: Priority, eot: bool, p: Priority)
    requires Indexed(m) && x in m.ready
    ensures var r := UpdatePosition(AfterFrame(m.(ready := m.ready[x := ready]), x, q, eot), x);
      FrameSent(m, r, x, ready, q, eot, p)
  {
    var asked := m.(ready := m.ready[x := ready]);
    AskedIndexed(m, x, ready);
    FrameMoves(asked, x, q, eot, QueueId(p, Finished));
    FrameBuffers(asked, x, q, eot);
  }

  /** Nobody gets ahead by a frame, and who ends a transfer at `p` by it is not ahead any more. */
  lemma FrameAhead(m: Sched, r: Sched, x: Entry, ready: set<Priority>, q: Priority, eot: bool, e: Entry, p: Priority)
    requires Indexed(m) && x in m.ready && x != e && e in FinishedList(m, p) && FrameSent(m, r, x, ready, q, eot, p)
    requires q == p ==> x in Ahead(m, p, e)
    ensures r.ready.Keys == r.begun.Keys && e in FinishedList(r, p) && Ahead(r, p, e) <= Ahead(m, p, e)
    ensures q == p && eot ==> x !in Ahead(r, p, e)
  {
    assert r.ready.Keys == m.ready.Keys && r.begun.Keys == m.begun.Keys;
    MoveAhead(m, r, x, e, p);
    if q == p && eot {
      EndedIsBehind(m, r, x, e, p);
    }
  }

  lemma PollAhead(m: Sched, mask: set<Priority>, a: Answer, e: Entry, p: Priority)
    requires Indexed(m) && Chosen(m, mask).Some? && e in FinishedList(m, p)
    requires CanPop(m, mask) && List(m.lists, Chosen(m, mask).value)[0] != e
    ensures var (r, out) := TryPop(m, mask, a);
      && r.ready.Keys == r.begun.Keys && e in FinishedList(r, p) && Ahead(r, p, e) <= Ahead(m, p, e)
      && (EndsOther(out, e, p) ==> out.value.entry in Ahead(m, p, e) && out.value.entry !in Ahead(r, p, e))
  {
    var id := Chosen(m, mask).value;
    var x := List(m.lists, id)[0];
    if id.priority == p {
      ChosenAhead(m, mask, e, p);
    }
    match a.frame
    case None => AskedAhead(m, x, a.ready, e, p);
    case Some(eot) =>
      FrameEffect(m, x, a.ready, id.priority, eot, p);
      FrameAhead(m, TryPop(m, mask, a).0, x, a.ready, id.priority, eot, e, p);
  }

  lemma JoinAhead(m: Sched, x: Entry, ready: set<Priority>, e: Entry, p: Priority)
    requires Indexed(m) && x !in m.ready && e in FinishedList(m, p)
    ensures var r := Register(m, x, ready);
      r.ready.Keys == r.begun.Keys && e in FinishedList(r, p) && Ahead(r, p, e) <= Ahead(m, p, e)
  {
    var joined := m.(ready := m.ready[x := ready], begun := m.begun[x := {}]);
    WaitingIs(m, p, e);
    UpdateMoves(joined, x, QueueId(p, Finished));
    UpdateRight(joined, x);
    MoveAhead(m, Register(m, x, ready), x, e, p);
  }

  lemma LeaveAhead(m: Sched, x: Entry, e: Entry, p: Priority)
    requires Indexed(m) && x in m.ready && x != e && e in FinishedList(m, p)
    ensures var r := Unregister(m, x);
      r.ready.Keys == r.begun.Keys && e in FinishedList(r, p) && Ahead(r, p, e) <= Ahead(m, p, e)
  {
    LeaveList(m, x, QueueId(p, Finished));
    AbsentStays(m, x, QueueId(p, Finished));
    MoveAhead(m, Unregister(m, x), x, e, p);
  }

  /** One step: nobody new is ahead, and whoever ends a transfer at `p` was ahead and is not any more. */
  lemma StepAhead(m: Sched, ev: Event, e: Entry, p: Priority)
    requires Indexed(m) && Allowed(m, ev) && LetsWait(m, ev, e, p) && e in FinishedList(m, p)
    ensures Indexed(Apply(m, ev)) && e in FinishedList(Apply(m, ev), p)
    ensures Ahead(Apply(m, ev), p, e) <= Ahead(m, p, e)
    ensures EndsOther(Emitted(m, ev), e, p) ==>
      var x := Emitted(m, ev).value.entry; x in Ahead(m, p, e) && x !in Ahead(Apply(m, ev), p, e)
  {
    StepIndexed(m, ev);
    WaitingIs(m, p, e);
    match ev
    case RegisterEntry(x, ready) => JoinAhead(m, x, ready, e, p);
    case UnregisterEntry(x) => LeaveAhead(m, x, e, p);
    case PushTransfer(x, ready) =>
      if x == e {
        assert Apply(m, ev) == m.(ready := m.ready[x := ready]);
      } else {
        AskedAhead(m, x, ready, e, p);
      }
    case Poll(mask, a) =>
      ChosenFront(m, mask);
      if Chosen(m, mask).Some? {
        var x := List(m.lists, Chosen(m, mask).value)[0];
        if x == e {
          assert TryPop(m, mask, a).0 == m.(ready := m.ready[e := a.ready]);
        } else {
          PollAhead(m, mask, a, e, p);
        }
      }
  }

  lemma PushedMark(m: Sched, x: Entry, ready: set<Priority>)
    requires Indexed(m) && x in m.ready
    ensures MarkOf(Push(m, x, ready), x) == Target(m.begun[x], ready)
    ensures Push(m, x, ready).begun == m.begun
  {
    PushIndexed(m, x, ready);
    UpdateRight(m.(ready := m.ready[x := ready]), x);
    assert Placed(Push(m, x, ready), x);
  }

  /** A buffer that has no frame only reports what it has ready, as after a push. */
  lemma SilentPoll(m: Sched, mask: set<Priority>, a: Answer)
    requires CanPop(m, mask) && Chosen(m, mask).Some? && a.frame == None
    ensures var r := Push(m, List(m.lists, Chosen(m, mask).value)[0], a.ready);
      PollPop(m, mask, a) == (r.(filter := mask, woken := false), None)
  {
  }

  /** What keeps an entry waiting is exactly what lets it stay in the list and silent. */
  lemma StaysIff(m: Sched, ev: Event, e: Entry, p: Priority)
    requires Indexed(m) && Allowed(m, ev) && e in FinishedList(m, p)
    ensures LetsWait(m, ev, e, p) <==>
      e in FinishedList(Apply(m, ev), p) && (Emitted(m, ev).Some? ==> Emitted(m, ev).value.entry != e)
  {
    WaitingIs(m, p, e);
    if LetsWait(m, ev, e, p) {
      StepAhead(m, ev, e, p);
      if ev.Poll? {
        ChosenFront(m, ev.mask);
      }
    } else if e in FinishedList(Apply(m, ev), p) {
      StepIndexed(m, ev);
      WaitingIs(Apply(m, ev), p, e);
      match ev
      case UnregisterEntry(x) =>
      case PushTransfer(x, ready) => PushedMark(m, e, ready);
      case Poll(mask, a) =>
        ChosenFront(m, mask);
        if a.frame == None {
          SilentPoll(m, mask, a);
          PushedMark(m, e, a.ready);
        }
    }
  }

  // ---------------------------------------------------------------- whole runs

  ghost predicate LetsWaitAll(m: Sched, events: seq<Event>, e: Entry, p: Priority)
    requires Indexed(m) && RunsFrom(m, events)
    decreases |events|
  {
    events == []
    || (LetsWait(m, events[0], e, p)
        && (StepIndexed(m, events[0]); LetsWaitAll(Apply(m, events[0]), events[1..], e, p)))
  }

  /** The entries other than `e` whose transfers end at `p`, in order. */
  function Enders(outputs: seq<Option<Emission>>, e: Entry, p: Priority): seq<Entry> {
    if outputs == [] then []
    else (if EndsOther(outputs[0], e, p) then [outputs[0].value.entry] else []) + Enders(outputs[1..], e, p)
  }

  /** Whatever the buffers do, while an entry waits in the finished list of `p` the transfers that end there are of
      different entries, all of them ahead of it from the start. */
  lemma {:induction false} EachAheadEndsOnce(m: Sched, events: seq<Event>, e: Entry, p: Priority)
    requires Indexed(m) && RunsFrom(m, events) && LetsWaitAll(m, events, e, p) && e in FinishedList(m, p)
    ensures NoRepeats(Enders(Outputs(m, events), e, p))
    ensures forall x :: x in Enders(Outputs(m, events), e, p) ==> x in Ahead(m, p, e)
    decreases |events|
  {
    if events != [] {
      var ev := events[0];
      var r := Apply(m, ev);
      StepAhead(m, ev, e, p);
      EachAheadEndsOnce(r, events[1..], e, p);
      var later := Outputs(r, events[1..]);
      assert Outputs(m, events) == [Emitted(m, ev)] + later;
      assert ([Emitted(m, ev)] + later)[1..] == later;
      OneMoreEnder(Enders(later, e, p), Ahead(r, p, e), Ahead(m, p, e), Emitted(m, ev), e, p);
    }
  }

  lemma OneMoreEnder(enders: seq<Entry>, after: set<Entry>, before: set<Entry>, out: Option<Emission>, e: Entry,
                     p: Priority)
    requires NoRepeats(enders) && after <= before && forall x :: x in enders ==> x in after
    requires EndsOther(out, e, p) ==> out.value.entry in before && out.value.entry !in after
    ensures var all := (if EndsOther(out, e, p) then [out.value.entry] else []) + enders;
      NoRepeats(all) && forall x :: x in all ==> x in before
  {
    if EndsOther(out, e, p) {
      var all := [out.value.entry] + enders;
      assert forall i :: 0 < i < |all| ==> all[i] == enders[i - 1] && all[i] in enders;
    }
  }

  lemma SubsetSize(a: set<Entry>, b: set<Entry>)
    requires a <= b
    ensures |a| <= |b|
  {
    assert b == a + (b - a);
  }

  lemma {:induction false} DistinctSize(q: seq<Entry>, s: set<Entry>)
    requires NoRepeats(q) && forall x :: x in q ==> x in s
    ensures |q| <= |s|
  {
    if q != [] {
      assert forall x :: x in q[1..] ==> x in q;
      assert forall i :: 0 <= i < |q[1..]| ==> q[1..][i] == q[i + 1] != q[0];
      DistinctSize(q[1..], s - {q[0]});
    }
  }

  // ---------------------------------------------------------------- how many are ahead

  ghost function InTransfer(m: Sched, p: Priority): set<Entry>
    requires m.ready.Keys == m.begun.Keys
  {
    set x | x in m.ready && p in m.begun[x]
  }

  ghost function EntriesOf(q: seq<Entry>): set<Entry> {
    set x | x in q
  }

  lemma {:induction false} FirstMembers(q: seq<Entry>, k: nat)
    requires k <= |q|
    ensures |EntriesOf(q[..k])| <= k
  {
    if k > 0 {
      FirstMembers(q, k - 1);
      assert q[..k] == q[..k - 1] + [q[k - 1]];
      assert EntriesOf(q[..k]) == EntriesOf(q[..k - 1]) + {q[k - 1]};
    }
  }

  /** Those ahead are no more than the position in the list and the transfers under way. */
  lemma AheadBound(m: Sched, p: Priority, e: Entry)
    requires Indexed(m) && e in FinishedList(m, p)
    ensures |Ahead(m, p, e)| <= Find(FinishedList(m, p), e) + |InTransfer(m, p)|
  {
    var q := FinishedList(m, p);
    var k := Find(q, e);
    var front := EntriesOf(q[..k]);
    forall x | x in Ahead(m, p, e) ensures x in front + InTransfer(m, p) {
      if p !in m.begun[x] {
        assert q[..k][Find(q, x)] == x;
      }
    }
    SubsetSize(Ahead(m, p, e), front + InTransfer(m, p));
    FirstMembers(q, k);
  }

  /** Round-robin bound: an entry at position k of the finished list of `p` that stays there sees at most k transfers
      of others end at `p`, and one for each transfer under way there. */
  lemma RoundRobinBound(m: Sched, events: seq<Event>, e: Entry, p: Priority)
    requires Indexed(m) && RunsFrom(m, events) && LetsWaitAll(m, events, e, p) && e in FinishedList(m, p)
    ensures |Enders(Outputs(m, events), e, p)| <= Find(FinishedList(m, p), e) + |InTransfer(m, p)|
  {
    EachAheadEndsOnce(m, events, e, p);
    DistinctSize(Enders(Outputs(m, events), e, p), Ahead(m, p, e));
    AheadBound(m, p, e);
  }
}
