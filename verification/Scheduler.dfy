/** The transmit scheduler: which buffer the hub takes the next frame from. */
module Scheduler {
  import opened Lists
  import opened Wrappers
  import opened Priorities

  datatype QueueType = Started | Finished

  datatype QueueId = QueueId(priority: Priority, kind: QueueType)

  /** An endpoint's place in the scheduler. */
  class Entry {
    var queueMark: Option<QueueId>
    var started: set<Priority>
    /** What the buffer of the endpoint reports as ready to pop. */
    var readiness: set<Priority>

    constructor (readiness: set<Priority>)
      ensures queueMark == None && started == {} && this.readiness == readiness
    {
      queueMark, started, this.readiness := None, {}, readiness;
    }
  }

  /** Lists, their non-empty flags, the marks in the entries, the transfers begun, the buffers, the waiting hub. */
  datatype Sched = Sched(
    lists: map<QueueId, seq<Entry>>,
    flags: set<QueueId>,
    marks: map<Entry, QueueId>,
    begun: map<Entry, set<Priority>>,
    ready: map<Entry, set<Priority>>,
    filter: set<Priority>,
    woken: bool)

  const IDLE: Sched := Sched(map[], {}, map[], map[], map[], {}, false)

  function List(lists: map<QueueId, seq<Entry>>, id: QueueId): seq<Entry> {
    if id in lists then lists[id] else []
  }

  function Dequeue(m: Sched, e: Entry): Sched {
    if e !in m.marks then m
    else
      var id := m.marks[e];
      var rest := Without(List(m.lists, id), e);
      m.(lists := m.lists[id := rest], flags := if rest == [] then m.flags - {id} else m.flags, marks := m.marks - {e})
  }

  function MoveBack(m: Sched, id: QueueId, e: Entry): Sched {
    var d := Dequeue(m, e);
    d.(lists := d.lists[id := List(d.lists, id) + [e]], flags := d.flags + {id}, marks := d.marks[e := id])
  }

  function Wake(m: Sched, priorities: set<Priority>): Sched {
    m.(woken := m.woken || priorities * m.filter != {})
  }

  /** The list an entry belongs in: that of its most urgent ready priority. */
  function Target(begun: set<Priority>, ready: set<Priority>): Option<QueueId> {
    match First(ready)
    case None => None
    case Some(p) => Some(QueueId(p, if p in begun then Started else Finished))
  }

  function MarkOf(m: Sched, e: Entry): Option<QueueId> {
    if e in m.marks then Some(m.marks[e]) else None
  }

  function UpdatePosition(m: Sched, e: Entry): Sched
    requires e in m.ready && e in m.begun
  {
    match Target(m.begun[e], m.ready[e])
    case None => Dequeue(m, e)
    case Some(id) => if MarkOf(m, e) == Some(id) then m else Wake(MoveBack(m, id, e), {id.priority})
  }

  function FlaggedAs(flags: set<QueueId>, kind: QueueType, p: Priority): bool {
    QueueId(p, kind) in flags
  }

  function FlaggedPriorities(flags: set<QueueId>, kind: QueueType): set<Priority> {
    set p: Priority | FlaggedAs(flags, kind, p)
  }

  function FirstQueueId(started: set<Priority>, finished: set<Priority>): Option<QueueId> {
    match First(started + finished)
    case None => None
    case Some(p) => Some(QueueId(p, if p in started then Started else Finished))
  }

  /** The list the next frame is taken from. */
  function Chosen(m: Sched, mask: set<Priority>): Option<QueueId> {
    FirstQueueId(FlaggedPriorities(m.flags, Started) * mask, FlaggedPriorities(m.flags, Finished) * mask)
  }

  /** What a buffer answers when asked for a frame, and what it reports as ready afterwards. */
  datatype Answer = Answer(frame: Option<bool>, ready: set<Priority>)

  datatype Emission = Emission(entry: Entry, priority: Priority, eot: bool)

  /** A frame of entry `e` at priority `p` went out, `eot` telling whether it ends its transfer. */
  function AfterFrame(m: Sched, e: Entry, p: Priority, eot: bool): Sched
    requires e in m.begun
  {
    var marked := m.(begun := m.begun[e := if eot then m.begun[e] - {p} else m.begun[e] + {p}]);
    if eot then Dequeue(marked, e) else marked
  }

  function TryPop(m: Sched, mask: set<Priority>, a: Answer): (Sched, Option<Emission>)
    requires m.ready.Keys == m.begun.Keys
    requires Chosen(m, mask).Some? ==>
      List(m.lists, Chosen(m, mask).value) != [] && List(m.lists, Chosen(m, mask).value)[0] in m.ready
  {
    match Chosen(m, mask)
    case None => (m, None)
    case Some(id) =>
      var e := List(m.lists, id)[0];
      var asked := m.(ready := m.ready[e := a.ready]);
      match a.frame
      case None => (UpdatePosition(asked, e), None)
      case Some(eot) =>
        (UpdatePosition(AfterFrame(asked, e, id.priority, eot), e), Some(Emission(e, id.priority, eot)))
  }

  function PollPop(m: Sched, mask: set<Priority>, a: Answer): (Sched, Option<Emission>)
    requires m.ready.Keys == m.begun.Keys
    requires Chosen(m, mask).Some? ==>
      List(m.lists, Chosen(m, mask).value) != [] && List(m.lists, Chosen(m, mask).value)[0] in m.ready
  {
    var (r, out) := TryPop(m, mask, a);
    if out.Some? then (r, out) else (r.(filter := mask, woken := false), None)
  }

  function Register(m: Sched, e: Entry, ready: set<Priority>): Sched {
    UpdatePosition(m.(ready := m.ready[e := ready], begun := m.begun[e := {}]), e)
  }

  function Unregister(m: Sched, e: Entry): Sched {
    var d := Dequeue(m, e);
    d.(ready := d.ready - {e}, begun := d.begun - {e})
  }

  /** A transfer was pushed to the buffer of a registered entry. */
  function Push(m: Sched, e: Entry, ready: set<Priority>): Sched
    requires e in m.ready && e in m.begun
  {
    UpdatePosition(m.(ready := m.ready[e := ready]), e)
  }

  // ---------------------------------------------------------------- lists and marks agree

  ghost predicate MarkedAs(list: seq<Entry>, id: QueueId, marks: map<Entry, QueueId>, i: int) {
    0 <= i < |list| && list[i] in marks && marks[list[i]] == id
  }

  /** A list holds entries marked with its id, once each. */
  ghost predicate ListRight(list: seq<Entry>, id: QueueId, marks: map<Entry, QueueId>) {
    && NoRepeats(list)
    && forall i :: 0 <= i < |list| ==> MarkedAs(list, id, marks, i)
  }

  ghost predicate InList(lists: map<QueueId, seq<Entry>>, id: QueueId, e: Entry) {
    e in List(lists, id)
  }

  ghost predicate FlagRight(lists: map<QueueId, seq<Entry>>, flags: set<QueueId>, id: QueueId) {
    id in flags <==> List(lists, id) != []
  }

  /** An entry is in the list its mark names and in no other, once; the flags are the non-empty lists. */
  ghost predicate ListsRight(lists: map<QueueId, seq<Entry>>, flags: set<QueueId>, marks: map<Entry, QueueId>) {
    && (forall id :: ListRight(List(lists, id), id, marks))
    && (forall e :: e in marks ==> InList(lists, marks[e], e))
    && (forall id :: FlagRight(lists, flags, id))
  }

  /** Taking an entry out of its list. */
  lemma WithoutRight(list: seq<Entry>, id: QueueId, marks: map<Entry, QueueId>, e: Entry)
    requires ListRight(list, id, marks) && e in list
    ensures ListRight(Without(list, e), id, marks - {e})
    ensures forall x :: x in list && x != e ==> x in Without(list, e)
    ensures e !in Without(list, e)
  {
    var k, r := Find(list, e), Without(list, e);
    WithoutKeeps(list, e);
    forall i | 0 <= i < |r| ensures MarkedAs(r, id, marks - {e}, i) {
      assert MarkedAs(list, id, marks, if i < k then i else i + 1);
      assert r[i] in r;
    }
  }

  lemma OtherRight(list: seq<Entry>, id: QueueId, marks: map<Entry, QueueId>, e: Entry)
    requires ListRight(list, id, marks) && e in marks && marks[e] != id
    ensures ListRight(list, id, marks - {e})
  {
    forall i | 0 <= i < |list| ensures MarkedAs(list, id, marks - {e}, i) {
      assert MarkedAs(list, id, marks, i);
    }
  }

  /** What `Dequeue` leaves of a list. */
  function Rest(m: Sched, id: QueueId, e: Entry): seq<Entry> {
    if MarkOf(m, e) == Some(id) then Without(List(m.lists, id), e) else List(m.lists, id)
  }

  lemma DequeueRight(m: Sched, e: Entry)
    requires ListsRight(m.lists, m.flags, m.marks)
    ensures var r := Dequeue(m, e);
      && ListsRight(r.lists, r.flags, r.marks) && r.marks == m.marks - {e}
  {
    var r := Dequeue(m, e);
    if e in m.marks {
      var at := m.marks[e];
      assert InList(m.lists, at, e);
      WithoutRight(List(m.lists, at), at, m.marks, e);
      forall id ensures ListRight(List(r.lists, id), id, r.marks) && FlagRight(r.lists, r.flags, id) {
        assert ListRight(List(m.lists, id), id, m.marks) && FlagRight(m.lists, m.flags, id);
        if id != at {
          OtherRight(List(m.lists, id), id, m.marks, e);
        }
      }
      forall x | x in r.marks ensures InList(r.lists, r.marks[x], x) {
        assert InList(m.lists, m.marks[x], x);
      }
    } else {
      assert r.marks == m.marks - {e};
    }
  }

  lemma AppendRight(list: seq<Entry>, id: QueueId, marks: map<Entry, QueueId>, e: Entry)
    requires ListRight(list, id, marks) && e !in marks
    ensures ListRight(list + [e], id, marks[e := id])
  {
    forall i | 0 <= i < |list| ensures list[i] != e {
      assert MarkedAs(list, id, marks, i);
    }
    var (longer, more) := (list + [e], marks[e := id]);
    forall i | 0 <= i < |longer| ensures MarkedAs(longer, id, more, i) {
      assert i < |list| ==> MarkedAs(list, id, marks, i);
    }
  }

  lemma KeepRight(list: seq<Entry>, id: QueueId, marks: map<Entry, QueueId>, e: Entry, to: QueueId)
    requires ListRight(list, id, marks) && e !in marks
    ensures ListRight(list, id, marks[e := to])
  {
    var more := marks[e := to];
    forall i | 0 <= i < |list| ensures MarkedAs(list, id, more, i) {
      assert MarkedAs(list, id, marks, i);
    }
  }

  /** Appending an unmarked entry to one list. */
  lemma PushBackRight(lists: map<QueueId, seq<Entry>>, flags: set<QueueId>, marks: map<Entry, QueueId>, id: QueueId,
                      e: Entry)
    requires ListsRight(lists, flags, marks) && e !in marks
    ensures ListsRight(lists[id := List(lists, id) + [e]], flags + {id}, marks[e := id])
  {
    var (ls, fs, ms) := (lists[id := List(lists, id) + [e]], flags + {id}, marks[e := id]);
    forall q ensures ListRight(List(ls, q), q, ms) && FlagRight(ls, fs, q) {
      assert ListRight(List(lists, q), q, marks) && FlagRight(lists, flags, q);
      if q == id {
        AppendRight(List(lists, q), q, marks, e);
      } else {
        KeepRight(List(lists, q), q, marks, e, id);
      }
    }
    forall x | x in ms ensures InList(ls, ms[x], x) {
      assert x != e ==> InList(lists, marks[x], x);
    }
  }

  lemma MoveBackRight(m: Sched, id: QueueId, e: Entry)
    requires ListsRight(m.lists, m.flags, m.marks)
    ensures var r := MoveBack(m, id, e); ListsRight(r.lists, r.flags, r.marks) && r.marks == m.marks[e := id]
  {
    var d := Dequeue(m, e);
    DequeueRight(m, e);
    PushBackRight(d.lists, d.flags, d.marks, id, e);
    MarkedAgain(m.marks, e, id);
  }

  lemma MarkedAgain(marks: map<Entry, QueueId>, e: Entry, id: QueueId)
    ensures (marks - {e})[e := id] == marks[e := id]
  {
  }

  lemma DequeueList(m: Sched, e: Entry, id: QueueId)
    requires ListsRight(m.lists, m.flags, m.marks)
    ensures List(Dequeue(m, e).lists, id) == Rest(m, id, e)
  {
  }

  lemma MoveBackList(m: Sched, to: QueueId, e: Entry, id: QueueId)
    requires ListsRight(m.lists, m.flags, m.marks)
    ensures List(MoveBack(m, to, e).lists, id) == if id == to then Rest(m, id, e) + [e] else Rest(m, id, e)
  {
    DequeueList(m, e, id);
  }

  // ---------------------------------------------------------------- every entry is where it belongs

  ghost predicate Placed(m: Sched, e: Entry)
    requires e in m.ready && e in m.begun
  {
    MarkOf(m, e) == Target(m.begun[e], m.ready[e])
  }

  ghost predicate Indexed(m: Sched) {
    && ListsRight(m.lists, m.flags, m.marks)
    && m.ready.Keys == m.begun.Keys
    && (forall e :: e in m.marks ==> e in m.ready)
    && (forall e :: e in m.ready ==> Placed(m, e))
  }

  /** All but perhaps one entry are where they belong. */
  ghost predicate IndexedBut(m: Sched, e: Entry) {
    && ListsRight(m.lists, m.flags, m.marks)
    && m.ready.Keys == m.begun.Keys && e in m.ready
    && (forall x :: x in m.marks ==> x in m.ready)
    && (forall x :: x in m.ready && x != e ==> Placed(m, x))
  }

  /** What updating an entry does to the lists and marks. */
  lemma UpdateRight(m: Sched, e: Entry)
    requires ListsRight(m.lists, m.flags, m.marks) && e in m.ready && e in m.begun
    ensures var r := UpdatePosition(m, e);
      && ListsRight(r.lists, r.flags, r.marks)
      && r.ready == m.ready && r.begun == m.begun
      && r.marks == match Target(m.begun[e], m.ready[e])
                    case None => m.marks - {e}
                    case Some(id) => m.marks[e := id]
  {
    match Target(m.begun[e], m.ready[e])
    case None => DequeueRight(m, e);
    case Some(id) =>
      if MarkOf(m, e) == Some(id) {
        assert m.marks == m.marks[e := id];
      } else {
        MoveBackRight(m, id, e);
      }
  }

  lemma UpdateIndexed(m: Sched, e: Entry)
    requires IndexedBut(m, e)
    ensures Indexed(UpdatePosition(m, e))
  {
    UpdateRight(m, e);
    PlacedAfter(m, UpdatePosition(m, e), e);
  }

  lemma PlacedAfter(m: Sched, r: Sched, e: Entry)
    requires IndexedBut(m, e) && e in m.begun && r.ready == m.ready && r.begun == m.begun
    requires r.marks == match Target(m.begun[e], m.ready[e])
                        case None => m.marks - {e}
                        case Some(id) => m.marks[e := id]
    ensures forall x :: x in r.ready ==> Placed(r, x)
    ensures forall x :: x in r.marks ==> x in r.ready
  {
    forall x | x in r.ready ensures Placed(r, x) {
      assert x != e ==> Placed(m, x);
    }
  }

  /** The chosen list has a front entry, and it is registered. */
  lemma ChosenFront(m: Sched, mask: set<Priority>)
    requires Indexed(m)
    ensures Chosen(m, mask).Some? ==>
      var id := Chosen(m, mask).value;
      && id in m.flags && id.priority in mask
      && List(m.lists, id) != [] && List(m.lists, id)[0] in m.ready && MarkOf(m, List(m.lists, id)[0]) == Some(id)
  {
    if Chosen(m, mask).Some? {
      var id := Chosen(m, mask).value;
      assert FlaggedAs(m.flags, id.kind, id.priority);
      assert FlagRight(m.lists, m.flags, id);
      assert ListRight(List(m.lists, id), id, m.marks) && MarkedAs(List(m.lists, id), id, m.marks, 0);
    }
  }

  lemma AskedIndexed(m: Sched, e: Entry, ready: set<Priority>)
    requires Indexed(m) && e in m.ready
    ensures IndexedBut(m.(ready := m.ready[e := ready]), e)
  {
    var asked := m.(ready := m.ready[e := ready]);
    forall x | x in asked.ready && x != e ensures Placed(asked, x) {
      assert Placed(m, x);
    }
  }

  lemma FrameIndexed(m: Sched, e: Entry, p: Priority, eot: bool)
    requires IndexedBut(m, e)
    ensures IndexedBut(AfterFrame(m, e, p, eot), e)
  {
    var marked := m.(begun := m.begun[e := if eot then m.begun[e] - {p} else m.begun[e] + {p}]);
    var r := AfterFrame(m, e, p, eot);
    DequeueRight(marked, e);
    forall x | x in r.ready && x != e ensures Placed(r, x) {
      assert Placed(m, x);
    }
  }

  lemma TryPopIndexed(m: Sched, mask: set<Priority>, a: Answer)
    requires Indexed(m)
    ensures Chosen(m, mask).Some? ==>
      List(m.lists, Chosen(m, mask).value) != [] && List(m.lists, Chosen(m, mask).value)[0] in m.ready
    ensures Indexed(TryPop(m, mask, a).0)
  {
    ChosenFront(m, mask);
    match Chosen(m, mask)
    case None =>
    case Some(id) =>
      var e := List(m.lists, id)[0];
      var asked := m.(ready := m.ready[e := a.ready]);
      AskedIndexed(m, e, a.ready);
      match a.frame
      case None => UpdateIndexed(asked, e);
      case Some(eot) =>
        FrameIndexed(asked, e, id.priority, eot);
        UpdateIndexed(AfterFrame(asked, e, id.priority, eot), e);
  }

  lemma RegisterIndexed(m: Sched, e: Entry, ready: set<Priority>)
    requires Indexed(m) && e !in m.ready
    ensures Indexed(Register(m, e, ready))
  {
    var joined := m.(ready := m.ready[e := ready], begun := m.begun[e := {}]);
    forall x | x in joined.ready && x != e ensures Placed(joined, x) {
      assert Placed(m, x);
    }
    UpdateIndexed(joined, e);
  }

  lemma UnregisterIndexed(m: Sched, e: Entry)
    requires Indexed(m) && e in m.ready
    ensures Indexed(Unregister(m, e))
  {
    var r := Unregister(m, e);
    DequeueRight(m, e);
    forall x | x in r.ready ensures Placed(r, x) {
      assert Placed(m, x);
    }
  }

  lemma PushIndexed(m: Sched, e: Entry, ready: set<Priority>)
    requires Indexed(m) && e in m.ready
    ensures Indexed(Push(m, e, ready))
  {
    AskedIndexed(m, e, ready);
    UpdateIndexed(m.(ready := m.ready[e := ready]), e);
  }

  // ---------------------------------------------------------------- waiting

  /** Unless the waiting hub was woken, nothing it waits for is available. */
  ghost predicate WaitsRightly(m: Sched) {
    !m.woken ==> forall id: QueueId :: id in m.flags ==> id.priority !in m.filter
  }

  lemma UpdateWakes(m: Sched, e: Entry)
    requires WaitsRightly(m) && e in m.ready && e in m.begun
    ensures WaitsRightly(UpdatePosition(m, e))
  {
    assert forall id :: id in Dequeue(m, e).flags ==> id in m.flags;
    match Target(m.begun[e], m.ready[e])
    case None =>
    case Some(id) => assert id.priority in m.filter ==> id.priority in {id.priority} * m.filter;
  }

  lemma TryPopWakes(m: Sched, mask: set<Priority>, a: Answer)
    requires Indexed(m) && WaitsRightly(m)
    ensures Chosen(m, mask).Some? ==>
      List(m.lists, Chosen(m, mask).value) != [] && List(m.lists, Chosen(m, mask).value)[0] in m.ready
    ensures WaitsRightly(TryPop(m, mask, a).0)
  {
    ChosenFront(m, mask);
    match Chosen(m, mask)
    case None =>
    case Some(id) =>
      var e := List(m.lists, id)[0];
      var asked := m.(ready := m.ready[e := a.ready]);
      match a.frame
      case None => UpdateWakes(asked, e);
      case Some(eot) =>
        var after := AfterFrame(asked, e, id.priority, eot);
        assert forall id :: id in after.flags ==> id in m.flags;
        UpdateWakes(after, e);
  }

  /** A list is chosen exactly when some entry's most urgent ready priority is in the mask, and then no entry
      is ready with a more urgent one in the mask. */
  lemma ChosenIffReady(m: Sched, mask: set<Priority>)
    requires Indexed(m)
    ensures Chosen(m, mask).Some? <==>
      exists e :: e in m.ready && First(m.ready[e]).Some? && First(m.ready[e]).value in mask
    ensures forall e :: e in m.ready && First(m.ready[e]).Some? && First(m.ready[e]).value in mask ==>
              Chosen(m, mask).Some? && Chosen(m, mask).value.priority <= First(m.ready[e]).value
  {
    ChosenFront(m, mask);
    if Chosen(m, mask).Some? {
      var e := List(m.lists, Chosen(m, mask).value)[0];
      assert Placed(m, e);
    }
    forall e | e in m.ready && First(m.ready[e]).Some? && First(m.ready[e]).value in mask
      ensures Chosen(m, mask).Some? && Chosen(m, mask).value.priority <= First(m.ready[e]).value
    {
      ReadyIsFlagged(m, e);
      var id := m.marks[e];
      assert FlaggedAs(m.flags, id.kind, id.priority);
      assert id.priority in FlaggedPriorities(m.flags, id.kind) * mask;
    }
  }

  lemma ReadyIsFlagged(m: Sched, e: Entry)
    requires Indexed(m) && e in m.ready && First(m.ready[e]).Some?
    ensures e in m.marks && m.marks[e] in m.flags && m.marks[e].priority == First(m.ready[e]).value
  {
    assert Placed(m, e);
    assert InList(m.lists, m.marks[e], e) && FlagRight(m.lists, m.flags, m.marks[e]);
  }
}
