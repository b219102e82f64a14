/** Why turns need buffers that stay at their priority: runs in which a more urgent transfer takes an entry out of
    its list, so that transfers interleave or the entry loses its turn. */
module LostTurns {
  import opened Lists
  import opened Wrappers
  import opened Priorities
  import opened Scheduler
  import opened SchedulerRuns
  import opened RoundRobin

  const URGENT: Priority := 2
  const USUAL: Priority := 5

  // ---------------------------------------------------------------- one step of a run

  lemma RunCons(m: Sched, a: Event, r: Sched, rest: seq<Event>)
    requires Indexed(m) && Allowed(m, a) && r == Apply(m, a) && Indexed(r) && RunsFrom(r, rest)
    ensures RunsFrom(m, [a] + rest) && Outputs(m, [a] + rest) == [Emitted(m, a)] + Outputs(r, rest)
  {
    assert ([a] + rest)[1..] == rest;
  }

  /** What goes out at three steps. */
  lemma RunThree(m: Sched, a: Event, one: Sched, b: Event, two: Sched, c: Event)
    requires Indexed(m) && Allowed(m, a) && one == Apply(m, a)
    requires Indexed(one) && Allowed(one, b) && two == Apply(one, b)
    requires Indexed(two) && Allowed(two, c)
    ensures RunsFrom(m, [a, b, c]) && Outputs(m, [a, b, c]) == [Emitted(m, a), Emitted(one, b), Emitted(two, c)]
  {
    RunTail(one, b, two, c);
    assert [a] + [b, c] == [a, b, c];
    RunCons(m, a, one, [b, c]);
  }

  lemma RunTail(one: Sched, b: Event, two: Sched, c: Event)
    requires Indexed(one) && Allowed(one, b) && two == Apply(one, b)
    requires Indexed(two) && Allowed(two, c)
    ensures RunsFrom(one, [b, c]) && Outputs(one, [b, c]) == [Emitted(one, b), Emitted(two, c)]
  {
    RunOne(two, c);
    assert [b] + [c] == [b, c];
    RunCons(one, b, two, [c]);
  }

  lemma RunOne(m: Sched, a: Event)
    requires Indexed(m) && Allowed(m, a)
    ensures RunsFrom(m, [a]) && RunTo(m, [a]) == Apply(m, a) && Outputs(m, [a]) == [Emitted(m, a)]
  {
    StepIndexed(m, a);
    assert [a][1..] == [];
  }

  lemma RunTwo(m: Sched, a: Event, b: Event)
    requires Indexed(m) && Allowed(m, a) && Indexed(Apply(m, a)) && Allowed(Apply(m, a), b)
    ensures RunsFrom(m, [a, b]) && RunTo(m, [a, b]) == Apply(Apply(m, a), b)
  {
    RunOne(Apply(m, a), b);
    assert [a, b][1..] == [b];
  }

  lemma OnlyFirst(s: set<Priority>, p: Priority)
    requires p in s && forall q :: q in s ==> p <= q
    ensures First(s) == Some(p)
  {
  }

  /** Which list of a priority a poll for it chooses. */
  lemma ChosenAt(m: Sched, p: Priority)
    requires Indexed(m)
    ensures Chosen(m, {p}) == if StartedList(m, p) != [] then Some(QueueId(p, Started))
                              else if FinishedList(m, p) != [] then Some(QueueId(p, Finished)) else None
  {
    var started, finished := FlaggedPriorities(m.flags, Started) * {p}, FlaggedPriorities(m.flags, Finished) * {p};
    assert FlagRight(m.lists, m.flags, QueueId(p, Started)) && FlagRight(m.lists, m.flags, QueueId(p, Finished));
    assert FlaggedAs(m.flags, Started, p) <==> p in started;
    assert FlaggedAs(m.flags, Finished, p) <==> p in finished;
    if p in started + finished {
      OnlyFirst(started + finished, p);
    } else {
      assert started + finished == {};
    }
  }

  /** The lists of the two priorities. */
  ghost predicate Waiting(m: Sched, started: seq<Entry>, finished: seq<Entry>, urgent: seq<Entry>) {
    && Indexed(m)
    && StartedList(m, USUAL) == started && FinishedList(m, USUAL) == finished
    && StartedList(m, URGENT) == [] && FinishedList(m, URGENT) == urgent
  }

  /** The entry is in the finished list of `p`, in the middle of no transfer. */
  ghost predicate Idles(m: Sched, x: Entry, p: Priority) {
    x in m.ready && x in m.begun && m.begun[x] == {} && MarkOf(m, x) == Some(QueueId(p, Finished))
  }

  ghost predicate TwoWait(m: Sched, x: Entry, y: Entry) {
    x != y && m.ready.Keys == {x, y} && Waiting(m, [], [x, y], []) && Idles(m, x, USUAL) && Idles(m, y, USUAL)
  }

  // ---------------------------------------------------------------- steps

  /** Entry `x` went to the end of list `to`, seen from list `id`. */
  ghost predicate WentTo(m: Sched, r: Sched, x: Entry, to: QueueId, id: QueueId) {
    List(r.lists, id) == if id == to then Without(List(m.lists, id), x) + [x] else Without(List(m.lists, id), x)
  }

  lemma Placing(m: Sched, x: Entry, to: QueueId, id: QueueId)
    requires ListsRight(m.lists, m.flags, m.marks) && x in m.ready && x in m.begun
    requires Target(m.begun[x], m.ready[x]) == Some(to) && MarkOf(m, x) != Some(to)
    ensures WentTo(m, UpdatePosition(m, x), x, to, id)
  {
    UpdateList(m, x, id);
    AbsentStays(m, x, id);
  }

  /** Updating an entry takes it out of the lists and puts it at the end of its target. */
  lemma PlacingAll(m: Sched, x: Entry, to: QueueId)
    requires ListsRight(m.lists, m.flags, m.marks) && x in m.ready && x in m.begun
    requires Target(m.begun[x], m.ready[x]) == Some(to) && MarkOf(m, x) != Some(to)
    ensures var r := UpdatePosition(m, x);
      && r.ready == m.ready && r.begun == m.begun && r.marks == m.marks[x := to]
      && (forall id :: WentTo(m, r, x, to, id))
  {
    UpdateRight(m, x);
    forall id ensures WentTo(m, UpdatePosition(m, x), x, to, id) {
      Placing(m, x, to, id);
    }
  }

  /** The lists after `x` went to a list of the usual priority or to the urgent one. */
  lemma WaitingAfter(m: Sched, r: Sched, started: seq<Entry>, finished: seq<Entry>, urgent: seq<Entry>, x: Entry,
                     to: QueueId)
    requires Waiting(m, started, finished, urgent) && Indexed(r) && forall id :: WentTo(m, r, x, to, id)
    ensures to == QueueId(USUAL, Started) ==>
      Waiting(r, Without(started, x) + [x], Without(finished, x), Without(urgent, x))
    ensures to == QueueId(USUAL, Finished) ==>
      Waiting(r, Without(started, x), Without(finished, x) + [x], Without(urgent, x))
    ensures to == QueueId(URGENT, Finished) ==>
      Waiting(r, Without(started, x), Without(finished, x), Without(urgent, x) + [x])
  {
    assert WentTo(m, r, x, to, QueueId(USUAL, Started)) && WentTo(m, r, x, to, QueueId(USUAL, Finished));
    assert WentTo(m, r, x, to, QueueId(URGENT, Started)) && WentTo(m, r, x, to, QueueId(URGENT, Finished));
  }

  /** A new entry joins the finished list. */
  lemma Joins(m: Sched, finished: seq<Entry>, x: Entry)
    requires Waiting(m, [], finished, []) && x !in m.ready && x !in finished
    ensures var r := Register(m, x, {USUAL});
      && Waiting(r, [], finished + [x], []) && Idles(r, x, USUAL) && r.ready == m.ready[x := {USUAL}]
      && (forall y :: y != x && Idles(m, y, USUAL) ==> Idles(r, y, USUAL))
  {
    var joined := m.(ready := m.ready[x := {USUAL}], begun := m.begun[x := {}]);
    RegisterIndexed(m, x, {USUAL});
    OnlyFirst({USUAL}, USUAL);
    PlacingAll(joined, x, QueueId(USUAL, Finished));
    forall id ensures WentTo(m, Register(m, x, {USUAL}), x, QueueId(USUAL, Finished), id) {
      assert WentTo(joined, UpdatePosition(joined, x), x, QueueId(USUAL, Finished), id);
    }
    WaitingAfter(m, Register(m, x, {USUAL}), [], finished, [], x, QueueId(USUAL, Finished));
  }

  /** A more urgent transfer takes its entry out of the lists of the usual priority. */
  lemma LeavesForUrgent(m: Sched, started: seq<Entry>, finished: seq<Entry>, x: Entry)
    requires Waiting(m, started, finished, []) && x in m.ready && URGENT !in m.begun[x]
    ensures var r := Push(m, x, {URGENT, USUAL});
      && Waiting(r, Without(started, x), Without(finished, x), [x])
  {
    var asked := m.(ready := m.ready[x := {URGENT, USUAL}]);
    var r := Push(m, x, {URGENT, USUAL});
    PushIndexed(m, x, {URGENT, USUAL});
    OnlyFirst({URGENT, USUAL}, URGENT);
    AbsentMark(m, x, QueueId(URGENT, Finished));
    PlacingAll(asked, x, QueueId(URGENT, Finished));
    forall id ensures WentTo(m, r, x, QueueId(URGENT, Finished), id) {
      assert WentTo(asked, UpdatePosition(asked, x), x, QueueId(URGENT, Finished), id);
    }
    WaitingAfter(m, r, started, finished, [], x, QueueId(URGENT, Finished));
  }

  lemma AbsentMark(m: Sched, x: Entry, id: QueueId)
    requires Indexed(m) && List(m.lists, id) == []
    ensures MarkOf(m, x) != Some(id)
  {
    if x in m.marks {
      assert InList(m.lists, m.marks[x], x);
    }
  }

  /** What a poll does whose chosen buffer has a frame. */
  lemma PollIs(m: Sched, mask: set<Priority>, a: Answer, id: QueueId, x: Entry, eot: bool)
    requires CanPop(m, mask) && Chosen(m, mask) == Some(id) && List(m.lists, id)[0] == x && a.frame == Some(eot)
    ensures var asked := m.(ready := m.ready[x := a.ready]);
      PollPop(m, mask, a) == (UpdatePosition(AfterFrame(asked, x, id.priority, eot), x),
                              Some(Emission(x, id.priority, eot)))
  {
  }

  /** The front entry of the usual finished list sends a frame that does not end its transfer. */
  lemma Begins(m: Sched, x: Entry, rest: seq<Entry>)
    requires Waiting(m, [], [x] + rest, []) && Idles(m, x, USUAL) && x !in rest
    ensures CanPop(m, {USUAL})
    ensures var (r, out) := PollPop(m, {USUAL}, Answer(Some(false), {USUAL}));
      && Waiting(r, [x], rest, []) && out == Some(Emission(x, USUAL, false))
      && x in r.ready && r.begun == m.begun[x := {USUAL}]
  {
    ChosenAt(m, USUAL);
    StepIndexed(m, Poll({USUAL}, Answer(Some(false), {USUAL})));
    PollIs(m, {USUAL}, Answer(Some(false), {USUAL}), QueueId(USUAL, Finished), x, false);
    var r := PollPop(m, {USUAL}, Answer(Some(false), {USUAL})).0;
    BeginsAt(m, x, r);
    WithoutFirst(x, rest);
    WaitingAfter(m, r, [], [x] + rest, [], x, QueueId(USUAL, Started));
  }

  lemma BeginsAt(m: Sched, x: Entry, r: Sched)
    requires Indexed(m) && Idles(m, x, USUAL)
    requires r == UpdatePosition(AfterFrame(m.(ready := m.ready[x := {USUAL}]), x, USUAL, false), x)
    ensures x in r.ready && r.begun == m.begun[x := {USUAL}]
    ensures forall id :: WentTo(m, r, x, QueueId(USUAL, Started), id)
  {
    OnlyFirst({USUAL}, USUAL);
    var after := AfterFrame(m.(ready := m.ready[x := {USUAL}]), x, USUAL, false);
    assert after.begun[x] == {USUAL};
    PlacingAll(after, x, QueueId(USUAL, Started));
    forall id ensures WentTo(m, r, x, QueueId(USUAL, Started), id) {
      assert WentTo(after, r, x, QueueId(USUAL, Started), id);
    }
  }

  lemma WithoutFirst(x: Entry, rest: seq<Entry>)
    ensures Without([x] + rest, x) == rest
  {
    assert ([x] + rest)[0] == x;
    assert Find([x] + rest, x) == 0;
  }

  /** The front entry of the usual finished list sends a transfer of one frame. */
  lemma SendsOne(m: Sched, x: Entry)
    requires Indexed(m) && StartedList(m, USUAL) == [] && FinishedList(m, USUAL) != [] && FinishedList(m, USUAL)[0] == x
    ensures Emitted(m, Poll({USUAL}, Answer(Some(true), {USUAL}))) == Some(Emission(x, USUAL, true))
    ensures Emitted(m, Poll({USUAL}, Answer(Some(false), {USUAL}))) == Some(Emission(x, USUAL, false))
  {
    ChosenAt(m, USUAL);
    ChosenFront(m, {USUAL});
  }

  // ---------------------------------------------------------------- the runs

  /** A new scheduler gets to two waiting entries. */
  lemma TwoRegistered(x: Entry, y: Entry)
    requires x != y
    ensures IsRun([RegisterEntry(x, {USUAL}), RegisterEntry(y, {USUAL})]) && Indexed(IDLE)
    ensures TwoWait(RunTo(IDLE, [RegisterEntry(x, {USUAL}), RegisterEntry(y, {USUAL})]), x, y)
  {
    IdleIsGood();
    var one := Register(IDLE, x, {USUAL});
    Joins(IDLE, [], x);
    assert [] + [x] == [x] && [x] + [y] == [x, y];
    Joins(one, [x], y);
    RunTwo(IDLE, RegisterEntry(x, {USUAL}), RegisterEntry(y, {USUAL}));
  }

  /** An entry in the middle of a transfer gets a more urgent one, leaves the started list, and another entry
      sends at the same priority in between. */
  lemma InterleavesWithTwoPriorities(m: Sched, x: Entry, y: Entry)
    requires TwoWait(m, x, y)
    ensures var events := [Poll({USUAL}, Answer(Some(false), {USUAL})), PushTransfer(x, {URGENT, USUAL}),
                           Poll({USUAL}, Answer(Some(false), {USUAL}))];
      RunsFrom(m, events)
      && Outputs(m, events) == [Some(Emission(x, USUAL, false)), None, Some(Emission(y, USUAL, false))]
  {
    var poll, push := Poll({USUAL}, Answer(Some(false), {USUAL})), PushTransfer(x, {URGENT, USUAL});
    var one := BeginsFirst(m, x, y);
    var two := Push(one, x, {URGENT, USUAL});
    LeavesForUrgent(one, [x], [y], x);
    WithoutFirst(x, []);
    assert [x] + [] == [x];
    SendsOne(two, y);
    RunThree(m, poll, one, push, two, poll);
  }

  lemma BeginsFirst(m: Sched, x: Entry, y: Entry) returns (one: Sched)
    requires TwoWait(m, x, y)
    ensures one == Apply(m, Poll({USUAL}, Answer(Some(false), {USUAL})))
    ensures Emitted(m, Poll({USUAL}, Answer(Some(false), {USUAL}))) == Some(Emission(x, USUAL, false))
    ensures Waiting(one, [x], [y], []) && x in one.ready && one.begun[x] == {USUAL}
  {
    assert [x, y] == [x] + [y];
    Begins(m, x, [y]);
    one := Apply(m, Poll({USUAL}, Answer(Some(false), {USUAL})));
  }

  /** The first of a finished list gets a more urgent transfer and is in the list no more: another entry's transfer
      ends at its priority while it has sent nothing, although nobody was ahead of it or in a transfer. */
  lemma LosesTurnWithTwoPriorities(m: Sched, x: Entry, y: Entry)
    requires TwoWait(m, x, y)
    ensures var events := [PushTransfer(x, {URGENT, USUAL}), Poll({USUAL}, Answer(Some(true), {USUAL}))];
      RunsFrom(m, events) && Outputs(m, events) == [None, Some(Emission(y, USUAL, true))]
      && |Enders(Outputs(m, events), x, USUAL)| == 1
      && x in FinishedList(m, USUAL) && Find(FinishedList(m, USUAL), x) + |InTransfer(m, USUAL)| == 0
  {
    var push, usual := PushTransfer(x, {URGENT, USUAL}), Poll({USUAL}, Answer(Some(true), {USUAL}));
    var one := GoesUrgent(m, x, y);
    SendsOne(one, y);
    RunTail(m, push, one, usual);
    OneEnds(x, y);
    assert InTransfer(m, USUAL) == {};
  }

  lemma GoesUrgent(m: Sched, x: Entry, y: Entry) returns (one: Sched)
    requires TwoWait(m, x, y)
    ensures one == Apply(m, PushTransfer(x, {URGENT, USUAL})) && Waiting(one, [], [y], [x])
    ensures Find(FinishedList(m, USUAL), x) == 0
  {
    assert [x, y] == [x] + [y];
    WithoutFirst(x, [y]);
    LeavesForUrgent(m, [], [x, y], x);
    one := Apply(m, PushTransfer(x, {URGENT, USUAL}));
  }

  lemma OneEnds(x: Entry, y: Entry)
    requires x != y
    ensures Enders([None, Some(Emission(y, USUAL, true))], x, USUAL) == [y]
  {
    var all: seq<Option<Emission>> := [None, Some(Emission(y, USUAL, true))];
    assert all[1..] == [Some(Emission(y, USUAL, true))];
    assert all[1..][1..] == [];
    assert Enders(all[1..], x, USUAL) == [y];
  }
}
