/** Buffers that send at a single priority meet the conditions for not interleaving and for taking turns. */
module SinglePriority {
  import opened Lists
  import opened Wrappers
  import opened Priorities
  import opened Scheduler
  import opened SchedulerRuns
  import opened RoundRobin
  import opened Turns

  /** An endpoint sends at one priority, and its buffer is ready while in the middle of a transfer. */
  ghost predicate Single(ready: set<Priority>, begun: set<Priority>, home: map<Entry, Priority>, x: Entry) {
    x in home && ready <= {home[x]} && begun <= {home[x]} && (begun != {} ==> ready == {home[x]})
  }

  ghost predicate AllSingle(m: Sched, home: map<Entry, Priority>) {
    m.ready.Keys == m.begun.Keys && forall x :: x in m.ready ==> Single(m.ready[x], m.begun[x], home, x)
  }

  /** The buffers behave: one priority each, ready until their transfers end, asked only for what they have. */
  ghost predicate Behaves(m: Sched, home: map<Entry, Priority>, ev: Event)
    requires Indexed(m)
  {
    BehavesAs(m, home, ev, DoingOf(m, ev))
  }

  ghost predicate BehavesAs(m: Sched, home: map<Entry, Priority>, ev: Event, d: Doing) {
    match ev
    case RegisterEntry(x, ready) => x in home && ready <= {home[x]}
    case UnregisterEntry(_) => true
    case PushTransfer(x, ready) =>
      x in m.ready && x in home && ready <= {home[x]} && (m.ready[x] != {} ==> ready == m.ready[x])
    case Poll(_, a) =>
      d.asked.Some? ==>
        && d.asked.value in home && a.ready <= {home[d.asked.value]}
        && d.out.Some? && (d.out.value.eot || a.ready == {home[d.asked.value]})
  }

  lemma SingleFirst(s: set<Priority>, p: Priority)
    requires s <= {p}
    ensures First(s) == if s == {} then None else Some(p)
  {
  }

  /** Who sends does so at its priority. */
  lemma SendsAtHome(m: Sched, home: map<Entry, Priority>, ev: Event)
    requires Indexed(m) && AllSingle(m, home) && Emitted(m, ev).Some?
    ensures var x := Emitted(m, ev).value.entry; x in home && Emitted(m, ev).value.priority == home[x]
  {
    SenderAt(m, ev);
    var x := Emitted(m, ev).value.entry;
    SingleFirst(m.ready[x], home[x]);
  }

  lemma SinglesAfter(m: Sched, home: map<Entry, Priority>, ev: Event, d: Doing, r: Sched)
    requires AllSingle(m, home) && BuffersAfter(m, ev, d, r) && BehavesAs(m, home, ev, d)
    requires d.out.Some? ==> d.out.value.entry in home && d.out.value.priority == home[d.out.value.entry]
    ensures AllSingle(r, home)
  {
    forall x | x in r.ready ensures Single(r.ready[x], r.begun[x], home, x) {
      assert x in m.ready ==> Single(m.ready[x], m.begun[x], home, x);
    }
  }

  /** Single-priority buffers that behave stay so. */
  lemma StepAllSingle(m: Sched, home: map<Entry, Priority>, ev: Event)
    requires Indexed(m) && AllSingle(m, home) && Allowed(m, ev) && Behaves(m, home, ev)
    ensures Indexed(Apply(m, ev)) && AllSingle(Apply(m, ev), home)
  {
    StepBuffers(m, ev);
    if Emitted(m, ev).Some? {
      SendsAtHome(m, home, ev);
    }
    SinglesAfter(m, home, ev, DoingOf(m, ev), Apply(m, ev));
  }

  /** A buffer that behaves keeps its priority first until its transfer ends. */
  lemma BehavesKeeps(m: Sched, home: map<Entry, Priority>, ev: Event, d: Doing, x: Entry, p: Priority)
    requires AllSingle(m, home) && Allowed(m, ev) && Possible(m, ev, d) && BehavesAs(m, home, ev, d)
    requires d.out.Some? ==> d.out.value.entry in home && d.out.value.priority == home[d.out.value.entry]
    requires x in m.ready && First(m.ready[x]) == Some(p)
    ensures Keeps(ev, d, x, p)
  {
    assert Single(m.ready[x], m.begun[x], home, x);
    SingleFirst(m.ready[x], home[x]);
    if ev.Poll? && d.asked == Some(x) {
      SingleFirst(ev.answer.ready, p);
    }
  }

  lemma BehavesKeepsFirst(m: Sched, home: map<Entry, Priority>, ev: Event, x: Entry, p: Priority)
    requires Indexed(m) && AllSingle(m, home) && Allowed(m, ev) && Behaves(m, home, ev)
    requires x in m.ready && First(m.ready[x]) == Some(p)
    ensures KeepsFirst(m, ev, x, p)
  {
    if Emitted(m, ev).Some? {
      SendsAtHome(m, home, ev);
    }
    BehavesKeeps(m, home, ev, DoingOf(m, ev), x, p);
  }

  lemma FirstInTransfer(m: Sched, home: map<Entry, Priority>, x: Entry, p: Priority)
    requires AllSingle(m, home) && x in InTransfer(m, p)
    ensures First(m.ready[x]) == Some(p)
  {
    assert Single(m.ready[x], m.begun[x], home, x);
    SingleFirst(m.ready[x], p);
  }

  /** Behaving is enough for every entry in the middle of a transfer to keep its priority first. */
  lemma BehavesAllKeepFirst(m: Sched, home: map<Entry, Priority>, ev: Event, p: Priority)
    requires Indexed(m) && AllSingle(m, home) && Allowed(m, ev) && Behaves(m, home, ev)
    ensures AllKeepFirst(m, ev, p)
  {
    forall x | x in InTransfer(m, p) ensures KeepsFirst(m, ev, x, p) {
      FirstInTransfer(m, home, x, p);
      BehavesKeepsFirst(m, home, ev, x, p);
    }
    if Emitted(m, ev).Some? && Emitted(m, ev).value.priority == p {
      SenderAt(m, ev);
      BehavesKeepsFirst(m, home, ev, Emitted(m, ev).value.entry, p);
    }
  }

  /** The buffers behave at every step of a run. */
  ghost predicate BehavesAll(m: Sched, home: map<Entry, Priority>, events: seq<Event>)
    requires Indexed(m) && RunsFrom(m, events)
    decreases |events|
  {
    events == []
    || (Behaves(m, home, events[0])
        && (StepIndexed(m, events[0]); BehavesAll(Apply(m, events[0]), home, events[1..])))
  }

  lemma {:induction false} BehavingKeepFirst(m: Sched, home: map<Entry, Priority>, events: seq<Event>, p: Priority)
    requires Indexed(m) && AllSingle(m, home) && RunsFrom(m, events) && BehavesAll(m, home, events)
    ensures AllKeepFirstAlways(m, events, p)
    decreases |events|
  {
    if events != [] {
      BehavesAllKeepFirst(m, home, events[0], p);
      StepAllSingle(m, home, events[0]);
      BehavingKeepFirst(Apply(m, events[0]), home, events[1..], p);
    }
  }

  /** No interleaving between single-priority buffers: in every behaving run of a new scheduler, from a frame of `e`
      at `p` that does not end its transfer to the end of it or the removal of `e`, every frame at `p` is from `e`. */
  lemma SingleNoInterleaving(home: map<Entry, Priority>, events: seq<Event>, i: nat, j: nat, e: Entry, p: Priority)
    requires IsRun(events) && Indexed(IDLE) && BehavesAll(IDLE, home, events) && i < j < |events|
    requires Outputs(IDLE, events)[i] == Some(Emission(e, p, false))
    requires forall k :: i < k < j ==> GoesOn(events, Outputs(IDLE, events), e, p, k)
    ensures !IsOther(Outputs(IDLE, events)[j], e, p)
  {
    IdleIsSteady(p);
    BehavingKeepFirst(IDLE, home, events, p);
    SteadyNoInterleaving(IDLE, events, i, j, e, p);
  }

  /** At most one transfer is under way at each priority after every behaving run of a new scheduler. */
  lemma SingleOneStarted(home: map<Entry, Priority>, events: seq<Event>, p: Priority)
    requires IsRun(events) && Indexed(IDLE) && BehavesAll(IDLE, home, events)
    ensures |StartedList(RunTo(IDLE, events), p)| <= 1
  {
    BehavingKeepFirst(IDLE, home, events, p);
    AtMostOneStarted(events, p);
  }

  // ---------------------------------------------------------------- taking turns

  /** Every transfer under way is in the started list. */
  lemma TransfersAreStarted(m: Sched, home: map<Entry, Priority>, p: Priority)
    requires Indexed(m) && AllSingle(m, home)
    ensures |InTransfer(m, p)| <= |StartedList(m, p)|
  {
    var q := StartedList(m, p);
    forall x | x in InTransfer(m, p) ensures x in EntriesOf(q[..|q|]) {
      FirstInTransfer(m, home, x, p);
      ListedAt(m, x, p);
      assert q[..|q|] == q;
    }
    SubsetSize(InTransfer(m, p), EntriesOf(q[..|q|]));
    FirstMembers(q, |q|);
  }

  lemma StepLetsWait(m: Sched, home: map<Entry, Priority>, ev: Event, e: Entry, p: Priority)
    requires Indexed(m) && AllSingle(m, home) && Allowed(m, ev) && Behaves(m, home, ev) && e in FinishedList(m, p)
    requires ev != UnregisterEntry(e) && (Emitted(m, ev).Some? ==> Emitted(m, ev).value.entry != e)
    ensures LetsWait(m, ev, e, p)
  {
    WaitingIs(m, p, e);
    ListedAt(m, e, p);
    BehavesKeepsFirst(m, home, ev, e, p);
    if ev.Poll? {
      ChosenFront(m, ev.mask);
    }
  }

  /** A waiting entry of a behaving run stays where it is until it gives a frame or is removed. */
  lemma {:induction false} BehavingLetsWait(m: Sched, home: map<Entry, Priority>, events: seq<Event>, e: Entry,
                                            p: Priority)
    requires Indexed(m) && AllSingle(m, home) && RunsFrom(m, events) && BehavesAll(m, home, events)
    requires e in FinishedList(m, p) && UnregisterEntry(e) !in events
    requires forall k :: 0 <= k < |events| ==> !SentBy(Outputs(m, events)[k], e)
    ensures LetsWaitAll(m, events, e, p)
    decreases |events|
  {
    if events != [] {
      var ev, rest := events[0], events[1..];
      StepAllSingle(m, home, ev);
      assert events == [ev] + rest;
      assert Outputs(m, events)[0] == Emitted(m, ev) && !SentBy(Outputs(m, events)[0], e);
      StepLetsWait(m, home, ev, e, p);
      StepAhead(m, ev, e, p);
      forall k | 0 <= k < |rest| ensures !SentBy(Outputs(Apply(m, ev), rest)[k], e) {
        assert !SentBy(Outputs(m, events)[k + 1], e);
      }
      BehavingLetsWait(Apply(m, ev), home, rest, e, p);
    }
  }

  predicate SentBy(out: Option<Emission>, e: Entry) {
    out.Some? && out.value.entry == e
  }

  /** Round-robin bound for single-priority buffers: an entry at position k of the finished list of `p` sees at most k
      plus the number of started transfers end at `p` before its own first frame, whatever is pushed and registered
      meanwhile. */
  lemma SingleRoundRobin(m: Sched, home: map<Entry, Priority>, events: seq<Event>, e: Entry, p: Priority)
    requires Indexed(m) && AllSingle(m, home) && RunsFrom(m, events) && BehavesAll(m, home, events)
    requires e in FinishedList(m, p) && UnregisterEntry(e) !in events
    requires forall k :: 0 <= k < |events| ==> !SentBy(Outputs(m, events)[k], e)
    ensures |Enders(Outputs(m, events), e, p)| <= Find(FinishedList(m, p), e) + |StartedList(m, p)|
  {
    BehavingLetsWait(m, home, events, e, p);
    RoundRobinBound(m, events, e, p);
    TransfersAreStarted(m, home, p);
  }
}
