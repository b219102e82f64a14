/** The driver's filter, rebuilt from the updates it was given, agrees with the registered subjects. */
module FilterAgreement {
  import opened Lists
  import opened Wrappers
  import opened Registry

  /** State and filter agree. */
  ghost predicate Agrees(m: Inner, filter: set<nat>) {
    Inv(m) && Agree(m.active, m.cleanUpQueue, m.cleanUpLast, filter)
  }

  // ---------------------------------------------------------------- one step

  lemma JoinTree(t: seq<Entry>, others: seq<Entry>, next: Option<Entry>, e: Entry)
    requires Ordered(t) && e !in t && e !in others && (forall x :: x in t ==> x !in others)
    requires next.Some? ==> next.value in t
    ensures Ordered(InsertOrdered(t, e)) && forall x :: x in InsertOrdered(t, e) ==> x !in others
    ensures next.Some? ==> next.value in InsertOrdered(t, e)
  {
    InsertKeeps(t, e);
  }

  lemma JoinMarked(t: seq<Entry>, heads: set<Entry>, queue: seq<Entry>, e: Entry)
    requires Ordered(t) && HeadsRight(t, heads) && MarksRight(t, queue) && e !in t && HasSubject(t, e.subject)
    ensures HeadsRight(InsertOrdered(t, e), heads) && MarksRight(InsertOrdered(t, e), queue)
  {
    JoinHeads(t, heads, e);
    HeadsAreMembers(t, heads, e);
    JoinMarks(t, queue, e);
  }

  lemma HeadsAreMembers(t: seq<Entry>, heads: set<Entry>, e: Entry)
    requires HeadsRight(t, heads) && e !in t
    ensures heads - {e} == heads
  {
  }

  lemma JoinActiveAgrees(m: Inner, filter: set<nat>, e: Entry)
    requires Agrees(m, filter) && e !in m.active && e !in m.inactive && HasSubject(m.active, e.subject)
    ensures Agrees(m.(active := InsertOrdered(m.active, e)), filter)
  {
    JoinTree(m.active, m.inactive, m.nextPush, e);
    JoinMarked(m.active, m.heads, m.cleanUpQueue, e);
    JoinTail(m.active, m.cleanUpQueue, m.cleanUpLast, filter, e);
  }

  lemma JoinInactiveAgrees(m: Inner, filter: set<nat>, e: Entry)
    requires Agrees(m, filter) && e !in m.active && e !in m.inactive
    ensures Agrees(m.(inactive := InsertOrdered(m.inactive, e), activationQueue := m.activationQueue + [e]), filter)
  {
    InsertKeeps(m.inactive, e);
  }

  lemma RegisterAgrees(m: Inner, filter: set<nat>, e: Entry)
    requires Agrees(m, filter) && e !in m.active && e !in m.inactive
    ensures Agrees(Register(m, e).0, filter)
  {
    if HasSubject(m.inactive, e.subject) {
      JoinInactiveAgrees(m, filter, e);
    } else if HasSubject(m.active, e.subject) {
      JoinActiveAgrees(m, filter, e);
    } else if m.freeSlots > 0 {
      JoinInactiveAgrees(m, filter, e);
    }
  }

  lemma UnregisterInactiveAgrees(m: Inner, filter: set<nat>, e: Entry)
    requires Agrees(m, filter) && e in m.inactive
    ensures Agrees(UnregisterInactive(m, e), filter)
  {
    RemoveKeeps(m.inactive, Find(m.inactive, e));
    WithoutKeeps(m.activationQueue, e);
  }

  lemma LeaveTree(t: seq<Entry>, others: seq<Entry>, k: nat)
    requires Ordered(t) && k < |t| && forall e :: e in t ==> e !in others
    ensures Ordered(RemoveAt(t, k)) && forall e :: e in RemoveAt(t, k) ==> e !in others
  {
    RemoveKeeps(t, k);
  }

  /** The entry the push in progress turns to next stays active. */
  lemma LeaveNext(t: seq<Entry>, next: Option<Entry>, heads: set<Entry>, k: nat)
    requires Ordered(t) && k < |t| && (next.Some? ==> next.value in t)
    ensures var r := SkipRemoved(next, t[k], At(RemoveAt(t, k), k), heads); r.Some? ==> r.value in RemoveAt(t, k)
  {
    RemoveKeeps(t, k);
  }

  /** An active entry that is no head follows one of its subject and is not marked. */
  lemma TailFacts(t: seq<Entry>, heads: set<Entry>, queue: seq<Entry>, k: nat)
    requires Ordered(t) && HeadsRight(t, heads) && MarksRight(t, queue) && k < |t| && t[k] !in heads
    ensures k > 0 && t[k - 1].subject == t[k].subject && t[k] !in queue
  {
    assert HeadAt(t, heads, k) && MarkAt(t, queue, k);
  }

  lemma LeaveTailMarks(t: seq<Entry>, queue: seq<Entry>, k: nat)
    requires Ordered(t) && MarksRight(t, queue) && k < |t| && t[k] !in queue
    ensures MarksRight(RemoveAt(t, k), queue)
  {
    forall e | e in queue ensures e != t[k] {
    }
    LeaveMarks(t, queue, k, queue);
  }

  lemma UnregisterTailAgrees(m: Inner, filter: set<nat>, e: Entry)
    requires Agrees(m, filter) && e in m.active && e !in m.heads
    ensures e !in m.cleanUpQueue
    ensures Agrees(UnregisterTail(m, e), filter)
  {
    var t, k := m.active, Find(m.active, e);
    TailFacts(t, m.heads, m.cleanUpQueue, k);
    LeaveTree(t, m.inactive, k);
    LeaveNext(t, m.nextPush, m.heads, k);
    LeaveHeads(t, m.heads, k);
    LeaveTailMarks(t, m.cleanUpQueue, k);
    LeaveTailAgree(t, m.cleanUpQueue, m.cleanUpLast, filter, k);
    LastAfter(t, k);
  }

  /** Unless the last entry leaves, the subjects behind the last entry stay the same. */
  lemma LastAfter(t: seq<Entry>, k: nat)
    requires k < |t| && (k + 1 < |t| || (k > 0 && t[k - 1].subject == t[k].subject))
    ensures After(RemoveAt(t, k), |t| - 1) == After(t, |t|)
  {
    assert k + 1 < |t| ==> RemoveAt(t, k)[|t| - 2] == t[|t| - 1];
  }

  /** What becomes of the marks and ranges when a head leaves. */
  ghost predicate HeadLeft(t: seq<Entry>, heads: set<Entry>, queue: seq<Entry>, last: bool, k: nat,
                           queue': seq<Entry>, last': bool)
    requires k < |t|
  {
    var rest := Without(queue, t[k]);
    if k + 1 < |t| then
      && queue' == (if (t[k] in queue || t[k + 1] in heads) && t[k + 1] !in rest then rest + [t[k + 1]] else rest)
      && last' == last
    else queue' == rest && last'
  }

  lemma HeadLeftMarks(t: seq<Entry>, heads: set<Entry>, queue: seq<Entry>, last: bool, k: nat,
                      queue': seq<Entry>, last': bool)
    requires Ordered(t) && HeadsRight(t, heads) && MarksRight(t, queue) && k < |t| && t[k] in heads
    requires HeadLeft(t, heads, queue, last, k, queue', last')
    ensures MarksRight(RemoveAt(t, k), queue')
  {
    WithoutKeeps(queue, t[k]);
    assert HeadAt(t, heads, k);
    assert k + 1 < |t| ==> HeadAt(t, heads, k + 1);
    LeaveMarks(t, queue, k, queue');
  }

  lemma HeadLeftAgree(t: seq<Entry>, heads: set<Entry>, queue: seq<Entry>, last: bool, filter: set<nat>, k: nat,
                      queue': seq<Entry>, last': bool)
    requires Ordered(t) && HeadsRight(t, heads) && NoRepeats(queue) && Agree(t, queue, last, filter)
    requires k < |t| && t[k] in heads && HeadLeft(t, heads, queue, last, k, queue', last')
    ensures Agree(RemoveAt(t, k), queue', last', filter)
  {
    WithoutKeeps(queue, t[k]);
    assert k + 1 < |t| ==> HeadAt(t, heads, k + 1);
    LeaveAgree(t, queue, last, filter, k, queue', last');
  }

  /** `r` is `m` after the head at `k` left. */
  ghost predicate HeadGone(m: Inner, r: Inner, k: nat)
    requires k < |m.active|
  {
    && r.active == RemoveAt(m.active, k)
    && r.heads == (if k + 1 < |m.active| then m.heads - {m.active[k]} + {m.active[k + 1]} else m.heads - {m.active[k]})
    && r.nextPush == SkipRemoved(m.nextPush, m.active[k], At(RemoveAt(m.active, k), k), m.heads)
    && r.inactive == m.inactive && r.activationQueue == m.activationQueue
    && HeadLeft(m.active, m.heads, m.cleanUpQueue, m.cleanUpLast, k, r.cleanUpQueue, r.cleanUpLast)
  }

  lemma HeadGoneAgrees(m: Inner, r: Inner, filter: set<nat>, k: nat)
    requires Agrees(m, filter) && k < |m.active| && m.active[k] in m.heads && HeadGone(m, r, k)
    ensures Agrees(r, filter)
  {
    var t := m.active;
    LeaveTree(t, m.inactive, k);
    LeaveNext(t, m.nextPush, m.heads, k);
    LeaveHeads(t, m.heads, k);
    HeadLeftMarks(t, m.heads, m.cleanUpQueue, m.cleanUpLast, k, r.cleanUpQueue, r.cleanUpLast);
    HeadLeftAgree(t, m.heads, m.cleanUpQueue, m.cleanUpLast, filter, k, r.cleanUpQueue, r.cleanUpLast);
    HeadLeftLast(t, m.heads, k);
  }

  lemma UnregisterHeadAgrees(m: Inner, filter: set<nat>, e: Entry)
    requires Agrees(m, filter) && e in m.active && e in m.heads
    ensures Agrees(UnregisterHead(m, e), filter)
  {
    var k := Find(m.active, e);
    assert k + 1 < |m.active| ==> RemoveAt(m.active, k)[k] == m.active[k + 1];
    HeadGoneAgrees(m, UnregisterHead(m, e), filter, k);
  }

  lemma HeadLeftLast(t: seq<Entry>, heads: set<Entry>, k: nat)
    requires HeadsRight(t, heads) && k < |t| && t[k] in heads
    ensures if k + 1 < |t| then After(RemoveAt(t, k), |t| - 1) == After(t, |t|)
            else After(RemoveAt(t, k), |t| - 1) <= MAX_SUBJECT
  {
    assert HeadAt(t, heads, k);
    if k + 1 < |t| {
      LastAfter(t, k);
    }
  }

  lemma UnregisterAgrees(m: Inner, filter: set<nat>, e: Entry)
    requires Agrees(m, filter) && (e in m.active || e in m.inactive)
    ensures Agrees(Unregister(m, e), filter)
  {
    if e !in m.active {
      UnregisterInactiveAgrees(m, filter, e);
    } else if e in m.heads {
      UnregisterHeadAgrees(m, filter, e);
    } else {
      UnregisterTailAgrees(m, filter, e);
    }
  }

  /** The subjects of the registered entries. */
  ghost predicate IsRegistered(m: Inner, s: nat) {
    (exists i :: 0 <= i < |m.active| && m.active[i].subject == s)
    || (exists i :: 0 <= i < |m.inactive| && m.inactive[i].subject == s)
  }

  /** What an update may do, and what it means that there is none. */
  ghost predicate Sound(m: Inner, filter: set<nat>, p: Polled) {
    match p
    case Ready(AddSubject(s)) => s !in filter && s <= MAX_SUBJECT && IsRegistered(m, s)
    case Ready(RemoveSubjectRange(first, last)) =>
      0 <= first <= last <= MAX_SUBJECT
      && forall i :: 0 <= i < |m.active| ==> !(first <= m.active[i].subject <= last)
    case CallAgain => true
    case Pending => forall s :: s in filter <==> IsRegistered(m, s)
  }

  lemma PollSweep(m: Inner, filter: set<nat>)
    requires Agrees(m, filter) && (m.cleanUpQueue != [] || m.cleanUpLast)
    ensures Sound(m, filter, Poll(m).1) && Agrees(Poll(m).0, ReplayPolled(filter, Poll(m).1))
  {
    if m.cleanUpQueue != [] {
      SweepMark(m.active, m.cleanUpQueue, m.cleanUpLast, filter, m.cleanUpQueue[0]);
    } else {
      SweepLast(m.active, filter);
    }
  }

  /** The longest waiting entry moves to the active tree. */
  lemma FirstActivates(active: seq<Entry>, inactive: seq<Entry>, activation: seq<Entry>)
    requires Ordered(active) && Ordered(inactive) && QueueRight(inactive, activation) && activation != []
    requires forall e :: e in active ==> e !in inactive
    ensures activation[0] in inactive && activation[0] !in active
    ensures var e := activation[0];
      && Ordered(InsertOrdered(active, e)) && Ordered(Without(inactive, e))
      && QueueRight(Without(inactive, e), activation[1..])
      && (forall x :: x in InsertOrdered(active, e) ==> x !in Without(inactive, e))
      && (forall x :: x in active ==> x in InsertOrdered(active, e))
  {
    var e := activation[0];
    assert e in activation;
    RemoveKeeps(inactive, Find(inactive, e));
    InsertKeeps(active, e);
    assert activation == [e] + activation[1..];
    assert forall x :: x in activation ==> x == e || x in activation[1..];
  }

  lemma PollActivate(m: Inner, filter: set<nat>)
    requires Agrees(m, filter) && m.cleanUpQueue == [] && !m.cleanUpLast && m.activationQueue != []
    ensures Sound(m, filter, Poll(m).1) && Agrees(Poll(m).0, ReplayPolled(filter, Poll(m).1))
  {
    var e := m.activationQueue[0];
    FirstActivates(m.active, m.inactive, m.activationQueue);
    JoinHeads(m.active, m.heads, e);
    JoinMarks(m.active, [], e);
    if HasSubject(m.active, e.subject) {
      JoinTail(m.active, [], false, filter, e);
    } else {
      JoinHead(m.active, filter, e);
      assert m.inactive[Find(m.inactive, e)].subject == e.subject;
    }
  }

  lemma PollPending(m: Inner, filter: set<nat>)
    requires Agrees(m, filter) && m.cleanUpQueue == [] && !m.cleanUpLast && m.activationQueue == []
    ensures Sound(m, filter, Pending)
  {
    forall s | s in filter ensures IsRegistered(m, s) {
      assert Explained(m.active, [], false, s);
      assert m.active[Lower(m.active, s)].subject == s;
    }
  }

  lemma PollAgrees(m: Inner, filter: set<nat>)
    requires Agrees(m, filter)
    ensures Sound(m, filter, Poll(m).1) && Agrees(Poll(m).0, ReplayPolled(filter, Poll(m).1))
  {
    if m.cleanUpQueue != [] || m.cleanUpLast {
      PollSweep(m, filter);
    } else if m.activationQueue != [] {
      PollActivate(m, filter);
    } else {
      PollPending(m, filter);
    }
  }

  lemma PushStartAgrees(m: Inner, filter: set<nat>, s: Subject)
    requires Agrees(m, filter)
    ensures Agrees(PushStart(m, s), filter)
    ensures var k := Lower(m.active, s); k < |m.active| ==> m.active[k] in m.heads
  {
    var k := Lower(m.active, s);
    LowerIs(m.active, s);
    if k < |m.active| {
      assert HeadAt(m.active, m.heads, k);
    }
  }

  lemma PushNextAgrees(m: Inner, filter: set<nat>)
    requires Agrees(m, filter)
    ensures Agrees(PushNext(m).0, filter)
  {
  }

  // ---------------------------------------------------------------- runs

  datatype Event =
    | RegisterEntry(entry: Entry)
    | UnregisterEntry(entry: Entry)
    | PollFilter
    | StartPush(subject: Subject)
    | NextPush

  predicate Registered(m: Inner, e: Entry) {
    e in m.active || e in m.inactive
  }

  /** Entries are registered once and unregistered when registered. */
  predicate Allowed(m: Inner, ev: Event) {
    match ev
    case RegisterEntry(e) => !Registered(m, e)
    case UnregisterEntry(e) => Registered(m, e)
    case _ => true
  }

  function Apply(m: Inner, ev: Event): Inner {
    match ev
    case RegisterEntry(e) => Register(m, e).0
    case UnregisterEntry(e) => Unregister(m, e)
    case PollFilter => Poll(m).0
    case StartPush(s) => PushStart(m, s)
    case NextPush => PushNext(m).0
  }

  /** What the driver's filter becomes. */
  function Filter(m: Inner, filter: set<nat>, ev: Event): set<nat> {
    if ev.PollFilter? then ReplayPolled(filter, Poll(m).1) else filter
  }

  /** State and filter after a run of atomic steps in any order. */
  function Run(slots: nat, events: seq<Event>): (Inner, set<nat>) {
    if events == [] then (NewInner(slots), {})
    else
      var (m, filter) := Run(slots, events[..|events| - 1]);
      (Apply(m, events[|events| - 1]), Filter(m, filter, events[|events| - 1]))
  }

  ghost predicate AllAllowed(slots: nat, events: seq<Event>) {
    forall i :: 0 <= i < |events| ==> Allowed(Run(slots, events[..i]).0, events[i])
  }

  lemma StepAgrees(m: Inner, filter: set<nat>, ev: Event)
    requires Agrees(m, filter) && Allowed(m, ev)
    ensures Agrees(Apply(m, ev), Filter(m, filter, ev))
  {
    match ev
    case RegisterEntry(e) => RegisterAgrees(m, filter, e);
    case UnregisterEntry(e) => UnregisterAgrees(m, filter, e);
    case PollFilter => PollAgrees(m, filter);
    case StartPush(s) => PushStartAgrees(m, filter, s);
    case NextPush => PushNextAgrees(m, filter);
  }

  lemma PrefixAllowed(slots: nat, events: seq<Event>, n: nat)
    requires AllAllowed(slots, events) && n <= |events|
    ensures AllAllowed(slots, events[..n])
  {
    forall i | 0 <= i < n ensures Allowed(Run(slots, events[..n][..i]).0, events[..n][i]) {
      assert events[..n][..i] == events[..i];
    }
  }

  lemma {:induction false} RunAgrees(slots: nat, events: seq<Event>)
    requires AllAllowed(slots, events)
    ensures Agrees(Run(slots, events).0, Run(slots, events).1)
  {
    if events != [] {
      var n := |events| - 1;
      PrefixAllowed(slots, events, n);
      RunAgrees(slots, events[..n]);
      StepAgrees(Run(slots, events[..n]).0, Run(slots, events[..n]).1, events[n]);
    } else {
      assert Agrees(NewInner(slots), {});
    }
  }

  /** Filter agreement: however registrations, removals, polls and pushes interleave, every active subject is
      in the filter, no update adds a subject twice or removes an active one, and when there is no update left
      the filter holds exactly the registered subjects. */
  lemma FilterAgreesInEveryRun(slots: nat, events: seq<Event>)
    requires AllAllowed(slots, events)
    ensures var (m, filter) := Run(slots, events);
      && (forall i :: 0 <= i < |m.active| ==> m.active[i].subject in filter)
      && Sound(m, filter, Poll(m).1)
  {
    RunAgrees(slots, events);
    PollAgrees(Run(slots, events).0, Run(slots, events).1);
  }

  // ---------------------------------------------------------------- the filter poller is woken

  predicate NothingToPoll(m: Inner) {
    m.cleanUpQueue == [] && !m.cleanUpLast && m.activationQueue == []
  }

  /** An update is available only to a woken poller. */
  ghost predicate Awake(m: Inner) {
    NothingToPoll(m) || m.woken
  }

  lemma StepAwake(m: Inner, filter: set<nat>, ev: Event)
    requires Agrees(m, filter) && Allowed(m, ev) && Awake(m)
    ensures Awake(Apply(m, ev))
  {
  }

  /** In every run the filter poller was woken whenever an update is available. */
  lemma {:induction false} UpdatesWake(slots: nat, events: seq<Event>)
    requires AllAllowed(slots, events)
    ensures NothingToPoll(Run(slots, events).0) || Run(slots, events).0.woken
  {
    if events != [] {
      var n := |events| - 1;
      PrefixAllowed(slots, events, n);
      UpdatesWake(slots, events[..n]);
      RunAgrees(slots, events[..n]);
      StepAwake(Run(slots, events[..n]).0, Run(slots, events[..n]).1, events[n]);
    }
  }
}
