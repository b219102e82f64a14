/** The subscription registry: registration, removal, filter updates and delivery, as separate atomic steps. */
module Registry {
  import opened Lists
  import opened Wrappers

  const MAX_SUBJECT: nat := 0x1fff

  type Subject = s: nat | s <= MAX_SUBJECT

  /** A subscription; the frames it was given stand for its buffer. */
  class Entry {
    const subject: Subject
    var isActive: bool
    var isHead: bool
    var frames: nat

    constructor (subject: Subject)
      ensures this.subject == subject && !isActive && !isHead && frames == 0
    {
      this.subject, isActive, isHead, frames := subject, false, false, 0;
    }
  }

  // ---------------------------------------------------------------- ordered trees

  /** Ascending subjects, entries of one subject in the order they came. */
  ghost predicate Ordered(t: seq<Entry>) {
    forall i, j :: 0 <= i < j < |t| ==> t[i].subject <= t[j].subject && t[i] != t[j]
  }

  /** Number of entries with a subject below `s`. */
  function Lower(t: seq<Entry>, s: nat): (k: nat)
    ensures k <= |t|
  {
    if t == [] || t[0].subject >= s then 0 else 1 + Lower(t[1..], s)
  }

  /** Number of entries with a subject up to `s`. */
  function Upper(t: seq<Entry>, s: nat): nat {
    Lower(t, s + 1)
  }

  lemma {:induction false} LowerIs(t: seq<Entry>, s: nat)
    requires Ordered(t)
    ensures forall i :: 0 <= i < |t| ==> (t[i].subject < s <==> i < Lower(t, s))
  {
    if t != [] && t[0].subject < s {
      assert Ordered(t[1..]);
      LowerIs(t[1..], s);
      forall i | 0 <= i < |t| ensures t[i].subject < s <==> i < Lower(t, s) {
        assert i > 0 ==> t[i] == t[1..][i - 1];
      }
    }
  }

  /** The neighbours of a position decide whether it is the lower bound. */
  lemma LowerAt(t: seq<Entry>, s: nat, k: nat)
    requires Ordered(t) && k <= |t|
    requires k > 0 ==> t[k - 1].subject < s
    requires k < |t| ==> s <= t[k].subject
    ensures Lower(t, s) == k
  {
    LowerIs(t, s);
  }

  predicate HasSubject(t: seq<Entry>, s: nat) {
    var k := Upper(t, s);
    k > 0 && k <= |t| && t[k - 1].subject == s
  }

  lemma HasSubjectIs(t: seq<Entry>, s: nat)
    requires Ordered(t)
    ensures HasSubject(t, s) <==> exists i :: 0 <= i < |t| && t[i].subject == s
  {
    LowerIs(t, s + 1);
  }

  function InsertOrdered(t: seq<Entry>, e: Entry): seq<Entry> {
    InsertAt(t, Upper(t, e.subject), e)
  }

  lemma InsertOrders(t: seq<Entry>, e: Entry)
    requires Ordered(t) && e !in t
    ensures Ordered(InsertOrdered(t, e))
  {
    LowerIs(t, e.subject + 1);
    forall i | 0 <= i < |t| ensures t[i] != e {
      assert t[i] in t;
    }
  }

  lemma InsertKeeps(t: seq<Entry>, e: Entry)
    requires Ordered(t) && e !in t
    ensures Ordered(InsertOrdered(t, e))
    ensures forall x :: x in InsertOrdered(t, e) <==> x == e || x in t
  {
    InsertOrders(t, e);
    InsertMembers(t, Upper(t, e.subject), e);
  }

  lemma RemoveKeeps(t: seq<Entry>, k: nat)
    requires Ordered(t) && k < |t|
    ensures Ordered(RemoveAt(t, k))
    ensures forall x :: x in RemoveAt(t, k) <==> x != t[k] && x in t
  {
    var r := RemoveAt(t, k);
    forall x | x in t && x != t[k] ensures x in r {
      var i :| 0 <= i < |t| && t[i] == x;
      assert r[if i < k then i else i - 1] == x;
    }
  }

  // ---------------------------------------------------------------- the state and its steps

  datatype Inner = Inner(
    inactive: seq<Entry>,
    active: seq<Entry>,
    heads: set<Entry>,
    nextPush: Option<Entry>,
    cleanUpQueue: seq<Entry>,
    cleanUpLast: bool,
    activationQueue: seq<Entry>,
    freeSlots: nat,
    woken: bool)

  datatype FilterUpdate = AddSubject(subject: nat) | RemoveSubjectRange(first: int, last: int)

  datatype Polled = Ready(update: FilterUpdate) | CallAgain | Pending

  function NewInner(slots: nat): Inner {
    Inner([], [], {}, None, [], false, [], slots, false)
  }

  /** A subscription to a subject that has a slot joins it, to any other subject takes a slot. */
  function Register(m: Inner, e: Entry): (Inner, bool) {
    if HasSubject(m.inactive, e.subject) then
      (m.(inactive := InsertOrdered(m.inactive, e), activationQueue := m.activationQueue + [e]), true)
    else if HasSubject(m.active, e.subject) then
      (m.(active := InsertOrdered(m.active, e)), true)
    else if m.freeSlots == 0 then (m, false)
    else
      (m.(inactive := InsertOrdered(m.inactive, e), activationQueue := m.activationQueue + [e],
          freeSlots := m.freeSlots - 1, woken := true), true)
  }

  /** The push in progress skips a removed entry. */
  function SkipRemoved(next: Option<Entry>, e: Entry, following: Option<Entry>, heads: set<Entry>): Option<Entry> {
    if next != Some(e) then next
    else if following.Some? && following.value !in heads then following
    else None
  }

  function At(t: seq<Entry>, k: nat): Option<Entry> {
    if k < |t| then Some(t[k]) else None
  }

  function UnregisterHead(m: Inner, e: Entry): Inner
    requires e in m.active
  {
    var k := Find(m.active, e);
    var rest, mark, queue := RemoveAt(m.active, k), e in m.cleanUpQueue, Without(m.cleanUpQueue, e);
    var next := SkipRemoved(m.nextPush, e, At(rest, k), m.heads);
    if k < |rest| then
      var n := rest[k];
      var marks := (mark || n in m.heads) && n !in queue;
      m.(active := rest, heads := m.heads - {e} + {n}, nextPush := next,
         cleanUpQueue := if marks then queue + [n] else queue,
         freeSlots := if marks then m.freeSlots + 1 else m.freeSlots,
         woken := m.woken || marks)
    else
      m.(active := rest, heads := m.heads - {e}, nextPush := next, cleanUpQueue := queue,
         cleanUpLast := true, freeSlots := m.freeSlots + 1, woken := true)
  }

  function UnregisterTail(m: Inner, e: Entry): Inner
    requires e in m.active
  {
    var k := Find(m.active, e);
    var rest := RemoveAt(m.active, k);
    m.(active := rest, nextPush := SkipRemoved(m.nextPush, e, At(rest, k), m.heads))
  }

  function UnregisterInactive(m: Inner, e: Entry): Inner {
    m.(inactive := Without(m.inactive, e), activationQueue := Without(m.activationQueue, e))
  }

  function Unregister(m: Inner, e: Entry): Inner {
    if e in m.active then
      if e in m.heads then UnregisterHead(m, e) else UnregisterTail(m, e)
    else UnregisterInactive(m, e)
  }

  function PushStart(m: Inner, s: Subject): Inner {
    var k := Lower(m.active, s);
    m.(nextPush := if k < |m.active| && m.active[k].subject == s then Some(m.active[k]) else None)
  }

  /** The entry that gets the frame, if the push is not over. */
  function PushNext(m: Inner): (Inner, Option<Entry>) {
    match m.nextPush
    case None => (m, None)
    case Some(e) =>
      if e in m.active then
        var following := At(m.active, Find(m.active, e) + 1);
        (m.(nextPush := if following.Some? && following.value !in m.heads then following else None), Some(e))
      else (m, None)
  }

  /** First subject after the entry before position `k`. */
  function After(t: seq<Entry>, k: nat): nat
    requires k <= |t|
  {
    if k == 0 then 0 else t[k - 1].subject + 1
  }

  function Poll(m: Inner): (Inner, Polled) {
    if m.cleanUpQueue != [] then
      var e := m.cleanUpQueue[0];
      var first := if e in m.active then After(m.active, Find(m.active, e)) else 0;
      (m.(cleanUpQueue := m.cleanUpQueue[1..]), Ready(RemoveSubjectRange(first, e.subject - 1)))
    else if m.cleanUpLast then
      (m.(cleanUpLast := false), Ready(RemoveSubjectRange(After(m.active, |m.active|), MAX_SUBJECT)))
    else if m.activationQueue != [] then
      var e := m.activationQueue[0];
      var known := HasSubject(m.active, e.subject);
      (m.(inactive := Without(m.inactive, e), activationQueue := m.activationQueue[1..],
          active := InsertOrdered(m.active, e), heads := if known then m.heads - {e} else m.heads + {e}),
       if known then CallAgain else Ready(AddSubject(e.subject)))
    else (m.(woken := false), Pending)
  }

  // ---------------------------------------------------------------- what every step keeps

  ghost predicate IsFirst(t: seq<Entry>, i: int) {
    0 <= i < |t| && (i == 0 || t[i - 1].subject < t[i].subject)
  }

  ghost predicate HeadAt(t: seq<Entry>, heads: set<Entry>, i: int) {
    0 <= i < |t| && (t[i] in heads <==> IsFirst(t, i))
  }

  /** The heads are the first active entries of their subjects. */
  ghost predicate HeadsRight(t: seq<Entry>, heads: set<Entry>) {
    && (forall i :: 0 <= i < |t| ==> HeadAt(t, heads, i))
    && (forall e :: e in heads ==> e in t)
  }

  /** Between an entry in the queue and the one before it there is a subject. */
  ghost predicate MarkAt(t: seq<Entry>, queue: seq<Entry>, i: int) {
    0 <= i < |t| && (t[i] in queue ==> After(t, i) < t[i].subject)
  }

  /** A marked entry is active, and there is a subject between it and the entry before it. */
  ghost predicate MarksRight(t: seq<Entry>, queue: seq<Entry>) {
    && NoRepeats(queue)
    && (forall e :: e in queue ==> e in t)
    && (forall i :: 0 <= i < |t| ==> MarkAt(t, queue, i))
  }

  ghost predicate QueueRight(inactive: seq<Entry>, activation: seq<Entry>) {
    && NoRepeats(activation) && |activation| == |inactive|
    && (forall e :: e in activation ==> e in inactive)
    && (forall e :: e in inactive ==> e in activation)
  }

  ghost predicate Inv(m: Inner) {
    && Ordered(m.active) && Ordered(m.inactive)
    && (forall e :: e in m.active ==> e !in m.inactive)
    && HeadsRight(m.active, m.heads)
    && MarksRight(m.active, m.cleanUpQueue)
    && (m.cleanUpLast ==> After(m.active, |m.active|) <= MAX_SUBJECT)
    && QueueRight(m.inactive, m.activationQueue)
    && (m.nextPush.Some? ==> m.nextPush.value in m.active)
  }

  /** A subject in the filter is active, or a removal range still to come covers it. */
  ghost predicate Explained(t: seq<Entry>, queue: seq<Entry>, last: bool, d: nat) {
    var k := Lower(t, d);
    if k < |t| then t[k].subject == d || t[k] in queue else last
  }

  ghost predicate Agree(t: seq<Entry>, queue: seq<Entry>, last: bool, filter: set<nat>) {
    && (forall i :: 0 <= i < |t| ==> t[i].subject in filter)
    && (forall d :: d in filter ==> d <= MAX_SUBJECT && Explained(t, queue, last, d))
  }

  /** Replaying an update on the driver's filter. */
  function Replay(filter: set<nat>, update: FilterUpdate): set<nat> {
    match update
    case AddSubject(s) => filter + {s}
    case RemoveSubjectRange(first, last) => set d | d in filter && !(first <= d <= last)
  }

  function ReplayPolled(filter: set<nat>, p: Polled): set<nat> {
    match p
    case Ready(u) => Replay(filter, u)
    case CallAgain => filter
    case Pending => filter
  }

  lemma FirstOf(t: seq<Entry>, d: nat, i: nat)
    requires Ordered(t) && i < |t| && t[i].subject == d
    ensures Lower(t, d) < |t| && t[Lower(t, d)].subject == d
  {
    LowerIs(t, d);
  }

  // ---------------------------------------------------------------- joining the active tree

  lemma UpperIs(t: seq<Entry>, s: nat)
    requires Ordered(t)
    ensures var k := Upper(t, s);
      && k <= |t|
      && (k > 0 ==> t[k - 1].subject <= s)
      && (k < |t| ==> s < t[k].subject)
  {
    LowerIs(t, s + 1);
  }

  lemma JoinHeads(t: seq<Entry>, heads: set<Entry>, e: Entry)
    requires Ordered(t) && HeadsRight(t, heads) && e !in t
    ensures HeadsRight(InsertOrdered(t, e), if HasSubject(t, e.subject) then heads - {e} else heads + {e})
  {
    var r, k := InsertOrdered(t, e), Upper(t, e.subject);
    var heads' := if HasSubject(t, e.subject) then heads - {e} else heads + {e};
    UpperIs(t, e.subject);
    InsertMembers(t, k, e);
    forall i | 0 <= i < |r| ensures HeadAt(r, heads', i) {
      if i < k {
        assert HeadAt(t, heads, i);
      } else if i > k {
        assert HeadAt(t, heads, i - 1) && r[i] == t[i - 1];
      }
    }
  }

  lemma JoinMarks(t: seq<Entry>, queue: seq<Entry>, e: Entry)
    requires Ordered(t) && MarksRight(t, queue) && e !in t && (HasSubject(t, e.subject) || queue == [])
    ensures MarksRight(InsertOrdered(t, e), queue)
  {
    var r, k := InsertOrdered(t, e), Upper(t, e.subject);
    UpperIs(t, e.subject);
    InsertMembers(t, k, e);
    forall i | 0 <= i < |r| ensures MarkAt(r, queue, i) {
      if i < k {
        assert MarkAt(t, queue, i);
      } else if i > k {
        assert MarkAt(t, queue, i - 1) && r[i] == t[i - 1];
      }
    }
  }

  /** Where the lower bounds go. */
  lemma JoinLower(t: seq<Entry>, e: Entry, d: nat)
    requires Ordered(t) && e !in t && Lower(t, d) < |t| && (d != e.subject || HasSubject(t, d))
    requires t[Lower(t, d)].subject == d || HasSubject(t, e.subject)
    ensures Lower(InsertOrdered(t, e), d) < |t| + 1
    ensures InsertOrdered(t, e)[Lower(InsertOrdered(t, e), d)] == t[Lower(t, d)]
  {
    var r, j, k := InsertOrdered(t, e), Lower(t, d), Upper(t, e.subject);
    InsertOrders(t, e);
    LowerIs(t, d);
    LowerIs(t, e.subject + 1);
    LowerAt(r, d, if j < k then j else j + 1);
  }

  lemma JoinLowerLast(t: seq<Entry>, e: Entry, d: nat)
    requires Ordered(t) && e !in t && Lower(t, d) == |t| && HasSubject(t, e.subject)
    ensures Lower(InsertOrdered(t, e), d) == |t| + 1
  {
    InsertOrders(t, e);
    LowerIs(t, d);
    LowerIs(t, e.subject + 1);
    LowerAt(InsertOrdered(t, e), d, |t| + 1);
  }

  /** Joining as the last entry of an active subject. */
  lemma JoinTail(t: seq<Entry>, queue: seq<Entry>, last: bool, filter: set<nat>, e: Entry)
    requires Ordered(t) && Agree(t, queue, last, filter) && e !in t && HasSubject(t, e.subject)
    ensures Agree(InsertOrdered(t, e), queue, last, filter)
    ensures After(InsertOrdered(t, e), |t| + 1) == After(t, |t|)
  {
    var r, k := InsertOrdered(t, e), Upper(t, e.subject);
    UpperIs(t, e.subject);
    forall i | 0 <= i < |r| ensures r[i].subject in filter {
      assert r[i].subject == if i < k then t[i].subject else t[i - 1].subject;
    }
    forall d | d in filter ensures Explained(r, queue, last, d) {
      assert Explained(t, queue, last, d);
      JoinExplained(t, queue, last, d, e);
    }
  }

  lemma JoinExplained(t: seq<Entry>, queue: seq<Entry>, last: bool, d: nat, e: Entry)
    requires Ordered(t) && Explained(t, queue, last, d) && e !in t && HasSubject(t, e.subject)
    ensures Explained(InsertOrdered(t, e), queue, last, d)
  {
    if Lower(t, d) < |t| {
      if d == e.subject {
        assert HasSubject(t, d);
      }
      JoinLower(t, e, d);
    } else {
      JoinLowerLast(t, e, d);
    }
  }

  /** Joining as the first entry of a subject, when no removal is pending. */
  lemma JoinHead(t: seq<Entry>, filter: set<nat>, e: Entry)
    requires Ordered(t) && Agree(t, [], false, filter) && e !in t && !HasSubject(t, e.subject)
    ensures e.subject !in filter
    ensures Agree(InsertOrdered(t, e), [], false, filter + {e.subject})
  {
    var r, k := InsertOrdered(t, e), Upper(t, e.subject);
    HasSubjectIs(t, e.subject);
    InsertKeeps(t, e);
    assert e.subject in filter ==> Explained(t, [], false, e.subject);
    forall i | 0 <= i < |r| ensures r[i].subject in filter + {e.subject} {
      assert i != k ==> r[i] == t[if i < k then i else i - 1];
    }
    forall d | d in filter + {e.subject} ensures Explained(r, [], false, d) {
      if d == e.subject {
        FirstOf(r, d, k);
      } else {
        assert Explained(t, [], false, d);
        JoinLower(t, e, d);
      }
    }
  }

  // ---------------------------------------------------------------- leaving the active tree

  /** The heads after the entry at `k` left: the one after a head is one. */
  lemma LeaveHeads(t: seq<Entry>, heads: set<Entry>, k: nat)
    requires Ordered(t) && HeadsRight(t, heads) && k < |t|
    ensures HeadsRight(RemoveAt(t, k),
                       if t[k] !in heads then heads
                       else if k + 1 < |t| then heads - {t[k]} + {t[k + 1]} else heads - {t[k]})
  {
    var r := RemoveAt(t, k);
    var heads' := if t[k] !in heads then heads else if k + 1 < |t| then heads - {t[k]} + {t[k + 1]} else heads - {t[k]};
    RemoveKeeps(t, k);
    assert HeadAt(t, heads, k);
    forall i | 0 <= i < |r| ensures HeadAt(r, heads', i) {
      assert HeadAt(t, heads, if i < k then i else i + 1);
    }
  }

  lemma LeaveMarks(t: seq<Entry>, queue: seq<Entry>, k: nat, queue': seq<Entry>)
    requires Ordered(t) && MarksRight(t, queue) && k < |t| && NoRepeats(queue')
    requires forall e :: e in queue' ==> e != t[k] && (e in queue || (k + 1 < |t| && e == t[k + 1]))
    requires k + 1 < |t| && t[k + 1] in queue' ==>
      t[k] in queue || t[k + 1] in queue || (IsFirst(t, k) && t[k].subject < t[k + 1].subject)
    ensures MarksRight(RemoveAt(t, k), queue')
  {
    var r := RemoveAt(t, k);
    RemoveKeeps(t, k);
    assert MarkAt(t, queue, k);
    forall i | 0 <= i < |r| ensures MarkAt(r, queue', i) {
      assert MarkAt(t, queue, if i < k then i else i + 1);
    }
  }

  lemma LeaveLower(t: seq<Entry>, k: nat, d: nat)
    requires Ordered(t) && k < |t|
    ensures var j := Lower(t, d); Lower(RemoveAt(t, k), d) == if j <= k then j else j - 1
  {
    var j := Lower(t, d);
    LowerIs(t, d);
    RemoveKeeps(t, k);
    LowerAt(RemoveAt(t, k), d, if j <= k then j else j - 1);
  }

  lemma LeaveActive(t: seq<Entry>, queue: seq<Entry>, last: bool, filter: set<nat>, k: nat)
    requires Agree(t, queue, last, filter) && k < |t|
    ensures forall i :: 0 <= i < |t| - 1 ==> RemoveAt(t, k)[i].subject in filter
  {
    forall i | 0 <= i < |t| - 1 ensures RemoveAt(t, k)[i].subject in filter {
      assert RemoveAt(t, k)[i] == t[if i < k then i else i + 1];
    }
  }

  lemma LeaveExplained(t: seq<Entry>, queue: seq<Entry>, last: bool, k: nat, queue': seq<Entry>, last': bool, d: nat)
    requires Ordered(t) && Explained(t, queue, last, d) && k < |t|
    requires forall e :: e in queue && e != t[k] ==> e in queue'
    requires last ==> last'
    requires if k + 1 == |t| then last'
             else t[k + 1] in queue' || (t[k] !in queue && t[k].subject == t[k + 1].subject)
    ensures Explained(RemoveAt(t, k), queue', last', d)
  {
    LeaveLower(t, k, d);
    var j := Lower(t, d);
    assert j < |t| && j != k ==> t[j] != t[k];
  }

  /** A removed head leaves its subject to the next entry, which is of the same subject or marked. */
  lemma LeaveAgree(t: seq<Entry>, queue: seq<Entry>, last: bool, filter: set<nat>, k: nat, queue': seq<Entry>,
                   last': bool)
    requires Ordered(t) && Agree(t, queue, last, filter) && k < |t|
    requires forall e :: e in queue && e != t[k] ==> e in queue'
    requires last ==> last'
    requires if k + 1 == |t| then last'
             else t[k + 1] in queue' || (t[k] !in queue && t[k].subject == t[k + 1].subject)
    ensures Agree(RemoveAt(t, k), queue', last', filter)
  {
    LeaveActive(t, queue, last, filter, k);
    forall d | d in filter ensures Explained(RemoveAt(t, k), queue', last', d) {
      LeaveExplained(t, queue, last, k, queue', last', d);
    }
  }

  /** An entry that is not the first of its subject leaves without a trace. */
  lemma LeaveTailAgree(t: seq<Entry>, queue: seq<Entry>, last: bool, filter: set<nat>, k: nat)
    requires Ordered(t) && Agree(t, queue, last, filter) && 0 < k < |t| && t[k - 1].subject == t[k].subject
    ensures Agree(RemoveAt(t, k), queue, last, filter)
  {
    LeaveActive(t, queue, last, filter, k);
    forall d | d in filter ensures Explained(RemoveAt(t, k), queue, last, d) {
      assert Explained(t, queue, last, d);
      LeaveLower(t, k, d);
      LowerIs(t, d);
      var j := Lower(t, d);
      assert j != k;
    }
  }

  // ---------------------------------------------------------------- removal ranges

  /** Dropping a mark with the range it stands for. */
  lemma SweepMark(t: seq<Entry>, queue: seq<Entry>, last: bool, filter: set<nat>, e: Entry)
    requires Ordered(t) && MarksRight(t, queue) && Agree(t, queue, last, filter) && queue != [] && e == queue[0]
    ensures e in t
    ensures var first := After(t, Find(t, e));
      && first <= e.subject - 1
      && (forall i :: 0 <= i < |t| ==> !(first <= t[i].subject <= e.subject - 1))
      && MarksRight(t, queue[1..])
      && Agree(t, queue[1..], last, Replay(filter, RemoveSubjectRange(first, e.subject - 1)))
  {
    var k := Find(t, e);
    var first := After(t, k);
    assert MarkAt(t, queue, k);
    SweepMarks(t, queue);
    forall i | 0 <= i < |t| ensures !(first <= t[i].subject <= e.subject - 1) {
      assert i < k ==> t[i].subject <= t[k - 1].subject;
    }
    forall d | d in filter && !(first <= d <= e.subject - 1) ensures Explained(t, queue[1..], last, d) {
      assert Explained(t, queue, last, d);
      SweptExplained(t, queue, last, k, d);
    }
  }

  lemma SweepMarks(t: seq<Entry>, queue: seq<Entry>)
    requires MarksRight(t, queue) && queue != []
    ensures MarksRight(t, queue[1..])
  {
    assert forall x :: x in queue[1..] ==> x in queue;
    forall i | 0 <= i < |t| ensures MarkAt(t, queue[1..], i) {
      assert MarkAt(t, queue, i);
    }
  }

  lemma SweptExplained(t: seq<Entry>, queue: seq<Entry>, last: bool, k: nat, d: nat)
    requires Ordered(t) && queue != [] && k < |t| && t[k] == queue[0] && Explained(t, queue, last, d)
    requires !(After(t, k) <= d <= t[k].subject - 1)
    ensures Explained(t, queue[1..], last, d)
  {
    LowerIs(t, d);
    assert queue == [queue[0]] + queue[1..];
  }

  /** Dropping everything after the last active entry. */
  lemma SweepLast(t: seq<Entry>, filter: set<nat>)
    requires Ordered(t) && Agree(t, [], true, filter)
    ensures var first := After(t, |t|);
      && (forall i :: 0 <= i < |t| ==> !(first <= t[i].subject <= MAX_SUBJECT))
      && Agree(t, [], false, Replay(filter, RemoveSubjectRange(first, MAX_SUBJECT)))
  {
    var swept := Replay(filter, RemoveSubjectRange(After(t, |t|), MAX_SUBJECT));
    forall d | d in swept ensures Explained(t, [], false, d) {
      LowerIs(t, d);
      assert Explained(t, [], true, d);
    }
  }
}
