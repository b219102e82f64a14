/** Subject slots: when they are conserved, and when not. */
module Slots {
  import opened Lists
  import opened Wrappers
  import opened Registry
  import opened FilterAgreement

  function SubjectsOf(t: seq<Entry>): set<nat> {
    if t == [] then {} else {t[0].subject} + SubjectsOf(t[1..])
  }

  lemma {:induction false} SubjectsAre(t: seq<Entry>, s: nat)
    ensures s in SubjectsOf(t) <==> exists e :: e in t && e.subject == s
  {
    if t != [] {
      SubjectsAre(t[1..], s);
      assert t == [t[0]] + t[1..];
    }
  }

  /** The distinct subjects with a registered entry. */
  function Subjects(m: Inner): set<nat> {
    SubjectsOf(m.active) + SubjectsOf(m.inactive)
  }

  ghost predicate Conserved(m: Inner, slots: nat) {
    m.freeSlots + |Subjects(m)| == slots
  }

  /** Another entry of the same subject. */
  ghost predicate HasOther(t: seq<Entry>, e: Entry) {
    exists x :: x in t && x != e && x.subject == e.subject
  }

  lemma InsertSubjects(t: seq<Entry>, e: Entry)
    requires Ordered(t) && e !in t
    ensures SubjectsOf(InsertOrdered(t, e)) == SubjectsOf(t) + {e.subject}
  {
    InsertKeeps(t, e);
    forall s: nat ensures s in SubjectsOf(InsertOrdered(t, e)) <==> s in SubjectsOf(t) + {e.subject} {
      SubjectsAre(InsertOrdered(t, e), s);
      SubjectsAre(t, s);
      assert e in InsertOrdered(t, e);
    }
  }

  lemma RemoveSubjects(t: seq<Entry>, k: nat)
    requires Ordered(t) && k < |t|
    ensures t[k].subject in SubjectsOf(t)
    ensures SubjectsOf(RemoveAt(t, k)) == if HasOther(t, t[k]) then SubjectsOf(t) else SubjectsOf(t) - {t[k].subject}
  {
    RemoveKeeps(t, k);
    SubjectsAre(t, t[k].subject);
    assert t[k] in t;
    forall s: nat
      ensures s in SubjectsOf(RemoveAt(t, k)) <==> s in SubjectsOf(t) && (s == t[k].subject ==> HasOther(t, t[k]))
    {
      SubjectsAre(RemoveAt(t, k), s);
      SubjectsAre(t, s);
    }
  }

  lemma HasSubjectSubjects(t: seq<Entry>, s: nat)
    requires Ordered(t)
    ensures HasSubject(t, s) <==> s in SubjectsOf(t)
  {
    HasSubjectIs(t, s);
    SubjectsAre(t, s);
    if HasSubject(t, s) {
      assert t[Upper(t, s) - 1] in t;
    }
  }

  // ---------------------------------------------------------------- registering and polling conserve

  /** A registered entry brings its subject, if it was not there yet and there is a slot. */
  lemma RegisteredSubjects(m: Inner, e: Entry)
    requires Inv(m) && !Registered(m, e)
    ensures Subjects(Register(m, e).0)
         == if e.subject !in Subjects(m) && m.freeSlots == 0 then Subjects(m) else Subjects(m) + {e.subject}
    ensures Register(m, e).0.freeSlots
         == if e.subject in Subjects(m) || m.freeSlots == 0 then m.freeSlots else m.freeSlots - 1
  {
    HasSubjectSubjects(m.inactive, e.subject);
    HasSubjectSubjects(m.active, e.subject);
    if HasSubject(m.inactive, e.subject) || !HasSubject(m.active, e.subject) {
      InsertSubjects(m.inactive, e);
    } else {
      InsertSubjects(m.active, e);
    }
  }

  lemma RegisterConserves(m: Inner, slots: nat, e: Entry)
    requires Inv(m) && Conserved(m, slots) && !Registered(m, e)
    ensures Conserved(Register(m, e).0, slots)
  {
    RegisteredSubjects(m, e);
    assert e.subject in Subjects(m) ==> Subjects(m) + {e.subject} == Subjects(m);
  }

  lemma PollConserves(m: Inner, slots: nat)
    requires Inv(m) && Conserved(m, slots)
    ensures Conserved(Poll(m).0, slots)
  {
    if m.cleanUpQueue == [] && !m.cleanUpLast && m.activationQueue != [] {
      var e := m.activationQueue[0];
      FirstActivates(m.active, m.inactive, m.activationQueue);
      InsertSubjects(m.active, e);
      RemoveSubjects(m.inactive, Find(m.inactive, e));
      assert Subjects(Poll(m).0) == Subjects(m);
    }
  }

  // ---------------------------------------------------------------- unregistering

  /** The guard of `Unregister`: what decides whether a slot is given back exactly when a subject goes. */
  ghost predicate GivesBackRight(m: Inner, e: Entry) {
    if e !in m.active then HasOther(m.inactive, e) || e.subject in SubjectsOf(m.active)
    else if e !in m.heads then true
    else
      var k := Find(m.active, e);
      if k + 1 < |m.active| && m.active[k + 1] !in m.heads then e !in m.cleanUpQueue
      else (k + 1 < |m.active| && m.active[k + 1] in m.cleanUpQueue) <==> e.subject in SubjectsOf(m.inactive)
  }

  lemma TailHasOther(t: seq<Entry>, heads: set<Entry>, k: nat)
    requires Ordered(t) && HeadsRight(t, heads) && k < |t| && t[k] !in heads
    ensures HasOther(t, t[k])
  {
    assert HeadAt(t, heads, k);
    assert t[k - 1] in t;
  }

  lemma HeadHasOther(t: seq<Entry>, heads: set<Entry>, k: nat)
    requires Ordered(t) && HeadsRight(t, heads) && k < |t| && t[k] in heads
    ensures HasOther(t, t[k]) <==> k + 1 < |t| && t[k + 1] !in heads
  {
    assert HeadAt(t, heads, k);
    if k + 1 < |t| {
      assert HeadAt(t, heads, k + 1) && t[k + 1] in t;
    }
    if HasOther(t, t[k]) {
      var x :| x in t && x != t[k] && x.subject == t[k].subject;
      var i :| 0 <= i < |t| && t[i] == x;
      assert k + 1 < i ==> t[k + 1].subject <= t[i].subject;
    }
  }

  /** A marked entry is a head. */
  lemma MarkedIsHead(t: seq<Entry>, heads: set<Entry>, queue: seq<Entry>, k: nat)
    requires HeadsRight(t, heads) && MarksRight(t, queue) && k < |t| && t[k] in queue
    ensures t[k] in heads
  {
    assert HeadAt(t, heads, k) && MarkAt(t, queue, k);
  }

  lemma LessSubjects(a: set<nat>, b: set<nat>, s: nat)
    requires s in a
    ensures (if s in b then a - {s} + b == a + b else a - {s} + b == a + b - {s})
    ensures |a + b - {s}| == |a + b| - 1
  {
  }

  /** The subject of a removed entry goes when no other entry has it. */
  ghost predicate Gone(m: Inner, e: Entry) {
    if e in m.active then !HasOther(m.active, e) && e.subject !in SubjectsOf(m.inactive)
    else !HasOther(m.inactive, e) && e.subject !in SubjectsOf(m.active)
  }

  lemma ActiveGone(m: Inner, r: Inner, e: Entry)
    requires Ordered(m.active) && e in m.active
    requires r.active == RemoveAt(m.active, Find(m.active, e)) && r.inactive == m.inactive
    ensures |Subjects(r)| == if Gone(m, e) then |Subjects(m)| - 1 else |Subjects(m)|
  {
    RemoveSubjects(m.active, Find(m.active, e));
    LessSubjects(SubjectsOf(m.active), SubjectsOf(m.inactive), e.subject);
  }

  lemma InactiveGone(m: Inner, r: Inner, e: Entry)
    requires Ordered(m.inactive) && e !in m.active && e in m.inactive
    requires r.inactive == RemoveAt(m.inactive, Find(m.inactive, e)) && r.active == m.active
    ensures |Subjects(r)| == if Gone(m, e) then |Subjects(m)| - 1 else |Subjects(m)|
  {
    RemoveSubjects(m.inactive, Find(m.inactive, e));
    LessSubjects(SubjectsOf(m.inactive), SubjectsOf(m.active), e.subject);
    assert Subjects(r) == SubjectsOf(r.inactive) + SubjectsOf(r.active);
    assert Subjects(m) == SubjectsOf(m.inactive) + SubjectsOf(m.active);
  }

  lemma UnregisteredSubjects(m: Inner, e: Entry)
    requires Inv(m) && Registered(m, e)
    ensures |Subjects(Unregister(m, e))| == if Gone(m, e) then |Subjects(m)| - 1 else |Subjects(m)|
  {
    if e in m.active {
      ActiveGone(m, Unregister(m, e), e);
    } else {
      InactiveGone(m, Unregister(m, e), e);
    }
  }

  lemma UnregisteredFree(m: Inner, e: Entry)
    requires Inv(m) && Registered(m, e)
    ensures var given := e in m.active && e in m.heads &&
              var k := Find(m.active, e);
              (k + 1 < |m.active| ==>
                 m.active[k + 1] !in m.cleanUpQueue && (e in m.cleanUpQueue || m.active[k + 1] in m.heads));
      Unregister(m, e).freeSlots == if given then m.freeSlots + 1 else m.freeSlots
  {
    if e in m.active && e in m.heads {
      var k := Find(m.active, e);
      WithoutKeeps(m.cleanUpQueue, e);
      assert k + 1 < |m.active| ==> RemoveAt(m.active, k)[k] == m.active[k + 1];
    }
  }

  /** In any reachable state, removing an entry conserves slots exactly under the guard. */
  lemma UnregisterConservesIff(m: Inner, slots: nat, e: Entry)
    requires Inv(m) && Conserved(m, slots) && Registered(m, e)
    ensures Conserved(Unregister(m, e), slots) <==> GivesBackRight(m, e)
  {
    UnregisteredSubjects(m, e);
    UnregisteredFree(m, e);
    if e in m.active {
      var k := Find(m.active, e);
      if e in m.heads {
        HeadHasOther(m.active, m.heads, k);
        assert k + 1 < |m.active| && m.active[k + 1] in m.cleanUpQueue ==> m.active[k + 1] in m.heads by {
          if k + 1 < |m.active| && m.active[k + 1] in m.cleanUpQueue {
            MarkedIsHead(m.active, m.heads, m.cleanUpQueue, k + 1);
          }
        }
      } else {
        TailHasOther(m.active, m.heads, k);
      }
    }
  }

  // ---------------------------------------------------------------- runs that poll before they remove

  /** Before each removal the filter updates were polled until none was left. */
  ghost predicate Drained(slots: nat, events: seq<Event>) {
    forall i :: 0 <= i < |events| && events[i].UnregisterEntry? ==> NothingToPoll(Run(slots, events[..i]).0)
  }

  lemma DrainedGivesBack(m: Inner, e: Entry)
    requires Inv(m) && Registered(m, e) && NothingToPoll(m)
    ensures GivesBackRight(m, e)
  {
  }

  /** With nothing pending the filter holds active subjects only. */
  lemma FilterIsActive(m: Inner, filter: set<nat>)
    requires Agrees(m, filter) && m.cleanUpQueue == [] && !m.cleanUpLast
    ensures filter <= SubjectsOf(m.active)
  {
    forall d | d in filter ensures d in SubjectsOf(m.active) {
      assert Explained(m.active, [], false, d);
      SubjectsAre(m.active, d);
      assert m.active[Lower(m.active, d)] in m.active;
    }
  }

  lemma SmallerFilter(a: set<nat>, b: set<nat>)
    requires a <= b
    ensures |a| <= |b|
  {
    assert b == a + (b - a);
  }

  lemma StepConserves(m: Inner, filter: set<nat>, slots: nat, ev: Event)
    requires Agrees(m, filter) && Conserved(m, slots) && |filter| <= slots && Allowed(m, ev)
    requires ev.UnregisterEntry? ==> NothingToPoll(m)
    ensures Conserved(Apply(m, ev), slots) && |Filter(m, filter, ev)| <= slots
  {
    match ev
    case RegisterEntry(e) => RegisterConserves(m, slots, e);
    case UnregisterEntry(e) =>
      DrainedGivesBack(m, e);
      UnregisterConservesIff(m, slots, e);
    case PollFilter =>
      PollConserves(m, slots);
      PollAgrees(m, filter);
      var (r, next) := (Poll(m).0, ReplayPolled(filter, Poll(m).1));
      if m.cleanUpQueue == [] && !m.cleanUpLast {
        FilterIsActive(r, next);
        SmallerFilter(next, Subjects(r));
      } else {
        SmallerFilter(next, filter);
      }
    case _ =>
  }

  /** Slot conservation: in every run that polls to the end before each removal, free slots and registered
      subjects add up to the slot count, and the replayed updates never hold more subjects than there are slots. */
  lemma {:induction false} SlotsAreConserved(slots: nat, events: seq<Event>)
    requires AllAllowed(slots, events) && Drained(slots, events)
    ensures Conserved(Run(slots, events).0, slots) && |Run(slots, events).1| <= slots
  {
    if events != [] {
      var n := |events| - 1;
      forall i | 0 <= i < n
        ensures Allowed(Run(slots, events[..n][..i]).0, events[..n][i])
        ensures events[..n][i].UnregisterEntry? ==> NothingToPoll(Run(slots, events[..n][..i]).0)
      {
        assert events[..n][..i] == events[..i];
      }
      SlotsAreConserved(slots, events[..n]);
      RunAgrees(slots, events[..n]);
      StepConserves(Run(slots, events[..n]).0, Run(slots, events[..n]).1, slots, events[n]);
    }
  }

  // ---------------------------------------------------------------- runs that do not

  /** A leak: an entry that is removed before a poll activated it keeps its slot. */
  lemma UndrainedLeak(e: Entry)
    ensures var m := Unregister(Register(NewInner(1), e).0, e);
      m.freeSlots == 0 && m.active == [] && m.inactive == []
  {
    assert Without([e], e) == [];
  }

  /** A surplus: removing a marked first entry gives a slot back although its subject stays. */
  lemma UndrainedSurplus(m: Inner, slots: nat, e: Entry)
    requires Inv(m) && Conserved(m, slots) && e in m.heads && e in m.cleanUpQueue && HasOther(m.active, e)
    ensures Unregister(m, e).freeSlots + |Subjects(Unregister(m, e))| == slots + 1
  {
    var k := Find(m.active, e);
    UnregisteredSubjects(m, e);
    UnregisteredFree(m, e);
    HeadHasOther(m.active, m.heads, k);
    assert m.active[k + 1] !in m.cleanUpQueue by {
      if m.active[k + 1] in m.cleanUpQueue {
        MarkedIsHead(m.active, m.heads, m.cleanUpQueue, k + 1);
      }
    }
  }

  lemma LowerCounts(t: seq<Entry>, s: nat)
    requires forall e :: e in t ==> e.subject < s
    ensures Lower(t, s) == |t|
  {
    if t != [] {
      assert t == [t[0]] + t[1..];
      LowerCounts(t[1..], s);
    }
  }

  /** Two entries registered and activated. */
  lemma TwoActive(x: Entry, h: Entry)
    requires x.subject == 1 && h.subject == 2
    ensures var m := Poll(Poll(Register(Register(NewInner(2), x).0, h).0).0).0;
      m.(woken := false) == Inner([], [x, h], {x, h}, None, [], false, [], 0, false)
  {
    LowerCounts([x], 3);
    var two := Register(Register(NewInner(2), x).0, h).0;
    assert two.activationQueue == [x, h] && two.inactive == [x, h];
    assert Find([x, h], x) == 0 && RemoveAt([x, h], 0) == [h];
    var one := Poll(two).0;
    assert one.activationQueue == [h] && one.inactive == [h] && one.active == [x];
    assert RemoveAt([h], 0) == [] && InsertAt([x], 1, h) == [x, h];
  }

  /** A third entry joins the second subject. */
  lemma ThreeActive(x: Entry, h: Entry, t: Entry)
    requires x.subject == 1 && h.subject == 2 && t.subject == 2 && h != t
    ensures var m := Register(Poll(Poll(Register(Register(NewInner(2), x).0, h).0).0).0, t).0;
      m.(woken := false) == Inner([], [x, h, t], {x, h}, None, [], false, [], 0, false)
  {
    TwoActive(x, h);
    LowerCounts([x, h], 3);
    assert InsertAt([x, h], 2, t) == [x, h, t];
  }

  /** Two subjects in two slots, the second with two entries: after both first entries left without a poll in
      between, both slots are free and a subject is still registered. */
  lemma UndrainedSurplusIsReachable(x: Entry, h: Entry, t: Entry)
    requires x.subject == 1 && h.subject == 2 && t.subject == 2 && h != t
    ensures var m := Register(Poll(Poll(Register(Register(NewInner(2), x).0, h).0).0).0, t).0;
      var r := Unregister(Unregister(m, x), h);
      r.freeSlots == 2 && r.active == [t]
  {
    var m := Register(Poll(Poll(Register(Register(NewInner(2), x).0, h).0).0).0, t).0;
    ThreeActive(x, h, t);
    var left := Unregister(m, x);
    assert Find([x, h, t], x) == 0 && RemoveAt([x, h, t], 0) == [h, t];
    assert left.active == [h, t] && left.heads == {h} && left.cleanUpQueue == [h] && left.freeSlots == 1;
    assert RemoveAt([h, t], 0) == [t] && Without([h], h) == [];
  }
}
