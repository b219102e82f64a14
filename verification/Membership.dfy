/** Who is subscribed: registrations that find a subject or a slot, less removals; and all of them are served. */
module Membership {
  import opened Lists
  import opened Registry
  import opened FilterAgreement
  import opened Slots
  import opened Delivery

  function EntriesOf(t: seq<Entry>): set<Entry> {
    set e | e in t
  }

  /** The registered entries. */
  function Subscribed(m: Inner): set<Entry> {
    EntriesOf(m.active) + EntriesOf(m.inactive)
  }

  lemma JoinedEntries(t: seq<Entry>, e: Entry)
    requires Ordered(t) && e !in t
    ensures EntriesOf(InsertOrdered(t, e)) == EntriesOf(t) + {e}
  {
    InsertKeeps(t, e);
  }

  lemma LeftEntries(t: seq<Entry>, e: Entry)
    requires Ordered(t) && e in t
    ensures e !in RemoveAt(t, Find(t, e)) && EntriesOf(RemoveAt(t, Find(t, e))) == EntriesOf(t) - {e}
  {
    RemoveKeeps(t, Find(t, e));
  }

  // ---------------------------------------------------------------- one step

  /** An entry is accepted, and then registered, exactly when its subject is registered or has a free slot; nobody else
      comes or goes. */
  lemma RegisterIs(m: Inner, e: Entry)
    requires Inv(m) && !Registered(m, e)
    ensures var (r, ok) := Register(m, e);
      && (ok <==> e.subject in Subjects(m) || m.freeSlots > 0)
      && Subscribed(r) == if ok then Subscribed(m) + {e} else Subscribed(m)
  {
    HasSubjectSubjects(m.inactive, e.subject);
    HasSubjectSubjects(m.active, e.subject);
    RegisterJoins(m, e);
  }

  lemma RegisterJoins(m: Inner, e: Entry)
    requires Ordered(m.active) && Ordered(m.inactive) && e !in m.active && e !in m.inactive
    ensures var (r, ok) := Register(m, e); Subscribed(r) == if ok then Subscribed(m) + {e} else Subscribed(m)
  {
    JoinedEntries(m.inactive, e);
    JoinedEntries(m.active, e);
  }

  /** A removed entry is registered no more, and no other entry goes with it. */
  lemma UnregisterIs(m: Inner, e: Entry)
    requires Inv(m) && Registered(m, e)
    ensures !Registered(Unregister(m, e), e) && Subscribed(Unregister(m, e)) == Subscribed(m) - {e}
  {
    if e in m.active {
      LeftEntries(m.active, e);
    } else {
      LeftEntries(m.inactive, e);
    }
  }

  /** A poll registers and removes nobody; when it finds nothing to do every registered entry is active. */
  lemma PollIs(m: Inner)
    requires Inv(m)
    ensures Subscribed(Poll(m).0) == Subscribed(m)
    ensures Poll(m).1.Pending? ==> forall e :: e in Subscribed(m) ==> e in m.active
  {
    if m.cleanUpQueue == [] && !m.cleanUpLast && m.activationQueue != [] {
      var e := m.activationQueue[0];
      FirstActivates(m.active, m.inactive, m.activationQueue);
      JoinedEntries(m.active, e);
      LeftEntries(m.inactive, e);
    }
  }

  lemma StepIs(m: Inner, ev: Event)
    requires Inv(m) && Allowed(m, ev)
    ensures Subscribed(Apply(m, ev)) ==
      match ev
      case RegisterEntry(e) =>
        if e.subject in Subjects(m) || m.freeSlots > 0 then Subscribed(m) + {e} else Subscribed(m)
      case UnregisterEntry(e) => Subscribed(m) - {e}
      case _ => Subscribed(m)
  {
    match ev
    case RegisterEntry(e) => RegisterIs(m, e);
    case UnregisterEntry(e) => UnregisterIs(m, e);
    case PollFilter => PollIs(m);
    case StartPush(_) =>
    case NextPush =>
  }

  // ---------------------------------------------------------------- whole runs

  /** Some member has the subject. */
  ghost predicate Taken(members: set<Entry>, s: nat) {
    exists e :: e in members && e.subject == s
  }

  /** The members after a run, from the answers a caller can foresee: an entry whose subject is taken, or for which
      there is a slot, joins. */
  ghost function Members(slots: nat, events: seq<Event>): set<Entry> {
    if events == [] then {}
    else
      var n := |events| - 1;
      var before := Members(slots, events[..n]);
      match events[n]
      case RegisterEntry(e) =>
        if Taken(before, e.subject) || Run(slots, events[..n]).0.freeSlots > 0 then before + {e} else before
      case UnregisterEntry(e) => before - {e}
      case _ => before
  }

  lemma TakenIs(m: Inner, s: nat)
    ensures Taken(Subscribed(m), s) <==> s in Subjects(m)
  {
    SubjectsAre(m.active, s);
    SubjectsAre(m.inactive, s);
    if s in SubjectsOf(m.active) {
      var e :| e in m.active && e.subject == s;
      assert e in Subscribed(m);
    } else if s in SubjectsOf(m.inactive) {
      var e :| e in m.inactive && e.subject == s;
      assert e in Subscribed(m);
    }
  }

  /** Exactly the members are registered after every run, and when there is nothing left to poll they are active. */
  lemma {:induction false} MembersAreRegistered(slots: nat, events: seq<Event>)
    requires AllAllowed(slots, events)
    ensures var m := Run(slots, events).0;
      && Members(slots, events) == Subscribed(m)
      && (Poll(m).1.Pending? ==> forall e :: e in Members(slots, events) ==> e in m.active)
  {
    RunAgrees(slots, events);
    PollIs(Run(slots, events).0);
    if events != [] {
      var n := |events| - 1;
      var before := Run(slots, events[..n]).0;
      PrefixAllowed(slots, events, n);
      MembersAreRegistered(slots, events[..n]);
      RunAgrees(slots, events[..n]);
      StepIs(before, events[n]);
      if events[n].RegisterEntry? {
        TakenIs(before, events[n].entry.subject);
      }
    }
  }

  // ---------------------------------------------------------------- polling comes to an end

  /** What is left to poll. */
  function Backlog(m: Inner): nat {
    |m.cleanUpQueue| + (if m.cleanUpLast then 1 else 0) + |m.activationQueue|
  }

  function PollAll(m: Inner, k: nat): Inner
    decreases k
  {
    if k == 0 then m else PollAll(Poll(m).0, k - 1)
  }

  /** `r` has nothing left to poll, and the entries registered in `m` are registered and active in it. */
  ghost predicate Drained(m: Inner, r: Inner) {
    Poll(r).1.Pending? && Subscribed(r) == Subscribed(m) && forall e :: e in Subscribed(m) ==> e in r.active
  }

  lemma PollWorks(m: Inner, filter: set<nat>)
    requires Agrees(m, filter)
    ensures Agrees(Poll(m).0, ReplayPolled(filter, Poll(m).1)) && Subscribed(Poll(m).0) == Subscribed(m)
    ensures Backlog(m) > 0 ==> Backlog(Poll(m).0) == Backlog(m) - 1
    ensures Backlog(m) == 0 ==> Drained(m, m)
  {
    PollAgrees(m, filter);
    PollIs(m);
  }

  /** Every poll works off one piece of the backlog: after as many polls nothing is left, and every registered entry
      is active. */
  lemma {:induction false} PollingEnds(m: Inner, filter: set<nat>)
    requires Agrees(m, filter)
    ensures Drained(m, PollAll(m, Backlog(m)))
    decreases Backlog(m)
  {
    PollWorks(m, filter);
    if Backlog(m) > 0 {
      var r := Poll(m).0;
      PollingEnds(r, ReplayPolled(filter, Poll(m).1));
      assert PollAll(m, Backlog(m)) == PollAll(r, Backlog(r));
      DrainedBefore(m, r, PollAll(r, Backlog(r)));
    }
  }

  lemma DrainedBefore(m: Inner, r: Inner, end: Inner)
    requires Subscribed(r) == Subscribed(m)
    ensures Drained(r, end) ==> Drained(m, end)
  {
  }

  // ---------------------------------------------------------------- everyone is served

  /** Every member is served: in any run whose updates were all polled, whatever registry steps come between the steps
      of a push for `s`, when it is over each entry of `s` that was a member at its start and still is active got the
      frame. */
  lemma EveryMemberIsServed(slots: nat, before: seq<Event>, s: Subject, events: seq<Event>)
    requires AllAllowed(slots, before) && Poll(Run(slots, before).0).1.Pending?
    requires AllAllowedDuring(Run(slots, before).0, Run(slots, before).1, s, events)
    ensures var (m, filter) := Run(slots, before);
      var (m', f, log) := During(m, filter, s, events);
      m'.nextPush.None? ==>
        forall e :: e in Members(slots, before) && e.subject == s && e in m'.active ==> e in log
  {
    MembersAreRegistered(slots, before);
    RunAgrees(slots, before);
    DeliveredExactlyOnce(Run(slots, before).0, Run(slots, before).1, s, events);
  }
}
