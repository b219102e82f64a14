/** The registry object: trees, queues and the flags in the entries. */
module RegularRegistry {
  import opened Lists
  import opened Wrappers
  import opened Registry
  import opened FilterAgreement

  datatype RegisterResult = Registered | NoSubjectSlotLeft

  function PrevSubject(s: Subject): (r: Option<Subject>)
    ensures r == None <==> s == 0
  {
    if s > 0 then Some(s - 1) else None
  }

  function NextSubject(s: Subject): (r: Option<Subject>)
    ensures r == None <==> s == MAX_SUBJECT
  {
    if s + 1 <= MAX_SUBJECT then Some(s + 1) else None
  }

  class RegularInner {
    var inactive: seq<Entry>
    var active: seq<Entry>
    var nextPush: Entry?
    var cleanUpQueue: seq<Entry>
    var cleanUpLast: bool
    var activationQueue: seq<Entry>
    var freeSlots: nat
    var woken: bool
    /** The active entries whose head flag is set. */
    ghost var heads: set<Entry>
    /** What the driver's filter is after all updates so far. */
    ghost var filter: set<nat>

    ghost function Model(): Inner
      reads this
    {
      Inner(inactive, active, heads, if nextPush == null then None else Some(nextPush), cleanUpQueue, cleanUpLast,
            activationQueue, freeSlots, woken)
    }

    /** The flags in the entries say which tree they are in and who the heads are. */
    ghost predicate Flagged()
      reads this, active, inactive
    {
      && (forall e :: e in active ==> e.isActive && (e.isHead <==> e in heads))
      && (forall e :: e in inactive ==> !e.isActive && !e.isHead)
    }

    ghost predicate Valid()
      reads this, active, inactive
    {
      Agrees(Model(), filter) && Flagged()
    }

    constructor (slots: nat)
      ensures Valid() && Model() == NewInner(slots) && filter == {}
    {
      inactive, active, nextPush, cleanUpQueue, cleanUpLast := [], [], null, [], false;
      activationQueue, freeSlots, woken, heads, filter := [], slots, false, {}, {};
    }

    // -------------------------------------------------------------- the steps, in the fields and flags alone

    method InsertInactive(e: Entry)
      requires Flagged() && e !in active && e !in inactive
      modifies this`inactive, this`activationQueue, e
      ensures Flagged() && inactive == InsertOrdered(old(inactive), e)
      ensures activationQueue == old(activationQueue) + [e]
    {
      InsertMembers(inactive, Upper(inactive, e.subject), e);
      e.isActive, e.isHead := false, false;
      inactive := InsertOrdered(inactive, e);
      activationQueue := activationQueue + [e];
    }

    method InsertActive(e: Entry)
      requires Flagged() && e !in active && e !in inactive && e !in heads
      modifies this`active, e
      ensures Flagged() && active == InsertOrdered(old(active), e)
    {
      InsertMembers(active, Upper(active, e.subject), e);
      e.isActive, e.isHead := true, false;
      active := InsertOrdered(active, e);
    }

    method PlaceEntry(e: Entry) returns (r: RegisterResult)
      requires Flagged() && e !in active && e !in inactive && e !in heads
      modifies this`inactive, this`active, this`activationQueue, this`freeSlots, this`woken, e
      ensures Flagged()
      ensures Model() == Register(old(Model()), e).0
      ensures r == if Register(old(Model()), e).1 then RegisterResult.Registered else NoSubjectSlotLeft
    {
      r := RegisterResult.Registered;
      if HasSubject(inactive, e.subject) {
        InsertInactive(e);
      } else if HasSubject(active, e.subject) {
        InsertActive(e);
      } else if freeSlots == 0 {
        r := NoSubjectSlotLeft;
      } else {
        freeSlots := freeSlots - 1;
        InsertInactive(e);
        woken := true;
      }
    }

    /** A push about to reach the removed entry turns to the one now at its position. */
    method SkipRemovedEntry(e: Entry, k: nat)
      requires k <= |active|
      requires forall x :: x in active ==> (x.isHead <==> x in heads)
      modifies this`nextPush
      ensures Model() == old(Model()).(nextPush := SkipRemoved(old(Model()).nextPush, e, At(active, k), heads))
    {
      if nextPush == e {
        nextPush := null;
        if k < |active| && !active[k].isHead {
          nextPush := active[k];
        }
      }
    }

    /** The entry now at the position of a removed head takes over. */
    method TakeOver(k: nat, cleanUpMark: bool)
      requires Flagged() && k < |active| && (forall x :: x in active ==> x !in inactive)
      modifies this`heads, this`freeSlots, this`cleanUpQueue, this`woken, active[k]
      ensures Flagged() && heads == old(heads) + {active[k]}
      ensures var marks := (cleanUpMark || active[k] in old(heads)) && active[k] !in old(cleanUpQueue);
        && cleanUpQueue == (if marks then old(cleanUpQueue) + [active[k]] else old(cleanUpQueue))
        && freeSlots == (if marks then old(freeSlots) + 1 else old(freeSlots))
        && woken == (old(woken) || marks)
    {
      var next := active[k];
      assert next in active;
      var nextWasHead := next.isHead;
      next.isHead := true;
      heads := heads + {next};
      if (cleanUpMark || nextWasHead) && next !in cleanUpQueue {
        freeSlots := freeSlots + 1;
        cleanUpQueue := cleanUpQueue + [next];
        woken := true;
      }
    }

    /** A head leaves the tree and the clean-up queue; its position and whether it was marked. */
    method DropHead(e: Entry) returns (k: nat, cleanUpMark: bool)
      requires Flagged() && e in active
      requires forall x :: x in RemoveAt(active, Find(active, e)) ==> x in active && x != e
      modifies this`active, this`heads, this`nextPush, this`cleanUpQueue
      ensures Flagged() && k == Find(old(active), e) && (cleanUpMark <==> e in old(cleanUpQueue))
      ensures Model() == old(Model()).(active := RemoveAt(old(active), k), heads := old(heads) - {e},
                                       cleanUpQueue := Lists.Without(old(cleanUpQueue), e),
                                       nextPush := SkipRemoved(old(Model()).nextPush, e,
                                                               At(RemoveAt(old(active), k), k), old(heads)))
    {
      k := Find(active, e);
      active := RemoveAt(active, k);
      cleanUpMark := e in cleanUpQueue;
      cleanUpQueue := Lists.Without(cleanUpQueue, e);
      SkipRemovedEntry(e, k);
      heads := heads - {e};
    }

    method RemoveHead(e: Entry)
      requires Flagged() && e in active && (forall x :: x in active ==> x !in inactive)
      requires forall x :: x in RemoveAt(active, Find(active, e)) ==> x in active && x != e
      modifies this`active, this`heads, this`nextPush, this`cleanUpQueue, this`cleanUpLast, this`freeSlots, this`woken,
        active
      ensures Flagged() && Model() == UnregisterHead(old(Model()), e)
    {
      var k, cleanUpMark := DropHead(e);
      if k < |active| {
        TakeOver(k, cleanUpMark);
        return;
      }
      NoneFollows();
    }

    /** The last entry of the tree is gone: the subjects up to the largest are to be cleaned up. */
    method NoneFollows()
      modifies this`freeSlots, this`cleanUpLast, this`woken
      ensures freeSlots == old(freeSlots) + 1 && cleanUpLast && woken
    {
      freeSlots := freeSlots + 1;
      cleanUpLast := true;
      woken := true;
    }

    method RemoveTail(e: Entry)
      requires Flagged() && e in active
      requires forall x :: x in RemoveAt(active, Find(active, e)) ==> x in active && x != e
      modifies this`active, this`nextPush
      ensures Flagged() && Model() == UnregisterTail(old(Model()), e)
    {
      var k := Find(active, e);
      active := RemoveAt(active, k);
      SkipRemovedEntry(e, k);
    }

    method RemoveInactive(e: Entry)
      requires Flagged() && e in inactive
      requires forall x :: x in RemoveAt(inactive, Find(inactive, e)) ==> x in inactive && x != e
      modifies this`inactive, this`activationQueue
      ensures Flagged() && Model() == UnregisterInactive(old(Model()), e)
    {
      inactive := Lists.Without(inactive, e);
      activationQueue := Lists.Without(activationQueue, e);
    }

    method AdvancePush()
      requires Flagged() && (nextPush != null ==> nextPush in active)
      modifies this`nextPush, nextPush
      ensures Flagged() && Model() == PushNext(old(Model())).0
      ensures old(nextPush) != null ==> old(nextPush).frames == old(nextPush.frames) + 1
      ensures forall e :: e in active && e != old(nextPush) ==> e.frames == old(e.frames)
    {
      if nextPush != null {
        var entry: Entry := nextPush;
        var k := Find(active, entry);
        entry.frames := entry.frames + 1;
        nextPush := null;
        if k + 1 < |active| && !active[k + 1].isHead {
          nextPush := active[k + 1];
        }
      }
    }

    method SweepFirst() returns (r: Polled)
      requires Flagged() && cleanUpQueue != [] && cleanUpQueue[0] in active
      requires var k := Find(active, cleanUpQueue[0]);
        After(active, k) < active[k].subject && active[k] in heads
      modifies this`cleanUpQueue
      ensures Flagged() && r == Poll(old(Model())).1 && Model() == Poll(old(Model())).0
    {
      var entry := cleanUpQueue[0];
      cleanUpQueue := cleanUpQueue[1..];
      assert entry.isHead;
      var lastCleanUp := PrevSubject(entry.subject).value;
      var k := Find(active, entry);
      var firstCleanUp: Subject := 0;
      if k > 0 {
        firstCleanUp := NextSubject(active[k - 1].subject).value;
      }
      assert firstCleanUp <= lastCleanUp;
      r := Ready(RemoveSubjectRange(firstCleanUp, lastCleanUp));
    }

    method SweepRest() returns (r: Polled)
      requires Flagged() && cleanUpQueue == [] && cleanUpLast && After(active, |active|) <= MAX_SUBJECT
      modifies this`cleanUpLast
      ensures Flagged() && r == Poll(old(Model())).1 && Model() == Poll(old(Model())).0
    {
      cleanUpLast := false;
      var firstCleanUp: Subject := 0;
      if |active| > 0 {
        firstCleanUp := NextSubject(active[|active| - 1].subject).value;
      }
      r := Ready(RemoveSubjectRange(firstCleanUp, MAX_SUBJECT));
    }

    method ActivateFirst() returns (r: Polled)
      requires Flagged() && cleanUpQueue == [] && !cleanUpLast && activationQueue != []
      requires activationQueue[0] in inactive && activationQueue[0] !in active && activationQueue[0] !in heads
      requires forall x :: x in Lists.Without(inactive, activationQueue[0]) ==> x in inactive && x != activationQueue[0]
      modifies this`inactive, this`activationQueue, this`active, this`heads, activationQueue[0]
      ensures Flagged() && r == Poll(old(Model())).1 && Model() == Poll(old(Model())).0
    {
      var e := activationQueue[0];
      activationQueue := activationQueue[1..];
      inactive := Lists.Without(inactive, e);
      var activeSubject := HasSubject(active, e.subject);
      e.isActive, e.isHead := true, !activeSubject;
      heads := if activeSubject then heads - {e} else heads + {e};
      InsertMembers(active, Upper(active, e.subject), e);
      active := InsertOrdered(active, e);
      r := if activeSubject then CallAgain else Ready(AddSubject(e.subject));
    }

    // -------------------------------------------------------------- the operations

    method RegRegister(e: Entry) returns (r: RegisterResult)
      requires Valid() && e !in active && e !in inactive
      modifies this, e
      ensures Valid() && filter == old(filter)
      ensures Model() == Register(old(Model()), e).0
      ensures r == if Register(old(Model()), e).1 then RegisterResult.Registered else NoSubjectSlotLeft
    {
      RegisterAgrees(Model(), filter, e);
      r := PlaceEntry(e);
    }

    method RegUnregisterActiveHead(e: Entry)
      requires Valid() && e in active && e.isHead
      modifies this, active
      ensures Valid() && filter == old(filter)
      ensures Model() == UnregisterHead(old(Model()), e)
    {
      UnregisterHeadAgrees(Model(), filter, e);
      RemoveOnly(active, Find(active, e));
      RemoveHead(e);
    }

    method RegUnregisterActiveTail(e: Entry)
      requires Valid() && e in active && !e.isHead
      modifies this
      ensures Valid() && filter == old(filter)
      ensures Model() == UnregisterTail(old(Model()), e)
    {
      UnregisterTailAgrees(Model(), filter, e);
      RemoveOnly(active, Find(active, e));
      RemoveTail(e);
    }

    method RegUnregisterInactive(e: Entry)
      requires Valid() && e in inactive
      modifies this
      ensures Valid() && filter == old(filter)
      ensures Model() == UnregisterInactive(old(Model()), e)
    {
      UnregisterInactiveAgrees(Model(), filter, e);
      RemoveOnly(inactive, Find(inactive, e));
      RemoveInactive(e);
    }

    method RegUnregister(e: Entry)
      requires Valid() && (e in active || e in inactive)
      modifies this, active
      ensures Valid() && filter == old(filter)
      ensures Model() == Unregister(old(Model()), e)
    {
      if !e.isActive {
        RegUnregisterInactive(e);
      } else if e.isHead {
        RegUnregisterActiveHead(e);
      } else {
        RegUnregisterActiveTail(e);
      }
    }

    method HubPushStart(s: Subject) returns (started: bool)
      requires Valid()
      modifies this
      ensures Valid() && filter == old(filter)
      ensures Model() == PushStart(old(Model()), s) && (started <==> nextPush != null)
    {
      PushStartAgrees(Model(), filter, s);
      nextPush := null;
      var k := Lower(active, s);
      if k < |active| {
        var entry := active[k];
        assert entry.isHead;
        if entry.subject == s {
          nextPush := entry;
        }
      }
      started := nextPush != null;
    }

    /** The next entry of the push gets the frame; whether one is left. */
    method HubPushNext() returns (more: bool)
      requires Valid()
      modifies this, active
      ensures Valid() && filter == old(filter)
      ensures Model() == PushNext(old(Model())).0 && (more <==> nextPush != null)
      ensures forall e :: e in active ==>
        e.frames == old(e.frames) + (if PushNext(old(Model())).1 == Some(e) then 1 else 0)
    {
      PushNextAgrees(Model(), filter);
      AdvancePush();
      more := nextPush != null;
    }

    method HubPopCleanUpQueue() returns (r: Polled)
      requires Valid() && cleanUpQueue != []
      modifies this
      ensures Valid() && r == Poll(old(Model())).1 && Model() == Poll(old(Model())).0
      ensures filter == ReplayPolled(old(filter), r)
    {
      PollKeeps(Model(), filter);
      FirstMark(active, heads, cleanUpQueue);
      r := SweepFirst();
      filter := ReplayPolled(filter, r);
    }

    method HubPopCleanUpLast() returns (r: Polled)
      requires Valid() && cleanUpQueue == [] && cleanUpLast
      modifies this
      ensures Valid() && r == Poll(old(Model())).1 && Model() == Poll(old(Model())).0
      ensures filter == ReplayPolled(old(filter), r)
    {
      PollKeeps(Model(), filter);
      r := SweepRest();
      filter := ReplayPolled(filter, r);
    }

    method HubPopRegistrationQueue() returns (r: Polled)
      requires Valid() && cleanUpQueue == [] && !cleanUpLast && activationQueue != []
      modifies this, inactive
      ensures Valid() && r == Poll(old(Model())).1 && Model() == Poll(old(Model())).0
      ensures filter == ReplayPolled(old(filter), r)
    {
      PollKeeps(Model(), filter);
      FirstMoves(active, inactive, activationQueue, heads);
      r := ActivateFirst();
      filter := ReplayPolled(filter, r);
    }

    method HubPollPopFilterUpdate() returns (r: Polled)
      requires Valid()
      modifies this, inactive
      ensures Valid() && r == Poll(old(Model())).1 && Model() == Poll(old(Model())).0
      ensures filter == ReplayPolled(old(filter), r) && Sound(old(Model()), old(filter), r)
    {
      PollAgrees(Model(), filter);
      if |cleanUpQueue| > 0 {
        r := HubPopCleanUpQueue();
      } else if cleanUpLast {
        r := HubPopCleanUpLast();
      } else if |activationQueue| > 0 {
        r := HubPopRegistrationQueue();
      } else {
        woken := false;
        r := Pending;
      }
    }
  }

  lemma PollKeeps(m: Inner, filter: set<nat>)
    requires Agrees(m, filter)
    ensures Agrees(Poll(m).0, ReplayPolled(filter, Poll(m).1))
  {
    PollAgrees(m, filter);
  }

  lemma RemoveOnly(t: seq<Entry>, k: nat)
    requires Ordered(t) && k < |t|
    ensures forall x :: x in RemoveAt(t, k) ==> x in t && x != t[k]
  {
    RemoveKeeps(t, k);
  }

  lemma FirstMoves(active: seq<Entry>, inactive: seq<Entry>, activation: seq<Entry>, heads: set<Entry>)
    requires Ordered(inactive) && QueueRight(inactive, activation) && activation != []
    requires (forall e :: e in active ==> e !in inactive) && HeadsRight(active, heads)
    ensures activation[0] in inactive && activation[0] !in active && activation[0] !in heads
    ensures forall x :: x in Lists.Without(inactive, activation[0]) ==> x in inactive && x != activation[0]
  {
    assert activation[0] in activation;
    RemoveOnly(inactive, Find(inactive, activation[0]));
  }

  /** The first marked entry is a head with a gap before it. */
  lemma FirstMark(t: seq<Entry>, heads: set<Entry>, queue: seq<Entry>)
    requires Ordered(t) && HeadsRight(t, heads) && MarksRight(t, queue) && queue != []
    ensures queue[0] in t
    ensures var k := Find(t, queue[0]); After(t, k) < t[k].subject && t[k] in heads
  {
    assert queue[0] in queue;
    var k := Find(t, queue[0]);
    assert HeadAt(t, heads, k) && MarkAt(t, queue, k);
  }
}
