/** The scheduler object: lists, the flags of the non-empty ones, and the marks in the entries. */
module TxQueues {
  import opened Lists
  import opened Wrappers
  import opened Priorities
  import opened Scheduler
  import opened SchedulerRuns

  /** A frame a buffer hands out, as far as the scheduler looks at it. */
  datatype BufferFrame = BufferFrame(priority: Priority, length: nat, eot: bool)

  function AnswerOf(frame: Option<BufferFrame>, readiness: set<Priority>): Answer {
    Answer(if frame.Some? then Some(frame.value.eot) else None, readiness)
  }

  /** What the scheduler asserts of a frame: the priority it asked for, and a length within the MTU. */
  predicate Keeps(frame: Option<BufferFrame>, asked: Option<QueueId>, mtu: nat) {
    frame.Some? && asked.Some? ==> frame.value.priority == asked.value.priority && frame.value.length <= mtu
  }

  class TxQueue {
    var lists: map<QueueId, seq<Entry>>
    var nonEmpty: set<QueueId>
    var filter: set<Priority>
    var woken: bool
    ghost var registered: set<Entry>

    ghost function Marks(): (r: map<Entry, QueueId>)
      reads this, registered
    {
      map e | e in registered && e.queueMark.Some? :: e.queueMark.value
    }

    ghost function Begun(): (r: map<Entry, set<Priority>>)
      reads this, registered
    {
      map e | e in registered :: e.started
    }

    ghost function Readiness(): (r: map<Entry, set<Priority>>)
      reads this, registered
    {
      map e | e in registered :: e.readiness
    }

    ghost function Model(): Sched
      reads this, registered
    {
      Sched(lists, nonEmpty, Marks(), Begun(), Readiness(), filter, woken)
    }

    ghost predicate Valid()
      reads this, registered
    {
      Good(Model())
    }

    constructor ()
      ensures Valid() && Model() == IDLE && registered == {}
    {
      lists, nonEmpty, filter, woken, registered := map[], {}, {}, false, {};
      new;
      assert Model() == IDLE;
      IdleIsGood();
    }

    // -------------------------------------------------------------- the lists

    method DequeueEntry(e: Entry)
      requires e in registered
      modifies this`lists, this`nonEmpty, e`queueMark
      ensures Model() == Dequeue(old(Model()), e)
    {
      var prevQueueId := e.queueMark;
      e.queueMark := None;
      if prevQueueId.Some? {
        var id := prevQueueId.value;
        var rest := Without(List(lists, id), e);
        lists := lists[id := rest];
        if rest == [] {
          nonEmpty := nonEmpty - {id};
        }
      }
      assert Marks() == old(Marks()) - {e};
      assert Begun() == old(Begun()) && Readiness() == old(Readiness());
    }

    method MoveEntryBack(id: QueueId, e: Entry)
      requires e in registered
      modifies this`lists, this`nonEmpty, e`queueMark
      ensures Model() == MoveBack(old(Model()), id, e)
    {
      DequeueEntry(e);
      label dequeued:
      e.queueMark := Some(id);
      lists := lists[id := List(lists, id) + [e]];
      nonEmpty := nonEmpty + {id};
      assert Marks() == old@dequeued(Marks())[e := id];
      assert Begun() == old@dequeued(Begun()) && Readiness() == old@dequeued(Readiness());
    }

    method UpdateQueuePosition(e: Entry)
      requires e in registered
      modifies this`lists, this`nonEmpty, this`woken, e`queueMark
      ensures Model() == UpdatePosition(old(Model()), e)
    {
      var first := First(e.readiness);
      if first == None {
        DequeueEntry(e);
        return;
      }
      var p := first.value;
      var id := QueueId(p, if p in e.started then Started else Finished);
      assert MarkOf(Model(), e) == e.queueMark;
      if e.queueMark != Some(id) {
        Requeue(id, e);
      }
    }

    method Requeue(id: QueueId, e: Entry)
      requires e in registered
      modifies this`lists, this`nonEmpty, this`woken, e`queueMark
      ensures Model() == Wake(MoveBack(old(Model()), id, e), {id.priority})
    {
      MoveEntryBack(id, e);
      woken := woken || {id.priority} * filter != {};
    }

    method Enlist(e: Entry)
      requires e !in registered && e.queueMark == None && e.started == {}
      modifies this, e
      ensures registered == old(registered) + {e}
      ensures Model() == Register(old(Model()), e, old(e.readiness))
    {
      registered := registered + {e};
      assert Marks() == old(Marks()) && Begun() == old(Begun())[e := {}];
      assert Readiness() == old(Readiness())[e := e.readiness];
      UpdateQueuePosition(e);
    }

    method Delist(e: Entry)
      requires e in registered
      modifies this, e
      ensures registered == old(registered) - {e}
      ensures Model() == Unregister(old(Model()), e)
    {
      DequeueEntry(e);
      label dequeued:
      assert e !in Marks();
      registered := registered - {e};
      assert Marks() == old@dequeued(Marks()) && Begun() == old@dequeued(Begun()) - {e};
      assert Readiness() == old@dequeued(Readiness()) - {e};
    }

    method Refill(e: Entry, readiness: set<Priority>)
      requires e in registered
      modifies this, e
      ensures registered == old(registered) && Model() == Push(old(Model()), e, readiness)
    {
      e.readiness := readiness;
      assert Marks() == old(Marks()) && Begun() == old(Begun()) && Readiness() == old(Readiness())[e := readiness];
      UpdateQueuePosition(e);
    }

    /** The front entry of the chosen list answers; where it goes afterwards. */
    method TakeFrame(e: Entry, p: Priority, a: Answer)
      requires e in registered
      modifies this`lists, this`nonEmpty, this`woken, e
      ensures var asked := old(Model()).(ready := old(Model()).ready[e := a.ready]);
        Model() == UpdatePosition(if a.frame.Some? then AfterFrame(asked, e, p, a.frame.value) else asked, e)
    {
      e.readiness := a.ready;
      assert Marks() == old(Marks()) && Begun() == old(Begun()) && Readiness() == old(Readiness())[e := a.ready];
      if a.frame.Some? {
        MarkFrame(e, p, a.frame.value);
      }
      UpdateQueuePosition(e);
    }

    method MarkFrame(e: Entry, p: Priority, eot: bool)
      requires e in registered
      modifies this`lists, this`nonEmpty, e`started, e`queueMark
      ensures Model() == AfterFrame(old(Model()), e, p, eot)
    {
      e.started := if eot then e.started - {p} else e.started + {p};
      assert Marks() == old(Marks()) && Readiness() == old(Readiness()) && Begun() == old(Begun())[e := e.started];
      if eot {
        DequeueEntry(e);
      }
    }

    method WaitFor(mask: set<Priority>)
      modifies this`filter, this`woken
      ensures Model() == old(Model()).(filter := mask, woken := false)
    {
      filter, woken := mask, false;
      assert Marks() == old(Marks()) && Begun() == old(Begun()) && Readiness() == old(Readiness());
    }

    // -------------------------------------------------------------- the operations

    method RegRegister(e: Entry)
      requires Indexed(Model()) && e !in registered && e.queueMark == None && e.started == {}
      modifies this, e
      ensures Indexed(Model()) && (old(Valid()) ==> Valid()) && registered == old(registered) + {e}
      ensures Model() == Register(old(Model()), e, old(e.readiness))
    {
      StepKeeps(Model(), RegisterEntry(e, e.readiness));
      Enlist(e);
    }

    method RegUnregister(e: Entry)
      requires Indexed(Model()) && e in registered
      modifies this, e
      ensures Indexed(Model()) && (old(Valid()) ==> Valid()) && registered == old(registered) - {e}
      ensures Model() == Unregister(old(Model()), e)
    {
      StepKeeps(Model(), UnregisterEntry(e));
      Delist(e);
    }

    /** A transfer was pushed to the entry's buffer, which now reports `readiness`. */
    method RegPush(e: Entry, readiness: set<Priority>)
      requires Indexed(Model()) && e in registered
      modifies this, e
      ensures Indexed(Model()) && (old(Valid()) ==> Valid()) && registered == old(registered)
      ensures Model() == Push(old(Model()), e, readiness)
    {
      StepKeeps(Model(), PushTransfer(e, readiness));
      Refill(e, readiness);
    }

    /** The chosen buffer is asked for a frame at the priority of its list; what it then reports is `readiness`. */
    method HubTryPop(mask: set<Priority>, mtu: nat, frame: Option<BufferFrame>, readiness: set<Priority>)
      returns (r: Option<Emission>)
      requires Indexed(Model()) && Keeps(frame, Chosen(Model(), mask), mtu)
      modifies this`lists, this`nonEmpty, this`woken, registered
      ensures CanPop(old(Model()), mask)
      ensures (Model(), r) == TryPop(old(Model()), mask, AnswerOf(frame, readiness))
    {
      ChosenFront(Model(), mask);
      var id := FirstQueueId(FlaggedPriorities(nonEmpty, Started) * mask, FlaggedPriorities(nonEmpty, Finished) * mask);
      if id == None {
        return None;
      }
      var e := List(lists, id.value)[0];
      assert frame.Some? ==> frame.value.priority == id.value.priority;
      assert frame.Some? ==> frame.value.length <= mtu;
      TakeFrame(e, id.value.priority, AnswerOf(frame, readiness));
      r := if frame.Some? then Some(Emission(e, id.value.priority, frame.value.eot)) else None;
    }

    /** The poll keeps the agreement of lists, marks and readiness whatever the asked buffer answers; the waiting
        hub is woken for what it waits for exactly when the poll was answered. */
    method HubPollPop(mask: set<Priority>, mtu: nat, frame: Option<BufferFrame>, readiness: set<Priority>)
      returns (r: Option<Emission>)
      requires Indexed(Model()) && Keeps(frame, Chosen(Model(), mask), mtu)
      modifies this, registered
      ensures registered == old(registered) && CanPop(old(Model()), mask)
      ensures (Model(), r) == PollPop(old(Model()), mask, AnswerOf(frame, readiness))
      ensures Indexed(Model())
      ensures old(Valid()) ==> (Valid() <==> Answered(old(Model()), Poll(mask, AnswerOf(frame, readiness))))
    {
      StepKeeps(Model(), Poll(mask, AnswerOf(frame, readiness)));
      r := HubTryPop(mask, mtu, frame, readiness);
      if r == None {
        WaitFor(mask);
      }
    }
  }
}
