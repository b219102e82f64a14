/** The receive buffer object: a pool of buffers whose indices move between sessions, queues and the reader. */
module RxFifo {
  import opened Wrappers
  import opened Time
  import opened Format
  import opened Priorities
  import opened Reassembly
  import opened ClassQueues
  import opened PriorityQueues
  import opened RxModel
  import opened SessionTables
  import opened RxView

  /** The transfer slots: entries waiting at eight priorities, and the buffers not in use. */
  class TransferQueue {
    const queue: PriorityQueue<TransferEntry>
    const slots: nat
    var freeBuffers: seq<u8>

    ghost function Owned(): set<object>
    {
      {this} + queue.Owned()
    }

    ghost predicate Valid()
      reads Owned()
    {
      && this !in queue.Owned()
      && queue.Valid() && queue.entryValues.Length == slots && |freeBuffers| <= slots
    }

    /** New slots, apart from what is taken. */
    constructor (base: u8, n: nat, ghost taken: set<object>)
      requires n <= 127 && base + n <= 256
      ensures Valid() && fresh(Owned()) && Owned() !! taken && slots == n
      ensures queue.fifos == seq(LEVELS, _ => [])
      ensures freeBuffers == Block(base, n)
    {
      queue := new PriorityQueue(n);
      slots := n;
      freeBuffers := Block(base, n);
    }

    /** A free buffer, else the buffer of the oldest least urgent transfer not more urgent than `priority`. */
    method AllocateBuffer(priority: Priority) returns (r: Option<u8>)
      requires Valid() && 0 < |freeBuffers| + Count(queue.fifos)
      modifies Owned()
      ensures Valid()
      ensures r.Some? <==> Grants(old(queue.fifos), old(freeBuffers), priority)
      ensures r.Some? ==>
        && r.value == Grant(old(queue.fifos), old(freeBuffers), priority)
        && queue.fifos == FifosAfter(old(queue.fifos), old(freeBuffers), priority)
        && freeBuffers == FreeAfter(old(freeBuffers))
      ensures r.None? ==> queue.fifos == old(queue.fifos) && freeBuffers == old(freeBuffers)
      ensures r.Some? ==> |freeBuffers| + Count(queue.fifos) + 1 == |old(freeBuffers)| + Count(old(queue.fifos))
    {
      if |freeBuffers| > 0 {
        r := Some(freeBuffers[|freeBuffers| - 1]);
        freeBuffers := freeBuffers[..|freeBuffers| - 1];
        return;
      }
      var maxPriority := queue.MaxPriority();
      assert maxPriority == Worst(queue.fifos);
      if priority <= maxPriority.value {
        CountUpdate(queue.fifos, maxPriority.value, queue.fifos[maxPriority.value][1..], LEVELS);
        var entry := queue.Pop(maxPriority.value);
        r := Some(entry.value.bufferIdx);
      } else {
        r := None;
      }
    }

    method FreeBuffer(idx: u8) returns (ok: bool)
      requires Valid()
      modifies this
      ensures Valid() && queue.fifos == old(queue.fifos)
      ensures ok <==> |old(freeBuffers)| < slots
      ensures freeBuffers == if ok then old(freeBuffers) + [idx] else old(freeBuffers)
    {
      if |freeBuffers| == slots {
        return false;
      }
      freeBuffers := freeBuffers + [idx];
      ok := true;
    }

    method Push(priority: Priority, transfer: TransferEntry) returns (ok: bool)
      requires Valid()
      modifies Owned()
      ensures Valid() && freeBuffers == old(freeBuffers)
      ensures ok <==> Count(old(queue.fifos)) < slots
      ensures queue.fifos == if ok then Appended(old(queue.fifos), priority, transfer) else old(queue.fifos)
    {
      ok := queue.Push(priority, transfer);
    }

    method Pop(mask: set<Priority>) returns (r: Option<(Priority, TransferEntry)>)
      requires Valid()
      modifies Owned()
      ensures Valid() && freeBuffers == old(freeBuffers)
      ensures match Priorities.First(NonEmpty(old(queue.fifos)) * mask)
        case None => r == None && queue.fifos == old(queue.fifos)
        case Some(p) =>
          && r == Some((p, old(queue.fifos)[p][0]))
          && queue.fifos == old(queue.fifos)[p := old(queue.fifos)[p][1..]]
    {
      assert queue.prioritySet == NonEmpty(queue.fifos);
      var priority := Priorities.First(queue.prioritySet * mask);
      if priority == None {
        return None;
      }
      var entry := queue.Pop(priority.value);
      r := Some((priority.value, entry.value));
    }
  }

  datatype TransferMeta = TransferMeta(priority: Priority, address: Option<NodeId>, transferId: TransferId,
                                       timestamp: Instant, loopBack: bool)

  /** What the reader gets of a popped transfer. */
  function ReadOf(popped: Option<(Priority, Item)>): Option<(TransferMeta, seq<byte>)> {
    match popped
    case None => None
    case Some((p, x)) => Some((TransferMeta(p, x.source, x.id, x.timestamp, x.loopBack), x.bytes))
  }

  class RxPriorityFifo {
    const cfg: Config
    const table: SessionTable
    const transfers: TransferQueue
    var readoutBufferIdx: u8

    /** The parts do not share memory and have the configured sizes. */
    ghost predicate Separate() {
      && this !in table.Owned() && this !in transfers.Owned() && table.Owned() !! transfers.Owned()
      && table.slots == cfg.sessionSlots && table.timeout == cfg.timeout && transfers.slots == cfg.transferSlots
    }

    ghost predicate Apart()
      reads table.Owned(), transfers.Owned()
    {
      Separate() && table.Valid() && transfers.Valid()
    }

    ghost function Snapshot(): View
      requires Apart()
      reads this`readoutBufferIdx, table.Owned(), transfers.Owned()
    {
      ViewOf(table.Held(), transfers.queue.fifos, transfers.freeBuffers, readoutBufferIdx)
    }

    constructor (cfg: Config, buffers: seq<array<byte>>)
      requires ValidConfig(cfg) && |buffers| == BufferCount(cfg) && Distinguished(buffers)
      requires forall i :: 0 <= i < |buffers| ==> buffers[i].Length == cfg.capacity
      ensures this.cfg == cfg && table.buffers == buffers && table.pool == set i | 0 <= i < |buffers| :: buffers[i]
      ensures fresh(transfers.Owned()) && fresh(table) && fresh(table.sessions.Owned())
      ensures Apart() && Sane(EMPTY, cfg) && Represents(Snapshot(), EMPTY, cfg)
    {
      var t := new SessionTable(cfg.sessionSlots, cfg.timeout, buffers);
      var q := new TransferQueue(cfg.sessionSlots, cfg.transferSlots, t.Owned());
      this.cfg, table, transfers := cfg, t, q;
      readoutBufferIdx := cfg.sessionSlots + cfg.transferSlots;
      new;
      assert Separate();
      Starts();
    }

    lemma Starts()
      requires ValidConfig(cfg) && Apart() && |table.Held().bytes| == |table.buffers| == BufferCount(cfg)
      requires forall i :: 0 <= i < |table.buffers| ==> |table.Held().bytes[i]| == table.buffers[i].Length
      requires forall i :: 0 <= i < |table.buffers| ==> table.buffers[i].Length == cfg.capacity
      requires table.Held() == Table(map[], [], 0, table.Held().bytes)
      requires readoutBufferIdx == cfg.sessionSlots + cfg.transferSlots
      requires transfers.queue.fifos == seq(LEVELS, _ => [])
      requires transfers.freeBuffers == Block(cfg.sessionSlots, cfg.transferSlots)
      ensures Sane(EMPTY, cfg) && Represents(Snapshot(), EMPTY, cfg)
    {
      NewRepresents(Snapshot(), cfg);
    }

    // -------------------------------------------------------------- frames of a known source

    /** The session turns to another buffer and the entry holding its former one is queued. */
    method Replace(source: NodeId, idx: u8, priority: Priority, entry: TransferEntry)
      requires Apart() && source in table.Held().slots && Count(transfers.queue.fifos) < cfg.transferSlots
      modifies table.Owned(), transfers.Owned()
      ensures Apart() && transfers.freeBuffers == old(transfers.freeBuffers)
      ensures table.Held() == SlotSet(old(table.Held()), source, old(table.Held()).slots[source].(bufferIdx := idx))
      ensures transfers.queue.fifos == Appended(old(transfers.queue.fifos), priority, entry)
    {
      PointTable(source, idx);
      Enqueue(priority, entry);
    }

    method PointTable(source: NodeId, idx: u8)
      requires Apart() && source in table.Held().slots
      modifies table.Owned()
      ensures Apart() && transfers.freeBuffers == old(transfers.freeBuffers)
      ensures transfers.queue.fifos == old(transfers.queue.fifos)
      ensures table.Held() == SlotSet(old(table.Held()), source, old(table.Held()).slots[source].(bufferIdx := idx))
    {
      table.PointTo(source, idx);
    }

    method Enqueue(priority: Priority, entry: TransferEntry)
      requires Apart() && Count(transfers.queue.fifos) < cfg.transferSlots
      modifies transfers.Owned()
      ensures Apart() && transfers.freeBuffers == old(transfers.freeBuffers) && table.Held() == old(table.Held())
      ensures transfers.queue.fifos == Appended(old(transfers.queue.fifos), priority, entry)
    {
      var ok := transfers.Push(priority, entry);
    }

    /** A finished transfer takes a transfer slot and its session the granted buffer. */
    method DeliverTransfer(source: NodeId, priority: Priority, transfer: Transfer, loopBack: bool)
      requires priority == transfer.priority
      requires Apart() && source in table.Held().slots && table.Held().slots[source].bufferIdx < |table.Held().bytes|
      requires |transfers.freeBuffers| + Count(transfers.queue.fifos) == cfg.transferSlots > 0
      modifies table.Owned(), transfers.Owned()
      ensures Apart()
      ensures var v, slot := old(Snapshot()), old(table.Held()).slots[source];
        HandedOver(v, Snapshot(), source, priority,
                   TransferEntry(Some(source), transfer.id, transfer.timestamp, loopBack,
                                 Min(transfer.length, |v.buffers[slot.bufferIdx]|), slot.bufferIdx))
    {
      var slot := table.Get(source);
      var idx := slot.value.bufferIdx;
      var length := table.BufferLength(idx);
      var newBufferIdx := transfers.AllocateBuffer(transfer.priority);
      if newBufferIdx == None {
        return;
      }
      var entry := TransferEntry(Some(source), transfer.id, transfer.timestamp, loopBack, Min(transfer.length, length),
                                 idx);
      Replace(source, newBufferIdx.value, priority, entry);
    }

    method StartTable(source: NodeId, timestamp: Instant, ghost oldest: Session)
      requires Apart() && source !in Snapshot().slots && source !in Snapshot().recency
      requires Snapshot().base == |Snapshot().slots| <= cfg.sessionSlots
      requires Snapshot().base == cfg.sessionSlots ==>
        && Snapshot().recency != [] && Snapshot().recency[0] in Snapshot().slots
        && Remove(Snapshot().recency, Snapshot().recency[0]) == Snapshot().recency[1..]
        && WellFormed(oldest) && Snapshot().slots[Snapshot().recency[0]].gather == Packed(oldest)
      modifies table.Owned()
      ensures Apart() && cfg.sessionSlots <= MAX_NODE + 1
      ensures var v := old(Snapshot());
        Snapshot() == WithTable(v, SlotStarted(TableOf(v), cfg.sessionSlots, cfg.timeout, source, timestamp, oldest))
    {
      table.StartSlot(source, timestamp, oldest);
    }

    /** A new source takes a free session slot, or the least recent one if that has timed out. */
    method TryStartNewSession(source: NodeId, timestamp: Instant, ghost m: Rx)
      requires Apart() && Sane(m, cfg) && Represents(Snapshot(), m, cfg)
      requires source !in m.sessions && cfg.sessionSlots > 0
      modifies table.Owned()
      ensures Apart() && Sane(StartSession(m, cfg, source, timestamp), cfg)
      ensures Represents(Snapshot(), StartSession(m, cfg, source, timestamp), cfg)
    {
      ghost var v := Snapshot();
      SlotsFull(v, m, cfg);
      ghost var oldest := if v.base > 0 then m.sessions[m.recency[0]] else FRESH;
      StartTable(source, timestamp, oldest);
      StartRepresents(v, m, cfg, source, timestamp, oldest);
    }

    method FeedTable(source: NodeId, priority: Priority, data: seq<byte>, timestamp: Instant, ghost session: Session)
      returns (r: Option<Transfer>)
      requires Apart() && source in Snapshot().slots && |data| <= MAX_LENGTH
      requires RepresentsSession(Snapshot().slots[source], session, Snapshot().buffers)
      modifies table.Owned()
      ensures Apart() && |Snapshot().buffers| == |old(Snapshot()).buffers|
      ensures var (session', d) := Receive(session, cfg.timeout, Arrival(priority, data, timestamp));
        var v, w, idx := old(Snapshot()), Snapshot(), old(Snapshot()).slots[source].bufferIdx;
        && WellFormed(session') && |w.buffers[idx]| == |v.buffers[idx]|
        && Stores(w.buffers[idx], session'.content) && Delivers(r, d, w.buffers[idx])
        && w == WithFed(v, source, session', w.buffers[idx])
    {
      r := table.FeedSlot(source, priority, data, timestamp, session);
    }

    /** A known source's receiver takes a frame. */
    method ReceiveFrame(source: NodeId, priority: Priority, data: seq<byte>, timestamp: Instant, ghost m: Rx)
      returns (r: Option<Transfer>)
      requires Apart() && Represents(Snapshot(), m, cfg) && source in m.sessions && |data| <= MAX_LENGTH
      modifies table.Owned()
      ensures Apart() && source in Snapshot().slots && Snapshot().slots[source].bufferIdx < |Snapshot().buffers|
      ensures var (session, d) := Receive(m.sessions[source], cfg.timeout, Arrival(priority, data, timestamp));
        && Delivers(r, d, Snapshot().buffers[Snapshot().slots[source].bufferIdx])
        && Represents(Snapshot(), m.(sessions := m.sessions[source := session]), cfg)
    {
      ghost var v := Snapshot();
      KnownSlot(v, m, cfg, source);
      r := FeedTable(source, priority, data, timestamp, m.sessions[source]);
      FedRepresents(v, m, cfg, source, Receive(m.sessions[source], cfg.timeout, Arrival(priority, data, timestamp)).0,
                    Snapshot().buffers[v.slots[source].bufferIdx]);
    }

    /** A finished transfer of a known source is offered to the queues. */
    method HandOver(source: NodeId, priority: Priority, transfer: Transfer, loopBack: bool, ghost d: Delivery,
                    ghost m: Rx)
      requires Apart() && Represents(Snapshot(), m, cfg) && ValidConfig(cfg)
      requires source in m.sessions && m.sessions[source].content == []
      requires source in Snapshot().slots && Snapshot().slots[source].bufferIdx < |Snapshot().buffers|
      requires Delivers(Some(transfer), Some(d), Snapshot().buffers[Snapshot().slots[source].bufferIdx])
      requires d.priority == priority && |m.queues| == LEVELS
      modifies table.Owned(), transfers.Owned()
      ensures Apart()
      ensures Represents(Snapshot(), m.(queues := Deliver(m.queues, cfg, source, priority, Some(d), loopBack)), cfg)
    {
      ghost var v := Snapshot();
      PoolSize(v, m, cfg);
      ghost var idx := v.slots[source].bufferIdx;
      ghost var entry := TransferEntry(Some(source), d.id, d.timestamp, loopBack, Min(|d.bytes|, cfg.capacity), idx);
      DeliverTransfer(source, priority, transfer, loopBack);
      HandedOverRepresents(v, Snapshot(), m, cfg, source, entry, d, loopBack);
    }

    method TouchTable(source: NodeId, timestamp: Instant, ghost session: Session)
      requires Apart() && source in Snapshot().slots && WellFormed(session)
      requires Snapshot().slots[source].gather == Packed(session)
      modifies table.Owned()
      ensures Apart()
      ensures Snapshot() == old(Snapshot()).(recency := Touch(old(Snapshot()).recency, source, session, timestamp))
    {
      table.TouchSlot(source, timestamp, session);
    }

    method TouchSession(source: NodeId, timestamp: Instant, ghost m: Rx)
      requires Apart() && Represents(Snapshot(), m, cfg) && source in m.sessions
      modifies table.Owned()
      ensures Apart()
      ensures Represents(Snapshot(), m.(recency := Touch(m.recency, source, m.sessions[source], timestamp)), cfg)
    {
      ghost var v := Snapshot();
      KnownSlot(v, m, cfg, source);
      TouchTable(source, timestamp, m.sessions[source]);
      TouchRepresents(v, Snapshot(), m, cfg, Touch(m.recency, source, m.sessions[source], timestamp));
    }

    /** A known source's frame: reassemble, hand over, touch. */
    method FeedSession(source: NodeId, priority: Priority, data: seq<byte>, timestamp: Instant, loopBack: bool,
                       ghost m: Rx)
      requires Apart() && ValidConfig(cfg) && Represents(Snapshot(), m, cfg) && |m.queues| == LEVELS
      requires source in m.sessions && |data| <= MAX_LENGTH
      modifies table.Owned(), transfers.Owned()
      ensures Apart()
      ensures Represents(Snapshot(), Feed(m, cfg, source, Arrival(priority, data, timestamp), loopBack), cfg)
    {
      ghost var (session, d) := Receive(m.sessions[source], cfg.timeout, Arrival(priority, data, timestamp));
      ghost var fed := m.(sessions := m.sessions[source := session]);
      DeliveryEnds(m.sessions[source], cfg.timeout, Arrival(priority, data, timestamp));
      var transfer := ReceiveFrame(source, priority, data, timestamp, m);
      if transfer != None {
        HandOver(source, priority, transfer.value, loopBack, d.value, fed);
      }
      ghost var handed := fed.(queues := Deliver(fed.queues, cfg, source, priority, d, loopBack));
      TouchSession(source, timestamp, handed);
    }

    /** Whether the source has a session, after starting one for a start of transfer. */
    method FindSession(source: NodeId, data: seq<byte>, timestamp: Instant, ghost m: Rx) returns (known: bool)
      requires Apart() && Sane(m, cfg) && Represents(Snapshot(), m, cfg) && (IsStart(data) ==> cfg.sessionSlots > 0)
      modifies table.Owned()
      ensures Apart() && Represents(Snapshot(), Prepare(m, cfg, source, data, timestamp), cfg)
      ensures known <==> source in Prepare(m, cfg, source, data, timestamp).sessions
    {
      KnownSources(Snapshot(), m, cfg);
      var sot := |data| > 0 && TailOf(data).sot;
      var session := table.Get(source);
      if session == None && sot {
        TryStartNewSession(source, timestamp, m);
        KnownSources(Snapshot(), StartSession(m, cfg, source, timestamp), cfg);
        session := table.Get(source);
        return session != None;
      }
      known := session != None;
    }

    method PushRegularFrame(source: NodeId, priority: Priority, data: seq<byte>, timestamp: Instant, loopBack: bool,
                            ghost m: Rx)
      requires Apart() && ValidConfig(cfg) && Sane(m, cfg) && Represents(Snapshot(), m, cfg) && |data| <= MAX_LENGTH
      requires IsStart(data) ==> cfg.sessionSlots > 0
      modifies table.Owned(), transfers.Owned()
      ensures Apart()
      ensures Represents(Snapshot(), PushRegular(m, cfg, source, Arrival(priority, data, timestamp), loopBack), cfg)
    {
      var known := FindSession(source, data, timestamp, m);
      if known {
        FeedSession(source, priority, data, timestamp, loopBack, Prepare(m, cfg, source, data, timestamp));
      }
    }

    // -------------------------------------------------------------- anonymous frames

    /** The payload goes to buffer `idx`, and the transfer to its queue. */
    method StoreAnonymous(idx: u8, priority: Priority, payload: seq<byte>, id: TransferId, timestamp: Instant,
                          loopBack: bool)
      requires Apart() && Count(transfers.queue.fifos) < cfg.transferSlots && idx < |table.Held().bytes|
      modifies table.Owned(), transfers.Owned()
      ensures Apart() && transfers.freeBuffers == old(transfers.freeBuffers)
      ensures var t, b := old(table.Held()), table.Held().bytes;
        && |b| == |t.bytes| && |b[idx]| == |t.bytes[idx]| && Stores(b[idx], payload)
        && table.Held() == t.(bytes := t.bytes[idx := b[idx]])
        && transfers.queue.fifos ==
           Appended(old(transfers.queue.fifos), priority,
                    TransferEntry(None, id, timestamp, loopBack, Min(|payload|, |b[idx]|), idx))
    {
      var length := table.WriteBuffer(idx, payload);
      Enqueue(priority, TransferEntry(None, id, timestamp, loopBack, length, idx));
    }

    /** An anonymous single-frame transfer takes a transfer slot, if it gets one. */
    method QueueAnonymous(priority: Priority, payload: seq<byte>, id: TransferId, timestamp: Instant, loopBack: bool)
      requires Apart() && |transfers.freeBuffers| + Count(transfers.queue.fifos) == cfg.transferSlots > 0
      requires GrantFrom(Snapshot(), priority).Some? ==> Granted(Snapshot(), priority) < |Snapshot().buffers|
      modifies table.Owned(), transfers.Owned()
      ensures Apart() && |Snapshot().buffers| == |old(Snapshot()).buffers|
      ensures var v := old(Snapshot());
        GrantFrom(v, priority).Some? ==>
          var idx := Granted(v, priority);
          && |Snapshot().buffers[idx]| == |v.buffers[idx]| && Stores(Snapshot().buffers[idx], payload)
          && QueuedAnonymous(v, Snapshot(), priority,
                             TransferEntry(None, id, timestamp, loopBack, Min(|payload|, |v.buffers[idx]|), idx))
      ensures GrantFrom(old(Snapshot()), priority) == None ==> Snapshot() == old(Snapshot())
    {
      var bufferIdx := transfers.AllocateBuffer(priority);
      if bufferIdx == None {
        return;
      }
      StoreAnonymous(bufferIdx.value, priority, payload, id, timestamp, loopBack);
    }

    /** A valid anonymous frame is offered to the queues. */
    method OfferAnonymous(priority: Priority, payload: seq<byte>, id: TransferId, timestamp: Instant, loopBack: bool,
                          ghost m: Rx)
      requires Apart() && ValidConfig(cfg) && Represents(Snapshot(), m, cfg) && |m.queues| == LEVELS
      modifies table.Owned(), transfers.Owned()
      ensures Apart()
      ensures var x := Item(None, id, timestamp, loopBack, Truncate(payload, cfg));
        Represents(Snapshot(), m.(queues := Offer(m.queues, priority, x, cfg.transferSlots)), cfg)
    {
      ghost var v := Snapshot();
      PoolSize(v, m, cfg);
      GrantedBelow(v, m, cfg, priority);
      QueueAnonymous(priority, payload, id, timestamp, loopBack);
      ghost var idx := if GrantFrom(v, priority).Some? then Granted(v, priority) else 0;
      ghost var entry := TransferEntry(None, id, timestamp, loopBack, Min(|payload|, cfg.capacity), idx);
      ghost var x := Item(None, id, timestamp, loopBack, Truncate(payload, cfg));
      QueuedAnonymousRepresents(v, Snapshot(), m, cfg, priority, entry, payload, x);
    }

    method PushAnonymousFrame(priority: Priority, data: seq<byte>, timestamp: Instant, loopBack: bool, ghost m: Rx)
      requires Apart() && ValidConfig(cfg) && Represents(Snapshot(), m, cfg) && |m.queues| == LEVELS
      modifies table.Owned(), transfers.Owned()
      ensures Apart()
      ensures Represents(Snapshot(), PushAnonymous(m, cfg, Arrival(priority, data, timestamp), loopBack), cfg)
    {
      if |data| > 0 {
        var tail := DecodeTail(data[|data| - 1]);
        if tail.sot && tail.eot && tail.toggle == SOT_TOGGLE_BIT {
          OfferAnonymous(priority, data[..|data| - 1], tail.transferId, timestamp, loopBack, m);
        }
      }
    }

    // -------------------------------------------------------------- the two operations

    /** A start of transfer of a named source needs a session slot to ask for. */
    method PushFrame(frame: RxFrame, ghost m: Rx)
      requires Apart() && ValidConfig(cfg) && Sane(m, cfg) && Represents(Snapshot(), m, cfg)
      requires |frame.data| <= MAX_LENGTH
      requires frame.spec == cfg.spec && frame.source.Some? && IsStart(frame.data) ==> cfg.sessionSlots > 0
      modifies table.Owned(), transfers.Owned()
      ensures Apart() && Represents(Snapshot(), RxModel.PushFrame(m, cfg, frame), cfg)
      ensures readoutBufferIdx == old(readoutBufferIdx)
    {
      if frame.spec == cfg.spec {
        match frame.source
        case Some(node) => PushRegularFrame(node, frame.priority, frame.data, frame.timestamp, frame.loopBack, m);
        case None => PushAnonymousFrame(frame.priority, frame.data, frame.timestamp, frame.loopBack, m);
      }
    }

    /** The first transfer at the most urgent priority in the mask; its buffer is read out, the previous one is free. */
    method PopEntry(mask: set<Priority>) returns (r: Option<(Priority, TransferEntry)>)
      requires Apart() && |transfers.freeBuffers| + Count(transfers.queue.fifos) == cfg.transferSlots
      modifies this`readoutBufferIdx, transfers.Owned()
      ensures Apart()
      ensures match Priorities.First(NonEmpty(old(Snapshot()).fifos) * mask)
        case None => r == None && Snapshot() == old(Snapshot())
        case Some(p) => r == Some((p, old(Snapshot()).fifos[p][0])) && Snapshot() == WithPopped(old(Snapshot()), p)
    {
      r := transfers.Pop(mask);
      if r != None {
        var (priority, transfer) := r.value;
        CountMember(old(transfers.queue.fifos), priority, LEVELS);
        var prevBuffer := readoutBufferIdx;
        readoutBufferIdx := transfer.bufferIdx;
        var ok := transfers.FreeBuffer(prevBuffer);
      }
    }

    method TryPop(mask: set<Priority>, ghost m: Rx) returns (r: Option<(TransferMeta, seq<byte>)>)
      requires Apart() && ValidConfig(cfg) && Represents(Snapshot(), m, cfg) && |m.queues| == LEVELS
      modifies this`readoutBufferIdx, transfers.Owned()
      ensures Apart() && Represents(Snapshot(), RxModel.TryPop(m, mask).0, cfg)
      ensures r == ReadOf(RxModel.TryPop(m, mask).1)
    {
      ghost var v := Snapshot();
      PoolSize(v, m, cfg);
      SameNonEmpty(v, m, cfg);
      var popped := PopEntry(mask);
      if popped == None {
        return None;
      }
      var (priority, transfer) := popped.value;
      PoppedRepresents(v, m, cfg, priority);
      var meta := TransferMeta(priority, transfer.source, transfer.transferId, transfer.timestamp, transfer.loopBack);
      r := Some((meta, table.Slice(readoutBufferIdx, transfer.bufferLength)));
    }
  }

  lemma NewRepresents(v: View, cfg: Config)
    requires ValidConfig(cfg) && Sized(v.buffers, cfg) && v == InitialView(cfg, v.buffers)
    ensures Represents(v, EMPTY, cfg) && Sane(EMPTY, cfg)
  {
    InitialRepresents(cfg, v.buffers);
    CountZero(EMPTY.queues, LEVELS);
  }

  lemma SameNonEmpty(v: View, m: Rx, cfg: Config)
    requires Represents(v, m, cfg)
    ensures |v.fifos| == LEVELS && |m.queues| == LEVELS && NonEmpty(v.fifos) == NonEmpty(m.queues)
  {
    assert forall p: Priority :: v.fifos[p] == [] <==> m.queues[p] == [];
  }

  /** A delivering frame leaves nothing collected and is delivered at its own priority. */
  lemma DeliveryEnds(m: Session, timeout: Duration, a: Arrival)
    ensures var (s, d) := Receive(m, timeout, a); d.Some? ==> s.content == [] && d.value.priority == a.priority
  {
  }

  lemma KnownSources(v: View, m: Rx, cfg: Config)
    requires Represents(v, m, cfg)
    ensures v.slots.Keys == m.sessions.Keys
  {
  }
}
