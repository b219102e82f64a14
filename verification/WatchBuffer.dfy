/** The last-value buffer object: sessions, the transfer slot and the reader exchange one-byte buffer indices. */
module WatchBuffers {
  import opened Wrappers
  import opened Time
  import opened Format
  import opened Priorities
  import opened Reassembly
  import opened ClassQueues
  import opened RxModel
  import opened SessionTables
  import RxFifo
  import Watches

  /** What the fields of the object hold. */
  datatype Fields = Fields(
    table: Table,
    transfer: Option<Watches.Entry>,
    minTimestamp: Instant,
    transferIdx: u8,
    readoutIdx: u8)

  ghost predicate ShowsSlot(slot: Slot, session: Session, idx: nat) {
    WellFormed(session) && slot.gather == Packed(session) && slot.bufferIdx == idx
  }

  /** Each slot is a session's receiver, without the bytes it collected, and the session's buffer. */
  ghost predicate ShowsSlots(slots: map<nat, Slot>, sessions: map<nat, Session>, indices: map<nat, nat>) {
    && slots.Keys == sessions.Keys && slots.Keys == indices.Keys
    && forall s :: s in slots ==> ShowsSlot(slots[s], sessions[s], indices[s])
  }

  /** Each buffer holds what fits of what it was filled with. */
  ghost predicate ShowsBytes(bytes: seq<seq<byte>>, held: seq<seq<byte>>, capacity: nat) {
    && |bytes| == |held|
    && forall i :: 0 <= i < |bytes| ==> |bytes[i]| == capacity && Stores(bytes[i], held[i])
  }

  ghost predicate ShowsTable(t: Table, w: Watches.Watch, capacity: nat) {
    && ShowsSlots(t.slots, w.sessions, w.slots) && ShowsBytes(t.bytes, w.held, capacity)
    && t.recency == w.recency && t.base == w.base
  }

  ghost predicate Shows(v: Fields, w: Watches.Watch, cfg: Config) {
    && ShowsTable(v.table, w, cfg.capacity)
    && v.transfer == w.transfer && v.minTimestamp == w.minTimestamp
    && v.transferIdx == w.transferIdx && v.readoutIdx == w.readoutIdx
    && (v.transfer.Some? ==> v.transfer.value.length <= cfg.capacity)
  }

  // ---------------------------------------------------------------- one part changes

  lemma SlotShown(slots: map<nat, Slot>, sessions: map<nat, Session>, indices: map<nat, nat>, s: nat,
                  session: Session, idx: u8)
    requires ShowsSlots(slots, sessions, indices) && WellFormed(session)
    ensures ShowsSlots(slots[s := Slot(Packed(session), idx)], sessions[s := session], indices[s := idx])
  {
  }

  lemma SlotDropped(slots: map<nat, Slot>, sessions: map<nat, Session>, indices: map<nat, nat>, s: nat)
    requires ShowsSlots(slots, sessions, indices)
    ensures ShowsSlots(slots - {s}, sessions - {s}, indices - {s})
  {
  }

  lemma BytesSet(bytes: seq<seq<byte>>, held: seq<seq<byte>>, capacity: nat, idx: nat, buffer: seq<byte>,
                 content: seq<byte>)
    requires ShowsBytes(bytes, held, capacity) && idx < |bytes| && |buffer| == capacity && Stores(buffer, content)
    ensures ShowsBytes(bytes[idx := buffer], held[idx := content], capacity)
  {
  }

  lemma BytesForgotten(bytes: seq<seq<byte>>, held: seq<seq<byte>>, capacity: nat, idx: nat)
    requires ShowsBytes(bytes, held, capacity) && idx < |bytes|
    ensures ShowsBytes(bytes, held[idx := []], capacity)
  {
    BytesSet(bytes, held, capacity, idx, bytes[idx], []);
    assert bytes[idx := bytes[idx]] == bytes;
  }

  lemma PrefixStored(buffer: seq<byte>, content: seq<byte>, n: nat)
    requires Stores(buffer, content) && n <= |buffer| && n <= |content|
    ensures buffer[..n] == content[..n]
  {
    var m := Min(|buffer|, |content|);
    assert buffer[..n] == buffer[..m][..n] && content[..n] == content[..m][..n];
  }

  // ---------------------------------------------------------------- the watch's steps, shown

  /** With a slot taken there is a least recent session. */
  lemma OldestKnown(w: Watches.Watch, cfg: Config)
    requires Watches.Valid(w, cfg) && w.base > 0
    ensures w.recency != [] && w.recency[0] in w.sessions && Remove(w.recency, w.recency[0]) == w.recency[1..]
    ensures w.slots[w.recency[0]] < cfg.sessionSlots + 2
  {
    assert w.slots.Keys != {};
    var s :| s in w.slots.Keys;
    assert s in w.recency && w.recency[0] in w.sessions;
  }

  /** The source has a session with a buffer. */
  ghost predicate Serves(w: Watches.Watch, source: NodeId) {
    && source in w.sessions && source in w.slots && w.slots[source] < |w.held| && w.transferIdx < |w.held|
    && w.slots.Keys == w.sessions.Keys && w.held[w.slots[source]] == w.sessions[source].content
  }

  lemma SessionServes(w: Watches.Watch, cfg: Config, source: NodeId)
    requires Watches.Valid(w, cfg) && source in w.sessions
    ensures Serves(w, source)
  {
  }

  /** A frame of a regular source: prepare its session, then feed it. */
  lemma PreparedFeeds(w: Watches.Watch, cfg: Config, source: NodeId, a: Arrival, loopBack: bool, r: Watches.Watch)
    requires Watches.Valid(w, cfg) && r == Watches.Prepare(w, cfg, source, a.data, a.timestamp)
    ensures source in r.sessions ==>
      Serves(r, source) && Watches.PushRegular(w, cfg, source, a, loopBack) == Watches.Feed(r, cfg, source, a, loopBack)
    ensures source !in r.sessions ==> Watches.PushRegular(w, cfg, source, a, loopBack) == r
  {
    if source !in w.sessions {
      Watches.StartValid(w, cfg, source, a.timestamp);
    }
    if source in r.sessions {
      SessionServes(r, cfg, source);
    }
  }

  lemma NewSlotShows(t: Table, w: Watches.Watch, capacity: nat, source: NodeId)
    requires ShowsTable(t, w, capacity) && t.base < |t.bytes| && t.base < 255 && source !in t.recency
    ensures ShowsTable(Inserted(t.(base := t.base + 1), source, t.base),
                       w.(sessions := w.sessions[source := FRESH], slots := w.slots[source := w.base],
                          recency := [source] + w.recency, base := w.base + 1, held := w.held[w.base := []]), capacity)
  {
    RemoveAbsent(t.recency, source);
    SlotShown(t.slots, w.sessions, w.slots, source, FRESH, t.base);
    BytesForgotten(t.bytes, w.held, capacity, t.base);
  }

  lemma ReusedSlotShows(t: Table, w: Watches.Watch, capacity: nat, source: NodeId)
    requires ShowsTable(t, w, capacity) && t.recency != [] && t.recency[0] in t.slots && source !in t.recency
    requires t.slots[t.recency[0]].bufferIdx < |t.bytes|
    ensures t.recency[0] in w.slots && w.slots[t.recency[0]] < |w.held|
    ensures var oldest := t.recency[0];
      var idx := w.slots[oldest];
      ShowsTable(Inserted(Dropped(t), source, t.slots[oldest].bufferIdx),
                 w.(sessions := (w.sessions - {oldest})[source := FRESH], slots := (w.slots - {oldest})[source := idx],
                    recency := [source] + w.recency[1..], held := w.held[idx := []]), capacity)
  {
    var oldest := t.recency[0];
    assert ShowsSlot(t.slots[oldest], w.sessions[oldest], w.slots[oldest]);
    RemoveAbsent(t.recency[1..], source);
    SlotDropped(t.slots, w.sessions, w.slots, oldest);
    SlotShown(t.slots - {oldest}, w.sessions - {oldest}, w.slots - {oldest}, source, FRESH, t.slots[oldest].bufferIdx);
    BytesForgotten(t.bytes, w.held, capacity, w.slots[oldest]);
  }

  lemma StartShows(v: Fields, w: Watches.Watch, cfg: Config, source: NodeId, now: Instant, oldest: Session)
    requires Shows(v, w, cfg) && cfg.sessionSlots <= |v.table.bytes| && cfg.sessionSlots <= MAX_NODE + 1
    requires source !in w.recency
    requires w.base >= cfg.sessionSlots ==>
      && w.recency != [] && w.recency[0] in w.sessions && w.slots[w.recency[0]] < |w.held|
      && oldest == w.sessions[w.recency[0]]
    ensures Shows(v.(table := SlotStarted(v.table, cfg.sessionSlots, cfg.timeout, source, now, oldest)),
                  Watches.Start(w, cfg, source, now), cfg)
  {
    if w.base < cfg.sessionSlots {
      NewSlotShows(v.table, w, cfg.capacity, source);
    } else if Expired(oldest, cfg.timeout, now) {
      assert ShowsSlot(v.table.slots[w.recency[0]], w.sessions[w.recency[0]], w.slots[w.recency[0]]);
      ReusedSlotShows(v.table, w, cfg.capacity, source);
    }
  }

  /** The session's buffer was written by its receiver, which took a frame. */
  function Fed(t: Table, source: NodeId, s: Session, buffer: seq<byte>): Table
    requires |s.content| <= U32_MAX && source in t.slots && t.slots[source].bufferIdx < |t.bytes|
  {
    var idx := t.slots[source].bufferIdx;
    SlotSet(t, source, Slot(Packed(s), idx)).(bytes := t.bytes[idx := buffer])
  }

  lemma CollectedShows(v: Fields, w: Watches.Watch, cfg: Config, source: NodeId, s: Session, d: Option<Delivery>,
                       r: Option<Transfer>, buffer: seq<byte>)
    requires Shows(v, w, cfg) && source in v.table.slots && v.table.slots[source].bufferIdx < |v.table.bytes|
    requires WellFormed(s) && |buffer| == cfg.capacity && Stores(buffer, s.content) && Delivers(r, d, buffer)
    ensures Shows(v.(table := Fed(v.table, source, s, buffer)), Watches.Collected(w, source, s, d), cfg)
  {
    var t, idx := v.table, v.table.slots[source].bufferIdx;
    assert ShowsSlot(t.slots[source], w.sessions[source], w.slots[source]);
    SlotShown(t.slots, w.sessions, w.slots, source, s, idx);
    assert w.slots[source := idx as nat] == w.slots;
    BytesSet(t.bytes, w.held, cfg.capacity, idx, buffer, if d.Some? then d.value.bytes else s.content);
  }

  /** A delivery not older than the newest so far: session and transfer slot exchange buffers. */
  function Accepted(v: Fields, source: NodeId, t: Transfer, loopBack: bool, length: nat): Fields
    requires source in v.table.slots
  {
    if v.minTimestamp > t.timestamp then v
    else
      var slot := v.table.slots[source];
      v.(table := SlotSet(v.table, source, slot.(bufferIdx := v.transferIdx)), minTimestamp := t.timestamp,
         transfer := Some(Watches.Entry(t.priority, Some(source), t.id, t.timestamp, loopBack, length)),
         transferIdx := slot.bufferIdx)
  }

  lemma AcceptShows(v: Fields, w: Watches.Watch, cfg: Config, source: NodeId, d: Delivery, loopBack: bool)
    requires Shows(v, w, cfg) && source in v.table.slots && v.table.slots[source].bufferIdx < |v.table.bytes|
    requires v.transferIdx < |v.table.bytes| && |d.bytes| <= U32_MAX
    ensures Shows(Accepted(v, source, Transfer(d.id, d.priority, d.timestamp, |d.bytes|), loopBack,
                           Min(|d.bytes|, cfg.capacity)),
                  Watches.Accept(w, cfg, source, d, loopBack), cfg)
  {
    var t := v.table;
    assert ShowsSlot(t.slots[source], w.sessions[source], w.slots[source]);
    if v.minTimestamp <= d.timestamp {
      SlotShown(t.slots, w.sessions, w.slots, source, w.sessions[source], v.transferIdx);
      assert w.sessions[source := w.sessions[source]] == w.sessions;
      BytesForgotten(t.bytes, w.held, cfg.capacity, w.transferIdx);
    } else {
      BytesForgotten(t.bytes, w.held, cfg.capacity, w.slots[source]);
    }
  }

  /** An anonymous transfer overwrites the buffer of the transfer slot. */
  function Overwritten(v: Fields, e: Watches.Entry, buffer: seq<byte>): Fields
    requires v.transferIdx < |v.table.bytes|
  {
    v.(table := v.table.(bytes := v.table.bytes[v.transferIdx := buffer]), minTimestamp := e.timestamp,
       transfer := Some(e))
  }

  lemma AnonymousShows(v: Fields, w: Watches.Watch, cfg: Config, payload: seq<byte>, e: Watches.Entry,
                       buffer: seq<byte>)
    requires Shows(v, w, cfg) && v.transferIdx < |v.table.bytes| && |buffer| == cfg.capacity && Stores(buffer, payload)
    requires e.length == Min(|payload|, cfg.capacity)
    ensures w.transferIdx < |w.held|
    ensures Shows(Overwritten(v, e, buffer),
                  w.(minTimestamp := e.timestamp, transfer := Some(e), held := w.held[w.transferIdx := payload]), cfg)
  {
    BytesSet(v.table.bytes, w.held, cfg.capacity, v.transferIdx, buffer, payload);
  }

  function MetaOf(e: Watches.Entry): RxFifo.TransferMeta {
    RxFifo.TransferMeta(e.priority, e.source, e.id, e.timestamp, e.loopBack)
  }

  lemma PoppedShows(v: Fields, w: Watches.Watch, cfg: Config, mask: set<Priority>)
    requires Watches.Valid(w, cfg) && Shows(v, w, cfg) && w.transfer.Some? && w.transfer.value.priority in mask
    ensures v.transferIdx < |v.table.bytes| && v.transfer.value.length <= |v.table.bytes[v.transferIdx]|
    ensures Shows(v.(transfer := None, transferIdx := v.readoutIdx, readoutIdx := v.transferIdx),
                  Watches.TryPop(w, cfg, mask).0, cfg)
    ensures var (p, x) := Watches.TryPop(w, cfg, mask).1.value;
      && MetaOf(v.transfer.value) == RxFifo.TransferMeta(p, x.source, x.id, x.timestamp, x.loopBack)
      && v.table.bytes[v.transferIdx][..v.transfer.value.length] == x.bytes
  {
    PrefixStored(v.table.bytes[w.transferIdx], w.held[w.transferIdx], w.transfer.value.length);
  }

  // ---------------------------------------------------------------- the object

  class WatchBuffer {
    const cfg: Config
    const table: SessionTable
    var transfer: Option<Watches.Entry>
    var transferMinTimestamp: Instant
    var transferBufferIdx: u8
    var readoutBufferIdx: u8

    ghost predicate Apart()
      reads table.Owned()
    {
      this !in table.Owned() && table.Valid() && table.slots == cfg.sessionSlots && table.timeout == cfg.timeout
    }

    ghost function Snapshot(): Fields
      requires Apart()
      reads this, table.Owned()
    {
      Fields(table.Held(), transfer, transferMinTimestamp, transferBufferIdx, readoutBufferIdx)
    }

    constructor (cfg: Config, buffers: seq<array<byte>>)
      requires cfg.sessionSlots <= MAX_NODE + 1 && |buffers| == cfg.sessionSlots + 2 && Distinguished(buffers)
      requires forall i :: 0 <= i < |buffers| ==> buffers[i].Length == cfg.capacity
      ensures this.cfg == cfg && table.buffers == buffers && table.pool == set i | 0 <= i < |buffers| :: buffers[i]
      ensures fresh(table) && fresh(table.sessions.Owned())
      ensures Apart() && Shows(Snapshot(), Watches.NewWatch(cfg), cfg)
    {
      this.cfg := cfg;
      table := new SessionTable(cfg.sessionSlots, cfg.timeout, buffers);
      transfer := None;
      transferMinTimestamp := 0;
      transferBufferIdx := cfg.sessionSlots;
      readoutBufferIdx := cfg.sessionSlots + 1;
    }

    // -------------------------------------------------------------- frames of a named source

    method StartTable(source: NodeId, timestamp: Instant, ghost oldest: Session)
      requires Apart() && source !in Snapshot().table.slots && source !in Snapshot().table.recency
      requires Snapshot().table.base == |Snapshot().table.slots| <= cfg.sessionSlots
      requires var t := Snapshot().table;
        t.base == cfg.sessionSlots ==>
          && t.recency != [] && t.recency[0] in t.slots && Remove(t.recency, t.recency[0]) == t.recency[1..]
          && WellFormed(oldest) && t.slots[t.recency[0]].gather == Packed(oldest)
      modifies table.Owned()
      ensures Apart() && cfg.sessionSlots <= MAX_NODE + 1
      ensures var v := old(Snapshot());
        Snapshot() == v.(table := SlotStarted(v.table, cfg.sessionSlots, cfg.timeout, source, timestamp, oldest))
    {
      table.StartSlot(source, timestamp, oldest);
    }

    /** A new source takes an unused buffer, or that of the least recent session if it has timed out. */
    method TryStartNewSession(source: NodeId, timestamp: Instant, ghost w: Watches.Watch)
      requires Apart() && Watches.Valid(w, cfg) && Shows(Snapshot(), w, cfg)
      requires source !in w.sessions && 0 < cfg.sessionSlots <= MAX_NODE + 1
      modifies table.Owned()
      ensures Apart() && Shows(Snapshot(), Watches.Start(w, cfg, source, timestamp), cfg)
    {
      ghost var v := Snapshot();
      assert |v.table.slots| == |v.table.slots.Keys| && |w.slots| == |w.slots.Keys|;
      if w.base > 0 {
        OldestKnown(w, cfg);
        assert ShowsSlot(v.table.slots[w.recency[0]], w.sessions[w.recency[0]], w.slots[w.recency[0]]);
      }
      ghost var oldest := if w.base > 0 then w.sessions[w.recency[0]] else FRESH;
      StartTable(source, timestamp, oldest);
      StartShows(v, w, cfg, source, timestamp, oldest);
    }

    method FeedTable(source: NodeId, priority: Priority, data: seq<byte>, timestamp: Instant, ghost session: Session)
      returns (r: Option<Transfer>)
      requires Apart() && source in Snapshot().table.slots && |data| <= MAX_LENGTH
      requires var t := Snapshot().table;
        && t.slots[source].bufferIdx < |t.bytes| && Stores(t.bytes[t.slots[source].bufferIdx], session.content)
        && WellFormed(session) && t.slots[source].gather == Packed(session)
      modifies table.Owned()
      ensures Apart() && |Snapshot().table.bytes| == |old(Snapshot()).table.bytes|
      ensures var (session', d) := Receive(session, cfg.timeout, Arrival(priority, data, timestamp));
        var v, b := old(Snapshot()), Snapshot().table.bytes;
        var idx := v.table.slots[source].bufferIdx;
        && WellFormed(session') && |b[idx]| == |v.table.bytes[idx]|
        && Stores(b[idx], session'.content) && Delivers(r, d, b[idx])
        && Snapshot() == v.(table := Fed(v.table, source, session', b[idx]))
    {
      r := table.FeedSlot(source, priority, data, timestamp, session);
    }

    /** A known source's frame is collected. */
    method CollectFrame(source: NodeId, priority: Priority, data: seq<byte>, timestamp: Instant,
                        ghost w: Watches.Watch)
      returns (r: Option<Transfer>)
      requires Apart() && Shows(Snapshot(), w, cfg) && Serves(w, source) && |data| <= MAX_LENGTH
      modifies table.Owned()
      ensures Apart()
      ensures var (s, d) := Receive(w.sessions[source], cfg.timeout, Arrival(priority, data, timestamp));
        && Shows(Snapshot(), Watches.Collected(w, source, s, d), cfg)
        && match d
           case None => r == None
           case Some(d) => |d.bytes| <= U32_MAX && r == Some(Transfer(d.id, d.priority, d.timestamp, |d.bytes|))
    {
      ghost var v := Snapshot();
      ghost var (s, d) := Receive(w.sessions[source], cfg.timeout, Arrival(priority, data, timestamp));
      ghost var idx := v.table.slots[source].bufferIdx;
      assert ShowsSlot(v.table.slots[source], w.sessions[source], w.slots[source]);
      r := FeedTable(source, priority, data, timestamp, w.sessions[source]);
      CollectedShows(v, w, cfg, source, s, d, r, Snapshot().table.bytes[idx]);
    }

    method AcceptTransfer(source: NodeId, t: Transfer, loopBack: bool)
      requires Apart() && source in Snapshot().table.slots
      requires Snapshot().table.slots[source].bufferIdx < |Snapshot().table.bytes|
      modifies this`transfer, this`transferMinTimestamp, this`transferBufferIdx, table.Owned()
      ensures Apart()
      ensures var v := old(Snapshot());
        Snapshot() == Accepted(v, source, t, loopBack,
                               Min(t.length, |v.table.bytes[v.table.slots[source].bufferIdx]|))
    {
      if transferMinTimestamp > t.timestamp {
        return;
      }
      transferMinTimestamp := t.timestamp;
      var slot := table.Get(source);
      var idx := slot.value.bufferIdx;
      var length := Min(t.length, table.BufferLength(idx));
      transfer := Some(Watches.Entry(t.priority, Some(source), t.id, t.timestamp, loopBack, length));
      table.PointTo(source, transferBufferIdx);
      transferBufferIdx := idx;
    }

    /** A delivery of a known source is offered to the transfer slot. */
    method OfferTransfer(source: NodeId, t: Transfer, loopBack: bool, ghost d: Delivery, ghost c: Watches.Watch)
      requires Apart() && Shows(Snapshot(), c, cfg) && source in c.slots
      requires c.slots[source] < |c.held| && c.transferIdx < |c.held|
      requires |d.bytes| <= U32_MAX && t == Transfer(d.id, d.priority, d.timestamp, |d.bytes|)
      modifies this`transfer, this`transferMinTimestamp, this`transferBufferIdx, table.Owned()
      ensures Apart() && Shows(Snapshot(), Watches.Accept(c, cfg, source, d, loopBack), cfg)
    {
      ghost var v := Snapshot();
      assert ShowsSlot(v.table.slots[source], c.sessions[source], c.slots[source]);
      AcceptTransfer(source, t, loopBack);
      AcceptShows(v, c, cfg, source, d, loopBack);
    }

    method TouchTable(source: NodeId, timestamp: Instant, ghost session: Session)
      requires Apart() && source in Snapshot().table.slots && WellFormed(session)
      requires Snapshot().table.slots[source].gather == Packed(session)
      modifies table.Owned()
      ensures Apart()
      ensures var v := old(Snapshot());
        Snapshot() == v.(table := v.table.(recency := Touch(v.table.recency, source, session, timestamp)))
    {
      table.TouchSlot(source, timestamp, session);
    }

    /** A source whose session just started a transfer becomes the most recent. */
    method TouchSession(source: NodeId, timestamp: Instant, ghost w: Watches.Watch)
      requires Apart() && Shows(Snapshot(), w, cfg) && source in w.sessions
      modifies table.Owned()
      ensures Apart()
      ensures Shows(Snapshot(), w.(recency := Touch(w.recency, source, w.sessions[source], timestamp)), cfg)
    {
      assert ShowsSlot(Snapshot().table.slots[source], w.sessions[source], w.slots[source]);
      TouchTable(source, timestamp, w.sessions[source]);
    }

    /** A known source's frame: collect, accept, touch. */
    method FeedSession(source: NodeId, priority: Priority, data: seq<byte>, timestamp: Instant, loopBack: bool,
                       ghost w: Watches.Watch)
      requires Apart() && Shows(Snapshot(), w, cfg) && Serves(w, source) && |data| <= MAX_LENGTH
      modifies this`transfer, this`transferMinTimestamp, this`transferBufferIdx, table.Owned()
      ensures Apart()
      ensures Shows(Snapshot(), Watches.Feed(w, cfg, source, Arrival(priority, data, timestamp), loopBack), cfg)
    {
      ghost var (s, d) := Receive(w.sessions[source], cfg.timeout, Arrival(priority, data, timestamp));
      ghost var c := Watches.Collected(w, source, s, d);
      var t := CollectFrame(source, priority, data, timestamp, w);
      if t != None {
        OfferTransfer(source, t.value, loopBack, d.value, c);
      }
      TouchSession(source, timestamp,
                   Watches.Settle(w, cfg, source, Arrival(priority, data, timestamp), loopBack));
    }

    /** Whether the source has a session, after starting one for a start of transfer. */
    method FindSession(source: NodeId, data: seq<byte>, timestamp: Instant, ghost w: Watches.Watch)
      returns (known: bool)
      requires Apart() && Watches.Valid(w, cfg) && Shows(Snapshot(), w, cfg)
      requires cfg.sessionSlots <= MAX_NODE + 1 && (IsStart(data) ==> cfg.sessionSlots > 0)
      modifies table.Owned()
      ensures Apart() && Shows(Snapshot(), Watches.Prepare(w, cfg, source, data, timestamp), cfg)
      ensures known <==> source in Watches.Prepare(w, cfg, source, data, timestamp).sessions
    {
      var sot := |data| > 0 && TailOf(data).sot;
      var session := table.Get(source);
      if session == None && sot {
        TryStartNewSession(source, timestamp, w);
        session := table.Get(source);
        return session != None;
      }
      known := session != None;
    }

    method PushRegularFrame(source: NodeId, priority: Priority, data: seq<byte>, timestamp: Instant, loopBack: bool,
                            ghost w: Watches.Watch)
      requires Apart() && Watches.Valid(w, cfg) && Shows(Snapshot(), w, cfg) && |data| <= MAX_LENGTH
      requires cfg.sessionSlots <= MAX_NODE + 1 && (IsStart(data) ==> cfg.sessionSlots > 0)
      modifies this`transfer, this`transferMinTimestamp, this`transferBufferIdx, table.Owned()
      ensures Apart()
      ensures Shows(Snapshot(),
                    Watches.PushRegular(w, cfg, source, Arrival(priority, data, timestamp), loopBack), cfg)
    {
      ghost var ready := Watches.Prepare(w, cfg, source, data, timestamp);
      PreparedFeeds(w, cfg, source, Arrival(priority, data, timestamp), loopBack, ready);
      var known := FindSession(source, data, timestamp, w);
      if known {
        FeedSession(source, priority, data, timestamp, loopBack, ready);
      }
    }

    // -------------------------------------------------------------- anonymous frames

    /** An anonymous transfer replaces the one in the transfer slot. */
    method StoreAnonymous(priority: Priority, payload: seq<byte>, id: TransferId, timestamp: Instant, loopBack: bool)
      requires Apart() && transferBufferIdx < |Snapshot().table.bytes|
      modifies this`transfer, this`transferMinTimestamp, table.Owned()
      ensures Apart() && |Snapshot().table.bytes| == |old(Snapshot()).table.bytes|
      ensures var v, b := old(Snapshot()), Snapshot().table.bytes;
        var idx := v.transferIdx;
        && |b[idx]| == |v.table.bytes[idx]| && Stores(b[idx], payload)
        && Snapshot() == Overwritten(v, Watches.Entry(priority, None, id, timestamp, loopBack,
                                                      Min(|payload|, |b[idx]|)), b[idx])
    {
      transferMinTimestamp := timestamp;
      var length := table.WriteBuffer(transferBufferIdx, payload);
      transfer := Some(Watches.Entry(priority, None, id, timestamp, loopBack, length));
    }

    method PushAnonymousFrame(priority: Priority, data: seq<byte>, timestamp: Instant, loopBack: bool,
                              ghost w: Watches.Watch)
      requires Apart() && Watches.Valid(w, cfg) && Shows(Snapshot(), w, cfg)
      modifies this`transfer, this`transferMinTimestamp, table.Owned()
      ensures Apart()
      ensures Shows(Snapshot(), Watches.PushAnonymous(w, cfg, Arrival(priority, data, timestamp), loopBack), cfg)
    {
      if |data| == 0 {
        return;
      }
      var tail, payload := DecodeTail(data[|data| - 1]), data[..|data| - 1];
      if !(tail.sot && tail.eot && tail.toggle == SOT_TOGGLE_BIT) || transferMinTimestamp > timestamp {
        return;
      }
      ghost var v := Snapshot();
      StoreAnonymous(priority, payload, tail.transferId, timestamp, loopBack);
      AnonymousShows(v, w, cfg, payload, transfer.value, Snapshot().table.bytes[v.transferIdx]);
    }

    // -------------------------------------------------------------- the two operations

    /** A start of transfer of a named source needs a session slot to ask for. */
    method PushFrame(frame: RxFrame, ghost w: Watches.Watch)
      requires Apart() && Watches.Valid(w, cfg) && Shows(Snapshot(), w, cfg) && |frame.data| <= MAX_LENGTH
      requires cfg.sessionSlots <= MAX_NODE + 1
      requires frame.spec == cfg.spec && frame.source.Some? && IsStart(frame.data) ==> cfg.sessionSlots > 0
      modifies this`transfer, this`transferMinTimestamp, this`transferBufferIdx, table.Owned()
      ensures Apart() && Shows(Snapshot(), Watches.PushFrame(w, cfg, frame), cfg)
      ensures readoutBufferIdx == old(readoutBufferIdx)
    {
      if frame.spec == cfg.spec {
        match frame.source
        case Some(node) => PushRegularFrame(node, frame.priority, frame.data, frame.timestamp, frame.loopBack, w);
        case None => PushAnonymousFrame(frame.priority, frame.data, frame.timestamp, frame.loopBack, w);
      }
    }

    /** The transfer and its bytes; its buffer becomes the readout. */
    method TakeTransfer() returns (r: (RxFifo.TransferMeta, seq<byte>))
      requires Apart() && transfer.Some? && transferBufferIdx < |Snapshot().table.bytes|
      requires transfer.value.length <= |Snapshot().table.bytes[transferBufferIdx]|
      modifies this`transfer, this`transferBufferIdx, this`readoutBufferIdx
      ensures Apart()
      ensures var v := old(Snapshot());
        && Snapshot() == v.(transfer := None, transferIdx := v.readoutIdx, readoutIdx := v.transferIdx)
        && r == (MetaOf(v.transfer.value), v.table.bytes[v.transferIdx][..v.transfer.value.length])
    {
      var entry := transfer.value;
      transfer := None;
      transferBufferIdx, readoutBufferIdx := readoutBufferIdx, transferBufferIdx;
      r := (MetaOf(entry), table.Slice(readoutBufferIdx, entry.length));
    }

    /** The transfer is read out of its buffer, which the next transfer does not use. */
    method TryPop(mask: set<Priority>, ghost w: Watches.Watch) returns (r: Option<(RxFifo.TransferMeta, seq<byte>)>)
      requires Apart() && Watches.Valid(w, cfg) && Shows(Snapshot(), w, cfg)
      modifies this`transfer, this`transferBufferIdx, this`readoutBufferIdx
      ensures Apart() && Shows(Snapshot(), Watches.TryPop(w, cfg, mask).0, cfg)
      ensures r == RxFifo.ReadOf(Watches.TryPop(w, cfg, mask).1)
    {
      if transfer.None? || transfer.value.priority !in mask {
        return None;
      }
      PoppedShows(Snapshot(), w, cfg, mask);
      var taken := TakeTransfer();
      r := Some(taken);
    }
  }
}
