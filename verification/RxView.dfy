/** Who owns which buffer index, and how indexed buffers represent the index-free model. */
module RxView {
  import opened Wrappers
  import opened Time
  import opened Format
  import opened Priorities
  import opened Reassembly
  import opened ClassQueues
  import opened PriorityQueues
  import opened RxModel
  import opened SessionTables

  // ---------------------------------------------------------------- ownership

  /** Queued indices and the indices owned by sessions are all `n` indices, each once. */
  ghost predicate Partition(queues: seq<seq<nat>>, live: map<nat, nat>, n: nat) {
    && Distinct(queues, n)
    && Private(queues, live, n)
    && Count(queues) + |live| == n
  }

  ghost predicate Private(queues: seq<seq<nat>>, live: map<nat, nat>, n: nat) {
    && (forall s :: s in live ==> live[s] < n && !Queued(queues, live[s]))
    && (forall s, t :: s in live && t in live && live[s] == live[t] ==> s == t)
  }

  lemma NewKeySize(live: map<nat, nat>, s: nat, e: nat)
    requires s !in live
    ensures |live[s := e]| == |live| + 1
  {
    assert live[s := e].Keys == live.Keys + {s};
  }

  lemma SameKeySize(live: map<nat, nat>, s: nat, e: nat)
    requires s in live
    ensures |live[s := e]| == |live|
  {
    assert live[s := e].Keys == live.Keys;
  }

  function RemoveIndex(q: seq<nat>, k: nat): seq<nat>
    requires k < |q|
  {
    q[..k] + q[k + 1..]
  }

  /** An index leaves position `k` of queue `c` and goes to the back of queue `d`. */
  function MoveTo(queues: seq<seq<nat>>, c: nat, k: nat, d: nat): seq<seq<nat>>
    requires c < |queues| && k < |queues[c]| && d < |queues|
  {
    var rest := queues[c := RemoveIndex(queues[c], k)];
    rest[d := rest[d] + [queues[c][k]]]
  }

  lemma MoveToKeeps(queues: seq<seq<nat>>, live: map<nat, nat>, n: nat, c: nat, k: nat, d: nat)
    requires Partition(queues, live, n) && InQueue(queues, c, k) && d < |queues|
    ensures Partition(MoveTo(queues, c, k, d), live, n)
    ensures forall x :: Queued(MoveTo(queues, c, k, d), x) <==> Queued(queues, x)
  {
    var e, rest := queues[c][k], queues[c := RemoveIndex(queues[c], k)];
    RemoveDistinct(queues, n, c, k);
    CountUpdate(queues, c, RemoveIndex(queues[c], k), |queues|);
    assert IsLink(rest, d, |rest[d]|);
    InsertDistinct(rest, n, d, |rest[d]|, e);
    assert rest[d][..|rest[d]|] + [e] + rest[d][|rest[d]|..] == rest[d] + [e];
    CountUpdate(rest, d, rest[d] + [e], |queues|);
  }

  /** Index `i` replaces the one at position `k` of queue `c`. */
  function Place(queues: seq<seq<nat>>, c: nat, k: nat, i: nat): (r: seq<seq<nat>>)
    requires c < |queues| && k < |queues[c]|
    ensures |r| == |queues|
  {
    var q: seq<nat> := queues[c][k := i];
    queues[c := q]
  }

  lemma PlaceDistinct(queues: seq<seq<nat>>, n: nat, c: nat, k: nat, i: nat)
    requires Distinct(queues, n) && InQueue(queues, c, k) && i < n && !Queued(queues, i)
    ensures Distinct(Place(queues, c, k, i), n)
    ensures forall x :: Queued(Place(queues, c, k, i), x) <==> x == i || (x != queues[c][k] && Queued(queues, x))
    ensures Count(Place(queues, c, k, i)) == Count(queues)
  {
    var r := Place(queues, c, k, i);
    forall d, j | InQueue(r, d, j)
      ensures InQueue(queues, d, j) && (r[d][j] == if d == c && j == k then i else queues[d][j])
    {
      assert InQueue(queues, d, j);
    }
    assert InQueue(r, c, k);
    forall x | x != queues[c][k] && Queued(queues, x) ensures Queued(r, x) {
      var d, j :| InQueue(queues, d, j) && queues[d][j] == x;
      assert InQueue(r, d, j);
    }
    var q: seq<nat> := queues[c][k := i];
    CountUpdate(queues, c, q, |queues|);
  }

  /** A queued index and the index of a session change places. */
  lemma SwapKeeps(queues: seq<seq<nat>>, live: map<nat, nat>, n: nat, c: nat, k: nat, s: nat)
    requires Partition(queues, live, n) && InQueue(queues, c, k) && s in live
    ensures Partition(Place(queues, c, k, live[s]), live[s := queues[c][k]], n)
  {
    PlaceDistinct(queues, n, c, k, live[s]);
    SameKeySize(live, s, queues[c][k]);
  }

  /** The same, and the session's former index goes to the back of queue `d`. */
  lemma SwapMoveKeeps(queues: seq<seq<nat>>, live: map<nat, nat>, n: nat, c: nat, k: nat, d: nat, s: nat)
    requires Partition(queues, live, n) && InQueue(queues, c, k) && d < |queues| && s in live
    ensures Partition(MoveTo(Place(queues, c, k, live[s]), c, k, d), live[s := queues[c][k]], n)
  {
    SwapKeeps(queues, live, n, c, k, s);
    var placed := Place(queues, c, k, live[s]);
    assert InQueue(placed, c, k);
    MoveToKeeps(placed, live[s := queues[c][k]], n, c, k, d);
  }

  /** The first index of queue `c` becomes the index of a new session. */
  lemma TakeKeeps(queues: seq<seq<nat>>, live: map<nat, nat>, n: nat, c: nat, s: nat)
    requires Partition(queues, live, n) && InQueue(queues, c, 0) && s !in live
    ensures Partition(queues[c := queues[c][1..]], live[s := queues[c][0]], n)
  {
    var e, r := queues[c][0], queues[c := queues[c][1..]];
    RemoveDistinct(queues, n, c, 0);
    assert queues[c][..0] + queues[c][1..] == queues[c][1..];
    CountUpdate(queues, c, queues[c][1..], |queues|);
    NewKeySize(live, s, e);
    PrivateTake(queues, live, n, r, s, e);
  }

  lemma PrivateTake(queues: seq<seq<nat>>, live: map<nat, nat>, n: nat, queues': seq<seq<nat>>, s: nat, e: nat)
    requires Private(queues, live, n) && e < n && Queued(queues, e)
    requires forall x :: Queued(queues', x) <==> x != e && Queued(queues, x)
    ensures Private(queues', live[s := e], n)
  {
  }

  /** A session hands its index to another. */
  lemma RenameKeeps(queues: seq<seq<nat>>, live: map<nat, nat>, n: nat, s: nat, t: nat)
    requires Partition(queues, live, n) && s in live && t !in live
    ensures Partition(queues, (live - {s})[t := live[s]], n)
  {
    var less := live - {s};
    assert less.Keys == live.Keys - {s};
    assert less[t := live[s]].Keys == less.Keys + {t};
  }

  // ---------------------------------------------------------------- indexed state

  datatype TransferEntry = TransferEntry(source: Option<NodeId>, transferId: TransferId, timestamp: Instant,
                                         loopBack: bool, bufferLength: nat, bufferIdx: u8)

  datatype View = View(slots: map<nat, Slot>, recency: seq<nat>, base: u8, fifos: seq<seq<TransferEntry>>,
                       free: seq<u8>,
                       readoutIdx: u8, buffers: seq<seq<byte>>)

  const FREE: nat := LEVELS
  const UNALLOCATED: nat := LEVELS + 1
  const READOUT: nat := LEVELS + 2

  function BufferCount(cfg: Config): nat {
    cfg.sessionSlots + cfg.transferSlots + 1
  }

  function Indices(fifo: seq<TransferEntry>): (r: seq<nat>)
    ensures |r| == |fifo|
  {
    seq(|fifo|, i requires 0 <= i < |fifo| => fifo[i].bufferIdx)
  }

  function Range(from: nat, to: nat): (r: seq<nat>)
    requires from <= to
    ensures |r| == to - from
  {
    seq(to - from, i => from + i)
  }

  function AllIndices(fifos: seq<seq<TransferEntry>>): (r: seq<seq<nat>>)
    ensures |r| == |fifos|
  {
    seq(|fifos|, p requires 0 <= p < |fifos| => Indices(fifos[p]))
  }

  /** The indices not owned by sessions: waiting at each priority, free, never allocated, being read. */
  function Family(v: View, cfg: Config): (r: seq<seq<nat>>)
    requires |v.fifos| == LEVELS && v.base <= cfg.sessionSlots
    ensures |r| == LEVELS + 3
  {
    AllIndices(v.fifos) + [v.free, Range(v.base, cfg.sessionSlots), [v.readoutIdx]]
  }

  function Live(slots: map<nat, Slot>): (r: map<nat, nat>)
    ensures r.Keys == slots.Keys
  {
    map s | s in slots :: slots[s].bufferIdx
  }

  /** Each index has exactly one owner, and the counts are those of the slots. */
  ghost predicate Owned(v: View, cfg: Config) {
    && |v.fifos| == LEVELS && v.base <= cfg.sessionSlots
    && |v.slots| == v.base
    && |v.free| + Count(v.fifos) == cfg.transferSlots
    && Partition(Family(v, cfg), Live(v.slots), BufferCount(cfg))
  }

  ghost predicate RepresentsSession(slot: Slot, session: Session, buffers: seq<seq<byte>>) {
    && WellFormed(session) && slot.gather == Packed(session)
    && slot.bufferIdx < |buffers| && Stores(buffers[slot.bufferIdx], session.content)
  }

  ghost predicate RepresentsSessions(slots: map<nat, Slot>, sessions: map<nat, Session>, buffers: seq<seq<byte>>) {
    && slots.Keys == sessions.Keys
    && forall s :: s in slots ==> RepresentsSession(slots[s], sessions[s], buffers)
  }

  ghost predicate RepresentsItem(e: TransferEntry, x: Item, buffers: seq<seq<byte>>) {
    && e.bufferIdx < |buffers| && e.bufferLength <= |buffers[e.bufferIdx]|
    && x == Item(e.source, e.transferId, e.timestamp, e.loopBack, buffers[e.bufferIdx][..e.bufferLength])
  }

  ghost predicate Waits<T>(queues: seq<seq<T>>, p: int, i: int) {
    0 <= p < |queues| && 0 <= i < |queues[p]|
  }

  ghost predicate RepresentsQueues(fifos: seq<seq<TransferEntry>>, queues: seq<seq<Item>>, buffers: seq<seq<byte>>) {
    && |fifos| == |queues|
    && (forall p :: 0 <= p < |fifos| ==> |fifos[p]| == |queues[p]|)
    && (forall p, i :: Waits(fifos, p, i) ==> RepresentsItem(fifos[p][i], queues[p][i], buffers))
  }

  ghost predicate RepresentsReadout(idx: nat, readout: seq<byte>, buffers: seq<seq<byte>>) {
    && idx < |buffers| && |readout| <= |buffers[idx]|
    && readout == buffers[idx][..|readout|]
  }

  ghost predicate Sized(buffers: seq<seq<byte>>, cfg: Config) {
    && |buffers| == BufferCount(cfg)
    && forall i :: 0 <= i < |buffers| ==> |buffers[i]| == cfg.capacity
  }

  /** The indexed buffers hold what the model says each owner has. */
  ghost predicate Represents(v: View, m: Rx, cfg: Config) {
    && Owned(v, cfg)
    && Sized(v.buffers, cfg)
    && v.recency == m.recency
    && RepresentsSessions(v.slots, m.sessions, v.buffers)
    && RepresentsQueues(v.fifos, m.queues, v.buffers)
    && RepresentsReadout(v.readoutIdx, m.readout, v.buffers)
  }

  // ---------------------------------------------------------------- starting a session

  /** A new session on the next unallocated buffer. */
  function WithNewSlot(v: View, source: NodeId): View
    requires v.base < 255
  {
    v.(slots := v.slots[source := Slot(Packed(FRESH), v.base)], recency := [source] + v.recency, base := v.base + 1)
  }

  /** The oldest session gives its buffer to a new one. */
  function WithReusedSlot(v: View, source: NodeId): View
    requires v.recency != [] && v.recency[0] in v.slots
  {
    var oldest := v.recency[0];
    v.(slots := (v.slots - {oldest})[source := Slot(Packed(FRESH), v.slots[oldest].bufferIdx)],
       recency := [source] + v.recency[1..])
  }

  lemma NewSlotOwned(v: View, cfg: Config, source: NodeId)
    requires Owned(v, cfg) && source !in v.slots && v.base < cfg.sessionSlots && v.base < 255
    ensures Owned(WithNewSlot(v, source), cfg)
  {
    var fam := Family(v, cfg);
    NewSlotFamily(v, cfg, source);
    assert InQueue(fam, UNALLOCATED, 0);
    TakeKeeps(fam, Live(v.slots), BufferCount(cfg), UNALLOCATED, source);
  }

  lemma NewSlotFamily(v: View, cfg: Config, source: NodeId)
    requires |v.fifos| == LEVELS && source !in v.slots && v.base < cfg.sessionSlots && v.base < 255
    ensures Family(v, cfg)[UNALLOCATED] != [] && Family(v, cfg)[UNALLOCATED][0] == v.base
    ensures Family(WithNewSlot(v, source), cfg) == Family(v, cfg)[UNALLOCATED := Family(v, cfg)[UNALLOCATED][1..]]
    ensures Live(WithNewSlot(v, source).slots) == Live(v.slots)[source := v.base]
    ensures |WithNewSlot(v, source).slots| == |v.slots| + 1
  {
    var w, range := WithNewSlot(v, source), Range(v.base, cfg.sessionSlots);
    assert range[1..] == Range(w.base, cfg.sessionSlots);
    assert w.slots.Keys == v.slots.Keys + {source};
  }

  lemma ReusedSlotOwned(v: View, cfg: Config, source: NodeId)
    requires Owned(v, cfg) && source !in v.slots
    requires v.recency != [] && v.recency[0] in v.slots
    ensures Owned(WithReusedSlot(v, source), cfg)
  {
    var w, oldest := WithReusedSlot(v, source), v.recency[0];
    RenameKeeps(Family(v, cfg), Live(v.slots), BufferCount(cfg), oldest, source);
    assert Family(w, cfg) == Family(v, cfg);
    assert Live(w.slots) == (Live(v.slots) - {oldest})[source := Live(v.slots)[oldest]];
    var less := v.slots - {oldest};
    assert less.Keys == v.slots.Keys - {oldest};
    assert w.slots.Keys == less.Keys + {source};
  }

  lemma LiveBelow(v: View, cfg: Config, s: nat)
    requires Owned(v, cfg) && s in v.slots
    ensures v.slots[s].bufferIdx < BufferCount(cfg)
  {
    assert Live(v.slots)[s] == v.slots[s].bufferIdx;
  }

  lemma NewSlotRepresents(v: View, m: Rx, cfg: Config, source: NodeId)
    requires Represents(v, m, cfg) && source !in v.slots && v.base < cfg.sessionSlots && v.base < 255
    ensures Represents(WithNewSlot(v, source),
                       m.(sessions := m.sessions[source := FRESH], recency := [source] + m.recency), cfg)
  {
    NewSlotOwned(v, cfg, source);
    var w := WithNewSlot(v, source);
    assert w.slots.Keys == m.sessions[source := FRESH].Keys;
  }

  lemma ReusedSlotRepresents(v: View, m: Rx, cfg: Config, source: NodeId)
    requires Represents(v, m, cfg) && source !in v.slots
    requires v.recency != [] && v.recency[0] in v.slots
    ensures Represents(WithReusedSlot(v, source),
      m.(sessions := (m.sessions - {m.recency[0]})[source := FRESH], recency := [source] + m.recency[1..]), cfg)
  {
    ReusedSlotOwned(v, cfg, source);
    LiveBelow(v, cfg, v.recency[0]);
    ReusedSessions(v.slots, m.sessions, v.buffers, v.recency[0], source);
  }

  lemma ReusedSessions(slots: map<nat, Slot>, sessions: map<nat, Session>, buffers: seq<seq<byte>>, oldest: nat,
                       source: nat)
    requires RepresentsSessions(slots, sessions, buffers) && oldest in slots && source !in slots
    ensures RepresentsSessions((slots - {oldest})[source := Slot(Packed(FRESH), slots[oldest].bufferIdx)],
                               (sessions - {oldest})[source := FRESH], buffers)
  {
    assert RepresentsSession(slots[oldest], sessions[oldest], buffers);
  }

  /** Sessions and buffers agree on when the oldest session is reused. */
  lemma SlotsFull(v: View, m: Rx, cfg: Config)
    requires Represents(v, m, cfg) && Sane(m, cfg)
    ensures v.base == |m.sessions| == |v.slots| <= cfg.sessionSlots
    ensures v.recency == m.recency && v.slots.Keys == m.sessions.Keys
    ensures v.base > 0 ==>
      && m.recency != [] && m.recency[0] in m.sessions
      && Remove(m.recency, m.recency[0]) == m.recency[1..]
      && WellFormed(m.sessions[m.recency[0]])
      && v.slots[m.recency[0]].gather == Packed(m.sessions[m.recency[0]])
  {
    assert |v.slots| == |v.slots.Keys| && |m.sessions| == |m.sessions.Keys|;
    if v.base > 0 {
      assert m.sessions.Keys != {};
      var s :| s in m.sessions.Keys;
      assert s in m.recency;
      assert RepresentsSession(v.slots[m.recency[0]], m.sessions[m.recency[0]], v.buffers);
    }
  }

  function TableOf(v: View): Table {
    Table(v.slots, v.recency, v.base, v.buffers)
  }

  function ViewOf(t: Table, fifos: seq<seq<TransferEntry>>, free: seq<u8>, readoutIdx: u8): View {
    View(t.slots, t.recency, t.base, fifos, free, readoutIdx, t.bytes)
  }

  function Appended(fifos: seq<seq<TransferEntry>>, p: Priority, entry: TransferEntry): seq<seq<TransferEntry>>
    requires |fifos| == LEVELS
  {
    fifos[p := fifos[p] + [entry]]
  }

  function WithTable(v: View, t: Table): View {
    v.(slots := t.slots, recency := t.recency, base := t.base, buffers := t.bytes)
  }

  /** Starting a session, in the slots and in the model. */
  lemma StartRepresents(v: View, m: Rx, cfg: Config, source: NodeId, now: Instant, oldest: Session)
    requires Represents(v, m, cfg) && Sane(m, cfg) && source !in m.sessions && 0 < cfg.sessionSlots <= MAX_NODE + 1
    requires m.recency != [] && m.recency[0] in m.sessions ==> oldest == m.sessions[m.recency[0]]
    ensures v.base >= cfg.sessionSlots ==> v.recency != [] && v.recency[0] in v.slots
    ensures Represents(WithTable(v, SlotStarted(TableOf(v), cfg.sessionSlots, cfg.timeout, source, now, oldest)),
                       StartSession(m, cfg, source, now), cfg)
    ensures Sane(StartSession(m, cfg, source, now), cfg)
  {
    SlotsFull(v, m, cfg);
    StartSessionSane(m, cfg, source, now);
    StartIs(v, cfg, source, now, oldest);
    if v.base < cfg.sessionSlots {
      NewSlotRepresents(v, m, cfg, source);
    } else if Expired(oldest, cfg.timeout, now) {
      ReusedSlotRepresents(v, m, cfg, source);
    }
  }

  /** The slot a new source gets. */
  lemma StartIs(v: View, cfg: Config, source: NodeId, now: Instant, oldest: Session)
    requires source !in v.recency && cfg.sessionSlots <= MAX_NODE + 1
    requires v.base >= cfg.sessionSlots ==> v.recency != [] && v.recency[0] in v.slots
    ensures WithTable(v, SlotStarted(TableOf(v), cfg.sessionSlots, cfg.timeout, source, now, oldest)) ==
            if v.base < cfg.sessionSlots then WithNewSlot(v, source)
            else if Expired(oldest, cfg.timeout, now) then WithReusedSlot(v, source) else v
  {
    RemoveAbsent(v.recency, source);
    if v.recency != [] {
      RemoveAbsent(v.recency[1..], source);
    }
  }

  // ---------------------------------------------------------------- feeding a session

  /** A session's reassembler advances and writes its own buffer. */
  function WithFed(v: View, s: nat, session: Session, buffer: seq<byte>): View
    requires |session.content| <= U32_MAX && s in v.slots && v.slots[s].bufferIdx < |v.buffers|
  {
    v.(slots := v.slots[s := v.slots[s].(gather := Packed(session))],
       buffers := v.buffers[v.slots[s].bufferIdx := buffer])
  }

  /** No queued index is the index of a session. */
  lemma QueuedElsewhere(v: View, cfg: Config, s: nat)
    requires Owned(v, cfg) && s in v.slots
    ensures forall p, i :: Waits(v.fifos, p, i) ==> v.fifos[p][i].bufferIdx != v.slots[s].bufferIdx
    ensures v.readoutIdx != v.slots[s].bufferIdx
    ensures forall t :: t in v.slots && t != s ==> v.slots[t].bufferIdx != v.slots[s].bufferIdx
  {
    var fam, live := Family(v, cfg), Live(v.slots);
    assert !Queued(fam, live[s]);
    forall p, i | Waits(v.fifos, p, i) ensures v.fifos[p][i].bufferIdx != live[s] {
      assert InQueue(fam, p, i) && fam[p][i] == v.fifos[p][i].bufferIdx;
    }
    assert InQueue(fam, READOUT, 0) && fam[READOUT][0] == v.readoutIdx;
    forall t | t in v.slots && t != s ensures v.slots[t].bufferIdx != live[s] {
      assert live[t] == v.slots[t].bufferIdx;
    }
  }

  lemma FedRepresents(v: View, m: Rx, cfg: Config, s: nat, session: Session, buffer: seq<byte>)
    requires Represents(v, m, cfg) && s in v.slots
    requires |buffer| == cfg.capacity && WellFormed(session) && Stores(buffer, session.content)
    ensures v.slots[s].bufferIdx < |v.buffers|
    ensures Represents(WithFed(v, s, session, buffer), m.(sessions := m.sessions[s := session]), cfg)
  {
    LiveBelow(v, cfg, s);
    QueuedElsewhere(v, cfg, s);
    FedOwned(v, cfg, s, session, buffer);
    FedSessions(v.slots, m.sessions, v.buffers, s, session, buffer);
    FedQueues(v.fifos, m.queues, v.buffers, v.slots[s].bufferIdx, buffer);
    FedSized(v.buffers, cfg, v.slots[s].bufferIdx, buffer);
  }

  lemma FedSized(buffers: seq<seq<byte>>, cfg: Config, idx: nat, buffer: seq<byte>)
    requires Sized(buffers, cfg) && idx < |buffers| && |buffer| == cfg.capacity
    ensures Sized(buffers[idx := buffer], cfg)
  {
  }

  lemma FedOwned(v: View, cfg: Config, s: nat, session: Session, buffer: seq<byte>)
    requires |session.content| <= U32_MAX && Owned(v, cfg) && s in v.slots && v.slots[s].bufferIdx < |v.buffers|
    ensures Owned(WithFed(v, s, session, buffer), cfg)
  {
    var w := WithFed(v, s, session, buffer);
    assert w.slots.Keys == v.slots.Keys;
    assert Live(w.slots) == Live(v.slots);
    assert Family(w, cfg) == Family(v, cfg);
  }

  lemma FedSessions(slots: map<nat, Slot>, sessions: map<nat, Session>, buffers: seq<seq<byte>>, s: nat,
                    session: Session, buffer: seq<byte>)
    requires RepresentsSessions(slots, sessions, buffers) && s in slots
    requires WellFormed(session) && Stores(buffer, session.content)
    requires forall t :: t in slots && t != s ==> slots[t].bufferIdx != slots[s].bufferIdx
    ensures RepresentsSessions(slots[s := slots[s].(gather := Packed(session))], sessions[s := session],
                               buffers[slots[s].bufferIdx := buffer])
  {
    assert slots[s := slots[s].(gather := Packed(session))].Keys == sessions[s := session].Keys;
  }

  lemma FedQueues(fifos: seq<seq<TransferEntry>>, queues: seq<seq<Item>>, buffers: seq<seq<byte>>, idx: nat,
                  buffer: seq<byte>)
    requires RepresentsQueues(fifos, queues, buffers) && idx < |buffers|
    requires forall p, i :: Waits(fifos, p, i) ==> fifos[p][i].bufferIdx != idx
    ensures RepresentsQueues(fifos, queues, buffers[idx := buffer])
  {
    forall p, i | Waits(fifos, p, i) ensures RepresentsItem(fifos[p][i], queues[p][i], buffers[idx := buffer]) {
      assert RepresentsItem(fifos[p][i], queues[p][i], buffers);
    }
  }

  /** What the session of a known source has in its slot. */
  lemma KnownSlot(v: View, m: Rx, cfg: Config, s: nat)
    requires Represents(v, m, cfg) && s in m.sessions
    ensures v.slots.Keys == m.sessions.Keys && v.recency == m.recency
    ensures v.slots[s].bufferIdx < |v.buffers| && |v.buffers[v.slots[s].bufferIdx]| == cfg.capacity
    ensures RepresentsSession(v.slots[s], m.sessions[s], v.buffers)
  {
    assert RepresentsSession(v.slots[s], m.sessions[s], v.buffers);
  }

  lemma TouchRepresents(v: View, w: View, m: Rx, cfg: Config, recency: seq<nat>)
    requires Represents(v, m, cfg) && w == v.(recency := recency)
    ensures Represents(w, m.(recency := recency), cfg)
  {
    assert Family(w, cfg) == Family(v, cfg);
  }

  // ---------------------------------------------------------------- granting a transfer slot

  /** Whether a transfer at priority `p` gets a buffer. */
  predicate Grants(fifos: seq<seq<TransferEntry>>, free: seq<u8>, p: Priority)
    requires |fifos| == LEVELS
  {
    free != [] || (Worst(fifos).Some? && p <= Worst(fifos).value)
  }

  /** The buffer it gets: the last free one, else that of the oldest least urgent transfer. */
  function Grant(fifos: seq<seq<TransferEntry>>, free: seq<u8>, p: Priority): u8
    requires |fifos| == LEVELS && Grants(fifos, free, p)
  {
    if free != [] then free[|free| - 1] else fifos[Worst(fifos).value][0].bufferIdx
  }

  function FreeAfter(free: seq<u8>): seq<u8> {
    if free != [] then free[..|free| - 1] else []
  }

  function FifosAfter(fifos: seq<seq<TransferEntry>>, free: seq<u8>, p: Priority): (r: seq<seq<TransferEntry>>)
    requires |fifos| == LEVELS && Grants(fifos, free, p)
    ensures |r| == LEVELS
  {
    if free != [] then fifos else fifos[Worst(fifos).value := fifos[Worst(fifos).value][1..]]
  }

  /** Queue and position the granted index comes from. */
  function GrantFrom(v: View, p: Priority): (r: Option<(nat, nat)>)
    requires |v.fifos| == LEVELS
    ensures r.Some? <==> Grants(v.fifos, v.free, p)
  {
    if !Grants(v.fifos, v.free, p) then None
    else if v.free != [] then Some((FREE, |v.free| - 1))
    else Some((Worst(v.fifos).value, 0))
  }

  function Granted(v: View, p: Priority): nat
    requires |v.fifos| == LEVELS && GrantFrom(v, p).Some?
  {
    Grant(v.fifos, v.free, p)
  }

  /** The granted index is taken and `entry` queued. */
  function WithEntry(v: View, p: Priority, entry: TransferEntry): View
    requires |v.fifos| == LEVELS && GrantFrom(v, p).Some?
  {
    var room := FifosAfter(v.fifos, v.free, p);
    v.(free := FreeAfter(v.free), fifos := room[p := room[p] + [entry]])
  }

  /** Indices are granted exactly when the model admits the transfer, and then the same room is made. */
  lemma GrantMatches(v: View, m: Rx, cfg: Config, p: Priority)
    requires Owned(v, cfg) && RepresentsQueues(v.fifos, m.queues, v.buffers)
    ensures GrantFrom(v, p).Some? <==> Admits(m.queues, p, cfg.transferSlots)
    ensures v.free != [] <==> Count(m.queues) < cfg.transferSlots
    ensures Worst(v.fifos) == Worst(m.queues)
  {
    CountSameLengths(v.fifos, m.queues, LEVELS);
    assert forall q: Priority :: v.fifos[q] == [] <==> m.queues[q] == [];
    assert NonEmpty(v.fifos) == NonEmpty(m.queues);
  }

  lemma GrantPosition(v: View, cfg: Config, p: Priority)
    requires Owned(v, cfg) && GrantFrom(v, p).Some?
    ensures var (c, k) := GrantFrom(v, p).value;
      InQueue(Family(v, cfg), c, k) && Family(v, cfg)[c][k] == Granted(v, p)
  {
  }

  lemma FamilyAfterEntry(v: View, cfg: Config, p: Priority, entry: TransferEntry)
    requires Owned(v, cfg) && GrantFrom(v, p).Some?
    ensures var (c, k) := GrantFrom(v, p).value;
      && InQueue(Family(v, cfg), c, k)
      && Family(WithEntry(v, p, entry), cfg)
         == MoveTo(Place(Family(v, cfg), c, k, entry.bufferIdx), c, k, p)
  {
    var (c, k) := GrantFrom(v, p).value;
    var fam := Family(v, cfg);
    GrantPosition(v, cfg, p);
    var placed := Place(fam, c, k, entry.bufferIdx);
    var moved := MoveTo(placed, c, k, p);
    var after := Family(WithEntry(v, p, entry), cfg);
    forall d | 0 <= d < |fam| ensures after[d] == moved[d] {
      EntryQueue(v, cfg, p, entry, d);
    }
  }

  lemma IndicesOf(fifo: seq<TransferEntry>, entry: TransferEntry)
    ensures Indices(fifo + [entry]) == Indices(fifo) + [entry.bufferIdx]
    ensures fifo != [] ==> Indices(fifo[1..]) == RemoveIndex(Indices(fifo), 0)
  {
  }

  lemma EntryFifo(v: View, cfg: Config, p: Priority, entry: TransferEntry, d: Priority)
    requires Owned(v, cfg) && GrantFrom(v, p).Some?
    ensures var (c, k) := GrantFrom(v, p).value;
      && InQueue(Family(v, cfg), c, k)
      && Indices(WithEntry(v, p, entry).fifos[d]) == MoveTo(Place(Family(v, cfg), c, k, entry.bufferIdx), c, k, p)[d]
  {
    var (c, k) := GrantFrom(v, p).value;
    var fam := Family(v, cfg);
    GrantPosition(v, cfg, p);
    PlacedAndMoved(fam, c, k, entry.bufferIdx);
    assert fam[d] == Indices(v.fifos[d]);
    var rest := if d == c then RemoveIndex(fam[d], k) else fam[d];
    assert MoveTo(Place(fam, c, k, entry.bufferIdx), c, k, p)[d] == if d == p then rest + [entry.bufferIdx] else rest;
    var left := if d == c then v.fifos[d][1..] else v.fifos[d];
    IndicesOf(v.fifos[d], entry);
    IndicesOf(left, entry);
    assert Indices(left) == rest;
  }

  /** Replacing an index that is then removed leaves what removing it leaves. */
  lemma PlacedAndMoved(fam: seq<seq<nat>>, c: nat, k: nat, i: nat)
    requires c < |fam| && k < |fam[c]|
    ensures RemoveIndex(fam[c][k := i], k) == RemoveIndex(fam[c], k)
  {
  }

  lemma EntryQueue(v: View, cfg: Config, p: Priority, entry: TransferEntry, d: nat)
    requires Owned(v, cfg) && GrantFrom(v, p).Some? && d < LEVELS + 3
    ensures var (c, k) := GrantFrom(v, p).value;
      && InQueue(Family(v, cfg), c, k)
      && Family(WithEntry(v, p, entry), cfg)[d]
         == MoveTo(Place(Family(v, cfg), c, k, entry.bufferIdx), c, k, p)[d]
  {
    var (c, k) := GrantFrom(v, p).value;
    GrantPosition(v, cfg, p);
    if d < LEVELS {
      EntryFifo(v, cfg, p, entry, d);
      assert Family(WithEntry(v, p, entry), cfg)[d] == Indices(WithEntry(v, p, entry).fifos[d]);
    } else {
      PlacedAndMoved(Family(v, cfg), c, k, entry.bufferIdx);
    }
  }

  lemma EntryCount(v: View, p: Priority, entry: TransferEntry)
    requires |v.fifos| == LEVELS && GrantFrom(v, p).Some?
    ensures var w := WithEntry(v, p, entry);
      |w.free| + Count(w.fifos) == |v.free| + Count(v.fifos)
  {
    if v.free != [] {
      CountUpdate(v.fifos, p, v.fifos[p] + [entry], LEVELS);
    } else {
      var w := Worst(v.fifos).value;
      var room := v.fifos[w := v.fifos[w][1..]];
      CountUpdate(v.fifos, w, v.fifos[w][1..], LEVELS);
      CountUpdate(room, p, room[p] + [entry], LEVELS);
    }
  }

  /** A delivering session gives its buffer to the queue and takes the granted one. */
  lemma SwapOwned(v: View, cfg: Config, s: nat, p: Priority, entry: TransferEntry)
    requires Owned(v, cfg) && s in v.slots && GrantFrom(v, p).Some?
    requires entry.bufferIdx == v.slots[s].bufferIdx
    ensures Granted(v, p) < BufferCount(cfg)
    ensures Owned(WithEntry(v, p, entry).(slots := v.slots[s := v.slots[s].(bufferIdx := Granted(v, p))]), cfg)
  {
    var (c, k) := GrantFrom(v, p).value;
    GrantPosition(v, cfg, p);
    SwapMoveKeeps(Family(v, cfg), Live(v.slots), BufferCount(cfg), c, k, p, s);
    FamilyAfterEntry(v, cfg, p, entry);
    EntryCount(v, p, entry);
    SwapLive(v.slots, s, Granted(v, p));
  }

  lemma SwapLive(slots: map<nat, Slot>, s: nat, i: u8)
    requires s in slots
    ensures Live(slots[s := slots[s].(bufferIdx := i)]) == Live(slots)[s := i]
    ensures |slots[s := slots[s].(bufferIdx := i)]| == |slots|
  {
    assert slots[s := slots[s].(bufferIdx := i)].Keys == slots.Keys;
  }

  /** An anonymous transfer is queued in the granted buffer itself. */
  lemma AnonymousOwned(v: View, cfg: Config, p: Priority, entry: TransferEntry)
    requires Owned(v, cfg) && GrantFrom(v, p).Some? && entry.bufferIdx == Granted(v, p)
    ensures Owned(WithEntry(v, p, entry), cfg)
  {
    var (c, k) := GrantFrom(v, p).value;
    var fam := Family(v, cfg);
    GrantPosition(v, cfg, p);
    assert fam[c][k := fam[c][k]] == fam[c];
    assert Place(fam, c, k, fam[c][k]) == fam;
    MoveToKeeps(fam, Live(v.slots), BufferCount(cfg), c, k, p);
    FamilyAfterEntry(v, cfg, p, entry);
    EntryCount(v, p, entry);
  }

  /** The granted index is the one at the granted position only. */
  lemma GrantedOnce(v: View, cfg: Config, p: Priority, q: nat, i: nat)
    requires Owned(v, cfg) && GrantFrom(v, p).Some? && Waits(v.fifos, q, i)
    ensures v.fifos[q][i].bufferIdx == Granted(v, p) ==> v.free == [] && q == Worst(v.fifos).value && i == 0
  {
    var (c, k) := GrantFrom(v, p).value;
    GrantPosition(v, cfg, p);
    assert InQueue(Family(v, cfg), q, i) && Family(v, cfg)[q][i] == v.fifos[q][i].bufferIdx;
  }

  /** Buffers may differ at the granted index only. */
  ghost predicate SameButGranted(v: View, p: Priority, buffers: seq<seq<byte>>)
    requires |v.fifos| == LEVELS && GrantFrom(v, p).Some?
  {
    && |buffers| == |v.buffers|
    && forall i :: 0 <= i < |buffers| && i != Granted(v, p) ==> buffers[i] == v.buffers[i]
  }

  /** Queueing an entry represents offering its item. */
  lemma EntryRepresents(v: View, m: Rx, cfg: Config, p: Priority, entry: TransferEntry, x: Item,
                        buffers: seq<seq<byte>>)
    requires Owned(v, cfg) && RepresentsQueues(v.fifos, m.queues, v.buffers)
    requires GrantFrom(v, p).Some? && RepresentsItem(entry, x, buffers) && SameButGranted(v, p, buffers)
    ensures RepresentsQueues(WithEntry(v, p, entry).fifos, Offer(m.queues, p, x, cfg.transferSlots), buffers)
  {
    GrantMatches(v, m, cfg, p);
    var room := if v.free != [] then v.fifos else v.fifos[Worst(v.fifos).value := v.fifos[Worst(v.fifos).value][1..]];
    var rest := MakeRoom(m.queues, cfg.transferSlots);
    forall q, i | Waits(room, q, i) ensures RepresentsItem(room[q][i], rest[q][i], buffers) {
      var j := if v.free == [] && q == Worst(v.fifos).value then i + 1 else i;
      assert Waits(v.fifos, q, j);
      GrantedOnce(v, cfg, p, q, j);
    }
    AppendRepresents(room, rest, buffers, p, entry, x);
  }

  lemma AppendRepresents(fifos: seq<seq<TransferEntry>>, queues: seq<seq<Item>>, buffers: seq<seq<byte>>, p: nat,
                         entry: TransferEntry, x: Item)
    requires RepresentsQueues(fifos, queues, buffers) && p < |fifos| && RepresentsItem(entry, x, buffers)
    ensures RepresentsQueues(fifos[p := fifos[p] + [entry]], queues[p := queues[p] + [x]], buffers)
  {
    var f, q := fifos[p := fifos[p] + [entry]], queues[p := queues[p] + [x]];
    forall c, i | Waits(f, c, i) ensures RepresentsItem(f[c][i], q[c][i], buffers) {
      if !(c == p && i == |fifos[p]|) {
        assert Waits(fifos, c, i);
      }
    }
  }

  /** A session's finished transfer is queued in the buffer it was collected in. */
  lemma DeliverRepresents(v: View, m: Rx, cfg: Config, s: nat, p: Priority, entry: TransferEntry, x: Item)
    requires Represents(v, m, cfg) && s in v.slots && m.sessions[s].content == []
    requires GrantFrom(v, p).Some? && entry.bufferIdx == v.slots[s].bufferIdx && RepresentsItem(entry, x, v.buffers)
    ensures Represents(WithEntry(v, p, entry).(slots := v.slots[s := v.slots[s].(bufferIdx := Granted(v, p))]),
                       m.(queues := Offer(m.queues, p, x, cfg.transferSlots)), cfg)
  {
    SwapOwned(v, cfg, s, p, entry);
    EntryRepresents(v, m, cfg, p, entry, x, v.buffers);
    MovedSessions(v.slots, m.sessions, v.buffers, s, Granted(v, p));
  }

  lemma MovedSessions(slots: map<nat, Slot>, sessions: map<nat, Session>, buffers: seq<seq<byte>>, s: nat, idx: u8)
    requires RepresentsSessions(slots, sessions, buffers) && s in slots && sessions[s].content == []
    requires idx < |buffers|
    ensures RepresentsSessions(slots[s := slots[s].(bufferIdx := idx)], sessions, buffers)
  {
    assert slots[s := slots[s].(bufferIdx := idx)].Keys == slots.Keys;
  }

  /** A transfer of session `s` at priority `p` asked for a transfer slot. */
  ghost predicate HandedOver(v: View, w: View, s: nat, p: Priority, entry: TransferEntry)
    requires |v.fifos| == LEVELS && s in v.slots
  {
    if GrantFrom(v, p) == None then w == v
    else w == WithEntry(v, p, entry).(slots := v.slots[s := v.slots[s].(bufferIdx := Granted(v, p))])
  }

  lemma TruncatedItem(buffers: seq<seq<byte>>, idx: nat, cfg: Config, bytes: seq<byte>, entry: TransferEntry, x: Item)
    requires idx < |buffers| && |buffers[idx]| == cfg.capacity && Stores(buffers[idx], bytes)
    requires entry.bufferIdx == idx && entry.bufferLength == Min(|bytes|, cfg.capacity)
    requires x == Item(entry.source, entry.transferId, entry.timestamp, entry.loopBack, Truncate(bytes, cfg))
    ensures RepresentsItem(entry, x, buffers)
  {
  }

  lemma HandedOverRepresents(v: View, w: View, m: Rx, cfg: Config, s: nat, entry: TransferEntry, d: Delivery,
                             loopBack: bool)
    requires Represents(v, m, cfg) && s in v.slots && s in m.sessions && m.sessions[s].content == [] && s <= MAX_NODE
    requires |v.fifos| == LEVELS && HandedOver(v, w, s, d.priority, entry)
    requires v.slots[s].bufferIdx < |v.buffers| && Stores(v.buffers[v.slots[s].bufferIdx], d.bytes)
    requires entry == TransferEntry(Some(s), d.id, d.timestamp, loopBack, Min(|d.bytes|, cfg.capacity),
                                    v.slots[s].bufferIdx)
    ensures |m.queues| == LEVELS
    ensures Represents(w, m.(queues := Deliver(m.queues, cfg, s, d.priority, Some(d), loopBack)), cfg)
  {
    GrantMatches(v, m, cfg, d.priority);
    var x := Item(Some(s), d.id, d.timestamp, loopBack, Truncate(d.bytes, cfg));
    LiveBelow(v, cfg, s);
    TruncatedItem(v.buffers, v.slots[s].bufferIdx, cfg, d.bytes, entry, x);
    if GrantFrom(v, d.priority) != None {
      DeliverRepresents(v, m, cfg, s, d.priority, entry, x);
    }
  }

  lemma PoolSize(v: View, m: Rx, cfg: Config)
    requires Represents(v, m, cfg)
    ensures |v.fifos| == LEVELS && |m.queues| == LEVELS && |v.buffers| == BufferCount(cfg)
    ensures |v.free| + Count(v.fifos) == cfg.transferSlots
    ensures forall i :: 0 <= i < |v.buffers| ==> |v.buffers[i]| == cfg.capacity
  {
  }

  /** Nothing but the granted position refers to the granted index. */
  lemma GrantedElsewhere(v: View, cfg: Config, p: Priority)
    requires Owned(v, cfg) && GrantFrom(v, p).Some?
    ensures v.readoutIdx != Granted(v, p)
    ensures forall s :: s in v.slots ==> v.slots[s].bufferIdx != Granted(v, p)
  {
    var (c, k) := GrantFrom(v, p).value;
    var fam, live := Family(v, cfg), Live(v.slots);
    GrantPosition(v, cfg, p);
    assert InQueue(fam, READOUT, 0) && fam[READOUT][0] == v.readoutIdx;
    forall s | s in v.slots ensures v.slots[s].bufferIdx != Granted(v, p) {
      assert !Queued(fam, live[s]);
    }
  }

  /** An anonymous transfer is written to the granted buffer and queued there. */
  lemma AnonymousRepresents(v: View, m: Rx, cfg: Config, p: Priority, entry: TransferEntry, x: Item, buffer: seq<byte>)
    requires Represents(v, m, cfg) && GrantFrom(v, p).Some? && entry.bufferIdx == Granted(v, p) < |v.buffers|
    requires |buffer| == cfg.capacity && RepresentsItem(entry, x, v.buffers[Granted(v, p) := buffer])
    ensures Represents(WithEntry(v, p, entry).(buffers := v.buffers[Granted(v, p) := buffer]),
                       m.(queues := Offer(m.queues, p, x, cfg.transferSlots)), cfg)
  {
    var buffers := v.buffers[Granted(v, p) := buffer];
    AnonymousOwned(v, cfg, p, entry);
    GrantedElsewhere(v, cfg, p);
    EntryRepresents(v, m, cfg, p, entry, x, buffers);
    SessionsElsewhere(v.slots, m.sessions, v.buffers, Granted(v, p), buffer);
    assert Family(WithEntry(v, p, entry).(buffers := buffers), cfg) == Family(WithEntry(v, p, entry), cfg);
  }

  lemma SessionsElsewhere(slots: map<nat, Slot>, sessions: map<nat, Session>, buffers: seq<seq<byte>>, idx: nat,
                          buffer: seq<byte>)
    requires RepresentsSessions(slots, sessions, buffers) && idx < |buffers|
    requires forall s :: s in slots ==> slots[s].bufferIdx != idx
    ensures RepresentsSessions(slots, sessions, buffers[idx := buffer])
  {
  }

  /** An anonymous transfer asked for a transfer slot and wrote its payload there. */
  ghost predicate QueuedAnonymous(v: View, w: View, p: Priority, entry: TransferEntry)
    requires |v.fifos| == LEVELS
  {
    if GrantFrom(v, p) == None then w == v
    else
      var idx := Granted(v, p);
      && idx < |v.buffers| == |w.buffers|
      && w == WithEntry(v, p, entry).(buffers := v.buffers[idx := w.buffers[idx]])
  }

  lemma GrantedBelow(v: View, m: Rx, cfg: Config, p: Priority)
    requires Represents(v, m, cfg)
    ensures |v.fifos| == LEVELS
    ensures GrantFrom(v, p).Some? ==> Granted(v, p) < |v.buffers|
  {
    if GrantFrom(v, p).Some? {
      GrantPosition(v, cfg, p);
    }
  }

  lemma QueuedAnonymousRepresents(v: View, w: View, m: Rx, cfg: Config, p: Priority, entry: TransferEntry,
                                  payload: seq<byte>, x: Item)
    requires Represents(v, m, cfg) && |v.fifos| == LEVELS && QueuedAnonymous(v, w, p, entry)
    requires GrantFrom(v, p).Some? ==>
      var idx := Granted(v, p);
      && idx < |w.buffers| && |w.buffers[idx]| == cfg.capacity && Stores(w.buffers[idx], payload)
      && entry.bufferIdx == idx && entry.bufferLength == Min(|payload|, cfg.capacity)
    requires x == Item(entry.source, entry.transferId, entry.timestamp, entry.loopBack, Truncate(payload, cfg))
    ensures |m.queues| == LEVELS
    ensures Represents(w, m.(queues := Offer(m.queues, p, x, cfg.transferSlots)), cfg)
  {
    GrantMatches(v, m, cfg, p);
    if GrantFrom(v, p).Some? {
      var idx := Granted(v, p);
      TruncatedItem(w.buffers, idx, cfg, payload, entry, x);
      AnonymousRepresents(v, m, cfg, p, entry, x, w.buffers[idx]);
    }
  }

  // ---------------------------------------------------------------- reading out

  /** The first transfer at `p` becomes the readout; the previous readout buffer is free. */
  function WithPopped(v: View, p: Priority): View
    requires |v.fifos| == LEVELS && v.fifos[p] != []
  {
    v.(fifos := v.fifos[p := v.fifos[p][1..]], free := v.free + [v.readoutIdx], readoutIdx := v.fifos[p][0].bufferIdx)
  }

  lemma PoppedFamily(v: View, cfg: Config, p: Priority)
    requires Owned(v, cfg) && v.fifos[p] != []
    ensures InQueue(Family(v, cfg), p, 0) && InQueue(MoveTo(Family(v, cfg), p, 0, READOUT), READOUT, 0)
    ensures Family(WithPopped(v, p), cfg) == MoveTo(MoveTo(Family(v, cfg), p, 0, READOUT), READOUT, 0, FREE)
  {
    var fam, w := Family(v, cfg), WithPopped(v, p);
    assert RemoveIndex(fam[p], 0) == fam[p][1..] == Indices(w.fifos[p]);
    var mid := MoveTo(fam, p, 0, READOUT);
    assert mid[READOUT] == [v.readoutIdx, w.readoutIdx];
    assert RemoveIndex(mid[READOUT], 0) == [w.readoutIdx];
    assert mid[FREE] == v.free;
  }

  lemma PoppedOwned(v: View, cfg: Config, p: Priority)
    requires Owned(v, cfg) && v.fifos[p] != []
    ensures Owned(WithPopped(v, p), cfg)
  {
    var fam, live, n := Family(v, cfg), Live(v.slots), BufferCount(cfg);
    PoppedFamily(v, cfg, p);
    MoveToKeeps(fam, live, n, p, 0, READOUT);
    MoveToKeeps(MoveTo(fam, p, 0, READOUT), live, n, READOUT, 0, FREE);
    CountUpdate(v.fifos, p, v.fifos[p][1..], LEVELS);
  }

  lemma PoppedRepresents(v: View, m: Rx, cfg: Config, p: Priority)
    requires Represents(v, m, cfg) && v.fifos[p] != []
    ensures |m.queues| == LEVELS && m.queues[p] != [] && RepresentsItem(v.fifos[p][0], m.queues[p][0], v.buffers)
    ensures Represents(WithPopped(v, p),
                       m.(queues := m.queues[p := m.queues[p][1..]], readout := m.queues[p][0].bytes), cfg)
  {
    PoppedOwned(v, cfg, p);
    assert Waits(v.fifos, p, 0);
    var fifos, queues := v.fifos[p := v.fifos[p][1..]], m.queues[p := m.queues[p][1..]];
    forall q, i | Waits(fifos, q, i) ensures RepresentsItem(fifos[q][i], queues[q][i], v.buffers) {
      assert Waits(v.fifos, q, if q == p then i + 1 else i);
    }
  }

  // ---------------------------------------------------------------- the initial buffer

  /** The `n` buffer indices from `base` on. */
  function Block(base: nat, n: nat): seq<u8>
    requires base + n <= 256
  {
    seq(n, i requires 0 <= i < n => base + i)
  }

  function InitialView(cfg: Config, buffers: seq<seq<byte>>): View
    requires BufferCount(cfg) <= 256
  {
    View(map[], [], 0, seq(LEVELS, _ => []), Block(cfg.sessionSlots, cfg.transferSlots),
         cfg.sessionSlots + cfg.transferSlots, buffers)
  }

  lemma InitialOwned(cfg: Config, buffers: seq<seq<byte>>)
    requires BufferCount(cfg) <= 256
    ensures Owned(InitialView(cfg, buffers), cfg)
  {
    var v := InitialView(cfg, buffers);
    var fam := Family(v, cfg);
    CountZero(v.fifos, LEVELS);
    CountZero(fam, LEVELS);
    assert CountUpTo(fam, LEVELS + 1) == cfg.transferSlots;
    assert CountUpTo(fam, LEVELS + 2) == cfg.transferSlots + cfg.sessionSlots;
    assert Count(fam) == BufferCount(cfg);
    forall c, i | InQueue(fam, c, i)
      ensures LEVELS <= c
      ensures fam[c][i] == if c == FREE then cfg.sessionSlots + i else if c == UNALLOCATED then i else v.readoutIdx
    {
    }
  }

  lemma InitialRepresents(cfg: Config, buffers: seq<seq<byte>>)
    requires BufferCount(cfg) <= 256 && Sized(buffers, cfg)
    ensures Represents(InitialView(cfg, buffers), EMPTY, cfg)
  {
    InitialOwned(cfg, buffers);
  }

  // ---------------------------------------------------------------- ownership is total

  function Elements(q: seq<nat>): set<nat> {
    if q == [] then {} else {q[0]} + Elements(q[1..])
  }

  function AllElements(queues: seq<seq<nat>>, c: nat): set<nat>
    requires c <= |queues|
  {
    if c == 0 then {} else AllElements(queues, c - 1) + Elements(queues[c - 1])
  }

  function Below(n: nat): set<nat> {
    if n == 0 then {} else Below(n - 1) + {n - 1}
  }

  lemma {:induction false} ElementsAre(q: seq<nat>)
    ensures forall e :: e in Elements(q) <==> e in q
  {
    if q != [] {
      ElementsAre(q[1..]);
      assert q == [q[0]] + q[1..];
    }
  }

  lemma {:induction false} ElementsSize(q: seq<nat>)
    requires NoDuplicates(q)
    ensures |Elements(q)| == |q|
  {
    if q != [] {
      TailKeeps(q);
      ElementsSize(q[1..]);
      ElementsAre(q[1..]);
    }
  }

  lemma {:induction false} BelowIs(n: nat)
    ensures |Below(n)| == n
    ensures forall e :: e in Below(n) <==> 0 <= e < n
  {
    if n > 0 {
      BelowIs(n - 1);
    }
  }

  lemma {:induction false} AllElementsAre(queues: seq<seq<nat>>, c: nat, e: nat)
    requires c <= |queues|
    ensures e in AllElements(queues, c) <==> exists d, i :: 0 <= d < c && InQueue(queues, d, i) && queues[d][i] == e
  {
    if c > 0 {
      AllElementsAre(queues, c - 1, e);
      ElementsAre(queues[c - 1]);
      if e in queues[c - 1] {
        var i :| 0 <= i < |queues[c - 1]| && queues[c - 1][i] == e;
        assert InQueue(queues, c - 1, i);
      }
    }
  }

  lemma {:induction false} AllElementsSize(queues: seq<seq<nat>>, n: nat, c: nat)
    requires Distinct(queues, n) && c <= |queues|
    ensures |AllElements(queues, c)| == CountUpTo(queues, c)
  {
    if c > 0 {
      AllElementsSize(queues, n, c - 1);
      LastQueueIsNew(queues, n, c);
      ElementsSize(queues[c - 1]);
    }
  }

  lemma LastQueueIsNew(queues: seq<seq<nat>>, n: nat, c: nat)
    requires Distinct(queues, n) && 0 < c <= |queues|
    ensures NoDuplicates(queues[c - 1])
    ensures AllElements(queues, c - 1) !! Elements(queues[c - 1])
  {
    var q := queues[c - 1];
    forall i, j | 0 <= i < j < |q| ensures q[i] != q[j] {
      assert InQueue(queues, c - 1, i) && InQueue(queues, c - 1, j);
    }
    ElementsAre(q);
    forall j | 0 <= j < |q| ensures q[j] !in AllElements(queues, c - 1) {
      assert InQueue(queues, c - 1, j);
      AllElementsAre(queues, c - 1, q[j]);
    }
  }

  lemma {:induction false} ValuesSize(live: map<nat, nat>)
    requires forall s, t :: s in live && t in live && live[s] == live[t] ==> s == t
    ensures |live.Values| == |live|
    decreases |live|
  {
    if live == map[] {
      assert live.Values == {};
    } else {
      var k :| k in live;
      var less := live - {k};
      assert less.Keys == live.Keys - {k};
      ValuesSize(less);
      forall v | v in live.Values ensures v == live[k] || v in less.Values {
        var s :| s in live && live[s] == v;
        assert s == k || (s in less && less[s] == v);
      }
      forall v | v in less.Values ensures v in live.Values && v != live[k] {
        var s :| s in less && less[s] == v;
        assert s in live && live[s] == v;
      }
      assert live.Values == less.Values + {live[k]};
    }
  }

  /** Ownership is total: every index is queued or belongs to a session. */
  lemma EveryIndexIsOwned(queues: seq<seq<nat>>, live: map<nat, nat>, n: nat, x: nat)
    requires Partition(queues, live, n) && x < n
    ensures Queued(queues, x) || x in live.Values
  {
    var a, b := AllElements(queues, |queues|), live.Values;
    AllElementsSize(queues, n, |queues|);
    ValuesSize(live);
    BelowIs(n);
    forall e | e in a ensures e < n && e !in b {
      AllElementsAre(queues, |queues|, e);
    }
    forall e | e in b ensures e < n {
      var s :| s in live && live[s] == e;
    }
    assert a !! b && |a + b| == n;
    SubsetSize(a + b, Below(n));
    AllElementsAre(queues, |queues|, x);
  }

  lemma SubsetSize(a: set<nat>, b: set<nat>)
    requires a <= b && |a| == |b|
    ensures a == b
  {
    assert b == a + (b - a);
    assert |b| == |a| + |b - a|;
  }
}
