/** The last-value receive buffer: the newest transfer, in buffers that change hands by swapping indices. */
module Watches {
  import opened Wrappers
  import opened Time
  import opened Format
  import opened Priorities
  import opened Reassembly
  import opened ClassQueues
  import opened PriorityQueues
  import opened RxModel
  import opened RxView

  datatype Entry = Entry(priority: Priority, source: Option<NodeId>, id: TransferId, timestamp: Instant, loopBack: bool,
                         length: nat)

  /** Sessions with their buffer indices, and `held`: what each buffer was filled with from its start. */
  datatype Watch = Watch(
    sessions: map<nat, Session>,
    slots: map<nat, nat>,
    recency: seq<nat>,
    base: nat,
    transfer: Option<Entry>,
    minTimestamp: Instant,
    transferIdx: nat,
    readoutIdx: nat,
    held: seq<seq<byte>>)

  function NewWatch(cfg: Config): Watch {
    Watch(map[], map[], [], 0, None, 0, cfg.sessionSlots, cfg.sessionSlots + 1, seq(cfg.sessionSlots + 2, _ => []))
  }

  // ---------------------------------------------------------------- who owns which buffer

  const UNUSED: nat := 0
  const LATEST: nat := 1
  const READ: nat := 2

  /** The indices sessions do not own: never allocated, the latest transfer, the one being read. */
  function Outside(w: Watch, cfg: Config): (r: seq<seq<nat>>)
    requires w.base <= cfg.sessionSlots
    ensures |r| == 3
  {
    [Range(w.base, cfg.sessionSlots), [w.transferIdx], [w.readoutIdx]]
  }

  ghost predicate Owned(w: Watch, cfg: Config) {
    && w.base <= cfg.sessionSlots && |w.slots| == w.base
    && Partition(Outside(w, cfg), w.slots, cfg.sessionSlots + 2)
  }

  /** Each session's buffer holds what it collected, the transfer buffer at least the transfer's bytes. */
  ghost predicate Holding(w: Watch, cfg: Config) {
    && |w.held| == cfg.sessionSlots + 2
    && w.slots.Keys == w.sessions.Keys
    && (forall s :: s in w.slots ==> w.slots[s] < |w.held| && w.held[w.slots[s]] == w.sessions[s].content)
    && w.transferIdx < |w.held| && w.readoutIdx < |w.held|
    && (w.transfer.Some? ==>
          w.transfer.value.length <= |w.held[w.transferIdx]| && w.transfer.value.timestamp == w.minTimestamp)
  }

  ghost predicate Valid(w: Watch, cfg: Config) {
    && Owned(w, cfg) && Holding(w, cfg)
    && Tracks(w.sessions, w.recency)
  }

  /** The indices outside the sessions are pairwise different and different from those of the sessions. */
  lemma OutsideApart(w: Watch, cfg: Config)
    requires Owned(w, cfg)
    ensures w.transferIdx != w.readoutIdx
    ensures forall s :: s in w.slots ==> w.slots[s] != w.transferIdx && w.slots[s] != w.readoutIdx
    ensures forall s, t :: s in w.slots && t in w.slots && s != t ==> w.slots[s] != w.slots[t]
  {
    var out := Outside(w, cfg);
    assert InQueue(out, LATEST, 0) && InQueue(out, READ, 0);
    assert out[LATEST][0] == w.transferIdx && out[READ][0] == w.readoutIdx;
  }

  // ---------------------------------------------------------------- the operations

  /** A new source takes an unused buffer, or that of the least recent session if it has timed out. */
  function Start(w: Watch, cfg: Config, source: NodeId, now: Instant): Watch
    requires w.slots.Keys == w.sessions.Keys
  {
    if w.base < cfg.sessionSlots then
      w.(sessions := w.sessions[source := FRESH], slots := w.slots[source := w.base], recency := [source] + w.recency,
         base := w.base + 1, held := if w.base < |w.held| then w.held[w.base := []] else w.held)
    else if w.recency != [] && w.recency[0] in w.sessions && Expired(w.sessions[w.recency[0]], cfg.timeout, now) then
      var (oldest, idx) := (w.recency[0], w.slots[w.recency[0]]);
      w.(sessions := (w.sessions - {oldest})[source := FRESH], slots := (w.slots - {oldest})[source := idx],
         recency := [source] + w.recency[1..], held := if idx < |w.held| then w.held[idx := []] else w.held)
    else w
  }

  function Prepare(w: Watch, cfg: Config, source: NodeId, data: seq<byte>, now: Instant): Watch
    requires w.slots.Keys == w.sessions.Keys
  {
    if source !in w.sessions && IsStart(data) then Start(w, cfg, source, now) else w
  }

  /** The session's receiver takes the frame; its buffer holds what was collected or delivered. */
  function Collected(w: Watch, source: NodeId, s: Session, d: Option<Delivery>): Watch
    requires source in w.slots && w.slots[source] < |w.held|
  {
    w.(sessions := w.sessions[source := s],
       held := w.held[w.slots[source] := if d.Some? then d.value.bytes else s.content])
  }

  /** A delivery not older than the newest so far replaces it: the two buffers change places. */
  function Accept(w: Watch, cfg: Config, source: NodeId, d: Delivery, loopBack: bool): Watch
    requires source in w.slots && w.transferIdx < |w.held|
  {
    if w.minTimestamp <= d.timestamp then
      w.(minTimestamp := d.timestamp,
         transfer := Some(Entry(d.priority, Some(source), d.id, d.timestamp, loopBack, Min(|d.bytes|, cfg.capacity))),
         slots := w.slots[source := w.transferIdx], transferIdx := w.slots[source],
         held := w.held[w.transferIdx := []])
    else w.(held := if w.slots[source] < |w.held| then w.held[w.slots[source] := []] else w.held)
  }

  /** The receiver takes the frame, and what it completes is offered to the transfer slot. */
  function Settle(w: Watch, cfg: Config, source: NodeId, a: Arrival, loopBack: bool): (r: Watch)
    requires source in w.sessions && source in w.slots && w.slots[source] < |w.held| && w.transferIdx < |w.held|
    ensures source in r.sessions
  {
    var (s, d) := Receive(w.sessions[source], cfg.timeout, a);
    var c := Collected(w, source, s, d);
    if d.Some? then Accept(c, cfg, source, d.value, loopBack) else c
  }

  function Feed(w: Watch, cfg: Config, source: NodeId, a: Arrival, loopBack: bool): Watch
    requires source in w.sessions && source in w.slots && w.slots[source] < |w.held| && w.transferIdx < |w.held|
  {
    var r := Settle(w, cfg, source, a, loopBack);
    r.(recency := Touch(r.recency, source, r.sessions[source], a.timestamp))
  }

  function PushRegular(w: Watch, cfg: Config, source: NodeId, a: Arrival, loopBack: bool): Watch
    requires Valid(w, cfg)
  {
    var ready := Prepare(w, cfg, source, a.data, a.timestamp);
    if source in ready.sessions && source in ready.slots
       && ready.slots[source] < |ready.held| && ready.transferIdx < |ready.held| then
      Feed(ready, cfg, source, a, loopBack)
    else ready
  }

  function PushAnonymous(w: Watch, cfg: Config, a: Arrival, loopBack: bool): Watch
    requires Valid(w, cfg)
  {
    if IsAnonymousTransfer(a.data) && w.minTimestamp <= a.timestamp then
      var payload := Payload(a.data);
      w.(minTimestamp := a.timestamp,
         transfer := Some(Entry(a.priority, None, TailOf(a.data).transferId, a.timestamp, loopBack,
                                Min(|payload|, cfg.capacity))),
         held := w.held[w.transferIdx := payload])
    else w
  }

  function PushFrame(w: Watch, cfg: Config, f: RxFrame): Watch
    requires Valid(w, cfg)
  {
    if f.spec != cfg.spec then w
    else
      match f.source
      case Some(node) => PushRegular(w, cfg, node, Arrival(f.priority, f.data, f.timestamp), f.loopBack)
      case None => PushAnonymous(w, cfg, Arrival(f.priority, f.data, f.timestamp), f.loopBack)
  }

  /** The transfer as its reader sees it. */
  function Latest(w: Watch): Option<(Priority, Item)>
    requires w.transfer.Some? ==> w.transferIdx < |w.held| && w.transfer.value.length <= |w.held[w.transferIdx]|
  {
    match w.transfer
    case None => None
    case Some(e) => Some((e.priority, Item(e.source, e.id, e.timestamp, e.loopBack, w.held[w.transferIdx][..e.length])))
  }

  /** The latest transfer is read out: its buffer and the previous readout buffer change places. */
  function TryPop(w: Watch, cfg: Config, mask: set<Priority>): (Watch, Option<(Priority, Item)>)
    requires Valid(w, cfg)
  {
    if w.transfer.None? || w.transfer.value.priority !in mask then (w, None)
    else (w.(transfer := None, transferIdx := w.readoutIdx, readoutIdx := w.transferIdx), Latest(w))
  }

  /** A read gets the waiting transfer exactly when its priority is in the mask; otherwise nothing changes, and the
      transfer goes on waiting. */
  lemma ReadsWaiting(w: Watch, cfg: Config, mask: set<Priority>)
    requires Valid(w, cfg)
    ensures var (r, out) := TryPop(w, cfg, mask);
      if w.transfer.Some? && w.transfer.value.priority in mask then
        && r.transfer == None && r.minTimestamp == w.minTimestamp && r.held == w.held
        && r.sessions == w.sessions && r.slots == w.slots && r.recency == w.recency
        && r.readoutIdx == w.transferIdx && r.transferIdx == w.readoutIdx
        && out == Some((w.transfer.value.priority,
                        Item(w.transfer.value.source, w.transfer.value.id, w.transfer.value.timestamp,
                             w.transfer.value.loopBack, w.held[w.transferIdx][..w.transfer.value.length])))
      else r == w && out == None
  {
  }

  // ---------------------------------------------------------------- every step keeps the buffers apart

  lemma StartOwned(w: Watch, cfg: Config, source: NodeId, now: Instant)
    requires Owned(w, cfg) && w.slots.Keys == w.sessions.Keys && source !in w.sessions
    ensures Owned(Start(w, cfg, source, now), cfg)
  {
    var (r, out, n) := (Start(w, cfg, source, now), Outside(w, cfg), cfg.sessionSlots + 2);
    if w.base < cfg.sessionSlots {
      var range := out[UNUSED];
      assert range[0] == w.base && range[1..] == Range(w.base + 1, cfg.sessionSlots) && InQueue(out, UNUSED, 0);
      TakeKeeps(out, w.slots, n, UNUSED, source);
      NewKeySize(w.slots, source, w.base);
      assert Outside(r, cfg) == out[UNUSED := range[1..]];
    } else if r != w {
      var oldest := w.recency[0];
      RenameKeeps(out, w.slots, n, oldest, source);
      assert Outside(r, cfg) == out;
      ReusedSize(w.slots, oldest, source);
    }
  }

  lemma ReusedSize(slots: map<nat, nat>, oldest: nat, source: nat)
    requires oldest in slots && source !in slots
    ensures |(slots - {oldest})[source := slots[oldest]]| == |slots|
  {
    var less := slots - {oldest};
    assert less.Keys == slots.Keys - {oldest};
    assert less[source := slots[oldest]].Keys == less.Keys + {source};
  }

  lemma StartHolding(w: Watch, cfg: Config, source: NodeId, now: Instant)
    requires Valid(w, cfg) && source !in w.sessions
    ensures Holding(Start(w, cfg, source, now), cfg)
  {
    OutsideApart(w, cfg);
    if w.base < cfg.sessionSlots {
      UnusedApart(w, cfg);
      StartHeld(w.slots, w.sessions, w.held, source, w.base);
    } else if Start(w, cfg, source, now) != w {
      ReuseHeld(w.slots, w.sessions, w.held, w.recency[0], source);
    }
  }

  /** Sessions hold what they collected, in buffers of their own. */
  ghost predicate Hold(slots: map<nat, nat>, sessions: map<nat, Session>, held: seq<seq<byte>>) {
    && slots.Keys == sessions.Keys
    && forall s :: s in slots ==> slots[s] < |held| && held[slots[s]] == sessions[s].content
  }

  lemma StartHeld(slots: map<nat, nat>, sessions: map<nat, Session>, held: seq<seq<byte>>, source: nat, idx: nat)
    requires Hold(slots, sessions, held) && source !in slots && idx < |held|
    requires forall s :: s in slots ==> slots[s] != idx
    ensures Hold(slots[source := idx], sessions[source := FRESH], held[idx := []])
  {
    assert slots[source := idx].Keys == sessions[source := FRESH].Keys;
  }

  lemma ReuseHeld(slots: map<nat, nat>, sessions: map<nat, Session>, held: seq<seq<byte>>, oldest: nat, source: nat)
    requires Hold(slots, sessions, held) && source !in slots && oldest in slots
    requires forall s, t :: s in slots && t in slots && s != t ==> slots[s] != slots[t]
    ensures Hold((slots - {oldest})[source := slots[oldest]], (sessions - {oldest})[source := FRESH],
                 held[slots[oldest] := []])
  {
    StartHeld(slots - {oldest}, sessions - {oldest}, held, source, slots[oldest]);
  }

  lemma UnusedApart(w: Watch, cfg: Config)
    requires Owned(w, cfg) && w.base < cfg.sessionSlots
    ensures w.base != w.transferIdx && forall s :: s in w.slots ==> w.slots[s] != w.base
  {
    var out := Outside(w, cfg);
    assert InQueue(out, UNUSED, 0) && InQueue(out, LATEST, 0) && out[UNUSED][0] == w.base
      && out[LATEST][0] == w.transferIdx;
  }

  lemma StartTracks(w: Watch, cfg: Config, source: NodeId, now: Instant)
    requires Valid(w, cfg) && source !in w.sessions
    ensures var r := Start(w, cfg, source, now); Tracks(r.sessions, r.recency)
  {
    if w.base < cfg.sessionSlots {
      TracksNew(w.sessions, w.recency, source);
    } else if Start(w, cfg, source, now) != w {
      TracksLess(w.sessions, w.recency);
      TracksNew(w.sessions - {w.recency[0]}, w.recency[1..], source);
    }
  }

  lemma StartValid(w: Watch, cfg: Config, source: NodeId, now: Instant)
    requires Valid(w, cfg) && source !in w.sessions
    ensures Valid(Start(w, cfg, source, now), cfg)
  {
    StartOwned(w, cfg, source, now);
    StartHolding(w, cfg, source, now);
    StartTracks(w, cfg, source, now);
  }

  /** The accepted transfer's buffer goes to the transfer, the session gets the other. */
  lemma AcceptOwned(w: Watch, cfg: Config, source: NodeId, d: Delivery, loopBack: bool)
    requires Owned(w, cfg) && source in w.slots && w.transferIdx < |w.held|
    ensures Owned(Accept(w, cfg, source, d, loopBack), cfg)
  {
    var (r, out) := (Accept(w, cfg, source, d, loopBack), Outside(w, cfg));
    if w.minTimestamp <= d.timestamp {
      assert InQueue(out, LATEST, 0) && out[LATEST][0] == w.transferIdx;
      SwapKeeps(out, w.slots, cfg.sessionSlots + 2, LATEST, 0, source);
      var placed := Place(out, LATEST, 0, w.slots[source]);
      assert placed[LATEST] == [w.slots[source]];
      assert Outside(r, cfg) == placed;
      SameKeySize(w.slots, source, w.transferIdx);
    } else {
      assert Outside(r, cfg) == out;
    }
  }

  /** Only the buffer of `source` may hold more than its session: it holds `bytes`. */
  ghost predicate Filled(c: Watch, cfg: Config, source: NodeId, bytes: seq<byte>) {
    && |c.held| == cfg.sessionSlots + 2 && c.slots.Keys == c.sessions.Keys && source in c.slots
    && (forall t :: t in c.slots ==>
          c.slots[t] < |c.held| && (t != source ==> c.held[c.slots[t]] == c.sessions[t].content))
    && c.held[c.slots[source]] == bytes
    && c.transferIdx < |c.held| && c.readoutIdx < |c.held|
    && (c.transfer.Some? ==>
          c.transfer.value.length <= |c.held[c.transferIdx]| && c.transfer.value.timestamp == c.minTimestamp)
  }

  lemma CollectedHolding(w: Watch, cfg: Config, source: NodeId, s: Session, d: Option<Delivery>)
    requires Owned(w, cfg) && Holding(w, cfg) && source in w.slots
    ensures w.slots[source] < |w.held|
    ensures var c := Collected(w, source, s, d);
      Owned(c, cfg) && Filled(c, cfg, source, if d.Some? then d.value.bytes else s.content)
  {
    OutsideApart(w, cfg);
    var c := Collected(w, source, s, d);
    assert Outside(c, cfg) == Outside(w, cfg);
    assert c.sessions.Keys == w.sessions.Keys;
  }

  lemma DeliveryEmpties(m: Session, timeout: Duration, a: Arrival)
    ensures Receive(m, timeout, a).1.Some? ==> Receive(m, timeout, a).0.content == []
  {
  }

  lemma TouchKeeps(w: Watch, cfg: Config, recency: seq<nat>)
    requires Owned(w, cfg) && Holding(w, cfg) && Tracks(w.sessions, recency)
    ensures Valid(w.(recency := recency), cfg)
  {
    assert Outside(w.(recency := recency), cfg) == Outside(w, cfg);
  }

  lemma AcceptHolding(c: Watch, cfg: Config, source: NodeId, d: Delivery, loopBack: bool)
    requires Filled(c, cfg, source, d.bytes) && c.sessions[source].content == []
    requires forall s :: s in c.slots ==> c.slots[s] != c.transferIdx && c.slots[s] != c.readoutIdx
    requires forall s, t :: s in c.slots && t in c.slots && s != t ==> c.slots[s] != c.slots[t]
    ensures Holding(Accept(c, cfg, source, d, loopBack), cfg)
  {
    var r := Accept(c, cfg, source, d, loopBack);
    assert r.slots.Keys == c.slots.Keys;
  }

  lemma AcceptKeeps(c: Watch, cfg: Config, source: NodeId, d: Delivery, loopBack: bool)
    requires Owned(c, cfg) && Filled(c, cfg, source, d.bytes) && c.sessions[source].content == []
    ensures var r := Accept(c, cfg, source, d, loopBack);
      Owned(r, cfg) && Holding(r, cfg) && r.recency == c.recency && r.sessions == c.sessions
  {
    AcceptOwned(c, cfg, source, d, loopBack);
    OutsideApart(c, cfg);
    AcceptHolding(c, cfg, source, d, loopBack);
  }

  lemma FilledHolds(c: Watch, cfg: Config, source: NodeId)
    requires source in c.sessions && Filled(c, cfg, source, c.sessions[source].content)
    ensures Holding(c, cfg)
  {
  }

  lemma SettleKeeps(w: Watch, cfg: Config, source: NodeId, a: Arrival, loopBack: bool)
    requires Owned(w, cfg) && Holding(w, cfg) && source in w.sessions
    ensures w.slots[source] < |w.held|
    ensures var r := Settle(w, cfg, source, a, loopBack);
      && Owned(r, cfg) && Holding(r, cfg) && r.recency == w.recency
      && r.sessions == w.sessions[source := Receive(w.sessions[source], cfg.timeout, a).0]
  {
    var (s, d) := Receive(w.sessions[source], cfg.timeout, a);
    DeliveryEmpties(w.sessions[source], cfg.timeout, a);
    CollectedHolding(w, cfg, source, s, d);
    var c := Collected(w, source, s, d);
    if d.Some? {
      AcceptKeeps(c, cfg, source, d.value, loopBack);
    } else {
      FilledHolds(c, cfg, source);
    }
  }

  lemma FeedValid(w: Watch, cfg: Config, source: NodeId, a: Arrival, loopBack: bool)
    requires Valid(w, cfg) && source in w.sessions && |a.data| <= MAX_LENGTH
    ensures w.slots[source] < |w.held|
    ensures Valid(Feed(w, cfg, source, a, loopBack), cfg)
  {
    var s := Receive(w.sessions[source], cfg.timeout, a).0;
    ReceiveWellFormed(w.sessions[source], cfg.timeout, a);
    TracksUpdate(w.sessions, w.recency, source, s, a.timestamp);
    SettleKeeps(w, cfg, source, a, loopBack);
    TouchKeeps(Settle(w, cfg, source, a, loopBack), cfg, Touch(w.recency, source, s, a.timestamp));
  }

  lemma PushFrameValid(w: Watch, cfg: Config, f: RxFrame)
    requires Valid(w, cfg) && |f.data| <= MAX_LENGTH
    ensures Valid(PushFrame(w, cfg, f), cfg)
  {
    if f.spec == cfg.spec {
      match f.source
      case Some(node) => RegularValid(w, cfg, node, Arrival(f.priority, f.data, f.timestamp), f.loopBack);
      case None => AnonymousValid(w, cfg, Arrival(f.priority, f.data, f.timestamp), f.loopBack);
    }
  }

  lemma RegularValid(w: Watch, cfg: Config, source: NodeId, a: Arrival, loopBack: bool)
    requires Valid(w, cfg) && |a.data| <= MAX_LENGTH
    ensures Valid(PushRegular(w, cfg, source, a, loopBack), cfg)
  {
    var ready := Prepare(w, cfg, source, a.data, a.timestamp);
    if source !in w.sessions {
      StartValid(w, cfg, source, a.timestamp);
    }
    if source in ready.sessions {
      FeedValid(ready, cfg, source, a, loopBack);
    }
  }

  lemma AnonymousValid(w: Watch, cfg: Config, a: Arrival, loopBack: bool)
    requires Valid(w, cfg)
    ensures Valid(PushAnonymous(w, cfg, a, loopBack), cfg)
  {
    OutsideApart(w, cfg);
    var r := PushAnonymous(w, cfg, a, loopBack);
    assert Outside(r, cfg) == Outside(w, cfg);
  }

  lemma TryPopValid(w: Watch, cfg: Config, mask: set<Priority>)
    requires Valid(w, cfg)
    ensures Valid(TryPop(w, cfg, mask).0, cfg)
  {
    var (r, out, n) := (TryPop(w, cfg, mask).0, Outside(w, cfg), cfg.sessionSlots + 2);
    if TryPop(w, cfg, mask).1.Some? {
      SwappedPartition(out[UNUSED], w.slots, n, w.transferIdx, w.readoutIdx);
      assert Outside(r, cfg) == [out[UNUSED], [w.readoutIdx], [w.transferIdx]];
    }
  }

  lemma CountThree(q: seq<seq<nat>>)
    requires |q| == 3
    ensures Count(q) == |q[0]| + |q[1]| + |q[2]|
  {
    assert CountUpTo(q, 1) == |q[0]|;
    assert CountUpTo(q, 2) == CountUpTo(q, 1) + |q[1]|;
  }

  /** The transfer buffer and the readout buffer change places. */
  lemma SwappedPartition(unused: seq<nat>, live: map<nat, nat>, n: nat, a: nat, b: nat)
    requires Partition([unused, [a], [b]], live, n)
    ensures Partition([unused, [b], [a]], live, n)
  {
    var q: seq<seq<nat>> := [unused, [a], [b]];
    var r: seq<seq<nat>> := [unused, [b], [a]];
    forall c, i | InQueue(r, c, i)
      ensures var d := if c == LATEST then READ else if c == READ then LATEST else c;
        InQueue(q, d, i) && q[d][i] == r[c][i]
    {
    }
    forall c, i | InQueue(q, c, i)
      ensures var d := if c == LATEST then READ else if c == READ then LATEST else c;
        InQueue(r, d, i) && r[d][i] == q[c][i]
    {
    }
    CountThree(q);
    CountThree(r);
  }

  // ---------------------------------------------------------------- runs: the newest is kept

  datatype Event = Push(frame: RxFrame) | Pop(mask: set<Priority>)

  function Apply(w: Watch, cfg: Config, e: Event): Watch
    requires Valid(w, cfg)
  {
    match e
    case Push(f) => PushFrame(w, cfg, f)
    case Pop(mask) => TryPop(w, cfg, mask).0
  }

  /** The transfer a delivery makes the newest, unless it is older than the newest so far. */
  function Newer(w: Watch, p: Priority, x: Item): Option<(Priority, Item)> {
    if w.minTimestamp <= x.timestamp then Some((p, x)) else None
  }

  /** The transfer a frame completes and gets accepted. */
  function Accepted(w: Watch, cfg: Config, f: RxFrame): Option<(Priority, Item)>
    requires Valid(w, cfg)
  {
    if f.spec != cfg.spec then None
    else
      match f.source
      case None =>
        if IsAnonymousTransfer(f.data) then
          Newer(w, f.priority, Item(None, TailOf(f.data).transferId, f.timestamp, f.loopBack,
                                    Truncate(Payload(f.data), cfg)))
        else None
      case Some(node) =>
        var ready := Prepare(w, cfg, node, f.data, f.timestamp);
        if node in ready.sessions then Offered(ready, cfg, node, Arrival(f.priority, f.data, f.timestamp), f.loopBack)
        else None
  }

  lemma StartKeepsLatest(w: Watch, cfg: Config, source: NodeId, now: Instant)
    requires Valid(w, cfg) && source !in w.sessions
    ensures var r := Start(w, cfg, source, now);
      && r.transfer == w.transfer && r.minTimestamp == w.minTimestamp && r.transferIdx == w.transferIdx
      && |r.held| == |w.held| && r.held[r.transferIdx] == w.held[w.transferIdx]
  {
    OutsideApart(w, cfg);
    if w.base < cfg.sessionSlots {
      UnusedApart(w, cfg);
    }
  }

  /** Taking a delivery, in the fields of the latest transfer. */
  lemma AcceptLatest(c: Watch, cfg: Config, source: NodeId, d: Delivery, loopBack: bool)
    requires source in c.slots && c.slots[source] < |c.held| && c.transferIdx < |c.held|
    requires c.slots[source] != c.transferIdx
    requires c.held[c.slots[source]] == d.bytes
    requires c.transfer.Some? ==> c.transfer.value.length <= |c.held[c.transferIdx]|
    ensures var (r, x) := (Accept(c, cfg, source, d, loopBack),
                           Newer(c, d.priority, Item(Some(source), d.id, d.timestamp, loopBack,
                                                     Truncate(d.bytes, cfg))));
      && r.transferIdx < |r.held| && (r.transfer.Some? ==> r.transfer.value.length <= |r.held[r.transferIdx]|)
      && Latest(r) == (if x.Some? then x else Latest(c))
      && r.minTimestamp == (if x.Some? then d.timestamp else c.minTimestamp)
  {
  }

  /** What a frame of a known source makes the newest transfer. */
  function Offered(w: Watch, cfg: Config, source: NodeId, a: Arrival, loopBack: bool): Option<(Priority, Item)>
    requires source in w.sessions
  {
    match Receive(w.sessions[source], cfg.timeout, a).1
    case None => None
    case Some(d) => Newer(w, d.priority, Item(Some(source), d.id, d.timestamp, loopBack, Truncate(d.bytes, cfg)))
  }

  /** A settled frame changes the latest transfer only by a delivery that is accepted. */
  lemma SettleLatest(w: Watch, cfg: Config, source: NodeId, a: Arrival, loopBack: bool)
    requires source in w.sessions && source in w.slots && w.slots[source] < |w.held| && w.transferIdx < |w.held|
    requires w.slots[source] != w.transferIdx
    requires w.transfer.Some? ==> w.transfer.value.length <= |w.held[w.transferIdx]|
    ensures var (r, x) := (Settle(w, cfg, source, a, loopBack), Offered(w, cfg, source, a, loopBack));
      && r.transferIdx < |r.held| && (r.transfer.Some? ==> r.transfer.value.length <= |r.held[r.transferIdx]|)
      && Latest(r) == (if x.Some? then x else Latest(w))
      && r.minTimestamp == (if x.Some? then x.value.1.timestamp else w.minTimestamp)
  {
    var (s, d) := Receive(w.sessions[source], cfg.timeout, a);
    var c := Collected(w, source, s, d);
    assert Latest(c) == Latest(w);
    if d.Some? {
      AcceptLatest(c, cfg, source, d.value, loopBack);
    }
  }

  lemma FeedLatest(w: Watch, cfg: Config, source: NodeId, a: Arrival, loopBack: bool)
    requires Valid(w, cfg) && source in w.sessions && |a.data| <= MAX_LENGTH
    ensures w.slots[source] < |w.held| && Valid(Feed(w, cfg, source, a, loopBack), cfg)
    ensures var (r, x) := (Feed(w, cfg, source, a, loopBack), Offered(w, cfg, source, a, loopBack));
      Latest(r) == (if x.Some? then x else Latest(w))
      && r.minTimestamp == (if x.Some? then x.value.1.timestamp else w.minTimestamp)
  {
    FeedValid(w, cfg, source, a, loopBack);
    OutsideApart(w, cfg);
    SettleLatest(w, cfg, source, a, loopBack);
    assert Latest(Feed(w, cfg, source, a, loopBack)) == Latest(Settle(w, cfg, source, a, loopBack));
  }

  /** The latest transfer stays, with its bytes, until another is accepted. */
  lemma PushKeepsLatest(w: Watch, cfg: Config, f: RxFrame)
    requires Valid(w, cfg) && |f.data| <= MAX_LENGTH
    ensures Valid(PushFrame(w, cfg, f), cfg)
    ensures var x := Accepted(w, cfg, f);
      && Latest(PushFrame(w, cfg, f)) == (if x.Some? then x else Latest(w))
      && PushFrame(w, cfg, f).minTimestamp == (if x.Some? then x.value.1.timestamp else w.minTimestamp)
  {
    PushFrameValid(w, cfg, f);
    if f.spec == cfg.spec && f.source.Some? {
      RegularKeepsLatest(w, cfg, f, f.source.value);
    }
  }

  lemma RegularKeepsLatest(w: Watch, cfg: Config, f: RxFrame, node: NodeId)
    requires Valid(w, cfg) && |f.data| <= MAX_LENGTH && f.spec == cfg.spec && f.source == Some(node)
    ensures Valid(PushFrame(w, cfg, f), cfg)
    ensures var x := Accepted(w, cfg, f);
      && Latest(PushFrame(w, cfg, f)) == (if x.Some? then x else Latest(w))
      && PushFrame(w, cfg, f).minTimestamp == (if x.Some? then x.value.1.timestamp else w.minTimestamp)
  {
    PushFrameValid(w, cfg, f);
    var ready := Prepare(w, cfg, node, f.data, f.timestamp);
    if node !in w.sessions {
      StartValid(w, cfg, node, f.timestamp);
      StartKeepsLatest(w, cfg, node, f.timestamp);
    }
    if node in ready.sessions {
      FeedLatest(ready, cfg, node, Arrival(f.priority, f.data, f.timestamp), f.loopBack);
    }
  }

  /** Transfers accepted and transfers read, in order. */
  datatype History = History(accepted: seq<(Priority, Item)>, popped: seq<(Priority, Item)>)

  function Note(w: Watch, cfg: Config, e: Event, h: History): History
    requires Valid(w, cfg)
  {
    match e
    case Push(f) =>
      var x := Accepted(w, cfg, f);
      if x.Some? then h.(accepted := h.accepted + [x.value]) else h
    case Pop(mask) =>
      var x := TryPop(w, cfg, mask).1;
      if x.Some? then h.(popped := h.popped + [x.value]) else h
  }

  ghost predicate Nondecreasing(s: seq<(Priority, Item)>) {
    forall i, j :: 0 <= i < j < |s| ==> s[i].1.timestamp <= s[j].1.timestamp
  }

  ghost predicate NoneAfter(s: seq<(Priority, Item)>, t: Instant) {
    forall i :: 0 <= i < |s| ==> s[i].1.timestamp <= t
  }

  /** Accepted and read transfers never go back in time, the minimum timestamp is that of the last accepted one,
      the waiting transfer is that one, and every transfer read was accepted. */
  ghost predicate Kept(w: Watch, cfg: Config, h: History) {
    && Valid(w, cfg)
    && Nondecreasing(h.accepted) && Nondecreasing(h.popped)
    && NoneAfter(h.accepted, w.minTimestamp) && NoneAfter(h.popped, w.minTimestamp)
    && (if h.accepted == [] then w.minTimestamp == 0 && w.transfer.None?
        else w.minTimestamp == h.accepted[|h.accepted| - 1].1.timestamp)
    && (w.transfer.Some? ==> h.accepted != [] && Latest(w) == Some(h.accepted[|h.accepted| - 1]))
    && (forall x :: x in h.popped ==> x in h.accepted)
  }

  lemma PushKept(w: Watch, cfg: Config, f: RxFrame, h: History)
    requires Kept(w, cfg, h) && |f.data| <= MAX_LENGTH
    ensures Kept(PushFrame(w, cfg, f), cfg, Note(w, cfg, Push(f), h))
  {
    PushKeepsLatest(w, cfg, f);
    AcceptedIsNewer(w, cfg, f);
    AcceptedKept(w, PushFrame(w, cfg, f), cfg, Accepted(w, cfg, f), h);
  }

  lemma AcceptedIsNewer(w: Watch, cfg: Config, f: RxFrame)
    requires Valid(w, cfg)
    ensures Accepted(w, cfg, f).Some? ==> w.minTimestamp <= Accepted(w, cfg, f).value.1.timestamp
  {
  }

  lemma AcceptedKept(w: Watch, r: Watch, cfg: Config, x: Option<(Priority, Item)>, h: History)
    requires Kept(w, cfg, h) && Valid(r, cfg)
    requires Latest(r) == (if x.Some? then x else Latest(w))
    requires r.minTimestamp == (if x.Some? then x.value.1.timestamp else w.minTimestamp)
    requires x.Some? ==> w.minTimestamp <= x.value.1.timestamp
    ensures Kept(r, cfg, if x.Some? then h.(accepted := h.accepted + [x.value]) else h)
  {
    assert r.transfer.Some? <==> Latest(r).Some?;
  }

  lemma PopKept(w: Watch, cfg: Config, mask: set<Priority>, h: History)
    requires Kept(w, cfg, h)
    ensures Kept(TryPop(w, cfg, mask).0, cfg, Note(w, cfg, Pop(mask), h))
  {
    TryPopValid(w, cfg, mask);
    assert w.transfer.Some? ==> h.accepted[|h.accepted| - 1] in h.accepted;
  }

  lemma StepKept(w: Watch, cfg: Config, e: Event, h: History)
    requires Kept(w, cfg, h) && (e.Push? ==> |e.frame.data| <= MAX_LENGTH)
    ensures Kept(Apply(w, cfg, e), cfg, Note(w, cfg, e, h))
  {
    match e
    case Push(f) => PushKept(w, cfg, f, h);
    case Pop(mask) => PopKept(w, cfg, mask, h);
  }

  /** A new watch has nothing to keep; its buffers are all owned. */
  lemma NewIsKept(cfg: Config)
    ensures Kept(NewWatch(cfg), cfg, History([], []))
  {
    var w := NewWatch(cfg);
    var out := Outside(w, cfg);
    CountThree(out);
    forall c, i | InQueue(out, c, i) ensures out[c][i] == if c == UNUSED then i else cfg.sessionSlots + c - 1 {
    }
  }

  // ---------------------------------------------------------------- whole runs

  lemma StepValid(w: Watch, cfg: Config, e: Event)
    requires Valid(w, cfg) && (e.Push? ==> |e.frame.data| <= MAX_LENGTH)
    ensures Valid(Apply(w, cfg, e), cfg)
  {
    match e
    case Push(f) => PushFrameValid(w, cfg, f);
    case Pop(mask) => TryPopValid(w, cfg, mask);
  }

  ghost predicate ShortFrames(events: seq<Event>) {
    forall i :: 0 <= i < |events| && events[i].Push? ==> |events[i].frame.data| <= MAX_LENGTH
  }

  ghost function RunTo(w: Watch, cfg: Config, events: seq<Event>, h: History): (Watch, History)
    requires Valid(w, cfg) && ShortFrames(events)
    decreases |events|
  {
    if events == [] then (w, h)
    else
      StepValid(w, cfg, events[0]);
      RunTo(Apply(w, cfg, events[0]), cfg, events[1..], Note(w, cfg, events[0], h))
  }

  lemma {:induction false} RunKept(w: Watch, cfg: Config, events: seq<Event>, h: History)
    requires Kept(w, cfg, h) && ShortFrames(events)
    ensures var (r, g) := RunTo(w, cfg, events, h); Kept(r, cfg, g)
    decreases |events|
  {
    if events != [] {
      StepKept(w, cfg, events[0], h);
      RunKept(Apply(w, cfg, events[0]), cfg, events[1..], Note(w, cfg, events[0], h));
    }
  }

  /** The watch keeps the newest: over every run of frames and reads of a new watch. */
  lemma NewestIsKept(cfg: Config, events: seq<Event>)
    requires ShortFrames(events)
    ensures Valid(NewWatch(cfg), cfg)
    ensures var (r, g) := RunTo(NewWatch(cfg), cfg, events, History([], [])); Kept(r, cfg, g)
  {
    NewIsKept(cfg);
    RunKept(NewWatch(cfg), cfg, events, History([], []));
  }
}
