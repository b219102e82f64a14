/** The receive buffer as its user sees it: one reassembler per source, eight FIFOs, no buffer indices. */
module RxModel {
  import opened Wrappers
  import opened Time
  import opened Format
  import opened Priorities
  import opened Reassembly
  import opened ClassQueues
  import opened PriorityQueues

  type NodeId = n: nat | n <= MAX_NODE

  const MAX_NODE: nat := 127

  datatype Item = Item(source: Option<NodeId>, id: TransferId, timestamp: Instant, loopBack: bool, bytes: seq<byte>)

  datatype RxFrame = RxFrame(spec: nat, source: Option<NodeId>, priority: Priority, data: seq<byte>,
                             timestamp: Instant, loopBack: bool)

  /** Session slots, transfer slots, bytes per buffer, transfer-id timeout, accepted data specifier. */
  datatype Config = Config(sessionSlots: nat, transferSlots: nat, capacity: nat, timeout: Duration, spec: nat)

  datatype Rx = Rx(sessions: map<nat, Session>, recency: seq<nat>, queues: seq<seq<Item>>, readout: seq<byte>)

  ghost predicate ValidConfig(cfg: Config) {
    cfg.sessionSlots <= MAX_NODE + 1 && 1 <= cfg.transferSlots <= 127
  }

  const EMPTY: Rx := Rx(map[], [], [[], [], [], [], [], [], [], []], [])

  ghost predicate NoDuplicates(s: seq<nat>) {
    forall i, j :: 0 <= i < j < |s| ==> s[i] != s[j]
  }

  /** The recency queue holds every source with a session once. */
  ghost predicate Tracks(sessions: map<nat, Session>, recency: seq<nat>) {
    && NoDuplicates(recency)
    && (forall s :: s in sessions <==> s in recency)
    && (forall s :: s in sessions ==> s <= MAX_NODE && WellFormed(sessions[s]))
  }

  ghost predicate Sane(m: Rx, cfg: Config) {
    && |m.queues| == LEVELS && Count(m.queues) <= cfg.transferSlots
    && |m.sessions| <= cfg.sessionSlots
    && Tracks(m.sessions, m.recency)
  }

  // ---------------------------------------------------------------- transfer slots

  function NonEmpty<T>(queues: seq<seq<T>>): (r: set<Priority>)
    requires |queues| == LEVELS
    ensures forall p: Priority :: p in r <==> queues[p] != []
  {
    set p: Priority | queues[p] != []
  }

  /** The least urgent priority with something waiting. */
  function Worst<T>(queues: seq<seq<T>>): (r: Option<Priority>)
    requires |queues| == LEVELS
    ensures match r
      case None => forall p: Priority :: queues[p] == []
      case Some(w) => queues[w] != [] && forall p: Priority :: w < p ==> queues[p] == []
  {
    Last(NonEmpty(queues))
  }

  predicate Admits<T>(queues: seq<seq<T>>, p: Priority, slots: nat)
    requires |queues| == LEVELS
  {
    Count(queues) < slots || (Worst(queues).Some? && p <= Worst(queues).value)
  }

  /** When all slots are taken the oldest of the least urgent makes room. */
  function MakeRoom<T>(queues: seq<seq<T>>, slots: nat): (r: seq<seq<T>>)
    requires |queues| == LEVELS
    ensures |r| == LEVELS
  {
    if Count(queues) < slots || Worst(queues) == None then queues
    else
      var w := Worst(queues).value;
      queues[w := queues[w][1..]]
  }

  function Offer<T>(queues: seq<seq<T>>, p: Priority, x: T, slots: nat): (r: seq<seq<T>>)
    requires |queues| == LEVELS
    ensures |r| == LEVELS
  {
    if Admits(queues, p, slots) then
      var room := MakeRoom(queues, slots);
      room[p := room[p] + [x]]
    else queues
  }

  lemma OfferCount<T>(queues: seq<seq<T>>, p: Priority, x: T, slots: nat)
    requires |queues| == LEVELS && Count(queues) <= slots
    ensures Count(Offer(queues, p, x, slots)) == if Count(queues) < slots then Count(queues) + 1 else Count(queues)
  {
    if Admits(queues, p, slots) {
      var room := MakeRoom(queues, slots);
      CountUpdate(room, p, room[p] + [x], LEVELS);
      if Count(queues) == slots {
        var w := Worst(queues).value;
        CountUpdate(queues, w, queues[w][1..], LEVELS);
      }
    }
  }

  // ---------------------------------------------------------------- session slots

  predicate Expired(s: Session, timeout: Duration, now: Instant) {
    match LastTransferTimestamp(s)
    case None => true
    case Some(t) => SaturatingAdd(t, timeout) < now
  }

  /** A new source takes a free slot, or the slot of the least recent session if that has timed out. */
  function StartSession(m: Rx, cfg: Config, source: NodeId, now: Instant): Rx {
    if |m.sessions| < cfg.sessionSlots then
      m.(sessions := m.sessions[source := FRESH], recency := [source] + m.recency)
    else if m.recency != [] && m.recency[0] in m.sessions && Expired(m.sessions[m.recency[0]], cfg.timeout, now) then
      m.(sessions := (m.sessions - {m.recency[0]})[source := FRESH], recency := [source] + m.recency[1..])
    else m
  }

  // ---------------------------------------------------------------- the two operations

  function Truncate(bytes: seq<byte>, cfg: Config): seq<byte> {
    bytes[..Min(|bytes|, cfg.capacity)]
  }

  predicate IsStart(data: seq<byte>) {
    data != [] && TailOf(data).sot
  }

  function Prepare(m: Rx, cfg: Config, source: NodeId, data: seq<byte>, now: Instant): Rx {
    if source !in m.sessions && IsStart(data) then StartSession(m, cfg, source, now) else m
  }

  /** A source that just started a transfer becomes the most recent. */
  function Touch(recency: seq<nat>, source: NodeId, s: Session, now: Instant): seq<nat> {
    if LastTransferTimestamp(s) == Some(now) then Remove(recency, source) + [source] else recency
  }

  /** A finished transfer asks for a transfer slot. */
  function Deliver(queues: seq<seq<Item>>, cfg: Config, source: NodeId, priority: Priority, d: Option<Delivery>,
                   loopBack: bool)
    : (r: seq<seq<Item>>)
    requires |queues| == LEVELS
    ensures |r| == LEVELS
  {
    match d
    case None => queues
    case Some(d) =>
      Offer(queues, priority, Item(Some(source), d.id, d.timestamp, loopBack, Truncate(d.bytes, cfg)),
            cfg.transferSlots)
  }

  /** The source is known: its reassembler takes the frame. */
  function Feed(m: Rx, cfg: Config, source: NodeId, a: Arrival, loopBack: bool): Rx
    requires source in m.sessions && |m.queues| == LEVELS
  {
    var (s, d) := Receive(m.sessions[source], cfg.timeout, a);
    m.(sessions := m.sessions[source := s],
       recency := Touch(m.recency, source, s, a.timestamp),
       queues := Deliver(m.queues, cfg, source, a.priority, d, loopBack))
  }

  function PushRegular(m: Rx, cfg: Config, source: NodeId, a: Arrival, loopBack: bool): Rx
    requires |m.queues| == LEVELS
  {
    var ready := Prepare(m, cfg, source, a.data, a.timestamp);
    if source in ready.sessions then Feed(ready, cfg, source, a, loopBack) else ready
  }

  predicate IsAnonymousTransfer(data: seq<byte>) {
    data != [] && TailOf(data).sot && TailOf(data).eot && TailOf(data).toggle == SOT_TOGGLE_BIT
  }

  function PushAnonymous(m: Rx, cfg: Config, a: Arrival, loopBack: bool): Rx
    requires |m.queues| == LEVELS
  {
    if IsAnonymousTransfer(a.data) then
      var item := Item(None, TailOf(a.data).transferId, a.timestamp, loopBack, Truncate(Payload(a.data), cfg));
      m.(queues := Offer(m.queues, a.priority, item, cfg.transferSlots))
    else m
  }

  function PushFrame(m: Rx, cfg: Config, f: RxFrame): Rx
    requires |m.queues| == LEVELS
  {
    if f.spec != cfg.spec then m
    else
      match f.source
      case Some(node) => PushRegular(m, cfg, node, Arrival(f.priority, f.data, f.timestamp), f.loopBack)
      case None => PushAnonymous(m, cfg, Arrival(f.priority, f.data, f.timestamp), f.loopBack)
  }

  /** The transfer a frame completes. */
  function Completed(m: Rx, cfg: Config, f: RxFrame): Option<(Priority, Item)> {
    if f.spec != cfg.spec then None
    else
      match f.source
      case None =>
        if IsAnonymousTransfer(f.data) then
          Some((f.priority, Item(None, TailOf(f.data).transferId, f.timestamp, f.loopBack,
                                 Truncate(Payload(f.data), cfg))))
        else None
      case Some(node) =>
        var ready := Prepare(m, cfg, node, f.data, f.timestamp);
        if node !in ready.sessions then None
        else
          match Receive(ready.sessions[node], cfg.timeout, Arrival(f.priority, f.data, f.timestamp)).1
          case None => None
          case Some(d) => Some((f.priority, Item(Some(node), d.id, d.timestamp, f.loopBack, Truncate(d.bytes, cfg))))
  }

  function OfferDone<T>(queues: seq<seq<T>>, done: Option<(Priority, T)>, slots: nat): (r: seq<seq<T>>)
    requires |queues| == LEVELS
    ensures |r| == LEVELS
  {
    match done
    case None => queues
    case Some((p, x)) => Offer(queues, p, x, slots)
  }

  /** A frame changes the queues only by offering the transfer it completes. */
  lemma PushFrameOffers(m: Rx, cfg: Config, f: RxFrame)
    requires |m.queues| == LEVELS
    ensures PushFrame(m, cfg, f).queues == OfferDone(m.queues, Completed(m, cfg, f), cfg.transferSlots)
  {
  }

  /** The oldest transfer of the most urgent priority in the mask; its bytes become the readout. */
  function TryPop(m: Rx, mask: set<Priority>): (Rx, Option<(Priority, Item)>)
    requires |m.queues| == LEVELS
  {
    match First(NonEmpty(m.queues) * mask)
    case None => (m, None)
    case Some(p) =>
      (m.(queues := m.queues[p := m.queues[p][1..]], readout := m.queues[p][0].bytes), Some((p, m.queues[p][0])))
  }

  // ---------------------------------------------------------------- every run stays sane

  lemma {:induction false} RemoveMembers(q: seq<nat>, e: nat)
    requires NoDuplicates(q)
    ensures forall x :: x in Remove(q, e) <==> x in q && x != e
  {
    if q != [] {
      assert q == [q[0]] + q[1..];
      if q[0] == e {
        assert forall j :: 0 <= j < |q[1..]| ==> q[1..][j] == q[j + 1] != e;
      } else {
        RemoveMembers(q[1..], e);
      }
    }
  }

  lemma {:induction false} RemoveKeeps(q: seq<nat>, e: nat)
    requires NoDuplicates(q)
    ensures NoDuplicates(Remove(q, e))
    ensures forall x :: x in Remove(q, e) <==> x in q && x != e
  {
    RemoveMembers(q, e);
    if q != [] && q[0] != e {
      RemoveKeeps(q[1..], e);
      TailKeeps(q);
      ConsKeeps(Remove(q[1..], e), q[0]);
    }
  }

  lemma ConsKeeps(q: seq<nat>, e: nat)
    requires NoDuplicates(q) && e !in q
    ensures NoDuplicates([e] + q)
    ensures forall x :: x in [e] + q <==> x == e || x in q
  {
    assert forall j :: 0 <= j < |q| ==> q[j] in q;
  }

  lemma TailKeeps(q: seq<nat>)
    requires NoDuplicates(q) && q != []
    ensures NoDuplicates(q[1..])
    ensures forall x :: x in q[1..] <==> x in q && x != q[0]
  {
    assert q == [q[0]] + q[1..];
    forall j | 0 <= j < |q[1..]| ensures q[1..][j] != q[0] {
      assert q[1..][j] == q[j + 1];
    }
  }

  lemma TracksNew(sessions: map<nat, Session>, recency: seq<nat>, source: NodeId)
    requires Tracks(sessions, recency) && source !in sessions
    ensures Tracks(sessions[source := FRESH], [source] + recency)
    ensures |sessions[source := FRESH]| == |sessions| + 1
  {
    ConsKeeps(recency, source);
    assert sessions[source := FRESH].Keys == sessions.Keys + {source};
  }

  lemma TracksLess(sessions: map<nat, Session>, recency: seq<nat>)
    requires Tracks(sessions, recency) && recency != []
    ensures Tracks(sessions - {recency[0]}, recency[1..])
    ensures |sessions - {recency[0]}| == |sessions| - 1
  {
    TailKeeps(recency);
    assert recency[0] in sessions;
    assert (sessions - {recency[0]}).Keys == sessions.Keys - {recency[0]};
  }

  lemma StartSessionSane(m: Rx, cfg: Config, source: NodeId, now: Instant)
    requires Sane(m, cfg) && source !in m.sessions
    ensures Sane(StartSession(m, cfg, source, now), cfg)
  {
    var r := StartSession(m, cfg, source, now);
    if |m.sessions| < cfg.sessionSlots {
      TracksNew(m.sessions, m.recency, source);
    } else if r != m {
      TracksLess(m.sessions, m.recency);
      TracksNew(m.sessions - {m.recency[0]}, m.recency[1..], source);
    }
  }

  lemma ReceiveWellFormed(m: Session, timeout: Duration, a: Arrival)
    requires WellFormed(m) && |a.data| <= MAX_LENGTH
    ensures WellFormed(Receive(m, timeout, a).0)
  {
    if a.data != [] {
      StepWellFormed(m, timeout, a.priority, TailOf(a.data), Payload(a.data), a.timestamp);
    }
  }

  lemma TracksUpdate(sessions: map<nat, Session>, recency: seq<nat>, source: NodeId, s: Session, now: Instant)
    requires Tracks(sessions, recency) && source in sessions && WellFormed(s)
    ensures Tracks(sessions[source := s], Touch(recency, source, s, now))
    ensures |sessions[source := s]| == |sessions|
  {
    RemoveKeeps(recency, source);
    assert sessions[source := s].Keys == sessions.Keys;
  }

  lemma FeedSane(m: Rx, cfg: Config, source: NodeId, a: Arrival, loopBack: bool)
    requires Sane(m, cfg) && source in m.sessions && |a.data| <= MAX_LENGTH
    ensures Sane(Feed(m, cfg, source, a, loopBack), cfg)
  {
    var (s, d) := Receive(m.sessions[source], cfg.timeout, a);
    ReceiveWellFormed(m.sessions[source], cfg.timeout, a);
    TracksUpdate(m.sessions, m.recency, source, s, a.timestamp);
    if d.Some? {
      var item := Item(Some(source), d.value.id, d.value.timestamp, loopBack, Truncate(d.value.bytes, cfg));
      OfferCount(m.queues, a.priority, item, cfg.transferSlots);
    }
  }

  /** No push loses a slot, a session or its place in the recency order. */
  lemma PushFrameSane(m: Rx, cfg: Config, f: RxFrame)
    requires Sane(m, cfg) && |f.data| <= MAX_LENGTH
    ensures Sane(PushFrame(m, cfg, f), cfg)
  {
    var a := Arrival(f.priority, f.data, f.timestamp);
    if f.spec == cfg.spec {
      match f.source
      case Some(node) =>
        if node !in m.sessions {
          StartSessionSane(m, cfg, node, f.timestamp);
        }
        var ready := Prepare(m, cfg, node, f.data, f.timestamp);
        if node in ready.sessions {
          FeedSane(ready, cfg, node, a, f.loopBack);
        }
      case None =>
        if IsAnonymousTransfer(f.data) {
          var item := Item(None, TailOf(f.data).transferId, f.timestamp, f.loopBack, Truncate(Payload(f.data), cfg));
          OfferCount(m.queues, f.priority, item, cfg.transferSlots);
        }
    }
  }

  lemma TryPopSane(m: Rx, cfg: Config, mask: set<Priority>)
    requires Sane(m, cfg)
    ensures Sane(TryPop(m, mask).0, cfg)
  {
    match First(NonEmpty(m.queues) * mask)
    case None =>
    case Some(p) => CountUpdate(m.queues, p, m.queues[p][1..], LEVELS);
  }
}
