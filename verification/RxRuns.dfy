/** Runs of the receive buffer: how session slots are reused. */
module RxRuns {
  import opened Wrappers
  import opened Time
  import opened Format
  import opened Priorities
  import opened Reassembly
  import opened ClassQueues
  import opened PriorityQueues
  import opened RxModel

  datatype Event = Push(frame: RxFrame) | Pop(mask: set<Priority>)

  function Apply(m: Rx, cfg: Config, e: Event): Rx
    requires |m.queues| == LEVELS
  {
    match e
    case Push(f) => PushFrame(m, cfg, f)
    case Pop(mask) => TryPop(m, mask).0
  }

  function Run(cfg: Config, events: seq<Event>): (r: Rx)
    ensures |r.queues| == LEVELS
  {
    if events == [] then EMPTY else Apply(Run(cfg, events[..|events| - 1]), cfg, events[|events| - 1])
  }

  ghost predicate ShortFrames(events: seq<Event>) {
    forall i :: 0 <= i < |events| && events[i].Push? ==> |events[i].frame.data| <= MAX_LENGTH
  }

  /** Frame timestamps never go back, and none is later than `now`. */
  ghost predicate Chronological(events: seq<Event>, now: Instant) {
    && (forall i, j :: 0 <= i < j < |events| && events[i].Push? && events[j].Push? ==>
          events[i].frame.timestamp <= events[j].frame.timestamp)
    && (forall i :: 0 <= i < |events| && events[i].Push? ==> events[i].frame.timestamp <= now)
  }

  lemma {:induction false} RunSane(cfg: Config, events: seq<Event>)
    requires ShortFrames(events)
    ensures Sane(Run(cfg, events), cfg)
  {
    if events == [] {
      EmptyCount(LEVELS);
    } else {
      var n := |events| - 1;
      RunSane(cfg, events[..n]);
      var m := Run(cfg, events[..n]);
      match events[n]
      case Push(f) => PushFrameSane(m, cfg, f);
      case Pop(mask) => TryPopSane(m, cfg, mask);
    }
  }

  lemma {:induction false} EmptyCount(n: nat)
    requires n <= LEVELS
    ensures CountUpTo(EMPTY.queues, n) == 0
  {
    if n > 0 {
      EmptyCount(n - 1);
    }
  }

  // ---------------------------------------------------------------- least recently started

  /** No later than: a session without a transfer counts as oldest. */
  predicate NotLater(a: Option<Instant>, b: Option<Instant>) {
    a.None? || (b.Some? && a.value <= b.value)
  }

  function Started(m: Rx, s: nat): Option<Instant> {
    if s in m.sessions then LastTransferTimestamp(m.sessions[s]) else None
  }

  ghost predicate Ascending(q: seq<nat>, m: Rx) {
    forall i, j :: 0 <= i < j < |q| ==> NotLater(Started(m, q[i]), Started(m, q[j]))
  }

  /** The recency queue is sorted by the last accepted start of transfer, all of them past. */
  ghost predicate Sorted(m: Rx, now: Instant) {
    && Ascending(m.recency, m)
    && forall s :: s in m.sessions ==> NotLater(Started(m, s), Some(now))
  }

  lemma {:induction false} RemoveAscending(q: seq<nat>, m: Rx, e: nat)
    requires Ascending(q, m) && NoDuplicates(q)
    ensures Ascending(Remove(q, e), m)
  {
    if q != [] && q[0] != e {
      var rest := Remove(q[1..], e);
      assert Ascending(q[1..], m) && NoDuplicates(q[1..]);
      RemoveAscending(q[1..], m, e);
      RemoveKeeps(q[1..], e);
      forall j | 0 <= j < |rest| ensures NotLater(Started(m, q[0]), Started(m, rest[j])) {
        assert rest[j] in rest;
        var k :| 0 <= k < |q[1..]| && q[1..][k] == rest[j];
        assert q[k + 1] == rest[j];
      }
    }
  }

  /** A frame leaves the time of the last start as it was or sets it to its own. */
  lemma StartOrKeep(s: Session, timeout: Duration, a: Arrival)
    requires WellFormed(s)
    ensures var t := LastTransferTimestamp(Receive(s, timeout, a).0);
      t == LastTransferTimestamp(s) || t == Some(a.timestamp)
  {
  }

  lemma StartSessionSorted(m: Rx, cfg: Config, source: NodeId, now: Instant)
    requires Sane(m, cfg) && Sorted(m, now) && source !in m.sessions
    ensures Sorted(StartSession(m, cfg, source, now), now)
  {
    var r := StartSession(m, cfg, source, now);
    if r != m {
      var q := if |m.sessions| < cfg.sessionSlots then m.recency else m.recency[1..];
      StartKeepsOthers(m, cfg, source, now, q);
      AscendingSame(q, m, r);
      AscendingCons(q, r, source);
    }
  }

  /** The sessions that stay keep the time of their last start; the new one has none. */
  lemma StartKeepsOthers(m: Rx, cfg: Config, source: NodeId, now: Instant, q: seq<nat>)
    requires Sane(m, cfg) && source !in m.sessions && StartSession(m, cfg, source, now) != m
    requires q == if |m.sessions| < cfg.sessionSlots then m.recency else m.recency[1..]
    ensures var r := StartSession(m, cfg, source, now);
      && r.recency == [source] + q && Started(r, source) == None
      && (forall j :: 0 <= j < |q| ==> Started(r, q[j]) == Started(m, q[j]))
  {
    var r := StartSession(m, cfg, source, now);
    forall j | 0 <= j < |q| ensures Started(r, q[j]) == Started(m, q[j]) {
      assert q[j] in m.recency;
    }
  }

  lemma AscendingSame(q: seq<nat>, m: Rx, r: Rx)
    requires Ascending(q, m) && forall j :: 0 <= j < |q| ==> Started(r, q[j]) == Started(m, q[j])
    ensures Ascending(q, r)
  {
  }

  lemma AscendingCons(q: seq<nat>, r: Rx, source: nat)
    requires Ascending(q, r) && Started(r, source) == None
    ensures Ascending([source] + q, r)
  {
    var all := [source] + q;
    forall i, j | 0 <= i < j < |all| ensures NotLater(Started(r, all[i]), Started(r, all[j])) {
      if i > 0 {
        assert all[i] == q[i - 1] && all[j] == q[j - 1];
      }
    }
  }

  lemma FeedSorted(m: Rx, cfg: Config, source: NodeId, a: Arrival, loopBack: bool)
    requires Sane(m, cfg) && Sorted(m, a.timestamp) && source in m.sessions
    ensures Sorted(Feed(m, cfg, source, a, loopBack), a.timestamp)
  {
    var r := Feed(m, cfg, source, a, loopBack);
    StartOrKeep(m.sessions[source], cfg.timeout, a);
    assert forall s :: s != source ==> Started(r, s) == Started(m, s);
    if Started(r, source) == Some(a.timestamp) {
      var rest := Remove(m.recency, source);
      RemoveAscending(m.recency, m, source);
      RemoveKeeps(m.recency, source);
      forall i | 0 <= i < |rest| ensures Started(r, rest[i]) == Started(m, rest[i]) && rest[i] in m.sessions {
        assert rest[i] in rest;
      }
    } else {
      assert forall s :: Started(r, s) == Started(m, s);
    }
  }

  lemma PushFrameSorted(m: Rx, cfg: Config, f: RxFrame)
    requires Sane(m, cfg) && Sorted(m, f.timestamp) && |f.data| <= MAX_LENGTH
    ensures Sorted(PushFrame(m, cfg, f), f.timestamp)
  {
    if f.spec == cfg.spec && f.source.Some? {
      var node := f.source.value;
      var ready := Prepare(m, cfg, node, f.data, f.timestamp);
      if node !in m.sessions {
        StartSessionSane(m, cfg, node, f.timestamp);
        StartSessionSorted(m, cfg, node, f.timestamp);
      }
      if node in ready.sessions {
        FeedSorted(ready, cfg, node, Arrival(f.priority, f.data, f.timestamp), f.loopBack);
      }
    }
  }

  lemma SortedLater(m: Rx, now: Instant, later: Instant)
    requires Sorted(m, now) && now <= later
    ensures Sorted(m, later)
  {
  }

  /** The time of the latest push of a run. */
  function LatestPush(events: seq<Event>): Instant {
    if events == [] then 0
    else
      match events[|events| - 1]
      case Push(f) => f.timestamp
      case Pop(_) => LatestPush(events[..|events| - 1])
  }

  lemma {:induction false} LatestIsLatest(events: seq<Event>, now: Instant)
    requires Chronological(events, now)
    ensures LatestPush(events) <= now
  {
    if events != [] && events[|events| - 1].Pop? {
      LatestIsLatest(events[..|events| - 1], now);
    }
  }

  lemma {:induction false} RunSorted(cfg: Config, events: seq<Event>)
    requires ShortFrames(events) && Chronological(events, LatestPush(events))
    ensures Sorted(Run(cfg, events), LatestPush(events))
  {
    if events != [] {
      var n := |events| - 1;
      var before := events[..n];
      match events[n]
      case Push(f) =>
        LatestIsLatest(before, f.timestamp);
        ChronologicalPrefix(events, n);
        RunSorted(cfg, before);
        RunSane(cfg, before);
        SortedLater(Run(cfg, before), LatestPush(before), f.timestamp);
        PushFrameSorted(Run(cfg, before), cfg, f);
      case Pop(mask) =>
        RunSorted(cfg, before);
        var m := Run(cfg, before);
        assert forall s :: Started(TryPop(m, mask).0, s) == Started(m, s);
    }
  }

  lemma {:induction false} ChronologicalPrefix(events: seq<Event>, n: nat)
    requires n <= |events| && ShortFrames(events) && Chronological(events, LatestPush(events))
    ensures Chronological(events[..n], LatestPush(events[..n]))
    decreases n
  {
    if n > 0 && events[n - 1].Pop? {
      ChronologicalPrefix(events, n - 1);
      assert events[..n][..n - 1] == events[..n - 1];
    }
  }

  /** A session is live from its last start of transfer on until the timeout has passed. */
  lemma LiveIs(s: Session, timeout: Duration, now: Instant)
    requires WellFormed(s)
    ensures !Expired(s, timeout, now) <==>
      s.sofTimestamp.Some? && now <= SaturatingAdd(s.sofTimestamp.value, timeout)
  {
  }

  /** Whatever the clock does, a session that has not timed out keeps its slot, and its state unless the frame is
      its own. */
  lemma UnexpiredKeepsSlot(m: Rx, cfg: Config, f: RxFrame, s: nat)
    requires Sane(m, cfg) && s in m.sessions && m.sessions[s].sofTimestamp.Some?
    requires f.timestamp <= SaturatingAdd(m.sessions[s].sofTimestamp.value, cfg.timeout)
    ensures s in PushFrame(m, cfg, f).sessions
    ensures f.source != Some(s) ==> PushFrame(m, cfg, f).sessions[s] == m.sessions[s]
  {
    LiveIs(m.sessions[s], cfg.timeout, f.timestamp);
    if f.spec == cfg.spec && f.source.Some? {
      var ready := Prepare(m, cfg, f.source.value, f.data, f.timestamp);
      assert s in ready.sessions && ready.sessions[s] == m.sessions[s];
    }
  }

  /** In a sorted state a new source is refused exactly when all slots hold sessions within their timeout. */
  lemma RefusedIffAllLive(m: Rx, cfg: Config, source: NodeId, now: Instant)
    requires cfg.sessionSlots > 0 && Sane(m, cfg) && Sorted(m, now) && source !in m.sessions
    ensures source !in StartSession(m, cfg, source, now).sessions
       <==> |m.sessions| == cfg.sessionSlots
            && forall s :: s in m.sessions ==> !Expired(m.sessions[s], cfg.timeout, now)
  {
    if |m.sessions| == cfg.sessionSlots {
      assert |m.sessions.Keys| > 0;
      var tracked :| tracked in m.sessions.Keys;
      assert tracked in m.recency;
      var oldest := m.recency[0];
      assert oldest in m.sessions;
      if !Expired(m.sessions[oldest], cfg.timeout, now) {
        forall s | s in m.sessions ensures !Expired(m.sessions[s], cfg.timeout, now) {
          assert s in m.recency;
          var i :| 0 <= i < |m.recency| && m.recency[i] == s;
          assert i > 0 ==> NotLater(Started(m, m.recency[0]), Started(m, m.recency[i]));
        }
      }
    }
  }

  /** Session reuse is exactly least recent: over every run whose frame timestamps never go back, a start of
      transfer from an untracked source gets a slot unless every slot is used by a session within timeout. */
  lemma SessionReuseIsExact(cfg: Config, events: seq<Event>, f: RxFrame, source: NodeId)
    requires cfg.sessionSlots > 0 && ShortFrames(events) && Chronological(events, LatestPush(events))
    requires f.spec == cfg.spec && f.source == Some(source) && LatestPush(events) <= f.timestamp
    requires f.data != [] && DecodeTail(f.data[|f.data| - 1]).sot
    requires source !in Run(cfg, events).sessions
    ensures var sessions := Run(cfg, events).sessions;
      source !in PushFrame(Run(cfg, events), cfg, f).sessions
      <==> |sessions| == cfg.sessionSlots
           && forall s :: s in sessions ==>
                sessions[s].sofTimestamp.Some?
                && f.timestamp <= SaturatingAdd(sessions[s].sofTimestamp.value, cfg.timeout)
  {
    var m := Run(cfg, events);
    RunSane(cfg, events);
    RunSorted(cfg, events);
    SortedLater(m, LatestPush(events), f.timestamp);
    RefusedIffAllLive(m, cfg, source, f.timestamp);
    StartedIsFed(m, cfg, f, source);
    forall s | s in m.sessions
      ensures !Expired(m.sessions[s], cfg.timeout, f.timestamp) <==>
        m.sessions[s].sofTimestamp.Some?
        && f.timestamp <= SaturatingAdd(m.sessions[s].sofTimestamp.value, cfg.timeout)
    {
      LiveIs(m.sessions[s], cfg.timeout, f.timestamp);
    }
  }

  /** Who loses its slot: over every such run a frame takes the slot of no session but the least recently started one,
      for a new source, when all slots are used and its timeout is over. */
  lemma EvictsTheOldest(cfg: Config, events: seq<Event>, f: RxFrame, s: nat)
    requires ShortFrames(events) && Chronological(events, LatestPush(events)) && LatestPush(events) <= f.timestamp
    requires s in Run(cfg, events).sessions && s !in PushFrame(Run(cfg, events), cfg, f).sessions
    ensures var sessions := Run(cfg, events).sessions;
      && |sessions| == cfg.sessionSlots && f.source.Some? && f.source.value !in sessions
      && (sessions[s].sofTimestamp.Some? ==>
            f.timestamp > SaturatingAdd(sessions[s].sofTimestamp.value, cfg.timeout)
            && forall t :: t in sessions ==>
                 sessions[t].sofTimestamp.Some? && sessions[s].sofTimestamp.value <= sessions[t].sofTimestamp.value)
  {
    var m := Run(cfg, events);
    RunSane(cfg, events);
    RunSorted(cfg, events);
    assert f.spec == cfg.spec && f.source.Some?;
    var source := f.source.value;
    assert source !in m.sessions && s !in StartSession(m, cfg, source, f.timestamp).sessions;
    LiveIs(m.sessions[s], cfg.timeout, f.timestamp);
    forall t | t in m.sessions ensures NotLater(Started(m, s), Started(m, t)) {
      FirstIsOldest(m, s, t);
    }
  }

  lemma FirstIsOldest(m: Rx, s: nat, t: nat)
    requires Tracks(m.sessions, m.recency) && Ascending(m.recency, m) && t in m.sessions
    requires m.recency != [] && m.recency[0] == s
    ensures NotLater(Started(m, s), Started(m, t))
  {
    var i :| 0 <= i < |m.recency| && m.recency[i] == t;
    assert i > 0 ==> NotLater(Started(m, m.recency[0]), Started(m, m.recency[i]));
  }

  lemma StartedIsFed(m: Rx, cfg: Config, f: RxFrame, source: NodeId)
    requires |m.queues| == LEVELS && source !in m.sessions
    requires f.spec == cfg.spec && f.source == Some(source) && IsStart(f.data)
    ensures source in PushFrame(m, cfg, f).sessions <==> source in StartSession(m, cfg, source, f.timestamp).sessions
  {
  }

  // ---------------------------------------------------------------- frames with no pop in between

  function PushAll(m: Rx, cfg: Config, frames: seq<RxFrame>): (r: Rx)
    requires |m.queues| == LEVELS
    ensures |r.queues| == LEVELS
  {
    if frames == [] then m else PushFrame(PushAll(m, cfg, frames[..|frames| - 1]), cfg, frames[|frames| - 1])
  }

  /** The transfers the frames complete, in order. */
  function Arrivals(m: Rx, cfg: Config, frames: seq<RxFrame>): seq<(Priority, Item)>
    requires |m.queues| == LEVELS
  {
    if frames == [] then []
    else
      var n := |frames| - 1;
      var done := Completed(PushAll(m, cfg, frames[..n]), cfg, frames[n]);
      Arrivals(m, cfg, frames[..n]) + if done.Some? then [done.value] else []
  }
}
