/** The last-value buffer beside the one with queues: the same sessions, and of the same transfers the newest. */
module WatchRuns {
  import opened Wrappers
  import opened Time
  import opened Format
  import opened Priorities
  import opened Reassembly
  import opened RxModel
  import opened Watches
  import RxRuns

  /** Both buffers have the same sessions, used in the same order. */
  ghost predicate Matches(w: Watch, m: Rx) {
    w.sessions == m.sessions && w.recency == m.recency && |m.queues| == LEVELS
  }

  lemma BaseIsCount(w: Watch, cfg: Config)
    requires Valid(w, cfg)
    ensures w.base == |w.sessions|
  {
    assert |w.slots| == |w.slots.Keys| && |w.sessions| == |w.sessions.Keys|;
  }

  lemma PrepareMatches(w: Watch, m: Rx, cfg: Config, source: NodeId, data: seq<byte>, now: Instant)
    requires Valid(w, cfg) && Matches(w, m)
    ensures Matches(Watches.Prepare(w, cfg, source, data, now), RxModel.Prepare(m, cfg, source, data, now))
  {
    BaseIsCount(w, cfg);
  }

  lemma PrepareValid(w: Watch, cfg: Config, source: NodeId, data: seq<byte>, now: Instant)
    requires Valid(w, cfg)
    ensures Valid(Watches.Prepare(w, cfg, source, data, now), cfg)
  {
    if source !in w.sessions {
      StartValid(w, cfg, source, now);
    }
  }

  lemma FeedMatches(w: Watch, m: Rx, cfg: Config, source: NodeId, a: Arrival, loopBack: bool)
    requires Valid(w, cfg) && Matches(w, m) && source in w.sessions && |a.data| <= MAX_LENGTH
    ensures w.slots[source] < |w.held|
    ensures Matches(Watches.Feed(w, cfg, source, a, loopBack), RxModel.Feed(m, cfg, source, a, loopBack))
  {
    SettleKeeps(w, cfg, source, a, loopBack);
  }

  /** A frame keeps the sessions the same, and the watch accepts of what it completes what is not older. */
  lemma FrameMatches(w: Watch, m: Rx, cfg: Config, f: RxFrame)
    requires Valid(w, cfg) && Matches(w, m) && |f.data| <= MAX_LENGTH
    ensures Matches(Watches.PushFrame(w, cfg, f), RxModel.PushFrame(m, cfg, f))
    ensures var done := Completed(m, cfg, f);
      Accepted(w, cfg, f) == if done.Some? && w.minTimestamp <= done.value.1.timestamp then done else None
  {
    if f.spec == cfg.spec && f.source.Some? {
      var node, a := f.source.value, Arrival(f.priority, f.data, f.timestamp);
      var ready := Watches.Prepare(w, cfg, node, f.data, f.timestamp);
      PrepareMatches(w, m, cfg, node, f.data, f.timestamp);
      PrepareValid(w, cfg, node, f.data, f.timestamp);
      PrepareKeepsTime(w, cfg, node, f.data, f.timestamp);
      if node in ready.sessions {
        FeedMatches(ready, RxModel.Prepare(m, cfg, node, f.data, f.timestamp), cfg, node, a, f.loopBack);
        DeliveredAt(ready.sessions[node], cfg.timeout, a);
      }
    }
  }

  lemma PrepareKeepsTime(w: Watch, cfg: Config, source: NodeId, data: seq<byte>, now: Instant)
    requires Valid(w, cfg)
    ensures Watches.Prepare(w, cfg, source, data, now).minTimestamp == w.minTimestamp
  {
  }

  lemma DeliveredAt(s: Session, timeout: Duration, a: Arrival)
    ensures var d := Receive(s, timeout, a).1; d.Some? ==> d.value.priority == a.priority
  {
  }

  // ---------------------------------------------------------------- session slots

  /** The sessions of a watch, as those of a buffer with nothing queued. */
  function Beside(w: Watch): Rx {
    Rx(w.sessions, w.recency, EMPTY.queues, [])
  }

  lemma BesideIsSane(w: Watch, cfg: Config)
    requires Valid(w, cfg)
    ensures Matches(w, Beside(w)) && Sane(Beside(w), cfg)
  {
    BaseIsCount(w, cfg);
    RxRuns.EmptyCount(LEVELS);
  }

  /** Whatever the clock does, a session that has not timed out keeps its slot, and its state unless the frame is
      its own. */
  lemma UnexpiredKeepsSlot(w: Watch, cfg: Config, f: RxFrame, s: nat)
    requires Valid(w, cfg) && |f.data| <= MAX_LENGTH && s in w.sessions && w.sessions[s].sofTimestamp.Some?
    requires f.timestamp <= SaturatingAdd(w.sessions[s].sofTimestamp.value, cfg.timeout)
    ensures s in Watches.PushFrame(w, cfg, f).sessions
    ensures f.source != Some(s) ==> Watches.PushFrame(w, cfg, f).sessions[s] == w.sessions[s]
  {
    BesideIsSane(w, cfg);
    FrameMatches(w, Beside(w), cfg, f);
    RxRuns.UnexpiredKeepsSlot(Beside(w), cfg, f, s);
  }

  // ---------------------------------------------------------------- whole runs

  function AsRx(e: Event): RxRuns.Event {
    match e
    case Push(f) => RxRuns.Push(f)
    case Pop(mask) => RxRuns.Pop(mask)
  }

  /** The same frames and reads for the buffer with queues. */
  function AllAsRx(events: seq<Event>): (r: seq<RxRuns.Event>)
    ensures |r| == |events| && forall i :: 0 <= i < |r| ==> r[i] == AsRx(events[i])
  {
    seq(|events|, i requires 0 <= i < |events| => AsRx(events[i]))
  }

  /** The transfer an event completes. */
  function DoneBy(m: Rx, cfg: Config, e: RxRuns.Event): Option<(Priority, Item)> {
    match e
    case Push(f) => Completed(m, cfg, f)
    case Pop(_) => None
  }

  function Added(all: seq<(Priority, Item)>, x: Option<(Priority, Item)>): seq<(Priority, Item)> {
    if x.Some? then all + [x.value] else all
  }

  /** The transfers completed over a run, in order. */
  function AllCompleted(cfg: Config, events: seq<RxRuns.Event>): seq<(Priority, Item)> {
    if events == [] then []
    else
      var n := |events| - 1;
      Added(AllCompleted(cfg, events[..n]), DoneBy(RxRuns.Run(cfg, events[..n]), cfg, events[n]))
  }

  /** Of a sequence of transfers those not older than any kept before. */
  function Newest(all: seq<(Priority, Item)>): seq<(Priority, Item)> {
    if all == [] then []
    else
      var (kept, x) := (Newest(all[..|all| - 1]), all[|all| - 1]);
      if kept == [] || kept[|kept| - 1].1.timestamp <= x.1.timestamp then kept + [x] else kept
  }

  /** A transfer is accepted unless it is older than the last one accepted. */
  lemma NewestMore(all: seq<(Priority, Item)>, kept: seq<(Priority, Item)>, x: Option<(Priority, Item)>, least: Instant)
    requires kept == Newest(all)
    requires least == if kept == [] then 0 else kept[|kept| - 1].1.timestamp
    ensures Newest(Added(all, x)) == if x.Some? && least <= x.value.1.timestamp then kept + [x.value] else kept
  {
    if x.Some? {
      assert (all + [x.value])[..|all|] == all;
    }
  }

  lemma {:induction false} RunMore(w: Watch, cfg: Config, events: seq<Event>, e: Event, h: History)
    requires Valid(w, cfg) && ShortFrames(events) && ShortFrames(events + [e])
    ensures var (r, g) := RunTo(w, cfg, events, h);
      Valid(r, cfg) && RunTo(w, cfg, events + [e], h) == (Watches.Apply(r, cfg, e), Note(r, cfg, e, g))
    decreases |events|
  {
    assert (events + [e])[|events|] == e;
    if events == [] {
      StepValid(w, cfg, e);
      assert [e][1..] == [];
    } else {
      StepValid(w, cfg, events[0]);
      assert (events + [e])[1..] == events[1..] + [e];
      ShortRest(events);
      ShortRest(events + [e]);
      RunMore(Watches.Apply(w, cfg, events[0]), cfg, events[1..], e, Note(w, cfg, events[0], h));
    }
  }

  lemma ShortRest(events: seq<Event>)
    requires ShortFrames(events) && events != []
    ensures ShortFrames(events[1..]) && ShortFrames(events[..|events| - 1])
  {
    assert forall i :: 0 <= i < |events| - 1 ==> events[1..][i] == events[i + 1];
  }

  /** What a step accepts of what it completes. */
  lemma AcceptsDone(w: Watch, m: Rx, cfg: Config, e: Event, h: History)
    requires Valid(w, cfg) && Matches(w, m) && (e.Push? ==> |e.frame.data| <= MAX_LENGTH)
    ensures Matches(Watches.Apply(w, cfg, e), RxRuns.Apply(m, cfg, AsRx(e)))
    ensures var x := DoneBy(m, cfg, AsRx(e));
      Note(w, cfg, e, h).accepted ==
        if x.Some? && w.minTimestamp <= x.value.1.timestamp then h.accepted + [x.value] else h.accepted
  {
    match e
    case Push(f) => FrameMatches(w, m, cfg, f);
    case Pop(mask) =>
  }

  lemma StepMatches(w: Watch, h: History, cfg: Config, before: seq<RxRuns.Event>, events: seq<RxRuns.Event>, e: Event)
    requires Valid(w, cfg) && Matches(w, RxRuns.Run(cfg, before)) && (e.Push? ==> |e.frame.data| <= MAX_LENGTH)
    requires w.minTimestamp == if h.accepted == [] then 0 else h.accepted[|h.accepted| - 1].1.timestamp
    requires h.accepted == Newest(AllCompleted(cfg, before))
    requires events != [] && events[..|events| - 1] == before && events[|events| - 1] == AsRx(e)
    ensures Matches(Watches.Apply(w, cfg, e), RxRuns.Run(cfg, events))
    ensures Note(w, cfg, e, h).accepted == Newest(AllCompleted(cfg, events))
  {
    var m := RxRuns.Run(cfg, before);
    AcceptsDone(w, m, cfg, e, h);
    NewestMore(AllCompleted(cfg, before), h.accepted, DoneBy(m, cfg, AsRx(e)), w.minTimestamp);
  }

  /** The run of a new watch, and of a new buffer with queues on the same frames and reads. */
  ghost predicate RunsAlike(cfg: Config, events: seq<Event>)
    requires ShortFrames(events) && Valid(NewWatch(cfg), cfg)
  {
    var (w, h) := RunTo(NewWatch(cfg), cfg, events, History([], []));
    && Matches(w, RxRuns.Run(cfg, AllAsRx(events)))
    && h.accepted == Newest(AllCompleted(cfg, AllAsRx(events)))
  }

  lemma RunIsKept(cfg: Config, events: seq<Event>)
    requires ShortFrames(events) && Valid(NewWatch(cfg), cfg)
    ensures var (w, h) := RunTo(NewWatch(cfg), cfg, events, History([], []));
      && Valid(w, cfg)
      && w.minTimestamp == if h.accepted == [] then 0 else h.accepted[|h.accepted| - 1].1.timestamp
  {
    NewestIsKept(cfg, events);
  }

  lemma OneMoreAlike(cfg: Config, events: seq<Event>, e: Event)
    requires ShortFrames(events) && ShortFrames(events + [e]) && Valid(NewWatch(cfg), cfg)
    ensures RunsAlike(cfg, events) ==> RunsAlike(cfg, events + [e])
  {
    if RunsAlike(cfg, events) {
      var (w, h) := RunTo(NewWatch(cfg), cfg, events, History([], []));
      var more := AllAsRx(events + [e]);
      assert (events + [e])[|events|] == e;
      RunMore(NewWatch(cfg), cfg, events, e, History([], []));
      RunIsKept(cfg, events);
      assert more[..|events|] == AllAsRx(events) && more[|events|] == AsRx(e);
      StepMatches(w, h, cfg, AllAsRx(events), more, e);
    }
  }

  lemma {:induction false} RunMatches(cfg: Config, events: seq<Event>)
    requires ShortFrames(events)
    ensures Valid(NewWatch(cfg), cfg) && RunsAlike(cfg, events)
    decreases |events|
  {
    NewIsKept(cfg);
    if events != [] {
      var n := |events| - 1;
      ShortRest(events);
      RunMatches(cfg, events[..n]);
      assert events == events[..n] + [events[n]];
      OneMoreAlike(cfg, events[..n], events[n]);
    }
  }

  /** The watch accepts exactly the newest: over every run of a new watch the accepted transfers are those not older
      than any accepted before, of all that the frames complete in a buffer with queues. */
  lemma AcceptsTheNewest(cfg: Config, events: seq<Event>)
    requires ShortFrames(events)
    ensures Valid(NewWatch(cfg), cfg)
    ensures var (w, h) := RunTo(NewWatch(cfg), cfg, events, History([], []));
      h.accepted == Newest(AllCompleted(cfg, AllAsRx(events)))
  {
    RunMatches(cfg, events);
  }

  /** Session reuse of the watch is exactly least recent, as that of the buffer with queues. */
  lemma SessionReuseIsExact(cfg: Config, events: seq<Event>, f: RxFrame, source: NodeId)
    requires cfg.sessionSlots > 0 && ShortFrames(events) && |f.data| <= MAX_LENGTH
    requires RxRuns.Chronological(AllAsRx(events), RxRuns.LatestPush(AllAsRx(events)))
    requires RxRuns.LatestPush(AllAsRx(events)) <= f.timestamp
    requires f.spec == cfg.spec && f.source == Some(source) && f.data != [] && DecodeTail(f.data[|f.data| - 1]).sot
    requires Valid(NewWatch(cfg), cfg)
    requires source !in RunTo(NewWatch(cfg), cfg, events, History([], [])).0.sessions
    ensures var w := RunTo(NewWatch(cfg), cfg, events, History([], [])).0;
      && Valid(w, cfg)
      && (source !in Watches.PushFrame(w, cfg, f).sessions
          <==> |w.sessions| == cfg.sessionSlots
               && forall s :: s in w.sessions ==>
                    w.sessions[s].sofTimestamp.Some?
                    && f.timestamp <= SaturatingAdd(w.sessions[s].sofTimestamp.value, cfg.timeout))
  {
    var w := RunTo(NewWatch(cfg), cfg, events, History([], [])).0;
    RunMatches(cfg, events);
    RunIsKept(cfg, events);
    FrameMatches(w, RxRuns.Run(cfg, AllAsRx(events)), cfg, f);
    RxRuns.SessionReuseIsExact(cfg, AllAsRx(events), f, source);
  }
}
