/** The receive buffer objects driven through whole runs: constructed, then fed frames and read, event by event. */
module Replays {
  import opened Wrappers
  import opened Format
  import opened Priorities
  import opened RxModel
  import opened SessionTables
  import opened RxView
  import RxRuns
  import Isolation
  import opened RxFifo
  import Watches
  import WatchBuffers

  /** What the reader of an object gets of all the model pops. */
  function AllRead(popped: seq<(Priority, Item)>): seq<(TransferMeta, seq<byte>)> {
    seq(|popped|, i requires 0 <= i < |popped| => ReadOf(Some(popped[i])).value)
  }

  /** A frame the object may be given: a start of transfer of a named source needs a session slot to ask for. */
  ghost predicate Acceptable(f: RxFrame, cfg: Config) {
    && |f.data| <= MAX_LENGTH
    && (f.spec == cfg.spec && f.source.Some? && IsStart(f.data) ==> cfg.sessionSlots > 0)
  }

  // ---------------------------------------------------------------- the buffer with queues

  ghost predicate AllAcceptable(events: seq<RxRuns.Event>, cfg: Config) {
    forall i :: 0 <= i < |events| && events[i].Push? ==> Acceptable(events[i].frame, cfg)
  }

  /** The object is where the run is. */
  ghost predicate IsAt(q: RxPriorityFifo, cfg: Config, events: seq<RxRuns.Event>)
    reads q`readoutBufferIdx, q.table.Owned(), q.transfers.Owned()
  {
    q.cfg == cfg && q.Apart() && Represents(q.Snapshot(), RxRuns.Run(cfg, events), cfg)
  }

  method ReplayPush(q: RxPriorityFifo, ghost events: seq<RxRuns.Event>, f: RxFrame)
    requires ValidConfig(q.cfg) && IsAt(q, q.cfg, events) && AllAcceptable(events, q.cfg) && Acceptable(f, q.cfg)
    modifies q.table.Owned(), q.transfers.Owned()
    ensures IsAt(q, q.cfg, events + [RxRuns.Push(f)])
  {
    RxRuns.RunSane(q.cfg, events);
    q.PushFrame(f, RxRuns.Run(q.cfg, events));
    RunMore(q.cfg, events, RxRuns.Push(f));
  }

  lemma RunMore(cfg: Config, events: seq<RxRuns.Event>, e: RxRuns.Event)
    ensures RxRuns.Run(cfg, events + [e]) == RxRuns.Apply(RxRuns.Run(cfg, events), cfg, e)
    ensures Isolation.Pops(cfg, events + [e]) ==
            Isolation.Pops(cfg, events) + Isolation.PopOf(RxRuns.Run(cfg, events), e)
  {
    assert (events + [e])[..|events|] == events;
  }

  method ReplayPop(q: RxPriorityFifo, ghost events: seq<RxRuns.Event>, mask: set<Priority>)
    returns (r: Option<(TransferMeta, seq<byte>)>)
    requires ValidConfig(q.cfg) && IsAt(q, q.cfg, events)
    modifies q`readoutBufferIdx, q.transfers.Owned()
    ensures IsAt(q, q.cfg, events + [RxRuns.Pop(mask)])
    ensures r == ReadOf(RxModel.TryPop(RxRuns.Run(q.cfg, events), mask).1)
  {
    r := q.TryPop(mask, RxRuns.Run(q.cfg, events));
    RunMore(q.cfg, events, RxRuns.Pop(mask));
  }

  lemma OneRead(m: Rx, mask: set<Priority>, r: Option<(TransferMeta, seq<byte>)>)
    requires |m.queues| == LEVELS && r == ReadOf(RxModel.TryPop(m, mask).1)
    ensures AllRead(Isolation.PopOf(m, RxRuns.Pop(mask))) == if r.Some? then [r.value] else []
  {
  }

  /** One event, and what the reader gets by it. */
  method ReplayEvent(q: RxPriorityFifo, ghost events: seq<RxRuns.Event>, e: RxRuns.Event)
    returns (r: seq<(TransferMeta, seq<byte>)>)
    requires ValidConfig(q.cfg) && AllAcceptable(events, q.cfg) && (e.Push? ==> Acceptable(e.frame, q.cfg))
    requires IsAt(q, q.cfg, events)
    modifies q`readoutBufferIdx, q.table.Owned(), q.transfers.Owned()
    ensures IsAt(q, q.cfg, events + [e]) && r == AllRead(Isolation.PopOf(RxRuns.Run(q.cfg, events), e))
  {
    match e
    case Push(f) =>
      ReplayPush(q, events, f);
      return [];
    case Pop(mask) =>
      var popped := ReplayPop(q, events, mask);
      OneRead(RxRuns.Run(q.cfg, events), mask, popped);
      return if popped.Some? then [popped.value] else [];
  }

  lemma ReadMore(cfg: Config, events: seq<RxRuns.Event>, i: nat)
    requires i < |events| && AllAcceptable(events, cfg)
    ensures AllAcceptable(events[..i], cfg) && (events[i].Push? ==> Acceptable(events[i].frame, cfg))
    ensures events[..i + 1] == events[..i] + [events[i]]
    ensures AllRead(Isolation.Pops(cfg, events[..i + 1])) ==
      AllRead(Isolation.Pops(cfg, events[..i])) + AllRead(Isolation.PopOf(RxRuns.Run(cfg, events[..i]), events[i]))
  {
    assert events[..i + 1] == events[..i] + [events[i]];
    RunMore(cfg, events[..i], events[i]);
    forall k | 0 <= k < i && events[..i][k].Push? ensures Acceptable(events[..i][k].frame, cfg) {
      assert events[..i][k] == events[k];
    }
  }

  /** The object follows the model through every run, and the reader gets what the model pops. */
  method ReplayAll(q: RxPriorityFifo, events: seq<RxRuns.Event>) returns (popped: seq<(TransferMeta, seq<byte>)>)
    requires ValidConfig(q.cfg) && AllAcceptable(events, q.cfg) && IsAt(q, q.cfg, [])
    modifies q`readoutBufferIdx, q.table.Owned(), q.transfers.Owned()
    ensures IsAt(q, q.cfg, events) && popped == AllRead(Isolation.Pops(q.cfg, events))
  {
    popped := [];
    var i := 0;
    while i < |events|
      invariant 0 <= i <= |events| && IsAt(q, q.cfg, events[..i])
      invariant popped == AllRead(Isolation.Pops(q.cfg, events[..i]))
    {
      ReadMore(q.cfg, events, i);
      var r := ReplayEvent(q, events[..i], events[i]);
      popped, i := popped + r, i + 1;
    }
    assert events[..i] == events;
  }

  /** So does every new object. */
  method Replay(cfg: Config, buffers: seq<array<byte>>, events: seq<RxRuns.Event>)
    returns (q: RxPriorityFifo, popped: seq<(TransferMeta, seq<byte>)>)
    requires ValidConfig(cfg) && |buffers| == BufferCount(cfg) && Distinguished(buffers)
    requires forall i :: 0 <= i < |buffers| ==> buffers[i].Length == cfg.capacity
    requires AllAcceptable(events, cfg)
    modifies set i | 0 <= i < |buffers| :: buffers[i]
    ensures IsAt(q, cfg, events) && popped == AllRead(Isolation.Pops(cfg, events))
  {
    q := new RxPriorityFifo(cfg, buffers);
    assert forall o :: o in q.table.Owned() && o !in q.table.pool ==> fresh(o);
    popped := ReplayAll(q, events);
  }

  // ---------------------------------------------------------------- the last-value buffer

  ghost predicate WatchAt(q: WatchBuffers.WatchBuffer, cfg: Config, w: Watches.Watch)
    reads q, q.table.Owned()
  {
    q.cfg == cfg && q.Apart() && WatchBuffers.Shows(q.Snapshot(), w, cfg)
  }

  ghost predicate WatchAcceptable(events: seq<Watches.Event>, cfg: Config) {
    forall i :: 0 <= i < |events| && events[i].Push? ==> Acceptable(events[i].frame, cfg)
  }

  method WatchEvent(q: WatchBuffers.WatchBuffer, ghost w: Watches.Watch, e: Watches.Event)
    returns (r: Option<(TransferMeta, seq<byte>)>)
    requires WatchAt(q, q.cfg, w) && Watches.Valid(w, q.cfg) && q.cfg.sessionSlots <= MAX_NODE + 1
    requires e.Push? ==> Acceptable(e.frame, q.cfg)
    modifies q, q.table.Owned()
    ensures WatchAt(q, q.cfg, Watches.Apply(w, q.cfg, e))
    ensures r == match e case Push(_) => None case Pop(mask) => ReadOf(Watches.TryPop(w, q.cfg, mask).1)
  {
    match e
    case Push(f) =>
      q.PushFrame(f, w);
      return None;
    case Pop(mask) =>
      r := q.TryPop(mask, w);
  }

  /** The popped part of the history after one more event. */
  lemma WatchMore(w: Watches.Watch, cfg: Config, events: seq<Watches.Event>, h: Watches.History)
    requires Watches.Valid(w, cfg) && events != [] && WatchAcceptable(events, cfg)
    ensures Watches.Valid(Watches.Apply(w, cfg, events[0]), cfg) && WatchAcceptable(events[1..], cfg)
    ensures Watches.RunTo(w, cfg, events, h) ==
      Watches.RunTo(Watches.Apply(w, cfg, events[0]), cfg, events[1..], Watches.Note(w, cfg, events[0], h))
    ensures var r := match events[0] case Push(_) => None case Pop(mask) => ReadOf(Watches.TryPop(w, cfg, mask).1);
      AllRead(Watches.Note(w, cfg, events[0], h).popped) == AllRead(h.popped) + if r.Some? then [r.value] else []
  {
    Watches.StepValid(w, cfg, events[0]);
  }

  /** The object follows the model through every run, and the reader gets what the model pops. */
  method WatchAll(q: WatchBuffers.WatchBuffer, events: seq<Watches.Event>, ghost w: Watches.Watch)
    returns (popped: seq<(TransferMeta, seq<byte>)>)
    requires q.cfg.sessionSlots <= MAX_NODE + 1 && WatchAcceptable(events, q.cfg)
    requires WatchAt(q, q.cfg, w) && Watches.Valid(w, q.cfg)
    modifies q, q.table.Owned()
    ensures var (end, h) := Watches.RunTo(w, q.cfg, events, Watches.History([], []));
      WatchAt(q, q.cfg, end) && popped == AllRead(h.popped)
  {
    popped := [];
    var i := 0;
    ghost var at, h, all := w, Watches.History([], []), Watches.RunTo(w, q.cfg, events, Watches.History([], []));
    while i < |events|
      invariant 0 <= i <= |events| && WatchAt(q, q.cfg, at) && Watches.Valid(at, q.cfg)
      invariant WatchAcceptable(events[i..], q.cfg) && Watches.RunTo(at, q.cfg, events[i..], h) == all
      invariant popped == AllRead(h.popped)
    {
      WatchMore(at, q.cfg, events[i..], h);
      assert events[i..][1..] == events[i + 1..];
      var r := WatchEvent(q, at, events[i]);
      at, h := Watches.Apply(at, q.cfg, events[i]), Watches.Note(at, q.cfg, events[i], h);
      popped, i := popped + if r.Some? then [r.value] else [], i + 1;
    }
  }

  /** So does every new object. */
  method Watch(cfg: Config, buffers: seq<array<byte>>, events: seq<Watches.Event>)
    returns (q: WatchBuffers.WatchBuffer, popped: seq<(TransferMeta, seq<byte>)>)
    requires cfg.sessionSlots <= MAX_NODE + 1 && |buffers| == cfg.sessionSlots + 2 && Distinguished(buffers)
    requires forall i :: 0 <= i < |buffers| ==> buffers[i].Length == cfg.capacity
    requires WatchAcceptable(events, cfg)
    modifies set i | 0 <= i < |buffers| :: buffers[i]
    ensures Watches.Valid(Watches.NewWatch(cfg), cfg)
    ensures var (end, h) := Watches.RunTo(Watches.NewWatch(cfg), cfg, events, Watches.History([], []));
      WatchAt(q, cfg, end) && popped == AllRead(h.popped)
  {
    Watches.NewIsKept(cfg);
    q := new WatchBuffers.WatchBuffer(cfg, buffers);
    assert forall o :: o in q.table.Owned() && o !in q.table.pool ==> fresh(o);
    popped := WatchAll(q, events, Watches.NewWatch(cfg));
  }
}
