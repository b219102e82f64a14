/** Interleaved sources do not disturb each other: what is queued and popped for a source is what its own
    frames alone produce, each transfer once and in order. */
module Isolation {
  import opened Wrappers
  import opened Format
  import opened Priorities
  import opened Reassembly
  import opened PriorityQueues
  import opened RxModel
  import opened RxView
  import opened RxRuns

  /** A frame the buffer hands to the session of source `s`. */
  predicate IsFor(e: Event, cfg: Config, s: nat) {
    e.Push? && e.frame.spec == cfg.spec && e.frame.source == Some(s)
  }

  function ArrivalOf(f: RxFrame): Arrival {
    Arrival(f.priority, f.data, f.timestamp)
  }

  /** A receiver started at event `k` that hears only the frames of source `s`. */
  function Alone(cfg: Config, s: nat, events: seq<Event>, k: nat): Session
    requires k <= |events|
  {
    if k == |events| then FRESH
    else
      var n := |events| - 1;
      var m := Alone(cfg, s, events[..n], k);
      if IsFor(events[n], cfg, s) then Receive(m, cfg.timeout, ArrivalOf(events[n].frame)).0 else m
  }

  predicate HasSession(cfg: Config, events: seq<Event>, s: nat, i: nat)
    requires i <= |events|
  {
    s in Run(cfg, events[..i]).sessions
  }

  /** The event that started the session source `s` has at the end of the run. */
  function Since(cfg: Config, events: seq<Event>, s: nat): (k: nat)
    requires events != []
    ensures k < |events|
  {
    var n := |events| - 1;
    if n > 0 && HasSession(cfg, events, s, n) then Since(cfg, events[..n], s) else n
  }

  lemma SamePrefix(cfg: Config, events: seq<Event>, before: seq<Event>, s: nat, i: nat)
    requires |before| <= |events| && before == events[..|before|] && i <= |before|
    ensures HasSession(cfg, before, s, i) == HasSession(cfg, events, s, i)
  {
    assert before[..i] == events[..i];
  }

  lemma SinceEarlier(cfg: Config, events: seq<Event>, s: nat)
    requires |events| > 1
    ensures Since(cfg, events, s) ==
            if HasSession(cfg, events, s, |events| - 1) then Since(cfg, events[..|events| - 1], s) else |events| - 1
  {
  }

  /** Source `s` had no session before that event, and has had one ever since. */
  lemma {:induction false} SinceIs(cfg: Config, events: seq<Event>, s: nat, i: nat)
    requires events != [] && i <= |events| && HasSession(cfg, events, s, |events|)
    ensures !HasSession(cfg, events, s, Since(cfg, events, s))
    ensures Since(cfg, events, s) < i ==> HasSession(cfg, events, s, i)
    decreases |events|
  {
    var n := |events| - 1;
    var before := events[..n];
    if n == 0 {
      NoneAtFirst(cfg, events, s);
    } else {
      SinceEarlier(cfg, events, s);
      if HasSession(cfg, events, s, n) {
        SamePrefix(cfg, events, before, s, n);
        SamePrefix(cfg, events, before, s, Since(cfg, before, s));
        var h := if i <= n then i else n;
        SinceIs(cfg, before, s, h);
        SamePrefix(cfg, events, before, s, h);
      }
    }
  }

  lemma NoneAtFirst(cfg: Config, events: seq<Event>, s: nat)
    ensures !HasSession(cfg, events, s, 0)
  {
    assert events[..0] == [];
  }

  /** `x` is the transfer that frame `j` completes for a receiver that hears source `s` alone since the start of
      its session. */
  ghost predicate FromAlone(cfg: Config, s: nat, events: seq<Event>, j: nat, p: nat, x: Item) {
    && j < |events| && IsFor(events[j], cfg, s) && s <= MAX_NODE && events[j].frame.priority == p
    && var k := Since(cfg, events[..j + 1], s);
       && IsFor(events[k], cfg, s) && IsStart(events[k].frame.data)
       && var d := Receive(Alone(cfg, s, events[..j], k), cfg.timeout, ArrivalOf(events[j].frame)).1;
          && d.Some?
          && x == Item(Some(s), d.value.id, d.value.timestamp, events[j].frame.loopBack, Truncate(d.value.bytes, cfg))
  }

  /** `x` is the anonymous transfer of frame `j`. */
  ghost predicate FromAnonymous(cfg: Config, events: seq<Event>, j: nat, p: nat, x: Item) {
    && j < |events| && events[j].Push? && events[j].frame.spec == cfg.spec && events[j].frame.source == None
    && events[j].frame.priority == p
    && var f := events[j].frame;
       && f.data != []
       && var (last, t) := (|f.data| - 1, DecodeTail(f.data[|f.data| - 1]));
          && t.sot && t.eot && t.toggle
          && x == Item(None, t.transferId, f.timestamp, f.loopBack, Truncate(f.data[..last], cfg))
  }

  /** Frame `j` accounts for transfer `x` at priority `p`. */
  ghost predicate Accounted(cfg: Config, events: seq<Event>, j: nat, p: nat, x: Item) {
    match x.source
    case None => FromAnonymous(cfg, events, j, p, x)
    case Some(s) => FromAlone(cfg, s, events, j, p, x)
  }

  lemma AccountedLater(cfg: Config, events: seq<Event>, e: Event, j: nat, p: nat, x: Item)
    requires Accounted(cfg, events, j, p, x)
    ensures Accounted(cfg, events + [e], j, p, x)
  {
    var more := events + [e];
    assert more[..j] == events[..j] && more[..j + 1] == events[..j + 1];
  }

  // ---------------------------------------------------------------- sessions hear their own source alone

  ghost predicate SessionAlone(cfg: Config, events: seq<Event>, s: nat, m: Session) {
    && events != []
    && var k := Since(cfg, events, s);
       IsFor(events[k], cfg, s) && IsStart(events[k].frame.data) && m == Alone(cfg, s, events, k)
  }

  ghost predicate SessionsAlone(cfg: Config, events: seq<Event>, sessions: map<nat, Session>) {
    forall s :: s in sessions ==> SessionAlone(cfg, events, s, sessions[s])
  }

  /** Another session stays as it was, or is gone. */
  lemma OthersStay(m: Rx, cfg: Config, e: Event, s: nat)
    requires |m.queues| == LEVELS && !IsFor(e, cfg, s) && s in Apply(m, cfg, e).sessions
    ensures s in m.sessions && Apply(m, cfg, e).sessions[s] == m.sessions[s]
  {
  }

  /** The session of the frame's source takes the frame, after starting with a start of transfer. */
  lemma OwnTakes(m: Rx, cfg: Config, f: RxFrame, s: nat)
    requires |m.queues| == LEVELS && IsFor(Push(f), cfg, s) && s in PushFrame(m, cfg, f).sessions
    ensures s !in m.sessions ==> IsStart(f.data)
    ensures var before := if s in m.sessions then m.sessions[s] else FRESH;
      PushFrame(m, cfg, f).sessions[s] == Receive(before, cfg.timeout, ArrivalOf(f)).0
  {
  }

  lemma SessionStep(cfg: Config, events: seq<Event>, e: Event, s: nat)
    requires SessionsAlone(cfg, events, Run(cfg, events).sessions)
    requires s in Run(cfg, events + [e]).sessions
    ensures SessionAlone(cfg, events + [e], s, Run(cfg, events + [e]).sessions[s])
  {
    var m, more, n := Run(cfg, events), events + [e], |events|;
    assert more[..n] == events && more[n] == e;
    if IsFor(e, cfg, s) {
      OwnTakes(m, cfg, e.frame, s);
    } else {
      OthersStay(m, cfg, e, s);
    }
    if s in m.sessions {
      assert SessionAlone(cfg, events, s, m.sessions[s]);
      assert Since(cfg, more, s) == Since(cfg, events, s);
      assert more[Since(cfg, events, s)] == events[Since(cfg, events, s)];
    } else {
      assert Since(cfg, more, s) == n;
    }
  }

  lemma {:induction false} RunSessionsAlone(cfg: Config, events: seq<Event>)
    ensures SessionsAlone(cfg, events, Run(cfg, events).sessions)
  {
    if events != [] {
      var n := |events| - 1;
      assert events[..n] + [events[n]] == events;
      RunSessionsAlone(cfg, events[..n]);
      forall s | s in Run(cfg, events).sessions ensures SessionAlone(cfg, events, s, Run(cfg, events).sessions[s]) {
        SessionStep(cfg, events[..n], events[n], s);
      }
    }
  }

  /** The receiver that takes a frame of source `s` has heard that source alone. */
  lemma ReceiverIsAlone(cfg: Config, events: seq<Event>, f: RxFrame, s: nat)
    requires IsFor(Push(f), cfg, s) && s in Prepare(Run(cfg, events), cfg, s, f.data, f.timestamp).sessions
    ensures var more := events + [Push(f)];
      var k := Since(cfg, more, s);
      && IsFor(more[k], cfg, s) && IsStart(more[k].frame.data)
      && Prepare(Run(cfg, events), cfg, s, f.data, f.timestamp).sessions[s] == Alone(cfg, s, events, k)
  {
    var m, more, n := Run(cfg, events), events + [Push(f)], |events|;
    assert more[..n] == events;
    RunSessionsAlone(cfg, events);
    if s in m.sessions {
      assert SessionAlone(cfg, events, s, m.sessions[s]);
      assert Since(cfg, more, s) == Since(cfg, events, s);
    } else {
      assert Since(cfg, more, s) == n;
    }
  }

  /** The transfer a frame completes is that of its own source alone. */
  lemma CompletedIsAccounted(cfg: Config, events: seq<Event>, f: RxFrame)
    ensures match Completed(Run(cfg, events), cfg, f)
      case None => true
      case Some((p, x)) => Accounted(cfg, events + [Push(f)], |events|, p, x)
  {
    var more, n := events + [Push(f)], |events|;
    assert more[..n] == events && more[n] == Push(f) && more[..n + 1] == more;
    if f.spec == cfg.spec && f.source.Some? {
      var s := f.source.value;
      if s in Prepare(Run(cfg, events), cfg, s, f.data, f.timestamp).sessions {
        ReceiverIsAlone(cfg, events, f, s);
      }
    }
  }

  // ---------------------------------------------------------------- which frame each queued transfer came from

  /** A waiting transfer and the frame that completed it. */
  datatype Tagged = Tagged(item: Item, frame: nat)

  datatype Popped = Popped(priority: Priority, item: Item, frame: nat)

  datatype Ledger = Ledger(queues: seq<seq<Tagged>>, popped: seq<Popped>)

  /** The queues of the run with the frames the transfers came from, and the transfers popped so far. */
  function LedgerOf(cfg: Config, events: seq<Event>): (r: Ledger)
    ensures |r.queues| == LEVELS
  {
    if events == [] then Ledger([[], [], [], [], [], [], [], []], [])
    else
      var n := |events| - 1;
      Enter(LedgerOf(cfg, events[..n]), cfg, Run(cfg, events[..n]), events[n], n)
  }

  function Enter(l: Ledger, cfg: Config, m: Rx, e: Event, n: nat): (r: Ledger)
    requires |l.queues| == LEVELS
    ensures |r.queues| == LEVELS
  {
    match e
    case Push(f) => l.(queues := OfferDone(l.queues, TaggedDone(Completed(m, cfg, f), n), cfg.transferSlots))
    case Pop(mask) =>
      match First(NonEmpty(l.queues) * mask)
      case None => l
      case Some(p) =>
        var t := l.queues[p][0];
        Ledger(l.queues[p := l.queues[p][1..]], l.popped + [Popped(p, t.item, t.frame)])
  }

  function TaggedDone(done: Option<(Priority, Item)>, n: nat): Option<(Priority, Tagged)> {
    match done
    case None => None
    case Some((p, x)) => Some((p, Tagged(x, n)))
  }

  /** What the reader gets over a run. */
  function Pops(cfg: Config, events: seq<Event>): seq<(Priority, Item)> {
    if events == [] then []
    else
      var n := |events| - 1;
      Pops(cfg, events[..n]) + PopOf(Run(cfg, events[..n]), events[n])
  }

  function PopOf(m: Rx, e: Event): seq<(Priority, Item)>
    requires |m.queues| == LEVELS
  {
    match e
    case Push(_) => []
    case Pop(mask) => var x := TryPop(m, mask).1; if x.Some? then [x.value] else []
  }

  function Items(q: seq<Tagged>): (r: seq<Item>)
    ensures |r| == |q|
  {
    seq(|q|, i requires 0 <= i < |q| => q[i].item)
  }

  function AllItems(queues: seq<seq<Tagged>>): (r: seq<seq<Item>>)
    ensures |r| == |queues|
  {
    seq(|queues|, p requires 0 <= p < |queues| => Items(queues[p]))
  }

  function PoppedItems(popped: seq<Popped>): seq<(Priority, Item)> {
    seq(|popped|, i requires 0 <= i < |popped| => (popped[i].priority, popped[i].item))
  }

  lemma {:induction false} ItemsCount(queues: seq<seq<Tagged>>, n: nat)
    requires n <= |queues|
    ensures CountUpTo(AllItems(queues), n) == CountUpTo(queues, n)
  {
    if n > 0 {
      ItemsCount(queues, n - 1);
    }
  }

  lemma ItemsNonEmpty(queues: seq<seq<Tagged>>)
    requires |queues| == LEVELS
    ensures NonEmpty(AllItems(queues)) == NonEmpty(queues)
  {
    assert forall p: Priority :: AllItems(queues)[p] == [] <==> queues[p] == [];
  }

  /** Offering forgets no tag: the queues with and without tags go the same way. */
  lemma OfferItems(queues: seq<seq<Tagged>>, p: Priority, t: Tagged, slots: nat)
    requires |queues| == LEVELS
    ensures AllItems(Offer(queues, p, t, slots)) == Offer(AllItems(queues), p, t.item, slots)
  {
    ItemsCount(queues, LEVELS);
    ItemsNonEmpty(queues);
    if Admits(queues, p, slots) {
      var room := MakeRoom(queues, slots);
      RoomItems(queues, slots);
      assert Items(room[p] + [t]) == Items(room[p]) + [t.item];
      assert AllItems(room[p := room[p] + [t]]) == AllItems(room)[p := Items(room[p] + [t])];
    }
  }

  lemma RoomItems(queues: seq<seq<Tagged>>, slots: nat)
    requires |queues| == LEVELS
    ensures AllItems(MakeRoom(queues, slots)) == MakeRoom(AllItems(queues), slots)
  {
    ItemsCount(queues, LEVELS);
    ItemsNonEmpty(queues);
    if !(Count(queues) < slots || Worst(queues) == None) {
      var w := Worst(queues).value;
      assert Items(queues[w][1..]) == Items(queues[w])[1..];
      assert AllItems(queues[w := queues[w][1..]]) == AllItems(queues)[w := Items(queues[w][1..])];
    }
  }

  /** The ledger's queues are those of the buffer, and what it notes as popped is what the reader got. */
  lemma {:induction false} LedgerIsRun(cfg: Config, events: seq<Event>)
    ensures AllItems(LedgerOf(cfg, events).queues) == Run(cfg, events).queues
    ensures PoppedItems(LedgerOf(cfg, events).popped) == Pops(cfg, events)
  {
    if events != [] {
      var n := |events| - 1;
      LedgerIsRun(cfg, events[..n]);
      EnterIsApply(LedgerOf(cfg, events[..n]), cfg, Run(cfg, events[..n]), events[n], n);
    }
  }

  lemma EnterIsApply(l: Ledger, cfg: Config, m: Rx, e: Event, n: nat)
    requires |l.queues| == LEVELS && |m.queues| == LEVELS && AllItems(l.queues) == m.queues
    ensures AllItems(Enter(l, cfg, m, e, n).queues) == Apply(m, cfg, e).queues
    ensures PoppedItems(Enter(l, cfg, m, e, n).popped) == PoppedItems(l.popped) + PopOf(m, e)
  {
    match e
    case Push(f) =>
      PushFrameOffers(m, cfg, f);
      match Completed(m, cfg, f) {
        case None =>
        case Some((p, x)) => OfferItems(l.queues, p, Tagged(x, n), cfg.transferSlots);
      }
    case Pop(mask) =>
      ItemsNonEmpty(l.queues);
      match First(NonEmpty(l.queues) * mask) {
        case None =>
        case Some(p) =>
          assert Items(l.queues[p])[1..] == Items(l.queues[p][1..]);
          assert AllItems(l.queues[p := l.queues[p][1..]]) == AllItems(l.queues)[p := Items(l.queues[p][1..])];
      }
  }

  // ---------------------------------------------------------------- each frame accounts for one transfer

  ghost predicate QueuesAccounted(cfg: Config, events: seq<Event>, queues: seq<seq<Tagged>>) {
    forall p, i :: Waits(queues, p, i) ==> Accounted(cfg, events, queues[p][i].frame, p, queues[p][i].item)
  }

  ghost predicate PopsAccounted(cfg: Config, events: seq<Event>, popped: seq<Popped>) {
    forall i :: 0 <= i < |popped| ==> Accounted(cfg, events, popped[i].frame, popped[i].priority, popped[i].item)
  }

  ghost predicate Earlier(queues: seq<seq<Tagged>>, p: int, i: int, j: int) {
    Waits(queues, p, i) && Waits(queues, p, j) && i < j ==> queues[p][i].frame < queues[p][j].frame
  }

  /** At each priority the transfers waiting were completed one after the other. */
  ghost predicate QueuesInOrder(queues: seq<seq<Tagged>>) {
    forall p, i, j :: Earlier(queues, p, i, j)
  }

  ghost predicate PopsInOrder(popped: seq<Popped>) {
    forall i, j :: 0 <= i < j < |popped| && popped[i].priority == popped[j].priority ==>
      popped[i].frame < popped[j].frame
  }

  /** Popped transfers were completed before those that wait at their priority. */
  ghost predicate PopsFirst(popped: seq<Popped>, queues: seq<seq<Tagged>>) {
    forall i, k :: 0 <= i < |popped| && Waits(queues, popped[i].priority, k) ==>
      popped[i].frame < queues[popped[i].priority][k].frame
  }

  ghost predicate InOrder(l: Ledger, n: nat) {
    && QueuesInOrder(l.queues) && PopsInOrder(l.popped) && PopsFirst(l.popped, l.queues)
    && (forall p, i :: Waits(l.queues, p, i) ==> l.queues[p][i].frame < n)
    && (forall i :: 0 <= i < |l.popped| ==> l.popped[i].frame < n)
  }

  /** How many transfers are displaced from the front of queue `q`. */
  function Displaced(queues: seq<seq<Tagged>>, p: Priority, slots: nat, q: nat): nat
    requires |queues| == LEVELS
  {
    if Admits(queues, p, slots) && Count(queues) >= slots && Worst(queues) == Some(q) then 1 else 0
  }

  /** After an offer a queue holds what it held, less the displaced, and the transfer offered at its end. */
  lemma OfferIs(queues: seq<seq<Tagged>>, p: Priority, t: Tagged, slots: nat, q: nat, i: nat)
    requires |queues| == LEVELS && Waits(Offer(queues, p, t, slots), q, i)
    ensures var r, k := Offer(queues, p, t, slots), i + Displaced(queues, p, slots, q);
      if Waits(queues, q, k) then r[q][i] == queues[q][k] else q == p && k == |queues[q]| && r[q][i] == t
  {
  }

  lemma OfferInOrder(l: Ledger, p: Priority, t: Tagged, slots: nat, n: nat)
    requires |l.queues| == LEVELS && InOrder(l, n) && t.frame == n
    ensures InOrder(l.(queues := Offer(l.queues, p, t, slots)), n + 1)
  {
    var r: seq<seq<Tagged>> := Offer(l.queues, p, t, slots);
    forall q, i, j ensures Earlier(r, q, i, j) {
      if Waits(r, q, i) && Waits(r, q, j) && i < j {
        OfferIs(l.queues, p, t, slots, q, i);
        OfferIs(l.queues, p, t, slots, q, j);
        assert Earlier(l.queues, q, i + Displaced(l.queues, p, slots, q), j + Displaced(l.queues, p, slots, q));
      }
    }
    forall q, i | Waits(r, q, i) ensures r[q][i].frame < n + 1 {
      OfferIs(l.queues, p, t, slots, q, i);
    }
    forall i, k | 0 <= i < |l.popped| && Waits(r, l.popped[i].priority, k)
      ensures l.popped[i].frame < r[l.popped[i].priority][k].frame
    {
      OfferIs(l.queues, p, t, slots, l.popped[i].priority, k);
    }
  }

  lemma PopInOrder(l: Ledger, p: Priority, n: nat)
    requires |l.queues| == LEVELS && InOrder(l, n) && l.queues[p] != []
    ensures InOrder(Ledger(l.queues[p := l.queues[p][1..]],
                           l.popped + [Popped(p, l.queues[p][0].item, l.queues[p][0].frame)]), n)
  {
    var q := l.queues[p];
    var rest: seq<seq<Tagged>> := l.queues[p := q[1..]];
    var popped := l.popped + [Popped(p, q[0].item, q[0].frame)];
    assert Waits(l.queues, p, 0);
    forall c, i | Waits(rest, c, i)
      ensures var k := if c == p then i + 1 else i; Waits(l.queues, c, k) && rest[c][i] == l.queues[c][k]
    {
    }
    forall c, i, j ensures Earlier(rest, c, i, j) {
      assert if c == p then Earlier(l.queues, c, i + 1, j + 1) else Earlier(l.queues, c, i, j);
    }
    forall i, k | 0 <= i < |popped| && Waits(rest, popped[i].priority, k)
      ensures popped[i].frame < rest[popped[i].priority][k].frame
    {
      assert Earlier(l.queues, p, 0, k + 1);
    }
  }

  lemma EnterInOrder(l: Ledger, cfg: Config, m: Rx, e: Event, n: nat)
    requires |l.queues| == LEVELS && InOrder(l, n)
    ensures InOrder(Enter(l, cfg, m, e, n), n + 1)
  {
    match e
    case Push(f) =>
      match Completed(m, cfg, f) {
        case None =>
        case Some((p, x)) => OfferInOrder(l, p, Tagged(x, n), cfg.transferSlots, n);
      }
    case Pop(mask) =>
      match First(NonEmpty(l.queues) * mask) {
        case None =>
        case Some(p) => PopInOrder(l, p, n);
      }
  }

  lemma EnterAccounted(cfg: Config, events: seq<Event>, e: Event)
    requires var l := LedgerOf(cfg, events);
      QueuesAccounted(cfg, events, l.queues) && PopsAccounted(cfg, events, l.popped)
    ensures var r := Enter(LedgerOf(cfg, events), cfg, Run(cfg, events), e, |events|);
      QueuesAccounted(cfg, events + [e], r.queues) && PopsAccounted(cfg, events + [e], r.popped)
  {
    var l, more := LedgerOf(cfg, events), events + [e];
    forall p, i | Waits(l.queues, p, i) ensures Accounted(cfg, more, l.queues[p][i].frame, p, l.queues[p][i].item) {
      AccountedLater(cfg, events, e, l.queues[p][i].frame, p, l.queues[p][i].item);
    }
    forall i | 0 <= i < |l.popped|
      ensures Accounted(cfg, more, l.popped[i].frame, l.popped[i].priority, l.popped[i].item)
    {
      AccountedLater(cfg, events, e, l.popped[i].frame, l.popped[i].priority, l.popped[i].item);
    }
    match e
    case Push(f) =>
      CompletedIsAccounted(cfg, events, f);
      match Completed(Run(cfg, events), cfg, f) {
        case None =>
        case Some((p, x)) => OfferAccounted(cfg, more, l.queues, p, Tagged(x, |events|));
      }
    case Pop(mask) =>
      match First(NonEmpty(l.queues) * mask) {
        case None =>
        case Some(p) => PopAccounted(cfg, more, l, p);
      }
  }

  lemma OfferAccounted(cfg: Config, events: seq<Event>, queues: seq<seq<Tagged>>, p: Priority, t: Tagged)
    requires |queues| == LEVELS && QueuesAccounted(cfg, events, queues) && Accounted(cfg, events, t.frame, p, t.item)
    ensures QueuesAccounted(cfg, events, Offer(queues, p, t, cfg.transferSlots))
  {
    var r: seq<seq<Tagged>> := Offer(queues, p, t, cfg.transferSlots);
    forall q, i | Waits(r, q, i) ensures Accounted(cfg, events, r[q][i].frame, q, r[q][i].item) {
      OfferIs(queues, p, t, cfg.transferSlots, q, i);
    }
  }

  lemma PopAccounted(cfg: Config, events: seq<Event>, l: Ledger, p: Priority)
    requires |l.queues| == LEVELS && l.queues[p] != []
    requires QueuesAccounted(cfg, events, l.queues) && PopsAccounted(cfg, events, l.popped)
    ensures QueuesAccounted(cfg, events, l.queues[p := l.queues[p][1..]])
    ensures PopsAccounted(cfg, events, l.popped + [Popped(p, l.queues[p][0].item, l.queues[p][0].frame)])
  {
    assert Waits(l.queues, p, 0);
    var rest: seq<seq<Tagged>> := l.queues[p := l.queues[p][1..]];
    forall c, i | Waits(rest, c, i) ensures Accounted(cfg, events, rest[c][i].frame, c, rest[c][i].item) {
      assert Waits(l.queues, c, if c == p then i + 1 else i);
    }
  }

  // ---------------------------------------------------------------- whole runs

  lemma {:induction false} RunAccounted(cfg: Config, events: seq<Event>)
    ensures var l := LedgerOf(cfg, events);
      && QueuesAccounted(cfg, events, l.queues) && PopsAccounted(cfg, events, l.popped) && InOrder(l, |events|)
  {
    if events != [] {
      var n := |events| - 1;
      assert events[..n] + [events[n]] == events;
      RunAccounted(cfg, events[..n]);
      EnterAccounted(cfg, events[..n], events[n]);
      EnterInOrder(LedgerOf(cfg, events[..n]), cfg, Run(cfg, events[..n]), events[n], n);
    }
  }

  /** Over every run of interleaved frames and pops, what the reader gets are transfers that the frames of their
      source alone produce since the session of that source started, each completed by a frame of its own; those
      of one priority come in the order of the frames that completed them. */
  lemma PoppedAsAlone(cfg: Config, events: seq<Event>)
    ensures var popped := LedgerOf(cfg, events).popped;
      && PoppedItems(popped) == Pops(cfg, events)
      && (forall i :: 0 <= i < |popped| ==> Accounted(cfg, events, popped[i].frame, popped[i].priority, popped[i].item))
      && (forall i, j :: 0 <= i < j < |popped| ==> popped[i].frame != popped[j].frame)
      && (forall i, j :: 0 <= i < j < |popped| && popped[i].priority == popped[j].priority ==>
            popped[i].frame < popped[j].frame)
  {
    LedgerIsRun(cfg, events);
    RunAccounted(cfg, events);
    var popped := LedgerOf(cfg, events).popped;
    forall i | 0 <= i < |popped|
      ensures popped[i].frame < |events| && events[popped[i].frame].Push?
              && events[popped[i].frame].frame.priority == popped[i].priority
    {
      assert Accounted(cfg, events, popped[i].frame, popped[i].priority, popped[i].item);
    }
  }

  // ---------------------------------------------------------------- the slice being read

  /** No frame pushed after a pop changes the slice the pop returned: whatever buffers represent the states
      before and after, the readout slot holds the popped bytes. */
  lemma {:induction false} ReadoutIsStable(w: View, m: Rx, cfg: Config, mask: set<Priority>, frames: seq<RxFrame>)
    requires |m.queues| == LEVELS && TryPop(m, mask).1.Some?
    requires Represents(w, PushAll(TryPop(m, mask).0, cfg, frames), cfg)
    ensures var bytes := TryPop(m, mask).1.value.1.bytes;
      w.readoutIdx < |w.buffers| && |bytes| <= |w.buffers[w.readoutIdx]|
      && w.buffers[w.readoutIdx][..|bytes|] == bytes
  {
    PushesKeepReadout(TryPop(m, mask).0, cfg, frames);
  }

  lemma {:induction false} PushesKeepReadout(m: Rx, cfg: Config, frames: seq<RxFrame>)
    requires |m.queues| == LEVELS
    ensures PushAll(m, cfg, frames).readout == m.readout
  {
    if frames != [] {
      PushesKeepReadout(m, cfg, frames[..|frames| - 1]);
    }
  }
}
