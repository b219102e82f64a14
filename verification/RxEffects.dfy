/** What one frame or one read does to the receive buffer, told from the bytes of the frame. */
module RxEffects {
  import opened Wrappers
  import opened Time
  import opened Format
  import opened Priorities
  import opened Reassembly
  import opened PriorityQueues
  import opened RxModel

  /** The first byte of a tail says that a transfer starts here. */
  predicate Starts(data: seq<byte>) {
    data != [] && DecodeTail(data[|data| - 1]).sot
  }

  /** What fits a buffer of the bytes of a transfer. */
  ghost predicate Fitting(bytes: seq<byte>, all: seq<byte>, capacity: nat) {
    |bytes| == (if |all| <= capacity then |all| else capacity) && bytes == all[..|bytes|]
  }

  /** A frame of another data specifier, or of an unknown source that starts no transfer, changes nothing. */
  lemma IgnoresStrangers(m: Rx, cfg: Config, f: RxFrame)
    requires |m.queues| == LEVELS
    requires f.spec != cfg.spec || (f.source.Some? && f.source.value !in m.sessions && !Starts(f.data))
    ensures PushFrame(m, cfg, f) == m && Completed(m, cfg, f) == None
  {
  }

  /** A frame of a named source is heard by the session of that source, or by a new one if it starts a transfer and
      the source gets a slot; what the session delivers is completed with the marks of the frame. */
  lemma NamedCompletes(m: Rx, cfg: Config, f: RxFrame, node: NodeId)
    requires |m.queues| == LEVELS && f.spec == cfg.spec && f.source == Some(node)
    ensures var r := PushFrame(m, cfg, f);
      if node in m.sessions || (Starts(f.data) && node in r.sessions) then
        var before := if node in m.sessions then m.sessions[node] else Session(Idle, None, None, []);
        var (s, d) := Receive(before, cfg.timeout, Arrival(f.priority, f.data, f.timestamp));
        && node in r.sessions && r.sessions[node] == s
        && match Completed(m, cfg, f)
           case None => d == None
           case Some((p, x)) =>
             && d.Some? && p == f.priority
             && x == Item(Some(node), d.value.id, d.value.timestamp, f.loopBack, x.bytes)
             && Fitting(x.bytes, d.value.bytes, cfg.capacity)
      else
        node !in r.sessions && Completed(m, cfg, f) == None
  {
  }

  /** An anonymous frame completes a transfer exactly when it starts and ends one with its toggle bit set. */
  lemma AnonymousCompletes(m: Rx, cfg: Config, f: RxFrame)
    requires |m.queues| == LEVELS && f.spec == cfg.spec && f.source == None
    ensures PushFrame(m, cfg, f).sessions == m.sessions && PushFrame(m, cfg, f).recency == m.recency
    ensures match Completed(m, cfg, f)
      case None =>
        f.data == []
        || var t := DecodeTail(f.data[|f.data| - 1]); !(t.sot && t.eot && t.toggle)
      case Some((p, x)) =>
        && f.data != [] && p == f.priority
        && var t := DecodeTail(f.data[|f.data| - 1]);
           && t.sot && t.eot && t.toggle
           && x == Item(None, t.transferId, f.timestamp, f.loopBack, x.bytes)
           && Fitting(x.bytes, f.data[..|f.data| - 1], cfg.capacity)
  {
  }

  /** A single-frame transfer of a named source is queued, whole as far as it fits, when there is a session for it, or
      a session slot not in use, and a transfer slot not in use, unless it repeats the transfer just received. */
  lemma SingleFrameIsQueued(m: Rx, cfg: Config, f: RxFrame, node: NodeId, id: TransferId, payload: seq<byte>)
    returns (x: Item)
    requires Sane(m, cfg) && f.spec == cfg.spec && f.source == Some(node) && Count(m.queues) < cfg.transferSlots
    requires f.data == Sealed(payload, Tail(true, true, true, id))
    requires node in m.sessions || |m.sessions| < cfg.sessionSlots
    requires node in m.sessions && m.sessions[node].state == Assembled && m.sessions[node].transferId == Some(id) ==>
      f.timestamp > SaturatingAdd(m.sessions[node].sofTimestamp.value, cfg.timeout)
    ensures x == Item(Some(node), id, f.timestamp, f.loopBack, x.bytes) && Fitting(x.bytes, payload, cfg.capacity)
    ensures PushFrame(m, cfg, f).queues == m.queues[f.priority := m.queues[f.priority] + [x]]
  {
    var before := if node in m.sessions then m.sessions[node] else FRESH;
    StartHeard(before, cfg.timeout, f.priority, true, id, payload, f.timestamp);
    DecodeEncodeTail(Tail(true, true, true, id));
    PushFrameOffers(m, cfg, f);
    x := Completed(m, cfg, f).value.1;
  }

  /** A read gets the oldest transfer of the most urgent priority in the mask at which one waits, and leaves all
      others; it gets none exactly when none waits at a priority in the mask. */
  lemma PopsMostUrgent(m: Rx, mask: set<Priority>)
    requires |m.queues| == LEVELS
    ensures var (r, out) := TryPop(m, mask);
      && r.sessions == m.sessions && r.recency == m.recency
      && match out
         case None => r == m && forall p: Priority :: p in mask ==> m.queues[p] == []
         case Some((p, x)) =>
           && p in mask && m.queues[p] != [] && x == m.queues[p][0] && r.readout == x.bytes
           && r.queues == m.queues[p := m.queues[p][1..]]
           && forall q: Priority :: q in mask && m.queues[q] != [] ==> p <= q
  {
    var waiting := NonEmpty(m.queues) * mask;
    assert forall p: Priority :: p in mask && m.queues[p] != [] ==> p in waiting;
  }
}
