/** The sessions of a receive buffer: a receiver and a buffer index per source, and the pool of buffers they write. */
module SessionTables {
  import opened Wrappers
  import opened Time
  import opened Format
  import opened Priorities
  import opened Reassembly
  import opened ClassQueues
  import opened IndexQueues
  import opened RxModel

  datatype Slot = Slot(gather: GatherState, bufferIdx: u8)

  /** The slots, who started least recently, the first buffer no session ever had, and what the buffers hold. */
  datatype Table = Table(slots: map<nat, Slot>, recency: seq<nat>, base: u8, bytes: seq<seq<byte>>)

  /** A new session on buffer `idx`, first in the recency queue. */
  function Inserted(t: Table, source: nat, idx: u8): Table {
    t.(slots := t.slots[source := Slot(Packed(FRESH), idx)], recency := [source] + Remove(t.recency, source))
  }

  /** The least recent session is dropped. */
  function Dropped(t: Table): Table
    requires t.recency != []
  {
    t.(slots := t.slots - {t.recency[0]}, recency := t.recency[1..])
  }

  /** A new source takes the next unused buffer, or that of the least recent session, `oldest`, if it has timed out. */
  function SlotStarted(t: Table, slots: nat, timeout: Duration, source: nat, now: Instant, oldest: Session): Table
    requires slots <= MAX_NODE + 1
    requires t.base >= slots ==> t.recency != [] && t.recency[0] in t.slots
  {
    if t.base < slots then Inserted(t.(base := t.base + 1), source, t.base)
    else if Expired(oldest, timeout, now) then Inserted(Dropped(t), source, t.slots[t.recency[0]].bufferIdx)
    else t
  }

  function SlotSet(t: Table, source: nat, slot: Slot): Table {
    t.(slots := t.slots[source := slot])
  }

  ghost predicate Distinguished(buffers: seq<array<byte>>) {
    forall i, j :: 0 <= i < j < |buffers| ==> buffers[i] != buffers[j]
  }

  ghost predicate Pooled(buffers: seq<array<byte>>, pool: set<object>) {
    forall i :: 0 <= i < |buffers| ==> buffers[i] in pool
  }

  /** `bytes` is what the buffers hold. */
  ghost predicate Mirrors(buffers: seq<array<byte>>, pool: set<object>, bytes: seq<seq<byte>>)
    requires Pooled(buffers, pool)
    reads pool
  {
    && |bytes| == |buffers|
    && forall i :: 0 <= i < |buffers| ==> bytes[i] == buffers[i][..]
  }

  class SessionTable {
    const slots: nat
    const timeout: Duration
    const buffers: seq<array<byte>>
    ghost const pool: set<object>
    const sessions: IndexQueue<Slot>
    var sessionBufferBase: u8
    ghost var bytes: seq<seq<byte>>

    ghost function Owned(): set<object>
    {
      {this} + sessions.Owned() + pool
    }

    ghost predicate Separate() {
      && this !in sessions.Owned() && this !in pool && sessions.Owned() !! pool
      && Pooled(buffers, pool) && Distinguished(buffers)
      && sessions.keys.Length == slots <= MAX_NODE + 1 && sessions.index.Length == MAX_NODE + 1
    }

    ghost predicate Valid()
      reads Owned()
    {
      Separate() && sessions.Valid() && Mirrors(buffers, pool, bytes)
    }

    ghost function Held(): Table
      requires Valid()
      reads Owned()
    {
      Table(sessions.contents, sessions.recency, sessionBufferBase, bytes)
    }

    constructor (slots: nat, timeout: Duration, buffers: seq<array<byte>>)
      requires slots <= MAX_NODE + 1 && Distinguished(buffers)
      ensures Valid() && fresh(sessions.Owned())
      ensures this.slots == slots && this.timeout == timeout && this.buffers == buffers
      ensures pool == set i | 0 <= i < |buffers| :: buffers[i]
      ensures Held() == Table(map[], [], 0, Held().bytes) && |Held().bytes| == |buffers|
      ensures forall i :: 0 <= i < |buffers| ==> |Held().bytes[i]| == buffers[i].Length
    {
      this.slots, this.timeout, this.buffers := slots, timeout, buffers;
      pool := set i | 0 <= i < |buffers| :: buffers[i];
      sessions := new IndexQueue(MAX_NODE, slots);
      sessionBufferBase := 0;
      bytes := [];
      new;
      bytes := seq(|buffers|, i requires 0 <= i < |buffers| reads pool => buffers[i][..]);
    }

    function Get(source: NodeId): (r: Option<Slot>)
      requires Valid()
      reads Owned()
      ensures r == if source in Held().slots then Some(Held().slots[source]) else None
    {
      sessions.Get(source)
    }

    /** The first `n` bytes of a buffer. */
    function Slice(idx: u8, n: nat): (r: seq<byte>)
      requires Valid() && idx < |Held().bytes| && n <= |Held().bytes[idx]|
      reads Owned()
      ensures r == Held().bytes[idx][..n]
    {
      buffers[idx][..n]
    }

    function BufferLength(idx: u8): (r: nat)
      requires Valid() && idx < |Held().bytes|
      reads Owned()
      ensures r == |Held().bytes[idx]|
    {
      assert bytes[idx] == buffers[idx][..];
      buffers[idx].Length
    }

    method AllocateSessionBuffer() returns (r: Option<u8>)
      requires Valid() && Held().base <= slots
      modifies this`sessionBufferBase
      ensures Valid()
      ensures r == if old(Held()).base < slots then Some(old(Held()).base) else None
      ensures Held() == if r.Some? then old(Held()).(base := old(Held()).base + 1) else old(Held())
    {
      if sessionBufferBase < slots {
        r := Some(sessionBufferBase);
        sessionBufferBase := sessionBufferBase + 1;
      } else {
        r := None;
      }
    }

    /** A session with an empty reassembler on buffer `idx`, first in the recency queue. */
    method InsertSession(source: NodeId, idx: u8)
      requires Valid() && source !in Held().slots && |Held().slots| < slots
      modifies sessions.Owned()
      ensures Valid() && Held() == Inserted(old(Held()), source, idx)
    {
      var ok, displaced := sessions.Insert(source, Slot(GatherState(Idle, None, None, 0, INIT_VALUE), idx));
      ok := sessions.EnqueueFront(source);
    }

    /** The buffer of the least recent session, which is dropped, if that session has timed out. */
    method ReuseExpired(timestamp: Instant, ghost oldest: Session) returns (r: Option<u8>)
      requires Valid() && Held().recency != [] && Held().recency[0] in Held().slots
      requires Remove(Held().recency, Held().recency[0]) == Held().recency[1..]
      requires WellFormed(oldest) && Held().slots[Held().recency[0]].gather == Packed(oldest)
      modifies sessions.Owned()
      ensures Valid()
      ensures r == if Expired(oldest, timeout, timestamp) then Some(old(Held()).slots[old(Held()).recency[0]].bufferIdx)
                   else None
      ensures Held() == if r.Some? then Dropped(old(Held())) else old(Held())
    {
      var source := sessions.Front();
      var slot := sessions.Get(source.value);
      var last := LastTimestampOf(slot.value.gather);
      if last.None? || SaturatingAdd(last.value, timeout) < timestamp {
        var removed := sessions.RemoveKey(source.value);
        return Some(removed.value.bufferIdx);
      }
      r := None;
    }

    /** A new source asks for a session; `oldest` is the least recent one. */
    method StartSlot(source: NodeId, timestamp: Instant, ghost oldest: Session)
      requires Valid() && source !in Held().slots && source !in Held().recency
      requires Held().base == |Held().slots| <= slots
      requires Held().base == slots ==>
        && Held().recency != [] && Held().recency[0] in Held().slots
        && Remove(Held().recency, Held().recency[0]) == Held().recency[1..]
        && WellFormed(oldest) && Held().slots[Held().recency[0]].gather == Packed(oldest)
      modifies this`sessionBufferBase, sessions.Owned()
      ensures Valid() && Held() == SlotStarted(old(Held()), slots, timeout, source, timestamp, oldest)
    {
      var bufferIdx := AllocateSessionBuffer();
      if bufferIdx == None {
        bufferIdx := ReuseExpired(timestamp, oldest);
      }
      if bufferIdx != None {
        InsertSession(source, bufferIdx.value);
      }
    }

    /** A stored receiver takes a frame. */
    method GatherFrame(g: GatherState, idx: u8, priority: Priority, data: seq<byte>, timestamp: Instant,
                       ghost session: Session)
      returns (r: Option<Transfer>, g': GatherState)
      requires Pooled(buffers, pool) && Distinguished(buffers) && idx < |buffers| && Mirrors(buffers, pool, bytes)
      requires |data| <= MAX_LENGTH && WellFormed(session) && g == Packed(session)
      requires Stores(bytes[idx], session.content)
      modifies this`bytes, buffers[idx]
      ensures Mirrors(buffers, pool, bytes)
      ensures bytes == old(bytes)[idx := bytes[idx]] && |bytes[idx]| == old(|bytes[idx]|)
      ensures var (session', d) := Receive(session, timeout, Arrival(priority, data, timestamp));
        && WellFormed(session') && g' == Packed(session')
        && Stores(bytes[idx], session'.content) && Delivers(r, d, bytes[idx])
    {
      var gather := new Gather.Resume(g, session);
      r := gather.PushFrame(timeout, buffers[idx], priority, data, timestamp);
      g' := gather.Save();
      bytes := bytes[idx := buffers[idx][..]];
    }

    /** The session's receiver takes a frame and writes the session's buffer. */
    method FeedSlot(source: NodeId, priority: Priority, data: seq<byte>, timestamp: Instant, ghost session: Session)
      returns (r: Option<Transfer>)
      requires Valid() && source in Held().slots && |data| <= MAX_LENGTH
      requires Held().slots[source].bufferIdx < |Held().bytes|
      requires WellFormed(session) && Held().slots[source].gather == Packed(session)
      requires Stores(Held().bytes[Held().slots[source].bufferIdx], session.content)
      modifies Owned()
      ensures Valid() && |Held().bytes| == |old(Held()).bytes|
      ensures var (session', d) := Receive(session, timeout, Arrival(priority, data, timestamp));
        var t, idx := old(Held()), old(Held()).slots[source].bufferIdx;
        && WellFormed(session') && |Held().bytes[idx]| == |t.bytes[idx]|
        && Held() == SlotSet(t, source, Slot(Packed(session'), idx)).(bytes := t.bytes[idx := Held().bytes[idx]])
        && Stores(Held().bytes[idx], session'.content) && Delivers(r, d, Held().bytes[idx])
    {
      var slot := sessions.Get(source);
      var idx, g := slot.value.bufferIdx, slot.value.gather;
      r, g := GatherFrame(g, idx, priority, data, timestamp, session);
      sessions.Set(source, Slot(g, idx));
    }

    /** The session turns to another buffer. */
    method PointTo(source: NodeId, idx: u8)
      requires Valid() && source in Held().slots
      modifies sessions.Owned()
      ensures Valid() && Held() == SlotSet(old(Held()), source, old(Held()).slots[source].(bufferIdx := idx))
    {
      var slot := sessions.Get(source);
      sessions.Set(source, slot.value.(bufferIdx := idx));
    }

    /** A source whose session just started a transfer becomes the most recent. */
    method TouchSlot(source: NodeId, timestamp: Instant, ghost session: Session)
      requires Valid() && source in Held().slots && WellFormed(session)
      requires Held().slots[source].gather == Packed(session)
      modifies sessions.Owned()
      ensures Valid() && Held() == old(Held()).(recency := Touch(old(Held()).recency, source, session, timestamp))
    {
      var slot := sessions.Get(source);
      assert LastTimestampOf(slot.value.gather) == LastTransferTimestamp(session);
      if LastTimestampOf(slot.value.gather) == Some(timestamp) {
        var ok := sessions.EnqueueBack(source);
      }
    }

    /** What fits of the payload is copied to a buffer. */
    method WriteBuffer(idx: u8, payload: seq<byte>) returns (length: nat)
      requires Valid() && idx < |Held().bytes|
      modifies this`bytes, pool
      ensures Valid() && |Held().bytes| == |old(Held()).bytes| && |Held().bytes[idx]| == |old(Held()).bytes[idx]|
      ensures Held() == old(Held()).(bytes := old(Held()).bytes[idx := Held().bytes[idx]])
      ensures length == Min(|payload|, |Held().bytes[idx]|) && Stores(Held().bytes[idx], payload)
    {
      var buffer := buffers[idx];
      length := Min(|payload|, buffer.Length);
      for i := 0 to length
        modifies buffer
        invariant buffer[..i] == payload[..i]
      {
        buffer[i] := payload[i];
      }
      bytes := bytes[idx := buffer[..]];
    }
  }
}
