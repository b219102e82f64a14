/** The reception rules R1-R12 over the bytes collected so far, and the session reassembler. */
module Reassembly {
  import opened Wrappers
  import opened Time
  import opened Format
  import opened Priorities

  datatype State =
    | Idle
    | IdleLastTransfer
    | AccumulatedFirst
    | AccumulatedOdd
    | AccumulatedEven
    | Assembled

  /** What the receiver of one source knows: `content` is everything collected, not truncated. */
  datatype Session = Session(
    state: State,
    sofTimestamp: Option<Instant>,
    transferId: Option<TransferId>,
    content: seq<byte>)

  datatype Delivery = Delivery(id: TransferId, priority: Priority, timestamp: Instant, bytes: seq<byte>)

  datatype Arrival = Arrival(priority: Priority, data: seq<byte>, timestamp: Instant)

  const FRESH := Session(Idle, None, None, [])

  predicate IsAccumulating(s: State) {
    s.AccumulatedFirst? || s.AccumulatedOdd? || s.AccumulatedEven?
  }

  ghost predicate WellFormed(m: Session) {
    && (m.state.Idle? <==> m.sofTimestamp.None?)
    && (m.state.Idle? || m.state.IdleLastTransfer? <==> m.transferId.None?)
    && (!IsAccumulating(m.state) ==> m.content == [])
    && |m.content| <= U32_MAX
  }

  /** Same transfer id as the transfer in progress or just assembled, within its timeout. */
  predicate IsCurrent(m: Session, timeout: Duration, id: TransferId, timestamp: Instant) {
    && m.transferId == Some(id)
    && m.sofTimestamp.Some?
    && timestamp <= SaturatingAdd(m.sofTimestamp.value, timeout)
  }

  function Stopped(m: Session): Session {
    Session(if m.sofTimestamp.Some? then IdleLastTransfer else Idle, m.sofTimestamp, None, [])
  }

  /** Toggle bit of the last contributing frame. */
  function LastToggle(s: State): bool {
    s != AccumulatedOdd
  }

  function NextState(s: State): State {
    if s == AccumulatedOdd then AccumulatedEven else AccumulatedOdd
  }

  function StartMulti(m: Session, tail: Tail, payload: seq<byte>, timestamp: Instant): Session {
    if IsMtuSize(|payload| + 1) then
      Session(AccumulatedFirst, Some(timestamp), Some(tail.transferId), payload)
    else
      Stopped(m)
  }

  function Collect(m: Session, payload: seq<byte>): Session {
    if IsMtuSize(|payload| + 1) && |m.content| + |payload| <= U32_MAX then
      m.(state := NextState(m.state), content := m.content + payload)
    else
      Stopped(m)
  }

  /** The whole of a finished multi-frame transfer: non-empty last frame, and the CRC agrees. */
  predicate Completes(content: seq<byte>, payload: seq<byte>) {
    && payload != []
    && |content| + |payload| <= U32_MAX
    && |content| + |payload| >= CRC_LENGTH
    && Crc(content + payload) == 0
  }

  datatype Action = Skip | Stop | SingleFrame | FirstFrame | AccumulateOdd | AccumulateEven | Finish

  /** The reception rules, in the order in which they take precedence. */
  function Rules(state: State, sot: bool, eot: bool, toggle: bool, current: bool): Action {
    if state == Assembled && current then Skip                       // R5, R6: already assembled
    else if sot && toggle != SOT_TOGGLE_BIT then Stop                // R3
    else if sot && eot then SingleFrame                              // R5
    else if sot then FirstFrame                                           // R6
    else if !current || !IsAccumulating(state) then Stop             // R2, R7
    else if eot then
      if toggle != LastToggle(state) then Finish else Stop           // R10, R11
    else if toggle != LastToggle(state) then
      if NextState(state) == AccumulatedOdd then AccumulateOdd else AccumulateEven       // R9
    else if state == AccumulatedFirst then Stop                      // R8
    else Skip                                                        // R9: repeated toggle
  }

  /** The decision table of the implementation, arm by arm. */
  function Table(state: State, sot: bool, eot: bool, toggleOdd: bool, tidMatch: bool): Action {
    match (state, sot, eot, toggleOdd, tidMatch)
    case (Assembled, _, _, _, true) => Skip
    case (_, true, _, true, _) => Stop
    case (_, true, true, false, _) => SingleFrame
    case (_, true, false, false, _) => FirstFrame
    case (_, _, _, _, false) => Stop
    case (Idle, _, _, _, _) => Skip
    case (IdleLastTransfer, _, _, _, _) => Skip
    case (AccumulatedFirst, false, false, false, true) => Stop
    case (AccumulatedFirst, false, false, true, true) => AccumulateOdd
    case (AccumulatedFirst, false, true, false, true) => Stop
    case (AccumulatedFirst, false, true, true, true) => Finish
    case (AccumulatedOdd, false, false, false, true) => AccumulateEven
    case (AccumulatedOdd, false, false, true, true) => Skip
    case (AccumulatedOdd, false, true, false, true) => Finish
    case (AccumulatedOdd, false, true, true, true) => Stop
    case (AccumulatedEven, false, false, false, true) => Skip
    case (AccumulatedEven, false, false, true, true) => AccumulateOdd
    case (AccumulatedEven, false, true, false, true) => Stop
    case (AccumulatedEven, false, true, true, true) => Finish
  }

  /** The table implements the rules for every frame that can match a transfer in progress. */
  lemma TableImplementsRules(state: State, sot: bool, eot: bool, toggle: bool, current: bool)
    requires current ==> !state.Idle? && !state.IdleLastTransfer?
    ensures Table(state, sot, eot, toggle != SOT_TOGGLE_BIT, current) == Rules(state, sot, eot, toggle, current)
  {
  }

  /** What an action makes of the session. */
  function Perform(m: Session, action: Action, priority: Priority, tail: Tail, payload: seq<byte>, timestamp: Instant)
    : (Session, Option<Delivery>)
  {
    match action
    case Skip => (m, None)
    case Stop => (Stopped(m), None)
    case SingleFrame =>
      (Session(Assembled, Some(timestamp), Some(tail.transferId), []),
       Some(Delivery(tail.transferId, priority, timestamp, payload)))
    case FirstFrame => (StartMulti(m, tail, payload, timestamp), None)
    case AccumulateOdd => (Collect(m, payload), None)
    case AccumulateEven => (Collect(m, payload), None)
    case Finish =>
      if m.sofTimestamp.Some? && Completes(m.content, payload) then
        (m.(state := Assembled, content := []),
         Some(Delivery(tail.transferId, priority, m.sofTimestamp.value,
                       (m.content + payload)[..|m.content| + |payload| - CRC_LENGTH])))
      else
        (Stopped(m), None)
  }

  /** A non-empty frame, by the reception rules of the receiver. */
  function Step(m: Session, timeout: Duration, priority: Priority, tail: Tail, payload: seq<byte>, timestamp: Instant)
    : (Session, Option<Delivery>)
  {
    var action := Rules(m.state, tail.sot, tail.eot, tail.toggle, IsCurrent(m, timeout, tail.transferId, timestamp));
    Perform(m, action, priority, tail, payload, timestamp)
  }

  function Payload(data: seq<byte>): seq<byte>
    requires data != []
  {
    data[..|data| - 1]
  }

  function TailOf(data: seq<byte>): Tail
    requires data != []
  {
    DecodeTail(data[|data| - 1])
  }

  /** Any frame; frames without a tail byte are ignored. */
  function Receive(m: Session, timeout: Duration, a: Arrival): (Session, Option<Delivery>) {
    if a.data == [] then (m, None)
    else Step(m, timeout, a.priority, TailOf(a.data), Payload(a.data), a.timestamp)
  }

  /** Every session state a run can reach is well formed. */
  lemma StepWellFormed(m: Session, timeout: Duration, priority: Priority, tail: Tail, payload: seq<byte>,
                       timestamp: Instant)
    requires WellFormed(m)
    ensures WellFormed(Step(m, timeout, priority, tail, payload, timestamp).0)
  {
  }

  /** The bytes of a frame with this tail. */
  function Sealed(payload: seq<byte>, tail: Tail): seq<byte> {
    payload + [EncodeTail(tail)]
  }

  /** Hearing a start of transfer, in the fields alone: it is ignored exactly when its transfer id was just assembled
      and is not timed out; otherwise a single frame is delivered, and a first frame of full length begins anew. */
  lemma StartHeard(m: Session, timeout: Duration, priority: Priority, eot: bool, id: TransferId, payload: seq<byte>,
                   now: Instant)
    requires WellFormed(m)
    ensures var (r, d) := Receive(m, timeout, Arrival(priority, Sealed(payload, Tail(true, eot, true, id)), now));
      if m.state == Assembled && m.transferId == Some(id) && now <= SaturatingAdd(m.sofTimestamp.value, timeout) then
        r == m && d == None
      else if eot then
        r == Session(Assembled, Some(now), Some(id), []) && d == Some(Delivery(id, priority, now, payload))
      else if |payload| == 7 || |payload| == 63 then
        r == Session(AccumulatedFirst, Some(now), Some(id), payload) && d == None
      else
        r == Session(if m.sofTimestamp == None then Idle else IdleLastTransfer, m.sofTimestamp, None, []) && d == None
  {
    DecodeEncodeTail(Tail(true, eot, true, id));
  }

  /** Hearing any other frame, in the fields alone: `toggles` says that its toggle bit differs from that of the last
      frame collected, `current` that it belongs to a transfer not timed out. */
  lemma OtherHeard(m: Session, timeout: Duration, priority: Priority, tail: Tail, payload: seq<byte>, now: Instant)
    requires WellFormed(m) && !(tail.sot && tail.toggle)
    ensures var (r, d) := Receive(m, timeout, Arrival(priority, Sealed(payload, tail), now));
      var current := m.transferId == Some(tail.transferId) && now <= SaturatingAdd(m.sofTimestamp.value, timeout);
      var goesOn := current && !tail.sot && m.state in {AccumulatedFirst, AccumulatedOdd, AccumulatedEven};
      var toggles := if m.state == AccumulatedOdd then tail.toggle else !tail.toggle;
      var all := m.content + payload;
      if current && m.state == Assembled then
        r == m && d == None
      else if goesOn && !tail.eot && !toggles && m.state != AccumulatedFirst then
        r == m && d == None
      else if goesOn && !tail.eot && toggles && (|payload| == 7 || |payload| == 63) && |all| <= 0xffff_ffff then
        && r == m.(state := if m.state == AccumulatedOdd then AccumulatedEven else AccumulatedOdd, content := all)
        && d == None
      else if goesOn && tail.eot && toggles && payload != [] && 2 <= |all| <= 0xffff_ffff && Crc(all) == 0 then
        && r == m.(state := Assembled, content := [])
        && d == Some(Delivery(tail.transferId, priority, m.sofTimestamp.value, all[..|all| - 2]))
      else
        r == Session(if m.sofTimestamp == None then Idle else IdleLastTransfer, m.sofTimestamp, None, []) && d == None
  {
    DecodeEncodeTail(tail);
  }

  /** The moment the session last accepted a start of transfer. */
  function LastTransferTimestamp(m: Session): Option<Instant> {
    if m.state == Idle then None else m.sofTimestamp
  }

  // ---------------------------------------------------------------- the reassembler object

  datatype Transfer = Transfer(id: TransferId, priority: Priority, timestamp: Instant, length: u32)

  function Min(a: nat, b: nat): nat {
    if a <= b then a else b
  }

  /** `buffer` holds as much of `content` as fits. */
  ghost predicate Stores(buffer: seq<byte>, content: seq<byte>) {
    var n := Min(|buffer|, |content|);
    buffer[..n] == content[..n]
  }

  /** Writing what fits of a segment behind what is stored stores the longer content. */
  lemma StoresAppend(before: seq<byte>, after: seq<byte>, content: seq<byte>, segment: seq<byte>)
    requires Stores(before, content) && |after| == |before|
    requires var at := Min(|before|, |content|);
      var n := Min(|segment|, |before| - at);
      after[..at] == before[..at] && after[at..at + n] == segment[..n]
    ensures Stores(after, content + segment)
  {
    var at := Min(|before|, |content|);
    var n := Min(|segment|, |before| - at);
    assert after[..at + n] == after[..at] + after[at..at + n];
    assert after[..at + n] == (content + segment)[..at + n];
  }

  /** The receiver's own fields; the collected bytes themselves are in a buffer elsewhere. */
  datatype GatherState = GatherState(state: State, sofTimestamp: Option<Instant>, transferId: Option<TransferId>,
                                     length: u32, crc: bv16)

  function Packed(m: Session): GatherState
    requires |m.content| <= U32_MAX
  {
    GatherState(m.state, m.sofTimestamp, m.transferId, |m.content|, Crc(m.content))
  }

  function LastTimestampOf(g: GatherState): Option<Instant> {
    if g.state == Idle then None else g.sofTimestamp
  }

  /** Length and CRC of what was collected; the bytes themselves go to the caller's buffer. */
  class PayloadAccumulator {
    var length: u32
    var crc: bv16
    ghost var content: seq<byte>

    ghost predicate Valid()
      reads this
    {
      length == |content| && crc == Crc(content)
    }

    constructor ()
      ensures Valid() && content == []
    {
      length, crc, content := 0, INIT_VALUE, [];
    }

    constructor Resume(length: u32, crc: bv16, ghost content: seq<byte>)
      requires length == |content| && crc == Crc(content)
      ensures Valid() && this.content == content
    {
      this.length, this.crc, this.content := length, crc, content;
    }

    method Reset()
      modifies this
      ensures Valid() && content == []
    {
      length, crc, content := 0, INIT_VALUE, [];
    }

    method Append(buffer: array<byte>, segment: seq<byte>) returns (ok: bool)
      requires Valid() && Stores(buffer[..], content)
      modifies this, buffer
      ensures Valid()
      ensures ok <==> |old(content)| + |segment| <= U32_MAX
      ensures ok ==> content == old(content) + segment
      ensures !ok ==> content == old(content)
      ensures Stores(buffer[..], content)
    {
      if length + |segment| > U32_MAX {
        return false;
      }
      var bufferOffset := Min(buffer.Length, length);
      var storeLength := Min(|segment|, buffer.Length - bufferOffset);
      for i := 0 to storeLength
        modifies buffer
        invariant buffer[..bufferOffset] == old(buffer[..])[..bufferOffset]
        invariant buffer[bufferOffset..bufferOffset + i] == segment[..i]
      {
        buffer[bufferOffset + i] := segment[i];
      }
      StoresAppend(old(buffer[..]), buffer[..], content, segment);
      length := length + |segment|;
      ghost var before := crc;
      crc := CrcAddBytes(crc, segment);
      CrcAppend(INIT_VALUE, content, segment);
      content := content + segment;
      ok := true;
    }

    function TryGet(): (r: Option<u32>)
      requires Valid()
      reads this
      ensures r.Some? <==> |content| >= CRC_LENGTH && Crc(content) == 0
      ensures r.Some? ==> r.value == |content| - CRC_LENGTH
    {
      if length >= CRC_LENGTH && crc == 0 then Some(length - CRC_LENGTH) else None
    }
  }

  class Gather {
    var state: State
    var sofTimestamp: Option<Instant>
    var transferId: Option<TransferId>
    const acc: PayloadAccumulator

    ghost function Model(): Session
      reads this, acc
    {
      Session(state, sofTimestamp, transferId, acc.content)
    }

    ghost predicate Valid()
      reads this, acc
    {
      acc.Valid() && WellFormed(Model())
    }

    constructor ()
      ensures Valid() && fresh(acc)
      ensures Model() == FRESH
    {
      state, sofTimestamp, transferId := Idle, None, None;
      acc := new PayloadAccumulator();
    }

    /** The receiver stored in a session slot. */
    constructor Resume(g: GatherState, ghost session: Session)
      requires WellFormed(session) && g == Packed(session)
      ensures Valid() && fresh(acc)
      ensures Model() == session
    {
      state, sofTimestamp, transferId := g.state, g.sofTimestamp, g.transferId;
      acc := new PayloadAccumulator.Resume(g.length, g.crc, session.content);
    }

    method Save() returns (g: GatherState)
      requires Valid()
      ensures g == Packed(Model())
    {
      g := GatherState(state, sofTimestamp, transferId, acc.length, acc.crc);
    }

    /** Where the accepted bytes end up, and what is delivered, is what the reception rules say. */
    method PushFrame(timeout: Duration, buffer: array<byte>, priority: Priority, data: seq<byte>, timestamp: Instant)
      returns (r: Option<Transfer>)
      requires Valid() && Stores(buffer[..], Model().content)
      requires |data| <= MAX_LENGTH
      modifies this, acc, buffer
      ensures Valid() && Stores(buffer[..], Model().content)
      ensures Model() == Receive(old(Model()), timeout, Arrival(priority, data, timestamp)).0
      ensures Delivers(r, Receive(old(Model()), timeout, Arrival(priority, data, timestamp)).1, buffer[..])
    {
      if |data| == 0 {
        return None;
      }
      var tail := DecodeTail(data[|data| - 1]);
      r := PushSegment(timeout, buffer, priority, tail, data[..|data| - 1], timestamp);
    }

    method PushSegment(timeout: Duration, buffer: array<byte>, priority: Priority, tail: Tail, payload: seq<byte>,
                       timestamp: Instant)
      returns (r: Option<Transfer>)
      requires Valid() && Stores(buffer[..], Model().content)
      requires |payload| < MAX_LENGTH
      modifies this, acc, buffer
      ensures Valid() && Stores(buffer[..], Model().content)
      ensures Model() == Step(old(Model()), timeout, priority, tail, payload, timestamp).0
      ensures Delivers(r, Step(old(Model()), timeout, priority, tail, payload, timestamp).1, buffer[..])
    {
      var tidMatch := match state {
        case Idle => false
        case IdleLastTransfer => false
        case _ =>
          tail.transferId == transferId.value
          && timestamp <= SaturatingAdd(sofTimestamp.value, timeout)
      };
      var toggleOdd := tail.toggle != SOT_TOGGLE_BIT;
      TableImplementsRules(state, tail.sot, tail.eot, tail.toggle, tidMatch);
      r := Act(Table(state, tail.sot, tail.eot, toggleOdd, tidMatch), buffer, priority, tail, payload, timestamp);
    }

    method Act(action: Action, buffer: array<byte>, priority: Priority, tail: Tail, payload: seq<byte>,
               timestamp: Instant)
      returns (r: Option<Transfer>)
      requires Valid() && Stores(buffer[..], Model().content)
      requires |payload| < MAX_LENGTH
      requires action.AccumulateOdd? || action.AccumulateEven? || action.Finish? ==>
        IsAccumulating(state) && transferId == Some(tail.transferId)
      requires action.AccumulateOdd? ==> NextState(state) == AccumulatedOdd
      requires action.AccumulateEven? ==> NextState(state) == AccumulatedEven
      modifies this, acc, buffer
      ensures Valid() && Stores(buffer[..], Model().content)
      ensures Model() == Perform(old(Model()), action, priority, tail, payload, timestamp).0
      ensures Delivers(r, Perform(old(Model()), action, priority, tail, payload, timestamp).1, buffer[..])
    {
      match action {
        case Skip => r := SkipFrame();
        case Stop => r := StopAssembly();
        case SingleFrame => r := SingleFrameAssembly(buffer, priority, tail, payload, timestamp);
        case FirstFrame => r := AccumulateFirst(buffer, tail, payload, timestamp);
        case AccumulateOdd => r := Accumulate(AccumulatedOdd, buffer, payload);
        case AccumulateEven => r := Accumulate(AccumulatedEven, buffer, payload);
        case Finish => r := FinishAssembly(buffer, priority, tail, payload, timestamp);
      }
    }

    method SkipFrame() returns (r: Option<Transfer>)
      ensures r == None
    {
      r := None;
    }

    method StopAssembly() returns (r: Option<Transfer>)
      requires acc.Valid()
      requires state.Idle? ==> sofTimestamp.None?
      modifies this, acc
      ensures acc.Valid() && Model() == Stopped(old(Model()))
      ensures r == None
    {
      state := if sofTimestamp.Some? then IdleLastTransfer else Idle;
      transferId := None;
      acc.Reset();
      r := None;
    }

    method SingleFrameAssembly(buffer: array<byte>, priority: Priority, tail: Tail, payload: seq<byte>,
                               timestamp: Instant)
      returns (r: Option<Transfer>)
      requires |payload| < MAX_LENGTH
      modifies this, acc, buffer
      ensures acc.Valid()
      ensures Model() == Session(Assembled, Some(timestamp), Some(tail.transferId), [])
      ensures r == Some(Transfer(tail.transferId, priority, timestamp, |payload|))
      ensures Stores(buffer[..], payload)
    {
      var storeLength := Min(|payload|, buffer.Length);
      for i := 0 to storeLength
        modifies buffer
        invariant buffer[..i] == payload[..i]
      {
        buffer[i] := payload[i];
      }
      state := Assembled;
      sofTimestamp := Some(timestamp);
      transferId := Some(tail.transferId);
      acc.Reset();
      r := Some(Transfer(tail.transferId, priority, timestamp, |payload|));
    }

    method AccumulateFirst(buffer: array<byte>, tail: Tail, payload: seq<byte>, timestamp: Instant)
      returns (r: Option<Transfer>)
      requires acc.Valid() && |payload| < MAX_LENGTH
      requires state.Idle? ==> sofTimestamp.None?
      modifies this, acc, buffer
      ensures acc.Valid() && Model() == StartMulti(old(Model()), tail, payload, timestamp)
      ensures r == None
      ensures Stores(buffer[..], acc.content)
    {
      if !IsMtuSize(|payload| + 1) {
        r := StopAssembly();
        return;
      }
      state := AccumulatedFirst;
      sofTimestamp := Some(timestamp);
      transferId := Some(tail.transferId);
      acc.Reset();
      var ok := acc.Append(buffer, payload);
      if !ok {
        assert false;
      }
      r := None;
    }

    /** Both continuation actions: they differ only in the state they move to. */
    method Accumulate(next: State, buffer: array<byte>, payload: seq<byte>) returns (r: Option<Transfer>)
      requires Valid() && Stores(buffer[..], acc.content)
      requires IsAccumulating(state) && next == NextState(state) && |payload| < MAX_LENGTH
      modifies this, acc, buffer
      ensures acc.Valid() && Model() == Collect(old(Model()), payload)
      ensures r == None
      ensures Stores(buffer[..], acc.content)
    {
      if !IsMtuSize(|payload| + 1) {
        r := StopAssembly();
        return;
      }
      state := next;
      var ok := acc.Append(buffer, payload);
      if !ok {
        r := StopAssembly();
        return;
      }
      r := None;
    }

    method FinishAssembly(buffer: array<byte>, priority: Priority, tail: Tail, payload: seq<byte>,
                          ghost timestamp: Instant)
      returns (r: Option<Transfer>)
      requires Valid() && Stores(buffer[..], acc.content)
      requires IsAccumulating(state) && transferId == Some(tail.transferId) && |payload| < MAX_LENGTH
      modifies this, acc, buffer
      ensures acc.Valid() && acc.content == []
      ensures Model() == Perform(old(Model()), Finish, priority, tail, payload, timestamp).0
      ensures Delivers(r, Perform(old(Model()), Finish, priority, tail, payload, timestamp).1, buffer[..])
    {
      ghost var before := Model();
      var length: Option<u32> := None;
      if |payload| != 0 {
        var ok := acc.Append(buffer, payload);
        if ok {
          length := acc.TryGet();
        }
      }
      assert length.Some? <==> Completes(before.content, payload);
      if length == None {
        r := StopAssembly();
      } else {
        StoresPrefix(buffer[..], acc.content, length.value);
        state := Assembled;
        acc.Reset();
        r := Some(Transfer(transferId.value, priority, sofTimestamp.value, length.value));
      }
    }
  }

  lemma StoresPrefix(buffer: seq<byte>, content: seq<byte>, n: nat)
    requires Stores(buffer, content) && n <= |content|
    ensures Stores(buffer, content[..n])
  {
    var a, b := Min(|buffer|, |content|), Min(|buffer|, n);
    assert buffer[..b] == buffer[..a][..b];
    assert content[..n][..b] == content[..a][..b];
  }

  ghost predicate Delivers(r: Option<Transfer>, d: Option<Delivery>, buffer: seq<byte>) {
    match d
    case None => r == None
    case Some(d) =>
      && |d.bytes| <= U32_MAX
      && r == Some(Transfer(d.id, d.priority, d.timestamp, |d.bytes|))
      && Stores(buffer, d.bytes)
  }
}
