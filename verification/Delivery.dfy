/** One frame handed to the entries of its subject in separate atomic steps, with registry steps in between. */
module Delivery {
  import opened Lists
  import opened Wrappers
  import opened Registry
  import opened FilterAgreement

  /** The entries with subject `s`. */
  function OfSubject(t: seq<Entry>, s: nat): set<Entry> {
    set e | e in t && e.subject == s
  }

  /** How far the push of a frame for `s` has come: `initial` were active when it started, `log` got the frame. */
  ghost predicate Progress(t: seq<Entry>, next: Option<Entry>, s: nat, initial: set<Entry>, log: seq<Entry>) {
    && (forall e :: e in initial ==> e.subject == s)
    && NoRepeats(log) && (forall e :: e in log ==> e.subject == s)
    && match next
       case None => forall e :: e in t && e in initial ==> e in log
       case Some(n) => n in t && n.subject == s && Reached(t, Find(t, n), initial, log)
  }

  /** Initial entries before position `k` got the frame, none from there on did. */
  ghost predicate Reached(t: seq<Entry>, k: nat, initial: set<Entry>, log: seq<Entry>) {
    && (forall i :: 0 <= i < |t| && i < k && t[i] in initial ==> t[i] in log)
    && (forall i :: k <= i < |t| ==> t[i] !in log)
  }

  lemma FindIs(t: seq<Entry>, k: nat)
    requires Ordered(t) && k < |t|
    ensures Find(t, t[k]) == k
  {
    var j := Find(t, t[k]);
    assert t[j] == t[k];
  }

  // ---------------------------------------------------------------- the push itself

  lemma StartProgress(t: seq<Entry>, s: Subject)
    requires Ordered(t)
    ensures var k := Lower(t, s);
      Progress(t, if k < |t| && t[k].subject == s then Some(t[k]) else None, s, OfSubject(t, s), [])
  {
    var k := Lower(t, s);
    LowerIs(t, s);
    if k < |t| {
      FindIs(t, k);
    }
    forall e | e in t && e.subject == s ensures k < |t| && t[k].subject == s {
      var i :| 0 <= i < |t| && t[i] == e;
      FirstOf(t, s, i);
    }
  }

  /** Entries behind a last entry of subject `s` are of other subjects. */
  lemma NoneBehind(t: seq<Entry>, heads: set<Entry>, k: nat, i: nat)
    requires Ordered(t) && HeadsRight(t, heads) && k < i < |t| && (k + 1 < |t| ==> t[k + 1] in heads)
    ensures t[i].subject > t[k].subject
  {
    assert HeadAt(t, heads, k + 1);
    assert i > k + 1 ==> t[k + 1].subject <= t[i].subject;
  }

  lemma NextProgress(t: seq<Entry>, heads: set<Entry>, n: Entry, s: nat, initial: set<Entry>, log: seq<Entry>)
    requires Ordered(t) && HeadsRight(t, heads) && Progress(t, Some(n), s, initial, log)
    ensures n !in log
    ensures var following := At(t, Find(t, n) + 1);
      Progress(t, if following.Some? && following.value !in heads then following else None, s, initial, log + [n])
  {
    var k := Find(t, n);
    assert t[k] !in log;
    if k + 1 < |t| && t[k + 1] !in heads {
      FindIs(t, k + 1);
      assert HeadAt(t, heads, k + 1);
      assert t[k + 1] != n;
    } else {
      forall e | e in t && e in initial ensures e in log + [n] {
        var i :| 0 <= i < |t| && t[i] == e;
        if i > k {
          NoneBehind(t, heads, k, i);
        }
      }
    }
  }

  // ---------------------------------------------------------------- steps in between

  /** A joining entry is behind those of its subject. */
  lemma JoinProgress(t: seq<Entry>, next: Option<Entry>, s: nat, initial: set<Entry>, log: seq<Entry>, e: Entry)
    requires Ordered(t) && Progress(t, next, s, initial, log)
    requires e !in t && e !in initial && e !in log
    ensures Progress(InsertOrdered(t, e), next, s, initial, log)
  {
    var r, k := InsertOrdered(t, e), Upper(t, e.subject);
    InsertKeeps(t, e);
    match next
    case None =>
    case Some(n) =>
      var j := Find(t, n);
      UpperIs(t, e.subject);
      LowerIs(t, e.subject + 1);
      var j' := if j < k then j else j + 1;
      assert r[j'] == n;
      FindIs(r, j');
      JoinReached(t, j, initial, log, e, k);
  }

  lemma JoinReached(t: seq<Entry>, j: nat, initial: set<Entry>, log: seq<Entry>, e: Entry, k: nat)
    requires Reached(t, j, initial, log) && e !in initial && e !in log && k <= |t|
    ensures Reached(InsertAt(t, k, e), if j < k then j else j + 1, initial, log)
  {
    var r := InsertAt(t, k, e);
    forall i | 0 <= i < |r| && i != k ensures r[i] == t[if i < k then i else i - 1] {
    }
  }

  /** When an entry leaves, a push about to reach it turns to the one behind it. */
  lemma LeaveProgress(t: seq<Entry>, heads: set<Entry>, next: Option<Entry>, s: nat, initial: set<Entry>,
                      log: seq<Entry>, k: nat)
    requires Ordered(t) && HeadsRight(t, heads) && Progress(t, next, s, initial, log) && k < |t|
    ensures Progress(RemoveAt(t, k), SkipRemoved(next, t[k], At(RemoveAt(t, k), k), heads), s, initial, log)
  {
    var r := RemoveAt(t, k);
    RemoveKeeps(t, k);
    if next.Some? {
      var j := Find(t, next.value);
      if j != k {
        var j' := if j < k then j else j - 1;
        assert r[j'] == next.value;
        FindIs(r, j');
        LeaveReached(t, j, initial, log, k);
      } else if k + 1 < |t| && t[k + 1] !in heads {
        assert r[k] == t[k + 1];
        FindIs(r, k);
        assert HeadAt(t, heads, k + 1);
        LeaveReached(t, j, initial, log, k);
      } else {
        forall e | e in r && e in initial ensures e in log {
          var i :| 0 <= i < |t| && t[i] == e;
          if i > k {
            NoneBehind(t, heads, k, i);
          }
        }
      }
    }
  }

  lemma LeaveReached(t: seq<Entry>, j: nat, initial: set<Entry>, log: seq<Entry>, k: nat)
    requires Reached(t, j, initial, log) && k < |t|
    ensures Reached(RemoveAt(t, k), if j <= k then j else j - 1, initial, log)
  {
    forall i | 0 <= i < |t| - 1 ensures RemoveAt(t, k)[i] == t[if i < k then i else i + 1] {
    }
  }

  // ---------------------------------------------------------------- a whole push

  /** Entries that may still join the active tree are new to the push. */
  ghost predicate Waiting(inactive: seq<Entry>, initial: set<Entry>, log: seq<Entry>) {
    forall e :: e in inactive ==> e !in initial && e !in log
  }

  ghost predicate Pushing(m: Inner, filter: set<nat>, s: nat, initial: set<Entry>, log: seq<Entry>) {
    && Agrees(m, filter)
    && Progress(m.active, m.nextPush, s, initial, log)
    && Waiting(m.inactive, initial, log)
  }

  /** What may happen during a push: no other push starts, and entries are not registered again. */
  ghost predicate AllowedDuring(m: Inner, ev: Event, initial: set<Entry>, log: seq<Entry>) {
    && Allowed(m, ev) && !ev.StartPush?
    && (ev.RegisterEntry? ==> ev.entry !in initial && ev.entry !in log)
  }

  function Delivered(m: Inner, ev: Event): seq<Entry> {
    if ev.NextPush? && PushNext(m).1.Some? then [PushNext(m).1.value] else []
  }

  lemma RegisterPushing(m: Inner, filter: set<nat>, s: nat, initial: set<Entry>, log: seq<Entry>, e: Entry)
    requires Pushing(m, filter, s, initial, log) && !Registered(m, e) && e !in initial && e !in log
    ensures Pushing(Register(m, e).0, filter, s, initial, log)
  {
    RegisterAgrees(m, filter, e);
    if HasSubject(m.inactive, e.subject) || !HasSubject(m.active, e.subject) {
      InsertKeeps(m.inactive, e);
    } else {
      JoinProgress(m.active, m.nextPush, s, initial, log, e);
    }
  }

  lemma UnregisterPushing(m: Inner, filter: set<nat>, s: nat, initial: set<Entry>, log: seq<Entry>, e: Entry)
    requires Pushing(m, filter, s, initial, log) && Registered(m, e)
    ensures Pushing(Unregister(m, e), filter, s, initial, log)
  {
    UnregisterAgrees(m, filter, e);
    if e in m.active {
      ActiveLeaves(m, s, initial, log, e);
    } else {
      RemoveKeeps(m.inactive, Find(m.inactive, e));
    }
  }

  lemma ActiveLeaves(m: Inner, s: nat, initial: set<Entry>, log: seq<Entry>, e: Entry)
    requires Inv(m) && e in m.active
    requires Progress(m.active, m.nextPush, s, initial, log) && Waiting(m.inactive, initial, log)
    ensures var r := Unregister(m, e);
      Progress(r.active, r.nextPush, s, initial, log) && Waiting(r.inactive, initial, log)
  {
    LeaveProgress(m.active, m.heads, m.nextPush, s, initial, log, Find(m.active, e));
  }

  lemma PollPushing(m: Inner, filter: set<nat>, s: nat, initial: set<Entry>, log: seq<Entry>)
    requires Pushing(m, filter, s, initial, log)
    ensures Pushing(Poll(m).0, ReplayPolled(filter, Poll(m).1), s, initial, log)
  {
    PollAgrees(m, filter);
    if m.cleanUpQueue == [] && !m.cleanUpLast && m.activationQueue != [] {
      var e := m.activationQueue[0];
      FirstActivates(m.active, m.inactive, m.activationQueue);
      JoinProgress(m.active, m.nextPush, s, initial, log, e);
      RemoveKeeps(m.inactive, Find(m.inactive, e));
    }
  }

  lemma NextPushing(m: Inner, filter: set<nat>, s: nat, initial: set<Entry>, log: seq<Entry>)
    requires Pushing(m, filter, s, initial, log)
    ensures Pushing(PushNext(m).0, filter, s, initial, log + Delivered(m, Event.NextPush))
  {
    if m.nextPush.Some? {
      NextProgress(m.active, m.heads, m.nextPush.value, s, initial, log);
    } else {
      assert log + [] == log;
    }
  }

  lemma StepPushing(m: Inner, filter: set<nat>, s: nat, initial: set<Entry>, log: seq<Entry>, ev: Event)
    requires Pushing(m, filter, s, initial, log) && AllowedDuring(m, ev, initial, log)
    ensures Pushing(Apply(m, ev), Filter(m, filter, ev), s, initial, log + Delivered(m, ev))
  {
    assert log + [] == log;
    match ev
    case RegisterEntry(e) => RegisterPushing(m, filter, s, initial, log, e);
    case UnregisterEntry(e) => UnregisterPushing(m, filter, s, initial, log, e);
    case PollFilter => PollPushing(m, filter, s, initial, log);
    case NextPush => NextPushing(m, filter, s, initial, log);
  }

  /** State, filter and receivers after `events` during the push of a frame for `s`. */
  function During(m: Inner, filter: set<nat>, s: Subject, events: seq<Event>): (Inner, set<nat>, seq<Entry>) {
    if events == [] then (PushStart(m, s), filter, [])
    else
      var n := |events| - 1;
      var (m', f, log) := During(m, filter, s, events[..n]);
      (Apply(m', events[n]), Filter(m', f, events[n]), log + Delivered(m', events[n]))
  }

  ghost predicate AllAllowedDuring(m: Inner, filter: set<nat>, s: Subject, events: seq<Event>) {
    forall i :: 0 <= i < |events| ==>
      var (m', f, log) := During(m, filter, s, events[..i]);
      AllowedDuring(m', events[i], OfSubject(m.active, s), log)
  }

  lemma AllowedPrefix(m: Inner, filter: set<nat>, s: Subject, events: seq<Event>, n: nat)
    requires AllAllowedDuring(m, filter, s, events) && n <= |events|
    ensures AllAllowedDuring(m, filter, s, events[..n])
  {
    forall i | 0 <= i < n
      ensures var (m', f, log) := During(m, filter, s, events[..n][..i]);
        AllowedDuring(m', events[..n][i], OfSubject(m.active, s), log)
    {
      assert events[..n][..i] == events[..i];
    }
  }

  lemma {:induction false} DuringPush(m: Inner, filter: set<nat>, s: Subject, events: seq<Event>)
    requires Agrees(m, filter) && AllAllowedDuring(m, filter, s, events)
    requires forall e :: e in m.inactive ==> e !in OfSubject(m.active, s)
    ensures var (m', f, log) := During(m, filter, s, events);
      Pushing(m', f, s, OfSubject(m.active, s), log)
  {
    if events == [] {
      PushStartAgrees(m, filter, s);
      StartProgress(m.active, s);
    } else {
      var n := |events| - 1;
      AllowedPrefix(m, filter, s, events, n);
      DuringPush(m, filter, s, events[..n]);
      var (m', f, log) := During(m, filter, s, events[..n]);
      StepPushing(m', f, s, OfSubject(m.active, s), log, events[n]);
    }
  }

  /** Delivery under concurrency: whatever registry steps come between the steps of one push, no entry gets
      the frame twice, no entry of another subject gets it, the next entry is always live, and once the push
      is over every entry that was active at its start and still is got the frame. */
  lemma DeliveredExactlyOnce(m: Inner, filter: set<nat>, s: Subject, events: seq<Event>)
    requires Agrees(m, filter) && AllAllowedDuring(m, filter, s, events)
    ensures var (m', f, log) := During(m, filter, s, events);
      && NoRepeats(log) && (forall e :: e in log ==> e.subject == s)
      && (m'.nextPush.Some? ==> m'.nextPush.value in m'.active && m'.nextPush.value.subject == s)
      && (m'.nextPush.None? ==> forall e :: e in OfSubject(m.active, s) && e in m'.active ==> e in log)
  {
    DuringPush(m, filter, s, events);
  }

  // ---------------------------------------------------------------- a push with nothing in between

  function Nexts(k: nat): (r: seq<Event>)
    ensures |r| == k
  {
    seq(k, _ => Event.NextPush)
  }

  lemma NextsAllowed(m: Inner, filter: set<nat>, s: Subject, k: nat)
    ensures AllAllowedDuring(m, filter, s, Nexts(k))
  {
    forall i | 0 <= i < k
      ensures var (m', f, log) := During(m, filter, s, Nexts(k)[..i]);
        AllowedDuring(m', Nexts(k)[i], OfSubject(m.active, s), log)
    {
    }
  }

  /** Each step serves the next entry and turns to the one behind it, or ends the push. */
  lemma NextAdvances(m: Inner)
    requires Ordered(m.active) && m.nextPush.Some? && m.nextPush.value in m.active
    ensures var (r, out) := PushNext(m);
      && out == m.nextPush && r.active == m.active
      && (r.nextPush.Some? ==>
            r.nextPush.value in r.active && Find(r.active, r.nextPush.value) == Find(m.active, m.nextPush.value) + 1)
  {
    var k := Find(m.active, m.nextPush.value);
    if k + 1 < |m.active| {
      FindIs(m.active, k + 1);
    }
  }

  /** After `k` steps the push is over or has come `k` positions far, and only active entries were served. */
  lemma {:induction false} PushAdvances(m: Inner, filter: set<nat>, s: Subject, k: nat)
    requires Ordered(m.active)
    ensures var (m', f, log) := During(m, filter, s, Nexts(k));
      && m'.active == m.active && f == filter && (forall e :: e in log ==> e in m.active)
      && (m'.nextPush.Some? ==> m'.nextPush.value in m.active && Find(m.active, m'.nextPush.value) >= k)
  {
    if k > 0 {
      PushAdvances(m, filter, s, k - 1);
      assert Nexts(k)[..k - 1] == Nexts(k - 1);
      var before := During(m, filter, s, Nexts(k - 1)).0;
      if before.nextPush.Some? {
        NextAdvances(before);
      }
    }
  }

  /** A push with nothing in between ends, and gives the frame to exactly the active entries of its subject, once
      each. */
  lemma PushServesAll(m: Inner, filter: set<nat>, s: Subject)
    requires Agrees(m, filter)
    ensures var (m', f, log) := During(m, filter, s, Nexts(|m.active|));
      m'.nextPush == None && NoRepeats(log) && forall e :: e in log <==> e in m.active && e.subject == s
  {
    NextsAllowed(m, filter, s, |m.active|);
    PushAdvances(m, filter, s, |m.active|);
    DeliveredExactlyOnce(m, filter, s, Nexts(|m.active|));
    var (m', f, log) := During(m, filter, s, Nexts(|m.active|));
    assert m'.nextPush == None;
    forall e ensures e in log <==> e in OfSubject(m.active, s) {
    }
  }
}
