/** Eight FIFO queues sharing one pool of entries. */
module PriorityQueues {
  import opened Wrappers
  import opened Priorities
  import opened ClassQueues

  const FREE_CLASS: u8 := LEVELS
  const CLASS_COUNT: u8 := LEVELS + 1

  /** Number of elements in the first `n` queues. */
  function CountUpTo<T>(queues: seq<seq<T>>, n: nat): nat
    requires n <= |queues|
    decreases n, queues
  {
    if n == 0 then 0 else CountUpTo(queues, n - 1) + |queues[n - 1]|
  }

  function Count<T>(queues: seq<seq<T>>): nat {
    CountUpTo(queues, |queues|)
  }

  lemma {:induction false} CountUpdate<T>(queues: seq<seq<T>>, c: nat, q: seq<T>, n: nat)
    requires c < |queues| && n <= |queues|
    ensures CountUpTo(queues[c := q], n) == CountUpTo(queues, n) + (if c < n then |q| - |queues[c]| else 0)
  {
    if n > 0 {
      CountUpdate(queues, c, q, n - 1);
    }
  }

  lemma {:induction false} CountMember<T>(queues: seq<seq<T>>, c: nat, n: nat)
    requires c < n <= |queues|
    ensures |queues[c]| <= CountUpTo(queues, n)
  {
    if c < n - 1 {
      CountMember(queues, c, n - 1);
    }
  }

  lemma {:induction false} CountZero<T>(queues: seq<seq<T>>, n: nat)
    requires n <= |queues|
    ensures CountUpTo(queues, n) == 0 <==> forall c :: 0 <= c < n ==> queues[c] == []
  {
    if n > 0 {
      CountZero(queues, n - 1);
    }
  }

  lemma {:induction false} CountSameLengths<S, T>(a: seq<seq<S>>, b: seq<seq<T>>, n: nat)
    requires n <= |a| && n <= |b|
    requires forall c :: 0 <= c < n ==> |a[c]| == |b[c]|
    ensures CountUpTo(a, n) == CountUpTo(b, n)
  {
    if n > 0 {
      CountSameLengths(a, b, n - 1);
    }
  }

  /** Taking the first entry of one queue and putting it at the back of another. */
  lemma MoveFirst(queues: seq<seq<nat>>, n: nat, from: nat, to: nat)
    requires Distinct(queues, n) && from < |queues| && to < |queues| && from != to && queues[from] != []
    ensures queues[from][0] < n
    ensures ToBack(queues, to, queues[from][0])
         == queues[from := queues[from][1..]][to := queues[to] + [queues[from][0]]]
    ensures Distinct(ToBack(queues, to, queues[from][0]), n)
    ensures Count(ToBack(queues, to, queues[from][0])) == Count(queues)
    ensures forall x :: Queued(ToBack(queues, to, queues[from][0]), x) <==> Queued(queues, x)
  {
    var e := queues[from][0];
    assert InQueue(queues, from, 0);
    WithoutAt(queues, n, from, 0);
    WithoutDistinct(queues, n, e);
    var rest := Without(queues, e);
    assert rest == queues[from := queues[from][1..]];
    CountUpdate(queues, from, queues[from][1..], |queues|);
    CountUpdate(rest, to, rest[to] + [e], |queues|);
    InsertDistinct(rest, n, to, |rest[to]|, e);
    assert rest[to][..|rest[to]|] + [e] + rest[to][|rest[to]|..] == rest[to] + [e];
  }

  // ---------------------------------------------------------------- the pool as eight sequences

  /** Every entry is either free and empty or waits at one priority with a value. */
  ghost predicate Pool<V>(queues: seq<seq<nat>>, values: seq<Option<V>>) {
    && |queues| == CLASS_COUNT
    && Distinct(queues, |values|)
    && Count(queues) == |values|
    && (forall p, i :: InQueue(queues, p, i) ==> (values[queues[p][i]].Some? <==> p < LEVELS))
  }

  ghost function FifoOf<V>(queues: seq<seq<nat>>, values: seq<Option<V>>, p: Priority): (r: seq<V>)
    requires Pool(queues, values)
    ensures |r| == |queues[p]|
  {
    seq(|queues[p]|, i requires 0 <= i < |queues[p]| =>
      assert InQueue(queues, p, i); values[queues[p][i]].value)
  }

  ghost function FifosOf<V>(queues: seq<seq<nat>>, values: seq<Option<V>>): (r: seq<seq<V>>)
    requires Pool(queues, values)
    ensures |r| == LEVELS
  {
    seq(LEVELS, p requires 0 <= p < LEVELS => FifoOf(queues, values, p))
  }

  /** An entry is free exactly when fewer than all entries wait. */
  lemma FreeWhenNotFull<V>(queues: seq<seq<nat>>, values: seq<Option<V>>)
    requires Pool(queues, values)
    ensures |queues[FREE_CLASS]| + Count(FifosOf(queues, values)) == |values|
  {
    CountSameLengths(queues, FifosOf(queues, values), LEVELS);
  }

  /** The first entry of queue `from` moves to the back of queue `to` and takes content `x`. */
  ghost predicate Moved<V>(queues: seq<seq<nat>>, values: seq<Option<V>>, from: nat, to: nat, x: Option<V>,
                           queues': seq<seq<nat>>, values': seq<Option<V>>)
  {
    && |queues| == CLASS_COUNT && from < CLASS_COUNT && to < CLASS_COUNT && from != to
    && queues[from] != [] && queues[from][0] < |values|
    && queues' == queues[from := queues[from][1..]][to := queues[to] + [queues[from][0]]]
    && values' == values[queues[from][0] := x]
    && (x.Some? <==> to < LEVELS)
  }

  lemma MovedPool<V>(queues: seq<seq<nat>>, values: seq<Option<V>>, from: nat, to: nat, x: Option<V>,
                     queues': seq<seq<nat>>, values': seq<Option<V>>)
    requires Pool(queues, values) && Moved(queues, values, from, to, x, queues', values')
    ensures Pool(queues', values')
  {
    var e := queues[from][0];
    MoveFirst(queues, |values|, from, to);
    assert queues' == ToBack(queues, to, e);
    forall c, i | InQueue(queues', c, i)
      ensures values'[queues'[c][i]].Some? <==> c < LEVELS
    {
      if !(c == to && i == |queues[to]|) {
        MovedEntry(queues, values, from, to, x, queues', values', c, i);
      }
    }
  }

  /** Apart from the moved entry everything is where it was, up to one position in queue `from`. */
  lemma MovedEntry<V>(queues: seq<seq<nat>>, values: seq<Option<V>>, from: nat, to: nat, x: Option<V>,
                      queues': seq<seq<nat>>, values': seq<Option<V>>, c: nat, i: nat)
    requires Pool(queues, values) && Moved(queues, values, from, to, x, queues', values')
    requires InQueue(queues', c, i) && !(c == to && i == |queues[to]|)
    ensures var j := if c == from then i + 1 else i;
      && InQueue(queues, c, j) && queues'[c][i] == queues[c][j]
      && values'[queues'[c][i]] == values[queues[c][j]]
  {
    assert InQueue(queues, from, 0);
    assert InQueue(queues, c, if c == from then i + 1 else i);
  }

  lemma MovedFifo<V>(queues: seq<seq<nat>>, values: seq<Option<V>>, from: nat, to: nat, x: Option<V>,
                     queues': seq<seq<nat>>, values': seq<Option<V>>, c: Priority)
    requires Pool(queues, values) && Moved(queues, values, from, to, x, queues', values')
    requires Pool(queues', values')
    ensures FifoOf(queues', values', c)
         == if c == to then FifoOf(queues, values, c) + [x.value]
            else if c == from then FifoOf(queues, values, c)[1..]
            else FifoOf(queues, values, c)
  {
    forall i | 0 <= i < |queues'[c]| && !(c == to && i == |queues[to]|)
      ensures FifoOf(queues', values', c)[i] == FifoOf(queues, values, c)[if c == from then i + 1 else i]
    {
      MovedEntry(queues, values, from, to, x, queues', values', c, i);
    }
  }

  lemma PushRefines<V>(queues: seq<seq<nat>>, values: seq<Option<V>>, p: Priority, v: V)
    requires Pool(queues, values) && queues[FREE_CLASS] != []
    ensures queues[FREE_CLASS][0] < |values|
    ensures var e := queues[FREE_CLASS][0];
      var fifos := FifosOf(queues, values);
      && Pool(ToBack(queues, p, e), values[e := Some(v)])
      && FifosOf(ToBack(queues, p, e), values[e := Some(v)]) == fifos[p := fifos[p] + [v]]
  {
    var e := queues[FREE_CLASS][0];
    MoveFirst(queues, |values|, FREE_CLASS, p);
    var r, w := ToBack(queues, p, e), values[e := Some(v)];
    MovedPool(queues, values, FREE_CLASS, p, Some(v), r, w);
    forall c: Priority
      ensures FifoOf(r, w, c) == if c == p then FifoOf(queues, values, p) + [v] else FifoOf(queues, values, c)
    {
      MovedFifo(queues, values, FREE_CLASS, p, Some(v), r, w, c);
    }
  }

  lemma PopRefines<V>(queues: seq<seq<nat>>, values: seq<Option<V>>, p: Priority)
    requires Pool(queues, values) && queues[p] != []
    ensures queues[p][0] < |values|
    ensures var e := queues[p][0];
      var fifos := FifosOf(queues, values);
      && values[e] == Some(fifos[p][0])
      && Pool(ToBack(queues, FREE_CLASS, e), values[e := None])
      && FifosOf(ToBack(queues, FREE_CLASS, e), values[e := None]) == fifos[p := fifos[p][1..]]
  {
    var e := queues[p][0];
    assert InQueue(queues, p, 0);
    MoveFirst(queues, |values|, p, FREE_CLASS);
    var r, w := ToBack(queues, FREE_CLASS, e), values[e := None];
    MovedPool(queues, values, p, FREE_CLASS, None, r, w);
    forall c: Priority
      ensures FifoOf(r, w, c) == if c == p then FifoOf(queues, values, p)[1..] else FifoOf(queues, values, c)
    {
      MovedFifo(queues, values, p, FREE_CLASS, None, r, w, c);
    }
  }

  // ---------------------------------------------------------------- the queue object

  /** All queues empty but queue `c`, which holds the entries below `i` in order. */
  function Filled(classes: nat, c: nat, i: nat): seq<seq<nat>> {
    seq(classes, d => if d == c then seq(i, j => j) else [])
  }

  lemma FilledNone(classes: nat, c: nat)
    ensures Filled(classes, c, 0) == seq(classes, _ => [])
  {
    assert forall d :: 0 <= d < classes ==> Filled(classes, c, 0)[d] == [];
  }

  lemma FilledMore(classes: nat, c: nat, i: nat)
    requires c < classes
    ensures ToBack(Filled(classes, c, i), c, i) == Filled(classes, c, i + 1)
  {
    var queues := Filled(classes, c, i);
    forall d, j | InQueue(queues, d, j)
      ensures queues[d][j] != i
    {
      assert d == c;
    }
    WithoutAbsent(queues, i);
    assert queues[c] + [i] == Filled(classes, c, i + 1)[c];
  }

  lemma FilledPool<V>(values: seq<Option<V>>)
    requires forall e :: 0 <= e < |values| ==> values[e] == None
    ensures Pool(Filled(CLASS_COUNT, FREE_CLASS, |values|), values)
    ensures FifosOf(Filled(CLASS_COUNT, FREE_CLASS, |values|), values) == seq(LEVELS, _ => [])
  {
    var queues := Filled(CLASS_COUNT, FREE_CLASS, |values|);
    CountZero(queues, LEVELS);
    assert CountUpTo(queues, CLASS_COUNT) == CountUpTo(queues, LEVELS) + |queues[LEVELS]|;
  }

  class PriorityQueue<V> {
    const entryQueue: MultiClassQueue
    const entryValues: array<Option<V>>
    var prioritySet: set<Priority>
    /** The values waiting at each priority, oldest first. */
    ghost var fifos: seq<seq<V>>

    /** The objects the queue owns. */
    ghost function Owned(): set<object>
    {
      {this, entryQueue, entryQueue.list, entryQueue.list.nodes, entryValues}
    }

    ghost predicate Valid()
      reads Owned()
    {
      && entryQueue.list.nodes as object != entryValues as object
      && entryQueue.classCount == CLASS_COUNT && entryQueue.entryCount == entryValues.Length
      && entryQueue.Valid()
      && Pool(entryQueue.queues, entryValues[..])
      && fifos == FifosOf(entryQueue.queues, entryValues[..])
      && (forall p: Priority :: p in prioritySet <==> fifos[p] != [])
    }

    constructor (capacity: nat)
      requires capacity + CLASS_COUNT <= 256
      ensures Valid() && fresh(Owned()) && entryValues.Length == capacity
      ensures fifos == seq(LEVELS, _ => [])
    {
      var queue := new MultiClassQueue(CLASS_COUNT, capacity);
      var values := new Option<V>[capacity](_ => None);
      FilledNone(CLASS_COUNT, FREE_CLASS);
      for i := 0 to capacity
        invariant queue.Valid() && fresh(queue.list.nodes)
        invariant queue.queues == Filled(CLASS_COUNT, FREE_CLASS, i)
        invariant forall e :: 0 <= e < capacity ==> values[e] == None
      {
        FilledMore(CLASS_COUNT, FREE_CLASS, i);
        queue.MoveBack(FREE_CLASS, i);
      }
      FilledPool(values[..]);
      entryQueue := queue;
      entryValues := values;
      prioritySet := {};
      fifos := seq(LEVELS, _ => []);
    }

    method Push(priority: Priority, value: V) returns (ok: bool)
      requires Valid()
      modifies Owned()
      ensures Valid()
      ensures ok <==> Count(old(fifos)) < entryValues.Length
      ensures fifos == if ok then old(fifos)[priority := old(fifos)[priority] + [value]] else old(fifos)
    {
      FreeWhenNotFull(entryQueue.queues, entryValues[..]);
      var entry := entryQueue.Front(FREE_CLASS);
      if entry == None {
        return false;
      }
      PushRefines(entryQueue.queues, entryValues[..], priority, value);
      MoveFirst(entryQueue.queues, entryValues.Length, FREE_CLASS, priority);
      entryQueue.MoveBack(priority, entry.value);
      prioritySet := prioritySet + {priority};
      entryValues[entry.value] := Some(value);
      fifos := fifos[priority := fifos[priority] + [value]];
      assert entryValues[..] == old(entryValues[..])[entry.value := Some(value)];
      ok := true;
    }

    method Pop(priority: Priority) returns (r: Option<V>)
      requires Valid()
      modifies Owned()
      ensures Valid()
      ensures old(fifos)[priority] == [] ==> r == None && fifos == old(fifos)
      ensures old(fifos)[priority] != [] ==>
        r == Some(old(fifos)[priority][0]) && fifos == old(fifos)[priority := old(fifos)[priority][1..]]
    {
      var entry := entryQueue.Front(priority);
      if entry == None {
        return None;
      }
      PopRefines(entryQueue.queues, entryValues[..], priority);
      MoveFirst(entryQueue.queues, entryValues.Length, priority, FREE_CLASS);
      entryQueue.MoveBack(FREE_CLASS, entry.value);
      var empty := entryQueue.IsEmpty(priority);
      if empty {
        prioritySet := prioritySet - {priority};
      }
      r := entryValues[entry.value];
      entryValues[entry.value] := None;
      fifos := fifos[priority := fifos[priority][1..]];
      assert entryValues[..] == old(entryValues[..])[entry.value := None];
    }

    function MaxPriority(): (r: Option<Priority>)
      requires Valid()
      reads Owned()
      ensures match r
        case None => Count(fifos) == 0
        case Some(p) => fifos[p] != [] && forall q: Priority :: fifos[q] != [] ==> q <= p
    {
      CountZero(fifos, LEVELS);
      Last(prioritySet)
    }
  }
}
