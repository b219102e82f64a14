/** A keyed table with a recency queue over its keys. */
module IndexQueues {
  import opened Wrappers
  import opened ClassQueues

  const QUEUE_CLASS: u8 := 0
  const FREE_CLASS: u8 := 1
  const CLASS_COUNT: u8 := 2
  const NO_ENTRY: u8 := 255

  // ---------------------------------------------------------------- the table as a map and a sequence

  /** Free entries are the empty ones; `index` and `keys` are inverse to each other. */
  ghost predicate Table<V>(queues: seq<seq<nat>>, keys: seq<Option<nat>>, values: seq<Option<V>>, index: seq<u8>) {
    && |queues| == CLASS_COUNT && |keys| == |values| <= 256 - CLASS_COUNT
    && Distinct(queues, |keys|)
    && (forall e :: 0 <= e < |keys| ==>
          && (keys[e].Some? <==> values[e].Some?)
          && (keys[e].None? <==> e in queues[FREE_CLASS])
          && (keys[e].Some? ==> keys[e].value < |index| && index[keys[e].value] == e))
    && (forall k :: 0 <= k < |index| && index[k] != NO_ENTRY ==> index[k] < |keys| && keys[index[k]] == Some(k))
    && |queues[FREE_CLASS]| + |Present(index)| == |keys|
  }

  function Present(index: seq<u8>): set<nat> {
    set k: nat | k < |index| && index[k] != NO_ENTRY
  }

  ghost function ContentsOf<V>(keys: seq<Option<nat>>, values: seq<Option<V>>, index: seq<u8>): map<nat, V>
    requires forall k :: k in Present(index) ==> index[k] < |values| && values[index[k]].Some?
  {
    map k | k in Present(index) :: values[index[k]].value
  }

  ghost predicate Keyed(q: seq<nat>, keys: seq<Option<nat>>) {
    forall i :: 0 <= i < |q| ==> q[i] < |keys| && keys[q[i]].Some?
  }

  function KeysOf(q: seq<nat>, keys: seq<Option<nat>>): (r: seq<nat>)
    requires Keyed(q, keys)
    ensures |r| == |q|
  {
    seq(|q|, i requires 0 <= i < |q| => keys[q[i]].value)
  }

  lemma QueueKeyed<V>(queues: seq<seq<nat>>, keys: seq<Option<nat>>, values: seq<Option<V>>, index: seq<u8>)
    requires Table(queues, keys, values, index)
    ensures Keyed(queues[QUEUE_CLASS], keys)
  {
    var q, f := queues[QUEUE_CLASS], queues[FREE_CLASS];
    forall i | 0 <= i < |q|
      ensures q[i] < |keys| && keys[q[i]].Some?
    {
      assert InQueue(queues, QUEUE_CLASS, i);
      forall j | 0 <= j < |f| ensures f[j] != q[i] {
        assert InQueue(queues, FREE_CLASS, j);
      }
    }
  }

  /** Keys identify entries, so removing an entry removes its key. */
  lemma {:induction false} KeysRemove(q: seq<nat>, keys: seq<Option<nat>>, e: nat)
    requires Keyed(q, keys) && e < |keys| && keys[e].Some?
    requires forall i, j :: 0 <= i < |keys| && 0 <= j < |keys| && keys[i].Some? && keys[i] == keys[j] ==> i == j
    ensures Keyed(Remove(q, e), keys)
    ensures KeysOf(Remove(q, e), keys) == Remove(KeysOf(q, keys), keys[e].value)
  {
    if q != [] {
      assert KeysOf(q, keys)[1..] == KeysOf(q[1..], keys);
      assert keys[q[0]] == keys[e] <==> q[0] == e;
      KeysRemove(q[1..], keys, e);
      var rest := Remove(q[1..], e);
      if q[0] != e {
        assert KeysOf([q[0]] + rest, keys) == [keys[q[0]].value] + KeysOf(rest, keys);
      }
    }
  }

  lemma {:induction false} RemoveIn(q: seq<nat>, e: nat, x: nat)
    ensures x in Remove(q, e) ==> x in q
    ensures x in q && x != e ==> x in Remove(q, e)
  {
    if q != [] {
      RemoveIn(q[1..], e, x);
    }
  }

  lemma PresentUpdate(index: seq<u8>, k: nat, v: u8)
    requires k < |index|
    ensures Present(index[k := v]) == if v == NO_ENTRY then Present(index) - {k} else Present(index) + {k}
  {
  }

  /** Any change of the recency queue alone keeps the table and its contents. */
  lemma RequeueTable<V>(queues: seq<seq<nat>>, keys: seq<Option<nat>>, values: seq<Option<V>>, index: seq<u8>,
                        queues': seq<seq<nat>>)
    requires Table(queues, keys, values, index)
    requires |queues'| == CLASS_COUNT && Distinct(queues', |keys|) && queues'[FREE_CLASS] == queues[FREE_CLASS]
    ensures Table(queues', keys, values, index)
  {
  }

  /** A loose entry can go to either end of either queue. */
  lemma PairDistinct(q: seq<nat>, f: seq<nat>, n: nat, e: nat)
    requires Distinct([q, f], n) && e < n && !Queued([q, f], e)
    ensures Distinct([[e] + q, f], n) && Distinct([q + [e], f], n) && Distinct([q, f + [e]], n)
  {
    InsertDistinct([q, f], n, 0, 0, e);
    assert q[..0] + [e] + q[0..] == [e] + q;
    assert [q, f][0 := [e] + q] == [[e] + q, f];
    InsertDistinct([q, f], n, 0, |q|, e);
    assert q[..|q|] + [e] + q[|q|..] == q + [e];
    assert [q, f][0 := q + [e]] == [q + [e], f];
    InsertDistinct([q, f], n, 1, |f|, e);
    assert f[..|f|] + [e] + f[|f|..] == f + [e];
    assert [q, f][1 := f + [e]] == [q, f + [e]];
  }

  /** Taking a used entry out of its queue leaves the free queue alone. */
  lemma WithoutUsed<V>(queues: seq<seq<nat>>, keys: seq<Option<nat>>, values: seq<Option<V>>, index: seq<u8>, k: nat)
    requires Table(queues, keys, values, index) && k in Present(index)
    ensures var (q, f, e) := (queues[QUEUE_CLASS], queues[FREE_CLASS], index[k]);
      && e < |keys|
      && Without(queues, e) == [Remove(q, e), f]
      && Distinct([Remove(q, e), f], |keys|) && !Queued([Remove(q, e), f], e)
      && Keyed(q, keys) && Keyed(Remove(q, e), keys)
      && KeysOf(Remove(q, e), keys) == Remove(KeysOf(q, keys), k)
  {
    var e := index[k];
    assert keys[e] == Some(k);
    QueueKeyed(queues, keys, values, index);
    RemoveAbsent(queues[FREE_CLASS], e);
    WithoutDistinct(queues, |keys|, e);
    KeysRemove(queues[QUEUE_CLASS], keys, e);
    assert Without(queues, e) == [Remove(queues[QUEUE_CLASS], e), queues[FREE_CLASS]];
  }

  /** A used entry leaves the recency queue. */
  lemma DequeueRefines<V>(queues: seq<seq<nat>>, keys: seq<Option<nat>>, values: seq<Option<V>>, index: seq<u8>, k: nat)
    requires Table(queues, keys, values, index) && k in Present(index)
    ensures Keyed(queues[QUEUE_CLASS], keys)
    ensures Requeued(queues, keys, values, index, Without(queues, index[k]),
                     Remove(KeysOf(queues[QUEUE_CLASS], keys), k))
  {
    WithoutUsed(queues, keys, values, index, k);
    RequeueOne(queues, keys, values, index, Without(queues, index[k]));
  }

  /** A used entry goes to the front of the recency queue. */
  lemma EnqueueFrontRefines<V>(queues: seq<seq<nat>>, keys: seq<Option<nat>>, values: seq<Option<V>>, index: seq<u8>,
                               k: nat)
    requires Table(queues, keys, values, index) && k in Present(index)
    ensures Keyed(queues[QUEUE_CLASS], keys)
    ensures Requeued(queues, keys, values, index, ToFront(queues, QUEUE_CLASS, index[k]),
                     [k] + Remove(KeysOf(queues[QUEUE_CLASS], keys), k))
  {
    WithoutUsed(queues, keys, values, index, k);
    var q, f, e := Remove(queues[QUEUE_CLASS], index[k]), queues[FREE_CLASS], index[k];
    PairDistinct(q, f, |keys|, e);
    RequeueOne(queues, keys, values, index, [[e] + q, f]);
    KeysCons(q, keys, e, k);
    ToFrontIs(queues, e, q, f);
  }

  lemma KeysCons(q: seq<nat>, keys: seq<Option<nat>>, e: nat, k: nat)
    requires Keyed(q, keys) && e < |keys| && keys[e] == Some(k)
    ensures Keyed([e] + q, keys) && KeysOf([e] + q, keys) == [k] + KeysOf(q, keys)
  {
    assert forall i :: 0 <= i < |[e] + q| ==> ([e] + q)[i] == if i == 0 then e else q[i - 1];
  }

  lemma ToFrontIs(queues: seq<seq<nat>>, e: nat, q: seq<nat>, f: seq<nat>)
    requires |queues| == CLASS_COUNT && Without(queues, e) == [q, f]
    ensures ToFront(queues, QUEUE_CLASS, e) == [[e] + q, f]
  {
  }

  /** A used entry goes to the back of the recency queue. */
  lemma EnqueueBackRefines<V>(queues: seq<seq<nat>>, keys: seq<Option<nat>>, values: seq<Option<V>>, index: seq<u8>,
                              k: nat)
    requires Table(queues, keys, values, index) && k in Present(index)
    ensures Keyed(queues[QUEUE_CLASS], keys)
    ensures Requeued(queues, keys, values, index, ToBack(queues, QUEUE_CLASS, index[k]),
                     Remove(KeysOf(queues[QUEUE_CLASS], keys), k) + [k])
  {
    WithoutUsed(queues, keys, values, index, k);
    var q, f, e := Remove(queues[QUEUE_CLASS], index[k]), queues[FREE_CLASS], index[k];
    PairDistinct(q, f, |keys|, e);
    RequeueOne(queues, keys, values, index, [q + [e], f]);
    assert KeysOf(q + [e], keys) == KeysOf(q, keys) + [k];
    assert ToBack(queues, QUEUE_CLASS, e) == [q + [e], f];
  }

  ghost predicate Requeued<V>(queues: seq<seq<nat>>, keys: seq<Option<nat>>, values: seq<Option<V>>, index: seq<u8>,
                              queues': seq<seq<nat>>, recency: seq<nat>)
  {
    && Table(queues', keys, values, index)
    && Keyed(queues'[QUEUE_CLASS], keys)
    && KeysOf(queues'[QUEUE_CLASS], keys) == recency
  }

  lemma RequeueOne<V>(queues: seq<seq<nat>>, keys: seq<Option<nat>>, values: seq<Option<V>>, index: seq<u8>,
                      queues': seq<seq<nat>>)
    requires Table(queues, keys, values, index)
    requires |queues'| == CLASS_COUNT && Distinct(queues', |keys|) && queues'[FREE_CLASS] == queues[FREE_CLASS]
    ensures Table(queues', keys, values, index) && Keyed(queues'[QUEUE_CLASS], keys)
  {
    RequeueTable(queues, keys, values, index, queues');
    QueueKeyed(queues', keys, values, index);
  }

  /** The front entry of the free queue is taken out. */
  lemma TakeFree(queues: seq<seq<nat>>, n: nat)
    requires |queues| == CLASS_COUNT && Distinct(queues, n) && queues[FREE_CLASS] != []
    ensures var (e, f) := (queues[FREE_CLASS][0], queues[FREE_CLASS]);
      && e < n
      && Without(queues, e) == queues[FREE_CLASS := f[1..]]
      && Distinct(queues[FREE_CLASS := f[1..]], n)
      && forall x :: x in f[1..] <==> x in f && x != e
  {
    var e, f := queues[FREE_CLASS][0], queues[FREE_CLASS];
    assert InQueue(queues, FREE_CLASS, 0);
    WithoutAt(queues, n, FREE_CLASS, 0);
    WithoutDistinct(queues, n, e);
    assert f[..0] + f[1..] == f[1..];
    forall j | 0 <= j < |f[1..]| ensures f[1..][j] != e {
      assert InQueue(queues, FREE_CLASS, j + 1);
    }
    assert f == [e] + f[1..];
  }

  lemma InsertTable<V>(queues: seq<seq<nat>>, keys: seq<Option<nat>>, values: seq<Option<V>>, index: seq<u8>, k: nat,
                       v: V)
    requires Table(queues, keys, values, index) && queues[FREE_CLASS] != []
    requires k < |index| && k !in Present(index)
    ensures var e := queues[FREE_CLASS][0];
      && e < |keys| && e in queues[FREE_CLASS]
      && Without(queues, e) == queues[FREE_CLASS := queues[FREE_CLASS][1..]]
      && Table(Without(queues, e), keys[e := Some(k)], values[e := Some(v)], index[k := e])
  {
    TakeFree(queues, |keys|);
    PresentUpdate(index, k, queues[FREE_CLASS][0]);
  }

  /** Inserting an absent key adds it to the contents and leaves the recency queue alone. */
  lemma InsertRefines<V>(queues: seq<seq<nat>>, keys: seq<Option<nat>>, values: seq<Option<V>>, index: seq<u8>, k: nat,
                         v: V)
    requires Table(queues, keys, values, index) && queues[FREE_CLASS] != []
    requires k < |index| && k !in Present(index)
    ensures queues[FREE_CLASS][0] < |keys| && Keyed(queues[QUEUE_CLASS], keys)
    ensures var e := queues[FREE_CLASS][0];
      var (r, ks, vs, ix) := (Without(queues, e), keys[e := Some(k)], values[e := Some(v)], index[k := e]);
      && Requeued(r, ks, vs, ix, r, KeysOf(queues[QUEUE_CLASS], keys))
      && ContentsOf(ks, vs, ix) == ContentsOf(keys, values, index)[k := v]
  {
    var e := queues[FREE_CLASS][0];
    var (r, ks, vs, ix) := (Without(queues, e), keys[e := Some(k)], values[e := Some(v)], index[k := e]);
    InsertTable(queues, keys, values, index, k, v);
    PresentUpdate(index, k, e);
    QueueKeyed(queues, keys, values, index);
    QueueKeyed(r, ks, vs, ix);
    assert e in queues[FREE_CLASS];
    assert KeysOf(r[QUEUE_CLASS], ks) == KeysOf(queues[QUEUE_CLASS], keys);
  }

  lemma RemoveTable<V>(queues: seq<seq<nat>>, keys: seq<Option<nat>>, values: seq<Option<V>>, index: seq<u8>, k: nat)
    requires Table(queues, keys, values, index) && k in Present(index)
    ensures var e := index[k];
      && e < |keys|
      && ToBack(queues, FREE_CLASS, e) == [Remove(queues[QUEUE_CLASS], e), queues[FREE_CLASS] + [e]]
      && Table(ToBack(queues, FREE_CLASS, e), keys[e := None], values[e := None], index[k := NO_ENTRY])
  {
    WithoutUsed(queues, keys, values, index, k);
    var q, f, e := Remove(queues[QUEUE_CLASS], index[k]), queues[FREE_CLASS], index[k];
    PairDistinct(q, f, |keys|, e);
    assert ToBack(queues, FREE_CLASS, e) == [q, f + [e]];
    PresentUpdate(index, k, NO_ENTRY);
  }

  lemma RemoveContents<V>(keys: seq<Option<nat>>, values: seq<Option<V>>, index: seq<u8>, queues: seq<seq<nat>>, k: nat)
    requires Table(queues, keys, values, index) && k in Present(index)
    requires forall j :: j in Present(index[k := NO_ENTRY]) ==>
      index[j] < |values| && values[index[k] := None][index[j]].Some?
    ensures ContentsOf(keys[index[k] := None], values[index[k] := None], index[k := NO_ENTRY])
         == ContentsOf(keys, values, index) - {k}
  {
    PresentUpdate(index, k, NO_ENTRY);
  }

  /** Removing a key takes it out of the contents and out of the recency queue. */
  lemma RemoveRefines<V>(queues: seq<seq<nat>>, keys: seq<Option<nat>>, values: seq<Option<V>>, index: seq<u8>, k: nat)
    requires Table(queues, keys, values, index) && k in Present(index)
    ensures Keyed(queues[QUEUE_CLASS], keys)
    ensures var e := index[k];
      var (r, ks, vs, ix) := (ToBack(queues, FREE_CLASS, e), keys[e := None], values[e := None], index[k := NO_ENTRY]);
      && Requeued(r, ks, vs, ix, r, Remove(KeysOf(queues[QUEUE_CLASS], keys), k))
      && ContentsOf(ks, vs, ix) == ContentsOf(keys, values, index) - {k}
  {
    var e, q := index[k], queues[QUEUE_CLASS];
    var (r, ks, vs, ix) := (ToBack(queues, FREE_CLASS, e), keys[e := None], values[e := None], index[k := NO_ENTRY]);
    RemoveTable(queues, keys, values, index, k);
    WithoutUsed(queues, keys, values, index, k);
    RemoveContents(keys, values, index, queues, k);
    QueueKeyed(r, ks, vs, ix);
    assert KeysOf(r[QUEUE_CLASS], ks) == KeysOf(Remove(q, e), keys);
  }

  lemma SetRefines<V>(queues: seq<seq<nat>>, keys: seq<Option<nat>>, values: seq<Option<V>>, index: seq<u8>, k: nat,
                      v: V)
    requires Table(queues, keys, values, index) && k in Present(index)
    ensures index[k] < |values|
    ensures Table(queues, keys, values[index[k] := Some(v)], index)
    ensures ContentsOf(keys, values[index[k] := Some(v)], index) == ContentsOf(keys, values, index)[k := v]
  {
    var vs := values[index[k] := Some(v)];
    forall j | j in Present(index) ensures vs[index[j]] == if j == k then Some(v) else values[index[j]] {
      assert index[j] == index[k] ==> j == k;
    }
  }

  // ---------------------------------------------------------------- the table object

  /** All entries free. */
  lemma EmptyTable<V>(keys: seq<Option<nat>>, values: seq<Option<V>>, index: seq<u8>, queues: seq<seq<nat>>)
    requires |keys| == |values| <= 256 - CLASS_COUNT
    requires forall e :: 0 <= e < |keys| ==> keys[e] == None && values[e] == None
    requires forall k :: 0 <= k < |index| ==> index[k] == NO_ENTRY
    requires queues == [[], seq(|keys|, i => i)]
    ensures Table(queues, keys, values, index)
    ensures Present(index) == {}
  {
    forall e | 0 <= e < |keys| ensures e in queues[FREE_CLASS] {
      assert queues[FREE_CLASS][e] == e;
    }
    assert Distinct(queues, |keys|);
    assert Present(index) == {};
  }

  lemma FillFree(i: nat)
    ensures ToBack([[], seq(i, j => j)], FREE_CLASS, i) == [[], seq(i + 1, j => j)]
  {
    var queues: seq<seq<nat>> := [[], seq(i, j => j)];
    forall c, j | InQueue(queues, c, j) ensures queues[c][j] != i {
      assert c == FREE_CLASS;
    }
    WithoutAbsent(queues, i);
    assert seq(i, j => j) + [i] == seq(i + 1, j => j);
  }

  class IndexQueue<V> {
    const keys: array<Option<nat>>
    const values: array<Option<V>>
    const index: array<u8>
    const queue: MultiClassQueue
    ghost var contents: map<nat, V>
    /** The enqueued keys, least recent first. */
    ghost var recency: seq<nat>

    ghost function Owned(): set<object>
    {
      {this, keys, values, index, queue, queue.list, queue.list.nodes}
    }

    ghost predicate Valid()
      reads Owned()
    {
      && keys as object != values as object && keys as object != index as object && values as object != index as object
      && queue.list.nodes as object != keys as object && queue.list.nodes as object != values as object
      && queue.list.nodes as object != index as object
      && queue.classCount == CLASS_COUNT && queue.entryCount == keys.Length
      && queue.Valid()
      && Table(queue.queues, keys[..], values[..], index[..])
      && Keyed(queue.queues[QUEUE_CLASS], keys[..])
      && contents == ContentsOf(keys[..], values[..], index[..])
      && recency == KeysOf(queue.queues[QUEUE_CLASS], keys[..])
    }

    constructor (maxKey: nat, capacity: nat)
      requires capacity + CLASS_COUNT <= 256
      ensures Valid() && fresh(Owned()) && keys.Length == capacity && index.Length == maxKey + 1
      ensures contents == map[] && recency == []
    {
      var q := new MultiClassQueue(CLASS_COUNT, capacity);
      var ks := new Option<nat>[capacity](_ => None);
      var vs := new Option<V>[capacity](_ => None);
      var ix := new u8[maxKey + 1](_ => NO_ENTRY);
      assert seq(0, j => j) == [];
      for i := 0 to capacity
        invariant q.Valid() && fresh(q.list.nodes)
        invariant q.queues == [[], seq(i, j => j)]
        invariant forall e :: 0 <= e < capacity ==> ks[e] == None && vs[e] == None
        invariant forall k :: 0 <= k <= maxKey ==> ix[k] == NO_ENTRY
      {
        FillFree(i);
        q.MoveBack(FREE_CLASS, i);
      }
      EmptyTable(ks[..], vs[..], ix[..], q.queues);
      keys, values, index, queue := ks, vs, ix, q;
      contents, recency := map[], [];
    }

    function GetIndex(key: nat): (r: Option<u8>)
      requires Valid()
      reads Owned()
      ensures r.Some? <==> key in contents
      ensures r.Some? ==> key < index.Length && r == Some(index[key]) && r.value < keys.Length
    {
      if key < index.Length && index[key] != NO_ENTRY then Some(index[key]) else None
    }

    function Get(key: nat): (r: Option<V>)
      requires Valid()
      reads Owned()
      ensures r == if key in contents then Some(contents[key]) else None
    {
      match GetIndex(key)
      case None => None
      case Some(idx) => values[idx]
    }

    /** Writes through a reference to a present value. */
    method Set(key: nat, value: V)
      requires Valid() && key in contents
      modifies this, values
      ensures Valid() && recency == old(recency)
      ensures contents == old(contents)[key := value]
    {
      var idx := GetIndex(key);
      SetRefines(queue.queues, keys[..], values[..], index[..], key, value);
      values[idx.value] := Some(value);
      contents := contents[key := value];
      assert values[..] == old(values[..])[idx.value := Some(value)];
    }

    /** A new key joins the map. A key that is present already loses its value but not its index entry, which leaves
        the table broken: callers rule that out. */
    method Insert(key: nat, value: V) returns (ok: bool, displaced: Option<V>)
      requires Valid()
      modifies Owned()
      ensures Valid() <==> key !in old(contents)
      ensures contents == if ok && key !in old(contents) then old(contents)[key := value] else old(contents)
      ensures recency == old(recency)
      ensures key !in old(contents) ==>
        displaced == None && (ok <==> key < index.Length && |old(contents)| < keys.Length)
      ensures key in old(contents) ==> ok && displaced == Some(old(contents)[key])
      ensures key in old(contents) ==> keys[..] == old(keys[..]) && index[..] == old(index[..])
      ensures key in old(contents) ==> values[..] == old(values[..])[old(index[key]) := None]
    {
      if key >= index.Length {
        return false, None;
      }
      var present := GetIndex(key);
      if present != None {
        ok, displaced := true, values[present.value];
        values[present.value] := None;
        assert values[..] == old(values[..])[present.value := None];
        return;
      }
      ok := InsertNew(key, value);
      displaced := None;
    }

    method InsertNew(key: nat, value: V) returns (ok: bool)
      requires Valid() && key !in contents && key < index.Length
      modifies Owned()
      ensures Valid()
      ensures ok <==> |old(contents)| < keys.Length
      ensures contents == if ok then old(contents)[key := value] else old(contents)
      ensures recency == old(recency)
    {
      assert contents.Keys == Present(index[..]);
      var idx := queue.Front(FREE_CLASS);
      if idx == None {
        return false;
      }
      InsertRefines(queue.queues, keys[..], values[..], index[..], key, value);
      queue.RemoveEntry(idx.value);
      keys[idx.value] := Some(key);
      values[idx.value] := Some(value);
      index[key] := idx.value;
      contents := contents[key := value];
      assert keys[..] == old(keys[..])[idx.value := Some(key)];
      assert values[..] == old(values[..])[idx.value := Some(value)];
      assert index[..] == old(index[..])[key := idx.value];
      ok := true;
    }

    method RemoveKey(key: nat) returns (r: Option<V>)
      requires Valid()
      modifies Owned()
      ensures Valid()
      ensures r == if key in old(contents) then Some(old(contents)[key]) else None
      ensures contents == old(contents) - {key}
      ensures recency == if key in old(contents) then Remove(old(recency), key) else old(recency)
    {
      var idx := GetIndex(key);
      if idx == None {
        return None;
      }
      var e := idx.value;
      RemoveRefines(queue.queues, keys[..], values[..], index[..], key);
      index[key] := NO_ENTRY;
      queue.MoveBack(FREE_CLASS, e);
      keys[e] := None;
      r := values[e];
      values[e] := None;
      contents, recency := contents - {key}, Remove(recency, key);
      assert keys[..] == old(keys[..])[e := None];
      assert values[..] == old(values[..])[e := None];
      assert index[..] == old(index[..])[key := NO_ENTRY];
    }

    function Front(): (r: Option<nat>)
      requires Valid()
      reads Owned()
      ensures r == if recency == [] then None else Some(recency[0])
    {
      match queue.Front(QUEUE_CLASS)
      case None => None
      case Some(idx) => keys[idx]
    }

    function Back(): (r: Option<nat>)
      requires Valid()
      reads Owned()
      ensures r == if recency == [] then None else Some(recency[|recency| - 1])
    {
      match queue.Back(QUEUE_CLASS)
      case None => None
      case Some(idx) => keys[idx]
    }

    method EnqueueFront(key: nat) returns (ok: bool)
      requires Valid()
      modifies Owned()
      ensures Valid() && contents == old(contents)
      ensures ok <==> key in old(contents)
      ensures recency == if ok then [key] + Remove(old(recency), key) else old(recency)
    {
      var idx := GetIndex(key);
      if idx == None {
        return false;
      }
      EnqueueFrontRefines(queue.queues, keys[..], values[..], index[..], key);
      queue.MoveFront(QUEUE_CLASS, idx.value);
      recency := [key] + Remove(recency, key);
      ok := true;
    }

    method EnqueueBack(key: nat) returns (ok: bool)
      requires Valid()
      modifies Owned()
      ensures Valid() && contents == old(contents)
      ensures ok <==> key in old(contents)
      ensures recency == if ok then Remove(old(recency), key) + [key] else old(recency)
    {
      var idx := GetIndex(key);
      if idx == None {
        return false;
      }
      EnqueueBackRefines(queue.queues, keys[..], values[..], index[..], key);
      queue.MoveBack(QUEUE_CLASS, idx.value);
      recency := Remove(recency, key) + [key];
      ok := true;
    }

    method Dequeue(key: nat) returns (ok: bool)
      requires Valid()
      modifies Owned()
      ensures Valid() && contents == old(contents)
      ensures ok <==> key in old(contents)
      ensures recency == if ok then Remove(old(recency), key) else old(recency)
    {
      var idx := GetIndex(key);
      if idx == None {
        return false;
      }
      DequeueRefines(queue.queues, keys[..], values[..], index[..], key);
      queue.RemoveEntry(idx.value);
      recency := Remove(recency, key);
      ok := true;
    }
  }
}
