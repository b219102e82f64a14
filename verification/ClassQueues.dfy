/** Doubly linked cyclic lists in one array of nodes, and the family of queues they encode. */
module ClassQueues {
  import opened Wrappers

  type u8 = n: nat | n < 256

  datatype Node = Node(next: u8, prev: u8)

  // ---------------------------------------------------------------- what the nodes mean

  ghost predicate InQueue(queues: seq<seq<nat>>, c: int, i: int) {
    0 <= c < |queues| && 0 <= i < |queues[c]|
  }

  ghost predicate Queued(queues: seq<seq<nat>>, e: nat) {
    exists c, i :: InQueue(queues, c, i) && queues[c][i] == e
  }

  /** The queues hold entries below `n`, each at most once in all. */
  ghost predicate Distinct(queues: seq<seq<nat>>, n: nat) {
    && (forall c, i :: InQueue(queues, c, i) ==> queues[c][i] < n)
    && (forall c, i, c', i' :: InQueue(queues, c, i) && InQueue(queues, c', i') && queues[c][i] == queues[c'][i'] ==>
          c == c' && i == i')
  }

  ghost predicate IsLink(queues: seq<seq<nat>>, c: int, i: int) {
    0 <= c < |queues| && 0 <= i <= |queues[c]|
  }

  /** Around the cycle of class `c`: the class node, its entries in order, the class node again. */
  ghost function NodeAt(queues: seq<seq<nat>>, c: nat, i: nat): nat
    requires c < |queues| && i <= |queues[c]| + 1
  {
    if i == 0 || i == |queues[c]| + 1 then c else |queues| + queues[c][i - 1]
  }

  ghost predicate CyclesLinked(s: seq<Node>, queues: seq<seq<nat>>, n: nat)
    requires |s| == |queues| + n && Distinct(queues, n)
  {
    forall c, i :: IsLink(queues, c, i) ==>
      && s[NodeAt(queues, c, i)].next == NodeAt(queues, c, i + 1)
      && s[NodeAt(queues, c, i + 1)].prev == NodeAt(queues, c, i)
  }

  ghost predicate OthersLoose(s: seq<Node>, queues: seq<seq<nat>>, n: nat)
    requires |s| == |queues| + n <= 256
  {
    forall e :: 0 <= e < n && !Queued(queues, e) ==> s[|queues| + e] == Node(|queues| + e, |queues| + e)
  }

  /** One cycle per class through its class node; every other entry is a cycle of its own. */
  ghost predicate Encodes(s: seq<Node>, queues: seq<seq<nat>>, n: nat) {
    && |s| == |queues| + n <= 256
    && Distinct(queues, n)
    && CyclesLinked(s, queues, n)
    && OthersLoose(s, queues, n)
  }

  lemma NodeAtInjective(queues: seq<seq<nat>>, n: nat, c: nat, i: nat, c': nat, i': nat)
    requires Distinct(queues, n)
    requires IsLink(queues, c, i) && IsLink(queues, c', i')
    ensures NodeAt(queues, c, i) == NodeAt(queues, c', i') ==> c == c' && i == i'
  {
    assert i > 0 ==> InQueue(queues, c, i - 1);
    assert i' > 0 ==> InQueue(queues, c', i' - 1);
  }

  // ---------------------------------------------------------------- queue operations

  function Remove(q: seq<nat>, e: nat): seq<nat> {
    if q == [] then []
    else if q[0] == e then q[1..]
    else [q[0]] + Remove(q[1..], e)
  }

  /** `e` leaves whatever queue it is in. */
  function Without(queues: seq<seq<nat>>, e: nat): (r: seq<seq<nat>>)
    ensures |r| == |queues|
  {
    seq(|queues|, c requires 0 <= c < |queues| => Remove(queues[c], e))
  }

  function ToBack(queues: seq<seq<nat>>, c: nat, e: nat): seq<seq<nat>>
    requires c < |queues|
  {
    var rest := Without(queues, e);
    rest[c := rest[c] + [e]]
  }

  function ToFront(queues: seq<seq<nat>>, c: nat, e: nat): seq<seq<nat>>
    requires c < |queues|
  {
    var rest := Without(queues, e);
    rest[c := [e] + rest[c]]
  }

  lemma {:induction false} RemoveAbsent(q: seq<nat>, e: nat)
    requires e !in q
    ensures Remove(q, e) == q
  {
    if q != [] {
      RemoveAbsent(q[1..], e);
    }
  }

  lemma {:induction false} RemoveAt(q: seq<nat>, k: nat)
    requires k < |q| && q[k] !in q[..k]
    ensures Remove(q, q[k]) == q[..k] + q[k + 1..]
  {
    if k > 0 {
      assert q[0] in q[..k];
      assert q[1..][..k - 1] == q[..k][1..];
      RemoveAt(q[1..], k - 1);
    }
  }

  /** Removing a queued entry changes its own queue only. */
  lemma WithoutAt(queues: seq<seq<nat>>, n: nat, c: nat, k: nat)
    requires Distinct(queues, n) && InQueue(queues, c, k)
    ensures Without(queues, queues[c][k]) == queues[c := queues[c][..k] + queues[c][k + 1..]]
  {
    var e := queues[c][k];
    forall d | 0 <= d < |queues|
      ensures Remove(queues[d], e) == queues[c := queues[c][..k] + queues[c][k + 1..]][d]
    {
      if d == c {
        forall i | 0 <= i < k ensures queues[c][i] != e {
          assert InQueue(queues, c, i);
        }
        RemoveAt(queues[c], k);
      } else {
        forall i | 0 <= i < |queues[d]| ensures queues[d][i] != e {
          assert InQueue(queues, d, i);
        }
        RemoveAbsent(queues[d], e);
      }
    }
  }

  lemma WithoutAbsent(queues: seq<seq<nat>>, e: nat)
    requires !Queued(queues, e)
    ensures Without(queues, e) == queues
  {
    forall d | 0 <= d < |queues|
      ensures Remove(queues[d], e) == queues[d]
    {
      forall i | 0 <= i < |queues[d]| ensures queues[d][i] != e {
        assert InQueue(queues, d, i);
      }
      RemoveAbsent(queues[d], e);
    }
  }

  lemma RemoveDistinct(queues: seq<seq<nat>>, n: nat, c: nat, k: nat)
    requires Distinct(queues, n) && InQueue(queues, c, k)
    ensures var r := queues[c := queues[c][..k] + queues[c][k + 1..]];
      && Distinct(r, n)
      && forall x :: Queued(r, x) <==> x != queues[c][k] && Queued(queues, x)
  {
    var r := queues[c := queues[c][..k] + queues[c][k + 1..]];
    var was := (d: int, i: int) => if d == c && i >= k then i + 1 else i;
    forall d, i | InQueue(r, d, i)
      ensures InQueue(queues, d, was(d, i)) && r[d][i] == queues[d][was(d, i)] && r[d][i] != queues[c][k]
    {
      assert InQueue(queues, d, was(d, i));
    }
    forall x | x != queues[c][k] && Queued(queues, x)
      ensures Queued(r, x)
    {
      var d, i :| InQueue(queues, d, i) && queues[d][i] == x;
      var j := if d == c && i > k then i - 1 else i;
      assert InQueue(r, d, j) && r[d][j] == x;
    }
  }

  lemma WithoutDistinct(queues: seq<seq<nat>>, n: nat, e: nat)
    requires Distinct(queues, n)
    ensures Distinct(Without(queues, e), n)
    ensures forall x :: Queued(Without(queues, e), x) <==> x != e && Queued(queues, x)
  {
    if Queued(queues, e) {
      var c, k :| InQueue(queues, c, k) && queues[c][k] == e;
      WithoutAt(queues, n, c, k);
      RemoveDistinct(queues, n, c, k);
    } else {
      WithoutAbsent(queues, e);
    }
  }

  // ---------------------------------------------------------------- node operations

  ghost predicate InRange(s: seq<Node>) {
    forall i :: 0 <= i < |s| ==> s[i].next < |s| && s[i].prev < |s|
  }

  function SetNext(s: seq<Node>, node: nat, next: u8): seq<Node>
    requires node < |s|
  {
    s[node := s[node].(next := next)]
  }

  function SetPrev(s: seq<Node>, node: nat, prev: u8): seq<Node>
    requires node < |s|
  {
    s[node := s[node].(prev := prev)]
  }

  /** The neighbours of `node` are linked to each other and `node` to itself. */
  function Unbind(s: seq<Node>, node: u8): seq<Node>
    requires node < |s| && s[node].next < |s| && s[node].prev < |s|
  {
    SetNext(SetPrev(s[node := Node(node, node)], s[node].next, s[node].prev), s[node].prev, s[node].next)
  }

  /** `node` goes between the neighbours `a` and `b`. */
  function Insert(s: seq<Node>, node: u8, a: u8, b: u8): seq<Node>
    requires node < |s| && a < |s| && b < |s|
  {
    SetNext(SetPrev(s[node := Node(b, a)], b, node), a, node)
  }

  lemma NodeBound(queues: seq<seq<nat>>, n: nat, c: nat, i: nat)
    requires Distinct(queues, n) && c < |queues| && i <= |queues[c]| + 1
    ensures NodeAt(queues, c, i) < |queues| + n
  {
    if 0 < i <= |queues[c]| {
      assert InQueue(queues, c, i - 1);
    }
  }

  /** The two links of a node on a cycle. */
  lemma NodeLinks(s: seq<Node>, queues: seq<seq<nat>>, n: nat, c: nat, k: nat)
    requires Encodes(s, queues, n) && InQueue(queues, c, k)
    ensures s[|queues| + queues[c][k]] == Node(NodeAt(queues, c, k + 2), NodeAt(queues, c, k))
  {
    assert IsLink(queues, c, k) && IsLink(queues, c, k + 1);
    assert NodeAt(queues, c, k + 1) == |queues| + queues[c][k];
  }

  lemma ClassLinks(s: seq<Node>, queues: seq<seq<nat>>, n: nat, c: nat)
    requires Encodes(s, queues, n) && c < |queues|
    ensures s[c] == Node(NodeAt(queues, c, 1), NodeAt(queues, c, |queues[c]|))
  {
    assert IsLink(queues, c, 0) && IsLink(queues, c, |queues[c]|);
    assert NodeAt(queues, c, 0) == c && NodeAt(queues, c, |queues[c]| + 1) == c;
  }

  lemma NodesInRange(s: seq<Node>, queues: seq<seq<nat>>, n: nat)
    requires Encodes(s, queues, n)
    ensures InRange(s)
  {
    forall i | 0 <= i < |s|
      ensures s[i].next < |s| && s[i].prev < |s|
    {
      if i < |queues| {
        ClassLinks(s, queues, n, i);
        NodeBound(queues, n, i, 1);
        NodeBound(queues, n, i, |queues[i]|);
      } else if Queued(queues, i - |queues|) {
        var c, k :| InQueue(queues, c, k) && queues[c][k] == i - |queues|;
        NodeLinks(s, queues, n, c, k);
        NodeBound(queues, n, c, k);
        NodeBound(queues, n, c, k + 2);
      }
    }
  }

  /** Link number `i` of cycle `d` after the removal of entry `k` from cycle `c`. */
  lemma RemovedLink(queues: seq<seq<nat>>, c: nat, k: nat, d: nat, i: nat)
    requires InQueue(queues, c, k)
    requires var r := queues[c := queues[c][..k] + queues[c][k + 1..]]; IsLink(r, d, i)
    ensures var r := queues[c := queues[c][..k] + queues[c][k + 1..]];
      if d == c && i == k then
        NodeAt(r, c, k) == NodeAt(queues, c, k) && NodeAt(r, c, k + 1) == NodeAt(queues, c, k + 2)
      else
        var j := if d == c && i > k then i + 1 else i;
        && IsLink(queues, d, j)
        && NodeAt(r, d, i) == NodeAt(queues, d, j) && NodeAt(r, d, i + 1) == NodeAt(queues, d, j + 1)
  {
  }

  lemma UnbindQueued(s: seq<Node>, queues: seq<seq<nat>>, n: nat, c: nat, k: nat)
    requires Encodes(s, queues, n) && InQueue(queues, c, k)
    requires InRange(s)
    ensures Encodes(Unbind(s, |queues| + queues[c][k]), Without(queues, queues[c][k]), n)
  {
    UnbindCycles(s, queues, n, c, k);
    UnbindOthers(s, queues, n, c, k);
  }

  lemma UnbindCycles(s: seq<Node>, queues: seq<seq<nat>>, n: nat, c: nat, k: nat)
    requires Encodes(s, queues, n) && InQueue(queues, c, k)
    requires InRange(s)
    ensures Distinct(Without(queues, queues[c][k]), n)
    ensures CyclesLinked(Unbind(s, |queues| + queues[c][k]), Without(queues, queues[c][k]), n)
  {
    var e := queues[c][k];
    var t, r := Unbind(s, |queues| + e), Without(queues, e);
    WithoutAt(queues, n, c, k);
    WithoutDistinct(queues, n, e);
    forall d, i | IsLink(r, d, i)
      ensures t[NodeAt(r, d, i)].next == NodeAt(r, d, i + 1)
      ensures t[NodeAt(r, d, i + 1)].prev == NodeAt(r, d, i)
    {
      RemovedLink(queues, c, k, d, i);
      if d == c && i == k {
        UnbindJoins(s, queues, n, c, k);
      } else {
        UnbindOther(s, queues, n, c, k, d, if d == c && i > k then i + 1 else i);
      }
    }
  }

  lemma UnbindOthers(s: seq<Node>, queues: seq<seq<nat>>, n: nat, c: nat, k: nat)
    requires Encodes(s, queues, n) && InQueue(queues, c, k)
    requires InRange(s)
    ensures OthersLoose(Unbind(s, |queues| + queues[c][k]), Without(queues, queues[c][k]), n)
  {
    var e := queues[c][k];
    var t, r := Unbind(s, |queues| + e), Without(queues, e);
    WithoutDistinct(queues, n, e);
    forall x | 0 <= x < n && !Queued(r, x)
      ensures t[|r| + x] == Node(|r| + x, |r| + x)
    {
      if x == e {
        UnbindJoins(s, queues, n, c, k);
      } else {
        assert !Queued(queues, x);
        UnbindLoose(s, queues, n, c, k, x);
      }
    }
  }

  /** The neighbours become neighbours, the entry a cycle of its own. */
  lemma UnbindJoins(s: seq<Node>, queues: seq<seq<nat>>, n: nat, c: nat, k: nat)
    requires Encodes(s, queues, n) && InQueue(queues, c, k) && InRange(s)
    ensures var t := Unbind(s, |queues| + queues[c][k]);
      && t[NodeAt(queues, c, k)].next == NodeAt(queues, c, k + 2)
      && t[NodeAt(queues, c, k + 2)].prev == NodeAt(queues, c, k)
      && t[|queues| + queues[c][k]] == Node(|queues| + queues[c][k], |queues| + queues[c][k])
  {
    NodeLinks(s, queues, n, c, k);
    var a, b, node := NodeAt(queues, c, k), NodeAt(queues, c, k + 2), |queues| + queues[c][k];
    NodeAtInjective(queues, n, c, k, c, k + 1);
    assert k + 1 < |queues[c]| ==> InQueue(queues, c, k + 1);
  }

  lemma UnbindLoose(s: seq<Node>, queues: seq<seq<nat>>, n: nat, c: nat, k: nat, x: nat)
    requires Encodes(s, queues, n) && InQueue(queues, c, k) && InRange(s)
    requires x < n && !Queued(queues, x)
    ensures Unbind(s, |queues| + queues[c][k])[|queues| + x] == Node(|queues| + x, |queues| + x)
  {
    NodeLinks(s, queues, n, c, k);
    NotQueuedNotNode(queues, n, x, c, k);
    NotQueuedNotNode(queues, n, x, c, k + 1);
    NotQueuedNotNode(queues, n, x, c, k + 2);
  }

  lemma NotQueuedNotNode(queues: seq<seq<nat>>, n: nat, x: nat, c: nat, i: nat)
    requires Distinct(queues, n) && c < |queues| && i <= |queues[c]| + 1 && !Queued(queues, x)
    ensures NodeAt(queues, c, i) != |queues| + x
  {
    if 0 < i <= |queues[c]| {
      assert InQueue(queues, c, i - 1);
    }
  }

  /** Links that do not touch the removed entry stay as they are. */
  lemma UnbindOther(s: seq<Node>, queues: seq<seq<nat>>, n: nat, c: nat, k: nat, d: nat, j: nat)
    requires Encodes(s, queues, n) && InQueue(queues, c, k) && InRange(s)
    requires IsLink(queues, d, j) && !(d == c && (j == k || j == k + 1))
    ensures var t := Unbind(s, |queues| + queues[c][k]);
      && t[NodeAt(queues, d, j)].next == NodeAt(queues, d, j + 1)
      && t[NodeAt(queues, d, j + 1)].prev == NodeAt(queues, d, j)
  {
    NodeLinks(s, queues, n, c, k);
    var a, b, node := NodeAt(queues, c, k), NodeAt(queues, c, k + 2), |queues| + queues[c][k];
    assert NodeAt(queues, c, k + 1) == node;
    var x, y := NodeAt(queues, d, j), NodeAt(queues, d, j + 1);
    assert s[x].next == y && s[y].prev == x;
    NodeAtInjective(queues, n, d, j, c, k);
    NodeAtInjective(queues, n, d, j, c, k + 1);
    assert IsLink(queues, c, k + 1);
    assert s[node].prev == a && s[b].prev == node;
  }

  /** Unbinding takes an entry out of its queue and leaves every other queue alone. */
  lemma UnbindEncodes(s: seq<Node>, queues: seq<seq<nat>>, n: nat, e: nat)
    requires Encodes(s, queues, n) && e < n
    ensures InRange(s)
    ensures Encodes(Unbind(s, |queues| + e), Without(queues, e), n)
    ensures !Queued(Without(queues, e), e)
  {
    NodesInRange(s, queues, n);
    WithoutDistinct(queues, n, e);
    if Queued(queues, e) {
      var c, k :| InQueue(queues, c, k) && queues[c][k] == e;
      UnbindQueued(s, queues, n, c, k);
    } else {
      WithoutAbsent(queues, e);
      assert Unbind(s, |queues| + e) == s;
    }
  }

  /** Link number `i` of cycle `d` after the insertion of `e` at position `k` of cycle `c`. */
  lemma InsertedLink(queues: seq<seq<nat>>, c: nat, k: nat, e: nat, d: nat, i: nat)
    requires IsLink(queues, c, k)
    requires var r := queues[c := queues[c][..k] + [e] + queues[c][k..]]; IsLink(r, d, i)
    ensures var r := queues[c := queues[c][..k] + [e] + queues[c][k..]];
      if d == c && i == k then
        NodeAt(r, c, k) == NodeAt(queues, c, k) && NodeAt(r, c, k + 1) == |queues| + e
      else if d == c && i == k + 1 then
        NodeAt(r, c, k + 1) == |queues| + e && NodeAt(r, c, k + 2) == NodeAt(queues, c, k + 1)
      else
        var j := if d == c && i > k then i - 1 else i;
        && IsLink(queues, d, j)
        && NodeAt(r, d, i) == NodeAt(queues, d, j) && NodeAt(r, d, i + 1) == NodeAt(queues, d, j + 1)
  {
  }

  /** Links away from the place of insertion stay as they are. */
  lemma InsertOther(s: seq<Node>, queues: seq<seq<nat>>, n: nat, c: nat, k: nat, e: nat, d: nat, j: nat)
    requires Encodes(s, queues, n) && e < n && !Queued(queues, e) && IsLink(queues, c, k)
    requires IsLink(queues, d, j) && !(d == c && j == k)
    requires NodeAt(queues, c, k) < |s| && NodeAt(queues, c, k + 1) < |s|
    ensures var t := Insert(s, |queues| + e, NodeAt(queues, c, k), NodeAt(queues, c, k + 1));
      && t[NodeAt(queues, d, j)].next == NodeAt(queues, d, j + 1)
      && t[NodeAt(queues, d, j + 1)].prev == NodeAt(queues, d, j)
  {
    var a, b := NodeAt(queues, c, k), NodeAt(queues, c, k + 1);
    var x, y := NodeAt(queues, d, j), NodeAt(queues, d, j + 1);
    assert s[x].next == y && s[y].prev == x;
    NodeAtInjective(queues, n, d, j, c, k);
    assert s[b].prev == a;
    NotQueuedNotNode(queues, n, e, d, j);
    NotQueuedNotNode(queues, n, e, d, j + 1);
  }

  /** Inserting a loose entry behind position `k` of a cycle puts it at position `k` of the queue. */
  lemma InsertEncodes(s: seq<Node>, queues: seq<seq<nat>>, n: nat, c: nat, k: nat, e: nat)
    requires Encodes(s, queues, n) && e < n && !Queued(queues, e)
    requires IsLink(queues, c, k)
    ensures NodeAt(queues, c, k) < |s| && NodeAt(queues, c, k + 1) < |s|
    ensures Encodes(Insert(s, |queues| + e, NodeAt(queues, c, k), NodeAt(queues, c, k + 1)),
                    queues[c := queues[c][..k] + [e] + queues[c][k..]], n)
  {
    NodeBound(queues, n, c, k);
    NodeBound(queues, n, c, k + 1);
    InsertCycles(s, queues, n, c, k, e);
    InsertOthers(s, queues, n, c, k, e);
  }

  lemma InsertCycles(s: seq<Node>, queues: seq<seq<nat>>, n: nat, c: nat, k: nat, e: nat)
    requires Encodes(s, queues, n) && e < n && !Queued(queues, e)
    requires IsLink(queues, c, k)
    requires NodeAt(queues, c, k) < |s| && NodeAt(queues, c, k + 1) < |s|
    ensures Distinct(queues[c := queues[c][..k] + [e] + queues[c][k..]], n)
    ensures CyclesLinked(Insert(s, |queues| + e, NodeAt(queues, c, k), NodeAt(queues, c, k + 1)),
                         queues[c := queues[c][..k] + [e] + queues[c][k..]], n)
  {
    var t := Insert(s, |queues| + e, NodeAt(queues, c, k), NodeAt(queues, c, k + 1));
    var r := queues[c := queues[c][..k] + [e] + queues[c][k..]];
    InsertDistinct(queues, n, c, k, e);
    NotQueuedNotNode(queues, n, e, c, k);
    NotQueuedNotNode(queues, n, e, c, k + 1);
    forall d, i | IsLink(r, d, i)
      ensures t[NodeAt(r, d, i)].next == NodeAt(r, d, i + 1)
      ensures t[NodeAt(r, d, i + 1)].prev == NodeAt(r, d, i)
    {
      InsertedLink(queues, c, k, e, d, i);
      if !(d == c && (i == k || i == k + 1)) {
        InsertOther(s, queues, n, c, k, e, d, if d == c && i > k then i - 1 else i);
      }
    }
  }

  lemma InsertOthers(s: seq<Node>, queues: seq<seq<nat>>, n: nat, c: nat, k: nat, e: nat)
    requires Encodes(s, queues, n) && e < n && !Queued(queues, e)
    requires IsLink(queues, c, k)
    requires NodeAt(queues, c, k) < |s| && NodeAt(queues, c, k + 1) < |s|
    ensures OthersLoose(Insert(s, |queues| + e, NodeAt(queues, c, k), NodeAt(queues, c, k + 1)),
                        queues[c := queues[c][..k] + [e] + queues[c][k..]], n)
  {
    var t := Insert(s, |queues| + e, NodeAt(queues, c, k), NodeAt(queues, c, k + 1));
    var r := queues[c := queues[c][..k] + [e] + queues[c][k..]];
    InsertDistinct(queues, n, c, k, e);
    forall x | 0 <= x < n && !Queued(r, x)
      ensures t[|r| + x] == Node(|r| + x, |r| + x)
    {
      assert !Queued(queues, x) && x != e;
      NotQueuedNotNode(queues, n, x, c, k);
      NotQueuedNotNode(queues, n, x, c, k + 1);
    }
  }

  lemma InsertDistinct(queues: seq<seq<nat>>, n: nat, c: nat, k: nat, e: nat)
    requires Distinct(queues, n) && e < n && !Queued(queues, e) && IsLink(queues, c, k)
    ensures var r := queues[c := queues[c][..k] + [e] + queues[c][k..]];
      && Distinct(r, n)
      && forall x :: Queued(r, x) <==> x == e || Queued(queues, x)
  {
    var r := queues[c := queues[c][..k] + [e] + queues[c][k..]];
    var was := (d: int, i: int) => if d == c && i > k then i - 1 else i;
    forall d, i | InQueue(r, d, i)
      ensures (d == c && i == k && r[d][i] == e)
           || (InQueue(queues, d, was(d, i)) && r[d][i] == queues[d][was(d, i)] && r[d][i] != e)
    {
      assert (d == c && i == k) || InQueue(queues, d, was(d, i));
    }
    forall x | x == e || Queued(queues, x)
      ensures Queued(r, x)
    {
      if x == e {
        assert InQueue(r, c, k);
      } else {
        var d, i :| InQueue(queues, d, i) && queues[d][i] == x;
        var j := if d == c && i >= k then i + 1 else i;
        assert InQueue(r, d, j) && r[d][j] == x;
      }
    }
  }

  // ---------------------------------------------------------------- the list object

  function MoveAfter(s: seq<Node>, node: u8, prev: u8): seq<Node>
    requires node < |s| && s[node].next < |s| && s[node].prev < |s|
    requires prev < |s| && Unbind(s, node)[prev].next < |s|
  {
    var t := Unbind(s, node);
    Insert(t, node, prev, t[prev].next)
  }

  function MoveBefore(s: seq<Node>, node: u8, next: u8): seq<Node>
    requires node < |s| && s[node].next < |s| && s[node].prev < |s|
    requires next < |s| && Unbind(s, node)[next].prev < |s|
  {
    var t := Unbind(s, node);
    Insert(t, node, t[next].prev, next)
  }

  class MultiCycleList {
    const nodes: array<Node>

    constructor (count: nat)
      requires count <= 256
      ensures fresh(nodes) && nodes.Length == count
      ensures forall i :: 0 <= i < count ==> nodes[i] == Node(i, i)
    {
      var loose := new Node[count];
      for i := 0 to count
        invariant forall j :: 0 <= j < i ==> loose[j] == Node(j, j)
      {
        loose[i] := Node(i, i);
      }
      nodes := loose;
    }

    function Next(node: u8): u8
      requires node < nodes.Length
      reads nodes
    {
      nodes[node].next
    }

    function Prev(node: u8): u8
      requires node < nodes.Length
      reads nodes
    {
      nodes[node].prev
    }

    method UnbindNode(node: u8)
      requires InRange(nodes[..]) && node < nodes.Length
      modifies nodes
      ensures nodes[..] == Unbind(old(nodes[..]), node)
    {
      var next, prev := nodes[node].next, nodes[node].prev;
      nodes[node] := nodes[node].(prev := node);
      nodes[node] := nodes[node].(next := node);
      nodes[next] := nodes[next].(prev := prev);
      nodes[prev] := nodes[prev].(next := next);
    }

    method MoveNodeAfter(node: u8, prev: u8)
      requires InRange(nodes[..]) && node < nodes.Length && prev < nodes.Length
      requires Unbind(nodes[..], node)[prev].next < nodes.Length
      modifies nodes
      ensures nodes[..] == MoveAfter(old(nodes[..]), node, prev)
    {
      UnbindNode(node);
      var next := nodes[prev].next;
      nodes[node] := nodes[node].(next := next);
      nodes[node] := nodes[node].(prev := prev);
      nodes[next] := nodes[next].(prev := node);
      nodes[prev] := nodes[prev].(next := node);
    }

    method MoveNodeBefore(node: u8, next: u8)
      requires InRange(nodes[..]) && node < nodes.Length && next < nodes.Length
      requires Unbind(nodes[..], node)[next].prev < nodes.Length
      modifies nodes
      ensures nodes[..] == MoveBefore(old(nodes[..]), node, next)
    {
      UnbindNode(node);
      var prev := nodes[next].prev;
      nodes[node] := nodes[node].(next := next);
      nodes[node] := nodes[node].(prev := prev);
      nodes[next] := nodes[next].(prev := node);
      nodes[prev] := nodes[prev].(next := node);
    }
  }

  // ---------------------------------------------------------------- the queue object

  lemma InsertAtFront(s: seq<Node>, queues: seq<seq<nat>>, n: nat, c: nat, e: nat)
    requires Encodes(s, queues, n) && c < |queues| && e < n && !Queued(queues, e)
    ensures s[c].next < |s|
    ensures Encodes(Insert(s, |queues| + e, c, s[c].next), queues[c := [e] + queues[c]], n)
  {
    ClassLinks(s, queues, n, c);
    NodeBound(queues, n, c, 1);
    assert IsLink(queues, c, 0);
    InsertEncodes(s, queues, n, c, 0, e);
    assert queues[c][..0] + [e] + queues[c][0..] == [e] + queues[c];
  }

  lemma InsertAtBack(s: seq<Node>, queues: seq<seq<nat>>, n: nat, c: nat, e: nat)
    requires Encodes(s, queues, n) && c < |queues| && e < n && !Queued(queues, e)
    ensures s[c].prev < |s|
    ensures Encodes(Insert(s, |queues| + e, s[c].prev, c), queues[c := queues[c] + [e]], n)
  {
    var last := |queues[c]|;
    ClassLinks(s, queues, n, c);
    NodeBound(queues, n, c, last);
    assert IsLink(queues, c, last);
    InsertEncodes(s, queues, n, c, last, e);
    assert queues[c][..last] + [e] + queues[c][last..] == queues[c] + [e];
  }

  /** Moving an entry behind a class node puts it at the front of the queue of that class. */
  lemma MoveAfterEncodes(s: seq<Node>, queues: seq<seq<nat>>, n: nat, c: nat, e: nat)
    requires Encodes(s, queues, n) && c < |queues| && e < n
    ensures InRange(s) && Unbind(s, |queues| + e)[c].next < |s|
    ensures Encodes(MoveAfter(s, |queues| + e, c), ToFront(queues, c, e), n)
  {
    UnbindEncodes(s, queues, n, e);
    var t, rest := Unbind(s, |queues| + e), Without(queues, e);
    InsertAtFront(t, rest, n, c, e);
    assert MoveAfter(s, |queues| + e, c) == Insert(t, |queues| + e, c, t[c].next);
    assert ToFront(queues, c, e) == rest[c := [e] + rest[c]];
  }

  /** Moving an entry before a class node puts it at the back of the queue of that class. */
  lemma MoveBeforeEncodes(s: seq<Node>, queues: seq<seq<nat>>, n: nat, c: nat, e: nat)
    requires Encodes(s, queues, n) && c < |queues| && e < n
    ensures InRange(s) && Unbind(s, |queues| + e)[c].prev < |s|
    ensures Encodes(MoveBefore(s, |queues| + e, c), ToBack(queues, c, e), n)
  {
    UnbindEncodes(s, queues, n, e);
    var t, rest := Unbind(s, |queues| + e), Without(queues, e);
    InsertAtBack(t, rest, n, c, e);
    assert MoveBefore(s, |queues| + e, c) == Insert(t, |queues| + e, t[c].prev, c);
    assert ToBack(queues, c, e) == rest[c := rest[c] + [e]];
  }

  class MultiClassQueue {
    const classCount: u8
    const entryCount: nat
    const list: MultiCycleList
    ghost var queues: seq<seq<nat>>

    ghost predicate Valid()
      reads this, list.nodes
    {
      && |queues| == classCount
      && list.nodes.Length == classCount + entryCount
      && Encodes(list.nodes[..], queues, entryCount)
    }

    constructor (classCount: u8, entryCount: nat)
      requires classCount + entryCount <= 256
      ensures Valid() && fresh(list) && fresh(list.nodes)
      ensures this.classCount == classCount && this.entryCount == entryCount
      ensures queues == seq(classCount, _ => [])
    {
      this.classCount, this.entryCount := classCount, entryCount;
      list := new MultiCycleList(classCount + entryCount);
      queues := seq(classCount, _ => []);
    }

    function Front(c: u8): (r: Option<u8>)
      requires Valid() && c < classCount
      reads this, list.nodes
      ensures r == if queues[c] == [] then None else Some(queues[c][0])
    {
      ClassLinks(list.nodes[..], queues, entryCount, c);
      assert queues[c] != [] ==> InQueue(queues, c, 0);
      var next := list.Next(c);
      if next >= classCount then Some(next - classCount) else None
    }

    function Back(c: u8): (r: Option<u8>)
      requires Valid() && c < classCount
      reads this, list.nodes
      ensures r == if queues[c] == [] then None else Some(queues[c][|queues[c]| - 1])
    {
      ClassLinks(list.nodes[..], queues, entryCount, c);
      assert queues[c] != [] ==> InQueue(queues, c, |queues[c]| - 1);
      var prev := list.Prev(c);
      if prev >= classCount then Some(prev - classCount) else None
    }

    predicate IsEmpty(c: u8)
      requires Valid() && c < classCount
      reads this, list.nodes
      ensures IsEmpty(c) <==> queues[c] == []
    {
      Front(c) == None
    }

    /** The class whose queue the entry is at the front of, if any. */
    method IsFront(e: u8) returns (r: Option<u8>)
      requires Valid() && e < entryCount
      ensures r.Some? ==> r.value < classCount && queues[r.value] != [] && queues[r.value][0] == e
      ensures r.None? ==> forall c :: 0 <= c < classCount && queues[c] != [] ==> queues[c][0] != e
    {
      ghost var s := list.nodes[..];
      var prev := list.Prev(classCount + e);
      if Queued(queues, e) {
        ghost var c, k :| InQueue(queues, c, k) && queues[c][k] == e;
        NodeLinks(s, queues, entryCount, c, k);
        assert k > 0 ==> InQueue(queues, c, k - 1);
        forall d | 0 <= d < classCount && queues[d] != [] && queues[d][0] == e
          ensures d == c && k == 0
        {
          assert InQueue(queues, d, 0);
        }
      } else {
        assert s[classCount + e].prev == classCount + e;
        forall d | 0 <= d < classCount && queues[d] != []
          ensures queues[d][0] != e
        {
          assert InQueue(queues, d, 0);
        }
      }
      r := if prev < classCount then Some(prev) else None;
    }

    method RemoveEntry(e: u8)
      requires Valid() && e < entryCount
      modifies this, list.nodes
      ensures Valid() && queues == Without(old(queues), e)
    {
      UnbindEncodes(list.nodes[..], queues, entryCount, e);
      list.UnbindNode(classCount + e);
      queues := Without(queues, e);
    }

    method MoveFront(c: u8, e: u8)
      requires Valid() && c < classCount && e < entryCount
      modifies this, list.nodes
      ensures Valid() && queues == ToFront(old(queues), c, e)
    {
      MoveAfterEncodes(list.nodes[..], queues, entryCount, c, e);
      list.MoveNodeAfter(classCount + e, c);
      queues := ToFront(queues, c, e);
    }

    method MoveBack(c: u8, e: u8)
      requires Valid() && c < classCount && e < entryCount
      modifies this, list.nodes
      ensures Valid() && queues == ToBack(old(queues), c, e)
    {
      MoveBeforeEncodes(list.nodes[..], queues, entryCount, c, e);
      list.MoveNodeBefore(classCount + e, c);
      queues := ToBack(queues, c, e);
    }
  }
}
