/** Lists of distinct elements: inserting, finding and removing by position or by element. */
module Lists {
  function InsertAt<T>(t: seq<T>, k: nat, e: T): seq<T>
    requires k <= |t|
  {
    t[..k] + [e] + t[k..]
  }

  function RemoveAt<T>(t: seq<T>, k: nat): seq<T>
    requires k < |t|
  {
    t[..k] + t[k + 1..]
  }

  function Find<T(==)>(t: seq<T>, e: T): (k: nat)
    requires e in t
    ensures k < |t| && t[k] == e
  {
    if t[0] == e then 0 else 1 + Find(t[1..], e)
  }

  function Without<T(==)>(t: seq<T>, e: T): seq<T> {
    if e in t then RemoveAt(t, Find(t, e)) else t
  }

  lemma InsertMembers<T>(t: seq<T>, k: nat, e: T)
    requires k <= |t|
    ensures forall x :: x in InsertAt(t, k, e) <==> x == e || x in t
  {
    assert forall x :: x in InsertAt(t, k, e) <==> x in t[..k] + [e] || x in t[k..];
    assert t[..k] + t[k..] == t;
    assert forall x :: x in t <==> x in t[..k] || x in t[k..];
  }

  ghost predicate NoRepeats<T>(q: seq<T>) {
    forall i, j :: 0 <= i < j < |q| ==> q[i] != q[j]
  }

  lemma WithoutKeeps<T>(q: seq<T>, e: T)
    requires NoRepeats(q)
    ensures NoRepeats(Without(q, e))
    ensures forall x :: x in Without(q, e) <==> x != e && x in q
  {
    if e in q {
      var k, r := Find(q, e), Without(q, e);
      forall x | x in q && x != e ensures x in r {
        var i :| 0 <= i < |q| && q[i] == x;
        assert r[if i < k then i else i - 1] == x;
      }
    }
  }
}
