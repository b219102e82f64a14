/** Transfer priorities, sets of them, and the byte that represents a set. */
module Priorities {
  import opened Wrappers

  const LEVELS: nat := 8

  /** Lower is more urgent. */
  type Priority = p: nat | p < LEVELS

  const ALL_PRIORITIES: set<Priority> := set p: Priority | true

  function FirstFrom(s: set<Priority>, k: nat): (r: Option<Priority>)
    requires k <= LEVELS
    ensures match r
      case Some(p) => k <= p && p in s && forall q :: q in s && k <= q ==> p <= q
      case None => forall q :: q in s ==> q < k
    decreases LEVELS - k
  {
    if k == LEVELS then None else if k in s then Some(k) else FirstFrom(s, k + 1)
  }

  /** The most urgent member. */
  function First(s: set<Priority>): (r: Option<Priority>)
    ensures r.None? <==> s == {}
    ensures r.Some? ==> r.value in s && forall q :: q in s ==> r.value <= q
  {
    FirstFrom(s, 0)
  }

  function LastBelow(s: set<Priority>, k: nat): (r: Option<Priority>)
    requires k <= LEVELS
    ensures match r
      case Some(p) => p < k && p in s && forall q :: q in s && q < k ==> q <= p
      case None => forall q :: q in s ==> k <= q
  {
    if k == 0 then None else if k - 1 in s then Some(k - 1) else LastBelow(s, k - 1)
  }

  /** The least urgent member. */
  function Last(s: set<Priority>): (r: Option<Priority>)
    ensures r.None? <==> s == {}
    ensures r.Some? ==> r.value in s && forall q :: q in s ==> q <= r.value
  {
    LastBelow(s, LEVELS)
  }

  // ---------------------------------------------------------------- one byte per set

  type Bits = bv8

  function Bit(p: Priority): Bits {
    match p
    case 0 => 0x01
    case 1 => 0x02
    case 2 => 0x04
    case 3 => 0x08
    case 4 => 0x10
    case 5 => 0x20
    case 6 => 0x40
    case _ => 0x80
  }

  predicate BitsContain(b: Bits, p: Priority) {
    b & Bit(p) != 0
  }

  function BitsInsert(b: Bits, p: Priority): Bits {
    b | Bit(p)
  }

  function BitsRemove(b: Bits, p: Priority): Bits {
    b & !Bit(p)
  }

  /** Number of trailing zero bits; 8 for an empty byte. */
  function TrailingZeros(b: Bits): nat {
    if b & 0x01 != 0 then 0 else if b & 0x02 != 0 then 1 else if b & 0x04 != 0 then 2
    else if b & 0x08 != 0 then 3 else if b & 0x10 != 0 then 4 else if b & 0x20 != 0 then 5
    else if b & 0x40 != 0 then 6 else if b & 0x80 != 0 then 7 else 8
  }

  function LeadingZeros(b: Bits): nat {
    if b & 0x80 != 0 then 0 else if b & 0x40 != 0 then 1 else if b & 0x20 != 0 then 2
    else if b & 0x10 != 0 then 3 else if b & 0x08 != 0 then 4 else if b & 0x04 != 0 then 5
    else if b & 0x02 != 0 then 6 else if b & 0x01 != 0 then 7 else 8
  }

  function TryPriority(code: nat): Option<Priority> {
    if code < LEVELS then Some(code) else None
  }

  function BitsFirst(b: Bits): Option<Priority> {
    TryPriority(TrailingZeros(b))
  }

  /** `wrapping_sub(1)` on a byte: 0 becomes 255, which is no priority. */
  function BitsLast(b: Bits): Option<Priority> {
    var n := 8 - LeadingZeros(b);
    TryPriority(if n == 0 then 255 else n - 1)
  }

  /** The set a byte stands for. */
  function Members(b: Bits): set<Priority> {
    set p: Priority | BitsContain(b, p)
  }

  lemma BitsInsertMembers(b: Bits, p: Priority)
    ensures Members(BitsInsert(b, p)) == Members(b) + {p}
  {
    forall q: Priority
      ensures BitsContain(BitsInsert(b, p), q) <==> BitsContain(b, q) || q == p
    {
      assert (b | Bit(p)) & Bit(q) == (b & Bit(q)) | (Bit(p) & Bit(q));
    }
  }

  lemma BitsRemoveMembers(b: Bits, p: Priority)
    ensures Members(BitsRemove(b, p)) == Members(b) - {p}
  {
    forall q: Priority
      ensures BitsContain(BitsRemove(b, p), q) <==> BitsContain(b, q) && q != p
    {
    }
  }

  lemma BitsIntersect(a: Bits, b: Bits)
    ensures Members(a & b) == Members(a) * Members(b)
  {
    forall q: Priority
      ensures BitsContain(a & b, q) <==> BitsContain(a, q) && BitsContain(b, q)
    {
    }
  }

  lemma BitsUnite(a: Bits, b: Bits)
    ensures Members(a | b) == Members(a) + Members(b)
  {
    forall q: Priority
      ensures BitsContain(a | b, q) <==> BitsContain(a, q) || BitsContain(b, q)
    {
      assert (a | b) & Bit(q) == (a & Bit(q)) | (b & Bit(q));
    }
  }

  lemma BitsComplement(a: Bits)
    ensures Members(!a) == ALL_PRIORITIES - Members(a)
  {
    forall q: Priority
      ensures BitsContain(!a, q) <==> !BitsContain(a, q)
    {
    }
  }

  lemma BitsFirstIsFirst(b: Bits)
    ensures BitsFirst(b) == First(Members(b))
  {
    assert forall p: Priority :: p in Members(b) <==> BitsContain(b, p);
  }

  lemma BitsLastIsLast(b: Bits)
    ensures BitsLast(b) == Last(Members(b))
  {
    match BitsLast(b)
    case None =>
      assert forall p: Priority :: !BitsContain(b, p);
    case Some(p) =>
      assert BitsContain(b, p) && p in Members(b);
      assert forall q: Priority :: p < q ==> !BitsContain(b, q);
  }
}
