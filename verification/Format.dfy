/** Frame format: transfer CRC, tail byte, CAN FD data lengths. */
module Format {
  import opened Wrappers

  type byte = bv8
  type TransferId = b: bv8 | b <= 0x1f
  type u32 = n: nat | n <= U32_MAX

  const U32_MAX: nat := 0xffff_ffff
  const CRC_LENGTH := 2
  const INIT_VALUE: bv16 := 0xffff
  const POLYNOMIAL: bv16 := 0x1021
  const SOT_TOGGLE_BIT := true
  const PAD_VALUE: byte := 0

  // ---------------------------------------------------------------- transfer CRC

  /** One step of the bit-serial register: multiply by x, reduce by the polynomial. */
  function CrcShift(crc: bv16): bv16 {
    if crc & 0x8000 != 0 then (crc << 1) ^ POLYNOMIAL else crc << 1
  }

  function CrcShiftN(crc: bv16, n: nat): bv16
    decreases n, crc
  {
    if n == 0 then crc else CrcShiftN(CrcShift(crc), n - 1)
  }

  /** The incoming byte is added to the high half of the register. */
  function CrcLoad(crc: bv16, b: byte): bv16 {
    crc ^ ((b as bv16) << 8)
  }

  function CrcByte(crc: bv16, b: byte): bv16 {
    CrcShiftN(CrcLoad(crc, b), 8)
  }

  function CrcBytes(crc: bv16, bytes: seq<byte>): bv16 {
    if bytes == [] then crc
    else CrcByte(CrcBytes(crc, bytes[..|bytes| - 1]), bytes[|bytes| - 1])
  }

  /** CRC of a whole payload. */
  function Crc(bytes: seq<byte>): bv16 {
    CrcBytes(INIT_VALUE, bytes)
  }

  function BigEndian(crc: bv16): (r: seq<byte>)
    ensures |r| == CRC_LENGTH
  {
    [(crc >> 8) as byte, (crc & 0xff) as byte]
  }

  method CrcAdd(crc: bv16, b: byte) returns (r: bv16)
    ensures r == CrcByte(crc, b)
  {
    r := crc ^ ((b as bv16) << 8);
    for bit := 0 to 8
      invariant CrcShiftN(r, 8 - bit) == CrcByte(crc, b)
    {
      if r & 0x8000 != 0 {
        r := (r << 1) ^ POLYNOMIAL;
      } else {
        r := r << 1;
      }
    }
  }

  method CrcAddBytes(crc: bv16, bytes: seq<byte>) returns (r: bv16)
    ensures r == CrcBytes(crc, bytes)
  {
    r := crc;
    for i := 0 to |bytes|
      invariant r == CrcBytes(crc, bytes[..i])
    {
      assert bytes[..i + 1][..i] == bytes[..i];
      r := CrcAdd(r, bytes[i]);
    }
    assert bytes[..|bytes|] == bytes;
  }

  lemma {:induction false} CrcAppend(crc: bv16, a: seq<byte>, b: seq<byte>)
    ensures CrcBytes(crc, a + b) == CrcBytes(CrcBytes(crc, a), b)
  {
    if b == [] {
      assert a + b == a;
    } else {
      var n := |b| - 1;
      assert (a + b)[..|a + b| - 1] == a + b[..n];
      CrcAppend(crc, a, b[..n]);
    }
  }

  lemma CrcShiftTo(crc: bv16, next: bv16, n: nat)
    requires n > 0 && next == CrcShift(crc)
    ensures CrcShiftN(crc, n) == CrcShiftN(next, n - 1)
  {
  }

  lemma HighByteCancels(crc: bv16)
    ensures CrcLoad(crc, (crc >> 8) as byte) == crc & 0xff
  {
  }

  /** A register holding only a low byte is moved up without reduction. */
  lemma CrcLowByte(low: bv16)
    requires low <= 0xff
    ensures CrcShiftN(low, 8) == low << 8
  {
    CrcShiftTo(low, low << 1, 8);
    CrcShiftTo(low << 1, low << 2, 7);
    CrcShiftTo(low << 2, low << 3, 6);
    CrcShiftTo(low << 3, low << 4, 5);
    CrcShiftTo(low << 4, low << 5, 4);
    CrcShiftTo(low << 5, low << 6, 3);
    CrcShiftTo(low << 6, low << 7, 2);
    CrcShiftTo(low << 7, low << 8, 1);
  }

  lemma CrcOwnHighByte(crc: bv16)
    ensures CrcByte(crc, (crc >> 8) as byte) == crc << 8
  {
    HighByteCancels(crc);
    CrcLowByte(crc & 0xff);
    assert (crc & 0xff) << 8 == crc << 8;
  }

  /** CRC residue: any register value followed by its big-endian bytes gives zero. */
  lemma CrcResidue(crc: bv16)
    ensures CrcBytes(crc, BigEndian(crc)) == 0
  {
    var be := BigEndian(crc);
    CrcOwnHighByte(crc);
    var c1 := CrcByte(crc, be[0]);
    assert c1 == crc << 8;
    assert be[1] == (c1 >> 8) as byte;
    CrcOwnHighByte(c1);
    assert c1 << 8 == 0;
    assert be[..1] == [be[0]] && be[..1][..0] == [];
    assert CrcBytes(crc, be[..1]) == c1;
    assert be[..|be| - 1] == be[..1];
  }

  /** The receiver's zero test accepts every payload that carries its own CRC. */
  lemma PayloadResidue(d: seq<byte>)
    ensures Crc(d + BigEndian(Crc(d))) == 0
  {
    CrcAppend(INIT_VALUE, d, BigEndian(Crc(d)));
    CrcResidue(Crc(d));
  }

  /** Different registers stay different over a byte. */
  lemma CrcByteInjective(c: bv16, c': bv16, b: byte)
    requires CrcByte(c, b) == CrcByte(c', b)
    ensures c == c'
  {
    ShiftNInjective(CrcLoad(c, b), CrcLoad(c', b), 8);
    LoadTwice(c, b);
    LoadTwice(c', b);
  }

  /** Undoes `CrcShift`: the polynomial is odd, so the low bit tells which branch was taken. */
  function CrcUnshift(r: bv16): bv16 {
    if r & 1 != 0 then ((r ^ POLYNOMIAL) >> 1) | 0x8000 else r >> 1
  }

  lemma UnshiftReduced(x: bv16)
    requires x & 0x8000 != 0
    ensures CrcUnshift((x << 1) ^ POLYNOMIAL) == x
  {
    assert ((x << 1) ^ 0x1021) & 1 != 0;
    assert ((((x << 1) ^ 0x1021) ^ 0x1021) >> 1) | 0x8000 == x;
  }

  lemma UnshiftPlain(x: bv16)
    requires x & 0x8000 == 0
    ensures CrcUnshift(x << 1) == x
  {
    assert (x << 1) & 1 == 0;
    assert (x << 1) >> 1 == x;
  }

  lemma UnshiftShift(x: bv16)
    ensures CrcUnshift(CrcShift(x)) == x
  {
    if x & 0x8000 != 0 {
      UnshiftReduced(x);
    } else {
      UnshiftPlain(x);
    }
  }

  lemma ShiftInjective(x: bv16, y: bv16)
    requires CrcShift(x) == CrcShift(y)
    ensures x == y
  {
    UnshiftShift(x);
    UnshiftShift(y);
  }

  lemma LoadTwice(c: bv16, b: byte)
    ensures CrcLoad(CrcLoad(c, b), b) == c
  {
  }

  function LoadedByte(c: bv16, r: bv16): byte {
    ((c ^ r) >> 8) as byte
  }

  lemma LoadedByteIs(c: bv16, b: byte)
    ensures LoadedByte(c, CrcLoad(c, b)) == b
  {
  }

  lemma {:induction false} ShiftNInjective(x: bv16, y: bv16, n: nat)
    requires CrcShiftN(x, n) == CrcShiftN(y, n)
    ensures x == y
    decreases n
  {
    if n > 0 {
      ShiftNInjective(CrcShift(x), CrcShift(y), n - 1);
      ShiftInjective(x, y);
    }
  }

  lemma {:induction false} CrcBytesInjective(c: bv16, c': bv16, s: seq<byte>)
    requires CrcBytes(c, s) == CrcBytes(c', s)
    ensures c == c'
  {
    if s != [] {
      var n := |s| - 1;
      CrcByteInjective(CrcBytes(c, s[..n]), CrcBytes(c', s[..n]), s[n]);
      CrcBytesInjective(c, c', s[..n]);
    }
  }

  /** A change confined to one byte of a payload always changes its CRC. */
  lemma CrcDetectsByteError(p: seq<byte>, b: byte, b': byte, s: seq<byte>)
    requires b != b'
    ensures Crc(p + [b] + s) != Crc(p + [b'] + s)
  {
    var c := Crc(p);
    CrcAppend(INIT_VALUE, p + [b], s);
    CrcAppend(INIT_VALUE, p + [b'], s);
    assert (p + [b])[..|p|] == p && (p + [b'])[..|p|] == p;
    if CrcByte(c, b) == CrcByte(c, b') {
      ShiftNInjective(CrcLoad(c, b), CrcLoad(c, b'), 8);
      LoadedByteIs(c, b);
      LoadedByteIs(c, b');
      assert false;
    }
    if Crc(p + [b] + s) == Crc(p + [b'] + s) {
      CrcBytesInjective(CrcByte(c, b), CrcByte(c, b'), s);
      assert false;
    }
  }

  lemma CrcOne(crc: bv16, b: byte, r: bv16)
    requires r == CrcShift(CrcShift(CrcShift(CrcShift(CrcShift(CrcShift(CrcShift(CrcShift(CrcLoad(crc, b)))))))))
    ensures CrcByte(crc, b) == r
  {
    var c := CrcLoad(crc, b);
    CrcShiftTo(c, CrcShift(c), 8);
    CrcShiftTo(CrcShift(c), CrcShift(CrcShift(c)), 7);
    var d := CrcShift(CrcShift(c));
    CrcShiftTo(d, CrcShift(d), 6);
    CrcShiftTo(CrcShift(d), CrcShift(CrcShift(d)), 5);
    var e := CrcShift(CrcShift(d));
    CrcShiftTo(e, CrcShift(e), 4);
    CrcShiftTo(CrcShift(e), CrcShift(CrcShift(e)), 3);
    var f := CrcShift(CrcShift(e));
    CrcShiftTo(f, CrcShift(f), 2);
    CrcShiftTo(CrcShift(f), CrcShift(CrcShift(f)), 1);
  }

  lemma CrcSnoc(s: seq<byte>, b: byte, c: bv16, r: bv16)
    requires Crc(s) == c && CrcByte(c, b) == r
    ensures Crc(s + [b]) == r
  {
    assert (s + [b])[..|s|] == s;
  }

  lemma CrcThree(s: seq<byte>, a: byte, b: byte, c: byte, w: bv16, x: bv16, y: bv16, z: bv16)
    requires Crc(s) == w && CrcByte(w, a) == x && CrcByte(x, b) == y && CrcByte(y, c) == z
    ensures Crc(s + [a, b, c]) == z
  {
    CrcSnoc(s, a, w, x);
    CrcSnoc(s + [a], b, x, y);
    CrcSnoc(s + [a] + [b], c, y, z);
    assert s + [a] + [b] + [c] == s + [a, b, c];
  }

  lemma CrcFirstDigits()
    ensures CrcByte(0xffff, 0x31) == 0xc782
    ensures CrcByte(0xc782, 0x32) == 0x3dba
    ensures CrcByte(0x3dba, 0x33) == 0x5bce
  {
    CrcOne(0xffff, 0x31, 0xc782);
    CrcOne(0xc782, 0x32, 0x3dba);
    CrcOne(0x3dba, 0x33, 0x5bce);
  }

  lemma CrcMiddleDigits()
    ensures CrcByte(0x5bce, 0x34) == 0x5349
    ensures CrcByte(0x5349, 0x35) == 0x4560
    ensures CrcByte(0x4560, 0x36) == 0x2ef4
  {
    CrcOne(0x5bce, 0x34, 0x5349);
    CrcOne(0x5349, 0x35, 0x4560);
    CrcOne(0x4560, 0x36, 0x2ef4);
  }

  lemma CrcLastDigits()
    ensures CrcByte(0x2ef4, 0x37) == 0x7718
    ensures CrcByte(0x7718, 0x38) == 0xa12b
    ensures CrcByte(0xa12b, 0x39) == 0x29b1
  {
    CrcOne(0x2ef4, 0x37, 0x7718);
    CrcOne(0x7718, 0x38, 0xa12b);
    CrcOne(0xa12b, 0x39, 0x29b1);
  }

  /** The check value of CRC-16/CCITT-FALSE: the sum of the digits 1 to 9 is 0x29b1. */
  lemma CrcCheckValue()
    ensures Crc([0x31, 0x32, 0x33, 0x34, 0x35, 0x36, 0x37, 0x38, 0x39]) == 0x29b1
  {
    CrcFirstDigits();
    CrcMiddleDigits();
    CrcLastDigits();
    var none, first, middle, last: seq<byte> := [], [0x31, 0x32, 0x33], [0x34, 0x35, 0x36], [0x37, 0x38, 0x39];
    CrcThree(none, 0x31, 0x32, 0x33, 0xffff, 0xc782, 0x3dba, 0x5bce);
    assert none + first == first;
    CrcThree(first, 0x34, 0x35, 0x36, 0x5bce, 0x5349, 0x4560, 0x2ef4);
    CrcThree(first + middle, 0x37, 0x38, 0x39, 0x2ef4, 0x7718, 0xa12b, 0x29b1);
    assert first + middle + last == [0x31, 0x32, 0x33, 0x34, 0x35, 0x36, 0x37, 0x38, 0x39];
  }

  // ---------------------------------------------------------------- tail byte

  datatype Tail = Tail(sot: bool, eot: bool, toggle: bool, transferId: TransferId)

  function Bit(b: bool): byte {
    if b then 1 else 0
  }

  function EncodeTail(t: Tail): byte {
    (Bit(t.sot) << 7) | (Bit(t.eot) << 6) | (Bit(t.toggle) << 5) | t.transferId
  }

  function DecodeTail(b: byte): Tail {
    Tail((b >> 7) & 1 != 0, (b >> 6) & 1 != 0, (b >> 5) & 1 != 0, b & 0x1f)
  }

  lemma DecodeEncodeTail(t: Tail)
    ensures DecodeTail(EncodeTail(t)) == t
  {
    var e := EncodeTail(t);
    assert (e >> 7) & 1 == Bit(t.sot);
    assert (e >> 6) & 1 == Bit(t.eot);
    assert (e >> 5) & 1 == Bit(t.toggle);
    assert e & 0x1f == t.transferId;
  }

  lemma EncodeDecodeTail(b: byte)
    ensures EncodeTail(DecodeTail(b)) == b
  {
    var d := DecodeTail(b);
    assert Bit(d.sot) == (b >> 7) & 1;
    assert Bit(d.eot) == (b >> 6) & 1;
    assert Bit(d.toggle) == (b >> 5) & 1;
  }

  /** The tail byte as a number: start, end and toggle weigh 128, 64 and 32, the transfer id is what is left. */
  lemma TailWeights(b: byte)
    ensures var t := DecodeTail(b);
      && (t.sot <==> b as nat >= 128) && (t.eot <==> b as nat % 128 >= 64) && (t.toggle <==> b as nat % 64 >= 32)
      && t.transferId as nat == b as nat % 32
  {
    assert b as nat % 128 == (b & 0x7f) as nat && b as nat % 64 == (b & 0x3f) as nat;
    assert b as nat % 32 == (b & 0x1f) as nat;
  }

  /** A frame as its tail byte describes it. */
  datatype Frame = Frame(tail: Tail, payload: seq<byte>)

  function FrameBytes(f: Frame): seq<byte> {
    f.payload + [EncodeTail(f.tail)]
  }

  // ---------------------------------------------------------------- data length

  const MAX_LENGTH: nat := 64

  datatype Mtu = Classic | Fd

  function MtuSize(m: Mtu): nat {
    match m
    case Classic => 8
    case Fd => 64
  }

  predicate IsMtuSize(n: nat) {
    n == 8 || n == 64
  }

  function DivCeil(v: nat, d: nat): nat
    requires d > 0
  {
    (v + d - 1) / d
  }

  /** The payload lengths a CAN FD data length code can name. */
  const VALID_CAN_LENGTHS: set<nat> := {0, 1, 2, 3, 4, 5, 6, 7, 8, 12, 16, 20, 24, 32, 48, 64}

  function NewFloor(value: nat): nat {
    if value < 8 then value
    else if value < 24 then value / 4 * 4
    else if value < 32 then value / 8 * 8
    else if value < 64 then value / 16 * 16
    else 64
  }

  function NewCeil(value: nat): (r: Option<nat>)
    ensures r.None? <==> value > MAX_LENGTH
    ensures r.Some? ==> value <= r.value <= MAX_LENGTH
  {
    if value <= MAX_LENGTH then
      Some(
        if value < 8 then value
        else if value < 24 then DivCeil(value, 4) * 4
        else if value < 32 then DivCeil(value, 8) * 8
        else DivCeil(value, 16) * 16)
    else
      None
  }

  /** Rounding down finds the longest frame that is not longer than `value`. */
  lemma FloorIsGreatest(value: nat, l: nat)
    requires l in VALID_CAN_LENGTHS && l <= value
    ensures NewFloor(value) in VALID_CAN_LENGTHS && l <= NewFloor(value) <= value
  {
  }

  /** Rounding up finds the shortest frame that is not shorter than `value`. */
  lemma CeilIsLeast(value: nat, l: nat)
    requires l in VALID_CAN_LENGTHS && value <= l
    ensures NewCeil(value).Some? && NewCeil(value).value in VALID_CAN_LENGTHS
    ensures value <= NewCeil(value).value <= l
  {
  }

  /** `DataLength::new` accepts exactly the lengths a code can name. */
  lemma FixedPointsAreValid(value: nat)
    ensures NewFloor(value) == value <==> value in VALID_CAN_LENGTHS
    ensures NewCeil(value) == Some(value) <==> value in VALID_CAN_LENGTHS
  {
    if value in VALID_CAN_LENGTHS {
      FloorIsGreatest(value, value);
      CeilIsLeast(value, value);
    }
  }
}
