/** Primitive encodings of the Kafka wire format: fixed-width big-endian two's
    complement integers, and zig-zag base-128 varints. */
module Wire {
  import opened Basics

  type Byte = x: int | 0 <= x < 256
  type Bytes = seq<Byte>

  const TWO_31: int := 0x8000_0000
  const TWO_32: int := 0x1_0000_0000
  const TWO_63: int := 0x8000_0000_0000_0000
  const TWO_64: int := 0x1_0000_0000_0000_0000

  type Int32 = x: int | -TWO_31 <= x < TWO_31
  type Int64 = x: int | -TWO_63 <= x < TWO_63

  /** Go's conversion to int32: the low 32 bits, read as two's complement. */
  function ToInt32(x: int): (r: Int32)
    ensures -TWO_31 <= x < TWO_31 ==> r == x
  {
    (x + TWO_31) % TWO_32 - TWO_31
  }

  /** Go's int64 arithmetic wraps around the same way. */
  function ToInt64(x: int): (r: Int64)
    ensures -TWO_63 <= x < TWO_63 ==> r == x
  {
    (x + TWO_63) % TWO_64 - TWO_63
  }

  /** A wrapped difference still adds back to the value it came from. */
  lemma WrappedDeltaRestores(value: Int64, base: Int64)
    ensures ToInt64(base + ToInt64(value - base)) == value
  {
    var delta := ToInt64(value - base);
    assert delta == value - base || delta == value - base + TWO_64 || delta == value - base - TWO_64;
  }

  // ---- Varints ----

  function Zigzag(n: int): nat {
    if n >= 0 then 2 * n else -2 * n - 1
  }

  function Unzigzag(u: nat): int {
    if u % 2 == 0 then u / 2 else -((u + 1) / 2)
  }

  function Uvarint(u: nat): Bytes {
    if u < 128 then [u] else [128 + u % 128] + Uvarint(u / 128)
  }

  function Varint(n: int): Bytes {
    Uvarint(Zigzag(n))
  }

  /** Number of values that fit in `width` groups when the last group is at most `top`. */
  ghost function Capacity(width: nat, top: nat): nat
    requires width > 0
  {
    if width == 1 then top + 1 else 128 * Capacity(width - 1, top)
  }

  /** Reads at most `width` groups; the last permitted group must not exceed `top`.
      Returns the value and the bytes after it. */
  function ReadUvarint(b: Bytes, width: nat, top: Byte): Option<(nat, Bytes)>
    requires width > 0
  {
    if |b| == 0 then None
    else if width == 1 then (if b[0] <= top then Some((b[0], b[1..])) else None)
    else if b[0] < 128 then Some((b[0], b[1..]))
    else
      var (high, rest) :- ReadUvarint(b[1..], width - 1, top);
      Some((b[0] - 128 + 128 * high, rest))
  }

  function ReadVarint(b: Bytes): Option<(int, Bytes)> {
    var (u, rest) :- ReadUvarint(b, 5, 0x0f);
    Some((Unzigzag(u), rest))
  }

  function ReadVarlong(b: Bytes): Option<(int, Bytes)> {
    var (u, rest) :- ReadUvarint(b, 10, 0x01);
    Some((Unzigzag(u), rest))
  }

  lemma {:induction false} UvarintRoundTrip(u: nat, width: nat, top: Byte, rest: Bytes)
    requires width > 0 && top < 128 && u < Capacity(width, top)
    ensures ReadUvarint(Uvarint(u) + rest, width, top) == Some((u, rest))
    decreases width
  {
    var b := Uvarint(u) + rest;
    if u < 128 {
      assert b[1..] == rest;
    } else {
      UvarintRoundTrip(u / 128, width - 1, top, rest);
      assert b[1..] == Uvarint(u / 128) + rest;
    }
  }

  lemma VarintCapacities()
    ensures Capacity(5, 0x0f) == TWO_32
    ensures Capacity(10, 0x01) == TWO_64
  {
    assert Capacity(2, 0x0f) == 0x800;
    assert Capacity(4, 0x0f) == 0x200_0000;
    assert Capacity(2, 0x01) == 0x100;
    assert Capacity(4, 0x01) == 0x40_0000;
    assert Capacity(6, 0x01) == 0x10_0000_0000;
    assert Capacity(8, 0x01) == 0x4_0000_0000_0000;
  }

  lemma VarintRoundTrip(n: Int32, rest: Bytes)
    ensures ReadVarint(Varint(n) + rest) == Some((n as int, rest))
  {
    VarintCapacities();
    UvarintRoundTrip(Zigzag(n), 5, 0x0f, rest);
  }

  lemma VarlongRoundTrip(n: Int64, rest: Bytes)
    ensures ReadVarlong(Varint(n) + rest) == Some((n as int, rest))
  {
    VarintCapacities();
    UvarintRoundTrip(Zigzag(n), 10, 0x01, rest);
  }

  /** The length table of the library: one more byte for every seven bits. */
  function UvarintLen(u: nat): nat {
    if u < 0x80 then 1
    else if u < 0x4000 then 2
    else if u < 0x20_0000 then 3
    else if u < 0x1000_0000 then 4
    else if u < 0x8_0000_0000 then 5
    else if u < 0x400_0000_0000 then 6
    else if u < 0x2_0000_0000_0000 then 7
    else if u < 0x100_0000_0000_0000 then 8
    else if u < 0x8000_0000_0000_0000 then 9
    else 10
  }

  function VarintLen(n: Int32): (r: nat)
    ensures 1 <= r
  {
    UvarintLen(Zigzag(n))
  }

  function VarlongLen(n: Int64): (r: nat)
    ensures 1 <= r
  {
    UvarintLen(Zigzag(n))
  }

  /** The table agrees with what the encoder emits, for every 64-bit value. */
  lemma {:induction false} UvarintLenIsExact(u: nat)
    requires u < TWO_64
    ensures |Uvarint(u)| == UvarintLen(u)
    decreases u
  {
    if u >= 128 {
      UvarintLenIsExact(u / 128);
    }
  }

  // ---- Fixed-width integers ----


  /** The low w bytes of v, most significant first. */
  function BigEndian(w: nat, v: int): (b: Bytes)
    ensures |b| == w
  {
    if w == 0 then [] else BigEndian(w - 1, v / 256) + [v % 256]
  }

  function Unsigned(b: Bytes): nat {
    if |b| == 0 then 0 else 256 * Unsigned(b[..|b| - 1]) + b[|b| - 1]
  }

  function Signed(b: Bytes): int {
    if |b| > 0 && b[0] >= 128 then Unsigned(b) - Range(|b|) else Unsigned(b)
  }

  function Range(w: nat): (r: int)
    ensures r > 0
  {
    if w == 0 then 1 else 256 * Range(w - 1)
  }

  function ReadInt(w: nat, b: Bytes): Option<(int, Bytes)> {
    if |b| < w then None else Some((Signed(b[..w]), b[w..]))
  }

  lemma {:induction false} BigEndianValue(w: nat, v: int)
    requires -Range(w) <= v < Range(w)
    ensures Unsigned(BigEndian(w, v)) == if v >= 0 then v else v + Range(w)
  {
    if w > 0 {
      BigEndianValue(w - 1, v / 256);
      assert BigEndian(w, v)[..w - 1] == BigEndian(w - 1, v / 256);
    }
  }

  /** The leading byte carries the sign. */
  lemma {:induction false} BigEndianSign(w: nat, v: int)
    requires w > 0 && -Range(w) <= 2 * v < Range(w)
    ensures BigEndian(w, v)[0] >= 128 <==> v < 0
  {
    if w > 1 {
      BigEndianSign(w - 1, v / 256);
    } else {
      assert BigEndian(0, v / 256) == [];
      assert Range(1) == 256;
    }
  }

  lemma IntRoundTrip(w: nat, v: int, rest: Bytes)
    requires w > 0 && -Range(w) <= 2 * v < Range(w)
    ensures ReadInt(w, BigEndian(w, v) + rest) == Some((v, rest))
  {
    BigEndianValue(w, v);
    BigEndianSign(w, v);
    assert (BigEndian(w, v) + rest)[..w] == BigEndian(w, v);
    assert (BigEndian(w, v) + rest)[w..] == rest;
  }

  /** A field whose value is not used still takes exactly its width. */
  lemma IntSkips(w: nat, v: int, rest: Bytes)
    ensures ReadInt(w, BigEndian(w, v) + rest).Some?
    ensures ReadInt(w, BigEndian(w, v) + rest).value.1 == rest
  {
    assert (BigEndian(w, v) + rest)[w..] == rest;
  }

  lemma Ranges()
    ensures Range(1) == 0x100 && Range(2) == 0x1_0000 && Range(4) == TWO_32 && Range(8) == TWO_64
  {
    assert Range(2) == 0x1_0000;
    assert Range(4) == TWO_32;
    assert Range(6) == 0x1_0000_0000_0000;
  }
}
