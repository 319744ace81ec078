/**
 * Float-to-Int16 conversion of audioin.js (`audioIn_toInt16`, `toInt16LE`,
 * `toInt16BE`) and the sum of squares under `power`.
 *
 * Each sample is clamped to `[-1, 1]`, scaled by 32768 when negative and by
 * 32767 otherwise, converted to a signed 16-bit integer the way ECMAScript's
 * `ToInt16` does (truncate toward zero, then reduce modulo 2^16), and written
 * as two bytes in the requested order.
 */
module Int16Codec {
  import opened RealFacts

  type Byte = b: int | 0 <= b < 256

  const MinInt16: int := -0x8000
  const MaxInt16: int := 0x7FFF

  predicate IsInt16(v: int)
  {
    MinInt16 <= v <= MaxInt16
  }

  /** `Math.max(-1, Math.min(1, x))`. */
  function Clamp(x: real): (s: real)
    ensures -1.0 <= s <= 1.0
    ensures -1.0 <= x <= 1.0 ==> s == x
    ensures x > 1.0 ==> s == 1.0
    ensures x < -1.0 ==> s == -1.0
  {
    var upper := if 1.0 <= x then 1.0 else x;
    if upper <= -1.0 then -1.0 else upper
  }

  /** Asymmetric scaling: negatives by 0x8000, the rest by 0x7FFF. */
  function Scale(s: real): real
  {
    if s < 0.0 then s * 32768.0 else s * 32767.0
  }

  /** Truncation toward zero, the first step of ECMAScript `ToInt16`. */
  function Truncate(v: real): (n: int)
    ensures v >= 0.0 ==> n >= 0 && n as real <= v < n as real + 1.0
    ensures v < 0.0 ==> n <= 0 && n as real - 1.0 < v <= n as real
  {
    if v < 0.0 then -((-v).Floor) else v.Floor
  }

  /** The modulo-2^16 step of ECMAScript `ToInt16`, into `[-32768, 32767]`. */
  function Wrap16(n: int): (v: int)
    ensures IsInt16(v)
    ensures (v - n) % 0x10000 == 0
    ensures IsInt16(n) ==> v == n
  {
    var m := n % 0x10000;
    if m >= 0x8000 then m - 0x10000 else m
  }

  /** The 16-bit value `setInt16` stores for sample `x`. */
  function Sample16(x: real): (v: int)
    ensures IsInt16(v)
  {
    Wrap16(Truncate(Scale(Clamp(x))))
  }

  /** After clamping and scaling the value is already a 16-bit integer once
      truncated, so the modular reduction never changes it; the endpoints map
      to the extremes, zero to zero, and the sign is kept. */
  lemma Sample16Facts(x: real)
    ensures Sample16(x) == Truncate(Scale(Clamp(x)))
    ensures x >= 1.0 ==> Sample16(x) == MaxInt16
    ensures x <= -1.0 ==> Sample16(x) == MinInt16
    ensures x == 0.0 ==> Sample16(x) == 0
    ensures x >= 0.0 ==> Sample16(x) >= 0
    ensures x < 0.0 ==> Sample16(x) <= 0
  {
    var s := Clamp(x);
    var n := Truncate(Scale(s));
    if s < 0.0 {
      assert Scale(s) >= -32768.0;
      assert n >= MinInt16;
    } else {
      assert Scale(s) <= 32767.0;
      assert n <= MaxInt16;
    }
  }

  /** Truncation characterised: on `[0, 1]` the value is the largest integer
      not above `32767 * x`; on `[-1, 0)` the smallest integer not below
      `32768 * x`. */
  lemma Sample16Truncates(x: real)
    ensures 0.0 <= x <= 1.0 ==>
              Sample16(x) as real <= x * 32767.0 < Sample16(x) as real + 1.0
    ensures -1.0 <= x < 0.0 ==>
              Sample16(x) as real - 1.0 < x * 32768.0 <= Sample16(x) as real
  {
    Sample16Facts(x);
  }

  /** A larger sample never encodes to a smaller integer. */
  lemma Sample16Monotone(x: real, y: real)
    requires x <= y
    ensures Sample16(x) <= Sample16(y)
  {
    Sample16Facts(x);
    Sample16Facts(y);
    var sx, sy := Clamp(x), Clamp(y);
    assert sx <= sy;
    if sx < 0.0 && sy < 0.0 {
      assert sx * 32768.0 <= sy * 32768.0;
    } else if sx >= 0.0 && sy >= 0.0 {
      assert sx * 32767.0 <= sy * 32767.0;
    }
  }

  /** The two's-complement halves of a 16-bit value. */
  function LowByte(v: int): Byte
  {
    (v % 0x10000) % 0x100
  }

  function HighByte(v: int): Byte
  {
    (v % 0x10000) / 0x100
  }

  /** `DataView.setInt16(offset, v, littleEndian)`: two bytes, low first when
      `littleEndian`. */
  function Bytes16(v: int, littleEndian: bool): (b: seq<Byte>)
    ensures |b| == 2
  {
    if littleEndian then [LowByte(v), HighByte(v)] else [HighByte(v), LowByte(v)]
  }

  /** Reads back a signed 16-bit value from its low and high byte. */
  function FromBytes(low: Byte, high: Byte): (v: int)
    ensures IsInt16(v)
  {
    var u := high * 0x100 + low;
    if u >= 0x8000 then u - 0x10000 else u
  }

  lemma FromBytesInverts(v: int)
    requires IsInt16(v)
    ensures FromBytes(LowByte(v), HighByte(v)) == v
  {
    var u := v % 0x10000;
    assert HighByte(v) * 0x100 + LowByte(v) == u;
    if v < 0 {
      assert u == v + 0x10000;
    } else {
      assert u == v;
    }
  }

  /** `audioIn_toInt16(input, little_endian)`: the bytes written into the
      output buffer, one 2-byte value per sample at offset `2 * i`. */
  function ToInt16(input: seq<real>, littleEndian: bool): (r: seq<Byte>)
    ensures |r| == 2 * |input|
    ensures forall i :: 0 <= i < |input| ==>
              r[2 * i .. 2 * i + 2] == Bytes16(Sample16(input[i]), littleEndian)
    decreases |input|
  {
    if |input| == 0 then []
    else
      var rest := ToInt16(input[1..], littleEndian);
      var r := Bytes16(Sample16(input[0]), littleEndian) + rest;
      assert forall i :: 1 <= i < |input| ==>
               r[2 * i .. 2 * i + 2] == rest[2 * (i - 1) .. 2 * (i - 1) + 2];
      r
  }

  /** `toInt16LE`. */
  function ToInt16LE(input: seq<real>): seq<Byte>
  {
    ToInt16(input, true)
  }

  /** `toInt16BE`. */
  function ToInt16BE(input: seq<real>): seq<Byte>
  {
    ToInt16(input, false)
  }

  /** Reads a byte sequence back as signed 16-bit values in the given order,
      two bytes per value (a trailing odd byte is ignored). */
  function Decode16(bytes: seq<Byte>, littleEndian: bool): (vs: seq<int>)
    ensures forall i :: 0 <= i < |vs| ==> IsInt16(vs[i])
    decreases |bytes|
  {
    if |bytes| < 2 then []
    else
      var v := if littleEndian then FromBytes(bytes[0], bytes[1]) else FromBytes(bytes[1], bytes[0]);
      [v] + Decode16(bytes[2..], littleEndian)
  }

  /** The 16-bit value of every sample, in order. */
  function Samples16(input: seq<real>): (vs: seq<int>)
    ensures |vs| == |input|
    ensures forall i :: 0 <= i < |input| ==> vs[i] == Sample16(input[i])
  {
    seq(|input|, i requires 0 <= i < |input| => Sample16(input[i]))
  }

  /** Decoding the output in the order it was written gives back exactly the
      16-bit value of every sample, in order. */
  lemma {:induction false} ToInt16RoundTrip(input: seq<real>, littleEndian: bool)
    ensures Decode16(ToInt16(input, littleEndian), littleEndian) == Samples16(input)
    decreases |input|
  {
    if |input| > 0 {
      var v := Sample16(input[0]);
      var rest := ToInt16(input[1..], littleEndian);
      assert ToInt16(input, littleEndian) == Bytes16(v, littleEndian) + rest;
      DecodeValue(v, rest, littleEndian);
      ToInt16RoundTrip(input[1..], littleEndian);
      assert Samples16(input) == [v] + Samples16(input[1..]);
    }
  }

  /** A value written by `Bytes16` is read back first, followed by whatever
      comes after it. */
  lemma DecodeValue(v: int, rest: seq<Byte>, littleEndian: bool)
    requires IsInt16(v)
    ensures Decode16(Bytes16(v, littleEndian) + rest, littleEndian) == [v] + Decode16(rest, littleEndian)
  {
    var bytes := Bytes16(v, littleEndian) + rest;
    assert bytes[2..] == rest;
    FromBytesInverts(v);
  }

  /** The little- and big-endian outputs hold the same values with the two
      bytes of each swapped; the little-endian one puts the low byte first. */
  lemma ByteOrders(input: seq<real>)
    ensures |ToInt16LE(input)| == |ToInt16BE(input)| == 2 * |input|
    ensures forall i :: 0 <= i < |input| ==>
              && ToInt16LE(input)[2 * i] == ToInt16BE(input)[2 * i + 1] == LowByte(Sample16(input[i]))
              && ToInt16LE(input)[2 * i + 1] == ToInt16BE(input)[2 * i] == HighByte(Sample16(input[i]))
  {
    var le, be := ToInt16LE(input), ToInt16BE(input);
    forall i | 0 <= i < |input|
      ensures le[2 * i] == be[2 * i + 1] == LowByte(Sample16(input[i]))
      ensures le[2 * i + 1] == be[2 * i] == HighByte(Sample16(input[i]))
    {
      var lo, hi := LowByte(Sample16(input[i])), HighByte(Sample16(input[i]));
      assert le[2 * i .. 2 * i + 2] == Bytes16(Sample16(input[i]), true) == [lo, hi];
      assert be[2 * i .. 2 * i + 2] == Bytes16(Sample16(input[i]), false) == [hi, lo];
      assert le[2 * i] == le[2 * i .. 2 * i + 2][0] && le[2 * i + 1] == le[2 * i .. 2 * i + 2][1];
      assert be[2 * i] == be[2 * i .. 2 * i + 2][0] && be[2 * i + 1] == be[2 * i .. 2 * i + 2][1];
    }
  }

  /** The accumulator of `power` before its square root: the sum of the
      squares of the samples, which is never negative. */
  function SumOfSquares(input: seq<real>): (p: real)
    ensures p >= 0.0
    decreases |input|
  {
    if |input| == 0 then 0.0
    else
      var x := input[0];
      if x < 0.0 then
        MulNonneg(-x, -x);
        x * x + SumOfSquares(input[1..])
      else
        MulNonneg(x, x);
        x * x + SumOfSquares(input[1..])
  }
}
