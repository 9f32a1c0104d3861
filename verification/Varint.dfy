/**
 * Base-128 variable length integers (zpp::bits varint). Machine words are naturals below
 * 2^w with the reduction written out; a bitwise or of disjoint bit ranges is a sum.
 */
module Varint {
  import opened Wire

  /** Integer types are whole bytes, at most eight of them. */
  predicate Width(w: nat) { w % 8 == 0 && 8 <= w <= 64 }

  /** Bits of std::size_t, and of the longest length prefix that fits in its eight bytes. */
  const SIZEOF_SIZE: nat := 8
  const SIZE_BITS: nat := 8 * SIZEOF_SIZE
  const PREFIX_BITS: nat := 56

  /** varint_max_size: sizeof(Type) * 8 / 7 + 1. */
  function MaxSize(w: nat): nat { w / 7 + 1 }

  /** The bytes the encoding loop writes for v. */
  function Encode(v: nat): (bs: seq<byte>)
    ensures |bs| >= 1
  {
    if v < 128 then [v] else [v % 128 + 128] + Encode(v / 128)
  }

  /** What a run of seven-bit digits denotes, least significant digit first. */
  function Digits(bs: seq<byte>): nat {
    if bs == [] then 0 else bs[0] % 128 + 128 * Digits(bs[1..])
  }

  /** Index of the first byte without a continuation bit, or |data|. */
  function Stop(data: seq<byte>): (k: nat)
    ensures k <= |data|
    ensures k < |data| ==> data[k] < 128
    ensures forall i :: 0 <= i < k ==> data[i] >= 128
  {
    if data == [] || data[0] < 128 then 0 else 1 + Stop(data[1..])
  }

  /** What reading one w-bit varint from the remaining data yields. */
  function Decode(w: nat, data: seq<byte>): (r: Read<nat>)
    ensures r.Ok? ==> r.value < Pow2(w) && 1 <= r.used <= |data| && r.used <= MaxSize(w)
  {
    var k := Stop(data);
    if k < |data| && k < MaxSize(w) then Ok(Low(w, Digits(data[..k + 1])), k + 1)
    else if |data| < MaxSize(w) then Fail(OutOfRange)
    else Fail(TooLarge)
  }

  // ----- Encoded size -----

  /** w - countl_zero(v): the position of the highest set bit, plus one. */
  function BitLength(v: nat): nat {
    if v == 0 then 0 else 1 + BitLength(v / 2)
  }

  /** varint_size: computed from the bit count of v | 1. */
  function Size(v: nat): nat {
    var odd := if v % 2 == 0 then v + 1 else v;
    (BitLength(odd) + 6) / 7
  }

  lemma BitLengthTwo(v: nat)
    requires v >= 4
    ensures BitLength(v) == 2 + BitLength(v / 4)
  {
    assert BitLength(v) == 1 + BitLength(v / 2);
    assert v / 2 / 2 == v / 4;
  }

  lemma BitLengthSeven(v: nat)
    requires v >= 128
    ensures BitLength(v) == 7 + BitLength(v / 128)
  {
    BitLengthTwo(v);
    BitLengthTwo(v / 4);
    BitLengthTwo(v / 16);
    assert v / 4 / 4 == v / 16 && v / 16 / 4 == v / 64 && v / 64 / 2 == v / 128;
  }

  /** The bit-count formula is exactly the number of bytes the encoding loop writes. */
  lemma {:induction false} SizeIsEncodedLength(v: nat)
    ensures Size(v) == |Encode(v)|
    decreases v
  {
    if v < 128 {
      Seven(0, 0);
      BitLengthBound(if v % 2 == 0 then v + 1 else v, 7);
    } else {
      SizeIsEncodedLength(v / 128);
      var odd := if v % 2 == 0 then v + 1 else v;
      BitLengthSeven(odd);
      assert odd / 128 == v / 128;
      var q := v / 128;
      if q % 2 == 0 {
        // setting the lowest bit of a positive even number keeps its bit length
        assert (q + 1) / 2 == q / 2;
      }
      assert BitLength(odd) == 7 + BitLength(if q % 2 == 0 then q + 1 else q);
    }
  }

  lemma {:induction false} BitLengthBound(v: nat, n: nat)
    requires v < Pow2(n)
    ensures BitLength(v) <= n
  {
    if v > 0 && n > 0 { BitLengthBound(v / 2, n - 1); }
  }

  // ----- Round trip -----

  lemma {:induction false} EncodeShape(v: nat, rest: seq<byte>)
    ensures Stop(Encode(v) + rest) == |Encode(v)| - 1
    ensures Digits(Encode(v)) == v
    decreases v
  {
    if v >= 128 {
      EncodeShape(v / 128, rest);
      var tail := Encode(v / 128);
      assert (Encode(v) + rest)[1..] == tail + rest;
      assert Encode(v)[1..] == tail;
    }
  }

  /** k bytes are enough exactly for the values below 2^(7k). */
  lemma {:induction false} EncodeLengthIff(v: nat, k: nat)
    requires k >= 1
    ensures |Encode(v)| <= k <==> v < Pow2(7 * k)
    decreases k
  {
    Seven(0, 7 * (k - 1));
    if v >= 128 && k > 1 { EncodeLengthIff(v / 128, k - 1); }
  }

  /** The lengths whose varint fits in eight bytes. */
  lemma PrefixIff(v: nat)
    ensures Size(v) == |Encode(v)|
    ensures Size(v) <= 8 <==> v < Pow2(PREFIX_BITS)
  {
    SizeIsEncodedLength(v);
    EncodeLengthIff(v, 8);
  }

  /** A w-bit value takes at most varint_max_size bytes. */
  lemma EncodeFits(w: nat, v: nat)
    requires v < Pow2(w)
    ensures |Encode(v)| <= MaxSize(w)
  {
    Pow2Mono(w, 7 * MaxSize(w));
    EncodeLengthIff(v, MaxSize(w));
  }

  /** Decoding an encoded value, with anything behind it, returns it and uses exactly its bytes. */
  lemma RoundTrip(w: nat, v: nat, rest: seq<byte>)
    requires v < Pow2(w)
    ensures Decode(w, Encode(v) + rest) == Ok(v, |Encode(v)|)
  {
    EncodeShape(v, rest);
    EncodeFits(w, v);
    LowSmall(w, v);
    var data := Encode(v) + rest;
    assert data[..|Encode(v)|] == Encode(v);
  }

  /** Reading more data never changes what a successful read returned. */
  lemma {:induction false} StopExtend(data: seq<byte>, more: seq<byte>)
    requires Stop(data) < |data|
    ensures Stop(data + more) == Stop(data)
  {
    if data[0] >= 128 {
      assert (data + more)[1..] == data[1..] + more;
      StopExtend(data[1..], more);
    }
  }

  /**
   * The short-buffer decoder and the unrolled one agree on every terminated run of bytes,
   * canonical or not: appending data, which may switch decoders, leaves the answer unchanged.
   */
  lemma DecodersAgree(w: nat, data: seq<byte>, more: seq<byte>)
    requires Decode(w, data).Ok?
    ensures Decode(w, data + more) == Decode(w, data)
  {
    StopExtend(data, more);
    var k := Stop(data);
    assert (data + more)[..k + 1] == data[..k + 1];
  }

  /** A strict prefix of an encoding is never accepted. */
  lemma PrefixRejected(w: nat, v: nat, n: nat)
    requires v < Pow2(w) && n < |Encode(v)|
    ensures Decode(w, Encode(v)[..n]) == Fail(OutOfRange)
  {
    EncodeFits(w, v);
    EncodeShape(v, []);
    assert Encode(v) + [] == Encode(v);
    var p := Encode(v)[..n];
    assert forall i :: 0 <= i < |p| ==> p[i] == Encode(v)[i];
    StopIs(p, n);
  }

  // ----- The two decoding loops -----

  lemma {:induction false} DigitsAppend(xs: seq<byte>, b: byte)
    ensures Digits(xs + [b]) == Digits(xs) + Shl(b % 128, 7 * |xs|)
  {
    if xs == [] {
      assert [b][1..] == [];
    } else {
      assert (xs + [b])[1..] == xs[1..] + [b];
      DigitsAppend(xs[1..], b);
      Seven(b % 128, 7 * |xs[1..]|);
    }
  }

  lemma {:induction false} StopIs(data: seq<byte>, k: nat)
    requires k <= |data| && forall i :: 0 <= i < k ==> data[i] >= 128
    requires k < |data| ==> data[k] < 128
    ensures Stop(data) == k
  {
    if k > 0 { StopIs(data[1..], k - 1); }
  }

  lemma AccumulateStep(w: nat, data: seq<byte>, k: nat, value: nat)
    requires k < |data| && value == Low(w, Digits(data[..k]))
    ensures Low(w, value + Shl(data[k] % 128, 7 * k)) == Low(w, Digits(data[..k + 1]))
  {
    DigitsAppend(data[..k], data[k]);
    assert data[..k] + [data[k]] == data[..k + 1];
    LowAdd(w, Digits(data[..k]), Shl(data[k] % 128, 7 * k));
  }

  /** decode_varint when fewer than varint_max_size bytes remain. */
  method DecodeShort(w: nat, data: seq<byte>) returns (r: Read<nat>)
    requires |data| < MaxSize(w)
    ensures r == Decode(w, data)
  {
    LowSmall(w, 0);
    var value, shift := 0, 0;
    for k := 0 to |data|
      invariant shift == 7 * k
      invariant value == Low(w, Digits(data[..k]))
      invariant forall i :: 0 <= i < k ==> data[i] >= 128
    {
      AccumulateStep(w, data, k, value);
      value := Low(w, value + Shl(data[k] % 128, shift));
      if data[k] >= 128 {
        shift := shift + 7;
        continue;
      }
      StopIs(data, k);
      return Ok(value, k + 1);
    }
    StopIs(data, |data|);
    return Fail(OutOfRange);
  }

  /** The bits an unrolled step keeps: the tenth and last step keeps only one. */
  function KeptBits(tenth: bool, b: byte): nat { if tenth then b % 2 else b % 128 }

  lemma UnrolledStep(w: nat, data: seq<byte>, k: nat, value: nat, tenth: bool)
    requires k < |data| && value == Low(w, Digits(data[..k])) && (tenth ==> w == 7 * k + 1)
    ensures Low(w, value + Shl(KeptBits(tenth, data[k]), 7 * k)) == Low(w, Digits(data[..k + 1]))
  {
    AccumulateStep(w, data, k, value);
    if tenth { KeptOnTop(w, value, data[k]); }
  }

  lemma KeptOnTop(w: nat, value: nat, b: byte)
    requires w >= 1
    ensures Low(w, value + Shl(b % 2, w - 1)) == Low(w, value + Shl(b % 128, w - 1))
  {
    LowTop(w, value, b % 128);
    assert b % 128 % 2 == b % 2;
  }

  /** decode_varint when at least varint_max_size bytes remain: the unrolled steps, one per index. */
  method DecodeUnrolled(w: nat, data: seq<byte>) returns (r: Read<nat>)
    requires Width(w) && |data| >= MaxSize(w)
    ensures r == Decode(w, data)
  {
    LowSmall(w, 0);
    var value := 0;
    for k := 0 to MaxSize(w)
      invariant value == Low(w, Digits(data[..k]))
      invariant forall i :: 0 <= i < k ==> data[i] >= 128
    {
      var tenth := k == 9;
      UnrolledStep(w, data, k, value, tenth);
      value := Low(w, value + Shl(KeptBits(tenth, data[k]), 7 * k));
      if data[k] < 128 {
        StopIs(data, k);
        return Ok(value, k + 1);
      }
    }
    assert Stop(data) >= MaxSize(w);
    return Fail(TooLarge);
  }

  /** Reading a varint from an archive: the one-byte fast path, then whichever decoder applies. */
  method ReadVarint(w: nat, data: seq<byte>) returns (r: Read<nat>)
    requires Width(w)
    ensures r == Decode(w, data)
  {
    if data != [] && data[0] < 128 {
      assert data[..1] == [data[0]];
      assert Digits([data[0]]) == data[0];
      Seven(0, 0);
      Pow2Mono(7, w);
      LowSmall(w, data[0]);
      return Ok(data[0], 1);
    }
    if |data| < MaxSize(w) {
      r := DecodeShort(w, data);
    } else {
      r := DecodeUnrolled(w, data);
    }
  }

  // ----- Signed integers and the zig-zag mapping -----

  /** The integer types a varint may carry. */
  datatype IntKind = IntKind(width: nat, signed: bool, zigzag: bool)
  {
    predicate Valid() { Width(width) && (zigzag ==> signed) }

    predicate Holds(n: int) {
      if signed then Valid() && -Pow2(width - 1) <= n < Pow2(width - 1) else 0 <= n < Pow2(width)
    }
  }

  /** Two's complement: the unsigned word holding n. */
  function ToUnsigned(w: nat, n: int): (u: int)
    requires n >= -Pow2(w)
    ensures u >= 0
  {
    if n < 0 then n + Pow2(w) else n
  }

  function ToSigned(w: nat, u: int): int { if 2 * u >= Pow2(w) then u - Pow2(w) else u }

  /** (value << 1) ^ (n >> (w - 1)): the second operand is all ones exactly when n is negative. */
  function ZigZag(w: nat, n: int): int
    requires n >= -Pow2(w)
  {
    var shifted := Low(w, 2 * ToUnsigned(w, n));
    if n < 0 then Pow2(w) - 1 - shifted else shifted
  }

  /** (value >> 1) ^ -(value & 1), converted back to a signed word. */
  function UnZigZag(w: nat, v: nat): int {
    ToSigned(w, if v % 2 == 1 then Pow2(w) - 1 - v / 2 else v / 2)
  }

  /** The zig-zag table: 0, -1, 1, -2, ... are numbered 0, 1, 2, 3, ... */
  lemma ZigZagNumbers(w: nat, n: int)
    requires w >= 1 && -Pow2(w - 1) <= n < Pow2(w - 1)
    ensures ZigZag(w, n) == if n >= 0 then 2 * n else -2 * n - 1
    ensures 0 <= ZigZag(w, n) < Pow2(w)
  {
    var p := Pow2(w);
    assert p == 2 * Pow2(w - 1);
    if n < 0 {
      LowWrap(w, 2 * n + p);
      LowSmall(w, 2 * n + p);
    } else {
      LowSmall(w, 2 * n);
    }
  }

  /** The mapping is a bijection between signed and unsigned words. */
  lemma ZigZagInverse(w: nat, n: int, v: nat)
    requires w >= 1 && -Pow2(w - 1) <= n < Pow2(w - 1) && v < Pow2(w)
    ensures ZigZag(w, n) >= 0 && UnZigZag(w, ZigZag(w, n)) == n
    ensures -Pow2(w - 1) <= UnZigZag(w, v) < Pow2(w - 1) && ZigZag(w, UnZigZag(w, v)) == v
  {
    ZigZagNumbers(w, n);
    assert Pow2(w) == 2 * Pow2(w - 1);
    ZigZagNumbers(w, UnZigZag(w, v));
  }

  /** The unsigned word a varint of this kind writes for n. */
  function Raw(k: IntKind, n: int): (v: int)
    requires k.Valid() && k.Holds(n)
    ensures 0 <= v < Pow2(k.width)
  {
    if k.zigzag then ZigZagNumbers(k.width, n); ZigZag(k.width, n)
    else ToUnsigned(k.width, n)
  }

  function Unraw(k: IntKind, v: nat): int {
    if k.zigzag then UnZigZag(k.width, v)
    else if k.signed then ToSigned(k.width, v)
    else v
  }

  /** Whatever word is read, it stands for an integer of the type. */
  lemma UnrawHolds(k: IntKind, v: nat)
    requires k.Valid() && v < Pow2(k.width)
    ensures k.Holds(Unraw(k, v))
  {
    if k.zigzag { ZigZagInverse(k.width, 0, v); }
  }

  /** The unsigned word an integer is written as gives the integer back. */
  lemma RawInverse(k: IntKind, n: int)
    requires k.Valid() && k.Holds(n)
    ensures Unraw(k, Raw(k, n)) == n
  {
    if k.zigzag { ZigZagInverse(k.width, n, 0); }
  }

  /** Every integer of every kind survives the trip through its varint, whatever follows it. */
  lemma IntRoundTrip(k: IntKind, n: int, rest: seq<byte>)
    requires k.Valid() && k.Holds(n)
    ensures var r := Decode(k.width, Encode(Raw(k, n)) + rest);
            r == Ok(Raw(k, n), |Encode(Raw(k, n))|) && Unraw(k, r.value) == n
  {
    RoundTrip(k.width, Raw(k, n), rest);
    RawInverse(k, n);
  }

  /** A terminated run of digits is the canonical encoding of its value exactly when it has no padding. */
  lemma {:induction false} CanonicalIff(bs: seq<byte>)
    requires bs != [] && Stop(bs) == |bs| - 1
    ensures Encode(Digits(bs)) == bs <==> (|bs| == 1 || bs[|bs| - 1] != 0)
  {
    if |bs| > 1 {
      var t := bs[1..];
      CanonicalIff(t);
      if bs[|bs| - 1] != 0 { DigitsPositive(t); }
      FirstDigit(bs);
      assert Digits(t) == 0 && |t| == 1 ==> t[0] == 0;
    }
  }

  lemma FirstDigit(bs: seq<byte>)
    requires |bs| > 1 && bs[0] >= 128
    ensures Encode(Digits(bs)) == bs <==> Digits(bs[1..]) > 0 && Encode(Digits(bs[1..])) == bs[1..]
  {
    var n, m := Digits(bs), Digits(bs[1..]);
    assert n == bs[0] % 128 + 128 * m;
    if m > 0 {
      assert n / 128 == m && n % 128 + 128 == bs[0];
      SameHead(bs[0], Encode(m), bs);
    }
  }

  lemma SameHead<T>(x: T, t: seq<T>, bs: seq<T>)
    requires bs != [] && bs[0] == x
    ensures [x] + t == bs <==> t == bs[1..]
  {
    assert ([x] + t)[1..] == t;
    assert bs == [bs[0]] + bs[1..];
  }

  lemma {:induction false} DigitsPositive(bs: seq<byte>)
    requires bs != [] && 0 < bs[|bs| - 1] < 128
    ensures Digits(bs) > 0
  {
    if |bs| > 1 { DigitsPositive(bs[1..]); }
  }
}
