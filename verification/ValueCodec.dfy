/**
 * Typed values through zpp::bits archives with a fixed-width size prefix: scalars, byte
 * strings, sequences, optionals, variants, records and self-referencing records. A layout
 * describes a C++ type; Encode is what the out archive appends for a value of it and Decode
 * what the in archive reads back, with its allocation and nesting limits.
 */
module ValueCodec {
  import opened Wire

  datatype Layout =
    | Scalar(width: nat)                        // fixed-width number, little endian
    | Text                                      // container of bytes
    | Many(element: Layout, elementSize: nat)   // container; sizeof(value_type) is elementSize
    | Optional(element: Layout)
    | Variant(alternatives: seq<Layout>)
    | Record(members: List<Layout>)
    | SelfRef(name: string)                     // self-referencing record, declared in the environment

  /** The members of every self-referencing record type. */
  type Env = map<string, List<Layout>>

  datatype Value =
    | Num(n: nat)
    | Blob(bytes: seq<byte>)
    | Items(items: List<Value>)
    | None
    | Some(value: Value)
    | Alt(index: nat, value: Value)
    | Tuple(items: List<Value>)

  /** Bytes of the size prefix (size4b), and the sizes it can hold. */
  const SIZE_BYTES: nat := 4
  const SIZE_RANGE: int := Pow2(8 * SIZE_BYTES)

  // ----- Typing -----

  predicate Fits(env: Env, t: Layout, v: Value)
    decreases v
  {
    match t
    case Scalar(w) => v.Num? && v.n < Pow2(8 * w)
    case Text => v.Blob?
    case Many(e, size) => v.Items? && size >= 1 && FitsMany(env, e, v.items)
    case Optional(e) => v == None || (v.Some? && Fits(env, e, v.value))
    case Variant(alts) => v.Alt? && v.index < |alts| && v.index < 256 && Fits(env, alts[v.index], v.value)
    case Record(ms) => v.Tuple? && FitsAll(env, ms, v.items)
    case SelfRef(name) => v.Tuple? && name in env && FitsAll(env, env[name], v.items)
  }

  predicate FitsMany(env: Env, t: Layout, vs: List<Value>)
    decreases vs
  {
    vs.Nil? || (Fits(env, t, vs.head) && FitsMany(env, t, vs.tail))
  }

  predicate FitsAll(env: Env, ts: List<Layout>, vs: List<Value>)
    decreases vs
  {
    if vs.Nil? then ts.Nil? else ts.Cons? && Fits(env, ts.head, vs.head) && FitsAll(env, ts.tail, vs.tail)
  }

  /**
   * What the reader tolerates at nesting depth d: element counts that survive the size prefix
   * and the allocation limit, and no more than the permitted self-referencing records inside
   * each other.
   */
  predicate Readable(env: Env, t: Layout, v: Value, lim: Limits, d: nat)
    requires Fits(env, t, v)
    decreases v
  {
    match t
    case Scalar(_) => true
    case Text => |v.bytes| <= lim.alloc && |v.bytes| < SIZE_RANGE
    case Many(e, size) =>
      Len(v.items) <= lim.alloc / size && Len(v.items) < SIZE_RANGE && ReadableMany(env, e, v.items, lim, d)
    case Optional(e) => v.Some? ==> Readable(env, e, v.value, lim, d)
    case Variant(alts) => Readable(env, alts[v.index], v.value, lim, d)
    case Record(ms) => ReadableAll(env, ms, v.items, lim, d)
    case SelfRef(name) => d < lim.nesting && ReadableAll(env, env[name], v.items, lim, d + 1)
  }

  predicate ReadableMany(env: Env, t: Layout, vs: List<Value>, lim: Limits, d: nat)
    requires FitsMany(env, t, vs)
    decreases vs
  {
    vs.Nil? || (Readable(env, t, vs.head, lim, d) && ReadableMany(env, t, vs.tail, lim, d))
  }

  predicate ReadableAll(env: Env, ts: List<Layout>, vs: List<Value>, lim: Limits, d: nat)
    requires FitsAll(env, ts, vs)
    decreases vs
  {
    vs.Nil? || (Readable(env, ts.head, vs.head, lim, d) && ReadableAll(env, ts.tail, vs.tail, lim, d))
  }

  // ----- Encoding -----

  function Encode(env: Env, t: Layout, v: Value): seq<byte>
    requires Fits(env, t, v)
    decreases v
  {
    match t
    case Scalar(w) => PutLE(v.n, w)
    case Text => PutLE(|v.bytes|, SIZE_BYTES) + v.bytes
    case Many(e, _) => PutLE(Len(v.items), SIZE_BYTES) + EncodeMany(env, e, v.items)
    case Optional(e) => if v == None then [0] else [1] + Encode(env, e, v.value)
    case Variant(alts) => [v.index] + Encode(env, alts[v.index], v.value)
    case Record(ms) => EncodeAll(env, ms, v.items)
    case SelfRef(name) => EncodeAll(env, env[name], v.items)
  }

  function EncodeMany(env: Env, t: Layout, vs: List<Value>): seq<byte>
    requires FitsMany(env, t, vs)
    decreases vs
  {
    if vs.Nil? then [] else Encode(env, t, vs.head) + EncodeMany(env, t, vs.tail)
  }

  function EncodeAll(env: Env, ts: List<Layout>, vs: List<Value>): seq<byte>
    requires FitsAll(env, ts, vs)
    decreases vs
  {
    if vs.Nil? then [] else Encode(env, ts.head, vs.head) + EncodeAll(env, ts.tail, vs.tail)
  }

  // ----- Decoding -----

  /** serialize_one of the input archive at a position; on success used is the position after the value. */
  function Decode(env: Env, t: Layout, data: seq<byte>, pos: nat, lim: Limits, d: nat): (r: Read<Value>)
    requires d <= lim.nesting && pos <= |data|
    ensures r.Ok? ==> pos <= r.used <= |data|
    decreases lim.nesting - d, t, 0
  {
    match t
    case Scalar(w) => if |data| - pos < w then Fail(OutOfRange) else Ok(Num(GetLE(data, pos, w)), pos + w)
    case Text =>
      if |data| - pos < SIZE_BYTES then Fail(OutOfRange) else
      var n, start := GetLE(data, pos, SIZE_BYTES), pos + SIZE_BYTES;
      if n > lim.alloc then Fail(MessageSize)
      else if n > |data| - start then Fail(OutOfRange)
      else Ok(Blob(data[start..start + n]), start + n)
    case Many(e, size) =>
      if |data| - pos < SIZE_BYTES || size == 0 then Fail(OutOfRange) else
      var n := GetLE(data, pos, SIZE_BYTES);
      if n > lim.alloc / size then Fail(MessageSize) else
      var r := DecodeMany(env, e, n, data, pos + SIZE_BYTES, lim, d);
      if r.Ok? then Ok(Items(r.value), r.used) else Fail(r.error)
    case Optional(e) =>
      if pos == |data| then Fail(OutOfRange)
      else if data[pos] == 0 then Ok(None, pos + 1) else
      var r := Decode(env, e, data, pos + 1, lim, d);
      if r.Ok? then Ok(Some(r.value), r.used) else r
    case Variant(alts) =>
      if pos == |data| then Fail(OutOfRange)
      else if data[pos] >= |alts| then Fail(BadMessage) else
      var r := Decode(env, alts[data[pos]], data, pos + 1, lim, d);
      if r.Ok? then Ok(Alt(data[pos], r.value), r.used) else r
    case Record(ms) =>
      var r := DecodeAll(env, ms, data, pos, lim, d);
      if r.Ok? then Ok(Tuple(r.value), r.used) else Fail(r.error)
    case SelfRef(name) =>
      if d >= lim.nesting || name !in env then Fail(TooLarge) else
      var r := DecodeAll(env, env[name], data, pos, lim, d + 1);
      if r.Ok? then Ok(Tuple(r.value), r.used) else Fail(r.error)
  }

  function DecodeMany(env: Env, t: Layout, n: nat, data: seq<byte>, pos: nat, lim: Limits,
                      d: nat): (r: Read<List<Value>>)
    requires d <= lim.nesting && pos <= |data|
    ensures r.Ok? ==> pos <= r.used <= |data|
    decreases lim.nesting - d, t, n + 1
  {
    if n == 0 then Ok(Nil, pos) else
    var h := Decode(env, t, data, pos, lim, d);
    if h.Fail? then Fail(h.error) else
    var rest := DecodeMany(env, t, n - 1, data, h.used, lim, d);
    if rest.Fail? then rest else Ok(Cons(h.value, rest.value), rest.used)
  }

  function DecodeAll(env: Env, ts: List<Layout>, data: seq<byte>, pos: nat, lim: Limits, d: nat): (r: Read<List<Value>>)
    requires d <= lim.nesting && pos <= |data|
    ensures r.Ok? ==> pos <= r.used <= |data|
    decreases lim.nesting - d, ts, 0
  {
    if ts.Nil? then Ok(Nil, pos) else
    var h := Decode(env, ts.head, data, pos, lim, d);
    if h.Fail? then Fail(h.error) else
    var rest := DecodeAll(env, ts.tail, data, h.used, lim, d);
    if rest.Fail? then rest else Ok(Cons(h.value, rest.value), rest.used)
  }

  // ----- Reading is local: bytes behind what was used do not matter -----

  lemma {:induction false} DecodeExtend(env: Env, t: Layout, data: seq<byte>, more: seq<byte>, pos: nat, lim: Limits,
                                        d: nat)
    requires d <= lim.nesting && pos <= |data| && Decode(env, t, data, pos, lim, d).Ok?
    ensures Decode(env, t, data + more, pos, lim, d) == Decode(env, t, data, pos, lim, d)
    decreases lim.nesting - d, t, 0
  {
    match t
    case Scalar(w) => LEExtend(data, more, pos, w);
    case Text =>
      LEExtend(data, more, pos, SIZE_BYTES);
      var n, start := GetLE(data, pos, SIZE_BYTES), pos + SIZE_BYTES;
      assert (data + more)[start..start + n] == data[start..start + n];
    case Many(e, size) =>
      LEExtend(data, more, pos, SIZE_BYTES);
      DecodeManyExtend(env, e, GetLE(data, pos, SIZE_BYTES), data, more, pos + SIZE_BYTES, lim, d);
    case Optional(e) => if data[pos] != 0 { DecodeExtend(env, e, data, more, pos + 1, lim, d); }
    case Variant(alts) => DecodeExtend(env, alts[data[pos]], data, more, pos + 1, lim, d);
    case Record(ms) => DecodeAllExtend(env, ms, data, more, pos, lim, d);
    case SelfRef(name) => DecodeAllExtend(env, env[name], data, more, pos, lim, d + 1);
  }

  lemma {:induction false} DecodeManyExtend(env: Env, t: Layout, n: nat, data: seq<byte>, more: seq<byte>, pos: nat,
                                            lim: Limits, d: nat)
    requires d <= lim.nesting && pos <= |data| && DecodeMany(env, t, n, data, pos, lim, d).Ok?
    ensures DecodeMany(env, t, n, data + more, pos, lim, d) == DecodeMany(env, t, n, data, pos, lim, d)
    decreases lim.nesting - d, t, n + 1
  {
    if n > 0 {
      DecodeExtend(env, t, data, more, pos, lim, d);
      DecodeManyExtend(env, t, n - 1, data, more, Decode(env, t, data, pos, lim, d).used, lim, d);
    }
  }

  lemma {:induction false} DecodeAllExtend(env: Env, ts: List<Layout>, data: seq<byte>, more: seq<byte>, pos: nat,
                                           lim: Limits, d: nat)
    requires d <= lim.nesting && pos <= |data| && DecodeAll(env, ts, data, pos, lim, d).Ok?
    ensures DecodeAll(env, ts, data + more, pos, lim, d) == DecodeAll(env, ts, data, pos, lim, d)
    decreases lim.nesting - d, ts, 0
  {
    if ts.Cons? {
      DecodeExtend(env, ts.head, data, more, pos, lim, d);
      DecodeAllExtend(env, ts.tail, data, more, Decode(env, ts.head, data, pos, lim, d).used, lim, d);
    }
  }

  // ----- Whatever is read has the requested type and respects the limits -----

  lemma {:induction false} DecodeSound(env: Env, t: Layout, data: seq<byte>, pos: nat, lim: Limits, d: nat)
    requires d <= lim.nesting && pos <= |data| && Decode(env, t, data, pos, lim, d).Ok?
    ensures var v := Decode(env, t, data, pos, lim, d).value; Fits(env, t, v) && Readable(env, t, v, lim, d)
    decreases lim.nesting - d, t, 0
  {
    match t
    case Scalar(w) => LEBound(data, pos, w);
    case Text => LEBound(data, pos, SIZE_BYTES);
    case Many(e, size) =>
      LEBound(data, pos, SIZE_BYTES);
      DecodeManySound(env, e, GetLE(data, pos, SIZE_BYTES), data, pos + SIZE_BYTES, lim, d);
    case Optional(e) => if data[pos] != 0 { DecodeSound(env, e, data, pos + 1, lim, d); }
    case Variant(alts) => DecodeSound(env, alts[data[pos]], data, pos + 1, lim, d);
    case Record(ms) => DecodeAllSound(env, ms, data, pos, lim, d);
    case SelfRef(name) => DecodeAllSound(env, env[name], data, pos, lim, d + 1);
  }

  lemma {:induction false} DecodeManySound(env: Env, t: Layout, n: nat, data: seq<byte>, pos: nat, lim: Limits, d: nat)
    requires d <= lim.nesting && pos <= |data| && DecodeMany(env, t, n, data, pos, lim, d).Ok?
    ensures var vs := DecodeMany(env, t, n, data, pos, lim, d).value;
            Len(vs) == n && FitsMany(env, t, vs) && ReadableMany(env, t, vs, lim, d)
    decreases lim.nesting - d, t, n + 1
  {
    if n > 0 {
      DecodeSound(env, t, data, pos, lim, d);
      DecodeManySound(env, t, n - 1, data, Decode(env, t, data, pos, lim, d).used, lim, d);
    }
  }

  lemma {:induction false} DecodeAllSound(env: Env, ts: List<Layout>, data: seq<byte>, pos: nat, lim: Limits, d: nat)
    requires d <= lim.nesting && pos <= |data| && DecodeAll(env, ts, data, pos, lim, d).Ok?
    ensures var vs := DecodeAll(env, ts, data, pos, lim, d).value;
            FitsAll(env, ts, vs) && ReadableAll(env, ts, vs, lim, d)
    decreases lim.nesting - d, ts, 0
  {
    if ts.Cons? {
      DecodeSound(env, ts.head, data, pos, lim, d);
      DecodeAllSound(env, ts.tail, data, Decode(env, ts.head, data, pos, lim, d).used, lim, d);
    }
  }

  // ----- Round trip -----

  lemma {:induction false} DecodeEncode(env: Env, t: Layout, v: Value, data: seq<byte>, pos: nat, lim: Limits, d: nat)
    requires d <= lim.nesting && Fits(env, t, v) && Readable(env, t, v, lim, d)
    requires At(data, pos, Encode(env, t, v))
    ensures Decode(env, t, data, pos, lim, d) == Ok(v, pos + |Encode(env, t, v)|)
    decreases v, 1
  {
    match t
    case Scalar(w) => LERoundTrip(data, pos, v.n, w);
    case Text =>
      AtSplit(data, pos, PutLE(|v.bytes|, SIZE_BYTES), v.bytes);
      LERoundTrip(data, pos, |v.bytes|, SIZE_BYTES);
      var start := pos + SIZE_BYTES;
      assert data[start..start + |v.bytes|] == v.bytes;
    case Many(e, size) =>
      AtSplit(data, pos, PutLE(Len(v.items), SIZE_BYTES), EncodeMany(env, e, v.items));
      LERoundTrip(data, pos, Len(v.items), SIZE_BYTES);
      DecodeEncodeMany(env, e, v.items, data, pos + SIZE_BYTES, lim, d);
    case Optional(_) => DecodeEncodeTagged(env, t, v, data, pos, lim, d);
    case Variant(_) => DecodeEncodeTagged(env, t, v, data, pos, lim, d);
    case Record(ms) => DecodeEncodeAll(env, ms, v.items, data, pos, lim, d);
    case SelfRef(name) => DecodeEncodeAll(env, env[name], v.items, data, pos, lim, d + 1);
  }

  lemma {:induction false} DecodeEncodeTagged(env: Env, t: Layout, v: Value, data: seq<byte>, pos: nat, lim: Limits,
                                              d: nat)
    requires d <= lim.nesting && (t.Optional? || t.Variant?) && Fits(env, t, v) && Readable(env, t, v, lim, d)
    requires At(data, pos, Encode(env, t, v))
    ensures Decode(env, t, data, pos, lim, d) == Ok(v, pos + |Encode(env, t, v)|)
    decreases v, 0
  {
    if t.Variant? {
      AtSplit(data, pos, [v.index], Encode(env, t.alternatives[v.index], v.value));
      assert data[pos + 0] == [v.index][0];
      DecodeEncode(env, t.alternatives[v.index], v.value, data, pos + 1, lim, d);
    } else if v == None {
      assert data[pos + 0] == [0][0];
    } else {
      AtSplit(data, pos, [1], Encode(env, t.element, v.value));
      assert data[pos + 0] == [1][0];
      DecodeEncode(env, t.element, v.value, data, pos + 1, lim, d);
    }
  }

  lemma {:induction false} DecodeEncodeMany(env: Env, t: Layout, vs: List<Value>, data: seq<byte>, pos: nat,
                                            lim: Limits, d: nat)
    requires d <= lim.nesting && FitsMany(env, t, vs) && ReadableMany(env, t, vs, lim, d)
    requires At(data, pos, EncodeMany(env, t, vs))
    ensures DecodeMany(env, t, Len(vs), data, pos, lim, d) == Ok(vs, pos + |EncodeMany(env, t, vs)|)
    decreases vs
  {
    if vs.Cons? {
      AtSplit(data, pos, Encode(env, t, vs.head), EncodeMany(env, t, vs.tail));
      DecodeEncode(env, t, vs.head, data, pos, lim, d);
      DecodeEncodeMany(env, t, vs.tail, data, pos + |Encode(env, t, vs.head)|, lim, d);
    }
  }

  lemma {:induction false} DecodeEncodeAll(env: Env, ts: List<Layout>, vs: List<Value>, data: seq<byte>, pos: nat,
                                           lim: Limits, d: nat)
    requires d <= lim.nesting && FitsAll(env, ts, vs) && ReadableAll(env, ts, vs, lim, d)
    requires At(data, pos, EncodeAll(env, ts, vs))
    ensures DecodeAll(env, ts, data, pos, lim, d) == Ok(vs, pos + |EncodeAll(env, ts, vs)|)
    decreases vs
  {
    if vs.Cons? {
      AtSplit(data, pos, Encode(env, ts.head, vs.head), EncodeAll(env, ts.tail, vs.tail));
      DecodeEncode(env, ts.head, vs.head, data, pos, lim, d);
      DecodeEncodeAll(env, ts.tail, vs.tail, data, pos + |Encode(env, ts.head, vs.head)|, lim, d);
    }
  }

  /**
   * A value survives the trip, whatever stands before and after it, exactly when its sizes and
   * its nesting are within what the reader tolerates.
   */
  lemma RoundTripIff(env: Env, t: Layout, v: Value, before: seq<byte>, after: seq<byte>, lim: Limits, d: nat)
    requires d <= lim.nesting && Fits(env, t, v)
    ensures var data := before + Encode(env, t, v) + after;
            Decode(env, t, data, |before|, lim, d) == Ok(v, |before| + |Encode(env, t, v)|)
            <==> Readable(env, t, v, lim, d)
  {
    var data := before + Encode(env, t, v) + after;
    if Readable(env, t, v, lim, d) {
      assert At(data, |before|, Encode(env, t, v));
      DecodeEncode(env, t, v, data, |before|, lim, d);
    } else if Decode(env, t, data, |before|, lim, d).Ok? {
      DecodeSound(env, t, data, |before|, lim, d);
    }
  }

  lemma ExtendOrFail(env: Env, t: Layout, data: seq<byte>, more: seq<byte>, lim: Limits, d: nat)
    requires d <= lim.nesting
    ensures Decode(env, t, data, 0, lim, d).Fail?
            || Decode(env, t, data + more, 0, lim, d) == Decode(env, t, data, 0, lim, d)
  {
    if Decode(env, t, data, 0, lim, d).Ok? { DecodeExtend(env, t, data, more, 0, lim, d); }
  }

  /** No encoding can be cut short: every proper prefix of it is rejected. */
  lemma PrefixRejected(env: Env, t: Layout, v: Value, n: nat, lim: Limits, d: nat)
    requires d <= lim.nesting && Fits(env, t, v) && Readable(env, t, v, lim, d)
    requires n < |Encode(env, t, v)|
    ensures Decode(env, t, Encode(env, t, v)[..n], 0, lim, d).Fail?
  {
    var whole := Encode(env, t, v);
    DecodeEncode(env, t, v, whole, 0, lim, d);
    assert whole[..n] + whole[n..] == whole;
    ExtendOrFail(env, t, whole[..n], whole[n..], lim, d);
  }

  /** Encodings of different values never coincide, and neither is a prefix of the other. */
  lemma EncodingsPrefixFree(env: Env, t: Layout, v: Value, u: Value, lim: Limits, d: nat)
    requires d <= lim.nesting && Fits(env, t, v) && Readable(env, t, v, lim, d)
    requires Fits(env, t, u) && Readable(env, t, u, lim, d)
    ensures Encode(env, t, v) <= Encode(env, t, u) ==> v == u
  {
    if Encode(env, t, v) <= Encode(env, t, u) {
      DecodeEncode(env, t, v, Encode(env, t, u), 0, lim, d);
      DecodeEncode(env, t, u, Encode(env, t, u), 0, lim, d);
    }
  }

  // ----- The input archive -----

  /** One more element after i of them: the next read continues or decides the whole loop. */
  lemma {:induction false} ManyNext(env: Env, t: Layout, i: nat, n: nat, data: seq<byte>, pos: nat, lim: Limits, d: nat)
    requires d <= lim.nesting && pos <= |data| && i < n && DecodeMany(env, t, i, data, pos, lim, d).Ok?
    ensures var r := DecodeMany(env, t, i, data, pos, lim, d);
            var h := Decode(env, t, data, r.used, lim, d);
            if h.Ok? then DecodeMany(env, t, i + 1, data, pos, lim, d) == Ok(Snoc(r.value, h.value), h.used)
            else DecodeMany(env, t, n, data, pos, lim, d) == Fail(h.error)
    decreases i
  {
    if i == 0 {
      var h := Decode(env, t, data, pos, lim, d);
      if h.Ok? { assert DecodeMany(env, t, 0, data, h.used, lim, d) == Ok(Nil, h.used); }
    } else {
      ManyNext(env, t, i - 1, n - 1, data, Decode(env, t, data, pos, lim, d).used, lim, d);
    }
  }

  /** zpp::bits::in over a byte view: reads advance the position and count open nesting levels. */
  class In {
    const env: Env
    const data: seq<byte>
    const lim: Limits
    var position: nat
    var nesting: nat

    ghost predicate Valid()
      reads this
    {
      position <= |data| && nesting <= lim.nesting
    }

    constructor (env: Env, data: seq<byte>, lim: Limits, depth: nat)
      requires depth <= lim.nesting
      ensures Valid() && this.env == env && this.data == data && this.lim == lim && position == 0 && nesting == depth
    {
      this.env, this.data, this.lim, position, nesting := env, data, lim, 0, depth;
    }

    /** A fundamental item: w bytes copied out of the view. */
    method ReadScalar(w: nat) returns (r: Read<nat>)
      requires Valid()
      modifies this`position
      ensures Valid() && r == (if |data| - old(position) < w then Fail(OutOfRange)
                               else Ok(GetLE(data, old(position), w), old(position) + w))
      ensures r.Ok? ==> position == r.used
    {
      if w > |data| - position {
        return Fail(OutOfRange);
      }
      r := Ok(GetLE(data, position, w), position + w);
      position := position + w;
    }

    method ReadByte() returns (r: Read<byte>)
      requires Valid()
      modifies this`position
      ensures Valid()
              && r == (if old(position) == |data| then Fail(OutOfRange) else Ok(data[old(position)], old(position) + 1))
      ensures r.Ok? ==> position == r.used
    {
      if position == |data| {
        return Fail(OutOfRange);
      }
      r := Ok(data[position], position + 1);
      position := position + 1;
    }

    /**
     * serialize_one: returns what Decode says stands at the position, moves exactly behind it,
     * and leaves the nesting count as it found it on success and on every error.
     */
    method ReadOne(t: Layout) returns (r: Read<Value>)
      requires Valid()
      modifies this`position, this`nesting
      ensures Valid() && nesting == old(nesting)
      ensures r == Decode(env, t, data, old(position), lim, nesting)
      ensures r.Ok? ==> position == r.used
      decreases lim.nesting - nesting, t, 0
    {
      match t
      case Scalar(w) =>
        var n := ReadScalar(w);
        r := if n.Ok? then Ok(Num(n.value), position) else Fail(n.error);
      case Text =>
        var n := ReadScalar(SIZE_BYTES);
        if n.Fail? { return Fail(n.error); }
        if n.value > lim.alloc { return Fail(MessageSize); }
        if n.value > |data| - position { return Fail(OutOfRange); }
        r := Ok(Blob(data[position..position + n.value]), position + n.value);
        position := position + n.value;
      case Many(e, size) =>
        var n := ReadScalar(SIZE_BYTES);
        if n.Fail? || size == 0 { return Fail(OutOfRange); }
        if n.value > lim.alloc / size { return Fail(MessageSize); }
        var items := ReadMany(e, n.value);
        r := if items.Ok? then Ok(Items(items.value), position) else Fail(items.error);
      case Optional(e) =>
        var hasValue := ReadByte();
        if hasValue.Fail? { return Fail(hasValue.error); }
        if hasValue.value == 0 { return Ok(None, position); }
        r := ReadOne(e);
        if r.Ok? { r := Ok(Some(r.value), position); }
      case Variant(alts) =>
        var id := ReadByte();
        if id.Fail? { return Fail(id.error); }
        if id.value >= |alts| { return Fail(BadMessage); }
        r := ReadOne(alts[id.value]);
        if r.Ok? { r := Ok(Alt(id.value, r.value), position); }
      case Record(ms) =>
        var items := ReadAll(ms);
        r := if items.Ok? then Ok(Tuple(items.value), position) else Fail(items.error);
      case SelfRef(name) =>
        if nesting >= lim.nesting || name !in env { return Fail(TooLarge); }
        nesting := nesting + 1;
        var items := ReadAll(env[name]);
        nesting := nesting - 1;
        r := if items.Ok? then Ok(Tuple(items.value), position) else Fail(items.error);
    }

    /** The element loop of a container. */
    method ReadMany(t: Layout, n: nat) returns (r: Read<List<Value>>)
      requires Valid()
      modifies this`position, this`nesting
      ensures Valid() && nesting == old(nesting)
      ensures r == DecodeMany(env, t, n, data, old(position), lim, nesting)
      ensures r.Ok? ==> position == r.used
      decreases lim.nesting - nesting, t, 1
    {
      var items: List<Value> := Nil;
      for i := 0 to n
        invariant Valid() && nesting == old(nesting)
        invariant DecodeMany(env, t, i, data, old(position), lim, nesting) == Ok(items, position)
      {
        ManyNext(env, t, i, n, data, old(position), lim, nesting);
        var h := ReadOne(t);
        if h.Fail? { return Fail(h.error); }
        items := Snoc(items, h.value);
      }
      return Ok(items, position);
    }

    /** visit_members: the members of a record, first to last. */
    method ReadAll(ts: List<Layout>) returns (r: Read<List<Value>>)
      requires Valid()
      modifies this`position, this`nesting
      ensures Valid() && nesting == old(nesting)
      ensures r == DecodeAll(env, ts, data, old(position), lim, nesting)
      ensures r.Ok? ==> position == r.used
      decreases lim.nesting - nesting, ts, 0
    {
      if ts.Nil? { return Ok(Nil, position); }
      var first := ReadOne(ts.head);
      if first.Fail? { return Fail(first.error); }
      var rest := ReadAll(ts.tail);
      r := if rest.Ok? then Ok(Cons(first.value, rest.value), position) else rest;
    }
  }
}
