/**
 * The output archive of zpp::bits: an in-place buffer with a write position, grown on demand
 * or fixed, and length-prefixed messages whose size is patched in after their body is written.
 */
module OutArchive {
  import opened Basics
  import opened Wire
  import Varint

  datatype Limit = Unlimited | AtMost(n: nat)

  /** What a caller serializes: bytes, one varint of a width, or a message with a varint length prefix. */
  datatype Item = Raw(bytes: seq<byte>) | Number(value: nat, width: nat) | Message(parts: List<Item>)

  // ----- What an item should look like on the wire -----

  function Image(item: Item): seq<byte>
    decreases item
  {
    match item
    case Raw(bytes) => bytes
    case Number(v, _) => Varint.Encode(v)
    case Message(parts) => Varint.Encode(|ImageAll(parts)|) + ImageAll(parts)
  }

  function ImageAll(parts: List<Item>): seq<byte>
    decreases parts
  {
    if parts.Nil? then [] else Image(parts.head) + ImageAll(parts.tail)
  }

  /**
   * Nothing in the item is beyond the archive: every body is shorter than 2^56 bytes (the patched
   * prefix has eight bytes to go into), and no message is nested deeper than the limit when depth
   * levels are already open.
   */
  predicate Encodable(item: Item, depth: nat, limit: Limit)
    decreases item
  {
    match item
    case Raw(_) => true
    case Number(_, _) => true
    case Message(parts) =>
      && (limit.AtMost? ==> depth < limit.n)
      && |ImageAll(parts)| < Pow2(Varint.PREFIX_BITS)
      && EncodableAll(parts, depth + 1, limit)
  }

  predicate EncodableAll(parts: List<Item>, depth: nat, limit: Limit)
    decreases parts
  {
    parts.Cons? ==> Encodable(parts.head, depth, limit) && EncodableAll(parts.tail, depth, limit)
  }

  /** Every varint is a word of its width and every span length a 64-bit one; the types of the source already say so. */
  predicate Words(item: Item)
    decreases item
  {
    match item
    case Raw(bytes) => |bytes| < Pow2(Varint.SIZE_BITS)
    case Number(v, w) => Varint.Width(w) && v < Pow2(w)
    case Message(parts) => WordsAll(parts)
  }

  predicate WordsAll(parts: List<Item>)
    decreases parts
  {
    parts.Cons? ==> Words(parts.head) && WordsAll(parts.tail)
  }

  /** A message with a body of 2^56 bytes: every number in it is a word, and it cannot be written. */
  lemma BodyTooLong(item: Item, depth: nat, limit: Limit)
    requires item == Message(Cons(Raw(seq(Pow2(Varint.PREFIX_BITS), _ => 0)), Nil))
    ensures Words(item) && !Encodable(item, depth, limit)
  {
    var raw := item.parts.head;
    assert ImageAll(item.parts) == raw.bytes + ImageAll(Nil);
    Longer(Varint.PREFIX_BITS, Varint.SIZE_BITS);
    assert Words(raw) && WordsAll(Nil);
  }

  lemma {:induction false} Longer(a: nat, b: nat)
    requires a < b
    ensures Pow2(a) < Pow2(b)
  {
    Pow2Mono(a + 1, b);
  }

  // ----- Growth -----

  /** The size enlarge_for grows to, computed in std::size_t, unless it finds that a step wrapped around. */
  function Enlarged(size: nat, n: nat): Option<nat> {
    var required := Low(Varint.SIZE_BITS, size + n);
    if required < size then None else
    var tripled := Low(Varint.SIZE_BITS, 3 * required);
    if tripled / 3 != required then None else Some(tripled / 2)
  }

  /** The two tests catch every overflow: the result is 3/2 of the exact sum, or there is none. */
  lemma EnlargedIff(size: nat, n: nat)
    requires size < Pow2(Varint.SIZE_BITS) && n < Pow2(Varint.SIZE_BITS)
    ensures Enlarged(size, n)
            == if 3 * (size + n) < Pow2(Varint.SIZE_BITS) then Some((size + n) * 3 / 2) else None
  {
    var w, p := Varint.SIZE_BITS, Pow2(Varint.SIZE_BITS);
    var sum := size + n;
    if sum >= p {
      LowWrap(w, sum - p);
      LowSmall(w, sum - p);
    } else {
      LowSmall(w, sum);
      WrapThree(w, sum);
    }
  }

  lemma WrapThree(w: nat, x: nat)
    requires x < Pow2(w) && w >= 2
    ensures 3 * x < Pow2(w) ==> Low(w, 3 * x) == 3 * x
    ensures 3 * x >= Pow2(w) ==> Low(w, 3 * x) < 3 * x - 2
  {
    var p := Pow2(w);
    assert p == 2 * (2 * Pow2(w - 2));
    if 3 * x < p {
      LowSmall(w, 3 * x);
    } else {
      LowWrap(w, 3 * x - p);
      if 3 * x - p < p {
        LowSmall(w, 3 * x - p);
      } else {
        LowWrap(w, 3 * x - 2 * p);
        LowSmall(w, 3 * x - 2 * p);
      }
    }
  }

  /** Room enough in std::size_t for growing while length more bytes are written at a position. */
  predicate Roomy(position: nat, length: nat) {
    6 * (position + length + Varint.MaxSize(Varint.SIZE_BITS)) < Pow2(Varint.SIZE_BITS)
  }

  // ----- Sequence bookkeeping -----

  /** The encoding loop's writes, one byte at a time. */
  function Put(d: seq<byte>, at: nat, v: nat): (r: seq<byte>)
    requires at + |Varint.Encode(v)| <= |d|
    ensures |r| == |d|
    decreases v
  {
    if v < 128 then d[at := v] else Put(d[at := v % 128 + 128], at + 1, v / 128)
  }

  /** They overwrite exactly the encoding's bytes. */
  lemma {:induction false} PutWrites(d: seq<byte>, at: nat, v: nat)
    requires at + |Varint.Encode(v)| <= |d|
    ensures Put(d, at, v) == d[..at] + Varint.Encode(v) + d[at + |Varint.Encode(v)|..]
    decreases v
  {
    if v >= 128 {
      var e := d[at := v % 128 + 128];
      PutWrites(e, at + 1, v / 128);
      var k := |Varint.Encode(v / 128)|;
      assert e[..at + 1] == d[..at] + [v % 128 + 128];
      assert e[at + 1 + k..] == d[at + 1 + k..];
      Assoc(d[..at], [v % 128 + 128], Varint.Encode(v / 128));
    }
  }

  lemma Regroup<T>(d: seq<T>, at: nat, mid: seq<T>, n: nat)
    requires at + |mid| <= n <= |d|
    ensures (d[..at] + mid + d[at + |mid|..])[..n] == d[..n][..at] + (mid + d[..n][at + |mid|..])
  {
  }

  lemma Unprefix<T>(w: seq<T>, before: seq<T>, one: seq<T>, body: seq<T>)
    requires w == before + one + body
    ensures w[..|before|] == before && w[|before| + |one|..] == body
  {
  }

  class Out {
    var data: seq<byte>
    var position: nat
    var nesting: nat
    /** How often the buffer could not grow. */
    ghost var refusals: nat
    const resizable: bool
    const allocLimit: Limit
    const nestingLimit: Limit

    ghost predicate Valid()
      reads this
    {
      position <= |data| < Pow2(Varint.SIZE_BITS)
    }

    /** processed_data(): everything written so far. */
    ghost function Written(): (s: seq<byte>)
      requires Valid()
      reads this
      ensures |s| == position
    {
      data[..position]
    }

    /** An archive for a nested message starts at the depth reached so far. */
    constructor (buffer: seq<byte>, depth: nat, resizable: bool, allocLimit: Limit, nestingLimit: Limit)
      requires |buffer| < Pow2(Varint.SIZE_BITS)
      ensures Valid() && data == buffer && position == 0 && nesting == depth && refusals == 0
      ensures this.resizable == resizable && this.allocLimit == allocLimit && this.nestingLimit == nestingLimit
    {
      data, position, nesting, refusals := buffer, 0, depth, 0;
      this.resizable, this.allocLimit, this.nestingLimit := resizable, allocLimit, nestingLimit;
    }

    /** A growing buffer of a size has room for n bytes at a position, or can get it. */
    predicate HasRoom(size: nat, at: nat, n: nat) {
      n <= size - at || (&& 3 * (size + n) < Pow2(Varint.SIZE_BITS)
                         && (allocLimit.AtMost? ==> (size + n) * 3 / 2 <= allocLimit.n))
    }

    /**
     * enlarge_for: makes room for n more bytes by growing to 3/2 of the required size, unless that
     * would overflow std::size_t or exceed the allocation limit. No byte already in the buffer changes.
     */
    method EnlargeFor(n: nat) returns (ok: bool)
      requires Valid() && n < Pow2(Varint.SIZE_BITS)
      modifies this`data, this`refusals
      ensures Valid() && old(data) <= data && refusals == old(refusals) + if ok then 0 else 1
      ensures ok ==> n <= |data| - position
      ensures ok <==> HasRoom(old(|data|), position, n)
      ensures |data| == if ok && n > old(|data|) - position then (old(|data|) + n) * 3 / 2 else old(|data|)
    {
      if n > |data| - position {
        EnlargedIff(|data|, n);
        var newSize := Enlarged(|data|, n);
        if newSize.None? || (allocLimit.AtMost? && newSize.value > allocLimit.n) {
          refusals := refusals + 1;
          return false;
        }
        data := data + seq(newSize.value - |data|, _ => 0);
      }
      return true;
    }

    /** Room for n bytes: grow if the buffer can, otherwise they must fit. */
    method Reserve(n: nat) returns (ok: bool)
      requires Valid() && n < Pow2(Varint.SIZE_BITS)
      modifies this`data, this`refusals
      ensures Valid() && Written() == old(Written())
      ensures ok ==> n <= |data| - position
      ensures !resizable ==> data == old(data) && (ok <==> n <= |data| - position) && refusals == old(refusals)
      ensures resizable ==> old(refusals) <= refusals && (ok <==> refusals == old(refusals))
      ensures resizable && allocLimit.Unlimited? && 3 * (position + 2 * n) < Pow2(Varint.SIZE_BITS) ==> ok
    {
      if resizable {
        ok := EnlargeFor(n);
      } else {
        ok := n <= |data| - position;
      }
    }

    /**
     * Whether the archive takes an item. A fixed buffer takes exactly what is encodable and fits in the room
     * that is left, a growing one exactly what is encodable while no growth is refused. Without an allocation
     * limit none is refused as long as sizes stay well within std::size_t.
     */
    ghost predicate Takes(length: nat, encodable: bool, at: nat, room: int, before: nat, ok: bool)
      reads this
    {
      && before <= refusals
      && (!resizable ==> refusals == before && (ok <==> encodable && length <= room))
      && (resizable ==> (ok <==> encodable && refusals == before))
      && (resizable && allocLimit.Unlimited? && Roomy(at, length) ==> refusals == before)
    }

    method WriteBytes(bytes: seq<byte>) returns (ok: bool)
      requires Valid() && |bytes| < Pow2(Varint.SIZE_BITS)
      modifies this`data, this`position, this`refusals
      ensures Valid() && (!resizable ==> |data| == old(|data|))
      ensures Written() == old(Written()) + if ok then bytes else []
      ensures Takes(|bytes|, true, old(position), old(|data| - position), old(refusals), ok)
    {
      if bytes == [] { return true; }
      ok := Reserve(|bytes|);
      if !ok { return; }
      data := data[..position] + bytes + data[position + |bytes|..];
      position := position + |bytes|;
    }

    /** The encoding loop, writing at a given offset. */
    method PutVarint(at: nat, v: nat)
      requires at + |Varint.Encode(v)| <= |data|
      modifies this`data
      ensures data == old(data[..at]) + Varint.Encode(v) + old(data[at + |Varint.Encode(v)|..])
    {
      var value, p := v, 0;
      while value >= 128
        invariant at + p + |Varint.Encode(value)| <= |data|
        invariant Put(data, at + p, value) == old(Put(data, at, v))
        decreases value
      {
        data := data[at + p := value % 128 + 128];
        p := p + 1;
        value := value / 128;
      }
      data := data[at + p := value];
      PutWrites(old(data), at, v);
    }

    method AppendVarint(v: nat)
      requires Valid() && position + |Varint.Encode(v)| <= |data|
      modifies this`data, this`position
      ensures Valid() && |data| == old(|data|) && Written() == old(Written()) + Varint.Encode(v)
    {
      PutVarint(position, v);
      position := position + |Varint.Encode(v)|;
    }

    /** A varint of a type of w bits; a growing buffer makes room for the longest one of the type. */
    method WriteVarint(v: nat, w: nat) returns (ok: bool)
      requires Valid() && Varint.Width(w) && v < Pow2(w)
      modifies this`data, this`position, this`refusals
      ensures Valid() && (!resizable ==> |data| == old(|data|))
      ensures Written() == old(Written()) + if ok then Varint.Encode(v) else []
      ensures Takes(|Varint.Encode(v)|, true, old(position), old(|data| - position), old(refusals), ok)
      ensures resizable ==> (ok <==> HasRoom(old(|data|), old(position), Varint.MaxSize(w)))
    {
      Varint.EncodeFits(w, v);
      Varint.SizeIsEncodedLength(v);
      if resizable {
        Pow2Mono(4, Varint.SIZE_BITS);
        ok := EnlargeFor(Varint.MaxSize(w));
        if !ok { return; }
      } else if |data| - position < Varint.MaxSize(w) && |data| - position < Varint.Size(v) {
        return false;
      }
      ok := true;
      AppendVarint(v);
    }

    /** serialize_one: the item's image is appended, or nothing already written is disturbed. */
    method Serialize(item: Item) returns (ok: bool)
      requires Valid() && Words(item)
      modifies this`data, this`position, this`nesting, this`refusals
      ensures Valid() && nesting == old(nesting) && (!resizable ==> |data| == old(|data|))
      ensures old(Written()) <= Written()
      ensures ok ==> Written() == old(Written()) + Image(item)
      ensures Takes(|Image(item)|, Encodable(item, nesting, nestingLimit), old(position), old(|data| - position),
                    old(refusals), ok)
      decreases item
    {
      match item
      case Raw(bytes) => ok := WriteBytes(bytes);
      case Number(v, w) => ok := WriteVarint(v, w);
      case Message(parts) =>
        if nestingLimit.AtMost? && nesting >= nestingLimit.n {
          return false;
        }
        nesting := nesting + 1;
        ok := LengthPrefixed(parts);
        nesting := nesting - 1;
    }

    /** The members of a message, in order, stopping at the first failure. */
    method SerializeAll(parts: List<Item>) returns (ok: bool)
      requires Valid() && WordsAll(parts)
      modifies this`data, this`position, this`nesting, this`refusals
      ensures Valid() && nesting == old(nesting) && (!resizable ==> |data| == old(|data|))
      ensures old(Written()) <= Written()
      ensures ok ==> Written() == old(Written()) + ImageAll(parts)
      ensures Takes(|ImageAll(parts)|, EncodableAll(parts, nesting, nestingLimit), old(position),
                    old(|data| - position), old(refusals), ok)
      decreases parts, 0
    {
      if parts.Nil? { return true; }
      ok := Serialize(parts.head);
      if !ok { return; }
      Assoc(old(Written()), Image(parts.head), ImageAll(parts.tail));
      ok := SerializeAll(parts.tail);
    }

    /**
     * The by-protocol branch with a varint size: a one-byte placeholder, the body, then the
     * size patched in front of the body.
     */
    method LengthPrefixed(parts: List<Item>) returns (ok: bool)
      requires Valid() && WordsAll(parts)
      modifies this`data, this`position, this`nesting, this`refusals
      ensures Valid() && nesting == old(nesting) && (!resizable ==> |data| == old(|data|))
      ensures old(Written()) <= Written()
      ensures ok ==> Written() == old(Written()) + Image(Message(parts))
      ensures Takes(|Image(Message(parts))|,
                    EncodableAll(parts, nesting, nestingLimit) && |ImageAll(parts)| < Pow2(Varint.PREFIX_BITS),
                    old(position), old(|data| - position), old(refusals), ok)
      decreases parts, 2
    {
      var sizePosition := position;
      ok := PlaceholderAndBody(parts);
      if !ok { return; }
      Unprefix(Written(), old(Written()), [0], ImageAll(parts));
      ok := PatchLength(sizePosition);
    }

    /** A one-byte varint to be patched later, then the members. */
    method PlaceholderAndBody(parts: List<Item>) returns (ok: bool)
      requires Valid() && WordsAll(parts)
      modifies this`data, this`position, this`nesting, this`refusals
      ensures Valid() && nesting == old(nesting) && (!resizable ==> |data| == old(|data|))
      ensures old(Written()) <= Written()
      ensures ok ==> Written() == old(Written()) + [0] + ImageAll(parts)
      ensures Takes(1 + |ImageAll(parts)|, EncodableAll(parts, nesting, nestingLimit), old(position),
                    old(|data| - position), old(refusals), ok)
      decreases parts, 1
    {
      ok := WriteVarint(0, Varint.SIZE_BITS);
      if !ok { return; }
      ok := SerializeAll(parts);
    }

    /**
     * Moves a body that follows a one-byte placeholder ahead if its length needs more bytes,
     * and writes the length in front of it.
     */
    method PatchLength(sizePosition: nat) returns (ok: bool)
      requires Valid() && sizePosition < position
      modifies this`data, this`position, this`refusals
      ensures Valid() && (!resizable ==> |data| == old(|data|))
      ensures old(Written()[..sizePosition]) <= Written()
      ensures var body := old(Written()[sizePosition + 1..]);
              && (ok ==> Written() == old(Written()[..sizePosition]) + (Varint.Encode(|body|) + body))
              && Takes(|Varint.Encode(|body|)| + |body|, |body| < Pow2(Varint.PREFIX_BITS),
                       sizePosition, old(|data|) - sizePosition, old(refusals), ok)
    {
      var messageSize := position - sizePosition - 1;
      Varint.PrefixIff(messageSize);
      Varint.EncodeFits(Varint.SIZE_BITS, messageSize);
      ok := MakeRoom(sizePosition, Varint.Size(messageSize) - 1);
      if !ok { return; }
      // The prefix goes through a span of sizeof(SizeType) bytes.
      if Varint.Size(messageSize) > 8 {
        return false;
      }
      PutPrefix(sizePosition, messageSize);
    }

    /** Widens the one-byte placeholder by moving the body ahead. */
    method MakeRoom(sizePosition: nat, moveAheadCount: nat) returns (ok: bool)
      requires Valid() && sizePosition < position && moveAheadCount <= Varint.MaxSize(Varint.SIZE_BITS)
      modifies this`data, this`position, this`refusals
      ensures Valid() && (!resizable ==> |data| == old(|data|)) && sizePosition < position
      ensures Written()[..sizePosition] == old(Written()[..sizePosition])
      ensures ok ==> position == old(position) + moveAheadCount
                     && Written()[sizePosition + 1 + moveAheadCount..] == old(Written()[sizePosition + 1..])
      ensures Takes(moveAheadCount, true, old(position), old(|data| - position), old(refusals), ok)
    {
      if moveAheadCount == 0 { return true; }
      Pow2Mono(4, Varint.SIZE_BITS);
      ok := Reserve(moveAheadCount);
      if !ok { return; }
      MoveAhead(sizePosition + 1, moveAheadCount);
    }

    /** Overwrites the reserved bytes in front of the body with the body's length. */
    method PutPrefix(sizePosition: nat, messageSize: nat)
      requires Valid() && sizePosition + |Varint.Encode(messageSize)| <= position
      modifies this`data
      ensures Valid() && |data| == old(|data|)
      ensures Written() == old(Written()[..sizePosition])
                           + (Varint.Encode(messageSize)
                              + old(Written()[sizePosition + |Varint.Encode(messageSize)|..]))
    {
      Regroup(data, sizePosition, Varint.Encode(messageSize), position);
      PutVarint(sizePosition, messageSize);
    }

    /** Shifts the written bytes from an offset on right by n, from the back, into the room behind them. */
    method MoveAhead(from: nat, n: nat)
      requires Valid() && 1 <= from <= position && position + n <= |data|
      modifies this`data, this`position
      ensures Valid() && |data| == old(|data|) && position == old(position) + n
      ensures Written()[..from - 1] == old(Written()[..from - 1])
      ensures Written()[from + n..] == old(Written()[from..])
    {
      var p := position;
      while p > from
        invariant from <= p <= position == old(position) && |data| == old(|data|)
        invariant forall i :: p <= i < position ==> data[i + n] == old(data[i])
        invariant forall i :: 0 <= i < p ==> data[i] == old(data[i])
      {
        p := p - 1;
        data := data[p + n := data[p]];
      }
      assert data[..from - 1] == old(data[..from - 1]) && data[from + n..position + n] == old(data[from..position]);
      position := position + n;
    }
  }
}
