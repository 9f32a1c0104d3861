/**
 * Reading the protobuf protocol of zpp::bits. DecodeFields is the field loop of the in archive over
 * one span of bytes. A document is a list of field occurrences, in any order, with fields the message
 * does not declare and with varints that need not be minimal. Every document within the limits decodes
 * to what its occurrences mean. Its prefixes decode exactly where CutOk says, to what is left of it.
 */
module Protobuf {
  import opened Wire
  import Varint

  datatype Kind =
    | Int(kind: Varint.IntKind)      // varint member
    | Fixed(width: nat)             // fixed_32 or fixed_64 member
    | Bytes                         // container of bytes
    | Packed(kind: Varint.IntKind)   // container of varints
    | Sub(name: string)             // message member
    | Subs(name: string)            // container of messages

  datatype Field = Field(number: nat, kind: Kind)

  /** The members of every message type. */
  type Env = map<string, seq<Field>>

  /** What a member holds; Unset is a scalar or message member decoding has not touched. */
  datatype Slot =
    | Unset
    | IntV(n: int)
    | FixedV(bits: nat)
    | BytesV(bytes: seq<byte>)
    | IntsV(ns: List<int>)
    | SubV(slots: seq<Slot>)
    | SubsV(elements: List<Slot>)

  /** Bits of a field tag (vuint32_t), and one past the largest field number it can carry. */
  const TAG_SIZE: nat := 4
  const TAG_BITS: nat := 8 * TAG_SIZE
  const NUMBER_RANGE: nat := 0x2000_0000

  predicate KindOk(env: Env, k: Kind) {
    match k
    case Int(i) => i.Valid()
    case Packed(i) => i.Valid()
    case Fixed(w) => w == 4 || w == 8
    case Bytes => true
    case Sub(name) => name in env
    case Subs(name) => name in env
  }

  predicate AllHold(k: Varint.IntKind, ns: List<int>) {
    ns.Cons? ==> k.Holds(ns.head) && AllHold(k, ns.tail)
  }

  /** check_type and unique_field_numbers. */
  ghost predicate FieldsOk(env: Env, fields: seq<Field>) {
    && (forall i :: 0 <= i < |fields| ==> 1 <= fields[i].number < NUMBER_RANGE && KindOk(env, fields[i].kind))
    && (forall i, j :: 0 <= i < j < |fields| ==> fields[i].number != fields[j].number)
  }

  ghost predicate EnvOk(env: Env) { forall name :: name in env ==> FieldsOk(env, env[name]) }

  function Members(env: Env, name: string): seq<Field> { if name in env then env[name] else [] }

  /** wire_type of a member: varint 0, fixed_64 1, length_delimited 2, fixed_32 5. */
  function WireType(k: Kind): nat {
    match k
    case Int(_) => 0
    case Fixed(w) => if w == 8 then 1 else 5
    case _ => 2
  }

  // ----- Decoding -----

  /** The last byte of the varint at pos, or end if the span ends first. */
  function StopAt(data: seq<byte>, pos: nat, end: nat): (k: nat)
    requires pos <= end <= |data|
    ensures pos <= k <= end
    decreases end - pos
  {
    if pos == end || data[pos] < 128 then pos else StopAt(data, pos + 1, end)
  }

  function DigitsAt(data: seq<byte>, pos: nat, end: nat): nat
    requires pos <= end <= |data|
    decreases end - pos
  {
    if pos == end then 0 else data[pos] % 128 + 128 * DigitsAt(data, pos + 1, end)
  }

  /** A varint read inside the span that ends at end. */
  function ReadAt(w: nat, data: seq<byte>, pos: nat, end: nat): (r: Read<nat>)
    requires pos <= end <= |data|
    ensures r.Ok? ==> pos < r.used <= end && r.value < Pow2(w)
  {
    var k := StopAt(data, pos, end);
    if k < end && k - pos < Varint.MaxSize(w) then Ok(Low(w, DigitsAt(data, pos, k + 1)), k + 1)
    else if end - pos < Varint.MaxSize(w) then Fail(OutOfRange)
    else Fail(TooLarge)
  }

  lemma {:induction false} WindowStop(data: seq<byte>, pos: nat, end: nat)
    requires pos <= end <= |data|
    ensures StopAt(data, pos, end) == pos + Varint.Stop(data[pos..end])
    decreases end - pos
  {
    if pos < end {
      WindowStop(data, pos + 1, end);
      assert data[pos..end][1..] == data[pos + 1..end];
    }
  }

  lemma {:induction false} WindowDigits(data: seq<byte>, pos: nat, end: nat)
    requires pos <= end <= |data|
    ensures DigitsAt(data, pos, end) == Varint.Digits(data[pos..end])
    decreases end - pos
  {
    if pos < end {
      WindowDigits(data, pos + 1, end);
      assert data[pos..end][1..] == data[pos + 1..end];
    }
  }

  /** Reading inside a span is reading the span. */
  lemma ReadAtIsDecode(w: nat, data: seq<byte>, pos: nat, end: nat)
    requires pos <= end <= |data|
    ensures var d := Varint.Decode(w, data[pos..end]);
            ReadAt(w, data, pos, end) == if d.Ok? then Ok(d.value, pos + d.used) else d
  {
    WindowStop(data, pos, end);
    var k := StopAt(data, pos, end);
    if k < end {
      WindowDigits(data, pos, k + 1);
      assert data[pos..end][..k + 1 - pos] == data[pos..k + 1];
    }
  }

  /** skip_field: past one field the message has no member for. */
  function Skip(wire: nat, data: seq<byte>, pos: nat, end: nat): (r: Read<nat>)
    requires pos <= end <= |data|
    ensures r.Ok? ==> pos <= r.used <= end
  {
    if wire == 0 then ReadAt(Varint.SIZE_BITS, data, pos, end)
    else if wire == 1 then SkipBytes(8, pos, end)
    else if wire == 5 then SkipBytes(4, pos, end)
    else if wire == 2 then
      var n := ReadAt(Varint.SIZE_BITS, data, pos, end);
      if n.Fail? then n else SkipBytes(n.value, n.used, end)
    else Fail(ProtocolError)
  }

  function SkipBytes(count: nat, pos: nat, end: nat): Read<nat>
    requires pos <= end
  {
    if count > end - pos then Fail(OutOfRange) else Ok(0, pos + count)
  }

  /** deserialize_field<Index>: the first member from index i on with this number, or |fields|. */
  function IndexFrom(fields: seq<Field>, number: nat, i: nat): (r: nat)
    requires i <= |fields|
    ensures i <= r <= |fields|
    decreases |fields| - i
  {
    if i == |fields| || fields[i].number == number then i else IndexFrom(fields, number, i + 1)
  }

  function Empty(k: Kind): Slot {
    match k
    case Bytes => BytesV([])
    case Packed(_) => IntsV(Nil)
    case Subs(_) => SubsV(Nil)
    case _ => Unset
  }

  predicate Container(k: Kind) { k.Bytes? || k.Packed? || k.Subs? }

  /** deserialize_fields empties every container member before it reads. */
  function Cleared(fields: seq<Field>, slots: seq<Slot>): (r: seq<Slot>)
    requires |slots| == |fields|
    ensures |r| == |fields|
  {
    seq(|fields|, i requires 0 <= i < |fields| => if Container(fields[i].kind) then Empty(fields[i].kind) else slots[i])
  }

  function Fresh(n: nat): seq<Slot> { seq(n, _ => Unset) }

  function OldBytes(s: Slot): seq<byte> { if s.BytesV? then s.bytes else [] }
  function OldInts(s: Slot): List<int> { if s.IntsV? then s.ns else Nil }
  function OldElements(s: Slot): List<Slot> { if s.SubsV? then s.elements else Nil }
  function OldSlots(s: Slot, n: nat): (r: seq<Slot>)
    ensures |r| == n
  {
    if s.SubV? && |s.slots| == n then s.slots else Fresh(n)
  }

  /** A whole message read into one that held slots. */
  function Decode(env: Env, fields: seq<Field>, data: seq<byte>, slots: seq<Slot>, lim: Limits, d: nat): Read<seq<Slot>>
    requires |slots| == |fields|
  {
    DecodeFields(env, fields, data, 0, 0, |data|, Cleared(fields, slots), lim, d)
  }

  /** deserialize_fields: tags and members until the span is used up. */
  function DecodeFields(env: Env, fields: seq<Field>, data: seq<byte>, base: nat, pos: nat, end: nat, slots: seq<Slot>,
                        lim: Limits, d: nat): (r: Read<seq<Slot>>)
    requires base <= pos <= end <= |data| && |slots| == |fields|
    ensures r.Ok? ==> r.used == end && |r.value| == |fields|
    decreases end - pos, 2
  {
    if pos == end then Ok(slots, end) else
    var tag := ReadAt(TAG_BITS, data, pos, end);
    if tag.Fail? then Fail(tag.error)
    else DecodeOccurrence(env, fields, tag.value / 8, tag.value % 8, data, base, tag.used, end, slots, lim, d)
  }

  /** The field after its tag, and the rest of the span. */
  function DecodeOccurrence(env: Env, fields: seq<Field>, number: nat, wire: nat, data: seq<byte>, base: nat,
                            pos: nat, end: nat, slots: seq<Slot>, lim: Limits, d: nat): (r: Read<seq<Slot>>)
    requires base <= pos <= end <= |data| && |slots| == |fields|
    ensures r.Ok? ==> r.used == end && |r.value| == |fields|
    decreases end - pos, 3
  {
    var i := IndexFrom(fields, number, 0);
    if i == |fields| then
      if number == 0 then Fail(ProtocolError) else
      var skipped := Skip(wire, data, pos, end);
      if skipped.Fail? then Fail(skipped.error)
      else DecodeFields(env, fields, data, base, skipped.used, end, slots, lim, d)
    else
      var r := DecodeMember(env, fields[i].kind, wire, slots[i], data, base, pos, end, lim, d);
      if r.Fail? then Fail(r.error)
      else DecodeFields(env, fields, data, base, r.used, end, slots[i := r.value], lim, d)
  }

  /** deserialize_field: one occurrence of a member, given what the member held before. */
  function DecodeMember(env: Env, k: Kind, wire: nat, prior: Slot, data: seq<byte>, base: nat, pos: nat, end: nat,
                        lim: Limits, d: nat): (r: Read<Slot>)
    requires base <= pos <= end <= |data|
    ensures r.Ok? ==> pos <= r.used <= end
    decreases end - pos, 1
  {
    match k
    case Int(i) =>
      var v := ReadAt(i.width, data, pos, end);
      if v.Fail? then Fail(v.error) else Ok(IntV(Varint.Unraw(i, v.value)), v.used)
    case Fixed(w) => if end - pos < w then Fail(OutOfRange) else Ok(FixedV(GetLE(data, pos, w)), pos + w)
    case Bytes => DecodeBytes(wire, prior, data, pos, end, lim)
    case Packed(i) => DecodeInts(i, wire, prior, data, base, pos, end, lim)
    case Sub(name) =>
      var r := DecodeSub(env, name, OldSlots(prior, |Members(env, name)|), data, pos, end, lim, d);
      if r.Fail? then Fail(r.error) else Ok(SubV(r.value), r.used)
    case Subs(name) =>
      var r := DecodeSub(env, name, Fresh(|Members(env, name)|), data, pos, end, lim, d);
      if r.Fail? then Fail(r.error) else Ok(SubsV(Snoc(OldElements(prior), SubV(r.value))), r.used)
  }

  function DecodeBytes(wire: nat, prior: Slot, data: seq<byte>, pos: nat, end: nat, lim: Limits): (r: Read<Slot>)
    requires pos <= end <= |data|
    ensures r.Ok? ==> pos <= r.used <= end
  {
    if wire != 2 then
      if pos == end then Fail(OutOfRange) else Ok(BytesV(OldBytes(prior) + [data[pos]]), pos + 1)
    else
      var n := ReadAt(Varint.SIZE_BITS, data, pos, end);
      if n.Fail? then Fail(n.error)
      else if n.value > lim.alloc then Fail(MessageSize)
      else if n.value > end - n.used then Fail(OutOfRange)
      else Ok(BytesV(data[n.used..n.used + n.value]), n.used + n.value)
  }

  function DecodeInts(k: Varint.IntKind, wire: nat, prior: Slot, data: seq<byte>, base: nat, pos: nat, end: nat,
                      lim: Limits): (r: Read<Slot>)
    requires base <= pos <= end <= |data|
    ensures r.Ok? ==> pos <= r.used <= end
  {
    if wire != 2 then
      var v := ReadAt(k.width, data, pos, end);
      if v.Fail? then Fail(v.error) else Ok(IntsV(Snoc(OldInts(prior), Varint.Unraw(k, v.value))), v.used)
    else
      var n := ReadAt(Varint.SIZE_BITS, data, pos, end);
      if n.Fail? then Fail(n.error)
      else if n.value > lim.alloc then Fail(MessageSize)
      else DecodePacked(k, data, n.used, PackedEnd(base, n.used, n.value), end, OldInts(prior))
  }

  /** end_position: the end of a packed field, computed in std::size_t relative to the span of its message. */
  function PackedEnd(base: nat, pos: nat, length: nat): nat
    requires base <= pos
  {
    base + Low(Varint.SIZE_BITS, length + (pos - base))
  }

  /** A nested message read over slots; its span is cut off where the enclosing one ends. */
  function DecodeSub(env: Env, name: string, slots: seq<Slot>, data: seq<byte>, pos: nat, end: nat,
                     lim: Limits, d: nat): (r: Read<seq<Slot>>)
    requires |slots| == |Members(env, name)| && pos <= end <= |data|
    ensures r.Ok? ==> pos <= r.used <= end
    decreases end - pos, 0
  {
    if d >= lim.nesting then Fail(TooLarge) else
    var n := ReadAt(Varint.SIZE_BITS, data, pos, end);
    if n.Fail? then Fail(n.error) else
    var stop := if n.value < end - n.used then n.used + n.value else end;
    DecodeFields(env, Members(env, name), data, n.used, n.used, stop, Cleared(Members(env, name), slots), lim, d + 1)
  }

  /** The element loop of a packed container: varints until the announced end. */
  function DecodePacked(k: Varint.IntKind, data: seq<byte>, pos: nat, stop: nat, end: nat,
                        ns: List<int>): (r: Read<Slot>)
    requires pos <= end <= |data|
    ensures r.Ok? ==> pos <= r.used <= end
    decreases end - pos
  {
    if pos >= stop then Ok(IntsV(ns), pos) else
    var v := ReadAt(k.width, data, pos, end);
    if v.Fail? then Fail(v.error)
    else DecodePacked(k, data, v.used, stop, end, Snoc(ns, Varint.Unraw(k, v.value)))
  }

  // ----- Announced lengths that do not fit -----

  /** Elements are read until the announced end; one behind the span is never reached. */
  lemma {:induction false} PackedOverrun(k: Varint.IntKind, data: seq<byte>, pos: nat, stop: nat, end: nat,
                                         ns: List<int>)
    requires pos <= end <= |data| && end < stop
    ensures DecodePacked(k, data, pos, stop, end, ns).Fail?
    decreases end - pos
  {
    var v := ReadAt(k.width, data, pos, end);
    if v.Ok? { PackedOverrun(k, data, v.used, stop, end, Snoc(ns, Varint.Unraw(k, v.value))); }
  }

  lemma PackedEndExact(base: nat, pos: nat, length: nat)
    requires base <= pos && pos - base + length < Pow2(Varint.SIZE_BITS)
    ensures PackedEnd(base, pos, length) == pos + length
  {
    LowSmall(Varint.SIZE_BITS, length + (pos - base));
  }

  lemma PackedEndWraps(base: nat, pos: nat, length: nat)
    requires base <= pos && pos - base < Pow2(Varint.SIZE_BITS) && length < Pow2(Varint.SIZE_BITS)
    requires pos - base + length >= Pow2(Varint.SIZE_BITS)
    ensures PackedEnd(base, pos, length) < pos
  {
    var wrapped := length + (pos - base) - Pow2(Varint.SIZE_BITS);
    LowWrap(Varint.SIZE_BITS, wrapped);
    LowSmall(Varint.SIZE_BITS, wrapped);
  }

  /** A packed field behind its length. */
  lemma PackedFrom(k: Varint.IntKind, length: nat, prior: Slot, data: seq<byte>, base: nat, pos: nat, at: nat,
                   stop: nat, end: nat, lim: Limits)
    requires base <= pos <= end <= |data| && ReadAt(Varint.SIZE_BITS, data, pos, end) == Ok(length, at)
    requires length <= lim.alloc && stop == PackedEnd(base, at, length)
    ensures DecodeInts(k, 2, prior, data, base, pos, end, lim) == DecodePacked(k, data, at, stop, end, OldInts(prior))
  {
  }

  /** A position in a span that is shorter than the address space. */
  predicate InSpan(base: nat, pos: nat, end: nat) { base <= pos && end - base < Pow2(Varint.SIZE_BITS) }

  /**
   * A packed field that announces more than its span holds is rejected, unless the sum of position and length
   * overflows std::size_t: then it is accepted, as one without elements, and its payload is read as fields.
   */
  lemma PackedTooLong(k: Varint.IntKind, length: nat, prior: Slot, data: seq<byte>, base: nat, pos: nat, at: nat,
                      end: nat, lim: Limits)
    requires InSpan(base, pos, end) && pos <= end <= |data|
    requires ReadAt(Varint.SIZE_BITS, data, pos, end) == Ok(length, at) && length > end - at
    ensures var r := DecodeInts(k, 2, prior, data, base, pos, end, lim);
            if length <= lim.alloc && at - base + length >= Pow2(Varint.SIZE_BITS)
            then r == Ok(IntsV(OldInts(prior)), at)
            else r.Fail?
  {
    if length <= lim.alloc {
      var stop := PackedEnd(base, at, length);
      PackedFrom(k, length, prior, data, base, pos, at, stop, end, lim);
      if at - base + length >= Pow2(Varint.SIZE_BITS) {
        PackedEndWraps(base, at, length);
      } else {
        PackedEndExact(base, at, length);
        PackedOverrun(k, data, at, stop, end, OldInts(prior));
      }
    }
  }

  // ----- Documents -----

  /** A varint as it stands in the bytes, minimal or padded, and the value it stands for. */
  datatype Num = Num(value: nat, bytes: seq<byte>)

  predicate Spelled(w: nat, n: Num) { Varint.Decode(w, n.bytes) == Ok(n.value, |n.bytes|) }

  /** n announces a length. */
  predicate Announces(n: Num, length: nat) { n.value == length && Spelled(Varint.SIZE_BITS, n) }

  /** What follows the tag of a field the message does not declare. */
  datatype Payload =
    | XVarint(num: Num)
    | XFixed64(bytes: seq<byte>)
    | XFixed32(bytes: seq<byte>)
    | XBytes(length: Num, bytes: seq<byte>)

  /** One field occurrence, as it stands in the bytes; i is the member it belongs to. */
  datatype Entry =
    | Extra(tag: Num, payload: Payload)
    | IntE(i: nat, tag: Num, num: Num)
    | FixedE(i: nat, tag: Num, bytes: seq<byte>)
    | BytesE(i: nat, tag: Num, length: Num, bytes: seq<byte>)
    | IntsE(i: nat, tag: Num, length: Num, nums: List<Num>)
    | SubE(i: nat, tag: Num, length: Num, body: List<Entry>)

  function PayloadWire(p: Payload): nat {
    match p
    case XVarint(_) => 0
    case XFixed64(_) => 1
    case XFixed32(_) => 5
    case XBytes(_, _) => 2
  }

  predicate PayloadOk(p: Payload) {
    match p
    case XVarint(n) => Spelled(Varint.SIZE_BITS, n)
    case XFixed64(b) => |b| == 8
    case XFixed32(b) => |b| == 4
    case XBytes(length, b) => Announces(length, |b|)
  }

  function PayloadBytes(p: Payload): seq<byte> {
    match p
    case XVarint(n) => n.bytes
    case XFixed64(b) => b
    case XFixed32(b) => b
    case XBytes(length, b) => length.bytes + b
  }

  function Flat(nums: List<Num>): seq<byte> { if nums.Nil? then [] else nums.head.bytes + Flat(nums.tail) }

  /** What follows the tag. */
  function Content(e: Entry): seq<byte>
    decreases e, 0
  {
    match e
    case Extra(_, p) => PayloadBytes(p)
    case IntE(_, _, n) => n.bytes
    case FixedE(_, _, b) => b
    case BytesE(_, _, length, b) => length.bytes + b
    case IntsE(_, _, length, nums) => length.bytes + Flat(nums)
    case SubE(_, _, length, body) => length.bytes + DocumentBytes(body)
  }

  function EntryBytes(e: Entry): seq<byte>
    decreases e, 1
  {
    e.tag.bytes + Content(e)
  }

  function DocumentBytes(es: List<Entry>): seq<byte>
    decreases es
  {
    if es.Nil? then [] else EntryBytes(es.head) + DocumentBytes(es.tail)
  }

  predicate Declared(fields: seq<Field>, number: nat) { IndexFrom(fields, number, 0) < |fields| }

  /** The wire type decides how bytes and packed members are read; elsewhere it is not looked at. */
  predicate WireFits(k: Kind, wire: nat) { k.Bytes? || k.Packed? ==> wire == 2 }

  predicate TagFits(fields: seq<Field>, i: nat, tag: Num)
    requires i < |fields|
  {
    Spelled(TAG_BITS, tag) && IndexFrom(fields, tag.value / 8, 0) == i && WireFits(fields[i].kind, tag.value % 8)
  }

  predicate ExtraFits(fields: seq<Field>, tag: Num, p: Payload) {
    && Spelled(TAG_BITS, tag) && PayloadOk(p) && tag.value % 8 == PayloadWire(p)
    && tag.value / 8 > 0 && !Declared(fields, tag.value / 8)
  }

  predicate AllSpelled(w: nat, nums: List<Num>) {
    nums.Cons? ==> Spelled(w, nums.head) && AllSpelled(w, nums.tail)
  }

  /** The entry is a field this message could contain: undeclared, or declared and of its kind. */
  predicate Shaped(env: Env, fields: seq<Field>, e: Entry)
    decreases e
  {
    if e.Extra? then ExtraFits(fields, e.tag, e.payload)
    else e.i < |fields| && TagFits(fields, e.i, e.tag) && OfKind(env, fields[e.i].kind, e)
  }

  predicate OfKind(env: Env, k: Kind, e: Entry)
    requires !e.Extra?
    decreases e, 0
  {
    match e
    case IntE(_, _, n) => k.Int? && Spelled(k.kind.width, n)
    case FixedE(_, _, b) => k.Fixed? && |b| == k.width
    case BytesE(_, _, _, _) => k.Bytes?
    case IntsE(_, _, _, nums) => k.Packed? && AllSpelled(k.kind.width, nums)
    case SubE(_, _, _, body) => (k.Sub? || k.Subs?) && ShapedAll(env, Members(env, k.name), body)
  }

  predicate ShapedAll(env: Env, fields: seq<Field>, es: List<Entry>)
    decreases es
  {
    es.Cons? ==> Shaped(env, fields, es.head) && ShapedAll(env, fields, es.tail)
  }

  /** Every announced length is that of what follows it. */
  predicate Framed(e: Entry)
    decreases e
  {
    match e
    case BytesE(_, _, length, b) => Announces(length, |b|)
    case IntsE(_, _, length, nums) => Announces(length, |Flat(nums)|)
    case SubE(_, _, length, body) => Announces(length, |DocumentBytes(body)|) && FramedAll(body)
    case _ => true
  }

  predicate FramedAll(es: List<Entry>)
    decreases es
  {
    es.Cons? ==> Framed(es.head) && FramedAll(es.tail)
  }

  /** Containers within the allocation limit, messages within the nesting limit when d are open. */
  predicate Within(e: Entry, lim: Limits, d: nat)
    decreases e
  {
    match e
    case BytesE(_, _, _, b) => |b| <= lim.alloc
    case IntsE(_, _, _, nums) => |Flat(nums)| <= lim.alloc
    case SubE(_, _, _, body) => d < lim.nesting && WithinAll(body, lim, d + 1)
    case _ => true
  }

  predicate WithinAll(es: List<Entry>, lim: Limits, d: nat)
    decreases es
  {
    es.Cons? ==> Within(es.head, lim, d) && WithinAll(es.tail, lim, d)
  }

  // ----- What a document means -----

  function Numbers(k: Varint.IntKind, nums: List<Num>): List<int>
  {
    if nums.Nil? then Nil else Cons(Varint.Unraw(k, nums.head.value), Numbers(k, nums.tail))
  }

  /** What a member of kind k holds after the entry, given what it held before. */
  function Meaning(env: Env, k: Kind, prior: Slot, e: Entry): Slot
    requires !e.Extra? && OfKind(env, k, e)
    decreases e, 0
  {
    match e
    case IntE(_, _, n) => IntV(Varint.Unraw(k.kind, n.value))
    case FixedE(_, _, b) => FixedV(GetLE(b, 0, |b|))
    case BytesE(_, _, _, b) => BytesV(b)
    case IntsE(_, _, _, nums) => IntsV(Concat(OldInts(prior), Numbers(k.kind, nums)))
    case SubE(_, _, _, body) =>
      var sub := Members(env, k.name);
      if k.Sub? then SubV(Apply(env, sub, Cleared(sub, OldSlots(prior, |sub|)), body))
      else SubsV(Snoc(OldElements(prior), SubV(Apply(env, sub, Cleared(sub, Fresh(|sub|)), body))))
  }

  /** The members after one entry; an undeclared field changes none. */
  function After(env: Env, fields: seq<Field>, slots: seq<Slot>, e: Entry): (r: seq<Slot>)
    requires Shaped(env, fields, e) && |slots| == |fields|
    ensures |r| == |fields|
    decreases e, 1
  {
    if e.Extra? then slots else slots[e.i := Meaning(env, fields[e.i].kind, slots[e.i], e)]
  }

  /** Entries take effect in order. */
  function Apply(env: Env, fields: seq<Field>, slots: seq<Slot>, es: List<Entry>): (r: seq<Slot>)
    requires ShapedAll(env, fields, es) && |slots| == |fields|
    ensures |r| == |fields|
    decreases es, 1
  {
    if es.Nil? then slots else Apply(env, fields, After(env, fields, slots, es.head), es.tail)
  }

  // ----- Reading the pieces -----

  /** A varint standing at pos, minimal or not, is read whole. */
  lemma NumAt(w: nat, n: Num, data: seq<byte>, pos: nat, end: nat)
    requires Spelled(w, n) && At(data, pos, n.bytes) && pos + |n.bytes| <= end <= |data|
    ensures ReadAt(w, data, pos, end) == Ok(n.value, pos + |n.bytes|)
  {
    ReadAtIsDecode(w, data, pos, end);
    var rest := data[pos + |n.bytes|..end];
    Varint.DecodersAgree(w, n.bytes, rest);
    assert data[pos..end] == n.bytes + rest;
  }

  lemma {:induction false} LEAt(data: seq<byte>, pos: nat, bytes: seq<byte>, from: nat)
    requires At(data, pos, bytes) && from <= |bytes|
    ensures GetLE(data, pos + from, |bytes| - from) == GetLE(bytes, from, |bytes| - from)
    decreases |bytes| - from
  {
    if from < |bytes| { LEAt(data, pos, bytes, from + 1); }
  }

  lemma TagRead(env: Env, fields: seq<Field>, tag: Num, data: seq<byte>, base: nat, pos: nat, next: nat, end: nat,
                slots: seq<Slot>, lim: Limits, d: nat)
    requires base <= pos
    requires |slots| == |fields| && Spelled(TAG_BITS, tag)
    requires At(data, pos, tag.bytes) && next == pos + |tag.bytes| <= end <= |data|
    ensures DecodeFields(env, fields, data, base, pos, end, slots, lim, d)
            == DecodeOccurrence(env, fields, tag.value / 8, tag.value % 8, data, base, next, end, slots, lim, d)
  {
    NumAt(TAG_BITS, tag, data, pos, end);
  }

  /** skip_field passes over exactly the payload of an undeclared field. */
  lemma ExtraSkipped(p: Payload, data: seq<byte>, pos: nat, next: nat, end: nat)
    requires PayloadOk(p) && At(data, pos, PayloadBytes(p)) && next == pos + |PayloadBytes(p)| <= end <= |data|
    ensures var r := Skip(PayloadWire(p), data, pos, end); r.Ok? && r.used == next
  {
    match p
    case XVarint(n) => NumAt(Varint.SIZE_BITS, n, data, pos, end);
    case XBytes(length, b) =>
      AtSplit(data, pos, length.bytes, b);
      NumAt(Varint.SIZE_BITS, length, data, pos, end);
    case _ =>
  }

  lemma {:induction false} PackedRead(k: Varint.IntKind, nums: List<Num>, data: seq<byte>, pos: nat, stop: nat,
                                      end: nat, prior: List<int>)
    requires AllSpelled(k.width, nums) && At(data, pos, Flat(nums)) && stop == pos + |Flat(nums)| <= end <= |data|
    ensures DecodePacked(k, data, pos, stop, end, prior) == Ok(IntsV(Concat(prior, Numbers(k, nums))), stop)
    decreases nums
  {
    if nums.Cons? {
      AtSplit(data, pos, nums.head.bytes, Flat(nums.tail));
      NumAt(k.width, nums.head, data, pos, end);
      var n := Varint.Unraw(k, nums.head.value);
      PackedRead(k, nums.tail, data, pos + |nums.head.bytes|, stop, end, Snoc(prior, n));
      ConcatSnoc(prior, n, Numbers(k, nums.tail));
    } else {
      ConcatNil(prior);
    }
  }

  // ----- Reading a document -----

  /** The content of a declared entry, as the member's reader sees it. */
  lemma {:induction false} MemberRead(env: Env, k: Kind, wire: nat, e: Entry, prior: Slot, data: seq<byte>, base: nat,
                                      pos: nat, next: nat, end: nat, lim: Limits, d: nat)
    requires InSpan(base, pos, end)
    requires !e.Extra? && OfKind(env, k, e) && WireFits(k, wire)
    requires Framed(e) && Within(e, lim, d) && At(data, pos, Content(e)) && next == pos + |Content(e)| <= end <= |data|
    ensures DecodeMember(env, k, wire, prior, data, base, pos, end, lim, d) == Ok(Meaning(env, k, prior, e), next)
    decreases e, 0
  {
    if e.SubE? {
      var slots := if k.Sub? then OldSlots(prior, |Members(env, k.name)|) else Fresh(|Members(env, k.name)|);
      AtSplit(data, pos, e.length.bytes, DocumentBytes(e.body));
      SubRead(env, k.name, e.length, e.body, slots, data, pos, next, end, lim, d);
    } else {
      PlainRead(env, k, wire, e, prior, data, base, pos, next, end, lim, d);
    }
  }

  lemma PlainRead(env: Env, k: Kind, wire: nat, e: Entry, prior: Slot, data: seq<byte>, base: nat, pos: nat,
                  next: nat, end: nat, lim: Limits, d: nat)
    requires InSpan(base, pos, end)
    requires !e.Extra? && !e.SubE? && OfKind(env, k, e) && WireFits(k, wire)
    requires Framed(e) && Within(e, lim, d) && At(data, pos, Content(e)) && next == pos + |Content(e)| <= end <= |data|
    ensures DecodeMember(env, k, wire, prior, data, base, pos, end, lim, d) == Ok(Meaning(env, k, prior, e), next)
  {
    match e
    case IntE(_, _, n) => NumAt(k.kind.width, n, data, pos, end);
    case FixedE(_, _, b) => LEAt(data, pos, b, 0);
    case BytesE(_, _, length, b) => BytesRead(length, b, prior, data, pos, next, end, lim);
    case IntsE(_, _, length, nums) => IntsRead(k.kind, length, nums, prior, data, base, pos, next, end, lim);
  }

  lemma BytesRead(length: Num, b: seq<byte>, prior: Slot, data: seq<byte>, pos: nat, next: nat, end: nat, lim: Limits)
    requires Announces(length, |b|) && |b| <= lim.alloc
    requires At(data, pos, length.bytes + b) && next == pos + |length.bytes + b| <= end <= |data|
    ensures DecodeBytes(2, prior, data, pos, end, lim) == Ok(BytesV(b), next)
  {
    AtSplit(data, pos, length.bytes, b);
    NumAt(Varint.SIZE_BITS, length, data, pos, end);
    assert data[pos + |length.bytes|..next] == b;
  }

  lemma IntsRead(k: Varint.IntKind, length: Num, nums: List<Num>, prior: Slot, data: seq<byte>, base: nat, pos: nat,
                 next: nat, end: nat, lim: Limits)
    requires InSpan(base, pos, end)
    requires AllSpelled(k.width, nums) && Announces(length, |Flat(nums)|) && |Flat(nums)| <= lim.alloc
    requires At(data, pos, length.bytes + Flat(nums)) && next == pos + |length.bytes + Flat(nums)| <= end <= |data|
    ensures DecodeInts(k, 2, prior, data, base, pos, end, lim)
            == Ok(IntsV(Concat(OldInts(prior), Numbers(k, nums))), next)
  {
    AtSplit(data, pos, length.bytes, Flat(nums));
    NumAt(Varint.SIZE_BITS, length, data, pos, end);
    var at := pos + |length.bytes|;
    PackedEndExact(base, at, length.value);
    PackedFrom(k, length.value, prior, data, base, pos, at, next, end, lim);
    PackedRead(k, nums, data, at, next, end, OldInts(prior));
  }

  /** A nested message is read over the span its length announces, or what is left of it. */
  lemma SubSpan(env: Env, name: string, length: nat, slots: seq<Slot>, data: seq<byte>, pos: nat, at: nat, stop: nat,
                end: nat, lim: Limits, d: nat)
    requires |slots| == |Members(env, name)| && pos <= end <= |data| && d < lim.nesting
    requires ReadAt(Varint.SIZE_BITS, data, pos, end) == Ok(length, at)
             && stop == if length < end - at then at + length else end
    ensures DecodeSub(env, name, slots, data, pos, end, lim, d)
            == DecodeFields(env, Members(env, name), data, at, at, stop, Cleared(Members(env, name), slots), lim, d + 1)
  {
  }

  lemma {:induction false} SubRead(env: Env, name: string, length: Num, body: List<Entry>, slots: seq<Slot>,
                                   data: seq<byte>, pos: nat, next: nat, end: nat, lim: Limits, d: nat)
    requires |slots| == |Members(env, name)| && d < lim.nesting
    requires ShapedAll(env, Members(env, name), body) && FramedAll(body) && WithinAll(body, lim, d + 1)
    requires Announces(length, |DocumentBytes(body)|) && At(data, pos, length.bytes)
    requires At(data, pos + |length.bytes|, DocumentBytes(body))
    requires next == pos + |length.bytes| + |DocumentBytes(body)| <= end <= |data|
    ensures var sub := Members(env, name);
            DecodeSub(env, name, slots, data, pos, end, lim, d) == Ok(Apply(env, sub, Cleared(sub, slots), body), next)
    decreases body, 3
  {
    var sub := Members(env, name);
    NumAt(Varint.SIZE_BITS, length, data, pos, end);
    var at := pos + |length.bytes|;
    SubSpan(env, name, length.value, slots, data, pos, at, next, end, lim, d);
    DocumentRead(env, sub, body, data, at, at, next, Cleared(sub, slots), lim, d + 1);
  }

  /** The payload of an undeclared field is passed over. */
  lemma UndeclaredRead(env: Env, fields: seq<Field>, number: nat, p: Payload, data: seq<byte>, base: nat, pos: nat,
                       next: nat, end: nat, slots: seq<Slot>, lim: Limits, d: nat)
    requires base <= pos
    requires |slots| == |fields| && number > 0 && !Declared(fields, number) && PayloadOk(p)
    requires At(data, pos, PayloadBytes(p)) && next == pos + |PayloadBytes(p)| <= end <= |data|
    ensures DecodeOccurrence(env, fields, number, PayloadWire(p), data, base, pos, end, slots, lim, d)
            == DecodeFields(env, fields, data, base, next, end, slots, lim, d)
  {
    ExtraSkipped(p, data, pos, next, end);
  }

  /** The number of a declared field leads to its member. */
  lemma DeclaredRead(env: Env, fields: seq<Field>, number: nat, wire: nat, data: seq<byte>, base: nat, pos: nat,
                     end: nat, slots: seq<Slot>, lim: Limits, d: nat)
    requires base <= pos
    requires |slots| == |fields| && Declared(fields, number) && pos <= end <= |data|
    ensures var i := IndexFrom(fields, number, 0);
            var r := DecodeMember(env, fields[i].kind, wire, slots[i], data, base, pos, end, lim, d);
            DecodeOccurrence(env, fields, number, wire, data, base, pos, end, slots, lim, d)
            == if r.Fail? then Fail(r.error)
               else DecodeFields(env, fields, data, base, r.used, end, slots[i := r.value], lim, d)
  {
  }

  lemma {:induction false} OccurrenceRead(env: Env, fields: seq<Field>, e: Entry, data: seq<byte>, base: nat,
                                          pos: nat, next: nat, end: nat, slots: seq<Slot>, lim: Limits, d: nat)
    requires InSpan(base, pos, end)
    requires |slots| == |fields| && Shaped(env, fields, e) && Framed(e) && Within(e, lim, d)
    requires At(data, pos, Content(e)) && next == pos + |Content(e)| <= end <= |data|
    ensures DecodeOccurrence(env, fields, e.tag.value / 8, e.tag.value % 8, data, base, pos, end, slots, lim, d)
            == DecodeFields(env, fields, data, base, next, end, After(env, fields, slots, e), lim, d)
    decreases e, 1
  {
    var number, wire := e.tag.value / 8, e.tag.value % 8;
    if e.Extra? {
      UndeclaredRead(env, fields, number, e.payload, data, base, pos, next, end, slots, lim, d);
    } else {
      MemberRead(env, fields[e.i].kind, wire, e, slots[e.i], data, base, pos, next, end, lim, d);
      DeclaredRead(env, fields, number, wire, data, base, pos, end, slots, lim, d);
    }
  }

  /** The field loop passes one entry, sets what the entry means and goes on. */
  lemma {:induction false} EntryRead(env: Env, fields: seq<Field>, e: Entry, data: seq<byte>, base: nat, pos: nat,
                                     next: nat, end: nat, slots: seq<Slot>, lim: Limits, d: nat)
    requires InSpan(base, pos, end)
    requires |slots| == |fields| && Shaped(env, fields, e) && Framed(e) && Within(e, lim, d)
    requires At(data, pos, EntryBytes(e)) && next == pos + |EntryBytes(e)| <= end <= |data|
    ensures DecodeFields(env, fields, data, base, pos, end, slots, lim, d)
            == DecodeFields(env, fields, data, base, next, end, After(env, fields, slots, e), lim, d)
    decreases e, 2
  {
    var at := pos + |e.tag.bytes|;
    AtSplit(data, pos, e.tag.bytes, Content(e));
    TagRead(env, fields, e.tag, data, base, pos, at, end, slots, lim, d);
    OccurrenceRead(env, fields, e, data, base, at, next, end, slots, lim, d);
  }

  /** Every document decodes to what its entries mean, whatever stands around it. */
  lemma {:induction false} DocumentRead(env: Env, fields: seq<Field>, es: List<Entry>, data: seq<byte>, base: nat,
                                        pos: nat, end: nat, slots: seq<Slot>, lim: Limits, d: nat)
    requires InSpan(base, pos, end)
    requires |slots| == |fields|
    requires ShapedAll(env, fields, es) && FramedAll(es) && WithinAll(es, lim, d)
    requires At(data, pos, DocumentBytes(es)) && end == pos + |DocumentBytes(es)|
    ensures DecodeFields(env, fields, data, base, pos, end, slots, lim, d) == Ok(Apply(env, fields, slots, es), end)
    decreases es, 2
  {
    PrefixRead(env, fields, es, data, base, pos, end, slots, lim, d);
    CutWhole(env, fields, es);
  }

  // ----- Limits -----

  /** A document beyond the limits is rejected. */
  lemma {:induction false} DocumentRejected(env: Env, fields: seq<Field>, es: List<Entry>, data: seq<byte>, base: nat,
                                            pos: nat, end: nat, slots: seq<Slot>, lim: Limits, d: nat)
    requires InSpan(base, pos, end)
    requires |slots| == |fields|
    requires ShapedAll(env, fields, es) && FramedAll(es) && !WithinAll(es, lim, d)
    requires At(data, pos, DocumentBytes(es)) && end == pos + |DocumentBytes(es)|
    ensures DecodeFields(env, fields, data, base, pos, end, slots, lim, d).Fail?
    decreases es, 2
  {
    PrefixRead(env, fields, es, data, base, pos, end, slots, lim, d);
    CutWhole(env, fields, es);
  }

  lemma {:induction false} EntryRejected(env: Env, fields: seq<Field>, e: Entry, data: seq<byte>, base: nat, pos: nat,
                                         end: nat, slots: seq<Slot>, lim: Limits, d: nat)
    requires InSpan(base, pos, end)
    requires |slots| == |fields| && Shaped(env, fields, e) && Framed(e) && !Within(e, lim, d)
    requires At(data, pos, EntryBytes(e)) && pos + |EntryBytes(e)| <= end <= |data|
    ensures DecodeFields(env, fields, data, base, pos, end, slots, lim, d).Fail?
    decreases e, 1
  {
    AtSplit(data, pos, e.tag.bytes, Content(e));
    var number, wire, at := e.tag.value / 8, e.tag.value % 8, pos + |e.tag.bytes|;
    TagRead(env, fields, e.tag, data, base, pos, at, end, slots, lim, d);
    MemberRejected(env, fields[e.i].kind, wire, e, slots[e.i], data, base, at, end, lim, d);
    DeclaredRead(env, fields, number, wire, data, base, at, end, slots, lim, d);
  }

  lemma {:induction false} MemberRejected(env: Env, k: Kind, wire: nat, e: Entry, prior: Slot, data: seq<byte>,
                                          base: nat, pos: nat, end: nat, lim: Limits, d: nat)
    requires InSpan(base, pos, end)
    requires !e.Extra? && OfKind(env, k, e) && WireFits(k, wire)
    requires Framed(e) && !Within(e, lim, d) && At(data, pos, Content(e)) && pos + |Content(e)| <= end <= |data|
    ensures DecodeMember(env, k, wire, prior, data, base, pos, end, lim, d).Fail?
    decreases e, 0
  {
    match e
    case BytesE(_, _, length, b) =>
      AtSplit(data, pos, length.bytes, b);
      NumAt(Varint.SIZE_BITS, length, data, pos, end);
    case IntsE(_, _, length, nums) =>
      AtSplit(data, pos, length.bytes, Flat(nums));
      NumAt(Varint.SIZE_BITS, length, data, pos, end);
    case SubE(_, _, length, body) =>
      var slots := if k.Sub? then OldSlots(prior, |Members(env, k.name)|) else Fresh(|Members(env, k.name)|);
      AtSplit(data, pos, length.bytes, DocumentBytes(body));
      SubRejected(env, k.name, length, body, slots, data, pos, end, lim, d);
  }

  lemma {:induction false} SubRejected(env: Env, name: string, length: Num, body: List<Entry>, slots: seq<Slot>,
                                       data: seq<byte>, pos: nat, end: nat, lim: Limits, d: nat)
    requires |slots| == |Members(env, name)| && ShapedAll(env, Members(env, name), body) && FramedAll(body)
    requires !(d < lim.nesting && WithinAll(body, lim, d + 1))
    requires Announces(length, |DocumentBytes(body)|) && At(data, pos, length.bytes)
             && At(data, pos + |length.bytes|, DocumentBytes(body))
    requires pos + |length.bytes| + |DocumentBytes(body)| <= end <= |data|
    ensures DecodeSub(env, name, slots, data, pos, end, lim, d).Fail?
    decreases body, 3
  {
    if d < lim.nesting {
      var sub, at := Members(env, name), pos + |length.bytes|;
      var next := at + |DocumentBytes(body)|;
      NumAt(Varint.SIZE_BITS, length, data, pos, end);
      SubSpan(env, name, length.value, slots, data, pos, at, next, end, lim, d);
      DocumentRejected(env, sub, body, data, at, at, next, Cleared(sub, slots), lim, d + 1);
    }
  }

  // ----- Prefixes -----

  /** The span from pos to end holds the first bytes of bs. */
  ghost predicate Starts(data: seq<byte>, pos: nat, end: nat, bs: seq<byte>) {
    pos <= end <= |data| && end - pos <= |bs| && forall i :: 0 <= i < end - pos ==> data[pos + i] == bs[i]
  }

  /** The first n bytes of the document end after an entry, or inside the body of a nested message that
      in turn ends so. */
  predicate CutOk(es: List<Entry>, n: nat)
    decreases es
  {
    if n == 0 then true
    else if es.Nil? then false
    else if n >= |EntryBytes(es.head)| then CutOk(es.tail, n - |EntryBytes(es.head)|)
    else es.head.SubE? && n >= BodyStart(es.head) && CutOk(es.head.body, n - BodyStart(es.head))
  }

  function BodyStart(e: Entry): nat
    requires e.SubE?
  {
    |e.tag.bytes| + |e.length.bytes|
  }

  /** What is left of the document in its first n bytes. */
  function Cut(es: List<Entry>, n: nat): List<Entry>
    decreases es
  {
    if n == 0 || es.Nil? then Nil
    else if n >= |EntryBytes(es.head)| then Cons(es.head, Cut(es.tail, n - |EntryBytes(es.head)|))
    else if es.head.SubE? && n >= BodyStart(es.head) then
      Cons(es.head.(body := Cut(es.head.body, n - BodyStart(es.head))), Nil)
    else Nil
  }

  /** r is the reading of the first n bytes of the document: what is left of it, or a failure. */
  predicate ReadsLeft(env: Env, fields: seq<Field>, es: List<Entry>, n: nat, slots: seq<Slot>, lim: Limits, d: nat,
                      end: nat, r: Read<seq<Slot>>)
    requires |slots| == |fields|
  {
    if CutOk(es, n) && WithinAll(Cut(es, n), lim, d)
    then ShapedAll(env, fields, Cut(es, n)) && r == Ok(Apply(env, fields, slots, Cut(es, n)), end)
    else r.Fail?
  }

  /** The same for an entry of which n bytes of content are left: only a nested message can be read from them. */
  predicate EntryLeft(env: Env, fields: seq<Field>, e: Entry, n: nat, slots: seq<Slot>, lim: Limits, d: nat, end: nat,
                      r: Read<seq<Slot>>)
    requires |slots| == |fields|
  {
    if !e.SubE? || n < |e.length.bytes| || !CutOk(e.body, n - |e.length.bytes|) then r.Fail? else
    var left := e.(body := Cut(e.body, n - |e.length.bytes|));
    if Within(left, lim, d) then Shaped(env, fields, left) && r == Ok(After(env, fields, slots, left), end)
    else r.Fail?
  }

  lemma StartsSplit(data: seq<byte>, pos: nat, end: nat, a: seq<byte>, b: seq<byte>)
    requires Starts(data, pos, end, a + b)
    ensures if end - pos < |a| then Starts(data, pos, end, a) else At(data, pos, a) && Starts(data, pos + |a|, end, b)
  {
    forall i | 0 <= i < end - pos && i < |a| ensures data[pos + i] == a[i] { assert (a + b)[i] == a[i]; }
    if end - pos >= |a| {
      var at := pos + |a|;
      forall i | 0 <= i < end - at ensures data[at + i] == b[i] {
        assert data[pos + (|a| + i)] == (a + b)[|a| + i];
      }
    }
  }

  /** A varint that is cut short is not read. */
  lemma NumCut(w: nat, n: Num, data: seq<byte>, pos: nat, end: nat)
    requires Spelled(w, n) && Starts(data, pos, end, n.bytes) && end - pos < |n.bytes|
    ensures ReadAt(w, data, pos, end).Fail?
  {
    WindowStop(data, pos, end);
    forall i | 0 <= i < end - pos ensures data[pos..end][i] >= 128 { assert n.bytes[i] >= 128; }
  }

  lemma PayloadCut(p: Payload, data: seq<byte>, pos: nat, end: nat)
    requires PayloadOk(p) && Starts(data, pos, end, PayloadBytes(p)) && end - pos < |PayloadBytes(p)|
    ensures Skip(PayloadWire(p), data, pos, end).Fail?
  {
    match p
    case XVarint(n) => NumCut(Varint.SIZE_BITS, n, data, pos, end);
    case XBytes(length, b) => LengthCut(length, b, data, pos, end);
    case _ =>
  }

  /** Of a length and what it announces, either the length is cut or less follows than it says. */
  lemma LengthCut(length: Num, b: seq<byte>, data: seq<byte>, pos: nat, end: nat)
    requires Announces(length, |b|) && Starts(data, pos, end, length.bytes + b)
    ensures var n := ReadAt(Varint.SIZE_BITS, data, pos, end);
            if end - pos < |length.bytes| then n.Fail?
            else n == Ok(|b|, pos + |length.bytes|) && Starts(data, n.used, end, b)
  {
    StartsSplit(data, pos, end, length.bytes, b);
    if end - pos < |length.bytes| {
      NumCut(Varint.SIZE_BITS, length, data, pos, end);
    } else {
      NumAt(Varint.SIZE_BITS, length, data, pos, end);
    }
  }

  lemma {:induction false} PackedCut(k: Varint.IntKind, nums: List<Num>, data: seq<byte>, pos: nat, stop: nat, end: nat,
                                     prior: List<int>)
    requires AllSpelled(k.width, nums) && Starts(data, pos, end, Flat(nums)) && end < stop == pos + |Flat(nums)|
    ensures DecodePacked(k, data, pos, stop, end, prior).Fail?
    decreases nums
  {
    var n := nums.head;
    StartsSplit(data, pos, end, n.bytes, Flat(nums.tail));
    if end - pos < |n.bytes| {
      NumCut(k.width, n, data, pos, end);
    } else {
      NumAt(k.width, n, data, pos, end);
      PackedCut(k, nums.tail, data, pos + |n.bytes|, stop, end, Snoc(prior, Varint.Unraw(k, n.value)));
    }
  }

  /** A member that is no message is not read from less than its content. */
  lemma PlainCut(env: Env, k: Kind, wire: nat, e: Entry, prior: Slot, data: seq<byte>, base: nat, pos: nat, end: nat,
                 lim: Limits, d: nat)
    requires InSpan(base, pos, pos + |Content(e)|)
    requires !e.Extra? && !e.SubE? && OfKind(env, k, e) && WireFits(k, wire) && Framed(e)
    requires Starts(data, pos, end, Content(e)) && end - pos < |Content(e)|
    ensures DecodeMember(env, k, wire, prior, data, base, pos, end, lim, d).Fail?
  {
    match e
    case IntE(_, _, n) => NumCut(k.kind.width, n, data, pos, end);
    case FixedE(_, _, b) =>
    case BytesE(_, _, length, b) => LengthCut(length, b, data, pos, end);
    case IntsE(_, _, length, nums) => IntsCut(k.kind, length, nums, prior, data, base, pos, end, lim);
  }

  lemma IntsCut(k: Varint.IntKind, length: Num, nums: List<Num>, prior: Slot, data: seq<byte>, base: nat, pos: nat,
                end: nat, lim: Limits)
    requires InSpan(base, pos, pos + |length.bytes + Flat(nums)|)
    requires AllSpelled(k.width, nums) && Announces(length, |Flat(nums)|)
    requires Starts(data, pos, end, length.bytes + Flat(nums)) && end - pos < |length.bytes + Flat(nums)|
    ensures DecodeInts(k, 2, prior, data, base, pos, end, lim).Fail?
  {
    LengthCut(length, Flat(nums), data, pos, end);
    var at := pos + |length.bytes|;
    if end >= at && length.value <= lim.alloc {
      PackedEndExact(base, at, length.value);
      PackedFrom(k, length.value, prior, data, base, pos, at, at + length.value, end, lim);
      PackedCut(k, nums, data, at, at + length.value, end, OldInts(prior));
    }
  }

  /** The reader of a nested message takes the end of the enclosing span for the end of the message. */
  lemma {:induction false} SubCut(env: Env, name: string, length: Num, body: List<Entry>, slots: seq<Slot>,
                                  data: seq<byte>, pos: nat, end: nat, lim: Limits, d: nat)
    requires |slots| == |Members(env, name)| && ShapedAll(env, Members(env, name), body) && FramedAll(body)
    requires Announces(length, |DocumentBytes(body)|) && Starts(data, pos, end, length.bytes + DocumentBytes(body))
    requires end - pos < |length.bytes| + |DocumentBytes(body)|
    ensures var n, h, sub := end - pos, |length.bytes|, Members(env, name);
            var r := DecodeSub(env, name, slots, data, pos, end, lim, d);
            if n >= h && CutOk(body, n - h) && d < lim.nesting && WithinAll(Cut(body, n - h), lim, d + 1)
            then ShapedAll(env, sub, Cut(body, n - h))
                 && r == Ok(Apply(env, sub, Cleared(sub, slots), Cut(body, n - h)), end)
            else r.Fail?
    decreases body, 2
  {
    LengthCut(length, DocumentBytes(body), data, pos, end);
    var at := pos + |length.bytes|;
    if end >= at && d < lim.nesting {
      var sub := Members(env, name);
      SubSpan(env, name, length.value, slots, data, pos, at, end, end, lim, d);
      PrefixRead(env, sub, body, data, at, at, end, Cleared(sub, slots), lim, d + 1);
    }
  }

  /** An entry whose content is cut short is accepted only inside a nested message. */
  lemma {:induction false} OccurrenceCut(env: Env, fields: seq<Field>, e: Entry, data: seq<byte>, base: nat, pos: nat,
                                         end: nat, slots: seq<Slot>, lim: Limits, d: nat)
    requires InSpan(base, pos, pos + |Content(e)|)
    requires |slots| == |fields| && Shaped(env, fields, e) && Framed(e) && !e.SubE?
    requires Starts(data, pos, end, Content(e)) && end - pos < |Content(e)|
    ensures DecodeOccurrence(env, fields, e.tag.value / 8, e.tag.value % 8, data, base, pos, end, slots, lim, d).Fail?
  {
    var number, wire := e.tag.value / 8, e.tag.value % 8;
    if e.Extra? {
      PayloadCut(e.payload, data, pos, end);
    } else {
      PlainCut(env, fields[e.i].kind, wire, e, slots[e.i], data, base, pos, end, lim, d);
      DeclaredRead(env, fields, number, wire, data, base, pos, end, slots, lim, d);
    }
  }

  /** A nested message cut short, as the member's reader sees it. */
  lemma {:induction false} MemberCut(env: Env, k: Kind, wire: nat, e: Entry, prior: Slot, data: seq<byte>, base: nat,
                                     pos: nat, end: nat, lim: Limits, d: nat)
    requires base <= pos && e.SubE? && OfKind(env, k, e) && Framed(e)
    requires Starts(data, pos, end, Content(e)) && end - pos < |Content(e)|
    ensures var n, h := end - pos, |e.length.bytes|;
            var r := DecodeMember(env, k, wire, prior, data, base, pos, end, lim, d);
            if n < h || !CutOk(e.body, n - h) then r.Fail? else
            var left := e.(body := Cut(e.body, n - h));
            if Within(left, lim, d) then OfKind(env, k, left) && r == Ok(Meaning(env, k, prior, left), end) else r.Fail?
    decreases e, 0
  {
    var sub := Members(env, k.name);
    SubCut(env, k.name, e.length, e.body, if k.Sub? then OldSlots(prior, |sub|) else Fresh(|sub|),
           data, pos, end, lim, d);
  }

  lemma {:induction false} NestedCut(env: Env, fields: seq<Field>, e: Entry, data: seq<byte>, base: nat, pos: nat,
                                     end: nat, slots: seq<Slot>, lim: Limits, d: nat)
    requires base <= pos && |slots| == |fields| && Shaped(env, fields, e) && Framed(e) && e.SubE?
    requires Starts(data, pos, end, Content(e)) && end - pos < |Content(e)|
    ensures var number, wire := e.tag.value / 8, e.tag.value % 8;
            EntryLeft(env, fields, e, end - pos, slots, lim, d, end,
                      DecodeOccurrence(env, fields, number, wire, data, base, pos, end, slots, lim, d))
    decreases e, 1
  {
    var number, wire := e.tag.value / 8, e.tag.value % 8;
    MemberCut(env, fields[e.i].kind, wire, e, slots[e.i], data, base, pos, end, lim, d);
    DeclaredRead(env, fields, number, wire, data, base, pos, end, slots, lim, d);
  }

  /** Which prefixes of a document are accepted, and as what. */
  lemma {:induction false} PrefixRead(env: Env, fields: seq<Field>, es: List<Entry>, data: seq<byte>, base: nat,
                                      pos: nat, end: nat, slots: seq<Slot>, lim: Limits, d: nat)
    requires InSpan(base, pos, pos + |DocumentBytes(es)|)
    requires |slots| == |fields| && ShapedAll(env, fields, es) && FramedAll(es)
    requires Starts(data, pos, end, DocumentBytes(es))
    ensures ReadsLeft(env, fields, es, end - pos, slots, lim, d, end,
                      DecodeFields(env, fields, data, base, pos, end, slots, lim, d))
    decreases es, 1
  {
    if pos < end {
      StartsSplit(data, pos, end, EntryBytes(es.head), DocumentBytes(es.tail));
      if end - pos >= |EntryBytes(es.head)| {
        HeadWhole(env, fields, es, data, base, pos, end, slots, lim, d);
      } else {
        HeadCut(env, fields, es, data, base, pos, end, slots, lim, d);
      }
    }
  }

  lemma {:induction false} HeadWhole(env: Env, fields: seq<Field>, es: List<Entry>, data: seq<byte>, base: nat,
                                     pos: nat, end: nat, slots: seq<Slot>, lim: Limits, d: nat)
    requires |slots| == |fields| && es.Cons? && ShapedAll(env, fields, es) && FramedAll(es)
    requires InSpan(base, pos, pos + |DocumentBytes(es)|) && At(data, pos, EntryBytes(es.head))
    requires Starts(data, pos + |EntryBytes(es.head)|, end, DocumentBytes(es.tail))
    ensures ReadsLeft(env, fields, es, end - pos, slots, lim, d, end,
                      DecodeFields(env, fields, data, base, pos, end, slots, lim, d))
    decreases es, 0
  {
    var e := es.head;
    var next, after := pos + |EntryBytes(e)|, After(env, fields, slots, e);
    if Within(e, lim, d) {
      EntryRead(env, fields, e, data, base, pos, next, end, slots, lim, d);
      PrefixRead(env, fields, es.tail, data, base, next, end, after, lim, d);
    } else {
      EntryRejected(env, fields, e, data, base, pos, end, slots, lim, d);
    }
    LeftBehind(env, fields, es, end - pos, slots, lim, d, end,
               DecodeFields(env, fields, data, base, pos, end, slots, lim, d));
  }

  lemma {:induction false} HeadCut(env: Env, fields: seq<Field>, es: List<Entry>, data: seq<byte>, base: nat,
                                   pos: nat, end: nat, slots: seq<Slot>, lim: Limits, d: nat)
    requires |slots| == |fields| && es.Cons? && Shaped(env, fields, es.head) && Framed(es.head)
    requires InSpan(base, pos, pos + |EntryBytes(es.head)|)
    requires Starts(data, pos, end, EntryBytes(es.head)) && 0 < end - pos < |EntryBytes(es.head)|
    ensures ReadsLeft(env, fields, es, end - pos, slots, lim, d, end,
                      DecodeFields(env, fields, data, base, pos, end, slots, lim, d))
    decreases es, 0
  {
    EntryCut(env, fields, es.head, data, base, pos, end, slots, lim, d);
    CutInside(env, fields, slots, es, end - pos, lim, d);
  }

  /** What is left of a document cut behind its first entry. */
  lemma CutBehind(env: Env, fields: seq<Field>, slots: seq<Slot>, es: List<Entry>, n: nat, lim: Limits, d: nat)
    requires |slots| == |fields| && es.Cons? && Shaped(env, fields, es.head) && n >= |EntryBytes(es.head)|
    ensures var e, rest := es.head, Cut(es.tail, n - |EntryBytes(es.head)|);
            && (CutOk(es, n) <==> CutOk(es.tail, n - |EntryBytes(e)|))
            && (WithinAll(Cut(es, n), lim, d) <==> Within(e, lim, d) && WithinAll(rest, lim, d))
            && (ShapedAll(env, fields, Cut(es, n)) <==> ShapedAll(env, fields, rest))
            && (ShapedAll(env, fields, rest) ==>
                  Apply(env, fields, slots, Cut(es, n)) == Apply(env, fields, After(env, fields, slots, e), rest))
  {
    var e, rest := es.head, Cut(es.tail, n - |EntryBytes(es.head)|);
    assert |EntryBytes(e)| >= 1;
    assert Cut(es, n) == Cons(e, rest);
  }

  lemma LeftBehind(env: Env, fields: seq<Field>, es: List<Entry>, n: nat, slots: seq<Slot>, lim: Limits, d: nat,
                   end: nat, r: Read<seq<Slot>>)
    requires |slots| == |fields| && es.Cons? && Shaped(env, fields, es.head) && n >= |EntryBytes(es.head)|
    requires if Within(es.head, lim, d)
             then ReadsLeft(env, fields, es.tail, n - |EntryBytes(es.head)|, After(env, fields, slots, es.head), lim,
                            d, end, r)
             else r.Fail?
    ensures ReadsLeft(env, fields, es, n, slots, lim, d, end, r)
  {
    CutBehind(env, fields, slots, es, n, lim, d);
  }

  lemma {:induction false} CutWhole(env: Env, fields: seq<Field>, es: List<Entry>)
    requires ShapedAll(env, fields, es)
    ensures CutOk(es, |DocumentBytes(es)|) && Cut(es, |DocumentBytes(es)|) == es
  {
    if es.Cons? {
      assert |EntryBytes(es.head)| >= 1;
      CutWhole(env, fields, es.tail);
    }
  }

  /** What is left of a document cut inside its first entry. */
  lemma CutInside(env: Env, fields: seq<Field>, slots: seq<Slot>, es: List<Entry>, n: nat, lim: Limits, d: nat)
    requires |slots| == |fields| && es.Cons? && 0 < n < |EntryBytes(es.head)|
    ensures var e := es.head;
            if !e.SubE? || n < BodyStart(e) then !CutOk(es, n) else
            var left := e.(body := Cut(e.body, n - BodyStart(e)));
            && (CutOk(es, n) <==> CutOk(e.body, n - BodyStart(e)))
            && (WithinAll(Cut(es, n), lim, d) <==> Within(left, lim, d))
            && (ShapedAll(env, fields, Cut(es, n)) <==> Shaped(env, fields, left))
            && (Shaped(env, fields, left) ==> Apply(env, fields, slots, Cut(es, n)) == After(env, fields, slots, left))
  {
    var e := es.head;
    if e.SubE? && n >= BodyStart(e) {
      var left := e.(body := Cut(e.body, n - BodyStart(e)));
      assert Cut(es, n) == Cons(left, Nil);
    }
  }

  lemma {:induction false} EntryCut(env: Env, fields: seq<Field>, e: Entry, data: seq<byte>, base: nat, pos: nat,
                                    end: nat, slots: seq<Slot>, lim: Limits, d: nat)
    requires InSpan(base, pos, pos + |EntryBytes(e)|)
    requires |slots| == |fields| && Shaped(env, fields, e) && Framed(e)
    requires Starts(data, pos, end, EntryBytes(e)) && 0 < end - pos < |EntryBytes(e)|
    ensures var n, r := end - pos - |e.tag.bytes|, DecodeFields(env, fields, data, base, pos, end, slots, lim, d);
            if n < 0 then r.Fail? else EntryLeft(env, fields, e, n, slots, lim, d, end, r)
    decreases e, 2
  {
    StartsSplit(data, pos, end, e.tag.bytes, Content(e));
    if end - pos < |e.tag.bytes| {
      NumCut(TAG_BITS, e.tag, data, pos, end);
    } else {
      var at := pos + |e.tag.bytes|;
      TagRead(env, fields, e.tag, data, base, pos, at, end, slots, lim, d);
      if e.SubE? {
        NestedCut(env, fields, e, data, base, at, end, slots, lim, d);
      } else {
        OccurrenceCut(env, fields, e, data, base, at, end, slots, lim, d);
      }
    }
  }

  /**
   * A truncated document is rejected exactly when it does not end after an entry of the outermost message
   * or of a chain of nested messages, each the last entry left of the one around it, or when what is left is
   * beyond the limits. A truncation that is accepted means what is left of the document.
   */
  lemma Prefixes(env: Env, fields: seq<Field>, es: List<Entry>, n: nat, slots: seq<Slot>, lim: Limits, d: nat)
    requires |DocumentBytes(es)| < Pow2(Varint.SIZE_BITS)
    requires |slots| == |fields| && ShapedAll(env, fields, es) && FramedAll(es) && n <= |DocumentBytes(es)|
    ensures var r := Decode(env, fields, DocumentBytes(es)[..n], slots, lim, d);
            if CutOk(es, n) && WithinAll(Cut(es, n), lim, d)
            then ShapedAll(env, fields, Cut(es, n))
                 && r == Ok(Apply(env, fields, Cleared(fields, slots), Cut(es, n)), n)
            else r.Fail?
  {
    PrefixRead(env, fields, es, DocumentBytes(es)[..n], 0, 0, n, Cleared(fields, slots), lim, d);
  }

  lemma SmallNum(w: nat, v: byte)
    requires v < 128 && w >= 7
    ensures Spelled(w, Num(v, [v]))
  {
    Pow2Mono(7, w);
    Varint.RoundTrip(w, v, []);
    assert Varint.Encode(v) + [] == [v];
  }

  const NESTING_FIELDS: seq<Field> := [Field(1, Sub("m"))]
  const NESTING_ENV: Env := map["m" := NESTING_FIELDS]

  /** A message of that type inside a message of that type. */
  function Nest(length: byte, body: List<Entry>): List<Entry> {
    Cons(SubE(0, Num(10, [10]), Num(length, [length]), body), Nil)
  }

  lemma NestBytes(length: byte, body: List<Entry>)
    ensures DocumentBytes(Nest(length, body)) == [10, length] + DocumentBytes(body)
  {
    var e := Nest(length, body).head;
    assert EntryBytes(e) == [10] + ([length] + DocumentBytes(body));
    assert DocumentBytes(Nest(length, body)) == EntryBytes(e) + DocumentBytes(Nil);
  }

  lemma NestShaped(length: byte, body: List<Entry>)
    requires ShapedAll(NESTING_ENV, NESTING_FIELDS, body) && FramedAll(body) && |DocumentBytes(body)| == length < 128
    ensures var es := Nest(length, body);
            ShapedAll(NESTING_ENV, NESTING_FIELDS, es) && FramedAll(es)
  {
    SmallNum(TAG_BITS, 10);
    SmallNum(Varint.SIZE_BITS, length);
    var e := Nest(length, body).head;
    assert TagFits(NESTING_FIELDS, 0, e.tag);
    assert Shaped(NESTING_ENV, NESTING_FIELDS, e);
    assert Framed(e);
  }

  lemma NestMeaning(length: byte, body: List<Entry>)
    requires ShapedAll(NESTING_ENV, NESTING_FIELDS, Nest(length, body)) && ShapedAll(NESTING_ENV, NESTING_FIELDS, body)
    ensures Apply(NESTING_ENV, NESTING_FIELDS, [Unset], Nest(length, body))
            == [SubV(Apply(NESTING_ENV, NESTING_FIELDS, [Unset], body))]
  {
    assert Cleared(NESTING_FIELDS, Fresh(1)) == [Unset];
    assert OldSlots(Unset, 1) == Fresh(1);
    var e := Nest(length, body).head;
    assert Meaning(NESTING_ENV, Sub("m"), Unset, e) == SubV(Apply(NESTING_ENV, NESTING_FIELDS, [Unset], body));
    assert After(NESTING_ENV, NESTING_FIELDS, [Unset], e) == [Meaning(NESTING_ENV, Sub("m"), Unset, e)];
  }

  /**
   * Truncation is not always noticed. The document 0a 02 0a 00 is a message whose only member is a message
   * with an empty message inside. Its first two bytes announce two more, and are accepted without them.
   */
  lemma TruncationAccepted(whole: seq<byte>, part: seq<byte>, lim: Limits)
    requires whole == [10, 2, 10, 0] && part == whole[..2] && lim.nesting >= 2
    ensures Decode(NESTING_ENV, NESTING_FIELDS, whole, [Unset], lim, 0) == Ok([SubV([SubV([Unset])])], 4)
    ensures Decode(NESTING_ENV, NESTING_FIELDS, part, [Unset], lim, 0) == Ok([SubV([Unset])], 2)
  {
    NestBytes(0, Nil);
    NestShaped(0, Nil);
    NestMeaning(0, Nil);
    var es := Nest(2, Nest(0, Nil));
    NestBytes(2, Nest(0, Nil));
    NestShaped(2, Nest(0, Nil));
    NestMeaning(2, Nest(0, Nil));
    NestCut(es, lim);
    assert whole[..4] == whole;
    NestPrefix(es, whole, 4, lim);
    NestPrefix(es, whole, 2, lim);
    NestMeaning(2, Nil);
  }

  lemma NestPrefix(es: List<Entry>, whole: seq<byte>, n: nat, lim: Limits)
    requires ShapedAll(NESTING_ENV, NESTING_FIELDS, es) && FramedAll(es) && n <= |whole| && DocumentBytes(es) == whole
    requires CutOk(es, n) && WithinAll(Cut(es, n), lim, 0) && |whole| < 128
    ensures ShapedAll(NESTING_ENV, NESTING_FIELDS, Cut(es, n))
    ensures Decode(NESTING_ENV, NESTING_FIELDS, whole[..n], [Unset], lim, 0)
            == Ok(Apply(NESTING_ENV, NESTING_FIELDS, [Unset], Cut(es, n)), n)
  {
    assert Cleared(NESTING_FIELDS, [Unset]) == [Unset];
    Pow2Mono(7, Varint.SIZE_BITS);
    Prefixes(NESTING_ENV, NESTING_FIELDS, es, n, [Unset], lim, 0);
  }

  lemma NestCut(es: List<Entry>, lim: Limits)
    requires lim.nesting >= 2 && es == Nest(2, Nest(0, Nil))
    ensures CutOk(es, 4) && Cut(es, 4) == es && WithinAll(es, lim, 0)
    ensures CutOk(es, 2) && Cut(es, 2) == Nest(2, Nil) && WithinAll(Nest(2, Nil), lim, 0)
  {
    assert |EntryBytes(es.head)| == 4;
    assert WithinAll(Nest(0, Nil), lim, 1);
  }

  // ----- Undeclared fields -----

  /** The document without its undeclared fields, at every depth. */
  function Strip(es: List<Entry>): List<Entry> {
    if es.Nil? then Nil
    else if es.head.Extra? then Strip(es.tail)
    else if es.head.SubE? then Cons(es.head.(body := Strip(es.head.body)), Strip(es.tail))
    else Cons(es.head, Strip(es.tail))
  }

  /** Undeclared fields, wherever they stand, change nothing. */
  lemma {:induction false} StripKeepsMeaning(env: Env, fields: seq<Field>, slots: seq<Slot>, es: List<Entry>)
    requires ShapedAll(env, fields, es) && |slots| == |fields|
    ensures ShapedAll(env, fields, Strip(es)) && Apply(env, fields, slots, Strip(es)) == Apply(env, fields, slots, es)
    decreases es, 1
  {
    if es.Cons? {
      var e := es.head;
      StripKeepsMeaning(env, fields, After(env, fields, slots, e), es.tail);
      if e.SubE? { StripSub(env, fields[e.i].kind, slots[e.i], e); }
    }
  }

  lemma {:induction false} StripSub(env: Env, k: Kind, prior: Slot, e: Entry)
    requires e.SubE? && OfKind(env, k, e)
    ensures var stripped := e.(body := Strip(e.body));
            OfKind(env, k, stripped) && Meaning(env, k, prior, stripped) == Meaning(env, k, prior, e)
    decreases e, 0
  {
    var sub := Members(env, k.name);
    StripKeepsMeaning(env, sub, Cleared(sub, if k.Sub? then OldSlots(prior, |sub|) else Fresh(|sub|)), e.body);
  }
}
