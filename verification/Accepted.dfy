/**
 * What the protobuf reader leaves behind, whatever bytes it accepts: every member is of its kind, messages
 * are nested no deeper than the limit allows, and what the message holds is paid for by the input.
 */
module Accepted {
  import opened Wire
  import opened Protobuf
  import Varint

  // ----- Members of their kinds -----

  /** s is a value of kind k, or a scalar or message that was never read, with at most m messages inside each other. */
  predicate Typed(env: Env, k: Kind, s: Slot, m: nat)
    decreases s, 0
  {
    match k
    case Int(i) => s.Unset? || (s.IntV? && i.Holds(s.n))
    case Fixed(w) => s.Unset? || (s.FixedV? && s.bits < Pow2(8 * w))
    case Bytes => s.BytesV?
    case Packed(i) => s.IntsV? && AllHold(i, s.ns)
    case Sub(name) => s.Unset? || (s.SubV? && m > 0 && TypedAll(env, Members(env, name), s.slots, m - 1))
    case Subs(name) => s.SubsV? && TypedElements(env, name, s.elements, m)
  }

  predicate TypedAll(env: Env, fields: seq<Field>, slots: seq<Slot>, m: nat)
    decreases slots, 1
  {
    |slots| == |fields| && forall i :: 0 <= i < |slots| ==> Typed(env, fields[i].kind, slots[i], m)
  }

  predicate TypedElements(env: Env, name: string, es: List<Slot>, m: nat)
    decreases es, 0
  {
    es.Cons? ==>
      && es.head.SubV? && m > 0 && TypedAll(env, Members(env, name), es.head.slots, m - 1)
      && TypedElements(env, name, es.tail, m)
  }

  /** What a message may be read into: containers are cleared first, so what they held does not matter. */
  predicate Receives(env: Env, fields: seq<Field>, slots: seq<Slot>, m: nat) {
    && |slots| == |fields|
    && forall i :: 0 <= i < |slots| && !Container(fields[i].kind) ==> Typed(env, fields[i].kind, slots[i], m)
  }

  lemma ClearedTyped(env: Env, fields: seq<Field>, slots: seq<Slot>, m: nat)
    requires Receives(env, fields, slots, m)
    ensures TypedAll(env, fields, Cleared(fields, slots), m)
  {
  }

  lemma {:induction false} SnocTyped(env: Env, name: string, es: List<Slot>, s: Slot, m: nat)
    requires TypedElements(env, name, es, m) && TypedElements(env, name, Cons(s, Nil), m)
    ensures TypedElements(env, name, Snoc(es, s), m)
    decreases es
  {
    if es.Cons? { SnocTyped(env, name, es.tail, s, m); }
  }

  lemma {:induction false} SnocHold(k: Varint.IntKind, ns: List<int>, n: int)
    requires AllHold(k, ns) && k.Holds(n)
    ensures AllHold(k, Snoc(ns, n))
  {
    if ns.Cons? { SnocHold(k, ns.tail, n); }
  }

  /** Elements of a packed container, wherever the announced end is. */
  lemma {:induction false} PackedTyped(k: Varint.IntKind, data: seq<byte>, pos: nat, stop: nat, end: nat, ns: List<int>)
    requires k.Valid() && pos <= end <= |data| && AllHold(k, ns) && DecodePacked(k, data, pos, stop, end, ns).Ok?
    ensures var r := DecodePacked(k, data, pos, stop, end, ns);
            r.value.IntsV? && AllHold(k, r.value.ns)
    decreases end - pos
  {
    if pos < stop {
      var v := ReadAt(k.width, data, pos, end);
      var n := Varint.Unraw(k, v.value);
      Varint.UnrawHolds(k, v.value);
      SnocHold(k, ns, n);
      PackedTyped(k, data, v.used, stop, end, Snoc(ns, n));
    }
  }

  lemma IntsTyped(k: Varint.IntKind, wire: nat, prior: Slot, data: seq<byte>, base: nat, pos: nat, end: nat,
                  lim: Limits)
    requires k.Valid() && base <= pos <= end <= |data| && AllHold(k, OldInts(prior))
    requires DecodeInts(k, wire, prior, data, base, pos, end, lim).Ok?
    ensures var r := DecodeInts(k, wire, prior, data, base, pos, end, lim);
            r.value.IntsV? && AllHold(k, r.value.ns)
  {
    if wire != 2 {
      var v := ReadAt(k.width, data, pos, end);
      Varint.UnrawHolds(k, v.value);
      SnocHold(k, OldInts(prior), Varint.Unraw(k, v.value));
    } else {
      var n := ReadAt(Varint.SIZE_BITS, data, pos, end);
      PackedTyped(k, data, n.used, PackedEnd(base, n.used, n.value), end, OldInts(prior));
    }
  }

  // ----- Whatever is accepted is of its kind -----

  lemma {:induction false} FieldsTyped(env: Env, fields: seq<Field>, data: seq<byte>, base: nat, pos: nat, end: nat,
                                       slots: seq<Slot>, lim: Limits, d: nat, m: nat)
    requires EnvOk(env) && FieldsOk(env, fields) && base <= pos <= end <= |data| && d + m >= lim.nesting
    requires TypedAll(env, fields, slots, m) && DecodeFields(env, fields, data, base, pos, end, slots, lim, d).Ok?
    ensures TypedAll(env, fields, DecodeFields(env, fields, data, base, pos, end, slots, lim, d).value, m)
    decreases end - pos, 2
  {
    if pos < end {
      var tag := ReadAt(TAG_BITS, data, pos, end);
      OccurrenceTyped(env, fields, tag.value / 8, tag.value % 8, data, base, tag.used, end, slots, lim, d, m);
    }
  }

  lemma {:induction false} OccurrenceTyped(env: Env, fields: seq<Field>, number: nat, wire: nat, data: seq<byte>,
                                           base: nat, pos: nat, end: nat, slots: seq<Slot>, lim: Limits, d: nat, m: nat)
    requires EnvOk(env) && FieldsOk(env, fields) && base <= pos <= end <= |data| && d + m >= lim.nesting
    requires TypedAll(env, fields, slots, m)
    requires DecodeOccurrence(env, fields, number, wire, data, base, pos, end, slots, lim, d).Ok?
    ensures TypedAll(env, fields,
                     DecodeOccurrence(env, fields, number, wire, data, base, pos, end, slots, lim, d).value, m)
    decreases end - pos, 3
  {
    var i := IndexFrom(fields, number, 0);
    if i == |fields| {
      FieldsTyped(env, fields, data, base, Skip(wire, data, pos, end).used, end, slots, lim, d, m);
    } else {
      var r := DecodeMember(env, fields[i].kind, wire, slots[i], data, base, pos, end, lim, d);
      MemberTyped(env, fields[i].kind, wire, slots[i], data, base, pos, end, lim, d, m);
      FieldsTyped(env, fields, data, base, r.used, end, slots[i := r.value], lim, d, m);
    }
  }

  lemma {:induction false} MemberTyped(env: Env, k: Kind, wire: nat, prior: Slot, data: seq<byte>, base: nat, pos: nat,
                                       end: nat, lim: Limits, d: nat, m: nat)
    requires EnvOk(env) && KindOk(env, k) && base <= pos <= end <= |data| && d + m >= lim.nesting
    requires Typed(env, k, prior, m) && DecodeMember(env, k, wire, prior, data, base, pos, end, lim, d).Ok?
    ensures Typed(env, k, DecodeMember(env, k, wire, prior, data, base, pos, end, lim, d).value, m)
    decreases end - pos, 1
  {
    match k
    case Int(i) => Varint.UnrawHolds(i, ReadAt(i.width, data, pos, end).value);
    case Fixed(w) => LEBound(data, pos, w);
    case Bytes =>
    case Packed(i) => IntsTyped(i, wire, prior, data, base, pos, end, lim);
    case Sub(name) => SubTyped(env, name, OldSlots(prior, |Members(env, name)|), data, pos, end, lim, d, m);
    case Subs(name) =>
      var blank := Fresh(|Members(env, name)|);
      SubTyped(env, name, blank, data, pos, end, lim, d, m);
      var s := SubV(DecodeSub(env, name, blank, data, pos, end, lim, d).value);
      assert TypedElements(env, name, Nil, m);
      SnocTyped(env, name, OldElements(prior), s, m);
  }

  lemma {:induction false} SubTyped(env: Env, name: string, slots: seq<Slot>, data: seq<byte>, pos: nat, end: nat,
                                    lim: Limits, d: nat, m: nat)
    requires EnvOk(env) && name in env && pos <= end <= |data| && d + m >= lim.nesting
    requires |slots| == |Members(env, name)| && (m > 0 ==> Receives(env, Members(env, name), slots, m - 1))
    requires DecodeSub(env, name, slots, data, pos, end, lim, d).Ok?
    ensures m > 0 && TypedAll(env, Members(env, name), DecodeSub(env, name, slots, data, pos, end, lim, d).value, m - 1)
    decreases end - pos, 0
  {
    var sub, n := Members(env, name), ReadAt(Varint.SIZE_BITS, data, pos, end);
    var stop := if n.value < end - n.used then n.used + n.value else end;
    ClearedTyped(env, sub, slots, m - 1);
    FieldsTyped(env, sub, data, n.used, n.used, stop, Cleared(sub, slots), lim, d + 1, m - 1);
  }

  // ----- What a message holds -----

  /** Bytes, packed elements and message elements in a member, at every depth. */
  function Weight(s: Slot): nat
    decreases s, 0
  {
    match s
    case BytesV(b) => |b|
    case IntsV(ns) => Len(ns)
    case SubV(slots) => WeightFrom(slots, 0)
    case SubsV(es) => WeightOf(es)
    case _ => 0
  }

  function WeightFrom(slots: seq<Slot>, i: nat): nat
    requires i <= |slots|
    decreases slots, 1, |slots| - i
  {
    if i == |slots| then 0 else Weight(slots[i]) + WeightFrom(slots, i + 1)
  }

  function WeightOf(es: List<Slot>): nat
    decreases es, 0
  {
    if es.Nil? then 0 else 1 + Weight(es.head) + WeightOf(es.tail)
  }

  lemma {:induction false} WeightUpdate(slots: seq<Slot>, k: nat, v: Slot, i: nat)
    requires i <= |slots| && k < |slots|
    ensures WeightFrom(slots[k := v], i)
            == if i <= k then WeightFrom(slots, i) - Weight(slots[k]) + Weight(v) else WeightFrom(slots, i)
    ensures i <= k ==> WeightFrom(slots, i) >= Weight(slots[k])
    decreases |slots| - i
  {
    if i < |slots| { WeightUpdate(slots, k, v, i + 1); }
  }

  lemma {:induction false} WeightCleared(fields: seq<Field>, slots: seq<Slot>, i: nat)
    requires |slots| == |fields| && i <= |slots|
    ensures WeightFrom(Cleared(fields, slots), i) <= WeightFrom(slots, i)
    decreases |slots| - i
  {
    if i < |slots| { WeightCleared(fields, slots, i + 1); }
  }

  lemma {:induction false} WeightFresh(n: nat, i: nat)
    requires i <= n
    ensures WeightFrom(Fresh(n), i) == 0
    decreases n - i
  {
    if i < n { WeightFresh(n, i + 1); }
  }

  lemma {:induction false} SnocLen<T>(xs: List<T>, x: T)
    ensures Len(Snoc(xs, x)) == Len(xs) + 1
  {
    if xs.Cons? { SnocLen(xs.tail, x); }
  }

  lemma {:induction false} WeightSnoc(es: List<Slot>, s: Slot)
    ensures WeightOf(Snoc(es, s)) == WeightOf(es) + 1 + Weight(s)
  {
    if es.Cons? { WeightSnoc(es.tail, s); }
  }

  // ----- Whatever is accepted is paid for by the input -----

  lemma {:induction false} FieldsPaid(env: Env, fields: seq<Field>, data: seq<byte>, base: nat, pos: nat, end: nat,
                                      slots: seq<Slot>, lim: Limits, d: nat)
    requires EnvOk(env) && FieldsOk(env, fields) && base <= pos <= end <= |data| && |slots| == |fields|
    requires DecodeFields(env, fields, data, base, pos, end, slots, lim, d).Ok?
    ensures WeightFrom(DecodeFields(env, fields, data, base, pos, end, slots, lim, d).value, 0)
            <= WeightFrom(slots, 0) + (end - pos)
    decreases end - pos, 2
  {
    if pos < end {
      var tag := ReadAt(TAG_BITS, data, pos, end);
      OccurrencePaid(env, fields, tag.value / 8, tag.value % 8, data, base, tag.used, end, slots, lim, d);
    }
  }

  lemma {:induction false} OccurrencePaid(env: Env, fields: seq<Field>, number: nat, wire: nat, data: seq<byte>,
                                          base: nat, pos: nat, end: nat, slots: seq<Slot>, lim: Limits, d: nat)
    requires EnvOk(env) && FieldsOk(env, fields) && base <= pos <= end <= |data| && |slots| == |fields|
    requires DecodeOccurrence(env, fields, number, wire, data, base, pos, end, slots, lim, d).Ok?
    ensures WeightFrom(DecodeOccurrence(env, fields, number, wire, data, base, pos, end, slots, lim, d).value, 0)
            <= WeightFrom(slots, 0) + (end - pos)
    decreases end - pos, 3
  {
    var i := IndexFrom(fields, number, 0);
    if i == |fields| {
      FieldsPaid(env, fields, data, base, Skip(wire, data, pos, end).used, end, slots, lim, d);
    } else {
      var r := DecodeMember(env, fields[i].kind, wire, slots[i], data, base, pos, end, lim, d);
      MemberPaid(env, fields[i].kind, wire, slots[i], data, base, pos, end, lim, d);
      WeightUpdate(slots, i, r.value, 0);
      FieldsPaid(env, fields, data, base, r.used, end, slots[i := r.value], lim, d);
    }
  }

  lemma {:induction false} MemberPaid(env: Env, k: Kind, wire: nat, prior: Slot, data: seq<byte>, base: nat, pos: nat,
                                      end: nat, lim: Limits, d: nat)
    requires EnvOk(env) && KindOk(env, k) && base <= pos <= end <= |data|
    requires DecodeMember(env, k, wire, prior, data, base, pos, end, lim, d).Ok?
    ensures var r := DecodeMember(env, k, wire, prior, data, base, pos, end, lim, d);
            Weight(r.value) <= Weight(prior) + (r.used - pos)
    decreases end - pos, 1
  {
    match k
    case Int(_) =>
    case Fixed(_) =>
    case Bytes =>
    case Packed(i) => IntsPaid(i, wire, prior, data, base, pos, end, lim);
    case Sub(name) =>
      var n := |Members(env, name)|;
      WeightFresh(n, 0);
      SubPaid(env, name, OldSlots(prior, n), data, pos, end, lim, d);
    case Subs(name) =>
      var blank := Fresh(|Members(env, name)|);
      WeightFresh(|Members(env, name)|, 0);
      SubPaid(env, name, blank, data, pos, end, lim, d);
      WeightSnoc(OldElements(prior), SubV(DecodeSub(env, name, blank, data, pos, end, lim, d).value));
  }

  lemma {:induction false} PackedPaid(k: Varint.IntKind, data: seq<byte>, pos: nat, stop: nat, end: nat, ns: List<int>)
    requires pos <= end <= |data| && DecodePacked(k, data, pos, stop, end, ns).Ok?
    ensures var r := DecodePacked(k, data, pos, stop, end, ns);
            r.value.IntsV? && Len(r.value.ns) <= Len(ns) + (r.used - pos)
    decreases end - pos
  {
    if pos < stop {
      var v := ReadAt(k.width, data, pos, end);
      var n := Varint.Unraw(k, v.value);
      SnocLen(ns, n);
      PackedPaid(k, data, v.used, stop, end, Snoc(ns, n));
    }
  }

  lemma IntsPaid(k: Varint.IntKind, wire: nat, prior: Slot, data: seq<byte>, base: nat, pos: nat, end: nat, lim: Limits)
    requires base <= pos <= end <= |data| && DecodeInts(k, wire, prior, data, base, pos, end, lim).Ok?
    ensures var r := DecodeInts(k, wire, prior, data, base, pos, end, lim);
            r.value.IntsV? && Len(r.value.ns) <= Len(OldInts(prior)) + (r.used - pos)
  {
    if wire != 2 {
      SnocLen(OldInts(prior), Varint.Unraw(k, ReadAt(k.width, data, pos, end).value));
    } else {
      var n := ReadAt(Varint.SIZE_BITS, data, pos, end);
      PackedPaid(k, data, n.used, PackedEnd(base, n.used, n.value), end, OldInts(prior));
    }
  }

  lemma {:induction false} SubPaid(env: Env, name: string, slots: seq<Slot>, data: seq<byte>, pos: nat, end: nat,
                                   lim: Limits, d: nat)
    requires EnvOk(env) && name in env && pos <= end <= |data| && |slots| == |Members(env, name)|
    requires DecodeSub(env, name, slots, data, pos, end, lim, d).Ok?
    ensures var r := DecodeSub(env, name, slots, data, pos, end, lim, d);
            WeightFrom(r.value, 0) + 1 <= WeightFrom(slots, 0) + (r.used - pos)
    decreases end - pos, 0
  {
    var sub, n := Members(env, name), ReadAt(Varint.SIZE_BITS, data, pos, end);
    var stop := if n.value < end - n.used then n.used + n.value else end;
    WeightCleared(sub, slots, 0);
    FieldsPaid(env, sub, data, n.used, n.used, stop, Cleared(sub, slots), lim, d + 1);
  }

  // ----- Main result -----

  /**
   * Whatever bytes are accepted, into whatever receiver: all of them are used, every member is of its kind, at most
   * m messages are inside each other if the receiver had no more and the limit allows no more, and the message holds
   * no more than the receiver did and one element or byte for every byte of the input.
   */
  lemma AcceptedIsSound(env: Env, fields: seq<Field>, data: seq<byte>, into: seq<Slot>, lim: Limits, d: nat, m: nat)
    requires EnvOk(env) && FieldsOk(env, fields) && Receives(env, fields, into, m) && d + m >= lim.nesting
    requires Decode(env, fields, data, into, lim, d).Ok?
    ensures var r := Decode(env, fields, data, into, lim, d);
            && r.used == |data| && TypedAll(env, fields, r.value, m)
            && WeightFrom(r.value, 0) <= WeightFrom(into, 0) + |data|
  {
    ClearedTyped(env, fields, into, m);
    WeightCleared(fields, into, 0);
    FieldsTyped(env, fields, data, 0, 0, |data|, Cleared(fields, into), lim, d, m);
    FieldsPaid(env, fields, data, 0, 0, |data|, Cleared(fields, into), lim, d);
  }

  // ----- What the allocation limit does not bound -----

  /**
   * The limit is compared with announced lengths. A byte that comes under another wire type is appended without a
   * comparison, so an occurrence leaves a container of bytes within the limit exactly under this condition.
   */
  lemma BytesWithinLimit(wire: nat, prior: Slot, data: seq<byte>, pos: nat, end: nat, lim: Limits)
    requires pos <= end <= |data| && DecodeBytes(wire, prior, data, pos, end, lim).Ok?
    ensures |OldBytes(DecodeBytes(wire, prior, data, pos, end, lim).value)| <= lim.alloc
            <==> wire == 2 || |OldBytes(prior)| < lim.alloc
  {
  }

  /** A message with one member, and bytes that hold one occurrence of it. */
  lemma OneOccurrence(env: Env, f: Field, tag: byte, data: seq<byte>, prior: Slot, v: Slot, lim: Limits, d: nat)
    requires tag < 128 && tag / 8 == f.number && data != [] && data[0] == tag
    requires DecodeMember(env, f.kind, tag % 8, prior, data, 0, 1, |data|, lim, d) == Ok(v, |data|)
    ensures DecodeFields(env, [f], data, 0, 0, |data|, [prior], lim, d) == Ok([v], |data|)
  {
    SmallNum(TAG_BITS, tag);
    TagRead(env, [f], Num(tag, [tag]), data, 0, 0, 1, |data|, [prior], lim, d);
    assert IndexFrom([f], f.number, 0) == 0;
    DeclaredRead(env, [f], tag / 8, tag % 8, data, 0, 1, |data|, [prior], lim, d);
    assert [prior][0 := v] == [v];
    NothingLeft(env, [f], data, [v], lim, d);
  }

  lemma NothingLeft(env: Env, fields: seq<Field>, data: seq<byte>, slots: seq<Slot>, lim: Limits, d: nat)
    requires |slots| == |fields|
    ensures DecodeFields(env, fields, data, 0, |data|, |data|, slots, lim, d) == Ok(slots, |data|)
  {
  }

  /** One byte under a limit of none. */
  lemma LimitExceeded(env: Env, data: seq<byte>, lim: Limits)
    requires data == [8, 65] && lim.alloc == 0
    ensures Decode(env, [Field(1, Bytes)], data, [Unset], lim, 0) == Ok([BytesV([65])], 2)
  {
    var f := Field(1, Bytes);
    assert Cleared([f], [Unset]) == [BytesV([])];
    assert OldBytes(BytesV([])) + [data[1]] == [65];
    assert DecodeMember(env, Bytes, 0, BytesV([]), data, 0, 1, 2, lim, 0) == Ok(BytesV([65]), 2);
    OneOccurrence(env, f, 8, data, BytesV([]), BytesV([65]), lim, 0);
  }

  /**
   * A packed field whose length is the largest word is accepted as empty where no allocation limit stands in the way.
   */
  lemma PackedLengthWraps(env: Env, k: Varint.IntKind, data: seq<byte>, lim: Limits)
    requires lim.alloc >= Pow2(Varint.SIZE_BITS) - 1
    requires data == [10] + Varint.Encode(Pow2(Varint.SIZE_BITS) - 1)
    ensures Decode(env, [Field(1, Packed(k))], data, [Unset], lim, 0) == Ok([IntsV(Nil)], |data|)
  {
    var f := Field(1, Packed(k));
    assert Cleared([f], [Unset]) == [IntsV(Nil)];
    LargestLength(data);
    PackedTooLong(k, Pow2(Varint.SIZE_BITS) - 1, IntsV(Nil), data, 0, 1, |data|, |data|, lim);
    OneOccurrence(env, f, 10, data, IntsV(Nil), IntsV(Nil), lim, 0);
  }

  lemma LargestLength(data: seq<byte>)
    requires data == [10] + Varint.Encode(Pow2(Varint.SIZE_BITS) - 1)
    ensures ReadAt(Varint.SIZE_BITS, data, 1, |data|) == Ok(Pow2(Varint.SIZE_BITS) - 1, |data|)
    ensures 2 <= |data| < Pow2(Varint.SIZE_BITS)
  {
    var n := Num(Pow2(Varint.SIZE_BITS) - 1, Varint.Encode(Pow2(Varint.SIZE_BITS) - 1));
    Varint.RoundTrip(Varint.SIZE_BITS, n.value, []);
    assert n.bytes + [] == n.bytes;
    NumAt(Varint.SIZE_BITS, n, data, 1, |data|);
    Varint.EncodeFits(Varint.SIZE_BITS, n.value);
    Pow2Mono(4, Varint.SIZE_BITS);
  }
}
