/**
 * Writing protobuf messages. A message is what its members hold; pb::serialize_one turns it into calls
 * on the output archive, and those into bytes. The bytes are a document in which every field stands once,
 * in order, with minimal varints. What the archive wrote reads back as the message.
 */
module Messages {
  import opened Basics
  import opened Wire
  import opened Protobuf
  import opened OutArchive
  import Varint

  // ----- Messages -----

  predicate Fits(env: Env, k: Kind, s: Slot)
    decreases s, 0
  {
    match k
    case Int(i) => s.IntV? && i.Valid() && i.Holds(s.n)
    case Fixed(w) => s.FixedV? && s.bits < Pow2(8 * w)
    case Bytes => s.BytesV?
    case Packed(i) => s.IntsV? && i.Valid() && AllHold(i, s.ns)
    case Sub(name) => s.SubV? && FitsAll(env, Members(env, name), s.slots)
    case Subs(name) => s.SubsV? && FitsElements(env, name, s.elements)
  }

  predicate FitsAll(env: Env, fields: seq<Field>, slots: seq<Slot>)
    decreases slots, 1
  {
    |slots| == |fields| && forall i :: 0 <= i < |slots| ==> Fits(env, fields[i].kind, slots[i])
  }

  predicate FitsElements(env: Env, name: string, es: List<Slot>)
    decreases es, 0
  {
    es.Cons? ==> es.head.SubV? && FitsAll(env, Members(env, name), es.head.slots) && FitsElements(env, name, es.tail)
  }

  // ----- Writing -----

  function Tag(f: Field): nat { 8 * f.number + WireType(f.kind) }

  /** The packed length, summed from varint_size of each element. */
  function PackedSize(k: Varint.IntKind, ns: List<int>): nat
    requires k.Valid() && AllHold(k, ns)
  {
    if ns.Nil? then 0 else Varint.Size(Varint.Raw(k, ns.head)) + PackedSize(k, ns.tail)
  }

  function PackedItems(k: Varint.IntKind, ns: List<int>): List<Item>
    requires k.Valid() && AllHold(k, ns)
  {
    if ns.Nil? then Nil else Cons(Number(Varint.Raw(k, ns.head), k.width), PackedItems(k, ns.tail))
  }

  /** pb::serialize_one for one member: empty containers are not written at all. */
  function MemberItems(env: Env, f: Field, s: Slot): List<Item>
    requires Fits(env, f.kind, s)
    decreases s, 0
  {
    match f.kind
    case Int(k) => Cons(Number(Tag(f), TAG_BITS), Cons(Number(Varint.Raw(k, s.n), k.width), Nil))
    case Fixed(w) => Cons(Number(Tag(f), TAG_BITS), Cons(OutArchive.Raw(PutLE(s.bits, w)), Nil))
    case Bytes =>
      if s.bytes == [] then Nil
      else Cons(Number(Tag(f), TAG_BITS), Cons(Number(|s.bytes|, Varint.SIZE_BITS), Cons(OutArchive.Raw(s.bytes), Nil)))
    case Packed(k) =>
      var size := PackedSize(k, s.ns);
      if size == 0 then Nil
      else Cons(Number(Tag(f), TAG_BITS), Cons(Number(size, Varint.SIZE_BITS), PackedItems(k, s.ns)))
    case Sub(name) => Cons(Number(Tag(f), TAG_BITS), Cons(Message(Items(env, Members(env, name), s.slots, 0)), Nil))
    case Subs(name) => ElementItems(env, f, s.elements)
  }

  function ElementItems(env: Env, f: Field, es: List<Slot>): List<Item>
    requires f.kind.Subs? && FitsElements(env, f.kind.name, es)
    decreases es, 0
  {
    if es.Nil? then Nil
    else Cons(Number(Tag(f), TAG_BITS), Cons(Message(Items(env, Members(env, f.kind.name), es.head.slots, 0)),
                                   ElementItems(env, f, es.tail)))
  }

  /** serialize_many: the members from index i on. */
  function Items(env: Env, fields: seq<Field>, slots: seq<Slot>, i: nat): List<Item>
    requires FitsAll(env, fields, slots) && i <= |slots|
    decreases slots, 1, |slots| - i
  {
    if i == |slots| then Nil
    else Concat(MemberItems(env, fields[i], slots[i]), Items(env, fields, slots, i + 1))
  }

  // ----- The document of a message -----

  function Minimal(v: nat): Num { Num(v, Varint.Encode(v)) }

  function MinimalAll(k: Varint.IntKind, ns: List<int>): List<Num>
    requires k.Valid() && AllHold(k, ns)
  {
    if ns.Nil? then Nil else Cons(Minimal(Varint.Raw(k, ns.head)), MinimalAll(k, ns.tail))
  }

  function SubEntry(f: Field, i: nat, body: List<Entry>): Entry {
    SubE(i, Minimal(Tag(f)), Minimal(|DocumentBytes(body)|), body)
  }

  function MemberEntries(env: Env, f: Field, i: nat, s: Slot): List<Entry>
    requires Fits(env, f.kind, s)
    decreases s, 0
  {
    var tag := Minimal(Tag(f));
    match f.kind
    case Int(k) => Cons(IntE(i, tag, Minimal(Varint.Raw(k, s.n))), Nil)
    case Fixed(w) => Cons(FixedE(i, tag, PutLE(s.bits, w)), Nil)
    case Bytes => if s.bytes == [] then Nil else Cons(BytesE(i, tag, Minimal(|s.bytes|), s.bytes), Nil)
    case Packed(k) =>
      var nums := MinimalAll(k, s.ns);
      if s.ns.Nil? then Nil else Cons(IntsE(i, tag, Minimal(|Flat(nums)|), nums), Nil)
    case Sub(name) => Cons(SubEntry(f, i, Entries(env, Members(env, name), s.slots, 0)), Nil)
    case Subs(name) => ElementEntries(env, f, i, s.elements)
  }

  function ElementEntries(env: Env, f: Field, i: nat, es: List<Slot>): List<Entry>
    requires f.kind.Subs? && FitsElements(env, f.kind.name, es)
    decreases es, 0
  {
    if es.Nil? then Nil
    else Cons(SubEntry(f, i, Entries(env, Members(env, f.kind.name), es.head.slots, 0)),
              ElementEntries(env, f, i, es.tail))
  }

  function Entries(env: Env, fields: seq<Field>, slots: seq<Slot>, i: nat): List<Entry>
    requires FitsAll(env, fields, slots) && i <= |slots|
    decreases slots, 1, |slots| - i
  {
    if i == |slots| then Nil
    else Concat(MemberEntries(env, fields[i], i, slots[i]), Entries(env, fields, slots, i + 1))
  }

  /** What the writer can write: bodies shorter than 2^56 bytes, messages within its nesting limit. */
  predicate Writable(e: Entry, depth: nat, limit: Limit)
    decreases e
  {
    e.SubE? ==>
      && (limit.AtMost? ==> depth < limit.n)
      && |DocumentBytes(e.body)| < Pow2(Varint.PREFIX_BITS)
      && WritableAll(e.body, depth + 1, limit)
  }

  predicate WritableAll(es: List<Entry>, depth: nat, limit: Limit)
    decreases es
  {
    es.Cons? ==> Writable(es.head, depth, limit) && WritableAll(es.tail, depth, limit)
  }

  // ----- The archive writes the document -----

  lemma {:induction false} MinimalSpelled(w: nat, v: nat)
    requires v < Pow2(w)
    ensures Spelled(w, Minimal(v))
  {
    Varint.RoundTrip(w, v, []);
    assert Varint.Encode(v) + [] == Varint.Encode(v);
  }

  /** The announced length of a packed field is exactly the number of bytes that follow. */
  lemma {:induction false} PackedSizeExact(k: Varint.IntKind, ns: List<int>)
    requires k.Valid() && AllHold(k, ns)
    ensures PackedSize(k, ns) == |Flat(MinimalAll(k, ns))| && (PackedSize(k, ns) == 0 <==> ns.Nil?)
    ensures ImageAll(PackedItems(k, ns)) == Flat(MinimalAll(k, ns)) && AllSpelled(k.width, MinimalAll(k, ns))
  {
    if ns.Cons? {
      var v := Varint.Raw(k, ns.head);
      Varint.SizeIsEncodedLength(v);
      MinimalSpelled(k.width, v);
      PackedSizeExact(k, ns.tail);
    }
  }

  lemma {:induction false} PackedWords(k: Varint.IntKind, ns: List<int>, depth: nat, limit: Limit)
    requires k.Valid() && AllHold(k, ns)
    ensures EncodableAll(PackedItems(k, ns), depth, limit) && WordsAll(PackedItems(k, ns))
  {
    if ns.Cons? {
      Pow2Mono(k.width, Varint.SIZE_BITS);
      PackedWords(k, ns.tail, depth, limit);
    }
  }

  /**
   * The items are written as the document: the same bytes, taken by the archive exactly when the
   * document is writable, and every length in it is then announced as it is.
   */
  predicate Spells(items: List<Item>, es: List<Entry>, depth: nat, limit: Limit) {
    && ImageAll(items) == DocumentBytes(es)
    && (WordsAll(items) ==> (EncodableAll(items, depth, limit) <==> WritableAll(es, depth, limit)))
    && (WordsAll(items) && WritableAll(es, depth, limit) ==> FramedAll(es))
  }

  lemma {:induction false} ConcatSpells(items: List<Item>, more: List<Item>, es: List<Entry>, rest: List<Entry>,
                                        depth: nat, limit: Limit)
    requires Spells(items, es, depth, limit) && Spells(more, rest, depth, limit)
    ensures Spells(Concat(items, more), Concat(es, rest), depth, limit)
  {
    ConcatItems(items, more, depth, limit);
    ConcatDocument(es, rest, depth, limit);
  }

  lemma {:induction false} ConcatItems(a: List<Item>, b: List<Item>, depth: nat, limit: Limit)
    ensures ImageAll(Concat(a, b)) == ImageAll(a) + ImageAll(b)
    ensures WordsAll(Concat(a, b)) <==> WordsAll(a) && WordsAll(b)
    ensures EncodableAll(Concat(a, b), depth, limit) <==> EncodableAll(a, depth, limit) && EncodableAll(b, depth, limit)
    decreases a
  {
    if a.Cons? {
      ConcatItems(a.tail, b, depth, limit);
      Assoc(Image(a.head), ImageAll(a.tail), ImageAll(b));
    }
  }

  lemma {:induction false} ConcatDocument(a: List<Entry>, b: List<Entry>, depth: nat, limit: Limit)
    ensures DocumentBytes(Concat(a, b)) == DocumentBytes(a) + DocumentBytes(b)
    ensures FramedAll(Concat(a, b)) <==> FramedAll(a) && FramedAll(b)
    ensures WritableAll(Concat(a, b), depth, limit) <==> WritableAll(a, depth, limit) && WritableAll(b, depth, limit)
    decreases a
  {
    if a.Cons? {
      ConcatDocument(a.tail, b, depth, limit);
      Assoc(EntryBytes(a.head), DocumentBytes(a.tail), DocumentBytes(b));
    }
  }

  lemma {:induction false} TagBound(f: Field)
    requires f.number < NUMBER_RANGE
    ensures Tag(f) < Pow2(TAG_BITS) <= Pow2(Varint.SIZE_BITS)
  {
    Eight(0);
    Eight(8);
    Eight(16);
    Eight(24);
    Pow2Mono(TAG_BITS, Varint.SIZE_BITS);
  }

  /** One tag, and what the archive is given behind it. */
  lemma {:induction false} EntrySpelled(f: Field, content: List<Item>, e: Entry, depth: nat, limit: Limit)
    requires f.number < NUMBER_RANGE && e.tag == Minimal(Tag(f)) && ImageAll(content) == Content(e)
    requires WordsAll(content) ==> (EncodableAll(content, depth, limit) <==> Writable(e, depth, limit))
    requires WordsAll(content) && Writable(e, depth, limit) ==> Framed(e)
    ensures Spells(Cons(Number(Tag(f), TAG_BITS), content), Cons(e, Nil), depth, limit)
  {
    TagBound(f);
    assert DocumentBytes(Cons(e, Nil)) == EntryBytes(e) + DocumentBytes(Nil);
  }

  lemma {:induction false} MessageSpelled(env: Env, fields: seq<Field>, slots: seq<Slot>, i: nat, depth: nat,
                                          limit: Limit)
    requires FieldsOk(env, fields) && EnvOk(env) && FitsAll(env, fields, slots) && i <= |slots|
    ensures Spells(Items(env, fields, slots, i), Entries(env, fields, slots, i), depth, limit)
    decreases slots, 1, |slots| - i
  {
    if i < |slots| {
      MemberSpelled(env, fields[i], i, slots[i], depth, limit);
      MessageSpelled(env, fields, slots, i + 1, depth, limit);
      ConcatSpells(MemberItems(env, fields[i], slots[i]), Items(env, fields, slots, i + 1),
                   MemberEntries(env, fields[i], i, slots[i]), Entries(env, fields, slots, i + 1), depth, limit);
    }
  }

  lemma {:induction false} MemberSpelled(env: Env, f: Field, i: nat, s: Slot, depth: nat, limit: Limit)
    requires EnvOk(env) && f.number < NUMBER_RANGE && Fits(env, f.kind, s)
    ensures Spells(MemberItems(env, f, s), MemberEntries(env, f, i, s), depth, limit)
    decreases s, 0
  {
    match f.kind
    case Sub(name) =>
      MessageSpelled(env, Members(env, name), s.slots, 0, depth + 1, limit);
      SubSpelled(f, i, Items(env, Members(env, name), s.slots, 0), Entries(env, Members(env, name), s.slots, 0),
                 depth, limit);
    case Subs(_) => ElementsSpelled(env, f, i, s.elements, depth, limit);
    case _ => PlainSpelled(env, f, i, s, depth, limit);
  }

  lemma {:induction false} PlainSpelled(env: Env, f: Field, i: nat, s: Slot, depth: nat, limit: Limit)
    requires f.number < NUMBER_RANGE && Fits(env, f.kind, s) && !f.kind.Sub? && !f.kind.Subs?
    ensures Spells(MemberItems(env, f, s), MemberEntries(env, f, i, s), depth, limit)
  {
    var tag := Minimal(Tag(f));
    match f.kind
    case Int(k) =>
      var v := Varint.Raw(k, s.n);
      Pow2Mono(k.width, Varint.SIZE_BITS);
      assert ImageAll(Cons(Number(v, k.width), Nil)) == Varint.Encode(v) + ImageAll(Nil);
      EntrySpelled(f, Cons(Number(v, k.width), Nil), IntE(i, tag, Minimal(v)), depth, limit);
    case Fixed(w) =>
      var bytes := PutLE(s.bits, w);
      assert ImageAll(Cons(OutArchive.Raw(bytes), Nil)) == bytes + ImageAll(Nil);
      EntrySpelled(f, Cons(OutArchive.Raw(bytes), Nil), FixedE(i, tag, bytes), depth, limit);
    case Bytes => if s.bytes != [] { BytesSpelled(f, i, s.bytes, depth, limit); }
    case Packed(k) => PackedSpelled(f, i, k, s.ns, depth, limit);
  }

  lemma {:induction false} BytesSpelled(f: Field, i: nat, bytes: seq<byte>, depth: nat, limit: Limit)
    requires f.number < NUMBER_RANGE
    ensures Spells(Cons(Number(Tag(f), TAG_BITS),
                        Cons(Number(|bytes|, Varint.SIZE_BITS), Cons(OutArchive.Raw(bytes), Nil))),
                   Cons(BytesE(i, Minimal(Tag(f)), Minimal(|bytes|), bytes), Nil), depth, limit)
  {
    var e, raw := BytesE(i, Minimal(Tag(f)), Minimal(|bytes|), bytes), OutArchive.Raw(bytes);
    OneItem(raw, depth, limit);
    if |bytes| < Pow2(Varint.SIZE_BITS) { MinimalSpelled(Varint.SIZE_BITS, |bytes|); }
    LengthSpelled(f, |bytes|, Cons(raw, Nil), e, depth, limit);
  }

  lemma {:induction false} PackedSpelled(f: Field, i: nat, k: Varint.IntKind, ns: List<int>, depth: nat, limit: Limit)
    requires f.number < NUMBER_RANGE && k.Valid() && AllHold(k, ns)
    ensures var size, nums := PackedSize(k, ns), MinimalAll(k, ns);
            if size == 0 then ns.Nil? else
            ns.Cons? && Spells(Cons(Number(Tag(f), TAG_BITS), Cons(Number(size, Varint.SIZE_BITS), PackedItems(k, ns))),
                               Cons(IntsE(i, Minimal(Tag(f)), Minimal(|Flat(nums)|), nums), Nil), depth, limit)
  {
    PackedSizeExact(k, ns);
    PackedWords(k, ns, depth, limit);
    var size := PackedSize(k, ns);
    if size < Pow2(Varint.SIZE_BITS) { MinimalSpelled(Varint.SIZE_BITS, size); }
    var e := IntsE(i, Minimal(Tag(f)), Minimal(size), MinimalAll(k, ns));
    LengthSpelled(f, size, PackedItems(k, ns), e, depth, limit);
  }

  /** One tag, a length, and items that do not nest. */
  lemma {:induction false} LengthSpelled(f: Field, size: nat, more: List<Item>, e: Entry, depth: nat, limit: Limit)
    requires f.number < NUMBER_RANGE && e.tag == Minimal(Tag(f)) && !e.SubE? && EncodableAll(more, depth, limit)
    requires Content(e) == Varint.Encode(size) + ImageAll(more) && (size < Pow2(Varint.SIZE_BITS) ==> Framed(e))
    ensures Spells(Cons(Number(Tag(f), TAG_BITS), Cons(Number(size, Varint.SIZE_BITS), more)), Cons(e, Nil), depth,
                   limit)
  {
    assert WordsAll(Cons(Number(size, Varint.SIZE_BITS), more)) ==> Words(Number(size, Varint.SIZE_BITS));
    EntrySpelled(f, Cons(Number(size, Varint.SIZE_BITS), more), e, depth, limit);
  }

  lemma {:induction false} OneItem(item: Item, depth: nat, limit: Limit)
    ensures ImageAll(Cons(item, Nil)) == Image(item)
    ensures EncodableAll(Cons(item, Nil), depth, limit) <==> Encodable(item, depth, limit)
    ensures WordsAll(Cons(item, Nil)) <==> Words(item)
  {
    assert ImageAll(Cons(item, Nil)) == Image(item) + ImageAll(Nil);
    assert EncodableAll(Nil, depth, limit) && WordsAll(Nil);
  }

  lemma {:induction false} SubSpelled(f: Field, i: nat, items: List<Item>, body: List<Entry>, depth: nat, limit: Limit)
    requires f.number < NUMBER_RANGE && Spells(items, body, depth + 1, limit)
    ensures Spells(Cons(Number(Tag(f), TAG_BITS), Cons(Message(items), Nil)), Cons(SubEntry(f, i, body), Nil), depth,
                   limit)
  {
    var e, content := SubEntry(f, i, body), Cons(Message(items), Nil);
    BodyImage(f, i, items, body);
    BodyEncodable(f, i, items, body, depth, limit);
    EntrySpelled(f, content, e, depth, limit);
  }

  lemma {:induction false} BodyImage(f: Field, i: nat, items: List<Item>, body: List<Entry>)
    requires ImageAll(items) == DocumentBytes(body)
    ensures ImageAll(Cons(Message(items), Nil)) == Content(SubEntry(f, i, body))
  {
    assert ImageAll(Cons(Message(items), Nil)) == Image(Message(items)) + ImageAll(Nil);
  }

  lemma {:induction false} BodyEncodable(f: Field, i: nat, items: List<Item>, body: List<Entry>, depth: nat,
                                         limit: Limit)
    requires Spells(items, body, depth + 1, limit)
    ensures var e, content := SubEntry(f, i, body), Cons(Message(items), Nil);
            && (WordsAll(content) ==> (EncodableAll(content, depth, limit) <==> Writable(e, depth, limit)))
            && (WordsAll(content) && Writable(e, depth, limit) ==> Framed(e))
  {
    OneItem(Message(items), depth, limit);
    if |DocumentBytes(body)| < Pow2(Varint.PREFIX_BITS) {
      Pow2Mono(Varint.PREFIX_BITS, Varint.SIZE_BITS);
      MinimalSpelled(Varint.SIZE_BITS, |DocumentBytes(body)|);
    }
  }

  lemma {:induction false} ElementsSpelled(env: Env, f: Field, i: nat, es: List<Slot>, depth: nat, limit: Limit)
    requires EnvOk(env) && f.number < NUMBER_RANGE && f.kind.Subs? && FitsElements(env, f.kind.name, es)
    ensures Spells(ElementItems(env, f, es), ElementEntries(env, f, i, es), depth, limit)
    decreases es, 0
  {
    if es.Cons? {
      var sub := Members(env, f.kind.name);
      var items, body := Items(env, sub, es.head.slots, 0), Entries(env, sub, es.head.slots, 0);
      MessageSpelled(env, sub, es.head.slots, 0, depth + 1, limit);
      SubSpelled(f, i, items, body, depth, limit);
      ElementsSpelled(env, f, i, es.tail, depth, limit);
      ElementAhead(f, i, items, ElementItems(env, f, es.tail), body, ElementEntries(env, f, i, es.tail), depth, limit);
    }
  }

  lemma {:induction false} ElementAhead(f: Field, i: nat, items: List<Item>, more: List<Item>, body: List<Entry>,
                                        rest: List<Entry>, depth: nat, limit: Limit)
    requires Spells(Cons(Number(Tag(f), TAG_BITS), Cons(Message(items), Nil)), Cons(SubEntry(f, i, body), Nil), depth,
                    limit)
    requires Spells(more, rest, depth, limit)
    ensures Spells(Cons(Number(Tag(f), TAG_BITS), Cons(Message(items), more)), Cons(SubEntry(f, i, body), rest),
                   depth, limit)
  {
    var pair, one := Cons(Number(Tag(f), TAG_BITS), Cons(Message(items), Nil)), Cons(SubEntry(f, i, body), Nil);
    ConcatSpells(pair, more, one, rest, depth, limit);
    assert Concat(pair.tail, more) == Cons(Message(items), more);
    assert Concat(one, rest) == Cons(SubEntry(f, i, body), rest);
  }

  // ----- The document is one of the message's type -----

  /** The entries are the message's own: declared, well formed, and none of them undeclared. */
  predicate Own(env: Env, fields: seq<Field>, es: List<Entry>) { ShapedAll(env, fields, es) && Strip(es) == es }

  lemma {:induction false} ConcatOwn(env: Env, fields: seq<Field>, a: List<Entry>, b: List<Entry>)
    requires Own(env, fields, a) && Own(env, fields, b)
    ensures Own(env, fields, Concat(a, b))
    decreases a
  {
    if a.Cons? {
      OwnTail(env, fields, a);
      ConcatOwn(env, fields, a.tail, b);
    }
  }

  lemma {:induction false} OwnTail(env: Env, fields: seq<Field>, es: List<Entry>)
    requires es.Cons?
    ensures Own(env, fields, es) <==> Shaped(env, fields, es.head) && Stripped(es.head) && Own(env, fields, es.tail)
  {
    if es.head.Extra? && Strip(es.tail) == es { StripShorter(es.tail); }
  }

  predicate Stripped(e: Entry) { !e.Extra? && (e.SubE? ==> Strip(e.body) == e.body) }

  lemma {:induction false} StripShorter(es: List<Entry>)
    ensures Len(Strip(es)) <= Len(es)
  {
    if es.Cons? { StripShorter(es.tail); }
  }

  lemma {:induction false} IndexFound(fields: seq<Field>, i: nat, from: nat)
    requires from <= i < |fields| && forall a, b :: 0 <= a < b < |fields| ==> fields[a].number != fields[b].number
    ensures IndexFrom(fields, fields[i].number, from) == i
    decreases i - from
  {
    if from < i { IndexFound(fields, i, from + 1); }
  }

  /** The tag a member is written with leads back to the member. */
  lemma {:induction false} TagFound(env: Env, fields: seq<Field>, i: nat)
    requires FieldsOk(env, fields) && i < |fields|
    ensures TagFits(fields, i, Minimal(Tag(fields[i])))
  {
    var tag := Tag(fields[i]);
    TagBound(fields[i]);
    MinimalSpelled(TAG_BITS, tag);
    TagParts(fields[i]);
    IndexFound(fields, i, 0);
  }

  lemma {:induction false} TagParts(f: Field)
    ensures Tag(f) / 8 == f.number && Tag(f) % 8 == WireType(f.kind)
  {
  }

  lemma {:induction false} OneOwn(env: Env, fields: seq<Field>, e: Entry)
    requires Shaped(env, fields, e) && Stripped(e)
    ensures Own(env, fields, Cons(e, Nil))
  {
    assert Strip(Cons(e, Nil)) == Cons(e, Nil);
  }

  lemma {:induction false} MessageOwn(env: Env, fields: seq<Field>, slots: seq<Slot>, i: nat)
    requires FieldsOk(env, fields) && EnvOk(env) && FitsAll(env, fields, slots) && i <= |slots|
    ensures Own(env, fields, Entries(env, fields, slots, i))
    decreases slots, 1, |slots| - i
  {
    if i < |slots| {
      MemberOwn(env, fields, i, slots[i]);
      MessageOwn(env, fields, slots, i + 1);
      ConcatOwn(env, fields, MemberEntries(env, fields[i], i, slots[i]), Entries(env, fields, slots, i + 1));
    }
  }

  lemma {:induction false} MemberOwn(env: Env, fields: seq<Field>, i: nat, s: Slot)
    requires FieldsOk(env, fields) && EnvOk(env) && i < |fields| && Fits(env, fields[i].kind, s)
    ensures Own(env, fields, MemberEntries(env, fields[i], i, s))
    decreases s, 0
  {
    TagFound(env, fields, i);
    var es := MemberEntries(env, fields[i], i, s);
    match fields[i].kind
    case Int(k) =>
      MinimalSpelled(k.width, Varint.Raw(k, s.n));
      OneOwn(env, fields, es.head);
    case Fixed(_) => OneOwn(env, fields, es.head);
    case Bytes => if es.Cons? { OneOwn(env, fields, es.head); }
    case Packed(k) =>
      PackedSizeExact(k, s.ns);
      if es.Cons? { OneOwn(env, fields, es.head); }
    case Sub(name) =>
      MessageOwn(env, Members(env, name), s.slots, 0);
      OneOwn(env, fields, es.head);
    case Subs(_) => ElementsOwn(env, fields, i, s.elements);
  }

  lemma {:induction false} ElementsOwn(env: Env, fields: seq<Field>, i: nat, es: List<Slot>)
    requires FieldsOk(env, fields) && EnvOk(env) && i < |fields| && fields[i].kind.Subs?
    requires FitsElements(env, fields[i].kind.name, es)
    ensures Own(env, fields, ElementEntries(env, fields[i], i, es))
    decreases es, 0
  {
    if es.Cons? {
      TagFound(env, fields, i);
      var sub := Members(env, fields[i].kind.name);
      MessageOwn(env, sub, es.head.slots, 0);
      ElementsOwn(env, fields, i, es.tail);
      ElementOwn(env, fields, i, Entries(env, sub, es.head.slots, 0), ElementEntries(env, fields[i], i, es.tail));
    }
  }

  lemma {:induction false} ElementOwn(env: Env, fields: seq<Field>, i: nat, body: List<Entry>, rest: List<Entry>)
    requires i < |fields| && fields[i].kind.Subs? && TagFits(fields, i, Minimal(Tag(fields[i])))
    requires Own(env, Members(env, fields[i].kind.name), body) && Own(env, fields, rest)
    ensures Own(env, fields, Cons(SubEntry(fields[i], i, body), rest))
  {
    var e := SubEntry(fields[i], i, body);
    assert OfKind(env, fields[i].kind, e);
    assert Shaped(env, fields, e) && Stripped(e);
    OwnTail(env, fields, Cons(e, rest));
  }

  // ----- The document means the message -----

  lemma {:induction false} ConcatApply(env: Env, fields: seq<Field>, slots: seq<Slot>, a: List<Entry>, b: List<Entry>)
    requires ShapedAll(env, fields, a) && ShapedAll(env, fields, b) && |slots| == |fields|
    ensures ShapedAll(env, fields, Concat(a, b))
    ensures Apply(env, fields, slots, Concat(a, b)) == Apply(env, fields, Apply(env, fields, slots, a), b)
    decreases a
  {
    if a.Cons? { ConcatApply(env, fields, After(env, fields, slots, a.head), a.tail, b); }
  }

  /** Members from i on are as clearing leaves them. */
  predicate Ready(fields: seq<Field>, slots: seq<Slot>, i: nat) {
    |slots| == |fields| && forall j :: i <= j < |fields| && Container(fields[j].kind) ==>
        slots[j] == Empty(fields[j].kind)
  }

  lemma {:induction false} Splice(into: seq<Slot>, slots: seq<Slot>, i: nat)
    requires i <= |slots| == |into|
    ensures i == |slots| ==> into[..i] + slots[i..] == into
    ensures i < |slots| ==> into[i := slots[i]][..i + 1] + slots[i + 1..] == into[..i] + slots[i..]
  {
  }

  lemma {:induction false} NumbersBack(k: Varint.IntKind, ns: List<int>)
    requires k.Valid() && AllHold(k, ns)
    ensures Numbers(k, MinimalAll(k, ns)) == ns
  {
    if ns.Cons? {
      Varint.RawInverse(k, ns.head);
      NumbersBack(k, ns.tail);
    }
  }

  /** The message's own document, read into any cleared message, gives the message. */
  lemma {:induction false} EntriesMeaning(env: Env, fields: seq<Field>, into: seq<Slot>, slots: seq<Slot>, i: nat)
    requires FieldsOk(env, fields) && EnvOk(env) && FitsAll(env, fields, slots) && i <= |slots|
             && Ready(fields, into, i)
    ensures ShapedAll(env, fields, Entries(env, fields, slots, i))
    ensures Apply(env, fields, into, Entries(env, fields, slots, i)) == into[..i] + slots[i..]
    decreases slots, 1, |slots| - i
  {
    Splice(into, slots, i);
    if i < |slots| {
      MemberMeaning(env, fields, into, i, slots[i]);
      EntriesMeaning(env, fields, into[i := slots[i]], slots, i + 1);
      ConcatApply(env, fields, into, MemberEntries(env, fields[i], i, slots[i]), Entries(env, fields, slots, i + 1));
    }
  }

  lemma {:induction false} OneApply(env: Env, fields: seq<Field>, into: seq<Slot>, e: Entry, v: Slot)
    requires !e.Extra? && Shaped(env, fields, e) && |into| == |fields|
    requires Meaning(env, fields[e.i].kind, into[e.i], e) == v
    ensures ShapedAll(env, fields, Cons(e, Nil)) && Apply(env, fields, into, Cons(e, Nil)) == into[e.i := v]
  {
    assert Apply(env, fields, into[e.i := v], Nil) == into[e.i := v];
  }

  lemma {:induction false} MemberMeaning(env: Env, fields: seq<Field>, into: seq<Slot>, i: nat, s: Slot)
    requires FieldsOk(env, fields) && EnvOk(env) && i < |fields| && Fits(env, fields[i].kind, s)
             && Ready(fields, into, i)
    ensures ShapedAll(env, fields, MemberEntries(env, fields[i], i, s))
    ensures Apply(env, fields, into, MemberEntries(env, fields[i], i, s)) == into[i := s]
    decreases s, 0
  {
    MemberOwn(env, fields, i, s);
    var f, es := fields[i], MemberEntries(env, fields[i], i, s);
    if f.kind.Subs? {
      ElementMeaning(env, fields, into, i, Nil, s.elements);
    } else if es.Nil? {
      assert into[i := s] == into;
    } else {
      var e := es.head;
      assert Shaped(env, fields, e) && es == Cons(e, Nil) && e.i == i;
      if f.kind.Sub? {
        var sub := Members(env, f.kind.name);
        WholeMeaning(env, sub, OldSlots(into[i], |sub|), s.slots);
        SubMeaning(env, f.kind, e, into[i], s);
      } else {
        PlainMeaning(env, f, i, into[i], s);
      }
      OneApply(env, fields, into, e, s);
    }
  }

  /** A whole message read over anything. */
  lemma {:induction false} WholeMeaning(env: Env, fields: seq<Field>, into: seq<Slot>, slots: seq<Slot>)
    requires FieldsOk(env, fields) && EnvOk(env) && FitsAll(env, fields, slots) && |into| == |fields|
    ensures var body := Entries(env, fields, slots, 0);
            ShapedAll(env, fields, body) && Apply(env, fields, Cleared(fields, into), body) == slots
    decreases slots, 2
  {
    var cleared := Cleared(fields, into);
    EntriesMeaning(env, fields, cleared, slots, 0);
    assert cleared[..0] + slots[0..] == slots;
  }

  lemma {:induction false} PlainMeaning(env: Env, f: Field, i: nat, prior: Slot, s: Slot)
    requires Fits(env, f.kind, s) && !f.kind.Sub? && !f.kind.Subs? && MemberEntries(env, f, i, s).Cons?
    requires OfKind(env, f.kind, MemberEntries(env, f, i, s).head) && (Container(f.kind) ==> prior == Empty(f.kind))
    ensures Meaning(env, f.kind, prior, MemberEntries(env, f, i, s).head) == s
  {
    match f.kind
    case Int(k) => Varint.RawInverse(k, s.n);
    case Fixed(w) => LERoundTrip(PutLE(s.bits, w), 0, s.bits, w);
    case Bytes =>
    case Packed(k) => NumbersBack(k, s.ns);
  }

  lemma {:induction false} SubMeaning(env: Env, k: Kind, e: Entry, prior: Slot, s: Slot)
    requires k.Sub? && s.SubV? && e.SubE? && ShapedAll(env, Members(env, k.name), e.body)
    requires var sub := Members(env, k.name); Apply(env, sub, Cleared(sub, OldSlots(prior, |sub|)), e.body) == s.slots
    ensures OfKind(env, k, e) && Meaning(env, k, prior, e) == s
  {
  }

  lemma {:induction false} ElementMeaning(env: Env, fields: seq<Field>, into: seq<Slot>, i: nat,
                                          done: List<Slot>, es: List<Slot>)
    requires FieldsOk(env, fields) && EnvOk(env) && |into| == |fields| && i < |fields| && fields[i].kind.Subs?
    requires FitsElements(env, fields[i].kind.name, es) && into[i] == SubsV(done)
    ensures ShapedAll(env, fields, ElementEntries(env, fields[i], i, es))
    ensures Apply(env, fields, into, ElementEntries(env, fields[i], i, es)) == into[i := SubsV(Concat(done, es))]
    decreases es, 0
  {
    ElementsOwn(env, fields, i, es);
    if es.Nil? {
      ConcatNil(done);
      assert into[i := SubsV(done)] == into;
    } else {
      var sub, next := Members(env, fields[i].kind.name), Snoc(done, es.head);
      var e := ElementEntries(env, fields[i], i, es).head;
      WholeMeaning(env, sub, Fresh(|sub|), es.head.slots);
      ElementStep(env, fields[i].kind, e, done, es.head);
      ElementMeaning(env, fields, into[i := SubsV(next)], i, next, es.tail);
      ConcatSnoc(done, es.head, es.tail);
      ElementApply(env, fields, into, e, next, ElementEntries(env, fields[i], i, es.tail), Concat(next, es.tail));
    }
  }

  lemma {:induction false} ElementApply(env: Env, fields: seq<Field>, into: seq<Slot>, e: Entry, next: List<Slot>,
                                        rest: List<Entry>, all: List<Slot>)
    requires e.SubE? && Shaped(env, fields, e) && ShapedAll(env, fields, rest) && |into| == |fields|
    requires Meaning(env, fields[e.i].kind, into[e.i], e) == SubsV(next)
    requires Apply(env, fields, into[e.i := SubsV(next)], rest) == into[e.i := SubsV(next)][e.i := SubsV(all)]
    ensures Apply(env, fields, into, Cons(e, rest)) == into[e.i := SubsV(all)]
  {
    assert into[e.i := SubsV(next)][e.i := SubsV(all)] == into[e.i := SubsV(all)];
  }

  lemma {:induction false} ElementStep(env: Env, k: Kind, e: Entry, done: List<Slot>, s: Slot)
    requires k.Subs? && s.SubV? && e.SubE? && ShapedAll(env, Members(env, k.name), e.body)
    requires var sub := Members(env, k.name); Apply(env, sub, Cleared(sub, Fresh(|sub|)), e.body) == s.slots
    ensures OfKind(env, k, e) && Meaning(env, k, SubsV(done), e) == SubsV(Snoc(done, s))
  {
  }

  // ----- Main results -----

  /** A document that is the message's own but for undeclared fields means the message. */
  lemma {:induction false} DocumentMeaning(env: Env, fields: seq<Field>, m: seq<Slot>, es: List<Entry>, into: seq<Slot>)
    requires EnvOk(env) && FieldsOk(env, fields) && FitsAll(env, fields, m) && |into| == |fields|
    requires ShapedAll(env, fields, es) && Strip(es) == Entries(env, fields, m, 0)
    ensures Apply(env, fields, Cleared(fields, into), es) == m
  {
    StripKeepsMeaning(env, fields, Cleared(fields, into), es);
    EntriesMeaning(env, fields, Cleared(fields, into), m, 0);
    assert Cleared(fields, into)[..0] + m[0..] == m;
  }

  /** Such a document decodes to the message exactly when it is within the limits, whatever the receiver held before. */
  lemma {:induction false} UndeclaredFieldsIgnored(env: Env, fields: seq<Field>, m: seq<Slot>, es: List<Entry>,
                                                   into: seq<Slot>, lim: Limits, d: nat)
    requires EnvOk(env) && FieldsOk(env, fields) && FitsAll(env, fields, m) && |into| == |fields|
    requires ShapedAll(env, fields, es) && FramedAll(es) && Strip(es) == Entries(env, fields, m, 0)
    requires |DocumentBytes(es)| < Pow2(Varint.SIZE_BITS)
    ensures var r := Decode(env, fields, DocumentBytes(es), into, lim, d);
            if WithinAll(es, lim, d) then r == Ok(m, |DocumentBytes(es)|) else r.Fail?
  {
    var data := DocumentBytes(es);
    DocumentMeaning(env, fields, m, es, into);
    if WithinAll(es, lim, d) {
      DocumentRead(env, fields, es, data, 0, 0, |data|, Cleared(fields, into), lim, d);
    } else {
      DocumentRejected(env, fields, es, data, 0, 0, |data|, Cleared(fields, into), lim, d);
    }
  }

  /**
   * What the calls on the archive spell at one depth decodes to the message at another, exactly within the
   * reader's limits.
   */
  lemma {:induction false} RoundTrip(env: Env, fields: seq<Field>, m: seq<Slot>, depth: nat, limit: Limit,
                                     into: seq<Slot>, lim: Limits, d: nat)
    requires EnvOk(env) && FieldsOk(env, fields) && FitsAll(env, fields, m) && |into| == |fields|
    requires WordsAll(Items(env, fields, m, 0)) && WritableAll(Entries(env, fields, m, 0), depth, limit)
    requires |ImageAll(Items(env, fields, m, 0))| < Pow2(Varint.SIZE_BITS)
    ensures var data := ImageAll(Items(env, fields, m, 0));
            var r := Decode(env, fields, data, into, lim, d);
            if WithinAll(Entries(env, fields, m, 0), lim, d) then r == Ok(m, |data|) else r.Fail?
  {
    MessageSpelled(env, fields, m, 0, depth, limit);
    MessageOwn(env, fields, m, 0);
    UndeclaredFieldsIgnored(env, fields, m, Entries(env, fields, m, 0), into, lim, d);
  }

  /**
   * The fields of a message through the archive and back, each archive at the depth its messages have reached.
   * Whether they are written depends on the nested messages and on the room, and what is written reads back as
   * the message unless it is beyond the reader's limits.
   */
  method WriteAndRead(env: Env, fields: seq<Field>, m: seq<Slot>, buffer: seq<byte>, depth: nat, resizable: bool,
                      alloc: Limit, nesting: Limit, into: seq<Slot>, lim: Limits, d: nat)
    returns (data: seq<byte>, r: Option<Read<seq<Slot>>>)
    requires EnvOk(env) && FieldsOk(env, fields) && FitsAll(env, fields, m) && |into| == |fields|
    requires WordsAll(Items(env, fields, m, 0)) && |buffer| < Pow2(Varint.SIZE_BITS)
    ensures var es := Entries(env, fields, m, 0);
            && (r.Some? ==> WritableAll(es, depth, nesting) && data == DocumentBytes(es))
            && (!resizable ==> (r.Some? <==> WritableAll(es, depth, nesting) && |DocumentBytes(es)| <= |buffer|))
            && (resizable && alloc.Unlimited? && Roomy(0, |DocumentBytes(es)|) ==>
                  (r.Some? <==> WritableAll(es, depth, nesting)))
            && (r.Some? ==> if WithinAll(es, lim, d) then r.value == Ok(m, |data|) else r.value.Fail?)
  {
    var items := Items(env, fields, m, 0);
    MessageSpelled(env, fields, m, 0, depth, nesting);
    var out := new Out(buffer, depth, resizable, alloc, nesting);
    var ok := out.SerializeAll(items);
    data := out.data[..out.position];
    if !ok { return data, None; }
    RoundTrip(env, fields, m, depth, nesting, into, lim, d);
    r := Some(Decode(env, fields, data, into, lim, d));
  }

  // ----- Whole messages behind their length -----

  /** A message in front of which its length stands, which is one level of nesting for either archive. */
  predicate WritableWhole(es: List<Entry>, depth: nat, limit: Limit) {
    && (limit.AtMost? ==> depth < limit.n)
    && |DocumentBytes(es)| < Pow2(Varint.PREFIX_BITS)
    && WritableAll(es, depth + 1, limit)
  }

  function WholeBytes(es: List<Entry>): seq<byte> { Varint.Encode(|DocumentBytes(es)|) + DocumentBytes(es) }

  lemma {:induction false} WholeSpelled(items: List<Item>, es: List<Entry>, depth: nat, limit: Limit)
    requires Spells(items, es, depth + 1, limit) && WordsAll(items)
    ensures Image(Message(items)) == WholeBytes(es) && Words(Message(items))
    ensures Encodable(Message(items), depth, limit) <==> WritableWhole(es, depth, limit)
  {
  }

  /** A document behind its length. */
  lemma {:induction false} WholeRead(env: Env, name: string, es: List<Entry>, data: seq<byte>, into: seq<Slot>,
                                     lim: Limits, d: nat)
    requires |into| == |Members(env, name)| && ShapedAll(env, Members(env, name), es) && FramedAll(es)
    requires |DocumentBytes(es)| < Pow2(Varint.SIZE_BITS) && data == WholeBytes(es)
    ensures var sub, r := Members(env, name), DecodeSub(env, name, into, data, 0, |data|, lim, d);
            if d < lim.nesting && WithinAll(es, lim, d + 1)
            then r == Ok(Apply(env, sub, Cleared(sub, into), es), |data|)
            else r.Fail?
  {
    var length := Minimal(|DocumentBytes(es)|);
    MinimalSpelled(Varint.SIZE_BITS, length.value);
    AtSplit(data, 0, length.bytes, DocumentBytes(es));
    if d < lim.nesting && WithinAll(es, lim, d + 1) {
      SubRead(env, name, length, es, into, data, 0, |data|, |data|, lim, d);
    } else {
      SubRejected(env, name, length, es, into, data, 0, |data|, lim, d);
    }
  }

  /** The document of a writable message, behind its length, decodes to the message exactly within the limits. */
  lemma {:induction false} WholeTrip(env: Env, name: string, m: seq<Slot>, es: List<Entry>, depth: nat, limit: Limit,
                                     into: seq<Slot>, lim: Limits, d: nat)
    requires EnvOk(env) && FitsAll(env, Members(env, name), m) && |into| == |m|
    requires es == Entries(env, Members(env, name), m, 0) && WordsAll(Items(env, Members(env, name), m, 0))
    requires WritableWhole(es, depth, limit)
    ensures var data := WholeBytes(es);
            var r := DecodeSub(env, name, into, data, 0, |data|, lim, d);
            if d < lim.nesting && WithinAll(es, lim, d + 1) then r == Ok(m, |data|) else r.Fail?
  {
    var sub := Members(env, name);
    MessageSpelled(env, sub, m, 0, depth + 1, limit);
    MessageOwn(env, sub, m, 0);
    DocumentMeaning(env, sub, m, es, into);
    Pow2Mono(Varint.PREFIX_BITS, Varint.SIZE_BITS);
    WholeRead(env, name, es, WholeBytes(es), into, lim, d);
  }

  /** A whole message through the archive and back. */
  method WriteAndReadWhole(env: Env, name: string, m: seq<Slot>, buffer: seq<byte>, depth: nat, resizable: bool,
                           alloc: Limit, nesting: Limit, into: seq<Slot>, lim: Limits, d: nat)
    returns (data: seq<byte>, r: Option<Read<seq<Slot>>>)
    requires EnvOk(env) && FitsAll(env, Members(env, name), m) && |into| == |m|
    requires WordsAll(Items(env, Members(env, name), m, 0)) && |buffer| < Pow2(Varint.SIZE_BITS)
    ensures var es := Entries(env, Members(env, name), m, 0);
            && (r.Some? ==> WritableWhole(es, depth, nesting) && data == WholeBytes(es))
            && (!resizable ==> (r.Some? <==> WritableWhole(es, depth, nesting) && |WholeBytes(es)| <= |buffer|))
            && (resizable && alloc.Unlimited? && Roomy(0, |WholeBytes(es)|) ==>
                  (r.Some? <==> WritableWhole(es, depth, nesting)))
            && (r.Some? ==> if d < lim.nesting && WithinAll(es, lim, d + 1) then r.value == Ok(m, |data|)
                            else r.value.Fail?)
  {
    var items := Items(env, Members(env, name), m, 0);
    ghost var es := Entries(env, Members(env, name), m, 0);
    MessageSpelled(env, Members(env, name), m, 0, depth + 1, nesting);
    WholeSpelled(items, es, depth, nesting);
    var ok;
    ok, data := WriteWhole(items, es, buffer, depth, resizable, alloc, nesting);
    if !ok { return data, None; }
    WholeTrip(env, name, m, es, depth, nesting, into, lim, d);
    r := Some(DecodeSub(env, name, into, data, 0, |data|, lim, d));
  }

  method WriteWhole(items: List<Item>, ghost es: List<Entry>, buffer: seq<byte>, depth: nat, resizable: bool,
                    alloc: Limit, nesting: Limit)
    returns (ok: bool, data: seq<byte>)
    requires Words(Message(items)) && |buffer| < Pow2(Varint.SIZE_BITS) && Image(Message(items)) == WholeBytes(es)
    requires Encodable(Message(items), depth, nesting) <==> WritableWhole(es, depth, nesting)
    ensures ok ==> WritableWhole(es, depth, nesting) && data == WholeBytes(es)
    ensures !resizable ==> (ok <==> WritableWhole(es, depth, nesting) && |WholeBytes(es)| <= |buffer|)
    ensures resizable && alloc.Unlimited? && Roomy(0, |WholeBytes(es)|) ==> (ok <==> WritableWhole(es, depth, nesting))
  {
    var out := new Out(buffer, depth, resizable, alloc, nesting);
    ok := out.Serialize(Message(items));
    data := out.data[..out.position];
  }
}
