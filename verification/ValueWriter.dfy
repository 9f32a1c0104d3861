/**
 * Values through the output archive of zpp::bits: serialize_one over a buffer that grows or is fixed,
 * with the writer's own nesting limit, and the trip through both archives.
 */
module ValueWriter {
  import opened Basics
  import opened Wire
  import opened OutArchive
  import opened V = ValueCodec
  import Varint

  // ----- What the writer can write -----

  /** Every scalar and every byte string is shorter than the address space. */
  predicate InMemory(env: Env, t: Layout, v: Value)
    requires Fits(env, t, v)
    decreases v
  {
    match t
    case Scalar(w) => w < Pow2(Varint.SIZE_BITS)
    case Text => |v.bytes| < Pow2(Varint.SIZE_BITS)
    case Many(e, _) => InMemoryMany(env, e, v.items)
    case Optional(e) => v != V.None ==> InMemory(env, e, v.value)
    case Variant(alts) => InMemory(env, alts[v.index], v.value)
    case Record(ms) => InMemoryAll(env, ms, v.items)
    case SelfRef(name) => InMemoryAll(env, env[name], v.items)
  }

  predicate InMemoryMany(env: Env, t: Layout, vs: List<Value>)
    requires FitsMany(env, t, vs)
    decreases vs
  {
    vs.Nil? || (InMemory(env, t, vs.head) && InMemoryMany(env, t, vs.tail))
  }

  predicate InMemoryAll(env: Env, ts: List<Layout>, vs: List<Value>)
    requires FitsAll(env, ts, vs)
    decreases vs
  {
    vs.Nil? || (InMemory(env, ts.head, vs.head) && InMemoryAll(env, ts.tail, vs.tail))
  }

  /** No self-referencing record is nested deeper than the limit when depth levels are already open. */
  predicate Shallow(env: Env, t: Layout, v: Value, depth: nat, limit: Limit)
    requires Fits(env, t, v)
    decreases v
  {
    match t
    case Scalar(_) => true
    case Text => true
    case Many(e, _) => ShallowMany(env, e, v.items, depth, limit)
    case Optional(e) => v != V.None ==> Shallow(env, e, v.value, depth, limit)
    case Variant(alts) => Shallow(env, alts[v.index], v.value, depth, limit)
    case Record(ms) => ShallowAll(env, ms, v.items, depth, limit)
    case SelfRef(name) => (limit.AtMost? ==> depth < limit.n) && ShallowAll(env, env[name], v.items, depth + 1, limit)
  }

  predicate ShallowMany(env: Env, t: Layout, vs: List<Value>, depth: nat, limit: Limit)
    requires FitsMany(env, t, vs)
    decreases vs
  {
    vs.Nil? || (Shallow(env, t, vs.head, depth, limit) && ShallowMany(env, t, vs.tail, depth, limit))
  }

  predicate ShallowAll(env: Env, ts: List<Layout>, vs: List<Value>, depth: nat, limit: Limit)
    requires FitsAll(env, ts, vs)
    decreases vs
  {
    vs.Nil? || (Shallow(env, ts.head, vs.head, depth, limit) && ShallowAll(env, ts.tail, vs.tail, depth, limit))
  }

  // ----- Writing -----

  /**
   * serialize_one: the value's encoding is appended, or nothing already written is disturbed. It succeeds
   * exactly when the value is not nested too deeply for the writer and the buffer takes its bytes. The
   * nesting count is as before on every path.
   */
  method WriteOne(out: Out, env: Env, t: Layout, v: Value) returns (ok: bool)
    requires out.Valid() && Fits(env, t, v) && InMemory(env, t, v)
    modifies out
    ensures out.Valid() && out.nesting == old(out.nesting) && (!out.resizable ==> |out.data| == old(|out.data|))
    ensures old(out.Written()) <= out.Written()
    ensures ok ==> out.Written() == old(out.Written()) + Encode(env, t, v)
    ensures out.Takes(|Encode(env, t, v)|, Shallow(env, t, v, out.nesting, out.nestingLimit), old(out.position),
                      old(|out.data| - out.position), old(out.refusals), ok)
    decreases v, 1
  {
    match t
    case Scalar(w) => ok := out.WriteBytes(PutLE(v.n, w));
    case Text => ok := WriteText(out, v.bytes);
    case Many(e, _) => ok := WriteContainer(out, env, e, v.items);
    case Optional(e) =>
      if v == V.None {
        ok := out.WriteBytes([0]);
      } else {
        ok := WriteTagged(out, env, 1, e, v.value);
      }
    case Variant(alts) => ok := WriteTagged(out, env, v.index, alts[v.index], v.value);
    case Record(ms) => ok := WriteAll(out, env, ms, v.items);
    case SelfRef(name) =>
      if out.nestingLimit.AtMost? && out.nesting >= out.nestingLimit.n {
        return false;
      }
      out.nesting := out.nesting + 1;
      ok := WriteAll(out, env, env[name], v.items);
      out.nesting := out.nesting - 1;
  }

  /** A container of bytes: its size in a fixed number of bytes, then its bytes at once. */
  method WriteText(out: Out, bytes: seq<byte>) returns (ok: bool)
    requires out.Valid() && |bytes| < Pow2(Varint.SIZE_BITS)
    modifies out
    ensures out.Valid() && out.nesting == old(out.nesting) && (!out.resizable ==> |out.data| == old(|out.data|))
    ensures old(out.Written()) <= out.Written()
    ensures ok ==> out.Written() == old(out.Written()) + (PutLE(|bytes|, SIZE_BYTES) + bytes)
    ensures out.Takes(SIZE_BYTES + |bytes|, true, old(out.position), old(|out.data| - out.position),
                      old(out.refusals), ok)
  {
    Pow2Mono(3, Varint.SIZE_BITS);
    ok := out.WriteBytes(PutLE(|bytes|, SIZE_BYTES));
    if !ok { return; }
    Assoc(old(out.Written()), PutLE(|bytes|, SIZE_BYTES), bytes);
    ok := out.WriteBytes(bytes);
  }

  /** Any other container: its size, then its elements. */
  method WriteContainer(out: Out, env: Env, t: Layout, vs: List<Value>) returns (ok: bool)
    requires out.Valid() && FitsMany(env, t, vs) && InMemoryMany(env, t, vs)
    modifies out
    ensures out.Valid() && out.nesting == old(out.nesting) && (!out.resizable ==> |out.data| == old(|out.data|))
    ensures old(out.Written()) <= out.Written()
    ensures ok ==> out.Written() == old(out.Written()) + (PutLE(Len(vs), SIZE_BYTES) + EncodeMany(env, t, vs))
    ensures out.Takes(SIZE_BYTES + |EncodeMany(env, t, vs)|, ShallowMany(env, t, vs, out.nesting, out.nestingLimit),
                      old(out.position), old(|out.data| - out.position), old(out.refusals), ok)
    decreases vs, 2
  {
    Pow2Mono(3, Varint.SIZE_BITS);
    ok := out.WriteBytes(PutLE(Len(vs), SIZE_BYTES));
    if !ok { return; }
    Assoc(old(out.Written()), PutLE(Len(vs), SIZE_BYTES), EncodeMany(env, t, vs));
    ok := WriteMany(out, env, t, vs);
  }

  /** The element loop of a container. */
  method WriteMany(out: Out, env: Env, t: Layout, vs: List<Value>) returns (ok: bool)
    requires out.Valid() && FitsMany(env, t, vs) && InMemoryMany(env, t, vs)
    modifies out
    ensures out.Valid() && out.nesting == old(out.nesting) && (!out.resizable ==> |out.data| == old(|out.data|))
    ensures old(out.Written()) <= out.Written()
    ensures ok ==> out.Written() == old(out.Written()) + EncodeMany(env, t, vs)
    ensures out.Takes(|EncodeMany(env, t, vs)|, ShallowMany(env, t, vs, out.nesting, out.nestingLimit),
                      old(out.position), old(|out.data| - out.position), old(out.refusals), ok)
    decreases vs, 1
  {
    var rest := vs;
    ghost var before, shallow := out.Written(), ShallowMany(env, t, vs, out.nesting, out.nestingLimit);
    ghost var whole := before + EncodeMany(env, t, vs);
    ok := true;
    while rest.Cons?
      invariant out.Valid() && out.nesting == old(out.nesting) && (!out.resizable ==> |out.data| == old(|out.data|))
      invariant (rest == vs || rest < vs) && FitsMany(env, t, rest) && InMemoryMany(env, t, rest)
      invariant before <= out.Written() && out.refusals == old(out.refusals)
      invariant out.Written() + EncodeMany(env, t, rest) == whole
      invariant ShallowMany(env, t, rest, out.nesting, out.nestingLimit) == shallow
      decreases rest
    {
      ok := WriteNext(out, env, t, rest);
      if !ok { return; }
      rest := rest.tail;
    }
  }

  /** One element, and what is still to be written behind it. */
  method WriteNext(out: Out, env: Env, t: Layout, vs: List<Value>) returns (ok: bool)
    requires out.Valid() && vs.Cons? && FitsMany(env, t, vs) && InMemoryMany(env, t, vs)
    modifies out
    ensures out.Valid() && out.nesting == old(out.nesting) && (!out.resizable ==> |out.data| == old(|out.data|))
    ensures old(out.Written()) <= out.Written()
    ensures var shallow := ShallowMany(env, t, vs, out.nesting, out.nestingLimit);
            if ok
            then && out.Written() + EncodeMany(env, t, vs.tail) == old(out.Written()) + EncodeMany(env, t, vs)
                 && out.refusals == old(out.refusals)
                 && ShallowMany(env, t, vs.tail, out.nesting, out.nestingLimit) == shallow
            else out.Takes(|EncodeMany(env, t, vs)|, shallow, old(out.position), old(|out.data| - out.position),
                           old(out.refusals), false)
    decreases vs, 0
  {
    Assoc(out.Written(), Encode(env, t, vs.head), EncodeMany(env, t, vs.tail));
    ok := WriteOne(out, env, t, vs.head);
  }

  /** A byte that says what follows, then the value. */
  method WriteTagged(out: Out, env: Env, tag: byte, t: Layout, v: Value) returns (ok: bool)
    requires out.Valid() && Fits(env, t, v) && InMemory(env, t, v)
    modifies out
    ensures out.Valid() && out.nesting == old(out.nesting) && (!out.resizable ==> |out.data| == old(|out.data|))
    ensures old(out.Written()) <= out.Written()
    ensures ok ==> out.Written() == old(out.Written()) + ([tag] + Encode(env, t, v))
    ensures out.Takes(1 + |Encode(env, t, v)|, Shallow(env, t, v, out.nesting, out.nestingLimit), old(out.position),
                      old(|out.data| - out.position), old(out.refusals), ok)
    decreases v, 2
  {
    Pow2Mono(1, Varint.SIZE_BITS);
    ok := out.WriteBytes([tag]);
    if !ok { return; }
    Assoc(old(out.Written()), [tag], Encode(env, t, v));
    ok := WriteOne(out, env, t, v);
  }

  /** serialize_many: the members of a record, first to last. */
  method WriteAll(out: Out, env: Env, ts: List<Layout>, vs: List<Value>) returns (ok: bool)
    requires out.Valid() && FitsAll(env, ts, vs) && InMemoryAll(env, ts, vs)
    modifies out
    ensures out.Valid() && out.nesting == old(out.nesting) && (!out.resizable ==> |out.data| == old(|out.data|))
    ensures old(out.Written()) <= out.Written()
    ensures ok ==> out.Written() == old(out.Written()) + EncodeAll(env, ts, vs)
    ensures out.Takes(|EncodeAll(env, ts, vs)|, ShallowAll(env, ts, vs, out.nesting, out.nestingLimit),
                      old(out.position), old(|out.data| - out.position), old(out.refusals), ok)
    decreases vs, 0
  {
    if vs.Nil? { return true; }
    ok := WriteOne(out, env, ts.head, vs.head);
    if !ok { return; }
    Assoc(old(out.Written()), Encode(env, ts.head, vs.head), EncodeAll(env, ts.tail, vs.tail));
    ok := WriteAll(out, env, ts.tail, vs.tail);
  }

  // ----- The trip through both archives -----

  /** Under the same nesting limit and at the same depth, the writer refuses nothing that can be read back. */
  lemma {:induction false} ReadableIsShallow(env: Env, t: Layout, v: Value, lim: Limits, d: nat)
    requires Fits(env, t, v) && Readable(env, t, v, lim, d)
    ensures Shallow(env, t, v, d, AtMost(lim.nesting))
    decreases v, 1
  {
    match t
    case Scalar(_) =>
    case Text =>
    case Many(e, _) => ReadableManyIsShallow(env, e, v.items, lim, d);
    case Optional(e) => if v != V.None { ReadableIsShallow(env, e, v.value, lim, d); }
    case Variant(alts) => ReadableIsShallow(env, alts[v.index], v.value, lim, d);
    case Record(ms) => ReadableAllIsShallow(env, ms, v.items, lim, d);
    case SelfRef(name) => ReadableAllIsShallow(env, env[name], v.items, lim, d + 1);
  }

  lemma {:induction false} ReadableManyIsShallow(env: Env, t: Layout, vs: List<Value>, lim: Limits, d: nat)
    requires FitsMany(env, t, vs) && ReadableMany(env, t, vs, lim, d)
    ensures ShallowMany(env, t, vs, d, AtMost(lim.nesting))
    decreases vs
  {
    if vs.Cons? {
      ReadableIsShallow(env, t, vs.head, lim, d);
      ReadableManyIsShallow(env, t, vs.tail, lim, d);
    }
  }

  lemma {:induction false} ReadableAllIsShallow(env: Env, ts: List<Layout>, vs: List<Value>, lim: Limits, d: nat)
    requires FitsAll(env, ts, vs) && ReadableAll(env, ts, vs, lim, d)
    ensures ShallowAll(env, ts, vs, d, AtMost(lim.nesting))
    decreases vs
  {
    if vs.Cons? {
      ReadableIsShallow(env, ts.head, vs.head, lim, d);
      ReadableAllIsShallow(env, ts.tail, vs.tail, lim, d);
    }
  }

  /**
   * A value written and read back, each archive at its own depth and with its own limits. A fixed buffer
   * takes it exactly when it is shallow enough for the writer and fits; a buffer that grows without limit
   * exactly when it is shallow enough. What was written reads back as the value exactly when it is readable.
   */
  method WriteAndRead(env: Env, t: Layout, v: Value, buffer: seq<byte>, resizable: bool, alloc: Limit, nesting: Limit,
                      depth: nat, lim: Limits, d: nat)
    returns (ok: bool, data: seq<byte>, r: Read<Value>)
    requires Fits(env, t, v) && InMemory(env, t, v) && |buffer| < Pow2(Varint.SIZE_BITS) && d <= lim.nesting
    ensures ok ==> Shallow(env, t, v, depth, nesting) && data == Encode(env, t, v)
    ensures !resizable ==> (ok <==> Shallow(env, t, v, depth, nesting) && |Encode(env, t, v)| <= |buffer|)
    ensures resizable && alloc.Unlimited? && Roomy(0, |Encode(env, t, v)|) ==>
              (ok <==> Shallow(env, t, v, depth, nesting))
    ensures ok ==> (r == Ok(v, |data|) <==> Readable(env, t, v, lim, d))
  {
    var out := new Out(buffer, depth, resizable, alloc, nesting);
    ok := WriteOne(out, env, t, v);
    data := out.data[..out.position];
    var input := new In(env, data, lim, d);
    r := input.ReadOne(t);
    if ok {
      RoundTripIff(env, t, v, [], [], lim, d);
      assert [] + Encode(env, t, v) + [] == data;
    }
  }
}
