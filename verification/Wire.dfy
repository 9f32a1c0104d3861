/** Bytes, error codes, machine words and fixed-width numbers shared by the codec modules. */
module Wire {

  type byte = x: int | 0 <= x < 256

  /** The std::errc values the codec reports. */
  datatype Errc = OutOfRange | TooLarge | MessageSize | BadMessage | ProtocolError | NoBufferSpace

  /** A read either yields a value and the number of bytes it used, or fails. */
  datatype Read<T> = Ok(value: T, used: nat) | Fail(error: Errc)

  /** alloc_limit and nesting_limit of an input archive. */
  datatype Limits = Limits(alloc: nat, nesting: nat)

  datatype List<T> = Nil | Cons(head: T, tail: List<T>)

  function Len<T>(xs: List<T>): nat { if xs.Nil? then 0 else 1 + Len(xs.tail) }

  function Snoc<T>(xs: List<T>, x: T): List<T> {
    if xs.Nil? then Cons(x, Nil) else Cons(xs.head, Snoc(xs.tail, x))
  }

  function Concat<T>(xs: List<T>, ys: List<T>): List<T> {
    if xs.Nil? then ys else Cons(xs.head, Concat(xs.tail, ys))
  }

  lemma {:induction false} ConcatNil<T>(xs: List<T>)
    ensures Concat(xs, Nil) == xs
  {
    if xs.Cons? { ConcatNil(xs.tail); }
  }

  lemma {:induction false} ConcatSnoc<T>(xs: List<T>, y: T, ys: List<T>)
    ensures Concat(Snoc(xs, y), ys) == Concat(xs, Cons(y, ys))
  {
    if xs.Cons? { ConcatSnoc(xs.tail, y, ys); }
  }

  function Pow2(n: nat): (r: int)
    ensures r >= 1
  {
    if n == 0 then 1 else 2 * Pow2(n - 1)
  }

  /** x << n, unbounded. */
  function Shl(x: nat, n: nat): nat {
    if n == 0 then x else 2 * Shl(x, n - 1)
  }

  /** The low w bits of x: what a w-bit machine word keeps. */
  function Low(w: nat, x: nat): (r: nat)
    ensures r < Pow2(w)
  {
    if w == 0 then 0 else x % 2 + 2 * Low(w - 1, x / 2)
  }

  lemma {:induction false} LowSmall(w: nat, x: nat)
    requires x < Pow2(w)
    ensures Low(w, x) == x
  {
    if w > 0 { LowSmall(w - 1, x / 2); }
  }

  lemma {:induction false} LowAdd(w: nat, x: nat, y: nat)
    ensures Low(w, Low(w, x) + y) == Low(w, x + y)
  {
    if w > 0 {
      var l, c := Low(w - 1, x / 2), (x % 2 + y) / 2;
      LowAdd(w - 1, x / 2, c);
      assert (Low(w, x) + y) / 2 == l + c && (x + y) / 2 == x / 2 + c;
    }
  }

  lemma {:induction false} LowWrap(w: nat, x: nat)
    ensures Low(w, x + Pow2(w)) == Low(w, x)
  {
    if w > 0 {
      LowWrap(w - 1, x / 2);
      assert (x + Pow2(w)) / 2 == x / 2 + Pow2(w - 1);
    }
  }

  /** Adding even numbers to a word changes only the bits above the lowest. */
  lemma EvenAdded(w: nat, v: nat, s: nat, t: nat)
    requires w >= 1 && Low(w - 1, v / 2 + s) == Low(w - 1, v / 2 + t)
    ensures Low(w, v + 2 * s) == Low(w, v + 2 * t)
  {
    Halves(v, s);
    Halves(v, t);
  }

  lemma Halves(v: nat, s: nat)
    ensures (v + 2 * s) / 2 == v / 2 + s && (v + 2 * s) % 2 == v % 2
  {
  }

  /** Of a digit shifted to the top bit of a word, only its lowest bit survives. */
  lemma {:induction false} LowTop(w: nat, v: nat, x: nat)
    requires w >= 1
    ensures Low(w, v + Shl(x, w - 1)) == Low(w, v + Shl(x % 2, w - 1))
  {
    if w == 1 {
      LowBit(v + x);
      LowBit(v + x % 2);
    } else {
      LowTop(w - 1, v / 2, x);
      EvenAdded(w, v, Shl(x, w - 2), Shl(x % 2, w - 2));
    }
  }

  lemma LowBit(x: nat)
    ensures Low(1, x) == x % 2
  {
    assert Low(0, x / 2) == 0;
  }

  lemma Twice(x: nat, n: nat)
    ensures Shl(x, n + 2) == 4 * Shl(x, n) && Pow2(n + 2) == 4 * Pow2(n)
  {
    assert Shl(x, n + 2) == 2 * Shl(x, n + 1);
    assert Pow2(n + 2) == 2 * Pow2(n + 1);
  }

  lemma Seven(x: nat, n: nat)
    ensures Shl(x, n + 7) == 128 * Shl(x, n) && Pow2(n + 7) == 128 * Pow2(n)
  {
    Twice(x, n);
    Twice(x, n + 2);
    Twice(x, n + 4);
    assert Shl(x, n + 7) == 2 * Shl(x, n + 6);
    assert Pow2(n + 7) == 2 * Pow2(n + 6);
  }

  lemma {:induction false} Pow2Mono(a: nat, b: nat)
    requires a <= b
    ensures Pow2(a) <= Pow2(b)
    decreases b
  {
    if a < b { Pow2Mono(a, b - 1); }
  }

  // ----- Little-endian numbers -----

  function PutLE(n: nat, w: nat): (bs: seq<byte>)
    ensures |bs| == w
  {
    if w == 0 then [] else [n % 256] + PutLE(n / 256, w - 1)
  }

  function GetLE(data: seq<byte>, pos: nat, w: nat): nat
    requires pos + w <= |data|
    decreases w
  {
    if w == 0 then 0 else data[pos] + 256 * GetLE(data, pos + 1, w - 1)
  }

  lemma Eight(n: nat)
    ensures Pow2(n + 8) == 256 * Pow2(n)
  {
    Seven(0, n);
    assert Pow2(n + 8) == 2 * Pow2(n + 7);
  }

  lemma {:induction false} LEBound(data: seq<byte>, pos: nat, w: nat)
    requires pos + w <= |data|
    ensures GetLE(data, pos, w) < Pow2(8 * w)
    decreases w
  {
    if w > 0 {
      Eight(8 * (w - 1));
      LEBound(data, pos + 1, w - 1);
    }
  }

  lemma {:induction false} LEExtend(data: seq<byte>, more: seq<byte>, pos: nat, w: nat)
    requires pos + w <= |data|
    ensures GetLE(data + more, pos, w) == GetLE(data, pos, w)
    decreases w
  {
    if w > 0 { LEExtend(data, more, pos + 1, w - 1); }
  }

  /** data holds the bytes bs at pos. */
  ghost predicate At(data: seq<byte>, pos: nat, bs: seq<byte>) {
    pos + |bs| <= |data| && forall i :: 0 <= i < |bs| ==> data[pos + i] == bs[i]
  }

  lemma AtSplit(data: seq<byte>, pos: nat, a: seq<byte>, b: seq<byte>)
    requires At(data, pos, a + b)
    ensures At(data, pos, a) && At(data, pos + |a|, b)
  {
    forall i | 0 <= i < |a| ensures data[pos + i] == a[i] { assert (a + b)[i] == a[i]; }
    forall i | 0 <= i < |b| ensures data[pos + |a| + i] == b[i] { assert (a + b)[|a| + i] == b[i]; }
  }

  /** A word that is large enough gives the number back. */
  lemma {:induction false} LERoundTrip(data: seq<byte>, pos: nat, n: nat, w: nat)
    requires n < Pow2(8 * w) && At(data, pos, PutLE(n, w))
    ensures GetLE(data, pos, w) == n
    decreases w
  {
    if w > 0 {
      Eight(8 * (w - 1));
      AtSplit(data, pos, [n % 256], PutLE(n / 256, w - 1));
      assert [n % 256][0] == n % 256;
      LERoundTrip(data, pos + 1, n / 256, w - 1);
    }
  }
}
