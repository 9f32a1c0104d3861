/**
 * A worker with radio groups: selecting an entry deselects every other entry that shares a group
 * with it. Against such a worker restoreLayers succeeds exactly when Restorable holds, a condition
 * on the saved selection, the fresh one and the groups that does not depend on the entries' order.
 */
module RadioGroups {
  import opened Basics
  import opened Layers

  type Groups = seq<set<nat>>

  predicate Mate(g: Groups, i: nat, j: nat)
    requires i < |g| && j < |g|
  {
    i != j && !(g[i] !! g[j])
  }

  /** The worker's selection after entry i is switched. */
  function Press(g: Groups, sel: seq<bool>, i: nat, on: bool): (r: seq<bool>)
    requires |g| == |sel|
    ensures |r| == |sel|
  {
    seq(|sel|, j requires 0 <= j < |sel| => if j == i then on else sel[j] && !(on && i < |g| && Mate(g, i, j)))
  }

  /** The response that shows a selection. */
  function View(base: Response, sel: seq<bool>): (r: Response)
    requires |sel| == |base.entries|
    ensures |r.entries| == |sel| && r.generation == base.generation
  {
    Response(base.generation, seq(|sel|, j requires 0 <= j < |sel| => base.entries[j].(selected := sel[j])))
  }

  function RadioWorker(base: Response, g: Groups): Worker<seq<bool>>
    requires |g| == |base.entries|
  {
    (sel: seq<bool>, q: Request) =>
      if |sel| == |base.entries| && q.id < |sel|
      then (Press(g, sel, q.id, q.selected), Some(View(base, Press(g, sel, q.id, q.selected))))
      else (sel, None)
  }

  lemma {:induction false} SameText(a: seq<Entry>, b: seq<Entry>)
    requires |a| == |b| && forall i :: 0 <= i < |a| ==> a[i].name == b[i].name
    ensures TextBytes(a) == TextBytes(b)
    decreases |a|
  {
    if a != [] { SameText(a[..|a| - 1], b[..|b| - 1]); }
  }

  lemma ViewFits(saved: seq<Entry>, base: Response, sel: seq<bool>)
    requires SameStructure(saved, base) && |sel| == |saved|
    ensures SameStructure(saved, View(base, sel))
  {
    var v := View(base, sel);
    SameText(base.entries, v.entries);
    forall i | 0 <= i < |saved| ensures ValidEntry(v.entries, i) && SameEntry(saved[i], v.entries[i]) {
      assert ValidEntry(base.entries, i) && SameEntry(saved[i], base.entries[i]);
    }
  }

  // ----- Deselecting -----

  predicate Extra(saved: seq<Entry>, w: seq<bool>, j: nat)
    requires j < |saved| == |w|
  {
    Free(saved[j]) && !saved[j].selected && w[j]
  }

  function OffFrom(saved: seq<Entry>, w: seq<bool>, i: nat): (r: seq<bool>)
    requires |saved| == |w|
    ensures |r| == |w|
  {
    seq(|w|, j requires 0 <= j < |w| => w[j] && !(j >= i && Extra(saved, w, j)))
  }

  function Extras(saved: seq<Entry>, w: seq<bool>, i: nat): nat
    requires i <= |saved| == |w|
    decreases |w| - i
  {
    if i == |w| then 0 else (if Extra(saved, w, i) then 1 else 0) + Extras(saved, w, i + 1)
  }

  lemma {:induction false} ExtrasAgree(saved: seq<Entry>, a: seq<bool>, b: seq<bool>, i: nat)
    requires i <= |saved| == |a| == |b| && forall j :: i <= j < |a| ==> a[j] == b[j]
    ensures Extras(saved, a, i) == Extras(saved, b, i)
    decreases |a| - i
  {
    if i < |a| { ExtrasAgree(saved, a, b, i + 1); }
  }

  lemma {:induction false} OffPass(saved: seq<Entry>, base: Response, g: Groups, w: seq<bool>, i: nat)
    requires SameStructure(saved, base) && i <= |saved| == |g| == |w|
    ensures Replay(saved, false, i, View(base, w), w, RadioWorker(base, g))
            == Outcome(Some(View(base, OffFrom(saved, w, i))), OffFrom(saved, w, i), Extras(saved, w, i))
    decreases |saved| - i
  {
    if i == |saved| {
      assert OffFrom(saved, w, i) == w;
    } else if !Extra(saved, w, i) {
      OffPass(saved, base, g, w, i + 1);
      assert OffFrom(saved, w, i) == OffFrom(saved, w, i + 1);
    } else {
      var n := Press(g, w, i, false);
      ViewFits(saved, base, n);
      OffPass(saved, base, g, n, i + 1);
      assert OffFrom(saved, w, i) == OffFrom(saved, n, i + 1);
      ExtrasAgree(saved, w, n, i + 1);
    }
  }

  // ----- Selecting -----

  predicate Missing(saved: seq<Entry>, w: seq<bool>, k: nat)
    requires k < |saved| == |w|
  {
    Free(saved[k]) && saved[k].selected && !w[k]
  }

  /** Some entry still to be selected, from i on, will deselect j. */
  ghost predicate Hit(saved: seq<Entry>, g: Groups, w: seq<bool>, i: nat, j: nat)
    requires |saved| == |g| == |w| && j < |w|
  {
    exists k :: i <= k < |w| && Missing(saved, w, k) && Mate(g, k, j)
  }

  ghost predicate NoClash(saved: seq<Entry>, g: Groups, w: seq<bool>, i: nat)
    requires |saved| == |g| == |w|
  {
    forall k, j :: i <= k < |w| && 0 <= j < |w| && Missing(saved, w, k) && Mate(g, k, j) ==> !saved[j].selected
  }

  ghost function OnFrom(saved: seq<Entry>, g: Groups, w: seq<bool>, i: nat): (r: seq<bool>)
    requires |saved| == |g| == |w|
    ensures |r| == |w|
  {
    seq(|w|, j requires 0 <= j < |w| => (j >= i && Missing(saved, w, j)) || (w[j] && !Hit(saved, g, w, i, j)))
  }

  function Missings(saved: seq<Entry>, w: seq<bool>, i: nat): nat
    requires i <= |saved| == |w|
    decreases |w| - i
  {
    if i == |w| then 0 else (if Missing(saved, w, i) then 1 else 0) + Missings(saved, w, i + 1)
  }

  lemma {:induction false} MissingsAgree(saved: seq<Entry>, a: seq<bool>, b: seq<bool>, i: nat)
    requires i <= |saved| == |a| == |b| && forall j :: i <= j < |a| ==> Missing(saved, a, j) == Missing(saved, b, j)
    ensures Missings(saved, a, i) == Missings(saved, b, i)
    decreases |a| - i
  {
    if i < |a| { MissingsAgree(saved, a, b, i + 1); }
  }

  /** Selecting i takes nothing away from the entries still to come. */
  lemma SelectStep(saved: seq<Entry>, g: Groups, w: seq<bool>, i: nat)
    requires i < |saved| == |g| == |w| && NoClash(saved, g, w, i) && Missing(saved, w, i)
    ensures var n := Press(g, w, i, true);
            && (forall k :: i < k < |w| ==> Missing(saved, n, k) == Missing(saved, w, k))
            && NoClash(saved, g, n, i + 1) && OnFrom(saved, g, n, i + 1) == OnFrom(saved, g, w, i)
  {
    var n := Press(g, w, i, true);
    forall k | i < k < |w| ensures Missing(saved, n, k) == Missing(saved, w, k) {
      if saved[k].selected { assert !Mate(g, i, k); }
    }
    forall j | 0 <= j < |w| ensures OnFrom(saved, g, n, i + 1)[j] == OnFrom(saved, g, w, i)[j] {
      if Hit(saved, g, w, i, j) {
        var k :| i <= k < |w| && Missing(saved, w, k) && Mate(g, k, j);
        if k != i { assert Hit(saved, g, n, i + 1, j); }
      }
      if Hit(saved, g, n, i + 1, j) {
        var k :| i + 1 <= k < |w| && Missing(saved, n, k) && Mate(g, k, j);
        assert Missing(saved, w, k);
      }
    }
  }

  lemma SkipStep(saved: seq<Entry>, g: Groups, w: seq<bool>, i: nat)
    requires i < |saved| == |g| == |w| && !Missing(saved, w, i)
    ensures OnFrom(saved, g, w, i) == OnFrom(saved, g, w, i + 1)
  {
    forall j | 0 <= j < |w| ensures Hit(saved, g, w, i, j) == Hit(saved, g, w, i + 1, j) {
      if Hit(saved, g, w, i, j) {
        var k :| i <= k < |w| && Missing(saved, w, k) && Mate(g, k, j);
        assert k != i;
      }
    }
  }

  lemma {:induction false} OnPass(saved: seq<Entry>, base: Response, g: Groups, w: seq<bool>, i: nat)
    requires SameStructure(saved, base) && i <= |saved| == |g| == |w| && NoClash(saved, g, w, i)
    ensures Replay(saved, true, i, View(base, w), w, RadioWorker(base, g))
            == Outcome(Some(View(base, OnFrom(saved, g, w, i))), OnFrom(saved, g, w, i), Missings(saved, w, i))
    decreases |saved| - i
  {
    if i == |saved| {
      assert OnFrom(saved, g, w, i) == w;
    } else if !Missing(saved, w, i) {
      SkipStep(saved, g, w, i);
      OnPass(saved, base, g, w, i + 1);
    } else {
      var n := Press(g, w, i, true);
      SelectStep(saved, g, w, i);
      ViewFits(saved, base, n);
      OnPass(saved, base, g, n, i + 1);
      MissingsAgree(saved, w, n, i + 1);
    }
  }

  lemma PressApart(g: Groups, w: seq<bool>, i: nat, a: nat, b: nat)
    requires i < |w| == |g| && a < |w| && b < |w| && Mate(g, a, b) && !(w[a] && w[b])
    ensures !(Press(g, w, i, true)[a] && Press(g, w, i, true)[b])
  {
    assert Mate(g, b, a);
  }

  /** Two group mates are never both selected by the pass, unless they were before it. */
  lemma {:induction false} MatesApart(saved: seq<Entry>, base: Response, g: Groups, w: seq<bool>, i: nat, a: nat,
                                      b: nat)
    requires SameStructure(saved, base) && i <= |saved| == |g| == |w| && a < |w| && b < |w| && Mate(g, a, b)
             && !(w[a] && w[b])
    ensures var o := Replay(saved, true, i, View(base, w), w, RadioWorker(base, g));
            |o.worker| == |w| && o.reply == Some(View(base, o.worker)) && !(o.worker[a] && o.worker[b])
    decreases |saved| - i
  {
    if i < |saved| {
      if !Missing(saved, w, i) {
        MatesApart(saved, base, g, w, i + 1, a, b);
      } else {
        var n := Press(g, w, i, true);
        PressApart(g, w, i, a, b);
        ViewFits(saved, base, n);
        MatesApart(saved, base, g, n, i + 1, a, b);
      }
    }
  }

  // ----- When a restore succeeds -----

  function Selection(es: seq<Entry>): (r: seq<bool>)
    ensures |r| == |es|
  {
    seq(|es|, j requires 0 <= j < |es| => es[j].selected)
  }

  /**
   * No entry that must be switched on has a group mate that must be on; and what the replay may not switch itself is
   * right already, or is put right as the mate of an entry that is switched on.
   */
  ghost predicate Restorable(saved: seq<Entry>, g: Groups, f: seq<bool>)
    requires |saved| == |g| == |f|
  {
    && NoClash(saved, g, f, 0)
    && forall j :: 0 <= j < |f| && !Free(saved[j]) ==> saved[j].selected == (f[j] && !Hit(saved, g, f, 0, j))
  }

  /** Entries the replay may switch and has to. */
  function Switches(saved: seq<Entry>, f: seq<bool>): nat
    requires |saved| == |f|
  {
    Extras(saved, f, 0) + Missings(saved, f, 0)
  }

  lemma RestoreIff(saved: seq<Entry>, base: Response, g: Groups)
    requires SameStructure(saved, base) && |g| == |saved|
    ensures var f := Selection(base.entries);
            var o := Restored(saved, base, f, RadioWorker(base, g));
            && (o.reply.Some? <==> Restorable(saved, g, f))
            && (o.reply.Some? ==> o.worker == Selection(saved) && o.requests == Switches(saved, f))
  {
    var f := Selection(base.entries);
    var w := OffFrom(saved, f, 0);
    assert View(base, f) == base;
    OffPass(saved, base, g, f, 0);
    forall k | 0 <= k < |f| ensures Missing(saved, w, k) == Missing(saved, f, k) {}
    MissingsAgree(saved, f, w, 0);
    if NoClash(saved, g, f, 0) {
      OnPass(saved, base, g, w, 0);
      FinalSelection(saved, g, f);
      var last := OnFrom(saved, g, w, 0);
      assert SameSelection(View(base, last).entries, saved) <==> last == Selection(saved);
    } else {
      var a, b :| 0 <= a < |f| && 0 <= b < |f| && Missing(saved, f, a) && Mate(g, a, b) && saved[b].selected;
      MatesApart(saved, base, g, w, 0, a, b);
    }
  }

  lemma FinalSelection(saved: seq<Entry>, g: Groups, f: seq<bool>)
    requires |saved| == |g| == |f| && NoClash(saved, g, f, 0)
    ensures var w := OffFrom(saved, f, 0);
            NoClash(saved, g, w, 0) && (OnFrom(saved, g, w, 0) == Selection(saved) <==> Restorable(saved, g, f))
  {
    var w := OffFrom(saved, f, 0);
    forall k | 0 <= k < |f| ensures Missing(saved, w, k) == Missing(saved, f, k) {}
    forall j | 0 <= j < |f| ensures Hit(saved, g, w, 0, j) == Hit(saved, g, f, 0, j) {
      if Hit(saved, g, w, 0, j) {
        var k :| 0 <= k < |w| && Missing(saved, w, k) && Mate(g, k, j);
        assert Missing(saved, f, k);
      }
      if Hit(saved, g, f, 0, j) {
        var k :| 0 <= k < |w| && Missing(saved, f, k) && Mate(g, k, j);
        assert Missing(saved, w, k);
      }
    }
    var last := OnFrom(saved, g, w, 0);
    forall j | 0 <= j < |f|
      ensures if Free(saved[j]) then last[j] == saved[j].selected else last[j] == (f[j] && !Hit(saved, g, f, 0, j))
    {
      if Hit(saved, g, f, 0, j) {
        var k :| 0 <= k < |f| && Missing(saved, f, k) && Mate(g, k, j);
        assert !saved[j].selected;
      }
    }
    assert last == Selection(saved) <==> forall j :: 0 <= j < |f| ==> last[j] == saved[j].selected;
  }

  /** At most one saved selection per group, and agreement on what is locked or a label, are enough. */
  lemma OnePerGroupRestores(saved: seq<Entry>, base: Response, g: Groups)
    requires SameStructure(saved, base) && |g| == |saved|
    requires forall i, j :: 0 <= i < |g| && 0 <= j < |g| && Mate(g, i, j) ==> !(saved[i].selected && saved[j].selected)
    requires forall j :: 0 <= j < |saved| && !Free(saved[j]) ==> saved[j].selected == base.entries[j].selected
    ensures var f := Selection(base.entries);
            var o := Restored(saved, base, f, RadioWorker(base, g));
            o.reply.Some? && o.worker == Selection(saved) && o.requests == Switches(saved, f)
  {
    var f := Selection(base.entries);
    forall j | 0 <= j < |f| && !Free(saved[j]) ensures saved[j].selected == (f[j] && !Hit(saved, g, f, 0, j)) {
      if Hit(saved, g, f, 0, j) {
        var k :| 0 <= k < |f| && Missing(saved, f, k) && Mate(g, k, j);
        assert !saved[j].selected;
      }
    }
    RestoreIff(saved, base, g);
  }

  /** A radio button that is on, and one that is locked and off; or the other way round. */
  function Pair(first: bool): Response {
    Response(1, [Entry(0, 0, "", RadioButton, first, false), Entry(1, 0, "", RadioButton, !first, true)])
  }

  lemma PairIsValid(first: bool)
    ensures ValidResponse(Pair(first))
  {
    var es := Pair(first).entries;
    assert es[..1][..0] == [] && TextBytes(es[..1]) == 0;
    forall i | 0 <= i < |es| ensures ValidEntry(es, i) { assert i == 0 || i == 1; }
  }

  /** Agreement on locked entries is not needed: switching the first button on switches the locked one off. */
  lemma LockedDisagrees(saved: seq<Entry>, base: Response, g: Groups)
    requires saved == Pair(true).entries && base == Pair(false) && g == [{0}, {0}]
    ensures saved[1].locked && saved[1].selected != base.entries[1].selected && SameStructure(saved, base)
    ensures var o := Restored(saved, base, Selection(base.entries), RadioWorker(base, g));
            o.reply.Some? && o.worker == Selection(saved) && o.requests == 1
  {
    PairIsValid(false);
    var f := Selection(base.entries);
    assert Missing(saved, f, 0) && Mate(g, 0, 1);
    assert Hit(saved, g, f, 0, 1);
    RestoreIff(saved, base, g);
    assert Extras(saved, f, 1) == 0 && Missings(saved, f, 1) == 0;
  }
}
