/**
 * LayersModel: the tree of optional-content layers, its check states, and the replay of a saved
 * selection after a worker restart.
 */
module Layers {
  import opened Basics

  datatype LayerType = Label | CheckBox | RadioButton

  datatype Entry = Entry(id: int, depth: int, name: string, kind: LayerType, selected: bool, locked: bool)

  /** LayersResponse: a generation and its entries. */
  datatype Response = Response(generation: nat, entries: seq<Entry>)

  datatype Request = Request(generation: nat, id: nat, selected: bool)

  const MAX_LAYER_ENTRIES: nat := 8192
  const MAX_LAYER_DEPTH: nat := 32
  const MAX_LAYER_NAME_BYTES: nat := 2048
  const MAX_LAYER_TEXT_BYTES: nat := 262144

  function TextBytes(es: seq<Entry>): nat {
    if es == [] then 0 else TextBytes(es[..|es| - 1]) + |es[|es| - 1].name|
  }

  /** isValidLayersResponse. */
  predicate ValidResponse(r: Response) {
    && r.generation != 0 && |r.entries| <= MAX_LAYER_ENTRIES && TextBytes(r.entries) <= MAX_LAYER_TEXT_BYTES
    && forall i :: 0 <= i < |r.entries| ==> ValidEntry(r.entries, i)
  }

  predicate ValidEntry(es: seq<Entry>, i: nat)
    requires i < |es|
  {
    && es[i].id == i && 0 <= es[i].depth <= MAX_LAYER_DEPTH
    && es[i].depth <= (if i == 0 then 0 else es[i - 1].depth + 1)
    && |es[i].name| <= MAX_LAYER_NAME_BYTES && '\0' !in es[i].name
  }

  predicate SameEntry(a: Entry, b: Entry) {
    a.id == b.id && a.depth == b.depth && a.name == b.name && a.kind == b.kind && a.locked == b.locked
  }

  predicate SameStructure(es: seq<Entry>, r: Response) {
    ValidResponse(r) && |r.entries| == |es| && forall i :: 0 <= i < |es| ==> SameEntry(es[i], r.entries[i])
  }

  // ----- The tree -----

  /** kids[n] are the children of node n in order; node 0 is the root and item i is node i + 1. */
  ghost predicate Ordered(kids: seq<seq<nat>>) {
    |kids| >= 1 && forall n, i :: 0 <= n < |kids| && 0 <= i < |kids[n]| ==> n < kids[n][i] < |kids|
  }

  datatype Visit = Visit(node: nat, depth: nat)

  /** The nodes below n from its i-th child on, in preorder. */
  ghost function Preorder(kids: seq<seq<nat>>, n: nat, i: nat, depth: nat): seq<Visit>
    requires Ordered(kids) && n < |kids| && i <= |kids[n]|
    decreases |kids| - n, |kids[n]| - i
  {
    if i == |kids[n]| then []
    else [Visit(kids[n][i], depth)] + Preorder(kids, kids[n][i], 0, depth + 1) + Preorder(kids, n, i + 1, depth)
  }

  /** Every node below n from its i-th child on is less than m. */
  ghost predicate Below(kids: seq<seq<nat>>, n: nat, i: nat, m: nat)
    requires Ordered(kids) && n < |kids| && i <= |kids[n]|
    decreases |kids| - n, |kids[n]| - i
  {
    i < |kids[n]| ==> kids[n][i] < m && Below(kids, kids[n][i], 0, m) && Below(kids, n, i + 1, m)
  }

  lemma {:induction false} AllBelow(kids: seq<seq<nat>>, n: nat, i: nat)
    requires Ordered(kids) && n < |kids| && i <= |kids[n]|
    ensures Below(kids, n, i, |kids|)
    decreases |kids| - n, |kids[n]| - i
  {
    if i < |kids[n]| {
      AllBelow(kids, kids[n][i], 0);
      AllBelow(kids, n, i + 1);
    }
  }

  /** Node x becomes the last child of p, and has no children itself. */
  function Attach(kids: seq<seq<nat>>, p: nat): seq<seq<nat>>
    requires p < |kids|
  {
    kids[p := kids[p] + [|kids|]] + [[]]
  }

  /** What lies below n does not change when p gets a child, unless p is n or lies below it. */
  lemma {:induction false} Elsewhere(kids: seq<seq<nat>>, p: nat, n: nat, i: nat, depth: nat, m: nat)
    requires Ordered(kids) && p < |kids| && n < |kids| && i <= |kids[n]| && n != p
    requires n > p || (m <= p && Below(kids, n, i, m))
    ensures Ordered(Attach(kids, p)) && Attach(kids, p)[n] == kids[n]
    ensures Preorder(Attach(kids, p), n, i, depth) == Preorder(kids, n, i, depth)
    ensures Below(kids, n, i, m) ==> Below(Attach(kids, p), n, i, m)
    decreases |kids| - n, |kids[n]| - i
  {
    if i < |kids[n]| {
      Elsewhere(kids, p, kids[n][i], 0, depth + 1, m);
      Elsewhere(kids, p, n, i + 1, depth, m);
    }
  }

  lemma {:induction false} AttachedLast(kids: seq<seq<nat>>, p: nat, i: nat, depth: nat)
    requires Ordered(kids) && p < |kids| && i <= |kids[p]|
    ensures Ordered(Attach(kids, p))
            && Preorder(Attach(kids, p), p, i, depth) == Preorder(kids, p, i, depth) + [Visit(|kids|, depth)]
    decreases |kids[p]| - i
  {
    var after := Attach(kids, p);
    if i == |kids[p]| {
      assert after[p][i] == |kids|;
      assert Preorder(after, |kids|, 0, depth + 1) == [] && Preorder(after, p, i + 1, depth) == [];
    } else {
      Elsewhere(kids, p, kids[p][i], 0, depth + 1, 0);
      AttachedLast(kids, p, i + 1, depth);
    }
  }

  /** path runs from the root along last children; everything to its left was numbered before it. */
  ghost predicate Spine(kids: seq<seq<nat>>, path: seq<nat>) {
    && Ordered(kids) && |path| >= 1 && path[0] == 0 && (forall j :: 0 <= j < |path| ==> path[j] < |kids|)
    && forall j :: 0 <= j < |path| - 1 ==> Rightmost(kids, path[j], path[j + 1])
  }

  ghost predicate Rightmost(kids: seq<seq<nat>>, n: nat, last: nat)
    requires Ordered(kids) && n < |kids|
  {
    && kids[n] != [] && kids[n][|kids[n]| - 1] == last
    && forall i :: 0 <= i < |kids[n]| - 1 ==> kids[n][i] < last && Below(kids, kids[n][i], 0, last)
  }

  lemma {:induction false} Ascending(kids: seq<seq<nat>>, path: seq<nat>, j: nat, k: nat)
    requires Spine(kids, path) && j < k < |path|
    ensures path[j] < path[k]
    decreases k
  {
    assert Rightmost(kids, path[k - 1], path[k]);
    if j < k - 1 { Ascending(kids, path, j, k - 1); }
  }

  /** A child for the end of the path comes last in the preorder of everything above it. */
  lemma {:induction false} Grows(kids: seq<seq<nat>>, path: seq<nat>, j: nat)
    requires Spine(kids, path) && j < |path|
    ensures var p := path[|path| - 1];
            && Ordered(Attach(kids, p))
            && Preorder(Attach(kids, p), path[j], 0, j) == Preorder(kids, path[j], 0, j) + [Visit(|kids|, |path| - 1)]
    decreases |path| - j
  {
    var p := path[|path| - 1];
    if j == |path| - 1 {
      AttachedLast(kids, p, 0, j);
    } else {
      Grows(kids, path, j + 1);
      Ascending(kids, path, j, |path| - 1);
      if j + 1 < |path| - 1 { Ascending(kids, path, j + 1, |path| - 1); }
      assert Rightmost(kids, path[j], path[j + 1]);
      GrowsAbove(kids, p, path[j], path[j + 1], 0, j, Visit(|kids|, |path| - 1));
    }
  }

  lemma {:induction false} GrowsAbove(kids: seq<seq<nat>>, p: nat, n: nat, last: nat, i: nat, depth: nat, x: Visit)
    requires Ordered(kids) && n < p < |kids| && Ordered(Attach(kids, p)) && last <= p && Rightmost(kids, n, last)
             && i < |kids[n]|
    requires Preorder(Attach(kids, p), last, 0, depth + 1) == Preorder(kids, last, 0, depth + 1) + [x]
    ensures Preorder(Attach(kids, p), n, i, depth) == Preorder(kids, n, i, depth) + [x]
    decreases |kids[n]| - i
  {
    var c := kids[n][i];
    if i == |kids[n]| - 1 {
      LastChild(kids, n, depth);
      LastChild(Attach(kids, p), n, depth);
      Assoc([Visit(c, depth)], Preorder(kids, c, 0, depth + 1), [x]);
    } else {
      Elsewhere(kids, p, c, 0, depth + 1, last);
      GrowsAbove(kids, p, n, last, i + 1, depth, x);
      Assoc([Visit(c, depth)] + Preorder(kids, c, 0, depth + 1), Preorder(kids, n, i + 1, depth), [x]);
    }
  }

  lemma LastChild(kids: seq<seq<nat>>, n: nat, depth: nat)
    requires Ordered(kids) && n < |kids| && kids[n] != []
    ensures var c := kids[n][|kids[n]| - 1];
            Preorder(kids, n, |kids[n]| - 1, depth) == [Visit(c, depth)] + Preorder(kids, c, 0, depth + 1)
  {
    assert Preorder(kids, n, |kids[n]|, depth) == [];
  }

  lemma SpineGrows(kids: seq<seq<nat>>, path: seq<nat>)
    requires Spine(kids, path)
    ensures Spine(Attach(kids, path[|path| - 1]), path + [|kids|])
  {
    var p := path[|path| - 1];
    var after, longer := Attach(kids, p), path + [|kids|];
    forall j | 0 <= j < |longer| - 1 ensures Rightmost(after, longer[j], longer[j + 1]) {
      var n, last := longer[j], longer[j + 1];
      if j < |path| - 1 {
        Ascending(kids, path, j, |path| - 1);
        if j + 1 < |path| - 1 { Ascending(kids, path, j + 1, |path| - 1); }
        assert Rightmost(kids, n, last);
        forall i | 0 <= i < |after[n]| - 1 ensures after[n][i] < last && Below(after, after[n][i], 0, last) {
          Elsewhere(kids, p, kids[n][i], 0, 0, last);
        }
      } else {
        forall i | 0 <= i < |after[n]| - 1 ensures after[n][i] < last && Below(after, after[n][i], 0, last) {
          AllBelow(kids, kids[p][i], 0);
          Elsewhere(kids, p, kids[p][i], 0, 0, last);
        }
      }
    }
  }

  // ----- Replay -----

  /** A worker: its state and what it answers to a request. */
  type Worker<!W> = (W, Request) -> (W, Option<Response>)

  datatype Outcome<W> = Outcome(reply: Option<Response>, worker: W, requests: nat)

  predicate Free(e: Entry) { e.kind != Label && !e.locked }

  predicate Acceptable(saved: seq<Entry>, generation: nat, u: Option<Response>) {
    u.Some? && u.value.generation == generation && SameStructure(saved, u.value)
  }

  /** One pass of restoreLayers over the entries from i on. */
  function Replay<W>(saved: seq<Entry>, on: bool, i: nat, r: Response, w: W, step: Worker<W>): (o: Outcome<W>)
    requires i <= |saved| == |r.entries|
    ensures o.reply.Some? ==> |o.reply.value.entries| == |saved|
    decreases |saved| - i
  {
    if i == |saved| then Outcome(Some(r), w, 0)
    else if !Free(saved[i]) || saved[i].selected != on || r.entries[i].selected == on then
      Replay(saved, on, i + 1, r, w, step)
    else
      var (next, u) := step(w, Request(r.generation, i, on));
      if !Acceptable(saved, r.generation, u) then Outcome(None, next, 1)
      else
        var rest := Replay(saved, on, i + 1, u.value, next, step);
        rest.(requests := rest.requests + 1)
  }

  predicate SameSelection(a: seq<Entry>, b: seq<Entry>) {
    |a| == |b| && forall i :: 0 <= i < |a| ==> a[i].selected == b[i].selected
  }

  /** restoreLayers: deselect, then select, then compare. */
  function Restored<W>(saved: seq<Entry>, r: Response, w: W, step: Worker<W>): Outcome<W> {
    if !SameStructure(saved, r) then Outcome(None, w, 0) else
    var off := Replay(saved, false, 0, r, w, step);
    if off.reply.None? then off else
    var on := Replay(saved, true, 0, off.reply.value, off.worker, step);
    Outcome(if on.reply.Some? && SameSelection(on.reply.value.entries, saved) then on.reply else None,
            on.worker, off.requests + on.requests)
  }

  /** A pass that is not refused ends in a response of the same structure and generation. */
  lemma {:induction false} ReplayShape<W>(saved: seq<Entry>, on: bool, i: nat, r: Response, w: W, step: Worker<W>)
    requires i <= |saved| && SameStructure(saved, r)
    ensures var o := Replay(saved, on, i, r, w, step);
            o.reply.Some? ==> SameStructure(saved, o.reply.value) && o.reply.value.generation == r.generation
    decreases |saved| - i
  {
    if i < |saved| {
      if !Free(saved[i]) || saved[i].selected != on || r.entries[i].selected == on {
        ReplayShape(saved, on, i + 1, r, w, step);
      } else {
        var (next, u) := step(w, Request(r.generation, i, on));
        if Acceptable(saved, r.generation, u) { ReplayShape(saved, on, i + 1, u.value, next, step); }
      }
    }
  }

  /** Whatever the worker answers, a restore that succeeds ends in a reply that shows the saved selection. */
  lemma RestoreSound<W>(saved: seq<Entry>, r: Response, w: W, step: Worker<W>)
    ensures var o := Restored(saved, r, w, step);
            o.reply.Some? ==> SameStructure(saved, o.reply.value) && o.reply.value.generation == r.generation
                              && SameSelection(o.reply.value.entries, saved)
  {
    if SameStructure(saved, r) {
      var off := Replay(saved, false, 0, r, w, step);
      ReplayShape(saved, false, 0, r, w, step);
      if off.reply.Some? { ReplayShape(saved, true, 0, off.reply.value, off.worker, step); }
    }
  }

  class LayersModel {
    var state: Response
    var defaults: seq<bool>
    var checks: seq<Option<bool>>        // check state of every item, if it shows one
    var kids: seq<seq<nat>>              // the item tree
    ghost var flipped: set<nat>          // entries whose selection an accepted reply changed since the last reset

    /** Items show the recorded selection, and the tree read in preorder is the list of entries. */
    ghost predicate Valid()
      reads this
    {
      && |defaults| == |state.entries| && Shown(state.entries, checks, flipped) && Ordered(kids)
      && (forall i :: 0 <= i < |state.entries| ==> ValidEntry(state.entries, i))
      && Preorder(kids, 0, 0, 0) == Visits(state.entries, |state.entries|)
    }

    constructor ()
      ensures Valid() && state == Response(0, []) && flipped == {}
    {
      state, defaults, checks, kids, flipped := Response(0, []), [], [], [[]], {};
    }

    method ClearLayers()
      modifies this
      ensures Valid() && state == Response(0, []) && flipped == {}
    {
      state, defaults, checks, kids, flipped := Response(0, []), [], [], [[]], {};
    }

    /** resetLayers: all of the response, or nothing of it. */
    method ResetLayers(response: Response) returns (ok: bool)
      requires Valid()
      modifies this
      ensures Valid() && ok == ValidResponse(response)
      ensures ok ==> state == response && forall i :: 0 <= i < |defaults| ==>
                defaults[i] == response.entries[i].selected
      ensures flipped == if ok then {} else old(flipped)
      ensures !ok ==> state == old(state) && checks == old(checks) && kids == old(kids) && defaults == old(defaults)
    {
      if !ValidResponse(response) { return false; }
      var es := response.entries;
      var tree: seq<seq<nat>>, path: seq<nat>, shown, initial := [[]], [0], [], [];
      for i := 0 to |es|
        invariant Spine(tree, path) && |tree| == i + 1 && |path| == (if i == 0 then 1 else es[i - 1].depth + 2)
        invariant Preorder(tree, 0, 0, 0) == Visits(es, i)
        invariant |shown| == |initial| == i && forall j :: 0 <= j < i ==>
                    shown[j] == Check(es[j]) && initial[j] == es[j].selected
      {
        assert ValidEntry(es, i);
        path := path[..es[i].depth + 1];
        Grows(tree, path, 0);
        SpineGrows(tree, path);
        tree, path := Attach(tree, path[|path| - 1]), path + [|tree|];
        shown, initial := shown + [Check(es[i])], initial + [es[i].selected];
      }
      state, defaults, checks, kids, flipped := response, initial, shown, tree, {};
      return true;
    }

    method HasSameStructure(response: Response) returns (same: bool)
      ensures same == SameStructure(state.entries, response)
    {
      if !ValidResponse(response) || |response.entries| != |state.entries| { return false; }
      for i := 0 to |state.entries|
        invariant forall j :: 0 <= j < i ==> SameEntry(state.entries[j], response.entries[j])
      {
        if !SameEntry(state.entries[i], response.entries[i]) { return false; }
      }
      return true;
    }

    /**
     * setData on the check role. reply is what m_setLayer answers, if asked. An accepted reply is recorded whole:
     * every entry whose selection it changes, a label too, gets its new check state and is reported; without one
     * nothing changes.
     */
    method SetData(id: int, selected: bool, reply: Option<Response>)
      returns (ok: bool, asked: Option<Request>, changed: set<nat>)
      requires Valid()
      modifies `state, `checks, `flipped
      ensures Valid()
      ensures var known := 0 <= id < |old(state.entries)| && Free(old(state.entries)[id]);
              var differs := known && old(state.entries)[id].selected != selected;
              && asked == (if differs then Some(Request(old(state.generation), id, selected)) else None)
              && (ok <==> known && (differs ==> Acceptable(old(state.entries), old(state.generation), reply)))
              && state == (if ok && differs then reply.value else old(state))
      ensures changed == Flips(old(state.entries), state.entries) && flipped == old(flipped) + changed
      ensures |checks| == |old(checks)| == |state.entries| && forall i :: 0 <= i < |checks| ==>
                checks[i] == if i in changed then Some(state.entries[i].selected) else old(checks)[i]
    {
      ok, asked, changed := false, None, {};
      if id < 0 || id >= |state.entries| { return; }
      if !Free(state.entries[id]) { return; }
      if state.entries[id].selected == selected { return true, None, {}; }
      asked := Some(Request(state.generation, id, selected));
      if reply.None? || reply.value.generation != state.generation { return; }
      var same := HasSameStructure(reply.value);
      if !same { return; }
      changed := Record(reply.value);
      ok := true;
    }

    /** The rest of setData, once the reply is accepted. */
    method Record(response: Response) returns (changed: set<nat>)
      requires Valid() && SameStructure(state.entries, response)
      modifies `state, `checks, `flipped
      ensures Valid() && state == response
      ensures changed == Flips(old(state.entries), state.entries) && flipped == old(flipped) + changed
      ensures |checks| == |old(checks)| == |state.entries| && forall i :: 0 <= i < |checks| ==>
                checks[i] == if i in changed then Some(state.entries[i].selected) else old(checks)[i]
    {
      var shown;
      shown, changed := Update(state.entries, response.entries, checks);
      Reshow(state.entries, response.entries, kids);
      UpdateShows(state.entries, response.entries, checks, shown, flipped);
      state, checks, flipped := response, shown, flipped + changed;
    }

    /** restoreLayers against a worker: the recorded state becomes the last reply, or nothing changes. */
    method RestoreLayers<W>(response: Response, worker: W, step: Worker<W>)
      returns (ok: bool, after: W, ghost requests: nat)
      requires Valid()
      modifies `state
      ensures Valid()
      ensures var o := Restored(old(state.entries), response, worker, step);
              && ok == o.reply.Some? && after == o.worker && requests == o.requests
              && state == (if ok then o.reply.value else old(state))
      ensures SameSelection(state.entries, old(state.entries))
    {
      ok, after, requests := false, worker, 0;
      var same := HasSameStructure(response);
      if !same { return; }
      var r := response;
      var done;
      done, r, after, requests := Pass(false, r, after, step);
      ReplayShape(state.entries, false, 0, response, worker, step);
      if !done { return; }
      ghost var off := r; ghost var between := after; ghost var more;
      done, r, after, more := Pass(true, r, after, step);
      ReplayShape(state.entries, true, 0, off, between, step);
      requests := requests + more;
      if !done { return; }
      ok := Shows(r);
      if ok {
        Reshow(state.entries, r.entries, kids);
        state := r;
      }
    }

    method Shows(r: Response) returns (same: bool)
      requires |r.entries| == |state.entries|
      ensures same == SameSelection(r.entries, state.entries)
    {
      for i := 0 to |r.entries|
        invariant forall j :: 0 <= j < i ==> r.entries[j].selected == state.entries[j].selected
      {
        if r.entries[i].selected != state.entries[i].selected { return false; }
      }
      return true;
    }

    /** One direction of the replay. */
    method Pass<W>(on: bool, response: Response, worker: W, step: Worker<W>)
      returns (ok: bool, r: Response, after: W, ghost requests: nat)
      requires |response.entries| == |state.entries|
      ensures var o := Replay(state.entries, on, 0, response, worker, step);
              ok == o.reply.Some? && after == o.worker && (ok ==> r == o.reply.value)
      ensures requests == Replay(state.entries, on, 0, response, worker, step).requests
    {
      r, after, requests := response, worker, 0;
      ghost var all := Replay(state.entries, on, 0, response, worker, step);
      for i := 0 to |state.entries|
        invariant |r.entries| == |state.entries|
        invariant var o := Replay(state.entries, on, i, r, after, step);
                  all == o.(requests := o.requests + requests)
      {
        var e := state.entries[i];
        if Free(e) && e.selected == on && r.entries[i].selected != on {
          var (next, u) := step(after, Request(r.generation, i, on));
          after, requests := next, requests + 1;
          if u.None? || u.value.generation != r.generation { return false, r, after, requests; }
          var same := HasSameStructure(u.value);
          if !same { return false, r, after, requests; }
          r := u.value;
        }
      }
      return true, r, after, requests;
    }

    method IsDefaultVisibility() returns (yes: bool)
      requires Valid()
      ensures yes <==> forall i :: 0 <= i < |defaults| ==> state.entries[i].selected == defaults[i]
    {
      for i := 0 to |state.entries|
        invariant forall j :: 0 <= j < i ==> state.entries[j].selected == defaults[j]
      {
        if state.entries[i].selected != defaults[i] { return false; }
      }
      return true;
    }
  }

  /** The entries whose selections differ. */
  function Flips(a: seq<Entry>, b: seq<Entry>): set<nat> {
    set i | 0 <= i < |a| && i < |b| && a[i].selected != b[i].selected
  }

  lemma UpdateShows(es: seq<Entry>, after: seq<Entry>, checks: seq<Option<bool>>, shown: seq<Option<bool>>,
                    flipped: set<nat>)
    requires Shown(es, checks, flipped) && |es| == |after| == |shown|
    requires forall i :: 0 <= i < |es| ==> es[i].kind == after[i].kind
    requires forall i :: 0 <= i < |es| ==>
               shown[i] == if i in Flips(es, after) then Some(after[i].selected) else checks[i]
    ensures Shown(after, shown, flipped + Flips(es, after))
  {
  }

  /** Every entry whose selection differs gets its new check state and is reported. */
  method Update(es: seq<Entry>, after: seq<Entry>, checks: seq<Option<bool>>)
    returns (shown: seq<Option<bool>>, changed: set<nat>)
    requires |es| == |after| == |checks|
    ensures changed == Flips(es, after)
    ensures |shown| == |es| && forall i :: 0 <= i < |es| ==>
              shown[i] == if i in changed then Some(after[i].selected) else checks[i]
  {
    shown, changed := checks, {};
    for i := 0 to |es|
      invariant |shown| == |es| && changed == Flips(es[..i], after[..i])
      invariant forall j :: 0 <= j < |es| ==> shown[j] == if j in changed then Some(after[j].selected) else checks[j]
    {
      if es[i].selected != after[i].selected {
        shown, changed := shown[i := Some(after[i].selected)], changed + {i};
      }
    }
  }

  /** Entries of the same structure have the same tree. */
  lemma {:induction false} SameVisits(a: seq<Entry>, b: seq<Entry>, n: nat)
    requires n <= |a| == |b|
             && (forall i :: 0 <= i < |a| ==> ValidEntry(a, i) && ValidEntry(b, i) && SameEntry(a[i], b[i]))
    ensures Visits(a, n) == Visits(b, n)
  {
    if n > 0 {
      SameVisits(a, b, n - 1);
      assert SameEntry(a[n - 1], b[n - 1]);
    }
  }

  lemma Reshow(a: seq<Entry>, b: seq<Entry>, kids: seq<seq<nat>>)
    requires |a| == |b| && (forall i :: 0 <= i < |a| ==> ValidEntry(a, i) && ValidEntry(b, i) && SameEntry(a[i], b[i]))
    requires Ordered(kids) && Preorder(kids, 0, 0, 0) == Visits(a, |a|)
    ensures Preorder(kids, 0, 0, 0) == Visits(b, |b|)
  {
    SameVisits(a, b, |a|);
  }

  function Check(e: Entry): Option<bool> { if e.kind == Label then None else Some(e.selected) }

  /** Check boxes and radio buttons show the recorded selection; a label shows one exactly once it was flipped. */
  predicate Shown(es: seq<Entry>, checks: seq<Option<bool>>, flipped: set<nat>) {
    |checks| == |es| && forall i :: 0 <= i < |es| ==>
        checks[i] == if i in flipped then Some(es[i].selected) else Check(es[i])
  }

  ghost function Visits(es: seq<Entry>, n: nat): (v: seq<Visit>)
    requires n <= |es| && forall i :: 0 <= i < n ==> ValidEntry(es, i)
    ensures |v| == n
  {
    if n == 0 then [] else assert ValidEntry(es, n - 1); Visits(es, n - 1) + [Visit(n, es[n - 1].depth)]
  }

  // ----- Every run -----

  /** A worker that answers from a list, whatever it is asked. */
  function Scripted(): Worker<seq<Option<Response>>> {
    (answers: seq<Option<Response>>, q: Request) =>
      if answers == [] then (answers, None) else (answers[1..], answers[0])
  }

  datatype Op =
    | Clear
    | Reset(response: Response)
    | Set(id: int, selected: bool, reply: Option<Response>)
    | Restore(response: Response, answers: seq<Option<Response>>)

  /**
   * A label is not always bare. A worker that flips a label along with the layer it was asked for gets the label
   * a check state, which the user cannot change, and the label is reported as changed.
   */
  method LabelChecked() returns (checks: seq<Option<bool>>, changed: set<nat>)
    ensures checks == [Some(true), Some(true)] && changed == {0, 1}
  {
    LabelledIsValid(false);
    LabelledIsValid(true);
    var m := new LayersModel();
    var ok := m.ResetLayers(Labelled(false));
    var asked;
    ok, asked, changed := m.SetData(1, true, Some(Labelled(true)));
    checks := m.checks;
  }

  /** A label and a check box, both on or both off. */
  function Labelled(on: bool): Response {
    Response(1, [Entry(0, 0, "", Label, on, false), Entry(1, 0, "", CheckBox, on, false)])
  }

  lemma LabelledIsValid(on: bool)
    ensures ValidResponse(Labelled(on))
  {
    var es := Labelled(on).entries;
    assert es[..1][..0] == [] && TextBytes(es[..1]) == 0;
    forall i | 0 <= i < |es| ensures ValidEntry(es, i) { assert i == 0 || i == 1; }
  }

  /**
   * Whatever is done and answered, check boxes and radio buttons show the recorded selection, a label shows it
   * exactly if an accepted reply changed it since the last reset, and the tree is that of the entries.
   */
  method Run(script: seq<Op>) returns (m: LayersModel)
    ensures m.Valid() && Shown(m.state.entries, m.checks, m.flipped)
  {
    m := new LayersModel();
    for i := 0 to |script|
      invariant fresh(m) && m.Valid()
    {
      match script[i]
      case Clear => m.ClearLayers();
      case Reset(response) => var _ := m.ResetLayers(response);
      case Set(id, selected, reply) => var _, _, _ := m.SetData(id, selected, reply);
      case Restore(response, answers) => var _, _, _ := m.RestoreLayers(response, answers, Scripted());
    }
  }
}
