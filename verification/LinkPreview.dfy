/**
 * LinkPreview as a job scheduler, without widgets: hovering, rendering, dismissing and resetting
 * arrive in any order, jobs finish whenever they like, and what the cursor and the windows look
 * like is given as parameters.
 */
module LinkPreview {
  import opened Basics

  datatype PageState = Pending | Ready | Failed

  /** An image, with what it was rendered for. */
  datatype Picture = Picture(number: nat, size: nat, generation: nat)

  /** A page of the preview: number and pixel size, and the image it shows. */
  datatype Slot = Slot(number: nat, size: nat, state: PageState, shown: Option<Picture>)

  datatype Sheet = Sheet(number: nat, size: nat)

  /** The layout key: the destination and every page with its size. */
  datatype Key = NoKey | Key(destination: nat, sheets: seq<Sheet>)

  datatype Job =
    | RenderJob(token: nat, generation: nat, index: nat, sheet: Sheet)
    | ResolveJob(token: nat, generation: nat)

  predicate Laid(slots: seq<Slot>, key: Key) {
    key.Key? && |slots| == |key.sheets|
    && forall i :: 0 <= i < |slots| ==> slots[i].number == key.sheets[i].number && slots[i].size == key.sheets[i].size
  }

  class Preview {
    var cancelled: Option<nat>           // m_cancelled, by token
    var flags: set<nat>                  // tokens whose flag is set
    var tokens: nat                      // tokens made so far
    var resolving: bool                  // m_pendingUri is not empty
    var generation: nat
    var cache: map<Sheet, Picture>
    var key: Key
    var slots: seq<Slot>                 // m_pages
    var target: nat
    var visible: bool                    // the window exists and is visible
    var jobs: set<Job>                   // started and not yet delivered

    ghost predicate JobsOk()
      reads this
    {
      && (forall j :: j in jobs ==> j.generation <= generation && j.token < tokens)
      && (forall j, k :: j in jobs && k in jobs && j.token == k.token ==> j == k)
      && (forall j :: j in jobs && j.generation == generation ==>
            cancelled == Some(j.token) && j.ResolveJob? == resolving)
      && (cancelled.Some? ==> exists j :: j in jobs && j.generation == generation)
    }

    ghost predicate SlotsOk()
      reads this
    {
      && (key == NoKey ==> slots == []) && (key != NoKey ==> Laid(slots, key) && target < |slots|)
      && (visible ==> key != NoKey)
      && (forall i :: 0 <= i < |slots| && slots[i].shown.Some? ==>
            slots[i].shown.value == Picture(slots[i].number, slots[i].size, generation))
      && (forall s :: s in cache ==> cache[s] == Picture(s.number, s.size, generation))
      && (forall j :: j in jobs && j.generation == generation && j.RenderJob? ==>
            j.index < |slots| && j.sheet == Sheet(slots[j.index].number, slots[j.index].size))
    }

    ghost predicate Valid()
      reads this
    {
      JobsOk() && SlotsOk() && (resolving ==> cancelled.Some?)
    }

    /** At most one job of the current generation is under way, and one is exactly while m_cancelled is set. */
    lemma OneJob(j: Job, k: Job)
      requires Valid() && j in jobs && k in jobs && j.generation == k.generation == generation
      ensures j == k && cancelled == Some(j.token)
    {
    }

    constructor ()
      ensures Valid() && jobs == {} && cancelled == None
    {
      cancelled, flags, tokens, resolving, generation := None, {}, 0, false, 0;
      cache, key, slots, target, visible, jobs := map[], NoKey, [], 0, false, {};
    }

    /** dismiss: the job in flight is told to stop, but stays the job in flight. */
    method Dismiss()
      requires Valid()
      modifies `flags, `visible
      ensures Valid() && !visible && flags == old(flags) + if cancelled.Some? then {cancelled.value} else {}
    {
      if cancelled.Some? { flags := flags + {cancelled.value}; }
      visible := false;
    }

    /** clearPreview: jobs still on their way belong to a past generation. */
    method ClearPreview()
      requires Valid()
      modifies this
      ensures Valid() && generation == old(generation) + 1 && cancelled == None && cache == map[] && slots == []
              && jobs == old(jobs)
    {
      Dismiss();
      NextGeneration();
    }

    method NextGeneration()
      requires Valid() && !visible
      modifies `generation, `cancelled, `resolving, `cache, `slots, `key, `target
      ensures Valid() && generation == old(generation) + 1 && cancelled == None && cache == map[] && slots == []
    {
      generation := generation + 1;
      cancelled, resolving, cache, slots, key, target := None, false, map[], [], NoKey, 0;
    }

    /** showPreview of a link: sameHover says that link and cursor are those of the resolution in flight. */
    method ShowLink(sameHover: bool, overWidget: bool) returns (started: bool)
      requires Valid()
      modifies this
      ensures Valid() && (started <==> old(cancelled) == None && overWidget)
      ensures started ==>
                exists j :: j !in old(jobs) && jobs == old(jobs) + {j} && j.ResolveJob? && j.generation == generation
      ensures !started ==> jobs == old(jobs)
    {
      started := false;
      if cancelled.Some? {
        if !resolving || !sameHover { Dismiss(); }
        return;
      }
      if !overWidget { return; }
      Dismiss();
      var job := ResolveJob(tokens, generation);
      assert job !in jobs;
      cancelled, tokens, resolving, jobs := Some(tokens), tokens + 1, true, jobs + {job};
      started := true;
    }

    /** startRender: the one job in flight becomes the rendering of slot i. */
    method StartRender(i: nat)
      requires Valid() && cancelled == None && i < |slots|
      modifies `cancelled, `tokens, `jobs
      ensures Valid() && cancelled == Some(old(tokens)) && tokens == old(tokens) + 1
      ensures jobs == old(jobs) + {RenderJob(old(tokens), generation, i, Sheet(slots[i].number, slots[i].size))}
    {
      var job := RenderJob(tokens, generation, i, Sheet(slots[i].number, slots[i].size));
      cancelled, tokens, jobs := Some(tokens), tokens + 1, jobs + {job};
      assert job in jobs && job.generation == generation;
    }

    /** A page comes from the cache or from a new job. */
    method Load(i: nat)
      requires Valid() && cancelled == None && i < |slots|
      modifies `cancelled, `tokens, `jobs, `slots
      ensures Valid() && tokens >= old(tokens) && |slots| == old(|slots|)
              && (forall k :: 0 <= k < |slots| && k != i ==> slots[k] == old(slots[k]))
      ensures var sheet := Sheet(old(slots[i]).number, old(slots[i]).size);
              if sheet in cache
              then slots[i].state == Ready && slots[i].shown == Some(cache[sheet]) && jobs == old(jobs)
                   && cancelled == None
              else slots == old(slots) && jobs == old(jobs) + {RenderJob(old(tokens), generation, i, sheet)}
                   && cancelled == Some(old(tokens))
    {
      var sheet := Sheet(slots[i].number, slots[i].size);
      if sheet in cache {
        slots := slots[i := slots[i].(state := Ready, shown := Some(cache[sheet]))];
      } else {
        StartRender(i);
      }
    }

    /** renderVisiblePages: the destination first, then pages in view, until a job has to be started. */
    method RenderVisiblePages(seen: set<nat>)
      requires Valid()
      modifies `cancelled, `tokens, `jobs, `slots
      ensures Valid() && |slots| == old(|slots|) && old(jobs) <= jobs
              && (forall j :: j in jobs ==> j in old(jobs) || j.token >= old(tokens))
      ensures forall i :: 0 <= i < |slots| && old(slots[i]).state != Pending ==> slots[i] == old(slots[i])
      ensures old(cancelled).Some? ==> jobs == old(jobs) && slots == old(slots) && cancelled == old(cancelled)
      ensures cancelled == None && visible && slots[target].state != Failed ==>
                slots[target].state == Ready && forall i :: 0 <= i < |slots| && i in seen ==> slots[i].state != Pending
    {
      if !visible || slots == [] || cancelled.Some? { return; }
      if slots[target].state == Failed { return; }
      if slots[target].state == Pending { Load(target); }
      var i := 0;
      while i < |slots| && cancelled == None
        invariant i <= |slots| == old(|slots|) && Valid() && old(jobs) <= jobs && tokens >= old(tokens)
        invariant forall j :: j in jobs ==> j in old(jobs) || j.token >= old(tokens)
        invariant forall k :: 0 <= k < |slots| && old(slots[k]).state != Pending ==> slots[k] == old(slots[k])
        invariant cancelled == None ==> slots[target].state == Ready && forall k :: 0 <= k < i && k in seen ==>
                    slots[k].state != Pending
        decreases |slots| - i
      {
        if slots[i].state == Pending && i in seen { Load(i); }
        i := i + 1;
      }
    }

    /**
     * showPreview of a destination laid out as k with the destination at index at. inside: the cursor is in the
     * preview; elsewhere: a pinned preview is asked about another link; sized: mode, widget, screen and page size
     * allow a preview.
     */
    method ShowDestination(k: Key, at: nat, inside: bool, elsewhere: bool, sized: bool, sameParent: bool,
                           seen: set<nat>)
      returns (shown: bool)
      requires Valid() && k.Key? && at < |k.sheets|
      modifies this
      ensures Valid() && generation == old(generation) && old(jobs) <= jobs && cache == old(cache)
      ensures forall j :: j in jobs ==> j in old(jobs) || j.token >= old(tokens)
      ensures old(cancelled).Some? ==> jobs == old(jobs) && cancelled == old(cancelled)
      ensures shown <==> inside || (sized && (old(cancelled) == None
                                              || (!old(resolving) && k == old(key) && !elsewhere
                                                  && old(cancelled).value !in old(flags))))
      ensures shown && !inside ==> visible && key == k && Laid(slots, k)
    {
      if inside { return true; }
      if elsewhere { Dismiss(); }
      if !sized { return false; }
      if cancelled.Some? && (resolving || k != key || cancelled.value in flags) {
        Dismiss();
        return false;
      }
      Present(k, at, sameParent, seen);
      return true;
    }

    method Present(k: Key, at: nat, sameParent: bool, seen: set<nat>)
      requires Valid() && k.Key? && at < |k.sheets| && (cancelled.Some? ==> !resolving && k == key)
      modifies `key, `slots, `target, `visible, `cancelled, `tokens, `jobs
      ensures Valid() && visible && key == k && old(jobs) <= jobs
              && (forall j :: j in jobs ==> j in old(jobs) || j.token >= old(tokens))
      ensures old(cancelled).Some? ==> jobs == old(jobs) && cancelled == old(cancelled)
    {
      LayOut(k, at, sameParent);
      RenderVisiblePages(seen);
    }

    /** A new layout takes over only when no job runs, or when its slots are those of the layout the job is for. */
    method LayOut(k: Key, at: nat, sameParent: bool)
      requires Valid() && k.Key? && at < |k.sheets| && (cancelled.Some? ==> !resolving && k == key)
      modifies `key, `slots, `target, `visible
      ensures Valid() && visible && key == k
      ensures if old(key) == k && old(visible) && sameParent then slots == old(slots) && target == old(target)
              else target == at && forall i :: 0 <= i < |slots| ==> slots[i].state == Pending
    {
      if k != key || !visible || !sameParent {
        slots :=
          seq(|k.sheets|, i requires 0 <= i < |k.sheets| => Slot(k.sheets[i].number, k.sheets[i].size, Pending, None));
        target := at;
      }
      key, visible := k, true;
    }

    /**
     * A rendering is delivered. image says whether the renderer gave one of the right size; kept is what the cache
     * still holds after the insertion has evicted what it likes.
     */
    method DeliverRender(job: Job, image: bool, kept: set<Sheet>, seen: set<nat>) returns (landed: bool)
      requires Valid() && job in jobs && job.RenderJob?
      modifies this
      ensures Valid() && job !in jobs && generation == old(generation)
      ensures landed <==> job.generation == generation && job.token !in old(flags)
      ensures landed ==>
                job.index < |slots| && slots[job.index].number == job.sheet.number
                  && slots[job.index].size == job.sheet.size
                         && slots[job.index].state == if image then Ready else Failed
      ensures landed && visible ==>
                slots[job.index].shown ==
                  if image then Some(Picture(job.sheet.number, job.sheet.size, generation)) else None
      ensures !landed ==> slots == old(slots) && cache == old(cache)
      ensures job.generation != generation ==> cancelled == old(cancelled)
    {
      Remove(job);
      landed := false;
      if job.generation != generation { return; }
      if job.token in flags { return; }
      landed := true;
      Place(job, image, kept);
      if visible { RenderVisiblePages(seen); }
    }

    method Place(job: Job, image: bool, kept: set<Sheet>)
      requires Valid() && job.RenderJob? && job.index < |slots|
               && job.sheet == Sheet(slots[job.index].number, slots[job.index].size)
      modifies `slots, `cache
      ensures Valid() && |slots| == old(|slots|)
      ensures slots == old(slots)[job.index := slots[job.index]]
              && slots[job.index].state == if image then Ready else Failed
      ensures visible ==>
                slots[job.index].shown ==
                  if image then Some(Picture(job.sheet.number, job.sheet.size, generation)) else None
      ensures slots[job.index].number == job.sheet.number && slots[job.index].size == job.sheet.size
    {
      var i := job.index;
      var picture := Picture(job.sheet.number, job.sheet.size, generation);
      if image {
        slots := slots[i := slots[i].(state := Ready, shown := if visible then Some(picture) else slots[i].shown)];
        var grown := cache[job.sheet := picture];
        cache := map s | s in grown && s in kept :: grown[s];
      } else {
        slots := slots[i := slots[i].(state := Failed, shown := if visible then None else slots[i].shown)];
      }
    }

    /** The job leaves the pool; if it is of this generation, nothing is in flight any more. */
    method Remove(job: Job)
      requires Valid() && job in jobs
      modifies `jobs, `cancelled, `resolving
      ensures Valid() && jobs == old(jobs) - {job}
      ensures if job.generation == generation then cancelled == None && !resolving
              else cancelled == old(cancelled) && resolving == old(resolving)
    {
      jobs := jobs - {job};
      if job.generation == generation { cancelled, resolving := None, false; }
    }

    /** A resolution is delivered; wanted says that cursor and target are still those of the hover. */
    method DeliverResolve(job: Job, wanted: bool, k: Key, at: nat, sized: bool, sameParent: bool, seen: set<nat>)
      returns (shown: bool)
      requires Valid() && job in jobs && job.ResolveJob? && k.Key? && at < |k.sheets|
      modifies this
      ensures Valid() && job !in jobs && generation == old(generation) && cache == old(cache)
      ensures shown <==> job.generation == generation && job.token !in old(flags) && wanted && sized
    {
      Remove(job);
      shown := false;
      if job.generation != generation { return; }
      if job.token in flags || !wanted { return; }
      shown := ShowDestination(k, at, false, false, sized, sameParent, seen);
    }
  }

  datatype Event =
    | Hover(sameHover: bool, overWidget: bool)
    | Show(k: Key, at: nat, inside: bool, elsewhere: bool, sized: bool, sameParent: bool, seen: set<nat>)
    | Scroll(seen: set<nat>)
    | Leave
    | Clear
    | Rendered(job: Job, image: bool, kept: set<Sheet>, seen: set<nat>)
    | Resolved(job: Job, wanted: bool, k: Key, at: nat, sized: bool, sameParent: bool, seen: set<nat>)

  /** Every run; events that cannot happen are skipped. */
  method Run(script: seq<Event>) returns (p: Preview)
    ensures p.Valid()
    ensures p.cancelled.Some? <==> exists j :: j in p.jobs && j.generation == p.generation
    ensures forall j, k :: j in p.jobs && k in p.jobs && j.generation == k.generation == p.generation ==> j == k
    ensures forall s :: s in p.cache ==> p.cache[s] == Picture(s.number, s.size, p.generation)
  {
    p := new Preview();
    for i := 0 to |script|
      invariant fresh(p) && p.Valid()
    {
      match script[i]
      case Hover(sameHover, overWidget) => var _ := p.ShowLink(sameHover, overWidget);
      case Show(k, at, inside, elsewhere, sized, sameParent, seen) =>
        if k.Key? && at < |k.sheets| { var _ := p.ShowDestination(k, at, inside, elsewhere, sized, sameParent, seen); }
      case Scroll(seen) => p.RenderVisiblePages(seen);
      case Leave => p.Dismiss();
      case Clear => p.ClearPreview();
      case Rendered(job, image, kept, seen) =>
        if job in p.jobs && job.RenderJob? { var _ := p.DeliverRender(job, image, kept, seen); }
      case Resolved(job, wanted, k, at, sized, sameParent, seen) =>
        if job in p.jobs && job.ResolveJob? && k.Key? && at < |k.sheets| {
          var _ := p.DeliverResolve(job, wanted, k, at, sized, sameParent, seen);
        }
    }
    forall j, k | j in p.jobs && k in p.jobs && j.generation == k.generation == p.generation ensures j == k {
      p.OneJob(j, k);
    }
  }
}
