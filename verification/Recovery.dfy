/**
 * The generator's error gate and its recovery from worker failure: which events let worker-backed
 * operations run again, and that unsaved-edit flags never outlive the proxies that own the edits.
 */
module Recovery {
  import opened Basics
  import opened RestartBudget

  datatype Reason = SandboxGate | WorkerUnavailable

  /** Page::Error. */
  class PageError {
    var active: bool                     // m_message is published
    var reason: Reason
    var reloadQueued: bool

    ghost predicate Valid()
      reads this
    {
      reason == WorkerUnavailable ==> active
    }

    constructor ()
      ensures Valid() && !active
    {
      active, reason, reloadQueued := false, SandboxGate, false;
    }

    ghost predicate Terminal()
      reads this
    {
      active && reason == WorkerUnavailable
    }

    /** Never downgrades a terminal error. */
    method Activate(why: Reason)
      requires Valid()
      modifies this
      ensures Valid() && active && reason == (if old(Terminal()) then WorkerUnavailable else why)
              && reloadQueued == old(reloadQueued)
    {
      if active && reason == WorkerUnavailable { return; }
      reason, active := why, true;
    }

    /** True once per gate cycle; the message stays. */
    method Deactivate() returns (reload: bool)
      requires Valid()
      modifies `reloadQueued
      ensures Valid() && reload == old(active && reason == SandboxGate && !reloadQueued)
              && reloadQueued == (old(reloadQueued) || reload)
    {
      if !active || reason != SandboxGate || reloadQueued { return false; }
      reloadQueued := true;
      return true;
    }

    method Reset()
      requires Valid()
      modifies `active, `reloadQueued
      ensures Valid() && active == old(Terminal()) && reloadQueued == (old(reloadQueued) && old(Terminal()))
    {
      if reason == WorkerUnavailable { return; }
      active, reloadQueued := false, false;
    }
  }

  /** What the worker answers when the retained source is opened again. */
  datatype Answer = Answer(settings: bool, accepted: bool, pages: nat, count: nat, hash: Option<string>, layers: bool,
                           valuesChanged: bool)

  /** What the worker answers to a load. */
  datatype Loading = Loading(connected: bool, gated: bool, known: bool, settings: bool, accepted: bool, pages: nat,
                             hash: Option<string>, pdf: bool)
  {
    predicate Succeeds() { connected && (gated || (known && settings && accepted)) }

    /** The answer to a reopen is about the file this load was about, and nothing else is wrong with it. */
    predicate SameFile(a: Answer) {
      a.settings && a.accepted && a.pages == a.count == pages && (hash == None || a.hash == hash) && (pdf ==> a.layers)
    }
  }

  datatype Posted = Recover | Unavailable | Reopen

  /** Why operations may run: the first start, or since the last exit the load or a reopen and its comparison. */
  datatype Evidence =
    | Nothing
    | Started
    | Loaded
    | Reopened(found: nat, reported: nat, shown: nat, hash: Option<string>, expected: Option<string>)

  predicate Convincing(e: Evidence) {
    e.Loaded? || (e.Reopened? && e.found == e.reported == e.shown && (e.expected == None || e.hash == e.expected))
  }

  class Generator {
    const error: PageError
    var state: State                     // the worker client's
    var formsDirty: bool
    var annotationsDirty: bool
    var formsAvailable: bool
    var annotationsAvailable: bool
    var pages: nat                       // m_okularPages
    var source: bool                     // the source is retained
    var hash: Option<string>
    var pdf: bool
    var posted: seq<Posted>              // queued calls, oldest first
    ghost var evidence: Evidence

    ghost predicate Valid()
      reads this, error
    {
      && error.Valid() && (formsDirty ==> formsAvailable) && (annotationsDirty ==> annotationsAvailable)
      && (state == Ready ==> evidence == Started || Convincing(evidence))
    }

    /** Every worker-backed operation asks this first. */
    predicate WorkerReady()
      reads this, error
    {
      state == Ready && !error.active
    }

    constructor (started: bool)
      ensures Valid() && fresh(error) && !error.active && pages == 0 && !source && posted == []
    {
      error := new PageError();
      state := if started then Ready else Stopped;
      formsDirty, annotationsDirty, formsAvailable, annotationsAvailable := false, false, true, false;
      pages, source, hash, pdf, posted, evidence := 0, false, None, false, [], Started;
    }

    /** clearPageErrorDerivedState: edits and the proxies that took them go together. */
    method ClearDerivedState()
      modifies `formsDirty, `annotationsDirty, `formsAvailable, `annotationsAvailable
      ensures !formsDirty && !annotationsDirty && !formsAvailable && !annotationsAvailable
    {
      formsDirty, annotationsDirty := false, false;
      formsAvailable, annotationsAvailable := false, false;
    }

    method FailClosed()
      requires Valid()
      modifies `formsDirty, `annotationsDirty, `formsAvailable, `annotationsAvailable, error
      ensures Valid() && error.Terminal() && error.reloadQueued == old(error.reloadQueued)
      ensures !old(error.Terminal()) ==> !formsDirty && !annotationsDirty && !formsAvailable && !annotationsAvailable
      ensures old(error.Terminal()) ==> formsDirty == old(formsDirty) && annotationsDirty == old(annotationsDirty)
    {
      if error.active && error.reason == WorkerUnavailable { return; }
      error.Activate(WorkerUnavailable);
      ClearDerivedState();
    }

    /** Strict enforcement withholds the document. */
    method Withhold()
      requires Valid()
      modifies `formsDirty, `annotationsDirty, `formsAvailable, `annotationsAvailable, error
      ensures Valid() && error.active && (old(error.Terminal()) ==> error.Terminal()) && !formsDirty
              && !annotationsDirty
    {
      error.Activate(SandboxGate);
      ClearDerivedState();
    }

    /** processExited: the client's handler, then workerDied. exhausted: the restart budget is spent. */
    method WorkerExits(exhausted: bool) returns (lost: bool)
      requires Valid()
      modifies this
      ensures Valid() && !WorkerReady() && evidence == Nothing && state == if exhausted then Failed else Recovering
      ensures lost == old(formsDirty || annotationsDirty) && !formsDirty && !annotationsDirty && !formsAvailable
              && !annotationsAvailable
      ensures posted == if exhausted then old(posted) + [Unavailable] else old(posted)
      ensures pages == old(pages) && source == old(source) && hash == old(hash) && pdf == old(pdf)
    {
      evidence := Nothing;
      state := Recovering;
      formsAvailable, annotationsAvailable := false, false;
      lost := formsDirty || annotationsDirty;
      if lost { formsDirty, annotationsDirty := false, false; }
      if exhausted {
        state := Failed;
        posted := posted + [Unavailable];
      }
    }

    method WorkerRestarted()
      requires Valid()
      modifies `state, `posted
      ensures Valid() && state == Recovering && !WorkerReady()
      ensures posted == if error.active then old(posted) else old(posted) + [Recover]
    {
      state := Recovering;
      if !error.active { posted := posted + [Recover]; }
    }

    /** The answers under which the retained source may stand behind the pages on screen. */
    predicate Matches(gated: bool, a: Answer)
      reads this
    {
      && pages > 0 && source && !gated && a.settings && a.accepted && a.pages == pages == a.count
      && (hash == None || a.hash == hash) && (pdf ==> a.layers)
    }

    /** reopenWorkerDocument: safe only when page count and identity match the pages on screen. */
    method ReopenWorkerDocument(mark: bool, gated: bool, a: Answer) returns (ok: bool)
      requires Valid()
      modifies `formsDirty, `annotationsDirty, `formsAvailable, `annotationsAvailable, `evidence
      ensures Valid()
      ensures ok <==> Matches(gated, a)
      ensures ok ==>
                evidence == Reopened(a.pages, a.count, pages, a.hash, hash) && Convincing(evidence) && formsAvailable
                  && annotationsAvailable
      ensures ok ==> formsDirty == (mark && a.valuesChanged) && !annotationsDirty
      ensures !ok ==>
                evidence == old(evidence) && formsDirty == old(formsDirty) && annotationsDirty == old(annotationsDirty)
                      && formsAvailable == old(formsAvailable) && annotationsAvailable == old(annotationsAvailable)
    {
      if pages == 0 || !source { return false; }
      if gated { return false; }
      if !a.settings || !a.accepted { return false; }
      var matches := a.pages == pages && a.count == pages && (hash == None || a.hash == hash);
      if !matches { return false; }
      if pdf && !a.layers { return false; }
      formsDirty, annotationsDirty := mark && a.valuesChanged, false;
      formsAvailable, annotationsAvailable := true, true;
      evidence := Reopened(a.pages, a.count, pages, a.hash, hash);
      return true;
    }

    /** The queued call after a restart. */
    method RecoverSession(gated: bool, a: Answer)
      requires Valid()
      modifies `state, `formsDirty, `annotationsDirty, `formsAvailable, `annotationsAvailable, `evidence, error
      ensures Valid() && (old(error.Terminal()) ==> error.Terminal())
              && (evidence == old(evidence) || Convincing(evidence))
      ensures WorkerReady() && !old(WorkerReady()) ==>
                old(source) && !gated && evidence == Reopened(a.pages, a.count, pages, a.hash, hash)
                  && Convincing(evidence)
      ensures source ==> if Matches(gated, a)
                         then state == Ready && formsAvailable && annotationsAvailable
                              && error.active == old(error.active)
                         else state == Failed && error.active && (!gated ==> error.Terminal())
                              && (!old(error.Terminal()) ==> !formsDirty && !annotationsDirty)
      ensures !source ==> state == old(state) && error.active == old(error.active)
    {
      if !source { return; }
      var ok := ReopenWorkerDocument(false, gated, a);
      if ok {
        state := Ready;
      } else if gated {
        state := Failed;
        Withhold();
      } else {
        state := Failed;
        FailClosed();
      }
    }

    /** loadDocumentWithPassword and its in-memory twin. */
    method Load(l: Loading) returns (ok: bool)
      requires Valid()
      modifies this, error
      ensures Valid() && (old(error.Terminal()) ==> error.Terminal()) && posted == old(posted)
      ensures evidence == old(evidence) || evidence == Loaded
      ensures ok <==> l.Succeeds()
      ensures ok && !l.gated ==>
                state == Ready && evidence == Loaded && pages == l.pages && source && hash == l.hash && pdf == l.pdf
                  && error.active == old(error.Terminal())
      ensures ok && l.gated ==> error.active && pages == 1 && state == old(state) && source == old(source)
      ensures !ok ==>
                state == old(state) && error.active == old(error.active) && evidence == old(evidence)
                  && pages == old(pages)
    {
      if !l.connected { return false; }
      if l.gated {
        Withhold();
        pages := 1;
        return true;
      }
      if !l.known || !l.settings || !l.accepted { return false; }
      source := true;
      InitPages(l);
      return true;
    }

    /** The end of initPages is the only point where a load lets operations resume. */
    method InitPages(l: Loading)
      requires Valid()
      modifies `state, `formsDirty, `annotationsDirty, `formsAvailable, `annotationsAvailable, `pages, `hash, `pdf,
               `evidence, error
      ensures Valid() && state == Ready && evidence == Loaded && pages == l.pages && hash == l.hash && pdf == l.pdf
      ensures error.active == old(error.Terminal()) && (old(error.Terminal()) ==> error.Terminal())
      ensures !formsDirty && !annotationsDirty && formsAvailable && annotationsAvailable
    {
      error.Reset();
      hash, pdf, pages := l.hash, l.pdf, l.pages;
      formsDirty, annotationsDirty := false, false;
      formsAvailable, annotationsAvailable := true, true;
      state, evidence := Ready, Loaded;
    }

    method CloseDocument()
      requires Valid()
      modifies this, error
      ensures Valid() && (old(error.Terminal()) ==> error.Terminal()) && error.active == old(error.Terminal())
      ensures posted == [] && pages == 0 && !source && hash == None && state == old(state) && !formsDirty
              && !annotationsDirty
      ensures evidence == old(evidence)
    {
      posted := [];
      error.Reset();
      ClearDerivedState();
      pages, source, hash, pdf := 0, false, None, false;
    }

    /** updateSandboxGate. */
    method UpdateSandboxGate(gated: bool, document: bool)
      requires Valid()
      modifies `formsDirty, `annotationsDirty, `formsAvailable, `annotationsAvailable, `posted, error
      ensures Valid() && (old(error.Terminal()) ==> error.Terminal()) && (old(error.active) ==> error.active)
      ensures document && gated ==> error.active
      ensures document && gated && !old(error.active) && old(formsDirty || annotationsDirty) ==> error.Terminal()
      ensures posted == if document && !gated && old(error.active && error.reason == SandboxGate && !error.reloadQueued)
                        then old(posted) + [Reopen] else old(posted)
      ensures !document || !gated || old(error.active) ==>
                && error.active == old(error.active) && formsDirty == old(formsDirty)
                && annotationsDirty == old(annotationsDirty)
                && formsAvailable == old(formsAvailable) && annotationsAvailable == old(annotationsAvailable)
    {
      if gated == error.active || !document { return; }
      if gated {
        if formsDirty || annotationsDirty {
          FailClosed();
        } else {
          Withhold();
        }
      } else {
        var reload := error.Deactivate();
        if reload { posted := posted + [Reopen]; }
      }
    }

    /** reparseConfig: unsaved edits put a changed script setting off; otherwise the source is opened again. */
    method ReparseConfig(scripts: bool, document: bool, gated: bool, a: Answer)
      requires Valid()
      modifies `formsDirty, `annotationsDirty, `formsAvailable, `annotationsAvailable, `posted, `evidence, error
      ensures Valid() && (old(error.Terminal()) ==> error.Terminal()) && (old(error.active) ==> error.active)
      ensures document && gated ==> error.active
      ensures var refresh := scripts && document && pages > 0 && pdf && !old(formsDirty || annotationsDirty)
              && old(WorkerReady());
              && (refresh && !Matches(gated, a) ==> error.Terminal())
              && (refresh && Matches(gated, a) ==>
                    formsDirty == a.valuesChanged && formsAvailable && annotationsAvailable && !error.active
                                                   && evidence == Reopened(a.pages, a.count, pages, a.hash, hash))
              && (!refresh ==>
                    evidence == old(evidence)
                      && (!gated ==> formsDirty == old(formsDirty) && formsAvailable == old(formsAvailable)))
    {
      var activePdf := document && !error.active && pages > 0 && pdf;
      if scripts && activePdf && !formsDirty && !annotationsDirty && WorkerReady() {
        formsAvailable, annotationsAvailable := false, false;
        var ok := ReopenWorkerDocument(true, gated, a);
        if !ok { FailClosed(); }
      }
      UpdateSandboxGate(gated, document);
    }

    /**
     * swapBackingFile: a document that cannot be loaded again is lost for good. The page list stays the one from
     * before, so the new file can be reopened after an exit exactly if it has as many pages as the old one.
     */
    method SwapBackingFile(l: Loading) returns (ok: bool)
      requires Valid()
      modifies this, error
      ensures Valid() && (old(error.Terminal()) ==> error.Terminal())
      ensures ok <==> !old(error.active) && l.Succeeds()
      ensures !ok && !old(error.active) ==> error.Terminal()
      ensures ok && !l.gated ==>
                state == Ready && evidence == Loaded && !error.active && source && hash == l.hash && pdf == l.pdf
      ensures pages == if ok || old(error.active) then old(pages) else 0
      ensures posted == if old(error.active) then old(posted) else []
      ensures ok && !l.gated ==> forall gated: bool, a: Answer :: l.SameFile(a) ==>
                (Matches(gated, a) <==> !gated && l.pages == old(pages) > 0)
      ensures evidence == old(evidence) || Convincing(evidence)
    {
      if error.active { return false; }
      var current := pages;
      CloseDocument();
      ok := Load(l);
      if !ok {
        FailClosed();
        return;
      }
      pages := current;
    }

    /** A form edit the coordinator passes on. */
    method EditForm(changed: bool)
      requires Valid()
      modifies `formsDirty
      ensures Valid() && formsDirty == (old(formsDirty) || (formsAvailable && changed))
    {
      if formsAvailable && changed { formsDirty := true; }
    }

    /** An annotation edit; the proxy drops it while unavailable. */
    method EditAnnotation()
      requires Valid()
      modifies `annotationsDirty
      ensures Valid() && annotationsDirty == (old(annotationsDirty) || annotationsAvailable)
    {
      if annotationsAvailable { annotationsDirty := true; }
    }
  }

  // ----- Every run -----

  datatype Event =
    | Exit(exhausted: bool)
    | Restart
    | Deliver(gated: bool, answer: Answer, reload: Option<Loading>)   // the oldest queued call runs
    | LoadDocument(loading: Loading)
    | Close
    | Configure(scripts: bool, document: bool, gated: bool, answer: Answer)
    | Swap(loading: Loading)
    | FormEdit(changed: bool)
    | AnnotationEdit

  /** Once failed closed, no event makes the worker ready again; after an exit only a load or a matching reopen does. */
  method Step(g: Generator, e: Event)
    requires g.Valid()
    modifies g, g.error
    ensures g.Valid() && (old(g.error.Terminal()) ==> g.error.Terminal())
    ensures e.Exit? ==> !g.WorkerReady() && g.evidence == Nothing
    ensures old(g.evidence) == Nothing && g.evidence != Nothing ==>
              (e.Deliver? || e.LoadDocument? || e.Swap?) && Convincing(g.evidence)
  {
    match e
    case Exit(exhausted) => var _ := g.WorkerExits(exhausted);
    case Restart => g.WorkerRestarted();
    case Deliver(gated, answer, reload) => Dispatch(g, gated, answer, reload);
    case LoadDocument(loading) => var _ := g.Load(loading);
    case Close => g.CloseDocument();
    case Configure(scripts, document, gated, answer) => g.ReparseConfig(scripts, document, gated, answer);
    case Swap(loading) => var _ := g.SwapBackingFile(loading);
    case FormEdit(changed) => g.EditForm(changed);
    case AnnotationEdit => g.EditAnnotation();
  }

  /** reload is the load that follows the close when a withheld document is opened again, if it is a local file. */
  method Dispatch(g: Generator, gated: bool, answer: Answer, reload: Option<Loading>)
    requires g.Valid()
    modifies g, g.error
    ensures g.Valid() && (old(g.error.Terminal()) ==> g.error.Terminal())
    ensures g.evidence == old(g.evidence) || Convincing(g.evidence)
    ensures old(g.posted != [] && g.posted[0] == Recover && g.source && g.state == Recovering && !g.error.active) ==>
              if old(g.Matches(gated, answer)) then g.WorkerReady()
              else g.error.active && (!gated ==> g.error.Terminal())
  {
    if g.posted == [] { return; }
    var call := g.posted[0];
    g.posted := g.posted[1..];
    match call
    case Recover => g.RecoverSession(gated, answer);
    case Unavailable => g.FailClosed();
    case Reopen =>
      if reload.Some? {
        g.CloseDocument();
        var _ := g.Load(reload.value);
      }
  }

  /**
   * A document is loaded, its backing file swapped, the worker exits and is restarted, and the worker answers the
   * reopen truthfully about the new file. Operations resume exactly if the sandbox allows and the number of pages is
   * the old one.
   */
  method SwapThenRecover(l: Loading, swap: Loading, gated: bool, a: Answer) returns (g: Generator)
    requires l.Succeeds() && !l.gated && swap.Succeeds() && !swap.gated && swap.SameFile(a)
    ensures g.Valid() && (g.WorkerReady() <==> !gated && swap.pages == l.pages > 0)
    ensures g.error.active == !g.WorkerReady() && (g.error.active && !gated ==> g.error.Terminal())
  {
    g := new Generator(true);
    var ok := g.Load(l);
    ok := g.SwapBackingFile(swap);
    var lost := g.WorkerExits(false);
    g.WorkerRestarted();
    Dispatch(g, gated, a, None);
  }

  /** Three pages saved as four: the worker's exit is fatal although the worker reopens the file it last loaded. */
  method SwapLosesDocument() returns (g: Generator)
    ensures g.error.Terminal() && !g.WorkerReady()
  {
    var three := Loading(true, false, true, true, true, 3, None, false);
    g := SwapThenRecover(three, three.(pages := 4), false, Answer(true, true, 4, 4, None, true, false));
  }

  /** From a state that failed closed, whatever happens: every operation stays refused. */
  method RunFrom(g: Generator, script: seq<Event>)
    requires g.Valid()
    modifies g, g.error
    ensures g.Valid() && (old(g.error.Terminal()) ==> g.error.Terminal() && !g.WorkerReady())
  {
    for i := 0 to |script|
      invariant g.Valid() && (old(g.error.Terminal()) ==> g.error.Terminal())
    {
      Step(g, script[i]);
    }
  }
}
