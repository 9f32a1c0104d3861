/**
 * WorkerTransport: the plugin's end of the session with the isolated worker. The worker and the
 * operating system are the environment: every method takes what they answer as parameters and
 * assumes nothing about it. The members are the source's, kept in records by concern; the ghost
 * history records the run.
 */
module Transport {
  import opened Basics
  import opened Session
  import opened Exports
  import opened Leases
  import opened Links
  import opened Outlines

  // ----- What the environment sends -----

  datatype Phase = CreatingPages | Finalizing | PhaseSucceeded | PhaseFailed

  /** A notification, with what its handling meets: the finished file, whether the CMS reply is written. */
  datatype Note =
    | OcrDone
    | Progress(job: nat, completed: int, total: int, phase: Phase, disk: Disk)
    | PageLinks(generation: nat)
    | SignInput(request: nat, cert: string, replied: bool)

  /** The frame a render response describes; links is the generation of the page links beside it. */
  datatype Picture = Picture(slot: nat, lease: nat, transfer: nat, links: Option<nat>)

  datatype Body =
    | Error
    | Opened(pages: nat, generation: nat)
    | Rendered(picture: Picture)
    | Job(job: nat)
    | Signed(success: bool)
    | Outline(nodes: seq<string>)
    | Formats(suitable: bool)
    | Other

  datatype Frame = Response(id: nat, body: Body) | Notification(note: Note) | Garbage | Hangup

  /** One call: whether the request is written, the frames read while it waits, the frames found afterwards. */
  datatype Exchange = Exchange(written: bool, frames: seq<Frame>, idle: seq<Frame>)

  /** SigningAuthorization; accepting consumes it. */
  datatype Authorization = Authorization(requestId: nat, cert: string, consumed: bool) {
    predicate Accepts(n: Note)
      requires n.SignInput?
    {
      requestId != 0 && !consumed && n.request == requestId && n.cert == cert
    }
  }

  const NO_AUTHORIZATION := Authorization(0, "", false)

  predicate Done(n: Note) { n.Progress? && (n.phase.PhaseSucceeded? || n.phase.PhaseFailed?) }

  /** f tells that the export of this job has ended. */
  predicate Ends(f: Frame, job: nat) { f.Notification? && Done(f.note) && f.note.job == job }

  /** The response a request gets: the first frame that is not a notification, if nothing before it is refused. */
  function Expect(frames: seq<Frame>, i: nat, id: nat, auth: Authorization): Option<Body>
    requires i <= |frames|
    decreases |frames| - i
  {
    if i == |frames| then None
    else match frames[i]
      case Notification(n) =>
        if !n.SignInput? then Expect(frames, i + 1, id, auth)
        else if auth.Accepts(n) && n.replied then Expect(frames, i + 1, id, auth.(consumed := true))
        else None
      case Response(rid, body) => if rid == id then Some(body) else None
      case _ => None
  }

  /** What a request gets was sent under its own id. */
  lemma {:induction false} ResponseHasId(frames: seq<Frame>, i: nat, id: nat, auth: Authorization)
    requires i <= |frames| && Expect(frames, i, id, auth).Some?
    ensures exists j :: i <= j < |frames| && frames[j] == Response(id, Expect(frames, i, id, auth).value)
    decreases |frames| - i
  {
    if frames[i].Notification? {
      ResponseHasId(frames, i + 1, id, if frames[i].note.SignInput? then auth.(consumed := true) else auth);
    }
  }

  /** Frames that keep an idle session alive. */
  predicate Harmless(frames: seq<Frame>) {
    forall i :: 0 <= i < |frames| ==> frames[i].Notification? && !frames[i].note.SignInput?
  }

  predicate Plausible(n: Note)
    requires n.Progress?
  {
    && (n.phase.CreatingPages? || n.phase.Finalizing?) && n.total > 0 && 0 < n.completed <= n.total
    && (n.phase.Finalizing? <==> n.completed == n.total)
  }

  // ----- The members of WorkerTransport, by concern -----

  /** The channels and the worker process; request and transfer counters; the request in flight. */
  datatype Channel = Channel(ctrl: bool, running: bool, notifier: bool, inFlight: bool, nextId: nat, nextTransfer: nat,
                             auth: Authorization, password: string)
  {
    predicate Connected() { ctrl && running }
    function Closed(): Channel { Channel(false, false, false, false, nextId, nextTransfer, NO_AUTHORIZATION, "") }
    /** InFlightGuard's destructor. */
    function Settled(): Channel { this.(inFlight := false, auth := NO_AUTHORIZATION, password := "") }
  }

  /** m_export, and the file system by path. */
  datatype Desk = Desk(pending: Option<Export>, files: map<string, string>)

  /** m_linkGeneration and m_documentEpoch. */
  datatype Gate = Gate(generation: nat, epoch: nat)

  /** m_sourceFile, m_pdfPageCount and the cached synopsis. */
  datatype Cache = Cache(source: bool, pages: nat, synopsis: Option<seq<string>>, generated: bool)

  /** session is m_frameSession; table holds m_frameSlots, the live images and the queued releases. */
  datatype State = State(chan: Channel, desk: Desk, session: nat, table: Table, gate: Gate, cache: Cache)

  /** The run so far. */
  datatype History = History(wire: Traffic, ledger: Ledger, initial: map<string, string>, offers: seq<Offer>,
                             docs: Docs, truth: Truth)

  /** What call returns. */
  function Result(c: Channel, ask: Ask, io: Exchange): Option<Body> {
    if !c.Connected() || c.inFlight || !io.written then None
    else
      var auth := if ask.AskSign? then Authorization(c.nextId, ask.cert, false) else NO_AUTHORIZATION;
      Expect(io.frames, 0, c.nextId, auth)
  }

  function JobOf(r: Option<Body>): Option<nat> {
    if r.Some? && r.value.Job? && r.value.job != 0 then Some(r.value.job) else None
  }

  /** A known slot comes without a descriptor; a new one with, while there is room. */
  predicate Acceptable(p: Picture, slots: map<nat, nat>, received: bool) {
    p.slot != 0 && p.lease != 0
    && if p.slot in slots then p.transfer == 0 else p.transfer != 0 && |slots| < MAX_FRAME_SLOT_COUNT && received
  }

  // ----- Invariants -----

  /** owed: descriptors sent for a request still to be written. */
  predicate WireOk(wire: Traffic, c: Channel, owed: seq<nat>) {
    && Disciplined(wire) && Top(wire) < c.nextId && TopFd(wire) < c.nextTransfer && (c.ctrl <==> Live(wire))
    && (c.Connected() ==> Sent(wire) == Named(wire) + owed)
    && (Pending(wire).Some? ==> c.inFlight)
    && (c.auth.requestId != 0 ==>
          && Pending(wire).Some? && Pending(wire).value.id == c.auth.requestId
          && Pending(wire).value.cert == Some(c.auth.cert)
          && (Pending(wire).value.replied ==> c.auth.consumed))
  }

  /** Everything but the channels. */
  ghost predicate PartsOk(s: State, h: History) {
    && DeskOk(h.ledger, h.initial, s.desk.files, s.desk.pending)
    && TableOk(s.table, h.offers, s.session, s.chan.Connected())
    && LinksOk(h.docs, s.gate.generation, s.gate.epoch) && CacheOk(h.truth, s.cache.synopsis, s.cache.generated)
    && (s.cache.synopsis.Some? ==> s.cache.source)
  }

  ghost predicate Ok(s: State, h: History, owed: seq<nat>) {
    && WireOk(h.wire, s.chan, owed) && PartsOk(s, h) && ReleasesOk(h.wire, h.offers, s.session)
    && (!s.chan.ctrl ==> !s.chan.notifier && !s.chan.inFlight && s.desk.pending == None && s.table.slots == map[])
  }

  /** Between operations nothing is in flight and no authorization or password is kept. */
  predicate Quiet(c: Channel) { !c.inFlight && c.auth == NO_AUTHORIZATION && c.password == "" }

  /** What an exchange with the worker cannot do: revive a session, begin an export, bring a document back. */
  predicate Fades(s: State, t: State) {
    && (t.chan.ctrl ==> s.chan.ctrl && t.session == s.session) && (t.chan.running ==> s.chan.running)
    && (t.chan.notifier ==> s.chan.notifier) && (t.desk.pending.Some? ==> t.desk.pending == s.desk.pending)
    && (t.cache.source ==> s.cache.source && t.cache.pages == s.cache.pages)
    && (t.cache.synopsis.Some? ==> t.cache.synopsis == s.cache.synopsis && t.cache.generated == s.cache.generated)
    && t.chan.nextId >= s.chan.nextId && t.chan.nextTransfer == s.chan.nextTransfer && t.gate.epoch >= s.gate.epoch
  }

  /** An exchange only passes on the progress of a pending export; without one it changes no file. */
  predicate DeskStill(s: State, t: State, h: History, k: History) {
    && (s.desk.pending.None? ==> t.desk == s.desk && k.ledger == h.ledger)
    && Decisions(k.ledger) == Decisions(h.ledger) && Registrations(k.ledger) == Registrations(h.ledger)
    && k.initial == h.initial
  }

  // ----- Exports and files -----

  /** finalizeOutputFile: the target keeps its old content unless every step succeeds. */
  method FinalizeOutputFile(files: map<string, string>, target: string, disk: Disk)
    returns (after: map<string, string>, published: bool)
    ensures published == disk.Good()
    ensures after == if published then files[target := disk.content] else files
  {
    if !disk.flushed { return files, false; }
    if !disk.synced { return files, false; }
    if !disk.renamed { return files, false; }
    return files[target := disk.content], true;
  }

  /** completeExport: the only way an export ends with a signal; success means the target was replaced. */
  method CompleteExport(d: Desk, ghost l: Ledger, ghost initial: map<string, string>, success: bool, disk: Disk)
    returns (after: Desk, ghost m: Ledger)
    requires DeskOk(l, initial, d.files, d.pending)
    ensures DeskOk(m, initial, after.files, after.pending) && after.pending == None
    ensures d.pending.None? ==> m == l && after == d
    ensures d.pending.Some? ==>
              var e := d.pending.value;
              if success && disk.Good()
              then m == Entry(l, Succeeded(e.job, e.target, disk.content))
                   && after.files == d.files[e.target := disk.content]
              else m == Entry(l, Failed(e.job)) && after.files == d.files
  {
    if d.pending.None? { return d, l; }
    var e := d.pending.value;
    var files, delivered := d.files, false;
    if success { files, delivered := FinalizeOutputFile(d.files, e.target, disk); }
    after := Desk(None, files);
    m := Entry(l, if delivered then Succeeded(e.job, e.target, disk.content) else Failed(e.job));
  }

  // ----- Teardown -----

  function ClearDocument(c: Cache): Cache { c.(source := false, pages := 0, synopsis := None) }

  lemma EndOk(w: Traffic, c: Channel)
    requires Disciplined(w) && Top(w) < c.nextId && TopFd(w) < c.nextTransfer
    ensures WireOk(Then(w, End), c.Closed(), [])
  {
  }

  /** cleanupSession, from any state a session can be in. */
  method CleanupSession(s: State, ghost h: History) returns (t: State, ghost k: History)
    requires Disciplined(h.wire) && Top(h.wire) < s.chan.nextId && TopFd(h.wire) < s.chan.nextTransfer && PartsOk(s, h)
    requires ReleasesOk(h.wire, h.offers, s.session)
    ensures Ok(t, k, []) && t.chan == s.chan.Closed() && Fades(s, t) && !t.cache.source && t.cache.synopsis == None
    ensures t.session == s.session + 1 && Past(k.offers, t.session) && t.gate == s.gate.(epoch := s.gate.epoch + 1)
    ensures t.desk.files == s.desk.files && t.table == s.table.(slots := map[], refs := t.table.refs)
    ensures k == h.(wire := Then(h.wire, End), docs := h.docs.EndSession(),
                    ledger := if s.desk.pending.Some? then Entry(h.ledger, Failed(s.desk.pending.value.job))
                              else h.ledger)
  {
    EndOk(h.wire, s.chan);
    ReleasesPass(h.wire, End, h.offers, s.session);
    NextSession(h.offers, s.table.held, s.table.tasks, s.session, s.chan.Connected());
    Links.Advance(h.docs, s.gate.generation, s.gate.epoch);
    var table := ClearSlots(s.table, h.offers, s.session + 1, false);
    var desk; ghost var ledger;
    desk, ledger := CompleteExport(s.desk, h.ledger, h.initial, false, Disk("", false, false, false));
    t := State(s.chan.Closed(), desk, s.session + 1, table, s.gate.(epoch := s.gate.epoch + 1), ClearDocument(s.cache));
    k := h.(wire := Then(h.wire, End), docs := h.docs.EndSession(), ledger := ledger);
  }

  // ----- Notifications -----

  /** Handling a notification touches only the counters, the pending export and what the generator is handed. */
  predicate Handled(s: State, t: State, h: History, k: History) {
    && t == s.(chan := s.chan.(nextId := t.chan.nextId, auth := t.chan.auth), desk := t.desk)
    && t.chan.nextId >= s.chan.nextId
    && t.chan.auth == s.chan.auth.(consumed := t.chan.auth.consumed)
    && (s.chan.auth.requestId == 0 ==> t.chan.nextId == s.chan.nextId)
    && (t.desk.pending.Some? ==> t.desk.pending == s.desk.pending) && DeskStill(s, t, h, k)
    && k == h.(wire := k.wire, ledger := k.ledger, docs := h.docs.(batches := k.docs.batches))
    && Sent(k.wire) == Sent(h.wire) && Named(k.wire) == Named(h.wire) && Live(k.wire) == Live(h.wire)
    && TopFd(k.wire) == TopFd(h.wire)
    && Pending(k.wire).Some? == Pending(h.wire).Some?
    && (Pending(h.wire).Some? ==>
          Pending(k.wire).value.id == Pending(h.wire).value.id
            && Pending(k.wire).value.cert == Pending(h.wire).value.cert)
  }

  lemma HandledTwice(s: State, t: State, u: State, h: History, k: History, l: History)
    requires Handled(s, t, h, k) && Handled(t, u, k, l)
    ensures Handled(s, u, h, l)
  {
  }

  /** The session ends after some notifications. */
  method Abort(s: State, ghost h: History, ghost s0: State, ghost h0: History) returns (t: State, ghost k: History)
    requires Ok(s, h, []) && Handled(s0, s, h0, h)
    ensures Ok(t, k, []) && !t.chan.ctrl && Quiet(t.chan) && Fades(s0, t) && DeskStill(s0, t, h0, k)
    ensures k.truth == h0.truth && k.offers == h0.offers && t.gate.generation == s0.gate.generation
            && t.desk.pending == None
    ensures t.chan.nextId == s.chan.nextId && !t.cache.source
  {
    t, k := CleanupSession(s, h);
  }

  /** Progress of the pending export; of any other job it is stale. */
  method HandleProgress(s: State, ghost h: History, n: Note) returns (t: State, ghost k: History)
    requires Ok(s, h, []) && s.chan.ctrl && n.Progress?
    ensures Ok(t, k, []) && t == s.(desk := t.desk) && k == h.(ledger := k.ledger)
    ensures t.desk.pending.Some? ==>
              t.desk.pending == s.desk.pending && !Ends(Notification(n), t.desk.pending.value.job)
    ensures DeskStill(s, t, h, k)
  {
    t, k := s, h;
    if s.desk.pending.None? || s.desk.pending.value.job != n.job { return; }
    if Done(n) {
      var desk; ghost var ledger;
      desk, ledger := CompleteExport(s.desk, h.ledger, h.initial, n.phase.PhaseSucceeded?, n.disk);
      t, k := s.(desk := desk), h.(ledger := ledger);
    } else if Plausible(n) {
      k := h.(ledger := Entry(h.ledger, Progressed(n.job)));
    }
  }

  /** A CMS reply is written only for the signing request in flight, once. */
  method HandleSignInput(s: State, ghost h: History, n: Note) returns (t: State, ghost k: History, ok: bool)
    requires Ok(s, h, []) && s.chan.ctrl && n.SignInput?
    ensures Ok(t, k, []) && Handled(s, t, h, k) && t.desk == s.desk
    ensures ok == (s.chan.inFlight && s.chan.auth.Accepts(n) && n.replied)
    ensures !s.chan.inFlight ==> t.chan == s.chan
    ensures ok ==> t.chan.auth == s.chan.auth.(consumed := true)
    ensures k ==
            if ok then h.(wire := Then(h.wire, Reply(s.chan.nextId, s.chan.auth.requestId, s.chan.auth.cert))) else h
  {
    t, k := s, h;
    if !s.chan.inFlight || !s.chan.auth.Accepts(n) { return t, k, false; }
    t := s.(chan := s.chan.(auth := s.chan.auth.(consumed := true), nextId := s.chan.nextId + 1));
    if !n.replied { return t, k, false; }
    ghost var reply := Reply(s.chan.nextId, s.chan.auth.requestId, s.chan.auth.cert);
    ReleasesPass(h.wire, reply, h.offers, s.session);
    k := h.(wire := Then(h.wire, reply));
    ok := true;
  }

  method HandleNotification(s: State, ghost h: History, n: Note) returns (t: State, ghost k: History, ok: bool)
    requires Ok(s, h, []) && s.chan.ctrl
    ensures Ok(t, k, []) && Handled(s, t, h, k)
    ensures t.desk.pending.Some? ==> !Ends(Notification(n), t.desk.pending.value.job)
    ensures ok == (n.SignInput? ==> s.chan.inFlight && s.chan.auth.Accepts(n) && n.replied)
    ensures !s.chan.inFlight ==> t.chan == s.chan
    ensures ok ==> t.chan.auth == if n.SignInput? then s.chan.auth.(consumed := true) else s.chan.auth
  {
    t, k, ok := s, h, true;
    match n
    case OcrDone =>
    case Progress(_, _, _, _, _) => t, k := HandleProgress(s, h, n);
    case PageLinks(g) =>
      if g == s.gate.generation {
        Links.Deliver(h.docs, g, s.gate.epoch, s.gate.epoch);
        k := h.(docs := h.docs.Hand(g, s.gate.epoch));
      }
    case SignInput(_, _, _) => t, k, ok := HandleSignInput(s, h, n);
  }

  /** processIncomingNotifications: anything but a notification it can handle ends the session. */
  method Drain(s: State, ghost h: History, frames: seq<Frame>) returns (t: State, ghost k: History)
    requires Ok(s, h, []) && Quiet(s.chan)
    ensures Ok(t, k, []) && Quiet(t.chan) && Fades(s, t) && DeskStill(s, t, h, k) && k.truth == h.truth
            && k.offers == h.offers
    ensures t.desk.pending.Some? ==> forall i :: 0 <= i < |frames| ==> !Ends(frames[i], t.desk.pending.value.job)
    ensures t.chan.ctrl ==> t == s.(desk := t.desk) && k.docs.document == h.docs.document
    ensures t.gate.generation == s.gate.generation && t.chan.nextId == s.chan.nextId
            && (t.chan.ctrl <==> s.chan.ctrl && Harmless(frames))
    ensures s.chan.ctrl && !t.chan.ctrl ==> !t.cache.source
  {
    t, k := s, h;
    if s.chan.inFlight || !s.chan.ctrl { return; }
    var i := 0;
    while i < |frames|
      invariant i <= |frames| && Ok(t, k, []) && t.chan == s.chan && Handled(s, t, h, k) && Harmless(frames[..i])
      invariant t.desk.pending.Some? ==> forall j :: 0 <= j < i ==> !Ends(frames[j], t.desk.pending.value.job)
    {
      if !frames[i].Notification? {
        t, k := Abort(t, k, s, h);
        return;
      }
      var u, ok; ghost var l;
      u, l, ok := HandleNotification(t, k, frames[i].note);
      HandledTwice(s, t, u, h, k, l);
      t, k := u, l;
      if !ok {
        t, k := Abort(t, k, s, h);
        return;
      }
      i := i + 1;
    }
  }

  /** receiveResponse: frames until the response with the request's id; anything else ends the session. */
  method ReceiveResponse(s: State, ghost h: History, id: nat, frames: seq<Frame>)
    returns (t: State, ghost k: History, r: Option<Body>)
    requires Ok(s, h, []) && s.chan.ctrl && s.chan.inFlight && Pending(h.wire).Some? && Pending(h.wire).value.id == id
    ensures Ok(t, k, []) && Fades(s, t) && DeskStill(s, t, h, k) && k.truth == h.truth && k.offers == h.offers
    ensures r == Expect(frames, 0, id, s.chan.auth) && t.gate.generation == s.gate.generation
    ensures if r.Some? then Handled(s, t, h, k) else !t.chan.ctrl && Quiet(t.chan) && !t.cache.source
  {
    t, k, r := s, h, None;
    var i := 0;
    while i < |frames| && frames[i].Notification?
      invariant i <= |frames| && Ok(t, k, []) && Handled(s, t, h, k)
      invariant Expect(frames, i, id, t.chan.auth) == Expect(frames, 0, id, s.chan.auth)
    {
      var u, ok; ghost var l;
      u, l, ok := HandleNotification(t, k, frames[i].note);
      HandledTwice(s, t, u, h, k, l);
      t, k := u, l;
      if !ok {
        t, k := Abort(t, k, s, h);
        return;
      }
      i := i + 1;
    }
    if i < |frames| && frames[i].Response? && frames[i].id == id {
      r := Some(frames[i].body);
    } else {
      t, k := Abort(t, k, s, h);
    }
  }

  // ----- Calls -----

  /** A descriptor leaves under the next transfer id, or nothing does. */
  method SendDescriptor(s: State, ghost h: History, works: bool, ghost owed: seq<nat>)
    returns (t: State, ghost k: History, id: nat, sent: bool)
    requires Ok(s, h, owed)
    ensures id == s.chan.nextTransfer && t == s.(chan := s.chan.(nextTransfer := id + 1))
    ensures sent == (works && s.chan.ctrl) && k == if sent then h.(wire := Then(h.wire, Fd(id))) else h
    ensures Ok(t, k, if sent then owed + [id] else owed)
  {
    id := s.chan.nextTransfer;
    t, k := s.(chan := s.chan.(nextTransfer := id + 1)), h;
    sent := works && s.chan.ctrl;
    if sent {
      k := h.(wire := Then(h.wire, Fd(id)));
      ReleasesPass(h.wire, Fd(id), h.offers, s.session);
      assert s.chan.Connected() ==> Sent(k.wire) == Named(k.wire) + (owed + [id]);
    }
  }

  /** A release is asked for only under the terms of an offer of this session, while it is being given back. */
  predicate Due(ask: Ask, offers: seq<Offer>, session: nat) {
    ask.AskRelease? ==> GivesBack(ask, offers, session) && offers[ask.offer].fate.Returning?
  }

  /** Asking for a document begins a new epoch. */
  function Announce(g: Gate, ask: Ask): Gate { if ask.AskOpen? then g.(epoch := g.epoch + 1) else g }

  lemma AnnounceKeeps(docs: Docs, g: Gate, ask: Ask)
    requires LinksOk(docs, g.generation, g.epoch) && (ask.AskOpen? ==> g.generation == 0)
    ensures LinksOk(if ask.AskOpen? then docs.Shut() else docs, g.generation, Announce(g, ask).epoch)
  {
    Links.Advance(docs, 0, g.epoch);
  }

  /** What call sets before it writes: the request takes the next id, a signing request is authorized under it. */
  function Prepared(s: State, ask: Ask): State {
    var id := s.chan.nextId;
    s.(chan := s.chan.(inFlight := true, nextId := id + 1,
                       auth := if ask.AskSign? then Authorization(id, ask.cert, false) else NO_AUTHORIZATION),
       gate := Announce(s.gate, ask))
  }

  lemma RequestOnWire(s: State, h: History, e: Event)
    requires e.Req? && Ok(s, h, e.names) && Due(e.ask, h.offers, s.session)
    ensures ReleasesOk(Then(h.wire, e), Answered(h.offers, e.ask, true), s.session)
    ensures TableOk(s.table, Answered(h.offers, e.ask, true), s.session, s.chan.Connected())
  {
    if e.ask.AskRelease? {
      ReleaseWritten(h.wire, h.offers, s.session, e);
      SettleKeeps(s.table, h.offers, s.session, s.chan.Connected(), e.ask.offer, Released);
    } else {
      ReleasesPass(h.wire, e, h.offers, s.session);
    }
  }

  /** Phase 3 of call: the request is written. */
  ghost method WriteRequest(s: State, h: History, names: seq<nat>, ask: Ask) returns (k: History)
    requires Ok(s, h, names) && s.chan.Connected() && !s.chan.inFlight && s.chan.auth == NO_AUTHORIZATION
    requires (ask.AskOpen? ==> s.gate.generation == 0) && Due(ask, h.offers, s.session)
    ensures Ok(Prepared(s, ask), k, [])
    ensures k == h.(wire := Then(h.wire, Req(s.chan.nextId, names, ask)),
                    docs := if ask.AskOpen? then h.docs.Shut() else h.docs,
                    offers := Answered(h.offers, ask, true))
  {
    AnnounceKeeps(h.docs, s.gate, ask);
    var request := Req(s.chan.nextId, names, ask);
    RequestOnWire(s, h, request);
    k := h.(wire := Then(h.wire, request), docs := if ask.AskOpen? then h.docs.Shut() else h.docs,
            offers := Answered(h.offers, ask, true));
    assert Sent(k.wire) == Named(k.wire) + [];
  }

  /** An offer whose release could not be written lapses with the session. */
  ghost method NotWritten(s: State, h: History, ask: Ask) returns (k: History)
    requires Ok(s, h, []) && !s.chan.ctrl
    requires ask.AskRelease? ==> ask.offer < |h.offers| && h.offers[ask.offer].fate.Returning?
    ensures Ok(s, k, []) && k == h.(offers := Answered(h.offers, ask, false))
  {
    k := h.(offers := Answered(h.offers, ask, false));
    if ask.AskRelease? {
      SettleKeeps(s.table, h.offers, s.session, s.chan.Connected(), ask.offer, Lapsed);
      SettleStill(h.wire, h.offers, ask.offer, Lapsed, s.session);
    }
  }

  /** The request cannot be written: the session ends, and with it an offer that was being given back. */
  method FailRequest(s: State, ghost h: History, ghost names: seq<nat>, ask: Ask) returns (t: State, ghost k: History)
    requires Ok(s, h, names) && s.chan.Connected()
    requires (ask.AskOpen? ==> s.gate.generation == 0) && Due(ask, h.offers, s.session)
    ensures Ok(t, k, []) && Fades(s, t) && DeskStill(s, t, h, k) && k.truth == h.truth
    ensures k.offers == Answered(h.offers, ask, false) && t.gate.generation == s.gate.generation
    ensures t.chan == s.chan.(nextId := s.chan.nextId + 1).Closed() && !t.cache.source
  {
    AnnounceKeeps(h.docs, s.gate, ask);
    t, k := CleanupSession(Prepared(s, ask), h.(docs := if ask.AskOpen? then h.docs.Shut() else h.docs));
    k := NotWritten(t, k, ask);
  }

  /** An OpenResponse publishes its generation; the guard then leaves nothing in flight. */
  method AcceptResponse(s: State, ghost h: History, id: nat, ask: Ask, body: Body) returns (t: State, ghost k: History)
    requires Ok(s, h, []) && s.chan.ctrl && s.chan.inFlight && Pending(h.wire).Some? && Pending(h.wire).value.id == id
    requires ask.AskOpen? ==> h.docs.document == None
    ensures Ok(t, k, []) && t == s.(chan := s.chan.Settled(), gate := t.gate)
    ensures k == h.(wire := Then(h.wire, Resp(id)), docs := k.docs)
    ensures if ask.AskOpen? && body.Opened?
            then t.gate == s.gate.(generation := body.generation) && k.docs == h.docs.Open(body.generation)
            else t.gate == s.gate && k.docs == h.docs
  {
    t := s.(chan := s.chan.Settled());
    k := h.(wire := Then(h.wire, Resp(id)));
    ReleasesPass(h.wire, Resp(id), h.offers, s.session);
    if ask.AskOpen? && body.Opened? {
      Links.Publish(h.docs, s.gate.generation, s.gate.epoch, body.generation);
      t := t.(gate := s.gate.(generation := body.generation));
      k := k.(docs := h.docs.Open(body.generation));
    }
  }

  /** Phases 2 to 4 of call, with the guard: whatever happens, nothing stays in flight. */
  method Perform(s: State, ghost h: History, names: seq<nat>, ask: Ask, io: Exchange)
    returns (t: State, ghost k: History, r: Option<Body>)
    requires Ok(s, h, names) && s.chan.Connected() && !s.chan.inFlight && s.chan.auth == NO_AUTHORIZATION
    requires (ask.AskOpen? ==> s.gate.generation == 0) && Due(ask, h.offers, s.session)
    ensures Ok(t, k, []) && Quiet(t.chan) && Fades(s, t) && DeskStill(s, t, h, k) && k.truth == h.truth
    ensures k.offers == Answered(h.offers, ask, io.written)
    ensures r == Result(s.chan, ask, io) && (r.Some? && !ask.AskSign? ==> t.chan.nextId == s.chan.nextId + 1)
    ensures if r.Some?
            then t == s.(chan := s.chan.Settled().(nextId := t.chan.nextId), desk := t.desk, gate := t.gate)
            else !t.chan.ctrl && !t.cache.source
    ensures r.Some? && !ask.AskOpen? ==> t.gate == s.gate
    ensures if ask.AskOpen? && r.Some? && r.value.Opened?
            then t.gate.generation == r.value.generation && k.docs.document == Some(h.docs.count)
            else t.gate.generation == s.gate.generation
  {
    if !io.written {
      t, k := FailRequest(s, h, names, ask);
      return t, k, None;
    }
    k := WriteRequest(s, h, names, ask);
    t, k, r := ReceiveResponse(Prepared(s, ask), k, s.chan.nextId, io.frames);
    if r.Some? { t, k := AcceptResponse(t, k, s.chan.nextId, ask, r.value); }
  }

  /** call: one request at a time, its response, then what arrived meanwhile. names are the transfer ids it carries. */
  method Call(s: State, ghost h: History, names: seq<nat>, ask: Ask, io: Exchange)
    returns (t: State, ghost k: History, r: Option<Body>)
    requires Ok(s, h, names) && (!s.chan.inFlight ==> s.chan.auth == NO_AUTHORIZATION)
             && (ask.AskOpen? ==> s.gate.generation == 0)
    requires ask.AskRelease? ==> s.chan.Connected() && !s.chan.inFlight && Due(ask, h.offers, s.session)
    ensures !s.chan.Connected() ==> t == s && k == h && r == None
    ensures s.chan.Connected() ==> Quiet(t.chan)
    ensures s.chan.Connected() && s.chan.inFlight ==> !t.chan.ctrl && r == None && k.wire == Then(h.wire, End)
    ensures Ok(t, k, []) && Fades(s, t) && DeskStill(s, t, h, k) && k.truth == h.truth
    ensures k.offers == Answered(h.offers, ask, io.written)
    ensures r == Result(s.chan, ask, io) && (r.Some? && !ask.AskSign? ==> t.chan.nextId == s.chan.nextId + 1)
    ensures s.chan.Connected() ==> (t.chan.ctrl <==> t.chan.Connected()) && (!t.chan.ctrl ==> !t.cache.source)
    ensures t.chan.Connected() <==> r.Some? && (ask.AskExport? || !s.chan.notifier || Harmless(io.idle))
    ensures if ask.AskOpen? && r.Some? && r.value.Opened?
            then t.gate.generation == r.value.generation && (t.chan.ctrl ==> k.docs.document == Some(h.docs.count))
            else t.gate.generation == s.gate.generation
    ensures t.chan.ctrl ==>
              t == s.(chan := t.chan, desk := t.desk, gate := t.gate) && (!ask.AskOpen? ==> t.gate == s.gate)
    ensures t.chan.Connected() ==> t.chan == s.chan.Settled().(nextId := t.chan.nextId)
  {
    if !s.chan.Connected() { return s, h, None; }
    if s.chan.inFlight {
      t, k := CleanupSession(s, h);
      return t, k, None;
    }
    t, k, r := Perform(s, h, names, ask, io);
    if r.Some? && !ask.AskExport? && t.chan.notifier && t.chan.Connected() {
      t, k := Drain(t, k, io.idle);
    }
  }

  // ----- Steps of the operations -----

  /** A descriptor, then the request that names it; a secret lives no longer than the call. */
  method CallWithDescriptor(s: State, ghost h: History, sends: bool, ask: Ask, secret: string, io: Exchange)
    returns (t: State, ghost k: History, r: Option<Body>)
    requires Ok(s, h, []) && Quiet(s.chan) && !ask.AskOpen? && !ask.AskRelease?
    ensures Ok(t, k, []) && Quiet(t.chan) && DeskStill(s, t, h, k) && k.offers == h.offers
            && t.gate.epoch >= s.gate.epoch
    ensures r == (if sends then Result(s.chan, ask, io) else None) && (!sends ==> k == h)
    ensures t.chan.ctrl ==> t.table == s.table && t.session == s.session
    ensures r.Some? && !ask.AskExport? ==> (t.chan.ctrl <==> !s.chan.notifier || Harmless(io.idle))
  {
    var id, sent;
    r := None;
    t, k, id, sent := SendDescriptor(s, h, sends, []);
    if sent {
      t := t.(chan := t.chan.(password := secret));
      t, k, r := Call(t, k, [] + [id], ask, io);
      t := t.(chan := t.chan.(password := ""));
    }
  }

  /** The channels come up; nothing of an earlier session is in them. */
  method Connect(s: State, ghost h: History) returns (t: State, ghost k: History)
    requires Ok(s, h, []) && Quiet(s.chan) && !s.chan.ctrl && Past(h.offers, s.session)
    ensures Ok(t, k, []) && t == s.(chan := s.chan.(ctrl := true, running := true))
            && k == h.(wire := Then(h.wire, Begin))
  {
    t := s.(chan := s.chan.(ctrl := true, running := true));
    k := h.(wire := Then(h.wire, Begin));
    ReleasesPass(h.wire, Begin, h.offers, s.session);
    assert Sent(k.wire) == Named(k.wire) + [];
  }

  /** The descriptor of the document, then the request; the old document is forgotten in between. */
  method OpenDocument(s: State, ghost h: History, sends: bool, pdf: bool, io: Exchange, ghost embedded: seq<string>,
                      ghost generated: seq<string>) returns (t: State, ghost k: History, ok: bool)
    requires Ok(s, h, []) && Quiet(s.chan)
    ensures Ok(t, k, []) && Quiet(t.chan) && k.initial == h.initial && k.offers == h.offers
            && t.gate.epoch >= s.gate.epoch
    ensures ok ==> t.cache.source && t.cache.synopsis == None && t.table.slots == map[]
    ensures ok ==>
              k.truth == Truth(embedded, generated, true) && (t.chan.ctrl ==> k.docs.document == Some(h.docs.count))
    ensures var r := Result(s.chan, AskOpen, io);
            && (ok <==> sends && r.Some? && r.value.Opened?)
            && (ok ==> t.cache.pages == if pdf then r.value.pages else 0)
            && (ok && (s.chan.notifier ==> Harmless(io.idle)) ==>
                  t.chan == s.chan.(nextId := s.chan.nextId + 1, nextTransfer := s.chan.nextTransfer + 1))
    ensures sends && s.chan.ctrl && !ok ==> !t.cache.source && t.cache.synopsis == None && t.gate.generation == 0
  {
    var id, sent, r;
    ok := false;
    t, k, id, sent := SendDescriptor(s, h, sends, []);
    if !sent { return; }
    t := t.(gate := t.gate.(generation := 0), cache := ClearDocument(t.cache));
    t, k, r := Call(t, k, [id], AskOpen, io);
    if r.None? || !r.value.Opened? { return; }
    var table := ClearSlots(t.table, k.offers, t.session, t.chan.Connected());
    t := t.(table := table, cache := Cache(true, if pdf then r.value.pages else 0, None, t.cache.generated));
    k := k.(truth := Truth(embedded, generated, true));
    ok := true;
  }

  /** What render hands out: nothing, an image that holds a lease, or one that owns its mapping. */
  datatype Image = NoImage | Leased(serial: nat) | Owned

  method StoreGenerated(s: State, ghost h: History, nodes: seq<string>) returns (t: State, ghost k: History)
    requires Ok(s, h, []) && s.cache.source && (h.truth.truthful ==> h.truth.embedded == [])
    ensures Ok(t, k, []) && t == s.(cache := s.cache.(synopsis := Some(nodes), generated := true))
    ensures k == h.(truth := h.truth.Witness(nodes, h.truth.generated))
  {
    t := s.(cache := s.cache.(synopsis := Some(nodes), generated := true));
    k := h.(truth := h.truth.Witness(nodes, h.truth.generated));
  }

  /** An embedded outline comes first; a generated one is read from disk or asked for, and only where allowed. */
  method Outlined(s: State, ghost h: History, allow: bool, nodes: seq<string>, toc: Option<seq<string>>, scan: Exchange)
    returns (t: State, ghost k: History, r: Option<(seq<string>, bool)>)
    requires Ok(s, h, []) && Quiet(s.chan) && s.cache.source && (h.truth.truthful ==> nodes == h.truth.embedded)
    ensures Ok(t, k, []) && Quiet(t.chan) && k.initial == h.initial && k.offers == h.offers
    ensures k.truth == h.truth.(truthful := k.truth.truthful) && (k.truth.truthful ==> h.truth.truthful)
    ensures r.Some? ==> t.cache.source && (k.truth.truthful ==> r.value == Uncached(k.truth, allow))
    ensures r.None? ==> allow && toc == None && var second := Result(s.chan, AskOther, scan);
                        second.None? || !second.value.Outline? || (s.chan.notifier && !Harmless(scan.idle))
  {
    t, k, r := s, h, None;
    if nodes != [] {
      t := s.(cache := s.cache.(synopsis := Some(nodes), generated := false));
      r := Some((nodes, false));
    } else if !allow {
      r := Some(([], false));
    } else if toc.Some? {
      t, k := StoreGenerated(s, h, toc.value);
      r := Some((toc.value, true));
    } else {
      var body;
      t, k, body := Call(s, h, [], AskOther, scan);
      if body.Some? && body.value.Outline? && t.cache.source {
        t, k := StoreGenerated(t, k, body.value.nodes);
        r := Some((body.value.nodes, true));
      }
    }
  }

  /** cleanupFrameLease: the image lets go of its mapping and the release of its lease is queued. */
  method QueueRelease(s: State, ghost h: History, serial: nat) returns (t: State, ghost k: History)
    requires Ok(s, h, []) && serial in s.table.held
    ensures Ok(t, k, []) && serial < |h.offers| && k == h.(offers := Settle(h.offers, serial, Queued))
    ensures t == s.(table := t.table) && t.table.slots == s.table.slots && serial !in t.table.held
    ensures Settled(h.offers) ==> Settled(k.offers)
  {
    BuryKeeps(s.table, h.offers, s.session, s.chan.Connected(), serial);
    SettleStill(h.wire, h.offers, serial, Queued, s.session);
    t := s.(table := Bury(s.table, serial));
    k := h.(offers := Settle(h.offers, serial, Queued));
  }

  /** The oldest release leaves the queue; it is due while the session that granted the lease lives. */
  method NextRelease(s: State, ghost h: History) returns (t: State, ghost k: History, due: bool)
    requires Ok(s, h, []) && s.table.tasks != []
    ensures Ok(t, k, []) && t == s.(table := s.table.(tasks := s.table.tasks[1..]))
    ensures Waiting(h.offers, s.table.tasks[0]) && due == (s.table.tasks[0].session == s.session && s.chan.Connected())
    ensures k == h.(offers := Settle(h.offers, s.table.tasks[0].serial, if due then Returning else Lapsed))
  {
    var task := s.table.tasks[0];
    due := task.session == s.session && s.chan.Connected();
    ghost var fate := if due then Returning else Lapsed;
    Dequeue(h.offers, s.table.held, s.table.tasks, s.session, s.chan.Connected(), fate);
    SettleStill(h.wire, h.offers, task.serial, fate, s.session);
    t := s.(table := s.table.(tasks := s.table.tasks[1..]));
    k := h.(offers := Settle(h.offers, task.serial, fate));
  }

  method GrantLease(s: State, ghost h: History, p: Picture) returns (t: State, ghost k: History)
    requires Ok(s, h, []) && s.chan.ctrl && p.slot in s.table.slots
    ensures Ok(t, k, []) && t == s.(table := Grant(s.table, p.slot, p.lease, s.table.slots[p.slot], s.session))
    ensures k == h.(offers := h.offers + [Offer(s.session, p.slot, p.lease, Held)])
  {
    GrantKeeps(s.table, h.offers, s.session, s.chan.Connected(), p.slot, p.lease, s.table.slots[p.slot]);
    AppendStill(h.wire, h.offers, Offer(s.session, p.slot, p.lease, Held), s.session);
    t := s.(table := Grant(s.table, p.slot, p.lease, s.table.slots[p.slot], s.session));
    k := h.(offers := h.offers + [Offer(s.session, p.slot, p.lease, Held)]);
  }

  /** createImage: the image owns the lease; if none can be made the lease is queued for release. */
  method LeaseSlot(s: State, ghost h: History, p: Picture, drawn: bool)
    returns (t: State, ghost k: History, image: Image)
    requires Ok(s, h, []) && Quiet(s.chan) && s.chan.ctrl && p.slot in s.table.slots
    ensures Ok(t, k, []) && Quiet(t.chan) && k.initial == h.initial
            && image == if drawn then Leased(|h.offers|) else NoImage
    ensures k.offers == h.offers + [Offer(s.session, p.slot, p.lease, if drawn then Held else Queued)]
    ensures drawn ==> |h.offers| in t.table.held && t.table.pins[|h.offers|] == s.table.slots[p.slot]
  {
    t, k := GrantLease(s, h, p);
    image := Leased(s.table.issued);
    if !drawn {
      t, k := QueueRelease(t, k, s.table.issued);
      image := NoImage;
    }
  }

  /** rejectSlot: the lease goes straight back while the session lives. */
  method RejectSlot(s: State, ghost h: History, slot: nat, lease: nat, io: Exchange)
    returns (t: State, ghost k: History)
    requires Ok(s, h, []) && Quiet(s.chan)
    ensures Ok(t, k, []) && Quiet(t.chan) && k.initial == h.initial
    ensures k.offers == h.offers
            + [Offer(s.session, slot, lease, if s.chan.Connected() && io.written then Released else Lapsed)]
    ensures t.chan.Connected() ==> Result(s.chan, AskOther, io).Some?
  {
    ghost var fate := if s.chan.Connected() then Returning else Lapsed;
    RefuseKeeps(s.table, h.offers, s.session, s.chan.Connected(), slot, lease, fate);
    t := s.(table := s.table.(issued := s.table.issued + 1));
    k := h.(offers := h.offers + [Offer(s.session, slot, lease, fate)]);
    AppendStill(h.wire, h.offers, Offer(s.session, slot, lease, fate), s.session);
    if s.chan.Connected() {
      var r;
      t, k, r := Call(t, k, [], AskRelease(s.table.issued, slot, lease), io);
    }
  }

  /** The shared-slot path of render: a known slot comes without a descriptor, a new one with. */
  method TakeSlot(s: State, ghost h: History, p: Picture, received: bool, mapping: nat, usable: bool, drawn: bool,
                  io: Exchange)
    returns (t: State, ghost k: History, image: Image)
    requires Ok(s, h, []) && Quiet(s.chan) && p.slot != 0 && p.lease != 0
    ensures Ok(t, k, []) && Quiet(t.chan) && k.initial == h.initial && h.offers <= k.offers
            && |k.offers| == |h.offers| + 1
    ensures image ==
            if Acceptable(p, s.table.slots, received) && s.chan.ctrl && usable && drawn then Leased(|h.offers|)
            else NoImage
    ensures image.Leased? ==>
              |h.offers| in t.table.held && k.offers[|h.offers|] == Offer(s.session, p.slot, p.lease, Held)
    ensures !image.Leased? ==> !k.offers[|h.offers|].fate.Held?
    ensures !k.offers[|h.offers|].fate.Returning?
  {
    image := NoImage;
    var known := p.slot in s.table.slots;
    var full := |s.table.slots| >= MAX_FRAME_SLOT_COUNT;
    if known == (p.transfer != 0) || (!known && (full || !received || !s.chan.ctrl)) || !usable {
      t, k := RejectSlot(s, h, p.slot, p.lease, io);
      return;
    }
    t, k := s, h;
    if !known {
      CacheKeeps(s.table, h.offers, s.session, s.chan.Connected(), p.slot, mapping);
      t := s.(table := Leases.Cache(s.table, p.slot, mapping));
    }
    t, k, image := LeaseSlot(t, k, p, drawn);
  }

  /** Links beside a picture are kept only under the current generation. */
  method TakeLinks(s: State, ghost h: History, wants: bool, p: Picture, asked: nat)
    returns (ghost k: History, taken: bool)
    requires Ok(s, h, []) && asked <= s.gate.epoch
    ensures Ok(s, k, []) && taken == (wants && p.links == Some(s.gate.generation))
    ensures k == if taken then h.(docs := h.docs.Hand(s.gate.generation, asked)) else h
  {
    k, taken := h, wants && p.links == Some(s.gate.generation);
    if taken {
      Links.Deliver(h.docs, s.gate.generation, s.gate.epoch, asked);
      k := h.(docs := h.docs.Hand(s.gate.generation, asked));
    }
  }

  /** What render makes of the picture a response describes. */
  method ShowPicture(s: State, ghost h: History, p: Picture, wantsLinks: bool, asked: nat, received: bool, mapping: nat,
                     usable: bool, drawn: bool, release: Exchange)
    returns (t: State, ghost k: History, image: Image, links: bool)
    requires Ok(s, h, []) && Quiet(s.chan) && asked <= s.gate.epoch && Settled(h.offers)
    ensures Ok(t, k, []) && Quiet(t.chan) && k.initial == h.initial && Settled(k.offers)
    ensures h.offers <= k.offers && |k.offers| <= |h.offers| + 1
    ensures image.Leased? <==> Acceptable(p, s.table.slots, received) && s.chan.ctrl && usable && drawn
    ensures image.Owned? <==> p.slot == 0 && p.transfer != 0 && received && usable && drawn && s.chan.ctrl
    ensures image.Leased? ==> image.serial == |h.offers| < |k.offers| && image.serial in t.table.held
    ensures !image.Leased? && |k.offers| > |h.offers| ==> !k.offers[|h.offers|].fate.Held?
  {
    t := s;
    k, links := TakeLinks(s, h, wantsLinks, p, asked);
    image := NoImage;
    if p.slot == 0 {
      if p.transfer != 0 && received && usable && drawn && s.chan.ctrl { image := Owned; }
    } else if p.lease != 0 {
      t, k, image := TakeSlot(s, k, p, received, mapping, usable, drawn, release);
    }
  }

  /** canExport, between two checks that there is a session, a source and no other export. */
  method DiscoverFormats(s: State, ghost h: History, suitable: bool, io: Exchange)
    returns (t: State, ghost k: History, ready: bool)
    requires Ok(s, h, []) && Quiet(s.chan)
    ensures Ok(t, k, []) && Quiet(t.chan) && DeskStill(s, t, h, k) && k.offers == h.offers
    ensures ready <==> s.chan.Connected() && s.desk.pending == None && s.cache.source && suitable
                       && Result(s.chan, AskOther, io) == Some(Formats(true)) && (s.chan.notifier ==> Harmless(io.idle))
    ensures ready ==> t.desk.pending == None && t.chan == s.chan.(nextId := s.chan.nextId + 1)
  {
    t, k, ready := s, h, false;
    if !s.chan.Connected() || s.desk.pending.Some? || !s.cache.source || !suitable { return; }
    var body;
    t, k, body := Call(s, h, [], AskOther, io);
    ready := body == Some(Formats(true)) && t.chan.Connected() && t.desk.pending.None? && t.cache.source;
  }

  /** Two descriptors, then the request that names both; if only the first went out the session ends. */
  method DispatchExport(s: State, ghost h: History, sendsOut: bool, sendsIn: bool, io: Exchange)
    returns (t: State, ghost k: History, r: Option<nat>)
    requires Ok(s, h, []) && Quiet(s.chan) && s.desk.pending == None
    ensures Ok(t, k, []) && Quiet(t.chan) && k.initial == h.initial && t.desk == s.desk && k.ledger == h.ledger
            && k.offers == h.offers
    ensures r == (if sendsOut && sendsIn then JobOf(Result(s.chan, AskExport, io)) else None)
            && (r.Some? ==> t.chan.ctrl)
  {
    var a, b, sent, body;
    r := None;
    t, k, a, sent := SendDescriptor(s, h, sendsOut, []);
    if !sent { return; }
    t, k, b, sent := SendDescriptor(t, k, sendsIn, [a]);
    if !sent {
      t, k := CleanupSession(t, k);
      return;
    }
    t, k, body := Call(t, k, [a] + [b], AskExport, io);
    r := JobOf(body);
  }

  /** The job is registered, and only then are the notifications behind its response read. */
  method AwaitExport(s: State, ghost h: History, target: string, job: nat, idle: seq<Frame>)
    returns (t: State, ghost k: History)
    requires Ok(s, h, []) && Quiet(s.chan) && s.chan.ctrl && s.desk.pending == None
    ensures Ok(t, k, []) && Quiet(t.chan) && k.initial == h.initial && k.offers == h.offers
    ensures Decisions(k.ledger) == Decisions(h.ledger) + 1 && Registrations(k.ledger) == Registrations(h.ledger) + 1
    ensures t.desk.pending.Some? ==> t.desk.pending == Some(Export(target, job)) && forall i :: 0 <= i < |idle| ==>
              !Ends(idle[i], job)
  {
    t := s.(desk := s.desk.(pending := Some(Export(target, job))));
    k := h.(ledger := Entry(h.ledger, Registered(job, target)));
    t, k := Drain(t, k, idle);
  }

  method Abandon(s: State, ghost h: History) returns (t: State, ghost k: History)
    requires Ok(s, h, []) && Quiet(s.chan)
    ensures Ok(t, k, []) && t == s.(desk := s.desk.(pending := None))
    ensures var closing := Entry(h.ledger, Closing);
            k == h.(ledger := if s.desk.pending.Some? then Entry(closing, Abandoned(s.desk.pending.value.job))
                              else closing)
  {
    t, k := s, h.(ledger := Entry(h.ledger, Closing));
    assert DeskOk(k.ledger, k.initial, s.desk.files, s.desk.pending);
    if s.desk.pending.Some? {
      t := s.(desk := s.desk.(pending := None));
      k := k.(ledger := Entry(k.ledger, Abandoned(s.desk.pending.value.job)));
    }
  }

  /** The last step of writeFile and signToFile. */
  method PublishFile(s: State, ghost h: History, target: string, disk: Disk)
    returns (t: State, ghost k: History, ok: bool)
    requires Ok(s, h, [])
    ensures Ok(t, k, []) && ok == disk.Good() && t == s.(desk := s.desk.(files := t.desk.files))
    ensures t.desk.files == if ok then s.desk.files[target := disk.content] else s.desk.files
    ensures k == if ok then h.(ledger := Entry(h.ledger, Wrote(target, disk.content))) else h
  {
    var files;
    files, ok := FinalizeOutputFile(s.desk.files, target, disk);
    t, k := s.(desk := s.desk.(files := files)), h;
    if ok { k := h.(ledger := Entry(h.ledger, Wrote(target, disk.content))); }
  }

  // ----- The operations -----

  class WorkerTransport {
    var now: State
    ghost var run: History
    ghost const initial: map<string, string>

    ghost predicate Valid()
      reads this
    {
      Ok(now, run, []) && Quiet(now.chan) && run.initial == initial && Settled(run.offers)
    }

    constructor (disk: map<string, string>)
      ensures Valid() && !now.chan.ctrl && now.chan.nextId == 1 && now.desk.files == disk == initial
              && run.wire == Empty
    {
      now :=
        State(Channel(false, false, false, false, 1, 1, NO_AUTHORIZATION, ""), Desk(None, disk), 0, NO_FRAMES,
              Gate(0, 0),
                   Cache(false, 0, None, false));
      run := History(Empty, Blank, disk, [], NO_DOCS, Truth([], [], true));
      initial := disk;
      new;
      assert forall m :: Keys(map[], m) == {};
    }

    /** stop, abort and every failed start. */
    method Stop()
      requires Valid()
      modifies this
      ensures Valid() && now.chan == old(now.chan).Closed() && Past(run.offers, now.session)
              && now.session == old(now.session) + 1
      ensures !now.cache.source && now.cache.synopsis == None && now.desk.pending == None
              && now.desk.files == old(now.desk.files)
      ensures run.wire == Then(old(run.wire), End) && run.offers == old(run.offers)
      ensures run.ledger ==
              if old(now.desk.pending).Some? then Entry(old(run.ledger), Failed(old(now.desk.pending).value.job))
              else old(run.ledger)
    {
      var t; ghost var k;
      t, k := CleanupSession(now, run);
      now, run := t, k;
    }

    method Handshake(io: Exchange, pong: bool) returns (ok: bool)
      requires Valid() && !now.chan.ctrl && Past(run.offers, now.session)
      requires !now.cache.source && now.cache.synopsis == None
      modifies this
      ensures Valid() && now.desk.pending == None && !now.cache.source && now.cache.synopsis == None
      ensures ok ==> now.chan.Connected() && now.chan.notifier
      ensures ok <==> pong && io.written && Expect(io.frames, 0, old(now.chan.nextId), NO_AUTHORIZATION) == Some(Other)
      ensures ok ==> now.chan.nextId == old(now.chan.nextId) + 1
    {
      var t, r; ghost var k;
      t, k := Connect(now, run);
      t, k, r := Call(t, k, [], AskOther, io);
      ok := r.Some? && r.value.Other? && pong;
      if ok { t := t.(chan := t.chan.(notifier := true)); }
      now, run := t, k;
    }

    /**
     * start: the old session ends first; setUp says whether the new channels come up, pong whether the reply is
     * compatible.
     */
    method Start(setUp: bool, io: Exchange, pong: bool) returns (ok: bool)
      requires Valid()
      modifies this
      ensures Valid() && (ok <==> now.chan.Connected()) && (!ok ==> !now.chan.ctrl) && (ok ==> now.chan.notifier)
      ensures ok <==> && setUp && pong && io.written
                      && Expect(io.frames, 0, old(now.chan.nextId), NO_AUTHORIZATION) == Some(Other)
      ensures ok ==> now.chan.nextId == old(now.chan.nextId) + 1
      ensures now.desk.pending == None && !now.cache.source && now.cache.synopsis == None
    {
      Stop();
      ok := false;
      if setUp { ok := Handshake(io, pong); }
      if !ok { Stop(); }
    }

    /** The worker process exits; the session object stays until it is stopped. */
    method ProcessDied()
      requires Valid()
      modifies this
      ensures Valid() && now == old(now).(chan := old(now).chan.(running := false)) && run == old(run)
    {
      now := now.(chan := now.chan.(running := false));
    }

    method Open(readable: bool, sends: bool, pdf: bool, io: Exchange, ghost embedded: seq<string>,
                ghost generated: seq<string>)
      returns (ok: bool)
      requires Valid()
      modifies this
      ensures Valid()
      ensures ok ==>
                now.cache.source && now.cache.synopsis == None && now.table.slots == map[]
                  && run.truth == Truth(embedded, generated, true)
      ensures ok && now.chan.ctrl ==> run.docs.document == Some(old(run).docs.count)
      ensures var r := Result(old(now.chan), AskOpen, io);
              && (ok <==> readable && sends && r.Some? && r.value.Opened?)
              && (ok ==> now.cache.pages == if pdf then r.value.pages else 0)
              && (ok && (old(now.chan.notifier) ==> Harmless(io.idle)) ==>
                    now.chan
                      == old(now.chan).(nextId := old(now.chan.nextId) + 1,
                                        nextTransfer := old(now.chan.nextTransfer) + 1))
      ensures readable && sends && old(now.chan.ctrl) && !ok ==>
                !now.cache.source && now.cache.synopsis == None && now.gate.generation == 0
      ensures now.gate.epoch >= old(now.gate.epoch)
    {
      if !readable { return false; }
      var t; ghost var k;
      t, k, ok := OpenDocument(now, run, sends, pdf, io, embedded, generated);
      now, run := t, k;
    }

    /** close: a pending export is dropped without a signal before anything is said to the worker. */
    method Close(io: Exchange) returns (ok: bool)
      requires Valid()
      modifies this
      ensures Valid() && now.gate.generation == 0 && now.gate.epoch > old(now.gate.epoch) && run.docs.document == None
      ensures !now.cache.source && now.cache.synopsis == None && now.desk == Desk(None, old(now.desk.files))
      ensures ok == (Result(old(now.chan), AskOther, io).Some? && !Result(old(now.chan), AskOther, io).value.Error?)
      ensures ok ==> now.table.slots == map[]
      ensures var closing := Entry(old(run.ledger), Closing);
              var dropped := old(now.desk.pending);
              run.ledger == if dropped.Some? then Entry(closing, Abandoned(dropped.value.job)) else closing
    {
      var t, r; ghost var k;
      t, k := Abandon(now, run);
      t, k, r := Call(t, k, [], AskOther, io);
      ok := r.Some? && !r.value.Error?;
      if ok {
        var table := ClearSlots(t.table, k.offers, t.session, t.chan.Connected());
        t := t.(table := table);
      }
      Links.Advance(k.docs, t.gate.generation, t.gate.epoch);
      now := t.(gate := Gate(0, t.gate.epoch + 1), cache := ClearDocument(t.cache));
      run := k.(docs := k.docs.Shut());
    }

    // ----- Requests that carry descriptors -----

    /** Any other request without a descriptor. */
    method Request(io: Exchange) returns (r: Option<Body>)
      requires Valid()
      modifies this
      ensures Valid() && Fades(old(now), now) && run.truth == old(run.truth)
      ensures r == Result(old(now.chan), AskOther, io) && (r.None? ==> !now.chan.Connected())
    {
      var t; ghost var k;
      t, k, r := Call(now, run, [], AskOther, io);
      now, run := t, k;
    }

    /** requestOcr: the request is checked before its descriptor is sent. */
    method RequestOcr(valid: bool, input: bool, sends: bool, io: Exchange) returns (r: Option<Body>)
      requires Valid()
      modifies this
      ensures Valid() && (!valid || !input || !old(now.cache.source) ==> now == old(now) && run == old(run))
      ensures r ==
              if valid && input && old(now.cache.source) && sends then Result(old(now.chan), AskOther, io) else None
    {
      if !valid || !now.cache.source || !input { return None; }
      var t; ghost var k;
      t, k, r := CallWithDescriptor(now, run, sends, AskOther, "", io);
      now, run := t, k;
    }

    /** writeFile: the target is replaced exactly when the result is true. */
    method WriteFile(created: bool, sends: bool, io: Exchange, target: string, disk: Disk) returns (ok: bool)
      requires Valid()
      modifies this
      ensures var r := Result(old(now.chan), AskOther, io);
              ok <==> created && sends && r.Some? && !r.value.Error? && disk.Good()
      ensures Valid() && Decisions(run.ledger) == Decisions(old(run.ledger)) + if ok then 1 else 0
      ensures ok ==>
                disk.Good() && run.ledger.last == Wrote(target, disk.content) && now.desk.files[target] == disk.content
      ensures !ok && old(now.desk.pending) == None ==> now.desk == old(now.desk)
    {
      if !created { return false; }
      var t, r; ghost var k;
      t, k, r := CallWithDescriptor(now, run, sends, AskOther, "", io);
      ok := false;
      if r.Some? && !r.value.Error? { t, k, ok := PublishFile(t, k, target, disk); }
      now, run := t, k;
    }

    /** signToFile: the password lives only while the signing request is in flight. */
    method SignToFile(created: bool, valid: bool, sends: bool, cert: string, secret: string, io: Exchange,
                      target: string, disk: Disk)
      returns (ok: bool)
      requires Valid()
      modifies this
      ensures var r := Result(old(now.chan), AskSign(cert), io);
              ok <==> created && valid && sends && r == Some(Signed(true)) && disk.Good()
      ensures Valid() && Decisions(run.ledger) == Decisions(old(run.ledger)) + if ok then 1 else 0
      ensures ok ==>
                disk.Good() && run.ledger.last == Wrote(target, disk.content) && now.desk.files[target] == disk.content
      ensures !ok && old(now.desk.pending) == None ==> now.desk == old(now.desk)
    {
      if !created { return false; }
      if !valid {
        now := now.(chan := now.chan.(nextTransfer := now.chan.nextTransfer + 1));
        return false;
      }
      var t, r; ghost var k;
      t, k, r := CallWithDescriptor(now, run, sends, AskSign(cert), secret, io);
      ok := false;
      if r.Some? && r.value.Signed? && r.value.success { t, k, ok := PublishFile(t, k, target, disk); }
      now, run := t, k;
    }

    // ----- Asynchronous export -----

    /**
     * startExport: one export at a time. Both descriptors go out or the session ends; notifications are read only
     * once the job is registered, so that a completion already waiting is not taken for a stale one.
     */
    method StartExport(target: string, suitable: bool, formats: Exchange, reopened: bool, created: bool,
                       sendsOut: bool, sendsIn: bool, io: Exchange)
      returns (r: Option<nat>)
      requires Valid()
      modifies this
      ensures Valid() && Decisions(run.ledger) == Decisions(old(run.ledger)) + if r.Some? then 1 else 0
      ensures Registrations(run.ledger) == Registrations(old(run.ledger)) + if r.Some? then 1 else 0
      ensures var c := old(now.chan);
              r == if (&& c.Connected() && old(now.desk.pending) == None && old(now.cache.source) && suitable
                       && Result(c, AskOther, formats) == Some(Formats(true)) && (c.notifier ==> Harmless(formats.idle))
                       && reopened && created && sendsOut && sendsIn)
                   then JobOf(Result(c.(nextId := c.nextId + 1), AskExport, io)) else None
      ensures r.Some? && now.desk.pending.Some? ==>
                now.desk.pending == Some(Export(target, r.value)) && forall i :: 0 <= i < |io.idle| ==>
                    !Ends(io.idle[i], r.value)
    {
      var t, ready; ghost var k;
      t, k, ready := DiscoverFormats(now, run, suitable, formats);
      r := None;
      if ready && reopened && created {
        t, k, r := DispatchExport(t, k, sendsOut, sendsIn, io);
        if r.Some? { t, k := AwaitExport(t, k, target, r.value, io.idle); }
      }
      now, run := t, k;
    }

    /** The export timer fires. */
    method ExportTimeout()
      requires Valid()
      modifies this
      ensures Valid() && now.desk == Desk(None, old(now.desk.files))
      ensures run.ledger ==
              if old(now.desk.pending).Some? then Entry(old(run.ledger), Failed(old(now.desk.pending).value.job))
              else old(run.ledger)
    {
      var desk; ghost var ledger;
      desk, ledger := CompleteExport(now.desk, run.ledger, run.initial, false, Disk("", false, false, false));
      now, run := now.(desk := desk), run.(ledger := ledger);
    }

    /** The notifier fires while nothing is in flight. */
    method Poll(frames: seq<Frame>)
      requires Valid()
      modifies this
      ensures Valid() && Fades(old(now), now) && (now.chan.ctrl <==> old(now.chan.ctrl) && Harmless(frames))
      ensures now.desk.pending.Some? ==> forall i :: 0 <= i < |frames| ==> !Ends(frames[i], now.desk.pending.value.job)
    {
      var t; ghost var k;
      t, k := Drain(now, run, frames);
      now, run := t, k;
    }

    // ----- Rendering and leases -----

    /**
     * render. asked is the epoch the generator will compare links against; received and usable say whether a new
     * mapping arrives and whether its header is right, drawn whether an image can be made of it.
     */
    method Render(cancellable: bool, sends: bool, io: Exchange, wantsLinks: bool, asked: nat, received: bool,
                  mapping: nat, usable: bool, drawn: bool, release: Exchange)
      returns (image: Image, links: bool)
      requires Valid() && asked <= now.gate.epoch
      modifies this
      ensures Valid() && old(run.offers) <= run.offers && |run.offers| <= |old(run.offers)| + 1
      ensures image.Leased? ==> image.serial in now.table.held && image.serial == |old(run.offers)| < |run.offers|
      ensures var c := old(now.chan);
              var r := if cancellable && !sends then None else Result(c, AskOther, io);
              var shown := r.Some? && r.value.Rendered? && (c.notifier ==> Harmless(io.idle)) && usable && drawn;
              && (image.Leased? <==> shown && Acceptable(r.value.picture, old(now.table.slots), received))
              && (image.Owned? <==> shown && r.value.picture.slot == 0 && r.value.picture.transfer != 0 && received)
      ensures !image.Leased? && |run.offers| > |old(run.offers)| ==> !run.offers[|old(run.offers)|].fate.Held?
    {
      var t, r; ghost var k;
      if cancellable {
        t, k, r := CallWithDescriptor(now, run, sends, AskOther, "", io);
      } else {
        t, k, r := Call(now, run, [], AskOther, io);
      }
      image, links := NoImage, false;
      if r.Some? && r.value.Rendered? {
        var picture := r.value.picture;
        t, k, image, links := ShowPicture(t, k, picture, wantsLinks, asked, received, mapping, usable, drawn, release);
      }
      now, run := t, k;
    }

    /** The last user of a leased image is gone. */
    method ImageDies(serial: nat)
      requires Valid() && serial in now.table.held
      modifies this
      ensures Valid() && serial !in now.table.held && serial < |old(run.offers)|
      ensures run == old(run).(offers := Settle(old(run.offers), serial, Queued))
      ensures now == old(now).(table := now.table) && now.table.slots == old(now.table.slots)
    {
      var t; ghost var k;
      t, k := QueueRelease(now, run, serial);
      now, run := t, k;
    }

    /** releaseFrameSlot for the oldest queued release: sent only to the session that granted the lease. */
    method RunRelease(io: Exchange)
      requires Valid() && now.table.tasks != []
      modifies this
      ensures Valid() && old(now.table.tasks)[0].serial < |old(run.offers)|
      ensures var k := old(now.table.tasks)[0].serial;
              var due := old(now.chan.Connected()) && old(run.offers)[k].session == old(now.session);
              && run.offers == Settle(old(run.offers), k, if due && io.written then Released else Lapsed)
              && (!due ==> run.wire == old(run.wire) && now.chan == old(now.chan))
              && (due && now.chan.Connected() ==> Result(old(now.chan), AskOther, io).Some?)
    {
      var t, due; ghost var k;
      t, k, due := NextRelease(now, run);
      if due {
        var task, r := now.table.tasks[0], None;
        t, k, r := Call(t, k, [], AskRelease(task.serial, task.slot, task.lease), io);
      }
      now, run := t, k;
    }

    // ----- The outline of the document -----

    /**
     * synopsis, cached. While the worker's answers are those of the document, the result is the uncached one, except
     * when the session ends behind the first answer of a PDF that has no embedded outline.
     */
    method Synopsis(allow: bool, plain: Exchange, toc: Option<seq<string>>, scan: Exchange)
      returns (r: Option<(seq<string>, bool)>)
      requires Valid()
      modifies this
      ensures Valid() && (run.truth.truthful ==> old(run.truth.truthful))
              && run.truth == old(run.truth).(truthful := run.truth.truthful)
      ensures r.Some? && run.truth.truthful && old(now.cache.source && now.cache.pages > 0) ==>
                (r.value == Uncached(run.truth, allow) <==>
                   || !allow || old(now.cache.synopsis).Some? || old(run.truth.embedded) != []
                   || !old(now.chan.notifier) || Harmless(plain.idle))
      ensures r.Some? && !old(now.cache.source && now.cache.pages > 0) && old(now.cache.synopsis).None? ==>
                !r.value.1 && Result(old(now.chan), AskOther, plain) == Some(Outline(r.value.0))
      ensures var first := Result(old(now.chan), AskOther, plain);
              if first.None? || !first.value.Outline? then r == None || (allow && old(now.cache.synopsis).Some?)
              else && (r.None? ==> allow && toc == None)
                   && (old(now.chan.notifier) && !Harmless(plain.idle) && old(now.cache.synopsis) == None ==>
                         r == Some((first.value.nodes, false)) && !now.cache.source
                         && run.truth == old(run.truth).Witness(first.value.nodes, old(run.truth.embedded)))
    {
      if allow && now.cache.synopsis.Some? { return Some((now.cache.synopsis.value, now.cache.generated)); }
      var t, body; ghost var k;
      t, k, body := Call(now, run, [], AskOther, plain);
      r := None;
      if body.Some? && body.value.Outline? {
        k := k.(truth := k.truth.Witness(body.value.nodes, k.truth.embedded));
        if !t.cache.source || t.cache.pages == 0 {
          r := Some((body.value.nodes, false));
        } else {
          t, k, r := Outlined(t, k, allow, body.value.nodes, toc, scan);
        }
      }
      now, run := t, k;
    }
  }

  /** A call answered at once. */
  function Prompt(id: nat, body: Body, idle: seq<Frame>): (io: Exchange)
    ensures io.written && Expect(io.frames, 0, id, NO_AUTHORIZATION) == Some(body) && io.idle == idle
  {
    Exchange(true, [Response(id, body)], idle)
  }

  /**
   * The exception in Synopsis is real: a generated outline is owed, and an empty one is returned as the document's
   * own.
   */
  method SynopsisAfterHangup() returns (r: Option<(seq<string>, bool)>, ghost truth: Truth)
    ensures truth == Truth([], ["Chapter"], true) && r == Some(([], false)) && r.value != Uncached(truth, true)
  {
    var t := new WorkerTransport(map[]);
    var ok := t.Start(true, Prompt(1, Other, []), true);
    assert t.now.chan.Connected() && t.now.chan.nextId == 2;
    ok := t.Open(true, true, true, Prompt(2, Opened(7, 1), []), [], ["Chapter"]);
    assert t.now.chan.Connected() && t.now.chan.nextId == 3;
    assert ![Hangup][0].Notification?;
    r := t.Synopsis(true, Prompt(3, Outline([]), [Hangup]), None, Prompt(4, Error, []));
    truth := t.run.truth;
  }

  // ----- Every run -----

  datatype Op =
    | DoStart(setUp: bool, io: Exchange, pong: bool)
    | DoStop
    | DoDie
    | DoOpen(readable: bool, sends: bool, pdf: bool, io: Exchange, embedded: seq<string>, generated: seq<string>)
    | DoClose(io: Exchange)
    | DoRequest(io: Exchange)
    | DoOcr(valid: bool, input: bool, sends: bool, io: Exchange)
    | DoWrite(created: bool, sends: bool, io: Exchange, target: string, disk: Disk)
    | DoSign(created: bool, valid: bool, sends: bool, cert: string, secret: string, io: Exchange, target: string,
             disk: Disk)
    | DoExport(target: string, suitable: bool, formats: Exchange, reopened: bool, created: bool, sendsOut: bool,
               sendsIn: bool, io: Exchange)
    | DoTimeout
    | DoPoll(frames: seq<Frame>)
    | DoRender(cancellable: bool, sends: bool, io: Exchange, links: bool, asked: nat, received: bool, mapping: nat,
               usable: bool, drawn: bool, release: Exchange)
    | DoDrop(serial: nat)
    | DoRelease(io: Exchange)
    | DoSynopsis(allow: bool, plain: Exchange, toc: Option<seq<string>>, scan: Exchange)

  method Step(t: WorkerTransport, op: Op)
    requires t.Valid()
    modifies t
    ensures t.Valid()
  {
    match op
    case DoStart(setUp, io, pong) => var _ := t.Start(setUp, io, pong);
    case DoStop => t.Stop();
    case DoDie => t.ProcessDied();
    case DoOpen(readable, sends, pdf, io, embedded, generated) =>
      var _ := t.Open(readable, sends, pdf, io, embedded, generated);
    case DoClose(io) => var _ := t.Close(io);
    case DoRequest(io) => var _ := t.Request(io);
    case DoOcr(valid, input, sends, io) => var _ := t.RequestOcr(valid, input, sends, io);
    case DoWrite(created, sends, io, target, disk) => var _ := t.WriteFile(created, sends, io, target, disk);
    case DoSign(created, valid, sends, cert, secret, io, target, disk) =>
      var _ := t.SignToFile(created, valid, sends, cert, secret, io, target, disk);
    case DoExport(target, suitable, formats, reopened, created, sendsOut, sendsIn, io) =>
      var _ := t.StartExport(target, suitable, formats, reopened, created, sendsOut, sendsIn, io);
    case DoTimeout => t.ExportTimeout();
    case DoPoll(frames) => t.Poll(frames);
    case DoRender(cancellable, sends, io, links, asked, received, mapping, usable, drawn, release) =>
      // the generator read the epoch when the render was queued, so it may be an old one
      if asked <= t.now.gate.epoch {
        var _, _ := t.Render(cancellable, sends, io, links, asked, received, mapping, usable, drawn, release);
      }
    case DoDrop(serial) => if serial in t.now.table.held { t.ImageDies(serial); }
    case DoRelease(io) => if t.now.table.tasks != [] { t.RunRelease(io); }
    case DoSynopsis(allow, plain, toc, scan) => var _ := t.Synopsis(allow, plain, toc, scan);
  }

  ghost predicate SafeWire(s: State, w: Traffic) {
    // the worker takes, for every request, exactly the descriptors it names, and none is left over
    && NeverMisread(w) && (s.chan.Connected() ==> Unclaimed(w) == [])
    // nothing is unanswered or kept, and ids only grow
    && Unanswered(w) == 0 && Quiet(s.chan) && (forall i, j :: 0 <= i < j < |Ids(w)| ==> Ids(w)[i] < Ids(w)[j])
    // a CMS reply was the first to a signing request for its certificate, and the only one
    && (forall p :: Session.Within(p, w) && p.Then? && p.last.Reply? ==> Authorized(p.rest, p.last))
    && (forall r :: Replies(w, r) <= 1)
  }

  ghost predicate SafeExports(s: State, h: History) {
    // every export but a pending one has ended once, without a signal only if the document was closed
    && (forall k :: 1 <= k <= Registrations(h.ledger) ==>
          Signals(h.ledger, k) + Drops(h.ledger, k) ==
            if k == Registrations(h.ledger) && s.desk.pending.Some? then 0 else 1)
    && (forall k :: Drops(h.ledger, k) > 0 ==> ClosedAfter(h.ledger, k))
    // files are what the success signals say
    && s.desk.files == Files(h.ledger, h.initial)
  }

  ghost predicate SafeLeases(s: State, h: History) {
    // the cache is bounded and live images are mapped
    && |s.table.slots| <= MAX_FRAME_SLOT_COUNT
    && (forall i :: i in s.table.held ==> i in s.table.pins && s.table.pins[i] in s.table.refs)
    // an offer is given back at most once, under its own terms, in the session that made it
    && (forall k :: Releases(h.wire, k) <= 1) && Returned(h.wire, h.offers)
    && (forall k :: 0 <= k < |h.offers| ==> (h.offers[k].fate.Released? <==> Releases(h.wire, k) == 1))
    // while the session lives, an offer nobody holds or waits to release was given back
    && (s.chan.Connected() ==> forall k :: 0 <= k < |h.offers| && h.offers[k].session == s.session ==>
          k in s.table.held || LeaseOf(h.offers, k) in s.table.tasks || Releases(h.wire, k) == 1)
  }

  ghost predicate SafeDocument(s: State, h: History) {
    // links the generator accepts are of the open document, or came under a generation the session never issued
    && (h.docs.honest ==> forall b :: b in h.docs.batches && b.epoch == s.gate.epoch ==>
          b.document == None || b.document == h.docs.document)
    // a cached outline is that of the open document
    && CacheOk(h.truth, s.cache.synopsis, s.cache.generated) && (s.cache.synopsis.Some? ==> s.cache.source)
  }

  /** What holds after every run. */
  ghost predicate Safe(s: State, h: History) {
    SafeWire(s, h.wire) && SafeExports(s, h) && SafeLeases(s, h) && SafeDocument(s, h)
  }

  lemma WireIsSafe(s: State, h: History)
    requires Ok(s, h, []) && Quiet(s.chan)
    ensures SafeWire(s, h.wire)
  {
    ChannelIsUnclaimed(h.wire);
    AtMostOneUnanswered(h.wire);
    IdsIncrease(h.wire);
    forall r ensures Replies(h.wire, r) <= 1 { OneReply(h.wire, r); }
    forall p | Session.Within(p, h.wire) && p.Then? && p.last.Reply? ensures Authorized(p.rest, p.last) {
      ReplyAuthorized(h.wire, p);
    }
    if s.chan.Connected() { Cancel(Named(h.wire), Unclaimed(h.wire), []); }
  }

  lemma ExportsAreSafe(s: State, h: History)
    requires Ok(s, h, [])
    ensures SafeExports(s, h)
  {
    forall k | 1 <= k <= Registrations(h.ledger)
      ensures Signals(h.ledger, k) + Drops(h.ledger, k) ==
              if k == Registrations(h.ledger) && s.desk.pending.Some? then 0 else 1
    {
      ExportsEndOnce(h.ledger, k);
    }
    forall k | Drops(h.ledger, k) > 0 ensures ClosedAfter(h.ledger, k) { DropsNeedClose(h.ledger, k); }
  }

  lemma LeasesAreSafe(s: State, h: History)
    requires Ok(s, h, []) && Settled(h.offers)
    ensures SafeLeases(s, h)
  {
    forall i | i in s.table.held ensures s.table.pins[i] in s.table.refs {
      PinnedIsMapped(s.table.refs, s.table.slots, s.table.pins, i);
    }
  }

  lemma EveryStateSafe(s: State, h: History)
    requires Ok(s, h, []) && Quiet(s.chan) && Settled(h.offers)
    ensures Safe(s, h)
  {
    WireIsSafe(s, h);
    ExportsAreSafe(s, h);
    LeasesAreSafe(s, h);
  }

  /** Whatever is called in whatever order, and whatever the worker and the system answer. */
  method Run(disk: map<string, string>, script: seq<Op>) returns (t: WorkerTransport)
    ensures Safe(t.now, t.run) && t.run.initial == disk
  {
    t := new WorkerTransport(disk);
    for i := 0 to |script|
      invariant fresh(t) && t.Valid() && t.initial == disk
    {
      Step(t, script[i]);
    }
    EveryStateSafe(t.now, t.run);
  }
}
