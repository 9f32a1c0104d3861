/**
 * What may pass over the control and descriptor channels. The wire is everything that did; the
 * reference automaton below says which wires are right and knows nothing of the transport's fields.
 */
module Session {
  import opened Basics

  /** What a request asks for; a release names the offer it gives back. */
  datatype Ask = AskOpen | AskSign(cert: string) | AskExport | AskRelease(offer: nat, slot: nat, lease: nat) | AskOther

  function CertOf(ask: Ask): Option<string> { if ask.AskSign? then Some(ask.cert) else None }

  datatype Event =
    | Begin                                                     // channels up
    | End                                                       // cleanupSession
    | Fd(id: nat)                                               // descriptor sent
    | Req(id: nat, names: seq<nat>, ask: Ask)                   // request written, with the descriptors it names
    | Reply(id: nat, request: nat, signer: string)              // CMS reply written
    | Resp(id: nat)                                             // response accepted

  datatype Traffic = Empty | Then(rest: Traffic, last: Event)

  /** Descriptors sent, and transfer ids named by requests, since the session began. */
  function Sent(w: Traffic): seq<nat> {
    if w.Empty? || w.last.Begin? then []
    else if w.last.Fd? then Sent(w.rest) + [w.last.id]
    else Sent(w.rest)
  }

  function Named(w: Traffic): seq<nat> {
    if w.Empty? || w.last.Begin? then []
    else if w.last.Req? then Named(w.rest) + w.last.names
    else Named(w.rest)
  }

  predicate Live(w: Traffic) { w.Then? && (w.last.Begin? || (!w.last.End? && Live(w.rest))) }

  datatype Asked = Asked(id: nat, cert: Option<string>, replied: bool)

  /** The request that waits for its response. */
  function Pending(w: Traffic): Option<Asked> {
    if w.Empty? then None
    else match w.last
      case Begin => None
      case End => None
      case Fd(_) => Pending(w.rest)
      case Req(id, _, ask) => Some(Asked(id, CertOf(ask), false))
      case Reply(_, _, _) => if Pending(w.rest).Some? then Some(Pending(w.rest).value.(replied := true)) else None
      case Resp(_) => None
  }

  /** The largest message id and the largest transfer id so far. */
  function Top(w: Traffic): nat {
    if w.Empty? then 0 else if w.last.Req? || w.last.Reply? then w.last.id else Top(w.rest)
  }

  function TopFd(w: Traffic): nat {
    if w.Empty? then 0 else if w.last.Fd? then w.last.id else TopFd(w.rest)
  }

  /** One request at a time, answered under its own id; ids only grow; descriptors are the ones named. */
  predicate Disciplined(w: Traffic) {
    w.Then? ==> Disciplined(w.rest) && Allowed(w.rest, w.last)
  }

  predicate Allowed(w: Traffic, e: Event) {
    match e
    case Begin => !Live(w)
    case End => true
    case Fd(id) => Live(w) && id > TopFd(w)
    case Req(id, names, _) => Live(w) && Pending(w) == None && id > Top(w) && Sent(w) == Named(w) + names
    case Reply(id, request, cert) => Pending(w) == Some(Asked(request, Some(cert), false)) && id > Top(w)
    case Resp(id) => Pending(w).Some? && Pending(w).value.id == id
  }

  // ----- What discipline means for the worker -----

  /** Descriptors waiting in the channel when each request takes as many as it names. */
  function Unclaimed(w: Traffic): seq<nat> {
    if w.Empty? || w.last.Begin? then []
    else if w.last.Fd? then Unclaimed(w.rest) + [w.last.id]
    else if w.last.Req? && |w.last.names| <= |Unclaimed(w.rest)| then Unclaimed(w.rest)[|w.last.names|..]
    else if w.last.Req? then []
    else Unclaimed(w.rest)
  }

  /** A worker that takes descriptors in order never takes one its request did not name. */
  predicate NeverMisread(w: Traffic) {
    w.Then? ==> NeverMisread(w.rest) && (w.last.Req? ==> w.last.names <= Unclaimed(w.rest))
  }

  /** After a request everything sent is claimed; what follows is exactly what was sent since. */
  lemma {:induction false} ChannelIsUnclaimed(w: Traffic)
    requires Disciplined(w)
    ensures NeverMisread(w) && Named(w) + Unclaimed(w) == Sent(w)
  {
    if w.Then? {
      ChannelIsUnclaimed(w.rest);
      if w.last.Req? {
        assert Unclaimed(w.rest) == w.last.names by { Cancel(Named(w.rest), Unclaimed(w.rest), w.last.names); }
        assert Named(w) + Unclaimed(w) == Sent(w);
      } else if w.last.Fd? {
        assert Named(w) + Unclaimed(w) == Named(w.rest) + Unclaimed(w.rest) + [w.last.id];
      }
    }
  }

  lemma Cancel(a: seq<nat>, b: seq<nat>, c: seq<nat>)
    requires a + b == a + c
    ensures b == c
  {
    assert (a + b)[|a|..] == b && (a + c)[|a|..] == c;
  }

  /** Message ids in the order written. */
  function Ids(w: Traffic): seq<nat> {
    if w.Empty? then [] else if w.last.Req? || w.last.Reply? then Ids(w.rest) + [w.last.id] else Ids(w.rest)
  }

  /** Requests and CMS replies share one counter that only grows. */
  lemma {:induction false} IdsIncrease(w: Traffic)
    requires Disciplined(w)
    ensures forall i, j :: 0 <= i < j < |Ids(w)| ==> Ids(w)[i] < Ids(w)[j]
    ensures forall i :: 0 <= i < |Ids(w)| ==> Ids(w)[i] <= Top(w)
  {
    if w.Then? { IdsIncrease(w.rest); }
  }

  predicate Within(p: Traffic, w: Traffic) { p == w || (w.Then? && Within(p, w.rest)) }

  function Replies(w: Traffic, request: nat): nat {
    if w.Empty? then 0
    else Replies(w.rest, request) + if w.last.Reply? && w.last.request == request then 1 else 0
  }

  /** A request gets at most one CMS reply; none for a request still to come. */
  lemma {:induction false} OneReply(w: Traffic, request: nat)
    requires Disciplined(w)
    ensures Replies(w, request) <= 1
    ensures request > Top(w) ==> Replies(w, request) == 0
    ensures Pending(w).Some? ==> Pending(w).value.id <= Top(w)
    ensures Pending(w).Some? && Pending(w).value.id == request && !Pending(w).value.replied ==> Replies(w, request) == 0
  {
    if w.Then? { OneReply(w.rest, request); }
  }

  /** Sessions ended so far, and how often an offer was given back. */
  function Sessions(w: Traffic): nat {
    if w.Empty? then 0 else Sessions(w.rest) + if w.last.End? then 1 else 0
  }

  predicate Gives(e: Event) { e.Req? && e.ask.AskRelease? }

  function Releases(w: Traffic, offer: nat): nat {
    if w.Empty? then 0 else Releases(w.rest, offer) + if Gives(w.last) && w.last.ask.offer == offer then 1 else 0
  }

  ghost predicate AskedIn(w: Traffic, id: nat, cert: Option<string>) {
    exists p :: Within(p, w) && p.Then? && p.last.Req? && p.last.id == id && CertOf(p.last.ask) == cert
  }

  ghost predicate Authorized(w: Traffic, e: Event)
    requires e.Reply?
  {
    AskedIn(w, e.request, Some(e.signer)) && Replies(w, e.request) == 0
  }

  lemma {:induction false} PendingWasAsked(w: Traffic)
    requires Pending(w).Some?
    ensures AskedIn(w, Pending(w).value.id, Pending(w).value.cert)
    decreases w
  {
    if w.last.Req? {
      assert Within(w, w);
    } else {
      PendingWasAsked(w.rest);
      var asked := Pending(w).value;
      var p :| Within(p, w.rest) && p.Then? && p.last.Req? && p.last.id == asked.id && CertOf(p.last.ask) == asked.cert;
      assert Within(p, w);
    }
  }

  lemma {:induction false} DisciplinedBefore(p: Traffic, w: Traffic)
    requires Disciplined(w) && Within(p, w)
    ensures Disciplined(p)
    decreases w
  {
    if p != w { DisciplinedBefore(p, w.rest); }
  }

  /** Wherever a CMS reply was written, it was the first to a signing request for that very certificate. */
  lemma ReplyAuthorized(w: Traffic, p: Traffic)
    requires Disciplined(w) && Within(p, w) && p.Then? && p.last.Reply?
    ensures Authorized(p.rest, p.last)
  {
    DisciplinedBefore(p, w);
    PendingWasAsked(p.rest);
    OneReply(p.rest, p.last.request);
  }

  /** Requests written minus responses accepted, in this session. */
  function Unanswered(w: Traffic): int {
    if w.Empty? || w.last.Begin? || w.last.End? then 0
    else Unanswered(w.rest) + if w.last.Req? then 1 else if w.last.Resp? then -1 else 0
  }

  lemma {:induction false} AtMostOneUnanswered(w: Traffic)
    requires Disciplined(w)
    ensures Unanswered(w) == if Pending(w).Some? then 1 else 0
  {
    if w.Then? { AtMostOneUnanswered(w.rest); }
  }
}
