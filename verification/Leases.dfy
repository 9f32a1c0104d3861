/**
 * Shared frame slots: the per-session slot cache, the images that hold leases on slots, and the
 * release tasks queued when images die. Mappings are shared between the cache and the images by
 * reference counting.
 */
module Leases {
  import opened Session

  const MAX_FRAME_SLOT_COUNT: nat := 8

  /**
   * What becomes of a lease the worker offered: an image holds it, its release waits in the queue, the release
   * is being sent, was written, or is no longer due because the session of the offer ended.
   */
  datatype Fate = Held | Queued | Returning | Released | Lapsed

  datatype Offer = Offer(session: nat, slot: nat, lease: nat, fate: Fate)

  /** FrameLease: what a live image remembers; serial is the image's identity. */
  datatype Lease = Lease(serial: nat, session: nat, slot: nat, lease: nat)

  // ----- Reference counts -----

  function Keys(m: map<nat, nat>, v: nat): set<nat> { set k | k in m && m[k] == v }

  function Count(m: map<nat, nat>, v: nat): nat { |Keys(m, v)| }

  lemma CountAdd(m: map<nat, nat>, k: nat, v: nat, w: nat)
    requires k !in m
    ensures Count(m[k := v], w) == Count(m, w) + if v == w then 1 else 0
  {
    assert Keys(m[k := v], w) == Keys(m, w) + if v == w then {k} else {};
  }

  lemma CountDrop(m: map<nat, nat>, k: nat, w: nat)
    requires k in m
    ensures Count(m - {k}, w) == Count(m, w) - if m[k] == w then 1 else 0
  {
    if m[k] == w {
      assert Keys(m, w) == Keys(m - {k}, w) + {k};
    } else {
      assert Keys(m, w) == Keys(m - {k}, w);
    }
  }

  /** refs counts the holders of every mapping, and a mapping without holders is gone. */
  ghost predicate Counted(refs: map<nat, nat>, slots: map<nat, nat>, pins: map<nat, nat>) {
    forall m :: Count(slots, m) + Count(pins, m) == if m in refs then refs[m] else 0
  }

  /** A live image's mapping is still mapped. */
  lemma PinnedIsMapped(refs: map<nat, nat>, slots: map<nat, nat>, pins: map<nat, nat>, k: nat)
    requires Counted(refs, slots, pins) && k in pins
    ensures pins[k] in refs
  {
    assert k in Keys(pins, pins[k]);
    assert Count(pins, pins[k]) > 0;
  }

  /** A holder of m lets go: the last one unmaps it. */
  function Drop(refs: map<nat, nat>, m: nat): map<nat, nat>
    requires m in refs && refs[m] > 0
  {
    if refs[m] == 1 then refs - {m} else refs[m := refs[m] - 1]
  }

  function Retain(refs: map<nat, nat>, m: nat): map<nat, nat> {
    refs[m := if m in refs then refs[m] + 1 else 1]
  }

  lemma DropSlot(refs: map<nat, nat>, slots: map<nat, nat>, pins: map<nat, nat>, k: nat)
    requires Counted(refs, slots, pins) && k in slots
    ensures slots[k] in refs && refs[slots[k]] > 0 && Counted(Drop(refs, slots[k]), slots - {k}, pins)
  {
    assert k in Keys(slots, slots[k]);
    forall m ensures Count(slots - {k}, m) == Count(slots, m) - if slots[k] == m then 1 else 0 {
      CountDrop(slots, k, m);
    }
  }

  lemma DropPin(refs: map<nat, nat>, slots: map<nat, nat>, pins: map<nat, nat>, k: nat)
    requires Counted(refs, slots, pins) && k in pins
    ensures pins[k] in refs && refs[pins[k]] > 0 && Counted(Drop(refs, pins[k]), slots, pins - {k})
  {
    assert k in Keys(pins, pins[k]);
    forall m ensures Count(pins - {k}, m) == Count(pins, m) - if pins[k] == m then 1 else 0 { CountDrop(pins, k, m); }
  }

  lemma RetainSlot(refs: map<nat, nat>, slots: map<nat, nat>, pins: map<nat, nat>, k: nat, v: nat)
    requires Counted(refs, slots, pins) && k !in slots
    ensures Counted(Retain(refs, v), slots[k := v], pins)
  {
    forall m ensures Count(slots[k := v], m) == Count(slots, m) + if v == m then 1 else 0 { CountAdd(slots, k, v, m); }
  }

  lemma RetainPin(refs: map<nat, nat>, slots: map<nat, nat>, pins: map<nat, nat>, k: nat, v: nat)
    requires Counted(refs, slots, pins) && k !in pins
    ensures Counted(Retain(refs, v), slots, pins[k := v])
  {
    forall m ensures Count(pins[k := v], m) == Count(pins, m) + if v == m then 1 else 0 { CountAdd(pins, k, v, m); }
  }

  // ----- Leases -----

  ghost predicate OffersOk(offers: seq<Offer>, held: map<nat, Lease>, tasks: seq<Lease>, session: nat,
                           connected: bool) {
    && (forall k :: k in held ==>
          k < |offers| && offers[k] == Offer(held[k].session, held[k].slot, held[k].lease, Held) && held[k].serial == k)
    && (forall k :: 0 <= k < |offers| && offers[k].fate.Held? ==> k in held)
    && (forall i :: 0 <= i < |tasks| ==> Waiting(offers, tasks[i]))
    && (forall i, j :: 0 <= i < j < |tasks| ==> tasks[i].serial != tasks[j].serial)
    && (forall k :: 0 <= k < |offers| && offers[k].fate.Queued? ==> LeaseOf(offers, k) in tasks)
    && (forall k :: 0 <= k < |offers| ==> offers[k].session <= session)
    && (connected ==> forall k :: 0 <= k < |offers| && offers[k].session == session ==> !offers[k].fate.Lapsed?)
  }

  // ----- Releases on the wire -----

  /** Every release written gives back an offer, under its own slot and lease, in the session that made it. */
  predicate Returned(w: Traffic, offers: seq<Offer>) {
    w.Then? ==> Returned(w.rest, offers) && (Gives(w.last) ==> GivesBack(w.last.ask, offers, Sessions(w.rest)))
  }

  predicate GivesBack(ask: Ask, offers: seq<Offer>, session: nat)
    requires ask.AskRelease?
  {
    ask.offer < |offers| && SameTerms(offers[ask.offer], Offer(session, ask.slot, ask.lease, Released))
  }

  predicate SameTerms(a: Offer, b: Offer) { a.session == b.session && a.slot == b.slot && a.lease == b.lease }

  function IsReleased(offers: seq<Offer>, k: nat): nat { if k < |offers| && offers[k].fate.Released? then 1 else 0 }

  /** The release of an offer was written exactly if it counts as released, and then once. */
  ghost predicate ReleasesOk(w: Traffic, offers: seq<Offer>, session: nat) {
    Sessions(w) == session && Returned(w, offers) && forall k :: Releases(w, k) == IsReleased(offers, k)
  }

  /** Between operations no release is half sent. */
  predicate Settled(offers: seq<Offer>) { forall k :: 0 <= k < |offers| ==> !offers[k].fate.Returning? }

  /** The offers after a request: one that gives an offer back settles what became of it. */
  function Answered(offers: seq<Offer>, ask: Ask, written: bool): (r: seq<Offer>)
    ensures |r| == |offers|
  {
    if ask.AskRelease? && ask.offer < |offers| then Settle(offers, ask.offer, if written then Released else Lapsed)
    else offers
  }

  function Settle(offers: seq<Offer>, k: nat, fate: Fate): (r: seq<Offer>)
    requires k < |offers|
    ensures |r| == |offers|
  {
    offers[k := offers[k].(fate := fate)]
  }

  /** The offers may grow and change their fates while the same ones count as released. */
  predicate Evolves(offers: seq<Offer>, after: seq<Offer>) {
    && |offers| <= |after|
    && (forall k :: 0 <= k < |offers| ==> SameTerms(offers[k], after[k]))
    && (forall k :: 0 <= k < |after| ==> IsReleased(after, k) == IsReleased(offers, k))
  }

  lemma {:induction false} ReturnedStill(w: Traffic, offers: seq<Offer>, after: seq<Offer>)
    requires Returned(w, offers) && |offers| <= |after| && forall k :: 0 <= k < |offers| ==>
               SameTerms(offers[k], after[k])
    ensures Returned(w, after)
  {
    if w.Then? { ReturnedStill(w.rest, offers, after); }
  }

  lemma ReleasesStill(w: Traffic, offers: seq<Offer>, after: seq<Offer>, session: nat)
    requires ReleasesOk(w, offers, session) && Evolves(offers, after)
    ensures ReleasesOk(w, after, session)
  {
    ReturnedStill(w, offers, after);
    forall k ensures Releases(w, k) == IsReleased(after, k) { assert Releases(w, k) == IsReleased(offers, k); }
  }

  /** A new offer, or a fate short of a release, is no release. */
  lemma AppendStill(w: Traffic, offers: seq<Offer>, offer: Offer, session: nat)
    requires ReleasesOk(w, offers, session) && !offer.fate.Released?
    ensures ReleasesOk(w, offers + [offer], session)
    ensures Settled(offers) && !offer.fate.Returning? ==> Settled(offers + [offer])
  {
    ReleasesStill(w, offers, offers + [offer], session);
  }

  lemma SettleStill(w: Traffic, offers: seq<Offer>, k: nat, fate: Fate, session: nat)
    requires ReleasesOk(w, offers, session) && k < |offers| && !offers[k].fate.Released? && !fate.Released?
    ensures ReleasesOk(w, Settle(offers, k, fate), session)
    ensures Settled(offers) && !fate.Returning? ==> Settled(Settle(offers, k, fate))
  {
    ReleasesStill(w, offers, Settle(offers, k, fate), session);
  }

  /** Anything else that passes over the channels changes nothing about releases. */
  lemma ReleasesPass(w: Traffic, e: Event, offers: seq<Offer>, session: nat)
    requires ReleasesOk(w, offers, session) && !Gives(e)
    ensures ReleasesOk(Then(w, e), offers, session + if e.End? then 1 else 0)
  {
    forall k ensures Releases(Then(w, e), k) == IsReleased(offers, k) {
      assert Releases(w, k) == IsReleased(offers, k);
    }
  }

  /** A release is written while it is being sent. */
  lemma ReleaseWritten(w: Traffic, offers: seq<Offer>, session: nat, e: Event)
    requires ReleasesOk(w, offers, session) && Gives(e) && GivesBack(e.ask, offers, session)
    requires offers[e.ask.offer].fate.Returning?
    ensures ReleasesOk(Then(w, e), Settle(offers, e.ask.offer, Released), session)
  {
    var after := Settle(offers, e.ask.offer, Released);
    ReturnedStill(w, offers, after);
    forall k ensures Releases(Then(w, e), k) == IsReleased(after, k) { assert Releases(w, k) == IsReleased(offers, k); }
  }

  /** A new session makes every earlier lease one of a past session. */
  lemma NextSession(offers: seq<Offer>, held: map<nat, Lease>, tasks: seq<Lease>, session: nat, connected: bool)
    requires OffersOk(offers, held, tasks, session, connected)
    ensures OffersOk(offers, held, tasks, session + 1, false) && Past(offers, session + 1)
  {
  }

  predicate Past(offers: seq<Offer>, session: nat) { forall k :: 0 <= k < |offers| ==> offers[k].session < session }

  predicate Waiting(offers: seq<Offer>, t: Lease) {
    t.serial < |offers| && offers[t.serial] == Offer(t.session, t.slot, t.lease, Queued)
  }

  function LeaseOf(offers: seq<Offer>, k: nat): Lease
    requires k < |offers|
  {
    Lease(k, offers[k].session, offers[k].slot, offers[k].lease)
  }

  /** m_frameSlots, the live images with the mapping each keeps, the holders of every mapping, the queued releases. */
  datatype Table = Table(slots: map<nat, nat>, held: map<nat, Lease>, pins: map<nat, nat>, refs: map<nat, nat>,
                         tasks: seq<Lease>, issued: nat)

  const NO_FRAMES := Table(map[], map[], map[], map[], [], 0)

  ghost predicate TableOk(t: Table, offers: seq<Offer>, session: nat, connected: bool) {
    && |t.slots| <= MAX_FRAME_SLOT_COUNT && t.pins.Keys == t.held.Keys && t.issued == |offers|
    && Counted(t.refs, t.slots, t.pins) && OffersOk(offers, t.held, t.tasks, session, connected)
  }

  /** m_frameSlots.clear(): images keep their mappings. */
  method ClearSlots(t: Table, ghost offers: seq<Offer>, ghost session: nat, ghost connected: bool) returns (r: Table)
    requires TableOk(t, offers, session, connected)
    ensures TableOk(r, offers, session, connected) && r == t.(slots := map[], refs := r.refs)
  {
    r := t;
    while r.slots != map[]
      invariant TableOk(r, offers, session, connected) && r == t.(slots := r.slots, refs := r.refs)
      decreases |r.slots|
    {
      var k :| k in r.slots;
      DropSlot(r.refs, r.slots, r.pins, k);
      assert |(r.slots - {k}).Keys| == |r.slots.Keys - {k}|;
      r := r.(refs := Drop(r.refs, r.slots[k]), slots := r.slots - {k});
    }
  }

  /** A newly received mapping enters the cache. */
  function Cache(t: Table, slot: nat, mapping: nat): Table {
    t.(refs := Retain(t.refs, mapping), slots := t.slots[slot := mapping])
  }

  lemma CacheKeeps(t: Table, offers: seq<Offer>, session: nat, connected: bool, slot: nat, mapping: nat)
    requires TableOk(t, offers, session, connected) && slot !in t.slots && |t.slots| < MAX_FRAME_SLOT_COUNT
    ensures TableOk(Cache(t, slot, mapping), offers, session, connected)
  {
    RetainSlot(t.refs, t.slots, t.pins, slot, mapping);
    SizeAdd(t.slots, slot, mapping);
  }

  lemma SizeAdd(m: map<nat, nat>, k: nat, v: nat)
    requires k !in m
    ensures |m[k := v]| == |m| + 1
  {
    assert m[k := v].Keys == m.Keys + {k};
    assert |m[k := v]| == |m[k := v].Keys|;
  }

  /** An image takes a lease and a share of the mapping. */
  function Grant(t: Table, slot: nat, lease: nat, mapping: nat, session: nat): Table {
    t.(refs := Retain(t.refs, mapping), pins := t.pins[t.issued := mapping],
       held := t.held[t.issued := Lease(t.issued, session, slot, lease)], issued := t.issued + 1)
  }

  lemma GrantKeeps(t: Table, offers: seq<Offer>, session: nat, connected: bool, slot: nat, lease: nat, mapping: nat)
    requires TableOk(t, offers, session, connected)
    ensures TableOk(Grant(t, slot, lease, mapping, session), offers + [Offer(session, slot, lease, Held)], session,
                    connected)
  {
    Hold(offers, t.held, t.tasks, session, connected, slot, lease);
    RetainPin(t.refs, t.slots, t.pins, t.issued, mapping);
  }

  /** A lease no image takes: given back at once, or lapsed with its session. */
  lemma RefuseKeeps(t: Table, offers: seq<Offer>, session: nat, connected: bool, slot: nat, lease: nat, fate: Fate)
    requires TableOk(t, offers, session, connected) && (fate == Returning || (fate == Lapsed && !connected))
    ensures TableOk(t.(issued := t.issued + 1), offers + [Offer(session, slot, lease, fate)], session, connected)
  {
    var after := offers + [Offer(session, slot, lease, fate)];
    forall j | 0 <= j < |after| && after[j].fate.Queued? ensures LeaseOf(after, j) in t.tasks {
      assert LeaseOf(offers, j) in t.tasks;
    }
    forall i | 0 <= i < |t.tasks| ensures Waiting(after, t.tasks[i]) { assert Waiting(offers, t.tasks[i]); }
  }

  /** cleanupFrameLease: the image is gone, its share of the mapping with it; the release is queued. */
  function Bury(t: Table, k: nat): Table
    requires k in t.held && k in t.pins && t.pins[k] in t.refs && t.refs[t.pins[k]] > 0
  {
    t.(refs := Drop(t.refs, t.pins[k]), pins := t.pins - {k}, held := t.held - {k}, tasks := t.tasks + [t.held[k]])
  }

  lemma BuryKeeps(t: Table, offers: seq<Offer>, session: nat, connected: bool, k: nat)
    requires TableOk(t, offers, session, connected) && k in t.held
    ensures t.pins[k] in t.refs && t.refs[t.pins[k]] > 0
    ensures k < |offers| && TableOk(Bury(t, k), offers[k := offers[k].(fate := Queued)], session, connected)
  {
    Enqueue(offers, t.held, t.tasks, session, connected, k);
    DropPin(t.refs, t.slots, t.pins, k);
    assert (t.pins - {k}).Keys == t.pins.Keys - {k} && (t.held - {k}).Keys == t.held.Keys - {k};
  }

  lemma Hold(offers: seq<Offer>, held: map<nat, Lease>, tasks: seq<Lease>, session: nat, connected: bool, slot: nat,
             lease: nat)
    requires OffersOk(offers, held, tasks, session, connected)
    ensures |offers| !in held
    ensures OffersOk(offers + [Offer(session, slot, lease, Held)],
                     held[|offers| := Lease(|offers|, session, slot, lease)],
                     tasks, session, connected)
  {
    var after := offers + [Offer(session, slot, lease, Held)];
    forall j | 0 <= j < |after| && after[j].fate.Queued? ensures LeaseOf(after, j) in tasks {
      assert LeaseOf(offers, j) in tasks;
    }
    forall i | 0 <= i < |tasks| ensures Waiting(after, tasks[i]) { assert Waiting(offers, tasks[i]); }
  }

  lemma Enqueue(offers: seq<Offer>, held: map<nat, Lease>, tasks: seq<Lease>, session: nat, connected: bool, k: nat)
    requires OffersOk(offers, held, tasks, session, connected) && k in held
    ensures OffersOk(offers[k := offers[k].(fate := Queued)], held - {k}, tasks + [held[k]], session, connected)
  {
    var after, queue := offers[k := offers[k].(fate := Queued)], tasks + [held[k]];
    assert queue[|tasks|] == LeaseOf(after, k);
    forall j | 0 <= j < |after| && after[j].fate.Queued? ensures LeaseOf(after, j) in queue {
      if j != k { assert LeaseOf(offers, j) in tasks; }
    }
    forall i | 0 <= i < |tasks| ensures tasks[i].serial != k { assert Waiting(offers, tasks[i]); }
  }

  /** The oldest queued release leaves the queue: it is sent, or no longer due. */
  lemma Dequeue(offers: seq<Offer>, held: map<nat, Lease>, tasks: seq<Lease>, session: nat, connected: bool, fate: Fate)
    requires OffersOk(offers, held, tasks, session, connected) && tasks != []
    requires fate == Returning || (fate == Lapsed && !(connected && tasks[0].session == session))
    ensures Waiting(offers, tasks[0])
    ensures OffersOk(Settle(offers, tasks[0].serial, fate), held, tasks[1..], session, connected)
  {
    var k := tasks[0].serial;
    assert Waiting(offers, tasks[0]);
    var after := Settle(offers, k, fate);
    forall j | 0 <= j < |after| && after[j].fate.Queued? ensures LeaseOf(after, j) in tasks[1..] {
      assert LeaseOf(offers, j) in tasks && LeaseOf(offers, j) != tasks[0];
    }
    forall i | 0 <= i < |tasks[1..]| ensures Waiting(after, tasks[1..][i]) { assert Waiting(offers, tasks[i + 1]); }
  }

  /** A release that was being sent was written, or its session is over. */
  lemma SettleKeeps(t: Table, offers: seq<Offer>, session: nat, connected: bool, k: nat, fate: Fate)
    requires TableOk(t, offers, session, connected) && k < |offers| && offers[k].fate.Returning?
    requires fate == Released || (fate == Lapsed && !(connected && offers[k].session == session))
    ensures TableOk(t, Settle(offers, k, fate), session, connected)
  {
    var after := Settle(offers, k, fate);
    forall j | 0 <= j < |after| && after[j].fate.Queued? ensures LeaseOf(after, j) in t.tasks {
      assert LeaseOf(offers, j) in t.tasks;
    }
    forall i | 0 <= i < |t.tasks| ensures Waiting(after, t.tasks[i]) { assert Waiting(offers, t.tasks[i]); }
  }
}
