/**
 * Files the transport publishes and the one asynchronous export it may have pending. The ledger is
 * every export signal and every file replaced in a run; Fair says which ledgers are right.
 */
module Exports {
  import opened Basics

  datatype Deal =
    | Registered(job: nat, target: string)                      // startExport returned job
    | Progressed(job: nat)                                      // progress signal
    | Succeeded(job: nat, target: string, content: string)      // terminal signal
    | Failed(job: nat)                                          // terminal signal
    | Closing                                                   // close()
    | Abandoned(job: nat)                                       // dropped without a signal
    | Wrote(target: string, content: string)                    // writeFile or signToFile succeeded

  datatype Ledger = Blank | Entry(rest: Ledger, last: Deal)

  datatype Export = Export(target: string, job: nat)

  function Outstanding(l: Ledger): Option<Export> {
    if l.Blank? then None
    else match l.last
      case Registered(job, target) => Some(Export(target, job))
      case Succeeded(_, _, _) => None
      case Failed(_) => None
      case Abandoned(_) => None
      case _ => Outstanding(l.rest)
  }

  predicate Fair(l: Ledger) {
    l.Entry? ==> Fair(l.rest) && Owed(l.rest, l.last)
  }

  predicate Owed(l: Ledger, e: Deal) {
    match e
    case Registered(_, _) => Outstanding(l) == None
    case Progressed(job) => Outstanding(l).Some? && Outstanding(l).value.job == job
    case Succeeded(job, target, _) => Outstanding(l) == Some(Export(target, job))
    case Failed(job) => Outstanding(l).Some? && Outstanding(l).value.job == job
    case Abandoned(job) => Outstanding(l).Some? && Outstanding(l).value.job == job && l.Entry? && l.last.Closing?
    case _ => true
  }

  /** The files on disk, from the success signals alone. */
  function Files(l: Ledger, initial: map<string, string>): map<string, string> {
    if l.Blank? then initial
    else if l.last.Succeeded? || l.last.Wrote? then Files(l.rest, initial)[l.last.target := l.last.content]
    else Files(l.rest, initial)
  }

  function Registrations(l: Ledger): nat {
    if l.Blank? then 0 else Registrations(l.rest) + if l.last.Registered? then 1 else 0
  }

  /** Entries an operation decides on, as opposed to signals that follow from the worker's progress. */
  function Decisions(l: Ledger): nat {
    if l.Blank? then 0
    else Decisions(l.rest) + if l.last.Progressed? || l.last.Succeeded? || l.last.Failed? then 0 else 1
  }

  /** Terminal signals, and abandonments, of the k-th registered export. */
  function Signals(l: Ledger, k: nat): nat {
    if l.Blank? then 0
    else Signals(l.rest, k) + if (l.last.Succeeded? || l.last.Failed?) && Registrations(l.rest) == k then 1 else 0
  }

  function Drops(l: Ledger, k: nat): nat {
    if l.Blank? then 0
    else Drops(l.rest, k) + if l.last.Abandoned? && Registrations(l.rest) == k then 1 else 0
  }

  /** Every registered export but an outstanding one has ended exactly once, by one signal or by a close. */
  lemma {:induction false} ExportsEndOnce(l: Ledger, k: nat)
    requires Fair(l)
    ensures Signals(l, k) + Drops(l, k)
            == if 1 <= k < Registrations(l) || (1 <= k == Registrations(l) && Outstanding(l) == None) then 1 else 0
    ensures Outstanding(l).Some? ==> Registrations(l) >= 1
  {
    if l.Entry? { ExportsEndOnce(l.rest, k); }
  }

  /** Without a close between them, a registration is followed by a terminal signal and never by a drop. */
  lemma {:induction false} DropsNeedClose(l: Ledger, k: nat)
    requires Fair(l) && Drops(l, k) > 0
    ensures ClosedAfter(l, k)
  {
    if l.last.Abandoned? && Registrations(l.rest) == k {
      assert Under(l.rest, l.rest) && Under(l.rest, l);
    } else {
      DropsNeedClose(l.rest, k);
      var p :| Under(p, l.rest) && p.Entry? && p.last.Closing? && Registrations(p) == k;
      assert Under(p, l);
    }
  }

  /** The document was closed while the k-th registered export was the last one. */
  ghost predicate ClosedAfter(l: Ledger, k: nat) {
    exists p :: Under(p, l) && p.Entry? && p.last.Closing? && Registrations(p) == k
  }

  predicate Under(p: Ledger, l: Ledger) { p == l || (l.Entry? && Under(p, l.rest)) }

  // ----- The transport's side -----

  /** A temporary file when it is finalized: its content, and how flush, fsync and rename end. */
  datatype Disk = Disk(content: string, flushed: bool, synced: bool, renamed: bool) {
    predicate Good() { flushed && synced && renamed }
  }

  /** The pending export agrees with the ledger, and the file system is what the signals say. */
  predicate DeskOk(ledger: Ledger, initial: map<string, string>, files: map<string, string>, pending: Option<Export>) {
    Fair(ledger) && files == Files(ledger, initial) && Outstanding(ledger) == pending
  }
}
