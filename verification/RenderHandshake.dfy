/**
 * WorkerClient::render: a caller that may give up at any poll and a job on the transport thread
 * share one reference-counted record. Every atomic step of either side is an action; a schedule
 * is any sequence of enabled actions. Critical sections are not assumed atomic: the mutex is part
 * of the state.
 */
module RenderHandshake {
  import opened Basics

  datatype Thread = Caller | Job

  /** What transport->render produced: an image, perhaps null, and the links it wrote. */
  datatype Product = Product(image: Option<nat>, links: Option<nat>)

  datatype CallerPc =
    | Dispatching          // the record exists; the job is not queued yet
    | Entering             // wants the mutex
    | AtTop                // holds it, top of the loop
    | Asking               // asks shouldAbort without it
    | Relocking(abort: bool)
    | Deciding(abort: bool)
    | Cancelling           // holds it; cancelled is set, the cookie is not
    | Taking               // holds it; done was seen
    | Sleeping             // in wait_for
    | Leaving(result: Option<Product>)   // holds it; about to return
    | Returned(result: Option<Product>)

  datatype JobPc =
    | Absent
    | Queued
    | Checking             // holds the mutex, has not read cancelled
    | Passing              // holds it; was not cancelled
    | Dropping             // holds it; was cancelled
    | Ready                // about to send the request
    | Rendering            // request sent
    | Storing(product: Product)          // wants the mutex
    | Keeping(product: Product)          // holds it
    | Releasing            // holds it; done is set
    | Notifying
    | Gone

  datatype State = State(
    caller: CallerPc, job: JobPc, mutex: Option<Thread>, refs: set<Thread>,
    cancelled: bool, done: bool, image: Option<nat>, links: Option<nat>,   // the shared record
    mapped: bool, cookie: nat,                                             // the cancellation cookie
    rpcs: nat, product: Option<Product>)                                   // requests sent; what the job produced

  function Initial(mapped: bool): State {
    State(Dispatching, Absent, None, {Caller}, false, false, None, None, mapped, 0, 0, None)
  }

  datatype Action =
    | Dispatch(queued: bool) | CallerLocks | CallerUnlocks | Ask(abort: bool) | Decide | WriteCookie | Take | Wake
    | Return
    | JobLocks | Check | JobUnlocks | Send | Finish(product: Product) | Store | Notify

  function Actor(a: Action): Thread {
    match a
    case JobLocks => Job
    case Check => Job
    case JobUnlocks => Job
    case Send => Job
    case Finish(_) => Job
    case Store => Job
    case Notify => Job
    case _ => Caller
  }

  predicate Enabled(s: State, a: Action) {
    match a
    case Dispatch(_) => s.caller == Dispatching
    case CallerLocks => (s.caller == Entering || s.caller.Relocking?) && s.mutex == None
    case CallerUnlocks => s.caller == AtTop
    case Ask(_) => s.caller == Asking
    case Decide => s.caller.Deciding?
    case WriteCookie => s.caller == Cancelling
    case Take => s.caller == Taking
    case Wake => s.caller == Sleeping && s.mutex == None
    case Return => s.caller.Leaving?
    case JobLocks => (s.job == Queued || s.job.Storing?) && s.mutex == None
    case Check => s.job == Checking
    case JobUnlocks => s.job == Passing || s.job == Dropping || s.job == Releasing
    case Send => s.job == Ready
    case Finish(_) => s.job == Rendering
    case Store => s.job.Keeping?
    case Notify => s.job == Notifying
  }

  function Do(s: State, a: Action): State
    requires Enabled(s, a)
  {
    match a
    case Dispatch(queued) =>
      if queued then s.(caller := Entering, job := Queued, refs := s.refs + {Job})
      else s.(caller := Returned(None), refs := s.refs - {Caller})
    case CallerLocks => s.(mutex := Some(Caller),
                           caller := if s.caller == Entering then AtTop else Deciding(s.caller.abort))
    case CallerUnlocks => s.(mutex := None, caller := Asking)
    case Ask(abort) => s.(caller := Relocking(abort))
    case Decide =>
      if s.caller.abort then s.(cancelled := true, caller := Cancelling)
      else if s.done then s.(caller := Taking)
      else s.(mutex := None, caller := Sleeping)
    case WriteCookie => s.(cookie := if s.mapped then 1 else s.cookie, caller := Leaving(None))
    case Take => s.(caller := Leaving(Some(Product(s.image, s.links))))
    case Wake => s.(mutex := Some(Caller), caller := AtTop)
    case Return => s.(mutex := None, caller := Returned(s.caller.result), refs := s.refs - {Caller})
    case JobLocks => s.(mutex := Some(Job), job := if s.job == Queued then Checking else Keeping(s.job.product))
    case Check => s.(job := if s.cancelled then Dropping else Passing)
    case JobUnlocks =>
      if s.job == Passing then s.(mutex := None, job := Ready)
      else if s.job == Dropping then s.(mutex := None, job := Gone, refs := s.refs - {Job})
      else s.(mutex := None, job := Notifying)
    case Send => s.(rpcs := s.rpcs + 1, job := Rendering)
    case Finish(product) => s.(links := product.links, product := Some(product), job := Storing(product))
    case Store => s.(image := if s.cancelled then s.image else s.job.product.image, done := true, job := Releasing)
    case Notify => s.(job := Gone, refs := s.refs - {Job})
  }

  // ----- What every reachable state satisfies -----

  predicate Holds(s: State, t: Thread) {
    match t
    case Caller => s.caller == AtTop || s.caller.Deciding? || s.caller == Cancelling || s.caller == Taking
      || s.caller.Leaving?
    case Job => s.job == Checking || s.job == Passing || s.job == Dropping || s.job.Keeping? || s.job == Releasing
  }

  predicate Undispatched(s: State) { s.job == Absent || s.job == Queued || s.job == Checking || s.job == Dropping }

  predicate Working(s: State) {
    s.job == Passing || s.job == Ready || s.job == Rendering || s.job.Storing? || s.job.Keeping?
  }

  predicate Inv(s: State) {
    // the mutex is held by exactly the side that is inside a critical section
    && (Holds(s, Caller) <==> s.mutex == Some(Caller)) && (Holds(s, Job) <==> s.mutex == Some(Job))
    // each side keeps the record alive until its last step
    && (Caller in s.refs <==> !s.caller.Returned?) && (Job in s.refs <==> s.job != Absent && s.job != Gone)
    // the job
    && (s.job == Absent ==> s.caller == Dispatching || s.caller == Returned(None))
    && (s.caller == Dispatching ==> s.job == Absent)
    && s.rpcs == (if s.job == Rendering || s.product.Some? then 1 else 0)
    && (s.job == Dropping ==> s.cancelled)
    && (Undispatched(s) || Working(s) ==> !s.done) && (s.job == Releasing || s.job == Notifying ==> s.done)
    && (s.product.Some? <==> s.job.Storing? || s.job.Keeping? || s.done)
    && (s.job.Storing? || s.job.Keeping? ==> s.product == Some(s.job.product))
    && (s.product.Some? ==> s.links == s.product.value.links)
    && (s.job == Gone && !s.done ==> s.cancelled)
    // the caller
    && (s.cancelled ==> s.caller == Cancelling || s.caller == Leaving(None) || s.caller == Returned(None))
    && (s.caller == Cancelling ==> s.cancelled)
    && (s.caller == Leaving(None) ==> s.cancelled)
    && (s.caller == Taking ==> s.done)
    && (s.caller.Leaving? && s.caller.result.Some? ==> s.done && s.caller.result == s.product)
    && (s.caller.Returned? && s.caller.result.Some? ==> s.done && s.caller.result == s.product)
    && (s.done && !s.cancelled ==> s.image == s.product.value.image)
    // the cookie
    && s.cookie <= 1 && (s.cookie == 1 ==> s.cancelled && s.mapped)
    && (s.cancelled && s.caller != Cancelling && s.mapped ==> s.cookie == 1)
  }

  lemma CallerKeeps(s: State, a: Action)
    requires Inv(s) && Enabled(s, a) && Actor(a) == Caller
    ensures Inv(Do(s, a))
  {
  }

  lemma JobKeeps(s: State, a: Action)
    requires Inv(s) && Enabled(s, a) && Actor(a) == Job
    ensures Inv(Do(s, a))
  {
  }

  lemma StepKeeps(s: State, a: Action)
    requires Inv(s) && Enabled(s, a)
    ensures Inv(Do(s, a))
  {
    if Actor(a) == Caller { CallerKeeps(s, a); } else { JobKeeps(s, a); }
  }

  /** What a step leaves as it is: a finished job and what it stored, a cancellation, the cookie's order. */
  lemma StepFinal(s: State, a: Action)
    requires Inv(s) && Enabled(s, a)
    ensures s.done ==> Do(s, a).done && Do(s, a).links == s.links && Do(s, a).product == s.product
    ensures s.job == Gone ==> Do(s, a).job == Gone && Do(s, a).rpcs == s.rpcs
    ensures s.cookie <= Do(s, a).cookie && (s.cancelled ==> Do(s, a).cancelled)
  {
  }

  // ----- Schedules -----

  datatype Schedule = Stop | Then(first: Action, rest: Schedule)

  predicate Feasible(s: State, run: Schedule)
    decreases run
  {
    run.Then? ==> Enabled(s, run.first) && Feasible(Do(s, run.first), run.rest)
  }

  function Exec(s: State, run: Schedule): State
    requires Feasible(s, run)
    decreases run
  {
    if run.Stop? then s else Exec(Do(s, run.first), run.rest)
  }

  lemma {:induction false} ExecKeeps(s: State, run: Schedule)
    requires Inv(s) && Feasible(s, run)
    ensures Inv(Exec(s, run))
    decreases run
  {
    if run.Then? {
      StepKeeps(s, run.first);
      ExecKeeps(Do(s, run.first), run.rest);
    }
  }

  // ----- The promises of render, for every schedule -----

  /** Given up before the job looked: no request is ever sent. */
  lemma {:induction false} CancelledBeforeDispatch(s: State, run: Schedule)
    requires Inv(s) && s.cancelled && Undispatched(s) && Feasible(s, run)
    ensures Exec(s, run).rpcs == 0
    decreases run
  {
    if run.Then? {
      StepKeeps(s, run.first);
      var t := Do(s, run.first);
      if t.job == Gone { GoneStaysGone(t, run.rest); } else { CancelledBeforeDispatch(t, run.rest); }
    }
  }

  lemma {:induction false} GoneStaysGone(s: State, run: Schedule)
    requires Inv(s) && s.job == Gone && Feasible(s, run)
    ensures Exec(s, run).job == Gone && Exec(s, run).rpcs == s.rpcs
    decreases run
  {
    if run.Then? {
      StepKeeps(s, run.first);
      StepFinal(s, run.first);
      GoneStaysGone(Do(s, run.first), run.rest);
    }
  }

  /** A call that failed to queue its job sends nothing either. */
  lemma {:induction false} NotQueued(mapped: bool, run: Schedule)
    requires Feasible(Initial(mapped), run) && run.Then? && run.first == Dispatch(false)
    ensures run.rest == Stop && Exec(Initial(mapped), run).rpcs == 0 && Exec(Initial(mapped), run).refs == {}
  {
    var s := Do(Initial(mapped), run.first);
    assert forall a :: !Enabled(s, a);
    assert Exec(s, run.rest) == s;
  }

  /** An image or links come back only from a job that completed, was not cancelled, and produced exactly them. */
  lemma ReturnedIsProduct(mapped: bool, run: Schedule)
    requires Feasible(Initial(mapped), run)
    ensures var s := Exec(Initial(mapped), run);
            s.caller.Returned? && s.caller.result.Some? ==>
              s.done && !s.cancelled && s.cookie == 0 && s.rpcs == 1 && s.product == s.caller.result
  {
    ExecKeeps(Initial(mapped), run);
  }

  /** When the caller reads the links the job has written them and never will again. */
  lemma {:induction false} LinksAreFinal(s: State, run: Schedule)
    requires Inv(s) && s.done && Feasible(s, run)
    ensures Exec(s, run).links == s.links && Exec(s, run).product == s.product && Exec(s, run).done
    decreases run
  {
    if run.Then? {
      StepKeeps(s, run.first);
      StepFinal(s, run.first);
      LinksAreFinal(Do(s, run.first), run.rest);
    }
  }

  lemma TakeAfterDone(mapped: bool, run: Schedule)
    requires Feasible(Initial(mapped), run) && Enabled(Exec(Initial(mapped), run), Take)
    ensures var s := Exec(Initial(mapped), run); s.done && s.product == Some(Product(s.image, s.links))
  {
    ExecKeeps(Initial(mapped), run);
  }

  /** The cookie goes from 0 to 1 and stays; it is 1 only of a cancelled job. */
  lemma {:induction false} CookieRises(s: State, run: Schedule)
    requires Inv(s) && Feasible(s, run)
    ensures s.cookie <= Exec(s, run).cookie <= 1 && (Exec(s, run).cookie == 1 ==> Exec(s, run).cancelled)
    ensures s.cancelled ==> Exec(s, run).cancelled
    decreases run
  {
    if run.Then? {
      StepKeeps(s, run.first);
      StepFinal(s, run.first);
      CookieRises(Do(s, run.first), run.rest);
    }
  }

  /** Whoever acts holds a reference: the record, its cookie and its descriptor outlive both sides. */
  lemma ActorHoldsReference(mapped: bool, run: Schedule, a: Action)
    requires Feasible(Initial(mapped), run) && Enabled(Exec(Initial(mapped), run), a)
    ensures Actor(a) in Exec(Initial(mapped), run).refs
  {
    ExecKeeps(Initial(mapped), run);
  }

  ghost predicate Finished(s: State) { s.caller.Returned? && (s.job == Gone || s.job == Absent) }

  /** No schedule gets stuck, and the record is gone exactly when both sides are through. */
  lemma NeverStuck(mapped: bool, run: Schedule)
    requires Feasible(Initial(mapped), run)
    ensures var s := Exec(Initial(mapped), run);
            (Finished(s) <==> s.refs == {}) && (!Finished(s) ==> exists a :: Enabled(s, a))
  {
    ExecKeeps(Initial(mapped), run);
    var s := Exec(Initial(mapped), run);
    FreedWhenFinished(s);
    if !Finished(s) { assert Enabled(s, SomeStep(s)); }
  }

  lemma FreedWhenFinished(s: State)
    requires Inv(s)
    ensures Finished(s) <==> s.refs == {}
  {
    assert s.refs == {} <==> Caller !in s.refs && Job !in s.refs by {
      if Caller !in s.refs && Job !in s.refs {
        forall t ensures t !in s.refs { assert t == Caller || t == Job; }
      }
    }
  }

  /** A step some side can take: the holder of the mutex if there is one. */
  function SomeStep(s: State): (a: Action)
    requires Inv(s) && !(s.caller.Returned? && (s.job == Gone || s.job == Absent))
    ensures Enabled(s, a)
  {
    assert s.mutex.None? || s.mutex.value.Caller? || s.mutex.value.Job?;
    if s.mutex == Some(Job) then
      if s.job == Checking then Check else if s.job.Keeping? then Store else JobUnlocks
    else if !s.caller.Returned? then
      match s.caller
      case Dispatching => Dispatch(true)
      case Entering => CallerLocks
      case AtTop => CallerUnlocks
      case Asking => Ask(false)
      case Relocking(_) => CallerLocks
      case Deciding(_) => Decide
      case Cancelling => WriteCookie
      case Taking => Take
      case Sleeping => Wake
      case Leaving(_) => Return
    else if s.job == Queued || s.job.Storing? then JobLocks
    else if s.job == Ready then Send
    else if s.job == Rendering then Finish(Product(None, None))
    else Notify
  }

  /**
   * Once the job is done and out of the way, a caller that does not abort returns the product by its own steps alone.
   */
  lemma {:induction false} CallerReturns(s: State) returns (run: Schedule)
    requires Inv(s) && s.done && !s.cancelled && s.mutex != Some(Job) && !s.caller.Returned?
    requires !((s.caller.Relocking? || s.caller.Deciding?) && s.caller.abort)
    ensures Feasible(s, run) && Exec(s, run).caller == Returned(s.product) && CallerOnly(run)
    decreases match s.caller
              case Sleeping => 8
              case Entering => 7
              case AtTop => 6
              case Asking => 5
              case Relocking(_) => 4
              case Deciding(_) => 3
              case Taking => 2
              case _ => 1
  {
    if s.caller.Leaving? {
      run := Then(Return, Stop);
      assert Exec(s, run) == Do(s, Return);
    } else {
      var a := SomeStep(s);
      StepKeeps(s, a);
      var rest := CallerReturns(Do(s, a));
      run := Then(a, rest);
    }
  }

  predicate CallerOnly(run: Schedule) { run.Then? ==> Actor(run.first) == Caller && CallerOnly(run.rest) }
}
