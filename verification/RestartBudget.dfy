/**
 * WorkerClient's restart policy. Times are milliseconds of a clock that never goes back; every
 * method takes the instants it reads.
 */
module RestartBudget {

  const MAX_ATTEMPTS: nat := 3
  const MAX_RESTARTS_PER_WINDOW: nat := 2
  const WINDOW: nat := 5000
  const DELAYS_MS: seq<nat> := [250, 500, 1000]

  datatype State = Stopped | Ready | Recovering | Failed

  /** Any three restarts in a row take at least the window. */
  ghost predicate Spaced(restarts: seq<int>) {
    forall i :: 0 <= i && i + 2 < |restarts| ==> restarts[i + 2] >= restarts[i] + WINDOW
  }

  /** recent are the last restarts; every earlier one has left the window. */
  ghost predicate Recent(restarts: seq<int>, recent: seq<int>, clock: int) {
    && |recent| <= |restarts| && recent == restarts[|restarts| - |recent|..]
    && (forall i :: 0 <= i < |restarts| - |recent| ==> restarts[i] + WINDOW <= clock)
    && (forall i :: 0 <= i < |restarts| ==> restarts[i] <= clock)
  }

  lemma Forget(restarts: seq<int>, recent: seq<int>, clock: int)
    requires Recent(restarts, recent, clock) && recent != [] && recent[0] + WINDOW <= clock
    ensures Recent(restarts, recent[1..], clock)
  {
    assert restarts[|restarts| - |recent|] == recent[0];
  }

  lemma TimePasses(restarts: seq<int>, recent: seq<int>, clock: int, now: int)
    requires Recent(restarts, recent, clock) && clock <= now
    ensures Recent(restarts, recent, now)
  {
    forall i | 0 <= i < |restarts| - |recent| ensures restarts[i] + WINDOW <= now {
      assert restarts[i] + WINDOW <= clock;
    }
    forall i | 0 <= i < |restarts| ensures restarts[i] <= now { assert restarts[i] <= clock; }
  }

  lemma Remember(restarts: seq<int>, recent: seq<int>, clock: int, now: int)
    requires Recent(restarts, recent, clock) && clock <= now
    ensures Recent(restarts + [now], recent + [now], now)
  {
    var k := |restarts| - |recent|;
    assert (restarts + [now])[k..] == restarts[k..] + [now];
  }

  class LifeCycle {
    var timer: bool                      // the restart timer is active
    var stopping: bool
    var restartsDisabled: bool
    var attempts: nat
    var restartTimes: seq<int>           // successful restarts still inside the window, oldest first
    var sequence: nat
    var state: State
    ghost var clock: int                 // the latest instant read
    ghost var restarts: seq<int>         // every automatic restart since the last manual start
    ghost var streak: nat                // timers armed since the last success or manual start

    ghost predicate Valid()
      reads this
    {
      && attempts == streak <= MAX_ATTEMPTS && Spaced(restarts)
      && Recent(restarts, restartTimes, clock) && |restartTimes| <= MAX_RESTARTS_PER_WINDOW
      && (timer ==> |restartTimes| < MAX_RESTARTS_PER_WINDOW && 1 <= streak)
      && (timer ==> !stopping && !restartsDisabled)
    }

    constructor ()
      ensures Valid() && !timer && state == Stopped && restarts == [] && clock == 0
    {
      timer, stopping, restartsDisabled, attempts, restartTimes, sequence := false, false, false, 0, [], 0;
      state, clock, restarts, streak := Stopped, 0, [], 0;
    }

    /** Restarts older than the window no longer count. */
    method Prune(now: int)
      requires Valid() && clock <= now
      modifies `restartTimes, `clock
      ensures Valid() && clock == now && |restartTimes| <= old(|restartTimes|)
      ensures restartTimes != [] ==> restartTimes[0] + WINDOW > now
    {
      TimePasses(restarts, restartTimes, clock, now);
      clock := now;
      var times := restartTimes;
      while times != [] && times[0] <= now - WINDOW
        invariant Recent(restarts, times, now) && |times| <= |restartTimes| == old(|restartTimes|) && clock == now
        decreases |times|
      {
        Forget(restarts, times, now);
        times := times[1..];
      }
      restartTimes := times;
    }

    method Reset()
      requires Valid()
      modifies this
      ensures Valid() && !timer && !stopping && !restartsDisabled && attempts == 0 && restarts == []
              && restartTimes == []
      ensures state == old(state) && sequence == old(sequence) && clock == old(clock)
    {
      timer, stopping, restartsDisabled, attempts, restartTimes := false, false, false, 0, [];
      restarts, streak := [], 0;
    }

    method BudgetExhausted(now: int) returns (exhausted: bool)
      requires Valid() && clock <= now
      modifies `restartTimes, `clock
      ensures Valid() && clock == now
      ensures exhausted == (attempts >= MAX_ATTEMPTS || |restartTimes| >= MAX_RESTARTS_PER_WINDOW)
      ensures |restartTimes| <= old(|restartTimes|) && (restartTimes != [] ==> restartTimes[0] + WINDOW > now)
    {
      Prune(now);
      exhausted := attempts >= MAX_ATTEMPTS || |restartTimes| >= MAX_RESTARTS_PER_WINDOW;
    }

    /** A worker exit, or a restart that failed: a timer is armed unless the budget is spent. */
    method ScheduleRestart(now: int) returns (delay: nat, unavailable: bool)
      requires Valid() && clock <= now
      modifies this
      ensures Valid() && old(clock) <= clock <= now
      ensures restarts == old(restarts) && sequence == old(sequence) && stopping == old(stopping)
      ensures old(stopping || restartsDisabled || timer) ==>
                !unavailable && timer == old(timer) && streak == old(streak)
                  && restartsDisabled == old(restartsDisabled) && state == old(state)
      ensures unavailable ==> restartsDisabled && !timer && state == Failed && streak == old(streak)
      ensures timer && !old(timer) ==>
                old(streak) < MAX_ATTEMPTS && streak == old(streak) + 1 && delay == DELAYS_MS[old(streak)]
                  && state == old(state)
      ensures !old(stopping || restartsDisabled || timer) ==> (timer <==> !unavailable)
    {
      delay, unavailable := 0, false;
      if stopping || restartsDisabled || timer { return; }
      var exhausted := BudgetExhausted(now);
      if exhausted {
        restartsDisabled, timer, state := true, false, Failed;
        return 0, true;
      }
      delay := DELAYS_MS[attempts];
      attempts, streak, timer := attempts + 1, streak + 1, true;
    }

    /** processExited. */
    method ProcessExited(now: int) returns (delay: nat, unavailable: bool)
      requires Valid() && clock <= now
      modifies this
      ensures Valid() && restarts == old(restarts) && stopping == old(stopping) && clock <= now
      ensures unavailable ==> restartsDisabled && !timer && state == Failed
      ensures !unavailable ==> state == Recovering && restartsDisabled == old(restartsDisabled)
      ensures old(restartsDisabled || stopping) ==> !timer && !unavailable
    {
      state := Recovering;
      delay, unavailable := ScheduleRestart(now);
    }

    method RecordRestart(now: int, later: int)
      requires Valid() && clock <= now <= later && !timer && |restartTimes| < MAX_RESTARTS_PER_WINDOW
      modifies this
      ensures Valid() && restarts == old(restarts) + [later] && sequence == old(sequence) + 1 && streak == 0 && !timer
              && clock == later
      ensures stopping == old(stopping) && restartsDisabled == old(restartsDisabled)
    {
      Prune(now);
      Space(restarts, restartTimes, later);
      Remember(restarts, restartTimes, clock, later);
      restartTimes := restartTimes + [later];
      restarts := restarts + [later];
      sequence, attempts, streak, clock := sequence + 1, 0, 0, later;
    }

    /** restartWorker: the single-shot timer fires; started says whether the new worker came up. */
    method TimerFires(now: int, later: int, connected: bool, started: bool)
      returns (revived: bool, delay: nat, unavailable: bool)
      requires Valid() && timer && clock <= now <= later
      modifies this
      ensures Valid() && revived == (!connected && started) && stopping == old(stopping) && clock <= later
      ensures revived ==> restarts == old(restarts) + [later] && !timer && state == Recovering && !unavailable
      ensures !revived ==> restarts == old(restarts)
      ensures !revived && !connected ==>
                (timer <==> !unavailable) && (timer ==> streak == old(streak) + 1)
                  && (unavailable ==> restartsDisabled && state == Failed)
      ensures connected ==> !timer && !unavailable && state == old(state) && restartsDisabled == old(restartsDisabled)
    {
      timer, revived, delay, unavailable := false, false, 0, false;
      if stopping || restartsDisabled || connected { return; }
      if started {
        RecordRestart(now, later);
        state, revived := Recovering, true;
      } else {
        delay, unavailable := ScheduleRestart(later);
      }
    }

    /** A manual start begins a new budget. */
    method Start(started: bool)
      requires Valid()
      modifies this
      ensures Valid() && !timer && !stopping && !restartsDisabled && restarts == [] && streak == 0
              && clock == old(clock)
      ensures state == if started then Ready else Stopped
    {
      Reset();
      state := if started then Ready else Stopped;
    }

    method Stop()
      requires Valid()
      modifies `stopping, `timer, `state
      ensures Valid() && stopping && !timer && state == Stopped
    {
      stopping, timer, state := true, false, Stopped;
    }
  }

  /** A restart recorded while at most one is inside the window keeps every three apart. */
  lemma Space(restarts: seq<int>, recent: seq<int>, now: int)
    requires Spaced(restarts) && |recent| < MAX_RESTARTS_PER_WINDOW && |recent| <= |restarts|
    requires forall i :: 0 <= i < |restarts| - |recent| ==> restarts[i] + WINDOW <= now
    ensures Spaced(restarts + [now])
  {
    var after := restarts + [now];
    forall i | 0 <= i && i + 2 < |after| ensures after[i + 2] >= after[i] + WINDOW {
      if i + 2 < |restarts| { assert restarts[i + 2] >= restarts[i] + WINDOW; }
    }
  }

  /** What can happen to the client; the numbers are the milliseconds that pass first, and during a restart. */
  datatype Event =
    | Exit(wait: nat)
    | Fire(wait: nat, takes: nat, connected: bool, started: bool)
    | ManualStart(started: bool)
    | ManualStop

  /**
   * Every run: restarts stay apart, a streak arms at most three timers, and a spent budget arms none until a manual
   * start.
   */
  method Run(script: seq<Event>) returns (life: LifeCycle)
    ensures Spaced(life.restarts) && life.streak <= MAX_ATTEMPTS
            && (life.restartsDisabled || life.stopping ==> !life.timer)
  {
    life := new LifeCycle();
    var now := 0;
    for i := 0 to |script|
      invariant fresh(life) && life.Valid() && life.clock <= now
    {
      match script[i]
      case Exit(wait) =>
        now := now + wait;
        var _, _ := life.ProcessExited(now);
      case Fire(wait, takes, connected, started) =>
        if life.timer {
          var _, _, _ := life.TimerFires(now + wait, now + wait + takes, connected, started);
          now := now + wait + takes;
        }
      case ManualStart(started) => life.Start(started);
      case ManualStop => life.Stop();
    }
  }
}
