/** A run in which a hooked call's timeout is lost: readiness and the timer's expiry coincide, the
    call is retried, and the first timer's callback marks it just before it waits again. */
module LostTimeout {
  import opened Wrappers
  import opened Protocol
  import opened Playing
  import opened WaitSafety

  const TIMEOUT: nat := 5
  const SLOT := Slot(7, READ)
  const ARMED: map<Slot, Job> := map[SLOT := Resume(0)]

  const FIRST := Task(0, Resume(0), None)
  const WAKE := Task(1, Resume(0), None)
  const EXPIRY := Task(2, Call(TimeoutBody(0, SLOT)), None)
  const ALL_TASKS: map<TaskId, Task> := map[0 := FIRST, 1 := WAKE, 2 := EXPIRY]

  const ONE_TIMER: map<TimerId, Timer> := map[0 := Timer(TIMEOUT, TimeoutBody(0, SLOT))]
  const TWO_TIMERS: map<TimerId, Timer> :=
    map[0 := Timer(TIMEOUT, TimeoutBody(0, SLOT)), 1 := Timer(TIMEOUT + TIMEOUT, TimeoutBody(0, SLOT))]

  function W(pc: Pc, spare: Option<FiberId>): Worker { Worker(pc, false, false, spare) }

  /** The call, waiting since 0. */
  function Waits(cancelled: bool): CallRec { CallRec(SLOT, Some(TIMEOUT), cancelled, Some(0), false, Pending) }

  function St(w0: Worker, w1: Worker, queue: seq<Task>, fibers: map<FiberId, Fiber>, slots: map<Slot, Job>,
              timers: map<TimerId, Timer>, index: set<TimerId>, taken: map<TimerId, WorkerId>,
              calls: map<CallId, CallRec>, active: int, idle: int, now: nat,
              submitted: map<TaskId, Task>, begun: map<TaskId, WorkerId>): State {
    State(map[0 := w0, 1 := w1], queue, fibers, slots, timers, index, taken, calls,
          active, idle, false, false, now, submitted, begun)
  }

  const START := St(W(Unstarted, None), W(Unstarted, None), [],
    map[],
    map[], map[], {}, map[],
    map[], 0, 0, 0,
    map[], map[])
  const AT_SUBMITTED := St(W(Scan, None), W(Unstarted, None), [FIRST],
    map[0 := Fiber(INIT, User)],
    map[], map[], {}, map[],
    map[], 0, 0, 0,
    map[0 := FIRST], map[])
  const AT_BEGUN := St(W(On(0, false, Running), None), W(Unstarted, None), [],
    map[0 := Fiber(EXEC, User)],
    map[], map[], {}, map[],
    map[], 1, 0, 0,
    map[0 := FIRST], map[0 := 0])
  const AT_CALLING := St(W(On(0, false, Running), None), W(Unstarted, None), [],
    map[0 := Fiber(EXEC, Attempt(0))],
    map[], map[], {}, map[],
    map[0 := CallRec(SLOT, Some(TIMEOUT), false, None, false, Pending)], 1, 0, 0,
    map[0 := FIRST], map[0 := 0])
  const AT_BLOCKED := St(W(On(0, false, Running), None), W(Unstarted, None), [],
    map[0 := Fiber(EXEC, Arm(0, Some(0)))],
    map[], ONE_TIMER, {0}, map[],
    map[0 := Waits(false)], 1, 0, 0,
    map[0 := FIRST], map[0 := 0])
  const AT_YIELDED := St(W(On(0, false, Back), None), W(Unstarted, None), [],
    map[0 := Fiber(EXEC, WaitYield(0, Some(0)))],
    ARMED, ONE_TIMER, {0}, map[],
    map[0 := Waits(false)], 1, 0, 0,
    map[0 := FIRST], map[0 := 0])
  const AT_PARKED := St(W(Scan, None), W(Unstarted, None), [],
    map[0 := Fiber(HOLD, WaitYield(0, Some(0)))],
    ARMED, ONE_TIMER, {0}, map[],
    map[0 := Waits(false)], 0, 0, 0,
    map[0 := FIRST], map[0 := 0])
  const AT_NO_TASK := St(W(NoTask, None), W(Unstarted, None), [],
    map[0 := Fiber(HOLD, WaitYield(0, Some(0)))],
    ARMED, ONE_TIMER, {0}, map[],
    map[0 := Waits(false)], 0, 0, 0,
    map[0 := FIRST], map[0 := 0])
  const AT_IDLE := St(W(Idle, None), W(Unstarted, None), [],
    map[0 := Fiber(HOLD, WaitYield(0, Some(0)))],
    ARMED, ONE_TIMER, {0}, map[],
    map[0 := Waits(false)], 0, 1, 0,
    map[0 := FIRST], map[0 := 0])
  const AT_SEARCHED := St(W(Idle, None), W(NoTask, None), [],
    map[0 := Fiber(HOLD, WaitYield(0, Some(0)))],
    ARMED, ONE_TIMER, {0}, map[],
    map[0 := Waits(false)], 0, 1, 0,
    map[0 := FIRST], map[0 := 0])
  const AT_DUE := St(W(Idle, None), W(Idle, None), [],
    map[0 := Fiber(HOLD, WaitYield(0, Some(0)))],
    ARMED, ONE_TIMER, {0}, map[],
    map[0 := Waits(false)], 0, 2, TIMEOUT,
    map[0 := FIRST], map[0 := 0])
  const AT_READY := St(W(Idle, None), W(Idle, None), [WAKE],
    map[0 := Fiber(HOLD, WaitYield(0, Some(0)))],
    map[], ONE_TIMER, {0}, map[],
    map[0 := Waits(false)], 0, 2, TIMEOUT,
    map[0 := FIRST, 1 := WAKE], map[0 := 0])
  const AT_EXPIRED := St(W(Idle, None), W(Idle, None), [WAKE, EXPIRY],
    map[0 := Fiber(HOLD, WaitYield(0, Some(0)))],
    map[], ONE_TIMER, {}, map[],
    map[0 := Waits(false)], 0, 2, TIMEOUT,
    ALL_TASKS, map[0 := 0])
  const AT_BACK := St(W(Scan, None), W(Idle, None), [WAKE, EXPIRY],
    map[0 := Fiber(HOLD, WaitYield(0, Some(0)))],
    map[], ONE_TIMER, {}, map[],
    map[0 := Waits(false)], 0, 1, TIMEOUT,
    ALL_TASKS, map[0 := 0])
  const AT_TAKEN := St(W(Took(WAKE), None), W(Idle, None), [EXPIRY],
    map[0 := Fiber(HOLD, WaitYield(0, Some(0)))],
    map[], ONE_TIMER, {}, map[],
    map[0 := Waits(false)], 1, 1, TIMEOUT,
    ALL_TASKS, map[0 := 0])
  const AT_RESUMED := St(W(On(0, false, Running), None), W(Idle, None), [EXPIRY],
    map[0 := Fiber(EXEC, Woken(0, Some(0)))],
    map[], ONE_TIMER, {}, map[],
    map[0 := Waits(false)], 1, 1, TIMEOUT,
    ALL_TASKS, map[0 := 0, 1 := 0])
  const AT_RETRIED := St(W(On(0, false, Running), None), W(Idle, None), [EXPIRY],
    map[0 := Fiber(EXEC, Attempt(0))],
    map[], ONE_TIMER, {}, map[],
    map[0 := Waits(false)], 1, 1, TIMEOUT,
    ALL_TASKS, map[0 := 0, 1 := 0])
  const AT_BLOCKED_AGAIN := St(W(On(0, false, Running), None), W(Idle, None), [EXPIRY],
    map[0 := Fiber(EXEC, Arm(0, Some(1)))],
    map[], TWO_TIMERS, {1}, map[],
    map[0 := Waits(false)], 1, 1, TIMEOUT,
    ALL_TASKS, map[0 := 0, 1 := 0])
  const AT_RETURNED := St(W(On(0, false, Running), None), W(Scan, None), [EXPIRY],
    map[0 := Fiber(EXEC, Arm(0, Some(1)))],
    map[], TWO_TIMERS, {1}, map[],
    map[0 := Waits(false)], 1, 0, TIMEOUT,
    ALL_TASKS, map[0 := 0, 1 := 0])
  const AT_CHECKING := St(W(On(0, false, Running), None), W(On(1, true, Running), Some(1)), [],
    map[0 := Fiber(EXEC, Arm(0, Some(1))), 1 := Fiber(EXEC, TimeoutDue(0, SLOT))],
    map[], TWO_TIMERS, {1}, map[],
    map[0 := Waits(false)], 2, 0, TIMEOUT,
    ALL_TASKS, map[0 := 0, 1 := 0, 2 := 1])
  const AT_MARKED := St(W(On(0, false, Running), None), W(On(1, true, Running), Some(1)), [],
    map[0 := Fiber(EXEC, Arm(0, Some(1))), 1 := Fiber(EXEC, TimeoutCancel(0, SLOT))],
    map[], TWO_TIMERS, {1}, map[],
    map[0 := Waits(true)], 2, 0, TIMEOUT,
    ALL_TASKS, map[0 := 0, 1 := 0, 2 := 1])
  const AT_MISSED := St(W(On(0, false, Running), None), W(On(1, true, Running), Some(1)), [],
    map[0 := Fiber(EXEC, Arm(0, Some(1))), 1 := Fiber(EXEC, Done)],
    map[], TWO_TIMERS, {1}, map[],
    map[0 := Waits(true)], 2, 0, TIMEOUT,
    ALL_TASKS, map[0 := 0, 1 := 0, 2 := 1])
  const AT_LOST := St(W(On(0, false, Running), None), W(On(1, true, Running), Some(1)), [],
    map[0 := Fiber(EXEC, WaitYield(0, Some(1))), 1 := Fiber(EXEC, Done)],
    ARMED, TWO_TIMERS, {1}, map[],
    map[0 := Waits(true)], 2, 0, TIMEOUT,
    ALL_TASKS, map[0 := 0, 1 := 0, 2 := 1])

  /** A fiber is submitted; worker 0 starts, */
  lemma UntilSubmitted() returns (steps: seq<Step>)
    ensures Play(START, steps) == Some(AT_SUBMITTED)
  {
    hide Play;
    var mid := St(W(Unstarted, None), W(Unstarted, None), [FIRST],
      map[0 := Fiber(INIT, User)],
      map[], map[], {}, map[],
      map[], 0, 0, 0,
      map[0 := FIRST], map[]);
    steps := [];
    PlayNothing(AT_SUBMITTED);
    steps := Before(mid, Scanning(0, Start), AT_SUBMITTED, steps);
    steps := Before(START, Outside(SubmitFiber(0, None, 0)), mid, steps);
  }

  /** takes it and runs it. */
  lemma UntilBegun() returns (steps: seq<Step>)
    ensures Play(AT_SUBMITTED, steps) == Some(AT_BEGUN)
  {
    hide Play;
    var mid := St(W(Took(FIRST), None), W(Unstarted, None), [],
      map[0 := Fiber(INIT, User)],
      map[], map[], {}, map[],
      map[], 1, 0, 0,
      map[0 := FIRST], map[]);
    steps := [];
    PlayNothing(AT_BEGUN);
    steps := Before(mid, Stacking(0, BeginFiber), AT_BEGUN, steps);
    steps := Before(AT_SUBMITTED, Scanning(0, ScanTake), mid, steps);
  }

  /** It makes a hooked call */
  lemma UntilCalling() returns (steps: seq<Step>)
    ensures Play(AT_BEGUN, steps) == Some(AT_CALLING)
  {
    hide Play;
    steps := [];
    PlayNothing(AT_CALLING);
    steps := Before(AT_BEGUN, Hooked(0, BeginIo(0, SLOT, Some(TIMEOUT))), AT_CALLING, steps);
  }

  /** that would block, and sets a timer. */
  lemma UntilBlocked() returns (steps: seq<Step>)
    ensures Play(AT_CALLING, steps) == Some(AT_BLOCKED)
  {
    hide Play;
    steps := [];
    PlayNothing(AT_BLOCKED);
    steps := Before(AT_CALLING, Hooked(0, WouldBlock(0)), AT_BLOCKED, steps);
  }

  /** It adds the event and yields, */
  lemma UntilYielded() returns (steps: seq<Step>)
    ensures Play(AT_BLOCKED, steps) == Some(AT_YIELDED)
  {
    hide Play;
    var mid := St(W(On(0, false, Running), None), W(Unstarted, None), [],
      map[0 := Fiber(EXEC, WaitYield(0, Some(0)))],
      ARMED, ONE_TIMER, {0}, map[],
      map[0 := Waits(false)], 1, 0, 0,
      map[0 := FIRST], map[0 := 0]);
    steps := [];
    PlayNothing(AT_YIELDED);
    steps := Before(mid, Stacking(0, Yield), AT_YIELDED, steps);
    steps := Before(AT_BLOCKED, Hooked(0, ArmOk), mid, steps);
  }

  /** and is put on hold. */
  lemma UntilParked() returns (steps: seq<Step>)
    ensures Play(AT_YIELDED, steps) == Some(AT_PARKED)
  {
    hide Play;
    var mid := St(W(On(0, false, Settle), None), W(Unstarted, None), [],
      map[0 := Fiber(EXEC, WaitYield(0, Some(0)))],
      ARMED, ONE_TIMER, {0}, map[],
      map[0 := Waits(false)], 0, 0, 0,
      map[0 := FIRST], map[0 := 0]);
    steps := [];
    PlayNothing(AT_PARKED);
    steps := Before(mid, Stacking(0, SettleHold), AT_PARKED, steps);
    steps := Before(AT_YIELDED, Stacking(0, CountDown), mid, steps);
  }

  /** Worker 0 finds nothing more to do */
  lemma UntilNoTask() returns (steps: seq<Step>)
    ensures Play(AT_PARKED, steps) == Some(AT_NO_TASK)
  {
    hide Play;
    steps := [];
    PlayNothing(AT_NO_TASK);
    steps := Before(AT_PARKED, Scanning(0, ScanNone), AT_NO_TASK, steps);
  }

  /** and falls idle, */
  lemma UntilIdle() returns (steps: seq<Step>)
    ensures Play(AT_NO_TASK, steps) == Some(AT_IDLE)
  {
    hide Play;
    steps := [];
    PlayNothing(AT_IDLE);
    steps := Before(AT_NO_TASK, Scanning(0, EnterIdle), AT_IDLE, steps);
  }

  /** and so */
  lemma UntilSearched() returns (steps: seq<Step>)
    ensures Play(AT_IDLE, steps) == Some(AT_SEARCHED)
  {
    hide Play;
    var mid := St(W(Idle, None), W(Scan, None), [],
      map[0 := Fiber(HOLD, WaitYield(0, Some(0)))],
      ARMED, ONE_TIMER, {0}, map[],
      map[0 := Waits(false)], 0, 1, 0,
      map[0 := FIRST], map[0 := 0]);
    steps := [];
    PlayNothing(AT_SEARCHED);
    steps := Before(mid, Scanning(1, ScanNone), AT_SEARCHED, steps);
    steps := Before(AT_IDLE, Scanning(1, Start), mid, steps);
  }

  /** does worker 1.  Then the event is ready, and at the same time the timer due. */
  lemma UntilDue() returns (steps: seq<Step>)
    ensures Play(AT_SEARCHED, steps) == Some(AT_DUE)
  {
    hide Play;
    var mid := St(W(Idle, None), W(Idle, None), [],
      map[0 := Fiber(HOLD, WaitYield(0, Some(0)))],
      ARMED, ONE_TIMER, {0}, map[],
      map[0 := Waits(false)], 0, 2, 0,
      map[0 := FIRST], map[0 := 0]);
    steps := [];
    PlayNothing(AT_DUE);
    steps := Before(mid, Outside(Tick(TIMEOUT)), AT_DUE, steps);
    steps := Before(AT_SEARCHED, Scanning(1, EnterIdle), mid, steps);
  }

  /** Worker 0 dispatches the event ... */
  lemma UntilReady() returns (steps: seq<Step>)
    ensures Play(AT_DUE, steps) == Some(AT_READY)
  {
    hide Play;
    steps := [];
    PlayNothing(AT_READY);
    steps := Before(AT_DUE, Dispatch(0, Trigger(SLOT, 1)), AT_READY, steps);
  }

  /** ... and then worker 1 the timer. */
  lemma UntilExpired() returns (steps: seq<Step>)
    ensures Play(AT_READY, steps) == Some(AT_EXPIRED)
  {
    hide Play;
    var mid := St(W(Idle, None), W(Idle, None), [WAKE],
      map[0 := Fiber(HOLD, WaitYield(0, Some(0)))],
      map[], ONE_TIMER, {}, map[0 := 1],
      map[0 := Waits(false)], 0, 2, TIMEOUT,
      map[0 := FIRST, 1 := WAKE], map[0 := 0]);
    steps := [];
    PlayNothing(AT_EXPIRED);
    steps := Before(mid, Dispatch(1, Flush(0, 2)), AT_EXPIRED, steps);
    steps := Before(AT_READY, Dispatch(1, Expire(0)), mid, steps);
  }

  /** Worker 0 comes back, takes the fiber that was woken */
  lemma UntilBack() returns (steps: seq<Step>)
    ensures Play(AT_EXPIRED, steps) == Some(AT_BACK)
  {
    hide Play;
    var mid := St(W(IdleBack, None), W(Idle, None), [WAKE, EXPIRY],
      map[0 := Fiber(HOLD, WaitYield(0, Some(0)))],
      map[], ONE_TIMER, {}, map[],
      map[0 := Waits(false)], 0, 2, TIMEOUT,
      ALL_TASKS, map[0 := 0]);
    steps := [];
    PlayNothing(AT_BACK);
    steps := Before(mid, Scanning(0, IdleReturn), AT_BACK, steps);
    steps := Before(AT_EXPIRED, Dispatch(0, IdleYield), mid, steps);
  }

  /** from the queue */
  lemma UntilTaken() returns (steps: seq<Step>)
    ensures Play(AT_BACK, steps) == Some(AT_TAKEN)
  {
    hide Play;
    steps := [];
    PlayNothing(AT_TAKEN);
    steps := Before(AT_BACK, Scanning(0, ScanTake), AT_TAKEN, steps);
  }

  /** and resumes it; */
  lemma UntilResumed() returns (steps: seq<Step>)
    ensures Play(AT_TAKEN, steps) == Some(AT_RESUMED)
  {
    hide Play;
    steps := [];
    PlayNothing(AT_RESUMED);
    steps := Before(AT_TAKEN, Stacking(0, BeginFiber), AT_RESUMED, steps);
  }

  /** the call is not marked, so it is retried */
  lemma UntilRetried() returns (steps: seq<Step>)
    ensures Play(AT_RESUMED, steps) == Some(AT_RETRIED)
  {
    hide Play;
    var mid := St(W(On(0, false, Running), None), W(Idle, None), [EXPIRY],
      map[0 := Fiber(EXEC, CheckCall(0))],
      map[], ONE_TIMER, {}, map[],
      map[0 := Waits(false)], 1, 1, TIMEOUT,
      ALL_TASKS, map[0 := 0, 1 := 0]);
    steps := [];
    PlayNothing(AT_RETRIED);
    steps := Before(mid, Hooked(0, Retry), AT_RETRIED, steps);
    steps := Before(AT_RESUMED, Hooked(0, StopTimer), mid, steps);
  }

  /** and would block again, and sets another timer. */
  lemma UntilBlockedAgain() returns (steps: seq<Step>)
    ensures Play(AT_RETRIED, steps) == Some(AT_BLOCKED_AGAIN)
  {
    hide Play;
    steps := [];
    PlayNothing(AT_BLOCKED_AGAIN);
    steps := Before(AT_RETRIED, Hooked(0, WouldBlock(1)), AT_BLOCKED_AGAIN, steps);
  }

  /** Meanwhile worker 1 */
  lemma UntilReturned() returns (steps: seq<Step>)
    ensures Play(AT_BLOCKED_AGAIN, steps) == Some(AT_RETURNED)
  {
    hide Play;
    var mid := St(W(On(0, false, Running), None), W(IdleBack, None), [EXPIRY],
      map[0 := Fiber(EXEC, Arm(0, Some(1)))],
      map[], TWO_TIMERS, {1}, map[],
      map[0 := Waits(false)], 1, 1, TIMEOUT,
      ALL_TASKS, map[0 := 0, 1 := 0]);
    steps := [];
    PlayNothing(AT_RETURNED);
    steps := Before(mid, Scanning(1, IdleReturn), AT_RETURNED, steps);
    steps := Before(AT_BLOCKED_AGAIN, Dispatch(1, IdleYield), mid, steps);
  }

  /** takes the callback of the first timer, which finds the call not yet finished, */
  lemma UntilChecking() returns (steps: seq<Step>)
    ensures Play(AT_RETURNED, steps) == Some(AT_CHECKING)
  {
    hide Play;
    var mid := St(W(On(0, false, Running), None), W(Took(EXPIRY), None), [],
      map[0 := Fiber(EXEC, Arm(0, Some(1)))],
      map[], TWO_TIMERS, {1}, map[],
      map[0 := Waits(false)], 2, 0, TIMEOUT,
      ALL_TASKS, map[0 := 0, 1 := 0]);
    steps := [];
    PlayNothing(AT_CHECKING);
    steps := Before(mid, Stacking(1, BeginCall(1)), AT_CHECKING, steps);
    steps := Before(AT_RETURNED, Scanning(1, ScanTake), mid, steps);
  }

  /** marks it */
  lemma UntilMarked() returns (steps: seq<Step>)
    ensures Play(AT_CHECKING, steps) == Some(AT_MARKED)
  {
    hide Play;
    var mid := St(W(On(0, false, Running), None), W(On(1, true, Running), Some(1)), [],
      map[0 := Fiber(EXEC, Arm(0, Some(1))), 1 := Fiber(EXEC, TimeoutSet(0, SLOT))],
      map[], TWO_TIMERS, {1}, map[],
      map[0 := Waits(false)], 2, 0, TIMEOUT,
      ALL_TASKS, map[0 := 0, 1 := 0, 2 := 1]);
    steps := [];
    PlayNothing(AT_MARKED);
    steps := Before(mid, Callback(1, TimeoutMark), AT_MARKED, steps);
    steps := Before(AT_CHECKING, Callback(1, TimeoutFresh), mid, steps);
  }

  /** and finds no event to cancel. */
  lemma UntilMissed() returns (steps: seq<Step>)
    ensures Play(AT_MARKED, steps) == Some(AT_MISSED)
  {
    hide Play;
    steps := [];
    PlayNothing(AT_MISSED);
    steps := Before(AT_MARKED, Callback(1, TimeoutMiss), AT_MISSED, steps);
  }

  /** Only now the fiber adds its event. */
  lemma UntilLost() returns (steps: seq<Step>)
    ensures Play(AT_MISSED, steps) == Some(AT_LOST)
  {
    hide Play;
    steps := [];
    PlayNothing(AT_LOST);
    steps := Before(AT_MISSED, Hooked(0, ArmOk), AT_LOST, steps);
  }

  lemma Whole() returns (steps: seq<Step>)
    ensures Play(START, steps) == Some(AT_LOST)
  {
    hide *;
    steps := UntilSubmitted();
    var more: seq<Step>;
    more := UntilBegun();
    PlayOn(START, steps, more);
    steps := steps + more;
    more := UntilCalling();
    PlayOn(START, steps, more);
    steps := steps + more;
    more := UntilBlocked();
    PlayOn(START, steps, more);
    steps := steps + more;
    more := UntilYielded();
    PlayOn(START, steps, more);
    steps := steps + more;
    more := UntilParked();
    PlayOn(START, steps, more);
    steps := steps + more;
    more := UntilNoTask();
    PlayOn(START, steps, more);
    steps := steps + more;
    more := UntilIdle();
    PlayOn(START, steps, more);
    steps := steps + more;
    more := UntilSearched();
    PlayOn(START, steps, more);
    steps := steps + more;
    more := UntilDue();
    PlayOn(START, steps, more);
    steps := steps + more;
    more := UntilReady();
    PlayOn(START, steps, more);
    steps := steps + more;
    more := UntilExpired();
    PlayOn(START, steps, more);
    steps := steps + more;
    more := UntilBack();
    PlayOn(START, steps, more);
    steps := steps + more;
    more := UntilTaken();
    PlayOn(START, steps, more);
    steps := steps + more;
    more := UntilResumed();
    PlayOn(START, steps, more);
    steps := steps + more;
    more := UntilRetried();
    PlayOn(START, steps, more);
    steps := steps + more;
    more := UntilBlockedAgain();
    PlayOn(START, steps, more);
    steps := steps + more;
    more := UntilReturned();
    PlayOn(START, steps, more);
    steps := steps + more;
    more := UntilChecking();
    PlayOn(START, steps, more);
    steps := steps + more;
    more := UntilMarked();
    PlayOn(START, steps, more);
    steps := steps + more;
    more := UntilMissed();
    PlayOn(START, steps, more);
    steps := steps + more;
    more := UntilLost();
    PlayOn(START, steps, more);
    steps := steps + more;
  }

  /** The run: the fiber waits for its event, and its timeout is lost. */
  lemma TimeoutCanBeLost() returns (states: seq<State>, steps: seq<Step>, f: FiberId, k: CallId, t: TimerId)
    ensures Run(states, steps)
    ensures var s := states[|states| - 1]; Waiting(s, f, k, t) && Lost(s, k)
  {
    hide Play, Enabled, Apply;
    steps := Whole();
    states := PlayIsPath(START, steps);
    assert 0 in START.workers;
    f, k, t := 0, 0, 1;
    assert forall c :: c in AT_LOST.fibers ==> c == 0 || c == 1;
  }
}
