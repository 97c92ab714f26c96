/** A run in which a hooked call reports a timeout before it has elapsed: clock plus timeout
    overflows 64 bits. */
module EarlyTimeout {
  import opened Wrappers
  import opened Clock
  import opened Protocol
  import opened Playing

  const NOW: nat := 2
  const TIMEOUT: nat := CLOCK_MODULUS - 2
  const SLOT := Slot(7, READ)

  const FIRST := Task(0, Resume(0), None)
  const EXPIRY := Task(1, Call(TimeoutBody(0, SLOT)), None)
  const WAKE := Task(2, Resume(0), None)

  function W(pc: Pc, spare: Option<FiberId>): Worker { Worker(pc, false, false, spare) }

  /** The call, waiting since NOW. */
  function Waiting(cancelled: bool, result: CallResult): CallRec {
    CallRec(SLOT, Some(TIMEOUT), cancelled, Some(NOW), true, result)
  }

  const HELD := Fiber(HOLD, WaitYield(0, Some(0)))

  /** The states from the yield to the callback's start. */
  function Held(w: Worker, queue: seq<Task>, index: set<TimerId>, taken: map<TimerId, WorkerId>,
                active: int, idle: int, submitted: map<TaskId, Task>): State {
    State(map[0 := w], queue, map[0 := HELD], map[SLOT := Resume(0)],
          map[0 := Timer(0, TimeoutBody(0, SLOT))], index, taken, map[0 := Waiting(false, Pending)],
          active, idle, false, false, NOW, submitted, map[0 := 0])
  }

  /** The states from the callback's start on. */
  function Later(w: Worker, queue: seq<Task>, waiter: Fiber, runner: Fiber,
                 slots: map<Slot, Job>, call: CallRec, active: int,
                 submitted: map<TaskId, Task>, begun: map<TaskId, WorkerId>): State {
    State(map[0 := w], queue, map[0 := waiter, 1 := runner], slots,
          map[0 := Timer(0, TimeoutBody(0, SLOT))], {}, map[], map[0 := call],
          active, 0, false, false, NOW, submitted, begun)
  }

  const START := State(map[0 := W(Unstarted, None)], [], map[], map[], map[], {}, map[], map[],
                       0, 0, false, false, NOW, map[], map[])
  const AT_TAKEN := START.(
    workers := map[0 := W(Took(FIRST), None)], fibers := map[0 := Fiber(INIT, User)], queue := [],
    submitted := map[0 := FIRST], active := 1)
  const AT_CALLING := AT_TAKEN.(
    workers := map[0 := W(On(0, false, Running), None)], fibers := map[0 := Fiber(EXEC, Attempt(0))],
    begun := map[0 := 0],
    calls := map[0 := CallRec(SLOT, Some(TIMEOUT), false, None, false, Pending)])
  const AT_ARMED := AT_CALLING.(
    fibers := map[0 := Fiber(EXEC, WaitYield(0, Some(0)))],
    calls := map[0 := Waiting(false, Pending)], timers := map[0 := Timer(0, TimeoutBody(0, SLOT))],
    index := {0}, slots := map[SLOT := Resume(0)])
  const AT_PARKED := Held(W(Scan, None), [], {0}, map[], 0, 0, map[0 := FIRST])
  const AT_IDLING := Held(W(Idle, None), [], {0}, map[], 0, 1, map[0 := FIRST])
  const AT_EXPIRED := Held(W(Idle, None), [EXPIRY], {}, map[], 0, 1, map[0 := FIRST, 1 := EXPIRY])
  const AT_SEARCHING := Held(W(Scan, None), [EXPIRY], {}, map[], 0, 0, map[0 := FIRST, 1 := EXPIRY])
  const AT_CALLBACK_TAKEN := Held(W(Took(EXPIRY), None), [], {}, map[], 1, 0, map[0 := FIRST, 1 := EXPIRY])
  const AT_CALLBACK_BEGUN := Later(W(On(1, true, Running), Some(1)), [], HELD, Fiber(EXEC, TimeoutDue(0, SLOT)),
    map[SLOT := Resume(0)], Waiting(false, Pending), 1,
    map[0 := FIRST, 1 := EXPIRY], map[0 := 0, 1 := 0])
  const AT_CALLBACK_FRESH := Later(W(On(1, true, Running), Some(1)), [], HELD, Fiber(EXEC, TimeoutSet(0, SLOT)),
    map[SLOT := Resume(0)], Waiting(false, Pending), 1,
    map[0 := FIRST, 1 := EXPIRY], map[0 := 0, 1 := 0])
  const AT_MARKED := Later(W(On(1, true, Running), Some(1)), [], HELD, Fiber(EXEC, TimeoutCancel(0, SLOT)),
    map[SLOT := Resume(0)], Waiting(true, Pending), 1,
    map[0 := FIRST, 1 := EXPIRY], map[0 := 0, 1 := 0])
  const AT_CANCELLED := Later(W(On(1, true, Running), Some(1)), [WAKE], HELD, Fiber(EXEC, Done),
    map[], Waiting(true, Pending), 1,
    map[0 := FIRST, 1 := EXPIRY, 2 := WAKE], map[0 := 0, 1 := 0])
  const AT_CALLBACK_OVER := Later(W(On(1, true, Running), Some(1)), [WAKE], HELD, Fiber(TERM, Ended),
    map[], Waiting(true, Pending), 1,
    map[0 := FIRST, 1 := EXPIRY, 2 := WAKE], map[0 := 0, 1 := 0])
  const AT_CALLBACK_COUNTED := Later(W(On(1, true, Settle), Some(1)), [WAKE], HELD, Fiber(TERM, Ended),
    map[], Waiting(true, Pending), 0,
    map[0 := FIRST, 1 := EXPIRY, 2 := WAKE], map[0 := 0, 1 := 0])
  const AT_SCANNING := Later(W(Scan, Some(1)), [WAKE], HELD, Fiber(INIT, Done),
    map[], Waiting(true, Pending), 0,
    map[0 := FIRST, 1 := EXPIRY, 2 := WAKE], map[0 := 0, 1 := 0])
  const AT_WAKE_TAKEN := Later(W(Took(WAKE), Some(1)), [], HELD, Fiber(INIT, Done),
    map[], Waiting(true, Pending), 1,
    map[0 := FIRST, 1 := EXPIRY, 2 := WAKE], map[0 := 0, 1 := 0])
  const AT_RESUMED := Later(W(On(0, false, Running), Some(1)), [], Fiber(EXEC, Woken(0, Some(0))), Fiber(INIT, Done),
    map[], Waiting(true, Pending), 1,
    map[0 := FIRST, 1 := EXPIRY, 2 := WAKE], map[0 := 0, 1 := 0, 2 := 0])
  const AT_TIMER_STOPPED := Later(W(On(0, false, Running), Some(1)), [], Fiber(EXEC, CheckCall(0)), Fiber(INIT, Done),
    map[], Waiting(true, Pending), 1,
    map[0 := FIRST, 1 := EXPIRY, 2 := WAKE], map[0 := 0, 1 := 0, 2 := 0])
  const AT_REPORTED := Later(W(On(0, false, Running), Some(1)), [], Fiber(EXEC, User), Fiber(INIT, Done),
    map[], Waiting(true, TimedOut(NOW)), 1,
    map[0 := FIRST, 1 := EXPIRY, 2 := WAKE], map[0 := 0, 1 := 0, 2 := 0])

  /** A fiber is submitted and the worker takes it. */
  lemma UntilTaken() returns (steps: seq<Step>)
    ensures Play(START, steps) == Some(AT_TAKEN)
  {
    hide Play;
    var s0 := START;
    var s1 := s0.(
      fibers := map[0 := Fiber(INIT, User)], queue := [FIRST], submitted := map[0 := FIRST]);
    var s2 := s1.(workers := map[0 := W(Scan, None)]);
    var s3 := AT_TAKEN;
    steps := [];
    PlayNothing(s3);
    steps := Before(s2, Scanning(0, ScanTake), s3, steps);
    steps := Before(s1, Scanning(0, Start), s2, steps);
    steps := Before(s0, Outside(SubmitFiber(0, None, 0)), s1, steps);
  }

  /** It makes a hooked call whose timeout reaches past the last clock value ... */
  lemma UntilCalling() returns (steps: seq<Step>)
    ensures Play(AT_TAKEN, steps) == Some(AT_CALLING)
  {
    hide Play;
    var s0 := AT_TAKEN;
    var s1 := s0.(
      workers := map[0 := W(On(0, false, Running), None)], fibers := map[0 := Fiber(EXEC, User)],
      begun := map[0 := 0]);
    var s2 := AT_CALLING;
    steps := [];
    PlayNothing(s2);
    steps := Before(s1, Hooked(0, BeginIo(0, SLOT, Some(TIMEOUT))), s2, steps);
    steps := Before(s0, Stacking(0, BeginFiber), s1, steps);
  }

  /** ... and would block: its timer's deadline wraps to zero. */
  lemma UntilArmed() returns (steps: seq<Step>)
    ensures Play(AT_CALLING, steps) == Some(AT_ARMED)
  {
    hide Play;
    var s0 := AT_CALLING;
    var s1 := s0.(
      fibers := map[0 := Fiber(EXEC, Arm(0, Some(0)))], calls := map[0 := Waiting(false, Pending)],
      timers := map[0 := Timer(0, TimeoutBody(0, SLOT))], index := {0});
    var s2 := AT_ARMED;
    steps := [];
    PlayNothing(s2);
    steps := Before(s1, Hooked(0, ArmOk), s2, steps);
    steps := Before(s0, Hooked(0, WouldBlock(0)), s1, steps);
  }

  /** It yields and is put on hold. */
  lemma UntilParked() returns (steps: seq<Step>)
    ensures Play(AT_ARMED, steps) == Some(AT_PARKED)
  {
    hide Play;
    var s0 := AT_ARMED;
    var s1 := s0.(workers := map[0 := W(On(0, false, Back), None)]);
    var s2 := s1.(workers := map[0 := W(On(0, false, Settle), None)], active := 0);
    var s3 := AT_PARKED;
    steps := [];
    PlayNothing(s3);
    steps := Before(s2, Stacking(0, SettleHold), s3, steps);
    steps := Before(s1, Stacking(0, CountDown), s2, steps);
    steps := Before(s0, Stacking(0, Yield), s1, steps);
  }

  /** The worker falls idle ... */
  lemma UntilIdling() returns (steps: seq<Step>)
    ensures Play(AT_PARKED, steps) == Some(AT_IDLING)
  {
    hide Play;
    var s0 := AT_PARKED;
    var s1 := s0.(workers := map[0 := W(NoTask, None)]);
    var s2 := AT_IDLING;
    steps := [];
    PlayNothing(s2);
    steps := Before(s1, Scanning(0, EnterIdle), s2, steps);
    steps := Before(s0, Scanning(0, ScanNone), s1, steps);
  }

  /** ... and finds the timer expired at once. */
  lemma UntilExpired() returns (steps: seq<Step>)
    ensures Play(AT_IDLING, steps) == Some(AT_EXPIRED)
  {
    hide Play;
    var s0 := AT_IDLING;
    var s1 := s0.(index := {}, taken := map[0 := 0]);
    var s2 := AT_EXPIRED;
    steps := [];
    PlayNothing(s2);
    steps := Before(s1, Dispatch(0, Flush(0, 1)), s2, steps);
    steps := Before(s0, Dispatch(0, Expire(0)), s1, steps);
  }

  /** It scans again ... */
  lemma UntilSearching() returns (steps: seq<Step>)
    ensures Play(AT_EXPIRED, steps) == Some(AT_SEARCHING)
  {
    hide Play;
    var s0 := AT_EXPIRED;
    var s1 := s0.(workers := map[0 := W(IdleBack, None)]);
    var s2 := AT_SEARCHING;
    steps := [];
    PlayNothing(s2);
    steps := Before(s1, Scanning(0, IdleReturn), s2, steps);
    steps := Before(s0, Dispatch(0, IdleYield), s1, steps);
  }

  /** ... takes the timer's callback ... */
  lemma UntilCallbackTaken() returns (steps: seq<Step>)
    ensures Play(AT_SEARCHING, steps) == Some(AT_CALLBACK_TAKEN)
  {
    hide Play;
    var s0 := AT_SEARCHING;
    var s1 := AT_CALLBACK_TAKEN;
    steps := [];
    PlayNothing(s1);
    steps := Before(s0, Scanning(0, ScanTake), s1, steps);
  }

  /** ... and runs it. */
  lemma UntilCallbackBegun() returns (steps: seq<Step>)
    ensures Play(AT_CALLBACK_TAKEN, steps) == Some(AT_CALLBACK_BEGUN)
  {
    hide Play;
    var s0 := AT_CALLBACK_TAKEN;
    var s1 := AT_CALLBACK_BEGUN;
    steps := [];
    PlayNothing(s1);
    steps := Before(s0, Stacking(0, BeginCall(1)), s1, steps);
  }

  /** It finds the call still waiting, */
  lemma UntilCallbackFresh() returns (steps: seq<Step>)
    ensures Play(AT_CALLBACK_BEGUN, steps) == Some(AT_CALLBACK_FRESH)
  {
    hide Play;
    var s0 := AT_CALLBACK_BEGUN;
    var s1 := AT_CALLBACK_FRESH;
    steps := [];
    PlayNothing(s1);
    steps := Before(s0, Callback(0, TimeoutFresh), s1, steps);
  }

  /** marks it cancelled, */
  lemma UntilMarked() returns (steps: seq<Step>)
    ensures Play(AT_CALLBACK_FRESH, steps) == Some(AT_MARKED)
  {
    hide Play;
    var s0 := AT_CALLBACK_FRESH;
    var s1 := AT_MARKED;
    steps := [];
    PlayNothing(s1);
    steps := Before(s0, Callback(0, TimeoutMark), s1, steps);
  }

  /** cancels its event, */
  lemma UntilCancelled() returns (steps: seq<Step>)
    ensures Play(AT_MARKED, steps) == Some(AT_CANCELLED)
  {
    hide Play;
    var s0 := AT_MARKED;
    var s1 := AT_CANCELLED;
    steps := [];
    PlayNothing(s1);
    steps := Before(s0, Callback(0, TimeoutTrigger(2)), s1, steps);
  }

  /** and ends. */
  lemma UntilCallbackOver() returns (steps: seq<Step>)
    ensures Play(AT_CANCELLED, steps) == Some(AT_CALLBACK_OVER)
  {
    hide Play;
    var s0 := AT_CANCELLED;
    var s1 := AT_CALLBACK_OVER;
    steps := [];
    PlayNothing(s1);
    steps := Before(s0, Code(0, Finish), s1, steps);
  }

  /** The worker is done with it, */
  lemma UntilCallbackCounted() returns (steps: seq<Step>)
    ensures Play(AT_CALLBACK_OVER, steps) == Some(AT_CALLBACK_COUNTED)
  {
    hide Play;
    var s0 := AT_CALLBACK_OVER;
    var s1 := s0.(workers := map[0 := W(On(1, true, Back), Some(1))]);
    var s2 := AT_CALLBACK_COUNTED;
    steps := [];
    PlayNothing(s2);
    steps := Before(s1, Stacking(0, CountDown), s2, steps);
    steps := Before(s0, Stacking(0, Yield), s1, steps);
  }

  /** keeps its fiber as a spare, */
  lemma UntilScanning() returns (steps: seq<Step>)
    ensures Play(AT_CALLBACK_COUNTED, steps) == Some(AT_SCANNING)
  {
    hide Play;
    var s0 := AT_CALLBACK_COUNTED;
    var s1 := AT_SCANNING;
    steps := [];
    PlayNothing(s1);
    steps := Before(s0, Stacking(0, SettleTerm), s1, steps);
  }

  /** takes the waiting fiber */
  lemma UntilWakeTaken() returns (steps: seq<Step>)
    ensures Play(AT_SCANNING, steps) == Some(AT_WAKE_TAKEN)
  {
    hide Play;
    var s0 := AT_SCANNING;
    var s1 := AT_WAKE_TAKEN;
    steps := [];
    PlayNothing(s1);
    steps := Before(s0, Scanning(0, ScanTake), s1, steps);
  }

  /** and resumes it. */
  lemma UntilResumed() returns (steps: seq<Step>)
    ensures Play(AT_WAKE_TAKEN, steps) == Some(AT_RESUMED)
  {
    hide Play;
    var s0 := AT_WAKE_TAKEN;
    var s1 := AT_RESUMED;
    steps := [];
    PlayNothing(s1);
    steps := Before(s0, Stacking(0, BeginFiber), s1, steps);
  }

  /** The fiber cancels its timer */
  lemma UntilTimerStopped() returns (steps: seq<Step>)
    ensures Play(AT_RESUMED, steps) == Some(AT_TIMER_STOPPED)
  {
    hide Play;
    var s0 := AT_RESUMED;
    var s1 := AT_TIMER_STOPPED;
    steps := [];
    PlayNothing(s1);
    steps := Before(s0, Hooked(0, StopTimer), s1, steps);
  }

  /** and reports the timeout. */
  lemma UntilReported() returns (steps: seq<Step>)
    ensures Play(AT_TIMER_STOPPED, steps) == Some(AT_REPORTED)
  {
    hide Play;
    var s0 := AT_TIMER_STOPPED;
    var s1 := AT_REPORTED;
    steps := [];
    PlayNothing(s1);
    steps := Before(s0, Hooked(0, ReportTimeout), s1, steps);
  }

  lemma Whole() returns (steps: seq<Step>)
    ensures Play(START, steps) == Some(AT_REPORTED)
  {
    hide *;
    steps := UntilTaken();
    var more: seq<Step>;
    more := UntilCalling();
    PlayOn(START, steps, more);
    steps := steps + more;
    more := UntilArmed();
    PlayOn(START, steps, more);
    steps := steps + more;
    more := UntilParked();
    PlayOn(START, steps, more);
    steps := steps + more;
    more := UntilIdling();
    PlayOn(START, steps, more);
    steps := steps + more;
    more := UntilExpired();
    PlayOn(START, steps, more);
    steps := steps + more;
    more := UntilSearching();
    PlayOn(START, steps, more);
    steps := steps + more;
    more := UntilCallbackTaken();
    PlayOn(START, steps, more);
    steps := steps + more;
    more := UntilCallbackBegun();
    PlayOn(START, steps, more);
    steps := steps + more;
    more := UntilCallbackFresh();
    PlayOn(START, steps, more);
    steps := steps + more;
    more := UntilMarked();
    PlayOn(START, steps, more);
    steps := steps + more;
    more := UntilCancelled();
    PlayOn(START, steps, more);
    steps := steps + more;
    more := UntilCallbackOver();
    PlayOn(START, steps, more);
    steps := steps + more;
    more := UntilCallbackCounted();
    PlayOn(START, steps, more);
    steps := steps + more;
    more := UntilScanning();
    PlayOn(START, steps, more);
    steps := steps + more;
    more := UntilWakeTaken();
    PlayOn(START, steps, more);
    steps := steps + more;
    more := UntilResumed();
    PlayOn(START, steps, more);
    steps := steps + more;
    more := UntilTimerStopped();
    PlayOn(START, steps, more);
    steps := steps + more;
    more := UntilReported();
    PlayOn(START, steps, more);
    steps := steps + more;
  }

  /** The run: the call reports its timeout at the very clock value at which it began to wait. */
  lemma TimesOutEarly() returns (states: seq<State>, steps: seq<Step>, call: CallId)
    ensures Run(states, steps)
    ensures var s := states[|states| - 1];
      && call in s.calls && s.calls[call].result.TimedOut?
      && s.calls[call].start.Some? && s.calls[call].timeout.Some?
      && s.calls[call].result.at == s.calls[call].start.value
      && 0 < s.calls[call].timeout.value < CLOCK_MODULUS
  {
    hide Play, Enabled, Apply;
    steps := Whole();
    states := PlayIsPath(START, steps);
    assert 0 in START.workers;
    call := 0;
  }
}
