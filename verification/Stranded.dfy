/** Runs in which a pinned task is stranded.  They use two workers, one fiber that yields READY
    twice, and the gap between a runner's counter decrement and its re-queueing of the fiber. */
module Stranded {
  import opened Wrappers
  import opened Protocol
  import opened Playing
  import opened TaskSafety
  import opened LoopSafety

  const FIRST := Task(0, Resume(0), None)
  const AGAIN := Task(1, Resume(0), None)
  const THIRD := Task(2, Resume(0), None)

  function Pinned(pin: WorkerId): Task { Task(3, Call(UserBody), Some(pin)) }

  function W(pc: Pc, idleDone: bool): Worker { Worker(pc, false, idleDone, None) }

  /** The states of this run, but for the first: no event, timer or call is ever used. */
  function St(w0: Worker, w1: Worker,
              queue: seq<Task>, f: Fiber, active: int, idle: int, autoStop: bool, stopping: bool,
              submitted: map<TaskId, Task>, begun: map<TaskId, WorkerId>): State {
    State(map[0 := w0, 1 := w1], queue, map[0 := f], map[], map[], {}, map[], map[],
          active, idle, autoStop, stopping, 0, submitted, begun)
  }

  const START := State(map[0 := W(Unstarted, false), 1 := W(Unstarted, false)], [], map[], map[], map[], {},
                       map[], map[], 0, 0, false, false, 0, map[], map[])

  function Zero(a: ScanStep): Step { Scanning(0, a) }
  function One(a: ScanStep): Step { Scanning(1, a) }

  const AT_TAKEN := St(W(Took(FIRST), false), W(Unstarted, false),
    [], Fiber(INIT, User), 1, 0, false, false,
    map[0 := FIRST], map[])
  const AT_READY := St(W(On(0, false, Running), false), W(Unstarted, false),
    [], Fiber(READY, ReadyYield), 1, 0, false, false,
    map[0 := FIRST], map[0 := 0])
  const AT_YIELDED := St(W(On(0, false, Settle), false), W(Unstarted, false),
    [], Fiber(READY, ReadyYield), 0, 0, true, true,
    map[0 := FIRST], map[0 := 0])
  const AT_OTHER_IDLE := St(W(On(0, false, Settle), false), W(Idle, false),
    [], Fiber(READY, ReadyYield), 0, 1, true, true,
    map[0 := FIRST], map[0 := 0])
  const AT_REQUEUED := St(W(Scan, false), W(Scan, true),
    [AGAIN], Fiber(READY, ReadyYield), 0, 0, true, true,
    map[0 := FIRST, 1 := AGAIN], map[0 := 0])
  const AT_TAKEN_AGAIN := St(W(Scan, false), W(Took(AGAIN), true),
    [], Fiber(READY, ReadyYield), 1, 0, true, true,
    map[0 := FIRST, 1 := AGAIN], map[0 := 0])
  const AT_READY_AGAIN := St(W(Scan, false), W(On(0, false, Running), true),
    [], Fiber(READY, ReadyYield), 1, 0, true, true,
    map[0 := FIRST, 1 := AGAIN], map[0 := 0, 1 := 1])
  const AT_YIELDED_AGAIN := St(W(Scan, false), W(On(0, false, Settle), true),
    [], Fiber(READY, ReadyYield), 0, 0, true, true,
    map[0 := FIRST, 1 := AGAIN], map[0 := 0, 1 := 1])
  const AT_IDLE := St(W(Idle, false), W(On(0, false, Settle), true),
    [], Fiber(READY, ReadyYield), 0, 1, true, true,
    map[0 := FIRST, 1 := AGAIN], map[0 := 0, 1 := 1])
  const AT_IDLE_ENDED := St(W(Scan, true), W(On(0, false, Settle), true),
    [], Fiber(READY, ReadyYield), 0, 0, true, true,
    map[0 := FIRST, 1 := AGAIN], map[0 := 0, 1 := 1])
  const AT_OTHER_LEFT := St(W(Left, true), W(Scan, true),
    [THIRD], Fiber(READY, ReadyYield), 0, 0, true, true,
    map[0 := FIRST, 1 := AGAIN, 2 := THIRD], map[0 := 0, 1 := 1])
  const AT_THIRD := St(W(Left, true), W(On(0, false, Running), true),
    [], Fiber(EXEC, User), 1, 0, true, true,
    map[0 := FIRST, 1 := AGAIN, 2 := THIRD], map[0 := 0, 1 := 1, 2 := 1])
  function PinnedState(pin: WorkerId): State {
    St(W(Left, true), W(On(0, false, Running), true),
      [Pinned(pin)], Fiber(TERM, Ended), 1, 0, true, true,
      map[0 := FIRST, 1 := AGAIN, 2 := THIRD, 3 := Pinned(pin)], map[0 := 0, 1 := 1, 2 := 1])
  }

  function EndedState(pin: WorkerId): State {
    St(W(Left, true), W(Scan, true),
      [Pinned(pin)], Fiber(TERM, Ended), 0, 0, true, true,
      map[0 := FIRST, 1 := AGAIN, 2 := THIRD, 3 := Pinned(pin)], map[0 := 0, 1 := 1, 2 := 1])
  }

  function AllLeftState(pin: WorkerId): State {
    St(W(Left, true), W(Left, true),
      [Pinned(pin)], Fiber(TERM, Ended), 0, 0, true, true,
      map[0 := FIRST, 1 := AGAIN, 2 := THIRD, 3 := Pinned(pin)], map[0 := 0, 1 := 1, 2 := 1])
  }

  /** A fiber is submitted and worker 0 takes it. */
  lemma UntilTaken() returns (steps: seq<Step>)
    ensures Play(START, steps) == Some(AT_TAKEN)
  {
    hide Play;
    var s0 := START;
    var s1 := St(W(Unstarted, false), W(Unstarted, false),
      [FIRST], Fiber(INIT, User), 0, 0, false, false,
      map[0 := FIRST], map[]);
    var s2 := s1.(workers := map[0 := W(Scan, false), 1 := W(Unstarted, false)]);
    var s3 := AT_TAKEN;
    steps := [];
    PlayNothing(s3);
    steps := Before(s2, Zero(ScanTake), s3, steps);
    steps := Before(s1, Zero(Start), s2, steps);
    steps := Before(s0, Outside(SubmitFiber(0, None, 0)), s1, steps);
  }

  /** It makes itself READY ... */
  lemma UntilReady() returns (steps: seq<Step>)
    ensures Play(AT_TAKEN, steps) == Some(AT_READY)
  {
    hide Play;
    var s0 := AT_TAKEN;
    var s1 := s0.(workers := map[0 := W(On(0, false, Running), false), 1 := W(Unstarted, false)],
      fibers := map[0 := Fiber(EXEC, User)], begun := map[0 := 0]);
    var s2 := AT_READY;
    steps := [];
    PlayNothing(s2);
    steps := Before(s1, Code(0, MakeReady), s2, steps);
    steps := Before(s0, Stacking(0, BeginFiber), s1, steps);
  }

  /** ... and yields; worker 0 has counted down and not yet put it back.  Meanwhile stop() is called. */
  lemma UntilYielded() returns (steps: seq<Step>)
    ensures Play(AT_READY, steps) == Some(AT_YIELDED)
  {
    hide Play;
    var s0 := AT_READY;
    var s1 := s0.(workers := map[0 := W(On(0, false, Back), false), 1 := W(Unstarted, false)]);
    var s2 := s1.(workers := map[0 := W(On(0, false, Settle), false), 1 := W(Unstarted, false)], active := 0);
    var s3 := s2.(autoStop := true);
    var s4 := AT_YIELDED;
    steps := [];
    PlayNothing(s4);
    steps := Before(s3, Outside(SetStopping), s4, steps);
    steps := Before(s2, Outside(SetAutoStop), s3, steps);
    steps := Before(s1, Stacking(0, CountDown), s2, steps);
    steps := Before(s0, Stacking(0, Yield), s1, steps);
  }

  /** Worker 1 finds nothing to do ... */
  lemma UntilOtherIdle() returns (steps: seq<Step>)
    ensures Play(AT_YIELDED, steps) == Some(AT_OTHER_IDLE)
  {
    hide Play;
    var s0 := AT_YIELDED;
    var s1 := s0.(workers := map[0 := W(On(0, false, Settle), false), 1 := W(Scan, false)]);
    var s2 := s1.(workers := map[0 := W(On(0, false, Settle), false), 1 := W(NoTask, false)]);
    var s3 := AT_OTHER_IDLE;
    steps := [];
    PlayNothing(s3);
    steps := Before(s2, One(EnterIdle), s3, steps);
    steps := Before(s1, One(ScanNone), s2, steps);
    steps := Before(s0, One(Start), s1, steps);
  }

  /** ... and nobody active, so its idle fiber ends.  Then the fiber is back in the queue. */
  lemma UntilRequeued() returns (steps: seq<Step>)
    ensures Play(AT_OTHER_IDLE, steps) == Some(AT_REQUEUED)
  {
    hide Play;
    var s0 := AT_OTHER_IDLE;
    var s1 := s0.(workers := map[0 := W(On(0, false, Settle), false), 1 := W(IdleBack, true)]);
    var s2 := s1.(workers := map[0 := W(On(0, false, Settle), false), 1 := W(Scan, true)], idle := 0);
    var s3 := AT_REQUEUED;
    steps := [];
    PlayNothing(s3);
    steps := Before(s2, Stacking(0, SettleReady(1)), s3, steps);
    steps := Before(s1, One(IdleReturn), s2, steps);
    steps := Before(s0, Dispatch(1, IdleStop), s1, steps);
  }

  /** Worker 1 takes it. */
  lemma UntilTakenAgain() returns (steps: seq<Step>)
    ensures Play(AT_REQUEUED, steps) == Some(AT_TAKEN_AGAIN)
  {
    hide Play;
    var s0 := AT_REQUEUED;
    var s1 := AT_TAKEN_AGAIN;
    steps := [];
    PlayNothing(s1);
    steps := Before(s0, One(ScanTake), s1, steps);
  }

  /** The fiber makes itself READY again ... */
  lemma UntilReadyAgain() returns (steps: seq<Step>)
    ensures Play(AT_TAKEN_AGAIN, steps) == Some(AT_READY_AGAIN)
  {
    hide Play;
    var s0 := AT_TAKEN_AGAIN;
    var s1 := s0.(workers := map[0 := W(Scan, false), 1 := W(On(0, false, Running), true)],
      fibers := map[0 := Fiber(EXEC, User)], begun := map[0 := 0, 1 := 1]);
    var s2 := AT_READY_AGAIN;
    steps := [];
    PlayNothing(s2);
    steps := Before(s1, Code(1, MakeReady), s2, steps);
    steps := Before(s0, Stacking(1, BeginFiber), s1, steps);
  }

  /** ... and again is counted down before it is put back. */
  lemma UntilYieldedAgain() returns (steps: seq<Step>)
    ensures Play(AT_READY_AGAIN, steps) == Some(AT_YIELDED_AGAIN)
  {
    hide Play;
    var s0 := AT_READY_AGAIN;
    var s1 := s0.(workers := map[0 := W(Scan, false), 1 := W(On(0, false, Back), true)]);
    var s2 := AT_YIELDED_AGAIN;
    steps := [];
    PlayNothing(s2);
    steps := Before(s1, Stacking(1, CountDown), s2, steps);
    steps := Before(s0, Stacking(1, Yield), s1, steps);
  }

  /** Worker 0 finds nothing to do ... */
  lemma UntilIdle() returns (steps: seq<Step>)
    ensures Play(AT_YIELDED_AGAIN, steps) == Some(AT_IDLE)
  {
    hide Play;
    var s0 := AT_YIELDED_AGAIN;
    var s1 := s0.(workers := map[0 := W(NoTask, false), 1 := W(On(0, false, Settle), true)]);
    var s2 := AT_IDLE;
    steps := [];
    PlayNothing(s2);
    steps := Before(s1, Zero(EnterIdle), s2, steps);
    steps := Before(s0, Zero(ScanNone), s1, steps);
  }

  /** ... and nobody active, so its idle fiber ends. */
  lemma UntilIdleEnded() returns (steps: seq<Step>)
    ensures Play(AT_IDLE, steps) == Some(AT_IDLE_ENDED)
  {
    hide Play;
    var s0 := AT_IDLE;
    var s1 := s0.(workers := map[0 := W(IdleBack, true), 1 := W(On(0, false, Settle), true)]);
    var s2 := AT_IDLE_ENDED;
    steps := [];
    PlayNothing(s2);
    steps := Before(s1, Zero(IdleReturn), s2, steps);
    steps := Before(s0, Dispatch(0, IdleStop), s1, steps);
  }

  /** Worker 0 scans once more and leaves. */
  lemma UntilOtherLeft() returns (steps: seq<Step>)
    ensures Play(AT_IDLE_ENDED, steps) == Some(AT_OTHER_LEFT)
  {
    hide Play;
    var s0 := AT_IDLE_ENDED;
    var s1 := s0.(workers := map[0 := W(NoTask, true), 1 := W(On(0, false, Settle), true)]);
    var s2 := s1.(workers := map[0 := W(Left, true), 1 := W(On(0, false, Settle), true)]);
    var s3 := AT_OTHER_LEFT;
    steps := [];
    PlayNothing(s3);
    steps := Before(s2, Stacking(1, SettleReady(2)), s3, steps);
    steps := Before(s1, Zero(Leave), s2, steps);
    steps := Before(s0, Zero(ScanNone), s1, steps);
  }

  /** Then the fiber is back in the queue and worker 1 runs it. */
  lemma UntilThird() returns (steps: seq<Step>)
    ensures Play(AT_OTHER_LEFT, steps) == Some(AT_THIRD)
  {
    hide Play;
    var s0 := AT_OTHER_LEFT;
    var s1 := s0.(workers := map[0 := W(Left, true), 1 := W(Took(THIRD), true)], queue := [], active := 1);
    var s2 := AT_THIRD;
    steps := [];
    PlayNothing(s2);
    steps := Before(s1, Stacking(1, BeginFiber), s2, steps);
    steps := Before(s0, One(ScanTake), s1, steps);
  }

  /** It pins a task and ends. */
  lemma UntilPinned(pin: WorkerId) returns (steps: seq<Step>)
    ensures Play(AT_THIRD, steps) == Some(PinnedState(pin))
  {
    hide Play;
    var s0 := AT_THIRD;
    var s1 := s0.(queue := [Pinned(pin)], submitted := map[0 := FIRST, 1 := AGAIN, 2 := THIRD, 3 := Pinned(pin)]);
    var s2 := PinnedState(pin);
    steps := [];
    PlayNothing(s2);
    steps := Before(s1, Code(1, Finish), s2, steps);
    steps := Before(s0, Code(1, SpawnCall(Some(pin), 3)), s1, steps);
  }

  /** Worker 1 is done with it ... */
  lemma UntilEnded(pin: WorkerId) returns (steps: seq<Step>)
    ensures Play(PinnedState(pin), steps) == Some(EndedState(pin))
  {
    hide Play;
    var s0 := PinnedState(pin);
    var s1 := s0.(workers := map[0 := W(Left, true), 1 := W(On(0, false, Back), true)]);
    var s2 := s1.(workers := map[0 := W(Left, true), 1 := W(On(0, false, Settle), true)], active := 0);
    var s3 := EndedState(pin);
    steps := [];
    PlayNothing(s3);
    steps := Before(s2, Stacking(1, SettleTerm), s3, steps);
    steps := Before(s1, Stacking(1, CountDown), s2, steps);
    steps := Before(s0, Stacking(1, Yield), s1, steps);
  }

  /** ... scans, finds nothing of its own, and leaves. */
  lemma UntilAllLeft(pin: WorkerId) returns (steps: seq<Step>)
    requires pin != 1
    ensures Play(EndedState(pin), steps) == Some(AllLeftState(pin))
  {
    hide Play;
    var s0 := EndedState(pin);
    var s1 := s0.(workers := map[0 := W(Left, true), 1 := W(NoTask, true)]);
    var s2 := AllLeftState(pin);
    steps := [];
    PlayNothing(s2);
    steps := Before(s1, One(Leave), s2, steps);
    steps := Before(s0, One(ScanNone), s1, steps);
  }

  lemma Whole(pin: WorkerId) returns (steps: seq<Step>)
    requires pin != 1
    ensures Play(START, steps) == Some(AllLeftState(pin))
  {
    hide *;
    steps := UntilTaken();
    var more: seq<Step>;
    more := UntilReady();
    PlayOn(START, steps, more);
    steps := steps + more;
    more := UntilYielded();
    PlayOn(START, steps, more);
    steps := steps + more;
    more := UntilOtherIdle();
    PlayOn(START, steps, more);
    steps := steps + more;
    more := UntilRequeued();
    PlayOn(START, steps, more);
    steps := steps + more;
    more := UntilTakenAgain();
    PlayOn(START, steps, more);
    steps := steps + more;
    more := UntilReadyAgain();
    PlayOn(START, steps, more);
    steps := steps + more;
    more := UntilYieldedAgain();
    PlayOn(START, steps, more);
    steps := steps + more;
    more := UntilIdle();
    PlayOn(START, steps, more);
    steps := steps + more;
    more := UntilIdleEnded();
    PlayOn(START, steps, more);
    steps := steps + more;
    more := UntilOtherLeft();
    PlayOn(START, steps, more);
    steps := steps + more;
    more := UntilThird();
    PlayOn(START, steps, more);
    steps := steps + more;
    more := UntilPinned(pin);
    PlayOn(START, steps, more);
    steps := steps + more;
    more := UntilEnded(pin);
    PlayOn(START, steps, more);
    steps := steps + more;
    more := UntilAllLeft(pin);
    PlayOn(START, steps, more);
    steps := steps + more;
  }

  /** The run: every worker has left, and the task is still queued - pinned to worker 0, which
      had left before, or to any thread that is no worker. */
  lemma PinnedCanStrand(pin: WorkerId) returns (states: seq<State>, steps: seq<Step>)
    requires pin != 1
    ensures Run(states, steps)
    ensures var s := states[|states| - 1];
      && (forall w :: w in s.workers ==> s.workers[w].pc == Left)
      && s.workers.Keys == {0, 1} && QueuedFor(s, 3, Some(pin))
  {
    hide Play, Enabled, Apply;
    steps := Whole(pin);
    states := PlayIsPath(START, steps);
    assert 0 in START.workers;
    assert QueuedAt(AllLeftState(pin), 3, 0);
  }
}
