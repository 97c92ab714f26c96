/** Runs in which a task is queued after the last worker has left: nothing keeps a thread from
    scheduling on a scheduler that has stopped. */
module LateWork {
  import opened Wrappers
  import opened Protocol
  import opened Playing
  import opened TaskSafety
  import opened LoopSafety
  import opened Runs

  /** The states of these runs: one worker, no fiber, event or timer. */
  function St(pc: Pc, idleDone: bool, idle: int, told: bool, queue: seq<Task>, submitted: map<TaskId, Task>): State {
    State(map[0 := Worker(pc, false, idleDone, None)], queue, map[], map[], map[], {}, map[], map[],
          0, idle, told, told, 0, submitted, map[])
  }

  const START := St(Unstarted, false, 0, false, [], map[])
  const AT_TOLD := St(Unstarted, false, 0, true, [], map[])
  const AT_IDLE := St(Idle, false, 1, true, [], map[])
  const AT_IDLE_ENDED := St(Scan, true, 0, true, [], map[])
  const AT_LEFT := St(Left, true, 0, true, [], map[])

  function Late(pin: Option<WorkerId>): Task { Task(0, Call(UserBody), pin) }

  function LateState(pin: Option<WorkerId>): State {
    St(Left, true, 0, true, [Late(pin)], map[0 := Late(pin)])
  }

  /** stop() is called. */
  lemma UntilTold() returns (steps: seq<Step>)
    ensures Play(START, steps) == Some(AT_TOLD)
  {
    hide Play;
    var s0 := START;
    var s1 := s0.(autoStop := true);
    var s2 := AT_TOLD;
    steps := [];
    PlayNothing(s2);
    steps := Before(s1, Outside(SetStopping), s2, steps);
    steps := Before(s0, Outside(SetAutoStop), s1, steps);
  }

  /** The worker finds nothing to do ... */
  lemma UntilIdle() returns (steps: seq<Step>)
    ensures Play(AT_TOLD, steps) == Some(AT_IDLE)
  {
    hide Play;
    var s0 := AT_TOLD;
    var s1 := St(Scan, false, 0, true, [], map[]);
    var s2 := St(NoTask, false, 0, true, [], map[]);
    var s3 := AT_IDLE;
    steps := [];
    PlayNothing(s3);
    steps := Before(s2, Scanning(0, EnterIdle), s3, steps);
    steps := Before(s1, Scanning(0, ScanNone), s2, steps);
    steps := Before(s0, Scanning(0, Start), s1, steps);
  }

  /** ... and its idle fiber ends. */
  lemma UntilIdleEnded() returns (steps: seq<Step>)
    ensures Play(AT_IDLE, steps) == Some(AT_IDLE_ENDED)
  {
    hide Play;
    var s0 := AT_IDLE;
    var s1 := St(IdleBack, true, 1, true, [], map[]);
    var s2 := AT_IDLE_ENDED;
    steps := [];
    PlayNothing(s2);
    steps := Before(s1, Scanning(0, IdleReturn), s2, steps);
    steps := Before(s0, Dispatch(0, IdleStop), s1, steps);
  }

  /** It scans for the last time and leaves. */
  lemma UntilLeft() returns (steps: seq<Step>)
    ensures Play(AT_IDLE_ENDED, steps) == Some(AT_LEFT)
  {
    hide Play;
    var s0 := AT_IDLE_ENDED;
    var s1 := St(NoTask, true, 0, true, [], map[]);
    var s2 := AT_LEFT;
    steps := [];
    PlayNothing(s2);
    steps := Before(s1, Scanning(0, Leave), s2, steps);
    steps := Before(s0, Scanning(0, ScanNone), s1, steps);
  }

  /** Another thread submits a task. */
  lemma UntilLate(pin: Option<WorkerId>) returns (steps: seq<Step>)
    ensures Play(AT_LEFT, steps) == Some(LateState(pin))
  {
    hide Play;
    var s0 := AT_LEFT;
    var s1 := LateState(pin);
    steps := [];
    PlayNothing(s1);
    steps := Before(s0, Outside(SubmitCall(pin, 0)), s1, steps);
  }

  lemma Whole(pin: Option<WorkerId>) returns (steps: seq<Step>)
    ensures Play(START, steps) == Some(LateState(pin))
  {
    hide *;
    steps := UntilTold();
    var more: seq<Step>;
    more := UntilIdle();
    PlayOn(START, steps, more);
    steps := steps + more;
    more := UntilIdleEnded();
    PlayOn(START, steps, more);
    steps := steps + more;
    more := UntilLeft();
    PlayOn(START, steps, more);
    steps := steps + more;
    more := UntilLate(pin);
    PlayOn(START, steps, more);
    steps := steps + more;
  }

  /** The run: the only worker has left, and a task is queued under whatever pin, or none. */
  lemma LateCanStrand(pin: Option<WorkerId>) returns (states: seq<State>, steps: seq<Step>)
    ensures Run(states, steps)
    ensures var s := states[|states| - 1]; s.workers.Keys == {0} && AllLeft(s) && QueuedFor(s, 0, pin)
  {
    hide Play, Enabled, Apply;
    steps := Whole(pin);
    states := PlayIsPath(START, steps);
    assert 0 in START.workers;
    assert QueuedAt(LateState(pin), 0, 0);
  }
}
