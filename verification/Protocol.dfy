/** The wait/wake protocol of the coroutine runtime, as a transition system.

    Every worker thread runs the scheduler loop.  A step is one section executed under a
    lock, one update of an atomic counter, or one move of a fiber's own program between
    two of them; any enabled step of any worker may come next.  The state is the memory the
    threads share (task queue, fiber states, event contexts, timers, counters), the control
    point of each worker, and the control point of each fiber's stack.  Two history maps
    record which tasks were ever submitted and which worker began which of them. */
module Protocol {
  import opened Wrappers
  import opened Clock

  type FiberId = nat
  type WorkerId = nat
  type TimerId = nat
  type CallId = nat
  type TaskId = nat

  datatype Event = READ | WRITE
  datatype Slot = Slot(fd: nat, event: Event)

  datatype FiberState = INIT | HOLD | EXEC | TERM | READY

  /** What a function task does when it runs. */
  datatype Body =
    | UserBody                              // arbitrary code
    | WakeBody(sleeper: FiberId)            // callback of sleep/usleep: schedule the sleeper
    | TimeoutBody(call: CallId, slot: Slot) // callback of a hooked call's timeout timer

  datatype Job = Resume(fiber: FiberId) | Call(body: Body)
  datatype Task = Task(id: TaskId, job: Job, pin: Option<WorkerId>)

  /** Where a fiber's own program stands.  MayYield marks the points whose next move is to
      give up the stack. */
  datatype Prog =
    | User
    | Attempt(call: CallId)                           // about to issue the system call
    | Arm(call: CallId, timer: Option<TimerId>)       // would block; about to add the event
    | ArmFailed(call: CallId, timer: Option<TimerId>) // adding the event failed
    | WaitYield(call: CallId, timer: Option<TimerId>) // event added
    | Woken(call: CallId, timer: Option<TimerId>)     // resumed after WaitYield
    | CheckCall(call: CallId)                         // about to look at the cancelled flag
    | SleepYield
    | ReadyYield
    | WakeDue(sleeper: FiberId)
    | TimeoutDue(call: CallId, slot: Slot)            // about to test the cancelled flag
    | TimeoutSet(call: CallId, slot: Slot)            // about to set it
    | TimeoutCancel(call: CallId, slot: Slot)
    | Done                                            // callback finished
    | Ended                                           // marked TERM

  datatype Fiber = Fiber(state: FiberState, prog: Prog)

  datatype Stage = Running | Back | Settle
  datatype Pc =
    | Unstarted
    | Scan
    | Took(task: Task)
    | On(fiber: FiberId, viaCallback: bool, stage: Stage)
    | NoTask
    | Idle
    | IdleBack
    | Left

  /** idleDone: the worker's idle fiber has terminated.  spare: the worker's fiber for
      function tasks. */
  datatype Worker = Worker(pc: Pc, isRoot: bool, idleDone: bool, spare: Option<FiberId>)

  datatype Timer = Timer(deadline: nat, body: Body)

  datatype CallResult = Pending | TimedOut(at: nat) | Returned
  /** A hooked system call.  start: clock value of its first wait; wrapped: one of its
      deadlines overflowed. */
  datatype CallRec = CallRec(slot: Slot, timeout: Option<nat>, cancelled: bool,
                             start: Option<nat>, wrapped: bool, result: CallResult)

  datatype State = State(
    workers: map<WorkerId, Worker>,
    queue: seq<Task>,
    fibers: map<FiberId, Fiber>,
    slots: map<Slot, Job>,            // event contexts in use, with the armed waiter
    timers: map<TimerId, Timer>,      // every timer ever added
    index: set<TimerId>,              // timers still in the timer manager
    taken: map<TimerId, WorkerId>,    // expired timers in a dispatcher's local vector
    calls: map<CallId, CallRec>,
    active: int,
    idle: int,
    autoStop: bool,
    stopping: bool,
    now: nat,
    submitted: map<TaskId, Task>,     // history: every task ever queued
    begun: map<TaskId, WorkerId>)     // history: who began which task

  // ---------------------------------------------------------------------------------------
  // Scanning the queue

  /** The test a scan applies to one queue entry. */
  predicate Eligible(task: Task, fibers: map<FiberId, Fiber>, w: WorkerId) {
    && (task.pin == None || task.pin == Some(w))
    && !(task.job.Resume? && task.job.fiber in fibers && fibers[task.job.fiber].state == EXEC)
  }

  /** The scan: the position of the first eligible entry. */
  function FirstEligible(queue: seq<Task>, fibers: map<FiberId, Fiber>, w: WorkerId): (r: Option<nat>)
    ensures r.Some? ==> r.value < |queue| && Eligible(queue[r.value], fibers, w)
    ensures r.Some? ==> forall j :: 0 <= j < r.value ==> !Eligible(queue[j], fibers, w)
    ensures r.None? ==> forall j :: 0 <= j < |queue| ==> !Eligible(queue[j], fibers, w)
  {
    if queue == [] then None
    else if Eligible(queue[0], fibers, w) then Some(0)
    else
      match FirstEligible(queue[1..], fibers, w)
      case None =>
        assert forall j :: 1 <= j < |queue| ==> queue[j] == queue[1..][j - 1];
        None
      case Some(i) =>
        assert forall j :: 1 <= j < |queue| ==> queue[j] == queue[1..][j - 1];
        Some(i + 1)
  }

  // ---------------------------------------------------------------------------------------
  // Steps

  datatype Step =
    | Scanning(worker: WorkerId, scan: ScanStep)  // scheduler loop: scan, idle, exit
    | Stacking(worker: WorkerId, run: RunStep)    // scheduler loop: run the dequeued task
    | Dispatch(worker: WorkerId, idle: IdleStep)  // inside the idle fiber
    | Code(worker: WorkerId, code: CodeStep)      // the running fiber: its own code
    | Hooked(worker: WorkerId, io: IoStep)        // the running fiber: a hooked call
    | Callback(worker: WorkerId, cb: CbStep)      // the running fiber: a timer callback
    | Outside(outside: OutsideStep)               // any other thread, and the clock

  datatype ScanStep = Start | SkipRoot | ScanTake | ScanNone | EnterIdle | IdleReturn | Leave

  datatype RunStep =
    | BeginFiber | DropFinished | BeginCall(runner: FiberId)
    | Yield | CountDown
    | SettleReady(id: TaskId) | SettleTerm | SettleHold

  datatype IdleStep =
    | IdleStop | IdleYield
    | Expire(timer: TimerId)
    | Flush(timer: TimerId, id: TaskId)
    | Trigger(slot: Slot, id: TaskId)

  datatype CodeStep =
    | SpawnFiber(child: FiberId, pin: Option<WorkerId>, id: TaskId)
    | SpawnCall(pin: Option<WorkerId>, id: TaskId)
    | ArmCallback(slot: Slot)
    | CancelSlot(slot: Slot, id: TaskId)
    | Sleep(timer: TimerId, period: nat)
    | MakeReady
    | Finish

  datatype IoStep =
    | BeginIo(call: CallId, slot: Slot, timeout: Option<nat>)
    | IoReturn
    | WouldBlock(timer: TimerId)
    | ArmOk | ArmFail | FailCleanup
    | StopTimer | ReportTimeout | Retry

  datatype CbStep =
    | WakeSleeper(id: TaskId)
    | TimeoutStale | TimeoutFresh | TimeoutMark
    | TimeoutTrigger(id: TaskId) | TimeoutMiss

  datatype OutsideStep =
    | SubmitFiber(child: FiberId, pin: Option<WorkerId>, id: TaskId)
    | SubmitCall(pin: Option<WorkerId>, id: TaskId)
    | SetAutoStop | SetStopping
    | Tick(now: nat)

  // Small updates the steps are built from.

  function Submit(s: State, id: TaskId, job: Job, pin: Option<WorkerId>): State {
    s.(queue := s.queue + [Task(id, job, pin)], submitted := s.submitted[id := Task(id, job, pin)])
  }

  function SetPc(s: State, w: WorkerId, pc: Pc): State
    requires w in s.workers
  {
    s.(workers := s.workers[w := s.workers[w].(pc := pc)])
  }

  /** The fiber's program moves on; its state stays. */
  function Move(fibers: map<FiberId, Fiber>, f: FiberId, prog: Prog): map<FiberId, Fiber>
    requires f in fibers
  {
    fibers[f := fibers[f].(prog := prog)]
  }

  /** Trigger an event context: its waiter moves to the queue. */
  function TriggerSlot(s: State, slot: Slot, id: TaskId): State
    requires slot in s.slots
  {
    Submit(s.(slots := s.slots - {slot}), id, s.slots[slot], None)
  }

  /** Where a fiber's program continues when the fiber is resumed. */
  function Resumed(prog: Prog): Prog {
    match prog
    case WaitYield(k, t) => Woken(k, t)
    case SleepYield => User
    case ReadyYield => User
    case _ => prog
  }

  function StartOf(body: Body): Prog {
    match body
    case UserBody => User
    case WakeBody(f) => WakeDue(f)
    case TimeoutBody(k, slot) => TimeoutDue(k, slot)
  }

  predicate MayYield(prog: Prog) {
    prog.WaitYield? || prog.SleepYield? || prog.ReadyYield? || prog.Ended?
  }

  /** The base scheduler's stopping test, evaluated under the queue lock. */
  predicate StoppingNow(s: State) {
    s.autoStop && s.stopping && s.queue == [] && s.active == 0
  }

  predicate RunsOn(s: State, w: WorkerId) {
    && w in s.workers && s.workers[w].pc.On?
    && s.workers[w].pc.stage == Running && s.workers[w].pc.fiber in s.fibers
  }

  function ProgOf(s: State, w: WorkerId): Prog
    requires RunsOn(s, w)
  {
    s.fibers[s.workers[w].pc.fiber].prog
  }

  predicate ScanEnabled(s: State, w: WorkerId, step: ScanStep)
    requires w in s.workers
  {
    var pc := s.workers[w].pc;
    match step
    case Start => pc == Unstarted
    case SkipRoot => pc == Unstarted && s.workers[w].isRoot && StoppingNow(s)
    case ScanTake => pc == Scan && FirstEligible(s.queue, s.fibers, w).Some?
    case ScanNone => pc == Scan && FirstEligible(s.queue, s.fibers, w).None?
    case EnterIdle => pc == NoTask && !s.workers[w].idleDone
    case IdleReturn => pc == IdleBack
    case Leave => pc == NoTask && s.workers[w].idleDone
  }

  function ScanApply(s: State, w: WorkerId, step: ScanStep): State
    requires w in s.workers && ScanEnabled(s, w, step)
  {
    match step
    case Start => SetPc(s, w, Scan)
    case SkipRoot => SetPc(s, w, Left)
    case ScanTake =>
      var i := FirstEligible(s.queue, s.fibers, w).value;
      SetPc(s, w, Took(s.queue[i])).(queue := s.queue[..i] + s.queue[i + 1..], active := s.active + 1)
    case ScanNone => SetPc(s, w, NoTask)
    case EnterIdle => SetPc(s, w, Idle).(idle := s.idle + 1)
    case IdleReturn => SetPc(s, w, Scan).(idle := s.idle - 1)
    case Leave => SetPc(s, w, Left)
  }

  /** The worker is past the yield of a fiber and is looking at its state. */
  predicate Settling(s: State, w: WorkerId)
    requires w in s.workers
  {
    s.workers[w].pc.On? && s.workers[w].pc.stage == Settle && s.workers[w].pc.fiber in s.fibers
  }

  predicate RunEnabled(s: State, w: WorkerId, step: RunStep)
    requires w in s.workers
  {
    var pc := s.workers[w].pc;
    match step
    case BeginFiber =>
      && pc.Took? && pc.task.job.Resume? && pc.task.job.fiber in s.fibers
      && s.fibers[pc.task.job.fiber].state != TERM
    case DropFinished =>
      && pc.Took? && pc.task.job.Resume? && pc.task.job.fiber in s.fibers
      && s.fibers[pc.task.job.fiber].state == TERM
    case BeginCall(c) =>
      && pc.Took? && pc.task.job.Call?
      && (if s.workers[w].spare.Some? then c == s.workers[w].spare.value else c !in s.fibers)
    case Yield => RunsOn(s, w) && MayYield(ProgOf(s, w))
    case CountDown => pc.On? && pc.stage == Back
    case SettleReady(id) => Settling(s, w) && s.fibers[pc.fiber].state == READY && id !in s.submitted
    case SettleTerm => Settling(s, w) && s.fibers[pc.fiber].state == TERM
    case SettleHold => Settling(s, w) && s.fibers[pc.fiber].state != READY && s.fibers[pc.fiber].state != TERM
  }

  /** Back to scanning; a callback fiber that did not finish is no longer the worker's spare. */
  function BackToScan(me: Worker): Worker {
    me.(pc := Scan, spare := if me.pc.On? && me.pc.viaCallback then None else me.spare)
  }

  function RunApply(s: State, w: WorkerId, step: RunStep): State
    requires w in s.workers && RunEnabled(s, w, step)
  {
    var pc := s.workers[w].pc;
    match step
    case BeginFiber =>
      var f := pc.task.job.fiber;
      SetPc(s, w, On(f, false, Running))
        .(fibers := s.fibers[f := Fiber(EXEC, Resumed(s.fibers[f].prog))], begun := s.begun[pc.task.id := w])
    case DropFinished =>
      SetPc(s, w, Scan).(active := s.active - 1, begun := s.begun[pc.task.id := w])
    case BeginCall(c) =>
      s.(workers := s.workers[w := s.workers[w].(pc := On(c, true, Running), spare := Some(c))],
         fibers := s.fibers[c := Fiber(EXEC, StartOf(pc.task.job.body))],
         begun := s.begun[pc.task.id := w])
    case Yield => SetPc(s, w, pc.(stage := Back))
    case CountDown => SetPc(s, w, pc.(stage := Settle)).(active := s.active - 1)
    case SettleReady(id) =>
      Submit(s.(workers := s.workers[w := BackToScan(s.workers[w])]), id, Resume(pc.fiber), None)
    case SettleTerm =>
      SetPc(s, w, Scan)
        .(fibers := if pc.viaCallback then s.fibers[pc.fiber := Fiber(INIT, Done)] else s.fibers)
    case SettleHold =>
      s.(workers := s.workers[w := BackToScan(s.workers[w])],
         fibers := s.fibers[pc.fiber := s.fibers[pc.fiber].(state := HOLD)])
  }

  predicate IdleEnabled(s: State, w: WorkerId, step: IdleStep)
    requires w in s.workers
  {
    && s.workers[w].pc == Idle
    && match step
       case IdleStop => StoppingNow(s) && forall t :: t in s.taken ==> s.taken[t] != w
       case IdleYield => forall t :: t in s.taken ==> s.taken[t] != w
       case Expire(t) => t in s.index && t in s.timers && s.timers[t].deadline <= s.now
       case Flush(t, id) => t in s.taken && s.taken[t] == w && t in s.timers && id !in s.submitted
       case Trigger(slot, id) => slot in s.slots && id !in s.submitted
  }

  function IdleApply(s: State, w: WorkerId, step: IdleStep): State
    requires w in s.workers && IdleEnabled(s, w, step)
  {
    match step
    case IdleStop => s.(workers := s.workers[w := s.workers[w].(pc := IdleBack, idleDone := true)])
    case IdleYield => SetPc(s, w, IdleBack)
    case Expire(t) => s.(index := s.index - {t}, taken := s.taken[t := w])
    case Flush(t, id) => Submit(s.(taken := s.taken - {t}), id, Call(s.timers[t].body), None)
    case Trigger(slot, id) => TriggerSlot(s, slot, id)
  }

  predicate CodeEnabled(s: State, w: WorkerId, step: CodeStep) {
    && RunsOn(s, w)
    && var prog := ProgOf(s, w);
       match step
       case SpawnFiber(g, pin, id) => prog == User && g !in s.fibers && id !in s.submitted
       case SpawnCall(pin, id) => prog == User && id !in s.submitted
       case ArmCallback(slot) => prog == User && slot !in s.slots
       case CancelSlot(slot, id) => prog == User && slot in s.slots && id !in s.submitted
       case Sleep(t, period) => prog == User && t !in s.timers
       case MakeReady => prog == User
       case Finish => prog == User || prog == Done
  }

  function CodeApply(s: State, w: WorkerId, step: CodeStep): State
    requires CodeEnabled(s, w, step)
  {
    var f := s.workers[w].pc.fiber;
    match step
    case SpawnFiber(g, pin, id) => Submit(s.(fibers := s.fibers[g := Fiber(INIT, User)]), id, Resume(g), pin)
    case SpawnCall(pin, id) => Submit(s, id, Call(UserBody), pin)
    case ArmCallback(slot) => s.(slots := s.slots[slot := Call(UserBody)])
    case CancelSlot(slot, id) => TriggerSlot(s, slot, id)
    case Sleep(t, period) =>
      s.(fibers := Move(s.fibers, f, SleepYield),
         timers := s.timers[t := Timer(Deadline(s.now, period), WakeBody(f))], index := s.index + {t})
    case MakeReady => s.(fibers := s.fibers[f := Fiber(READY, ReadyYield)])
    case Finish => s.(fibers := s.fibers[f := Fiber(TERM, Ended)])
  }

  predicate IoEnabled(s: State, w: WorkerId, step: IoStep) {
    && RunsOn(s, w)
    && var prog := ProgOf(s, w);
       match step
       case BeginIo(k, slot, timeout) => prog == User && k !in s.calls
       case IoReturn => prog.Attempt? && prog.call in s.calls
       case WouldBlock(t) => prog.Attempt? && prog.call in s.calls && t !in s.timers
       case ArmOk => prog.Arm? && prog.call in s.calls && s.calls[prog.call].slot !in s.slots
       case ArmFail => prog.Arm? && prog.call in s.calls
       case FailCleanup => prog.ArmFailed? && prog.call in s.calls
       case StopTimer => prog.Woken?
       case ReportTimeout => prog.CheckCall? && prog.call in s.calls && s.calls[prog.call].cancelled
       case Retry => prog.CheckCall? && prog.call in s.calls && !s.calls[prog.call].cancelled
  }

  /** Cancel a hooked call's timer, if it has one and it is still in the manager. */
  function WithoutTimer(index: set<TimerId>, t: Option<TimerId>): set<TimerId> {
    if t.Some? then index - {t.value} else index
  }

  /** The call record after a wait begins at the given clock value. */
  function StartWait(c: CallRec, now: nat): CallRec {
    c.(start := if c.start.None? then Some(now) else c.start,
       wrapped := c.wrapped || (c.timeout.Some? && now + c.timeout.value >= CLOCK_MODULUS))
  }

  function TimeoutTimer(c: CallRec, k: CallId, now: nat): Timer
    requires c.timeout.Some?
  {
    Timer(Deadline(now, c.timeout.value), TimeoutBody(k, c.slot))
  }

  function IoApply(s: State, w: WorkerId, step: IoStep): State
    requires IoEnabled(s, w, step)
  {
    var f := s.workers[w].pc.fiber;
    var prog := ProgOf(s, w);
    match step
    case BeginIo(k, slot, timeout) =>
      s.(fibers := Move(s.fibers, f, Attempt(k)),
         calls := s.calls[k := CallRec(slot, timeout, false, None, false, Pending)])
    case IoReturn =>
      s.(fibers := Move(s.fibers, f, User),
         calls := s.calls[prog.call := s.calls[prog.call].(result := Returned)])
    case WouldBlock(t) =>
      var c := s.calls[prog.call];
      var timed := c.timeout.Some?;
      s.(fibers := Move(s.fibers, f, Arm(prog.call, if timed then Some(t) else None)),
         calls := s.calls[prog.call := StartWait(c, s.now)],
         timers := if timed then s.timers[t := TimeoutTimer(c, prog.call, s.now)] else s.timers,
         index := if timed then s.index + {t} else s.index)
    case ArmOk =>
      s.(fibers := Move(s.fibers, f, WaitYield(prog.call, prog.timer)),
         slots := s.slots[s.calls[prog.call].slot := Resume(f)])
    case ArmFail => s.(fibers := Move(s.fibers, f, ArmFailed(prog.call, prog.timer)))
    case FailCleanup =>
      s.(fibers := Move(s.fibers, f, User),
         calls := s.calls[prog.call := s.calls[prog.call].(result := Returned)],
         index := WithoutTimer(s.index, prog.timer))
    case StopTimer =>
      s.(fibers := Move(s.fibers, f, CheckCall(prog.call)), index := WithoutTimer(s.index, prog.timer))
    case ReportTimeout =>
      s.(fibers := Move(s.fibers, f, User),
         calls := s.calls[prog.call := s.calls[prog.call].(result := TimedOut(s.now))])
    case Retry => s.(fibers := Move(s.fibers, f, Attempt(prog.call)))
  }

  predicate CbEnabled(s: State, w: WorkerId, step: CbStep) {
    && RunsOn(s, w)
    && var prog := ProgOf(s, w);
       match step
       case WakeSleeper(id) => prog.WakeDue? && id !in s.submitted
       case TimeoutStale =>
         && prog.TimeoutDue? && prog.call in s.calls
         && (s.calls[prog.call].result != Pending || s.calls[prog.call].cancelled)
       case TimeoutFresh =>
         && prog.TimeoutDue? && prog.call in s.calls
         && s.calls[prog.call].result == Pending && !s.calls[prog.call].cancelled
       case TimeoutMark => prog.TimeoutSet? && prog.call in s.calls
       case TimeoutTrigger(id) => prog.TimeoutCancel? && prog.slot in s.slots && id !in s.submitted
       case TimeoutMiss => prog.TimeoutCancel? && prog.slot !in s.slots
  }

  function CbApply(s: State, w: WorkerId, step: CbStep): State
    requires CbEnabled(s, w, step)
  {
    var f := s.workers[w].pc.fiber;
    var prog := ProgOf(s, w);
    match step
    case WakeSleeper(id) =>
      Submit(s.(fibers := Move(s.fibers, f, Done)), id, Resume(prog.sleeper), None)
    case TimeoutStale => s.(fibers := Move(s.fibers, f, Done))
    case TimeoutFresh => s.(fibers := Move(s.fibers, f, TimeoutSet(prog.call, prog.slot)))
    case TimeoutMark =>
      s.(fibers := Move(s.fibers, f, TimeoutCancel(prog.call, prog.slot)),
         calls := s.calls[prog.call := s.calls[prog.call].(cancelled := true)])
    case TimeoutTrigger(id) => TriggerSlot(s.(fibers := Move(s.fibers, f, Done)), prog.slot, id)
    case TimeoutMiss => s.(fibers := Move(s.fibers, f, Done))
  }

  predicate OutsideEnabled(s: State, step: OutsideStep) {
    match step
    case SubmitFiber(g, pin, id) => g !in s.fibers && id !in s.submitted
    case SubmitCall(pin, id) => id !in s.submitted
    case SetAutoStop => true
    case SetStopping => s.autoStop
    case Tick(now) => s.now <= now
  }

  function OutsideApply(s: State, step: OutsideStep): State
    requires OutsideEnabled(s, step)
  {
    match step
    case SubmitFiber(g, pin, id) => Submit(s.(fibers := s.fibers[g := Fiber(INIT, User)]), id, Resume(g), pin)
    case SubmitCall(pin, id) => Submit(s, id, Call(UserBody), pin)
    case SetAutoStop => s.(autoStop := true)
    case SetStopping => s.(stopping := true)
    case Tick(now) => s.(now := now)
  }

  predicate Enabled(s: State, step: Step) {
    match step
    case Scanning(w, a) => w in s.workers && ScanEnabled(s, w, a)
    case Stacking(w, a) => w in s.workers && RunEnabled(s, w, a)
    case Dispatch(w, a) => w in s.workers && IdleEnabled(s, w, a)
    case Code(w, a) => CodeEnabled(s, w, a)
    case Hooked(w, a) => IoEnabled(s, w, a)
    case Callback(w, a) => CbEnabled(s, w, a)
    case Outside(a) => OutsideEnabled(s, a)
  }

  function Apply(s: State, step: Step): State
    requires Enabled(s, step)
  {
    match step
    case Scanning(w, a) => ScanApply(s, w, a)
    case Stacking(w, a) => RunApply(s, w, a)
    case Dispatch(w, a) => IdleApply(s, w, a)
    case Code(w, a) => CodeApply(s, w, a)
    case Hooked(w, a) => IoApply(s, w, a)
    case Callback(w, a) => CbApply(s, w, a)
    case Outside(a) => OutsideApply(s, a)
  }

  predicate Init(s: State) {
    && s.workers != map[]
    && (forall w :: w in s.workers ==>
          s.workers[w].pc == Unstarted && !s.workers[w].idleDone && s.workers[w].spare == None)
    && s.queue == [] && s.fibers == map[] && s.slots == map[] && s.timers == map[]
    && s.index == {} && s.taken == map[] && s.calls == map[]
    && s.active == 0 && s.idle == 0 && !s.stopping
    && s.submitted == map[] && s.begun == map[]
  }

  /** A run: states joined by enabled steps. */
  predicate Run(states: seq<State>, steps: seq<Step>) {
    && |states| == |steps| + 1
    && Init(states[0])
    && forall i :: 0 <= i < |steps| ==> Enabled(states[i], steps[i]) && states[i + 1] == Apply(states[i], steps[i])
  }
}
