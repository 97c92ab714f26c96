/** What each family of protocol steps changes and leaves alone.  The invariants are proved
    from these summaries instead of from the step definitions. */
module Effects {
  import opened Wrappers
  import opened Protocol

  /** The queue and the submission history grew by exactly the given task. */
  ghost predicate Appended(s: State, t: State, o: Option<Task>) {
    match o
    case None => t.queue == s.queue && t.submitted == s.submitted
    case Some(task) =>
      && task.id !in s.submitted
      && t.queue == s.queue + [task]
      && t.submitted == s.submitted[task.id := task]
  }

  // The task a step of each family submits, if any.

  function RunTask(s: State, w: WorkerId, step: RunStep): Option<Task>
    requires w in s.workers && RunEnabled(s, w, step)
  {
    if step.SettleReady? then Some(Task(step.id, Resume(s.workers[w].pc.fiber), None)) else None
  }

  function IdleTask(s: State, w: WorkerId, step: IdleStep): Option<Task>
    requires w in s.workers && IdleEnabled(s, w, step)
  {
    match step
    case Flush(timer, id) => Some(Task(id, Call(s.timers[timer].body), None))
    case Trigger(slot, id) => Some(Task(id, s.slots[slot], None))
    case _ => None
  }

  function CodeTask(s: State, w: WorkerId, step: CodeStep): Option<Task>
    requires CodeEnabled(s, w, step)
  {
    match step
    case SpawnFiber(g, pin, id) => Some(Task(id, Resume(g), pin))
    case SpawnCall(pin, id) => Some(Task(id, Call(UserBody), pin))
    case CancelSlot(slot, id) => Some(Task(id, s.slots[slot], None))
    case _ => None
  }

  function CbTask(s: State, w: WorkerId, step: CbStep): Option<Task>
    requires CbEnabled(s, w, step)
  {
    match step
    case WakeSleeper(id) => Some(Task(id, Resume(ProgOf(s, w).sleeper), None))
    case TimeoutTrigger(id) => Some(Task(id, s.slots[ProgOf(s, w).slot], None))
    case _ => None
  }

  function OutsideTask(s: State, step: OutsideStep): Option<Task>
    requires OutsideEnabled(s, step)
  {
    match step
    case SubmitFiber(g, pin, id) => Some(Task(id, Resume(g), pin))
    case SubmitCall(pin, id) => Some(Task(id, Call(UserBody), pin))
    case _ => None
  }

  /** The worker record after a scanning step. */
  function Scanned(s: State, w: WorkerId, step: ScanStep): Worker
    requires w in s.workers && ScanEnabled(s, w, step)
  {
    var me := s.workers[w];
    match step
    case Start => me.(pc := Scan)
    case SkipRoot => me.(pc := Left)
    case ScanTake => me.(pc := Took(s.queue[FirstEligible(s.queue, s.fibers, w).value]))
    case ScanNone => me.(pc := NoTask)
    case EnterIdle => me.(pc := Idle)
    case IdleReturn => me.(pc := Scan)
    case Leave => me.(pc := Left)
  }

  /** The worker record after a running step. */
  function Ran(s: State, w: WorkerId, step: RunStep): Worker
    requires w in s.workers && RunEnabled(s, w, step)
  {
    var me := s.workers[w];
    match step
    case BeginFiber => me.(pc := On(me.pc.task.job.fiber, false, Running))
    case DropFinished => me.(pc := Scan)
    case BeginCall(c) => me.(pc := On(c, true, Running), spare := Some(c))
    case Yield => me.(pc := me.pc.(stage := Back))
    case CountDown => me.(pc := me.pc.(stage := Settle))
    case SettleReady(_) => BackToScan(me)
    case SettleTerm => me.(pc := Scan)
    case SettleHold => BackToScan(me)
  }

  predicate Begins(step: RunStep) { step.BeginFiber? || step.DropFinished? || step.BeginCall? }

  /** Timers, contexts, calls, flags and clock are untouched. */
  ghost predicate SameOutside(s: State, t: State) {
    && t.slots == s.slots && t.timers == s.timers && t.index == s.index && t.taken == s.taken
    && t.calls == s.calls && t.autoStop == s.autoStop && t.stopping == s.stopping && t.now == s.now
  }

  /** Workers, counters, flags, clock and the begun history are untouched. */
  ghost predicate SameInside(s: State, t: State) {
    && t.workers == s.workers && t.begun == s.begun && t.active == s.active && t.idle == s.idle
    && t.autoStop == s.autoStop && t.stopping == s.stopping && t.now == s.now
  }

  lemma ScanEffect(s: State, w: WorkerId, step: ScanStep)
    requires w in s.workers && ScanEnabled(s, w, step)
    ensures var t := ScanApply(s, w, step);
      && SameOutside(s, t)
      && t.workers == s.workers[w := Scanned(s, w, step)]
      && t.fibers == s.fibers && t.begun == s.begun && t.submitted == s.submitted
      && (!step.ScanTake? ==> t.queue == s.queue)
      && t.active == s.active + (if step.ScanTake? then 1 else 0)
      && t.idle == s.idle + (if step.EnterIdle? then 1 else if step.IdleReturn? then -1 else 0)
  {
    match step
    case Start =>
    case SkipRoot =>
    case ScanTake =>
    case ScanNone =>
    case EnterIdle =>
    case IdleReturn =>
    case Leave =>
  }

  lemma RunEffect(s: State, w: WorkerId, step: RunStep)
    requires w in s.workers && RunEnabled(s, w, step)
    ensures var t := RunApply(s, w, step);
      && SameOutside(s, t)
      && t.workers == s.workers[w := Ran(s, w, step)]
      && Appended(s, t, RunTask(s, w, step))
      && t.active == s.active + (if step.DropFinished? || step.CountDown? then -1 else 0)
      && t.idle == s.idle
      && (if Begins(step) then s.workers[w].pc.Took? && t.begun == s.begun[s.workers[w].pc.task.id := w]
          else t.begun == s.begun)
  {
    match step
    case BeginFiber =>
    case DropFinished =>
    case BeginCall(_) =>
    case Yield =>
    case CountDown =>
    case SettleReady(_) =>
    case SettleTerm =>
    case SettleHold =>
  }

  lemma IdleEffect(s: State, w: WorkerId, step: IdleStep)
    requires w in s.workers && IdleEnabled(s, w, step)
    ensures var t := IdleApply(s, w, step);
      && t.workers == s.workers[w := s.workers[w].(
             pc := if step.IdleStop? || step.IdleYield? then IdleBack else Idle,
             idleDone := s.workers[w].idleDone || step.IdleStop?)]
      && t.fibers == s.fibers && t.timers == s.timers && t.calls == s.calls
      && t.active == s.active && t.idle == s.idle
      && t.autoStop == s.autoStop && t.stopping == s.stopping && t.now == s.now
      && Appended(s, t, IdleTask(s, w, step))
      && t.begun == s.begun
  {
    var t := IdleApply(s, w, step);
    match step
    case IdleStop =>
    case IdleYield =>
    case _ => assert t.workers == s.workers[w := s.workers[w]];
  }

  lemma CodeEffect(s: State, w: WorkerId, step: CodeStep)
    requires CodeEnabled(s, w, step)
    ensures var t := CodeApply(s, w, step);
      && SameInside(s, t) && t.taken == s.taken && t.calls == s.calls
      && Appended(s, t, CodeTask(s, w, step))
  {
    match step
    case SpawnFiber(_, _, _) =>
    case SpawnCall(_, _) =>
    case ArmCallback(_) =>
    case CancelSlot(_, _) =>
    case Sleep(_, _) =>
    case MakeReady =>
    case Finish =>
  }

  /** Where the running fiber's program stands after a call step. */
  function IoNext(s: State, w: WorkerId, step: IoStep): Prog
    requires IoEnabled(s, w, step)
  {
    var prog := ProgOf(s, w);
    match step
    case BeginIo(k, _, _) => Attempt(k)
    case IoReturn => User
    case WouldBlock(t) => Arm(prog.call, if s.calls[prog.call].timeout.Some? then Some(t) else None)
    case ArmOk => WaitYield(prog.call, prog.timer)
    case ArmFail => ArmFailed(prog.call, prog.timer)
    case FailCleanup => User
    case StopTimer => CheckCall(prog.call)
    case ReportTimeout => User
    case Retry => Attempt(prog.call)
  }

  /** The timer handle a call step cancels. */
  function IoDropped(s: State, w: WorkerId, step: IoStep): Option<TimerId>
    requires IoEnabled(s, w, step)
  {
    if step.FailCleanup? || step.StopTimer? then ProgOf(s, w).timer else None
  }

  lemma IoEffect(s: State, w: WorkerId, step: IoStep)
    requires IoEnabled(s, w, step)
    ensures var t := IoApply(s, w, step);
      && SameInside(s, t) && t.taken == s.taken
      && Appended(s, t, None)
      && t.fibers == Move(s.fibers, s.workers[w].pc.fiber, IoNext(s, w, step))
      && (!step.WouldBlock? ==> t.timers == s.timers && t.index == WithoutTimer(s.index, IoDropped(s, w, step)))
      && (!step.ArmOk? ==> t.slots == s.slots)
  {
    match step
    case BeginIo(_, _, _) =>
    case IoReturn =>
    case WouldBlock(_) =>
    case ArmOk =>
    case ArmFail =>
    case FailCleanup =>
    case StopTimer =>
    case ReportTimeout =>
    case Retry =>
  }

  /** Where the running fiber's program stands after a callback step. */
  function CbNext(s: State, w: WorkerId, step: CbStep): Prog
    requires CbEnabled(s, w, step)
  {
    match step
    case TimeoutFresh => TimeoutSet(ProgOf(s, w).call, ProgOf(s, w).slot)
    case TimeoutMark => TimeoutCancel(ProgOf(s, w).call, ProgOf(s, w).slot)
    case _ => Done
  }

  lemma CbEffect(s: State, w: WorkerId, step: CbStep)
    requires CbEnabled(s, w, step)
    ensures var t := CbApply(s, w, step);
      && SameInside(s, t) && t.taken == s.taken && t.timers == s.timers && t.index == s.index
      && Appended(s, t, CbTask(s, w, step))
      && t.fibers == Move(s.fibers, s.workers[w].pc.fiber, CbNext(s, w, step))
      && (!step.TimeoutTrigger? ==> t.slots == s.slots)
  {
    match step
    case WakeSleeper(_) =>
    case TimeoutStale =>
    case TimeoutFresh =>
    case TimeoutMark =>
    case TimeoutTrigger(_) =>
    case TimeoutMiss =>
  }

  lemma OutsideEffect(s: State, step: OutsideStep)
    requires OutsideEnabled(s, step)
    ensures var t := OutsideApply(s, step);
      && t.workers == s.workers && t.begun == s.begun && t.active == s.active && t.idle == s.idle
      && t.slots == s.slots && t.timers == s.timers && t.index == s.index && t.taken == s.taken
      && t.calls == s.calls
      && (s.stopping ==> t.stopping) && (s.autoStop ==> t.autoStop) && s.now <= t.now
      && Appended(s, t, OutsideTask(s, step))
  {
  }
}
