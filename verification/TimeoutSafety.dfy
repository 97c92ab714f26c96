/** Timeouts of hooked calls: however many stale timers earlier retries left behind, a call is
    marked cancelled only once its timeout has elapsed since its first wait. */
module TimeoutSafety {
  import opened Wrappers
  import opened Clock
  import opened Protocol
  import opened Effects
  import opened TaskSafety

  /** The call's timeout has elapsed since its first wait - or one of its deadlines overflowed
      the clock's 64 bits. */
  predicate Due(calls: map<CallId, CallRec>, now: nat, k: CallId) {
    && k in calls && calls[k].timeout.Some? && calls[k].start.Some?
    && (calls[k].wrapped || calls[k].start.value + calls[k].timeout.value <= now)
  }

  predicate BodyDue(s: State, body: Body) {
    body.TimeoutBody? ==> Due(s.calls, s.now, body.call)
  }

  predicate JobDue(s: State, job: Job) { job.Call? ==> BodyDue(s, job.body) }

  predicate ProgDue(s: State, prog: Prog) {
    (prog.TimeoutDue? || prog.TimeoutSet?) ==> Due(s.calls, s.now, prog.call)
  }

  /** A timer set for a hooked call expires no earlier than the call's timeout. */
  predicate TimerLate(calls: map<CallId, CallRec>, timer: Timer) {
    timer.body.TimeoutBody? ==> Due(calls, timer.deadline, timer.body.call)
  }

  predicate CallOk(calls: map<CallId, CallRec>, now: nat, k: CallId)
    requires k in calls
  {
    var c := calls[k];
    && (c.start.Some? ==> c.start.value <= now)
    && (c.cancelled ==> Due(calls, now, k))
    && (c.result.TimedOut? ==> c.result.at <= now && Due(calls, c.result.at, k))
  }

  ghost predicate TimeInv(s: State) {
    && (forall t :: t in s.timers ==> TimerLate(s.calls, s.timers[t]))
    && (forall t :: t in s.taken ==> t in s.timers && s.timers[t].deadline <= s.now)
    && (forall id :: id in s.submitted ==> JobDue(s, s.submitted[id].job))
    && (forall slot :: slot in s.slots ==> JobDue(s, s.slots[slot]))
    && (forall f :: f in s.fibers ==> ProgDue(s, s.fibers[f].prog))
    && (forall k :: k in s.calls ==> CallOk(s.calls, s.now, k))
  }

  lemma TimeInit(s: State)
    requires Init(s)
    ensures TimeInv(s)
  {
  }

  /** Calls only move towards being due. */
  ghost predicate CallsAge(s: State, t: State) {
    && s.now <= t.now
    && forall k :: k in s.calls ==>
         && k in t.calls && t.calls[k].timeout == s.calls[k].timeout
         && (s.calls[k].start.Some? ==> t.calls[k].start == s.calls[k].start)
         && (s.calls[k].wrapped ==> t.calls[k].wrapped)
  }

  lemma DueAges(s: State, t: State)
    requires CallsAge(s, t)
    ensures forall k, at :: Due(s.calls, at, k) ==> Due(t.calls, at, k)
    ensures forall k :: Due(s.calls, s.now, k) ==> Due(t.calls, t.now, k)
    ensures forall job :: JobDue(s, job) ==> JobDue(t, job)
    ensures forall prog :: ProgDue(s, prog) ==> ProgDue(t, prog)
    ensures forall timer :: TimerLate(s.calls, timer) ==> TimerLate(t.calls, timer)
  {
  }

  lemma TimeScanStep(s: State, w: WorkerId, a: ScanStep)
    requires TimeInv(s) && w in s.workers && ScanEnabled(s, w, a)
    ensures TimeInv(ScanApply(s, w, a))
  {
    ScanEffect(s, w, a);
    DueAges(s, ScanApply(s, w, a));
  }

  lemma TimeRunStep(s: State, w: WorkerId, a: RunStep)
    requires TimeInv(s) && HandInv(s) && w in s.workers && RunEnabled(s, w, a)
    ensures TimeInv(RunApply(s, w, a))
  {
    var t := RunApply(s, w, a);
    RunEffect(s, w, a);
    RunFibersDue(s, w, a);
    hide RunApply, RunEnabled;
    DueAges(s, t);
    assert forall f :: f in t.fibers ==> ProgDue(t, t.fibers[f].prog);
  }

  /** A fiber that begins or resumes does not start a timeout that is not due. */
  lemma RunFibersDue(s: State, w: WorkerId, a: RunStep)
    requires TimeInv(s) && HandInv(s) && w in s.workers && RunEnabled(s, w, a)
    ensures var t := RunApply(s, w, a); forall f :: f in t.fibers ==> ProgDue(s, t.fibers[f].prog)
  {
    match a
    case BeginFiber =>
    case DropFinished =>
    case BeginCall(_) =>
    case Yield =>
    case CountDown =>
    case SettleReady(_) =>
    case SettleTerm =>
    case SettleHold =>
  }

  lemma TimeIdleStep(s: State, w: WorkerId, a: IdleStep)
    requires TimeInv(s) && w in s.workers && IdleEnabled(s, w, a)
    ensures TimeInv(IdleApply(s, w, a))
  {
    IdleEffect(s, w, a);
    DueAges(s, IdleApply(s, w, a));
    if a.Flush? {
      assert BodyDue(s, s.timers[a.timer].body);
    }
  }

  lemma TimeCodeStep(s: State, w: WorkerId, a: CodeStep)
    requires TimeInv(s) && CodeEnabled(s, w, a)
    ensures TimeInv(CodeApply(s, w, a))
  {
    CodeEffect(s, w, a);
    DueAges(s, CodeApply(s, w, a));
    match a
    case SpawnFiber(_, _, _) =>
    case SpawnCall(_, _) =>
    case ArmCallback(_) =>
    case CancelSlot(_, _) =>
    case Sleep(_, _) =>
    case MakeReady =>
    case Finish =>
  }

  lemma IoCallsAge(s: State, w: WorkerId, a: IoStep)
    requires TimeInv(s) && IoEnabled(s, w, a)
    ensures CallsAge(s, IoApply(s, w, a))
  {
    hide TimeInv;
    IoEffect(s, w, a);
    match a
    case BeginIo(_, _, _) =>
    case WouldBlock(_) =>
    case _ =>
  }

  /** The calls of a step that adds no timer are sound. */
  lemma IoCallsOk(s: State, w: WorkerId, a: IoStep)
    requires TimeInv(s) && IoEnabled(s, w, a) && !a.WouldBlock?
    ensures var t := IoApply(s, w, a);
      && (forall k :: k in t.calls ==> CallOk(t.calls, t.now, k))
      && (forall slot :: slot in t.slots ==> JobDue(t, t.slots[slot]))
  {
    var t := IoApply(s, w, a);
    IoCallsAge(s, w, a);
    DueAges(s, t);
    match a
    case BeginIo(_, _, _) =>
    case IoReturn =>
    case ArmOk =>
    case FailCleanup =>
    case ReportTimeout =>
    case _ =>
  }

  lemma TimeIoStep(s: State, w: WorkerId, a: IoStep)
    requires TimeInv(s) && IoEnabled(s, w, a)
    ensures TimeInv(IoApply(s, w, a))
  {
    var t := IoApply(s, w, a);
    IoEffect(s, w, a);
    IoCallsAge(s, w, a);
    if a.WouldBlock? {
      TimeBlock(s, t, w, a.timer);
    } else {
      hide IoApply;
      DueAges(s, t);
      IoCallsOk(s, w, a);
      assert ProgDue(t, IoNext(s, w, a));
    }
  }

  /** A new wait: its timer is late enough, and the call's record stays sound. */
  lemma TimeBlock(s: State, t: State, w: WorkerId, timer: TimerId)
    requires TimeInv(s) && IoEnabled(s, w, WouldBlock(timer)) && t == IoApply(s, w, WouldBlock(timer))
    requires CallsAge(s, t)
    ensures TimeInv(t)
  {
    hide IoApply;
    IoEffect(s, w, WouldBlock(timer));
    BlockEffect(s, w, timer);
    DueAges(s, t);
    var k := ProgOf(s, w).call;
    var c := s.calls[k];
    if c.timeout.Some? {
      assert TimerLate(t.calls, t.timers[timer]);
    }
    StartOk(s.calls, s.now, k);
    hide CallOk, StartWait, Due;
    assert forall x :: x in t.calls && x != k ==> CallOk(t.calls, t.now, x);
  }

  lemma StartOk(calls: map<CallId, CallRec>, now: nat, k: CallId)
    requires k in calls && CallOk(calls, now, k)
    ensures var next := calls[k := StartWait(calls[k], now)];
      && CallOk(next, now, k)
      && forall x :: x in calls && x != k && CallOk(calls, now, x) ==> CallOk(next, now, x)
  {
  }

  lemma BlockEffect(s: State, w: WorkerId, timer: TimerId)
    requires IoEnabled(s, w, WouldBlock(timer))
    ensures var t, k := IoApply(s, w, WouldBlock(timer)), ProgOf(s, w).call;
      && t.calls == s.calls[k := StartWait(s.calls[k], s.now)] && t.slots == s.slots
      && t.timers == if s.calls[k].timeout.None? then s.timers
                     else s.timers[timer := TimeoutTimer(s.calls[k], k, s.now)]
  {
  }

  lemma TimeCbStep(s: State, w: WorkerId, a: CbStep)
    requires TimeInv(s) && CbEnabled(s, w, a)
    ensures TimeInv(CbApply(s, w, a))
  {
    CbEffect(s, w, a);
    DueAges(s, CbApply(s, w, a));
    match a
    case WakeSleeper(_) =>
    case TimeoutStale =>
    case TimeoutFresh =>
    case TimeoutMark =>
    case TimeoutTrigger(_) =>
    case TimeoutMiss =>
  }

  lemma TimeOutsideStep(s: State, a: OutsideStep)
    requires TimeInv(s) && OutsideEnabled(s, a)
    ensures TimeInv(OutsideApply(s, a))
  {
    OutsideEffect(s, a);
    DueAges(s, OutsideApply(s, a));
    match a
    case SubmitFiber(_, _, _) =>
    case SubmitCall(_, _) =>
    case SetAutoStop =>
    case SetStopping =>
    case Tick(_) =>
  }

  lemma TimeStep(s: State, step: Step)
    requires TimeInv(s) && HandInv(s) && Enabled(s, step)
    ensures TimeInv(Apply(s, step))
  {
    hide TimeInv, HandInv;
    match step
    case Scanning(w, a) => TimeScanStep(s, w, a);
    case Stacking(w, a) => TimeRunStep(s, w, a);
    case Dispatch(w, a) => TimeIdleStep(s, w, a);
    case Code(w, a) => TimeCodeStep(s, w, a);
    case Hooked(w, a) => TimeIoStep(s, w, a);
    case Callback(w, a) => TimeCbStep(s, w, a);
    case Outside(a) => TimeOutsideStep(s, a);
  }
}
