/** Hooked calls and their timeout timers: which timer belongs to which wait, and that a wait's
    timeout is on its way until it has been marked. */
module WaitSafety {
  import opened Wrappers
  import opened Clock
  import opened Protocol
  import opened Effects
  import opened TaskSafety
  import opened FiberSafety

  /** The hooked call a fiber is in. */
  function CallOf(prog: Prog): Option<CallId> {
    match prog
    case Attempt(k) => Some(k)
    case Arm(k, _) => Some(k)
    case ArmFailed(k, _) => Some(k)
    case WaitYield(k, _) => Some(k)
    case Woken(k, _) => Some(k)
    case CheckCall(k) => Some(k)
    case _ => None
  }

  /** The timer of the wait a fiber is in: from when the call would block until the fiber has
      cancelled it, or failed to wait. */
  function HandleOf(prog: Prog): Option<TimerId> {
    match prog
    case Arm(_, t) => t
    case ArmFailed(_, t) => t
    case WaitYield(_, t) => t
    case Woken(_, t) => t
    case _ => None
  }

  predicate Holds(prog: Prog, k: CallId, t: TimerId) { CallOf(prog) == Some(k) && HandleOf(prog) == Some(t) }

  // ---------------------------------------------------------------------------------------
  // Invariants

  predicate BodyFits(calls: map<CallId, CallRec>, body: Body) {
    body.TimeoutBody? ==> body.call in calls && calls[body.call].slot == body.slot
  }

  predicate JobFits(calls: map<CallId, CallRec>, job: Job) { job.Call? ==> BodyFits(calls, job.body) }

  predicate ProgFits(calls: map<CallId, CallRec>, prog: Prog) {
    (prog.TimeoutDue? || prog.TimeoutSet? || prog.TimeoutCancel?) ==>
      prog.call in calls && calls[prog.call].slot == prog.slot
  }

  /** Every callback of a timeout names its call's own event. */
  ghost predicate FitInv(s: State) {
    && (forall t :: t in s.timers ==> BodyFits(s.calls, s.timers[t].body))
    && (forall id :: id in s.submitted ==> JobFits(s.calls, s.submitted[id].job))
    && (forall slot :: slot in s.slots ==> JobFits(s.calls, s.slots[slot]))
    && (forall f :: f in s.fibers ==> ProgFits(s.calls, s.fibers[f].prog))
  }

  predicate SameCall(s: State, f: FiberId, g: FiberId) {
    && f in s.fibers && g in s.fibers
    && CallOf(s.fibers[f].prog).Some? && CallOf(s.fibers[f].prog) == CallOf(s.fibers[g].prog)
  }

  /** A call in progress is one fiber's, and has no result yet. */
  ghost predicate CallInv(s: State) {
    && (forall f :: f in s.fibers && CallOf(s.fibers[f].prog).Some? ==>
          var k := CallOf(s.fibers[f].prog).value; k in s.calls && s.calls[k].result == Pending)
    && (forall f, g :: SameCall(s, f, g) ==> f == g)
  }

  ghost predicate InCallBy(s: State, f: FiberId, k: CallId) {
    f in s.fibers && CallOf(s.fibers[f].prog) == Some(k)
  }

  /** A call without a result is in progress. */
  ghost predicate OpenInv(s: State) {
    forall k :: k in s.calls && s.calls[k].result == Pending ==> exists f :: InCallBy(s, f, k)
  }

  /** The timer a fiber holds is one of its call's. */
  ghost predicate HoldInv(s: State) {
    forall f :: f in s.fibers && HandleOf(s.fibers[f].prog).Some? ==>
      var t, k := HandleOf(s.fibers[f].prog).value, CallOf(s.fibers[f].prog);
      && k.Some? && k.value in s.calls && t in s.timers
      && s.timers[t].body == TimeoutBody(k.value, s.calls[k.value].slot)
  }

  ghost predicate OwnedBy(s: State, t: TimerId, f: FiberId, k: CallId) {
    f in s.fibers && Holds(s.fibers[f].prog, k, t)
  }

  /** No timeout timer in the manager outlives its wait. */
  ghost predicate OwnInv(s: State) {
    forall t :: t in s.index && t in s.timers && s.timers[t].body.TimeoutBody? ==>
      exists f :: OwnedBy(s, t, f, s.timers[t].body.call)
  }

  /** An expired timer in a worker's hands is queued before the worker does anything else. */
  ghost predicate HandsInv(s: State) {
    forall t :: t in s.taken ==> t in s.timers && s.taken[t] in s.workers && s.workers[s.taken[t]].pc == Idle
  }

  /** A deadline of the call that overflowed did so before its result. */
  predicate WrapOk(c: CallRec, now: nat) {
    c.wrapped && !c.result.Returned? ==>
      && c.timeout.Some?
      && CLOCK_MODULUS <= c.timeout.value + (if c.result.TimedOut? then c.result.at else now)
  }

  ghost predicate WrapInv(s: State) { forall k :: k in s.calls ==> WrapOk(s.calls[k], s.now) }

  /** A queued or dequeued callback of this call's timeouts. */
  ghost predicate Queued(s: State, id: TaskId, k: CallId) {
    && Live(s, id) && s.submitted[id].job.Call?
    && s.submitted[id].job.body.TimeoutBody? && s.submitted[id].job.body.call == k
  }

  /** A callback of this call's timeouts that has yet to mark it. */
  predicate Checking(prog: Prog, k: CallId) {
    (prog.TimeoutDue? || prog.TimeoutSet?) && prog.call == k
  }

  ghost predicate CheckedBy(s: State, c: FiberId, k: CallId) { c in s.fibers && Checking(s.fibers[c].prog, k) }

  /** The timeout of a wait is on its way: its timer is in the manager or in a dispatcher's hands,
      or a callback of the call's timeouts is queued or running. */
  ghost predicate OnItsWay(s: State, k: CallId, t: TimerId) {
    || t in s.index || t in s.taken
    || (exists id :: Queued(s, id, k))
    || (exists c :: CheckedBy(s, c, k))
  }

  /** As long as the call is not marked. */
  ghost predicate ComingInv(s: State) {
    forall f, k, t :: OwnedBy(s, t, f, k) && k in s.calls && !s.calls[k].cancelled ==> OnItsWay(s, k, t)
  }

  ghost predicate WaitInv(s: State) {
    && FitInv(s) && CallInv(s) && OpenInv(s) && HoldInv(s)
    && OwnInv(s) && HandsInv(s) && WrapInv(s) && ComingInv(s)
  }

  lemma WaitInit(s: State)
    requires Init(s)
    ensures WaitInv(s)
  {
  }

  // ---------------------------------------------------------------------------------------
  // Steps that touch no call

  function ProgAt(s: State, f: FiberId): Prog { if f in s.fibers then s.fibers[f].prog else User }

  /** Every fiber is in the call, and holds the timer, it was in and held before. */
  ghost predicate SameCalls(s: State, t: State) {
    && s.fibers.Keys <= t.fibers.Keys
    && forall f :: CallOf(ProgAt(t, f)) == CallOf(ProgAt(s, f)) && HandleOf(ProgAt(t, f)) == HandleOf(ProgAt(s, f))
  }

  /** The records are as before but for the mark. */
  ghost predicate SameRecords(s: State, t: State) {
    && t.calls.Keys == s.calls.Keys && s.now <= t.now
    && forall k :: k in s.calls ==>
         t.calls[k] == s.calls[k] || t.calls[k] == s.calls[k].(cancelled := true)
  }

  ghost predicate TimersGrow(s: State, t: State) {
    forall x :: x in s.timers ==> x in t.timers && t.timers[x] == s.timers[x]
  }

  lemma CallsKept(s: State, t: State)
    requires CallInv(s) && HoldInv(s) && WrapInv(s)
    requires SameCalls(s, t) && SameRecords(s, t) && TimersGrow(s, t)
    ensures CallInv(t) && HoldInv(t) && WrapInv(t)
  {
    ProgsOf(s, t);
    hide SameCalls;
    assert WrapInv(t) by {
      hide CallInv, HoldInv;
    }
    hide WrapInv, WrapOk;
    assert forall f, g :: SameCall(t, f, g) ==> SameCall(s, f, g);
    hide SameCall;
    assert CallInv(t) by {
      hide HoldInv;
    }
    hide CallInv;
  }

  lemma ProgsOf(s: State, t: State)
    requires SameCalls(s, t)
    ensures forall f :: f in s.fibers ==>
      && f in t.fibers && CallOf(t.fibers[f].prog) == CallOf(s.fibers[f].prog)
      && HandleOf(t.fibers[f].prog) == HandleOf(s.fibers[f].prog)
    ensures forall f :: f in t.fibers && f !in s.fibers ==>
      CallOf(t.fibers[f].prog).None? && HandleOf(t.fibers[f].prog).None?
  {
    assert forall f :: f in t.fibers ==> ProgAt(t, f) == t.fibers[f].prog;
    assert forall f :: f in s.fibers ==> ProgAt(s, f) == s.fibers[f].prog;
    assert forall f :: f !in s.fibers ==> ProgAt(s, f) == User;
  }

  lemma OpenKept(s: State, t: State)
    requires OpenInv(s) && SameCalls(s, t) && SameRecords(s, t)
    ensures OpenInv(t)
  {
    ProgsOf(s, t);
    hide SameCalls, CallOf;
    forall k | k in t.calls && t.calls[k].result == Pending ensures exists f :: InCallBy(t, f, k) {
      var f :| InCallBy(s, f, k);
      assert InCallBy(t, f, k);
    }
  }

  lemma OwnKept(s: State, t: State)
    requires OwnInv(s) && HandleInv(s) && SameCalls(s, t) && TimersGrow(s, t)
    requires forall x :: x in t.index && x in t.timers && t.timers[x].body.TimeoutBody? ==> x in s.index
    ensures OwnInv(t)
  {
    forall x | x in t.index && x in t.timers && t.timers[x].body.TimeoutBody?
      ensures exists f :: OwnedBy(t, x, f, t.timers[x].body.call)
    {
      var k := s.timers[x].body.call;
      var f :| OwnedBy(s, x, f, k);
      assert ProgAt(t, f) == t.fibers[f].prog && ProgAt(s, f) == s.fibers[f].prog;
      assert OwnedBy(t, x, f, k);
    }
  }

  /** A timer of an unmarked call in progress. */
  ghost predicate Pends(s: State, t: State, k: CallId, x: TimerId) {
    && k in s.calls && k in t.calls && s.calls[k].result == Pending && !t.calls[k].cancelled
    && x in s.timers && s.timers[x].body.TimeoutBody? && s.timers[x].body.call == k
  }

  /** What was on its way for an unmarked call still is. */
  lemma ComingKept(s: State, t: State)
    requires ComingInv(s) && CallInv(s) && HoldInv(s) && SameCalls(s, t) && SameRecords(s, t)
    requires forall k, x :: Pends(s, t, k, x) && OnItsWay(s, k, x) ==> OnItsWay(t, k, x)
    ensures ComingInv(t)
  {
    forall f, k, x | OwnedBy(t, x, f, k) && k in t.calls && !t.calls[k].cancelled
      ensures OnItsWay(t, k, x)
    {
      assert ProgAt(t, f) == t.fibers[f].prog;
      assert f in s.fibers && ProgAt(s, f) == s.fibers[f].prog;
      assert OwnedBy(s, x, f, k);
      assert Pends(s, t, k, x);
    }
  }

  lemma SameFibers(s: State, t: State)
    requires t.fibers == s.fibers
    ensures SameCalls(s, t)
  {
  }

  /** A timeout on its way stays so if its timer stays put, and queued and running callbacks do. */
  lemma WayKept(s: State, t: State)
    requires s.index <= t.index && s.taken.Keys <= t.taken.Keys && t.begun == s.begun
    requires forall id :: id in s.submitted ==> id in t.submitted && t.submitted[id] == s.submitted[id]
    requires forall c, k :: CheckedBy(s, c, k) ==> CheckedBy(t, c, k)
    ensures forall k, x :: OnItsWay(s, k, x) ==> OnItsWay(t, k, x)
  {
    forall k, x | OnItsWay(s, k, x) ensures OnItsWay(t, k, x) {
      if id :| Queued(s, id, k) {
        assert Queued(t, id, k);
      } else if c :| CheckedBy(s, c, k) {
        assert CheckedBy(t, c, k);
      }
    }
  }

  lemma ScanFits(s: State, w: WorkerId, a: ScanStep)
    requires FitInv(s) && HandsInv(s) && w in s.workers && ScanEnabled(s, w, a)
    ensures FitInv(ScanApply(s, w, a)) && HandsInv(ScanApply(s, w, a))
  {
    ScanEffect(s, w, a);
  }

  lemma OutsideFits(s: State, a: OutsideStep)
    requires FitInv(s) && HandsInv(s) && OutsideEnabled(s, a)
    ensures FitInv(OutsideApply(s, a)) && HandsInv(OutsideApply(s, a))
  {
    OutsideEffect(s, a);
  }

  lemma IdleFits(s: State, w: WorkerId, a: IdleStep)
    requires FitInv(s) && HandsInv(s) && HandleInv(s) && w in s.workers && IdleEnabled(s, w, a)
    ensures FitInv(IdleApply(s, w, a)) && HandsInv(IdleApply(s, w, a))
  {
    IdleEffect(s, w, a);
  }

  lemma WaitScanStep(s: State, w: WorkerId, a: ScanStep)
    requires WaitInv(s) && HandleInv(s) && w in s.workers && ScanEnabled(s, w, a)
    ensures WaitInv(ScanApply(s, w, a))
  {
    hide FitInv, CallInv, OpenInv, HoldInv, OwnInv, HandsInv, WrapInv, ComingInv, HandleInv;
    var t := ScanApply(s, w, a);
    ScanEffect(s, w, a);
    SameFibers(s, t);
    ScanFits(s, w, a);
    CallsKept(s, t);
    OpenKept(s, t);
    OwnKept(s, t);
    WayKept(s, t);
    ComingKept(s, t);
  }

  lemma WaitOutsideStep(s: State, a: OutsideStep)
    requires WaitInv(s) && HandleInv(s) && OutsideEnabled(s, a)
    ensures WaitInv(OutsideApply(s, a))
  {
    hide FitInv, CallInv, OpenInv, HoldInv, OwnInv, HandsInv, WrapInv, ComingInv, HandleInv;
    var t := OutsideApply(s, a);
    OutsideEffect(s, a);
    assert SameCalls(s, t);
    OutsideFits(s, a);
    assert forall c, k :: CheckedBy(s, c, k) ==> CheckedBy(t, c, k);
    CallsKept(s, t);
    OpenKept(s, t);
    OwnKept(s, t);
    WayKept(s, t);
    ComingKept(s, t);
  }

  lemma WaitIdleStep(s: State, w: WorkerId, a: IdleStep)
    requires WaitInv(s) && HandleInv(s) && TaskInv(s) && w in s.workers && IdleEnabled(s, w, a)
    ensures WaitInv(IdleApply(s, w, a))
  {
    hide FitInv, CallInv, OpenInv, HoldInv, OwnInv, HandsInv, WrapInv, ComingInv, HandleInv;
    var t := IdleApply(s, w, a);
    IdleEffect(s, w, a);
    SameFibers(s, t);
    IdleFits(s, w, a);
    assert forall x :: x in t.index ==> x in s.index;
    CallsKept(s, t);
    OpenKept(s, t);
    OwnKept(s, t);
    IdleWay(s, w, a);
    ComingKept(s, t);
  }

  lemma IdleWay(s: State, w: WorkerId, a: IdleStep)
    requires TaskInv(s) && w in s.workers && IdleEnabled(s, w, a)
    ensures var t := IdleApply(s, w, a);
      forall k, x :: Pends(s, t, k, x) && OnItsWay(s, k, x) ==> OnItsWay(t, k, x)
  {
    var t := IdleApply(s, w, a);
    IdleEffect(s, w, a);
    forall k, x | Pends(s, t, k, x) && OnItsWay(s, k, x) ensures OnItsWay(t, k, x) {
      if id :| Queued(s, id, k) {
        assert Queued(t, id, k);
      } else if c :| CheckedBy(s, c, k) {
        assert CheckedBy(t, c, k);
      } else if a.Flush? && a.timer == x {
        assert a.id !in s.begun;
        assert Queued(t, a.id, k);
      }
    }
  }

  lemma WaitCodeStep(s: State, w: WorkerId, a: CodeStep)
    requires WaitInv(s) && HandleInv(s) && CodeEnabled(s, w, a)
    ensures WaitInv(CodeApply(s, w, a))
  {
    hide FitInv, CallInv, OpenInv, HoldInv, OwnInv, HandsInv, WrapInv, ComingInv, HandleInv;
    var t := CodeApply(s, w, a);
    CodeEffect(s, w, a);
    CodeFits(s, w, a);
    CodeCalls(s, w, a);
    assert TimersGrow(s, t);
    CallsKept(s, t);
    OpenKept(s, t);
    OwnKept(s, t);
    WayKept(s, t);
    ComingKept(s, t);
  }

  lemma CodeFits(s: State, w: WorkerId, a: CodeStep)
    requires FitInv(s) && HandsInv(s) && CodeEnabled(s, w, a)
    ensures FitInv(CodeApply(s, w, a)) && HandsInv(CodeApply(s, w, a))
  {
    CodeEffect(s, w, a);
    match a
    case SpawnFiber(_, _, _) =>
    case SpawnCall(_, _) =>
    case ArmCallback(_) =>
    case CancelSlot(_, _) =>
    case Sleep(_, _) =>
    case MakeReady =>
    case Finish =>
  }

  /** Code outside hooked calls is in no call, and neither begins nor ends a check. */
  lemma CodeCalls(s: State, w: WorkerId, a: CodeStep)
    requires CodeEnabled(s, w, a)
    ensures var t := CodeApply(s, w, a);
      SameCalls(s, t) && forall c, k :: CheckedBy(s, c, k) ==> CheckedBy(t, c, k)
    ensures var t := CodeApply(s, w, a);
      && s.index <= t.index
      && forall x :: x in t.index && x in t.timers && t.timers[x].body.TimeoutBody? ==> x in s.index
  {
    match a
    case SpawnFiber(_, _, _) =>
    case SpawnCall(_, _) =>
    case ArmCallback(_) =>
    case CancelSlot(_, _) =>
    case Sleep(_, _) =>
    case MakeReady =>
    case Finish =>
  }

  lemma WaitRunStep(s: State, w: WorkerId, a: RunStep)
    requires WaitInv(s) && FiberInv(s) && w in s.workers && RunEnabled(s, w, a)
    ensures WaitInv(RunApply(s, w, a))
  {
    hide FitInv, CallInv, OpenInv, HoldInv, OwnInv, HandsInv, WrapInv, ComingInv;
    hide HandleInv, TaskInv, StackInv, SpareInv, ResumeInv, TokenInv;
    var t := RunApply(s, w, a);
    RunCalls(s, w, a);
    RunFits(s, w, a);
    RunWay(s, w, a);
    RunEffect(s, w, a);
    hide RunApply, RunEnabled;
    CallsKept(s, t);
    OpenKept(s, t);
    OwnKept(s, t);
    ComingKept(s, t);
  }

  /** One fiber's program moved on, within its call and its check if it was in one. */
  lemma OneMoved(s: State, t: State, f: FiberId)
    requires f in t.fibers && t.fibers == s.fibers[f := t.fibers[f]]
    requires CallOf(t.fibers[f].prog) == CallOf(ProgAt(s, f)) && HandleOf(t.fibers[f].prog) == HandleOf(ProgAt(s, f))
    requires forall k :: Checking(ProgAt(s, f), k) ==> Checking(t.fibers[f].prog, k)
    ensures SameCalls(s, t) && forall c, k :: CheckedBy(s, c, k) ==> CheckedBy(t, c, k)
  {
    hide CallOf, HandleOf, Checking;
  }

  /** A fiber that is resumed is in the call it was in; one that runs a callback is in none. */
  lemma RunCalls(s: State, w: WorkerId, a: RunStep)
    requires FiberInv(s) && w in s.workers && RunEnabled(s, w, a)
    ensures var t := RunApply(s, w, a);
      SameCalls(s, t) && forall c, k :: CheckedBy(s, c, k) ==> CheckedBy(t, c, k)
  {
    hide FiberInv, SameCalls, CheckedBy;
    RunProgs(s, w, a);
    var t := RunApply(s, w, a);
    if a.BeginFiber? {
      OneMoved(s, t, s.workers[w].pc.task.job.fiber);
    } else if a.BeginCall? {
      OneMoved(s, t, a.runner);
    } else if a.SettleTerm? || a.SettleHold? {
      OneMoved(s, t, s.workers[w].pc.fiber);
    } else {
      SameFibers(s, t);
      SameChecks(s, t);
    }
  }

  lemma SameChecks(s: State, t: State)
    requires t.fibers == s.fibers
    ensures forall c, k :: CheckedBy(s, c, k) ==> CheckedBy(t, c, k)
  {
  }

  /** The fibers a running step changes, and from what to what: only a wait is ever resumed, and what
      begins a callback or is finished is in no call. */
  lemma RunProgs(s: State, w: WorkerId, a: RunStep)
    requires FiberInv(s) && w in s.workers && RunEnabled(s, w, a)
    ensures var t := RunApply(s, w, a);
      match a
      case BeginFiber =>
        var f := s.workers[w].pc.task.job.fiber;
        t.fibers == s.fibers[f := Fiber(EXEC, Resumed(s.fibers[f].prog))] && RestOk(s.fibers[f])
        && s.fibers[f].state != EXEC
      case BeginCall(c) =>
        t.fibers == s.fibers[c := Fiber(EXEC, StartOf(s.workers[w].pc.task.job.body))]
        && (ProgAt(s, c) == User || ProgAt(s, c) == Done)
      case SettleTerm =>
        var f := s.workers[w].pc.fiber;
        s.fibers[f].prog == Ended && t.fibers == s.fibers[f := t.fibers[f]]
        && (t.fibers[f].prog == Ended || t.fibers[f].prog == Done)
      case SettleHold =>
        var f := s.workers[w].pc.fiber;
        t.fibers == s.fibers[f := t.fibers[f]] && t.fibers[f].prog == s.fibers[f].prog
      case _ => t.fibers == s.fibers
  {
    hide TaskInv, TokenInv, HandleInv, StackInv;
    match a
    case BeginFiber =>
    case DropFinished =>
    case BeginCall(c) =>
      RunnerResting(s, w, c);
    case Yield =>
    case CountDown =>
    case SettleReady(_) =>
    case SettleTerm =>
      assert RestOk(s.fibers[s.workers[w].pc.fiber]);
    case SettleHold =>
  }

  lemma RunnerResting(s: State, w: WorkerId, c: FiberId)
    requires FiberInv(s) && w in s.workers && s.workers[w].pc.Took?
    requires if s.workers[w].spare.Some? then c == s.workers[w].spare.value else c !in s.fibers
    ensures ProgAt(s, c) == User || ProgAt(s, c) == Done
  {
    RunnerIsFree(s, w, c);
    assert c in s.fibers ==> RestOk(s.fibers[c]);
  }

  lemma RunFits(s: State, w: WorkerId, a: RunStep)
    requires FitInv(s) && HandsInv(s) && FiberInv(s) && w in s.workers && RunEnabled(s, w, a)
    ensures FitInv(RunApply(s, w, a)) && HandsInv(RunApply(s, w, a))
  {
    hide StackInv, SpareInv, ResumeInv, TokenInv, HandleInv;
    var t := RunApply(s, w, a);
    RunEffect(s, w, a);
    RunProgsFit(s, w, a);
    hide RunApply;
  }

  lemma RunProgsFit(s: State, w: WorkerId, a: RunStep)
    requires FitInv(s) && TaskInv(s) && w in s.workers && RunEnabled(s, w, a)
    ensures var t := RunApply(s, w, a); forall f :: f in t.fibers ==> ProgFits(s.calls, t.fibers[f].prog)
  {
    match a
    case BeginFiber =>
    case DropFinished =>
    case BeginCall(_) =>
      assert JobFits(s.calls, s.submitted[s.workers[w].pc.task.id].job);
    case Yield =>
    case CountDown =>
    case SettleReady(_) =>
    case SettleTerm =>
    case SettleHold =>
  }

  /** A callback that a worker begins is on its way as the fiber that runs it. */
  lemma RunWay(s: State, w: WorkerId, a: RunStep)
    requires FiberInv(s) && w in s.workers && RunEnabled(s, w, a)
    ensures var t := RunApply(s, w, a); forall k, x :: OnItsWay(s, k, x) ==> OnItsWay(t, k, x)
  {
    hide StackInv, SpareInv, ResumeInv, TokenInv, HandleInv;
    var t := RunApply(s, w, a);
    RunCalls(s, w, a);
    RunEffect(s, w, a);
    forall k, x | OnItsWay(s, k, x) ensures OnItsWay(t, k, x) {
      if id :| Queued(s, id, k) {
        if Begins(a) && id == s.workers[w].pc.task.id {
          BegunChecks(s, w, a, k);
        } else {
          assert Queued(t, id, k);
        }
      } else if c :| CheckedBy(s, c, k) {
        assert CheckedBy(t, c, k);
      }
    }
  }

  lemma BegunChecks(s: State, w: WorkerId, a: RunStep, k: CallId)
    requires TaskInv(s) && w in s.workers && RunEnabled(s, w, a) && Begins(a)
    requires s.workers[w].pc.Took? && Queued(s, s.workers[w].pc.task.id, k)
    ensures exists c :: CheckedBy(RunApply(s, w, a), c, k)
  {
    assert s.submitted[s.workers[w].pc.task.id] == s.workers[w].pc.task;
    assert a.BeginCall?;
    assert CheckedBy(RunApply(s, w, a), a.runner, k);
  }

  lemma WaitCbStep(s: State, w: WorkerId, a: CbStep)
    requires WaitInv(s) && HandleInv(s) && CbEnabled(s, w, a)
    ensures WaitInv(CbApply(s, w, a))
  {
    hide FitInv, CallInv, OpenInv, HoldInv, OwnInv, HandsInv, WrapInv, ComingInv, HandleInv;
    var t := CbApply(s, w, a);
    CbEffect(s, w, a);
    CbFits(s, w, a);
    CbCalls(s, w, a);
    CbWay(s, w, a);
    hide CbApply, CbEnabled;
    CallsKept(s, t);
    OpenKept(s, t);
    OwnKept(s, t);
    ComingKept(s, t);
  }

  lemma CbCalls(s: State, w: WorkerId, a: CbStep)
    requires CbEnabled(s, w, a)
    ensures SameCalls(s, CbApply(s, w, a)) && SameRecords(s, CbApply(s, w, a))
  {
    match a
    case WakeSleeper(_) =>
    case TimeoutStale =>
    case TimeoutFresh =>
    case TimeoutMark =>
    case TimeoutTrigger(_) =>
    case TimeoutMiss =>
  }

  lemma CbFits(s: State, w: WorkerId, a: CbStep)
    requires FitInv(s) && HandsInv(s) && CbEnabled(s, w, a)
    ensures FitInv(CbApply(s, w, a)) && HandsInv(CbApply(s, w, a))
  {
    CbEffect(s, w, a);
    CbCalls(s, w, a);
    match a
    case WakeSleeper(_) =>
    case TimeoutStale =>
    case TimeoutFresh =>
    case TimeoutMark =>
    case TimeoutTrigger(_) =>
    case TimeoutMiss =>
  }

  /** A callback gives up only for a call that has its result or its mark. */
  lemma CbWay(s: State, w: WorkerId, a: CbStep)
    requires CbEnabled(s, w, a)
    ensures var t := CbApply(s, w, a);
      forall k, x :: Pends(s, t, k, x) && OnItsWay(s, k, x) ==> OnItsWay(t, k, x)
  {
    var t := CbApply(s, w, a);
    CbEffect(s, w, a);
    forall k, x | Pends(s, t, k, x) && OnItsWay(s, k, x) ensures OnItsWay(t, k, x) {
      if id :| Queued(s, id, k) {
        assert Queued(t, id, k);
      } else if c :| CheckedBy(s, c, k) {
        assert CheckedBy(t, c, k);
      }
    }
  }

  // ---------------------------------------------------------------------------------------
  // Steps of a hooked call

  /** The running fiber moves on within its call, enters one, or leaves it; no other fiber does. */
  ghost predicate Moved(s: State, t: State, f: FiberId, prog: Prog) {
    && f in s.fibers && t.fibers.Keys == s.fibers.Keys && t.fibers[f].prog == prog
    && forall g :: g in s.fibers && g != f ==> t.fibers[g] == s.fibers[g]
  }

  lemma IoMoved(s: State, w: WorkerId, a: IoStep)
    requires IoEnabled(s, w, a)
    ensures Moved(s, IoApply(s, w, a), s.workers[w].pc.fiber, IoNext(s, w, a))
  {
    IoEffect(s, w, a);
  }

  /** The record of the one call the step is about. */
  function IoCall(s: State, w: WorkerId, a: IoStep): CallId
    requires IoEnabled(s, w, a)
  {
    if a.BeginIo? then a.call
    else if CallOf(ProgOf(s, w)).Some? then CallOf(ProgOf(s, w)).value
    else 0
  }

  /** Which call the fiber is in before and after, and what becomes of the record. */
  lemma IoRecords(s: State, w: WorkerId, a: IoStep)
    requires IoEnabled(s, w, a) && CallInv(s)
    ensures var t, k := IoApply(s, w, a), IoCall(s, w, a);
      && (if a.BeginIo? then CallOf(ProgOf(s, w)).None? && k !in s.calls
          else CallOf(ProgOf(s, w)) == Some(k) && k in s.calls && s.calls[k].result == Pending)
      && k in t.calls && t.calls == s.calls[k := t.calls[k]]
      && (a.BeginIo? ==> !t.calls[k].wrapped)
      && (!a.BeginIo? ==> t.calls[k].slot == s.calls[k].slot && t.calls[k].cancelled == s.calls[k].cancelled
                          && t.calls[k].timeout == s.calls[k].timeout)
      && (if a.IoReturn? || a.FailCleanup? || a.ReportTimeout? then
            CallOf(IoNext(s, w, a)).None? && t.calls[k].result != Pending
          else CallOf(IoNext(s, w, a)) == Some(k) && t.calls[k].result == Pending)
  {
    hide CallInv;
    InCall(s, w);
    match a
    case BeginIo(_, _, _) =>
    case IoReturn =>
    case WouldBlock(_) =>
    case ArmOk =>
    case ArmFail =>
    case FailCleanup =>
    case StopTimer =>
    case ReportTimeout =>
    case Retry =>
  }

  lemma InCall(s: State, w: WorkerId)
    requires CallInv(s) && RunsOn(s, w)
    ensures CallOf(ProgOf(s, w)).Some? ==>
      var k := CallOf(ProgOf(s, w)).value; k in s.calls && s.calls[k].result == Pending
  {
  }

  lemma IoCallInv(s: State, w: WorkerId, a: IoStep)
    requires CallInv(s) && IoEnabled(s, w, a)
    ensures CallInv(IoApply(s, w, a))
  {
    IoRecords(s, w, a);
    IoMoved(s, w, a);
    var t, f := IoApply(s, w, a), s.workers[w].pc.fiber;
    hide IoApply, IoEnabled, CallOf, IoNext;
    assert ProgOf(s, w) == s.fibers[f].prog;
    forall g | g in s.fibers && g != f && CallOf(s.fibers[g].prog).Some?
      ensures CallOf(s.fibers[g].prog) != Some(IoCall(s, w, a))
    {
      assert SameCall(s, g, f) ==> g == f;
    }
    forall g, h | SameCall(t, g, h) ensures g == h {
      assert g != f && h != f ==> SameCall(s, g, h);
    }
  }

  lemma IoOpen(s: State, w: WorkerId, a: IoStep)
    requires CallInv(s) && OpenInv(s) && IoEnabled(s, w, a)
    ensures OpenInv(IoApply(s, w, a))
  {
    IoRecords(s, w, a);
    IoMoved(s, w, a);
    hide CallInv, IoApply, IoEnabled, CallOf, IoNext;
    var t, f, l := IoApply(s, w, a), s.workers[w].pc.fiber, IoCall(s, w, a);
    forall k | k in t.calls && t.calls[k].result == Pending ensures exists g :: InCallBy(t, g, k) {
      if k == l {
        assert InCallBy(t, f, k);
      } else {
        var g :| InCallBy(s, g, k);
        assert InCallBy(t, g, k);
      }
    }
  }

  lemma IoWrap(s: State, w: WorkerId, a: IoStep)
    requires CallInv(s) && WrapInv(s) && IoEnabled(s, w, a)
    ensures WrapInv(IoApply(s, w, a))
  {
    InCall(s, w);
    hide CallInv;
    IoEffect(s, w, a);
    match a
    case BeginIo(_, _, _) =>
    case IoReturn =>
    case WouldBlock(_) =>
    case ArmOk =>
    case ArmFail =>
    case FailCleanup =>
    case StopTimer =>
    case ReportTimeout =>
    case Retry =>
  }

  /** What fits its call still does when the calls' events stay what they are. */
  lemma FitsKept(s: State, t: State)
    requires FitInv(s)
    requires forall k :: k in s.calls ==> k in t.calls && t.calls[k].slot == s.calls[k].slot
    ensures forall x :: x in s.timers ==> BodyFits(t.calls, s.timers[x].body)
    ensures forall id :: id in s.submitted ==> JobFits(t.calls, s.submitted[id].job)
    ensures forall slot :: slot in s.slots ==> JobFits(t.calls, s.slots[slot])
    ensures forall f :: f in s.fibers ==> ProgFits(t.calls, s.fibers[f].prog)
  {
  }

  lemma IoFits(s: State, w: WorkerId, a: IoStep)
    requires CallInv(s) && FitInv(s) && IoEnabled(s, w, a)
    ensures FitInv(IoApply(s, w, a))
  {
    IoRecords(s, w, a);
    hide CallInv, FitInv, IoApply, IoEnabled;
    IoTimers(s, w, a);
    IoEffect(s, w, a);
    NoCheck(s, w, a);
    hide IoNext, CallOf, HandleOf;
    var t, f := IoApply(s, w, a), s.workers[w].pc.fiber;
    FitsKept(s, t);
    assert JobFits(t.calls, Resume(f));
    FitsAll(t);
  }

  lemma FitsAll(t: State)
    requires forall x :: x in t.timers ==> BodyFits(t.calls, t.timers[x].body)
    requires forall id :: id in t.submitted ==> JobFits(t.calls, t.submitted[id].job)
    requires forall slot :: slot in t.slots ==> JobFits(t.calls, t.slots[slot])
    requires forall f :: f in t.fibers ==> ProgFits(t.calls, t.fibers[f].prog)
    ensures FitInv(t)
  {
  }

  lemma NoCheck(s: State, w: WorkerId, a: IoStep)
    requires IoEnabled(s, w, a)
    ensures ProgFits(map[], IoNext(s, w, a)) && !IoNext(s, w, a).TimeoutDue?
    ensures !IoNext(s, w, a).TimeoutSet? && !IoNext(s, w, a).TimeoutCancel?
  {
  }

  lemma IoHands(s: State, w: WorkerId, a: IoStep)
    requires HandsInv(s) && IoEnabled(s, w, a)
    ensures HandsInv(IoApply(s, w, a))
  {
    IoTimers(s, w, a);
    IoEffect(s, w, a);
    hide IoApply;
  }

  /** A timer that a step adds is a new one, of the call and for its event. */
  lemma IoTimers(s: State, w: WorkerId, a: IoStep)
    requires IoEnabled(s, w, a)
    ensures var t := IoApply(s, w, a);
      && TimersGrow(s, t)
      && (forall x :: x in t.timers && x !in s.timers ==>
            && a.WouldBlock? && x == a.timer && HandleOf(IoNext(s, w, a)) == Some(x)
            && t.timers[x].body == TimeoutBody(IoCall(s, w, a), s.calls[IoCall(s, w, a)].slot))
      && (forall x :: x in t.index && x !in s.index ==> x in t.timers && x !in s.timers)
      && (forall x :: x in s.index && x !in t.index ==>
            HandleOf(ProgOf(s, w)) == Some(x) && HandleOf(IoNext(s, w, a)).None?)
      && (HandleOf(IoNext(s, w, a)).Some? ==>
            if a.WouldBlock? then HandleOf(IoNext(s, w, a)).value in t.index
            else HandleOf(IoNext(s, w, a)) == HandleOf(ProgOf(s, w)))
      && (HandleOf(ProgOf(s, w)).Some? && HandleOf(IoNext(s, w, a)) != HandleOf(ProgOf(s, w)) ==>
            HandleOf(ProgOf(s, w)).value !in t.index)
      && (forall slot :: slot in t.slots ==>
            (slot in s.slots && t.slots[slot] == s.slots[slot]) || t.slots[slot] == Resume(s.workers[w].pc.fiber))
  {
    match a
    case BeginIo(_, _, _) =>
    case IoReturn =>
    case WouldBlock(_) =>
    case ArmOk =>
    case ArmFail =>
    case FailCleanup =>
    case StopTimer =>
    case ReportTimeout =>
    case Retry =>
  }

  lemma IoHold(s: State, w: WorkerId, a: IoStep)
    requires CallInv(s) && HoldInv(s) && IoEnabled(s, w, a)
    ensures HoldInv(IoApply(s, w, a))
  {
    IoRecords(s, w, a);
    IoMoved(s, w, a);
    IoTimers(s, w, a);
    IoHandles(s, w, a);
    hide CallInv, IoApply, IoEnabled, CallOf, HandleOf, IoNext;
  }

  lemma IoHandles(s: State, w: WorkerId, a: IoStep)
    requires IoEnabled(s, w, a)
    ensures HandleOf(IoNext(s, w, a)).Some? ==> CallOf(IoNext(s, w, a)).Some?
    ensures HandleOf(IoNext(s, w, a)).Some? && a.WouldBlock? ==>
      HandleOf(IoNext(s, w, a)).value == a.timer && a.timer !in s.timers && a.timer in IoApply(s, w, a).timers
  {
  }

  /** Two fibers do not hold one timer. */
  lemma HeldOnce(s: State, f: FiberId, g: FiberId)
    requires CallInv(s) && HoldInv(s) && f in s.fibers && g in s.fibers
    requires HandleOf(s.fibers[f].prog).Some? && HandleOf(s.fibers[f].prog) == HandleOf(s.fibers[g].prog)
    ensures f == g
  {
    assert SameCall(s, f, g);
  }

  /** A timeout timer in the manager is one fiber's, and of the call it is in. */
  lemma OwnedOnce(s: State, t: TimerId) returns (f: FiberId)
    requires CallInv(s) && HoldInv(s) && OwnInv(s) && t in s.index && t in s.timers && s.timers[t].body.TimeoutBody?
    ensures OwnedBy(s, t, f, s.timers[t].body.call)
    ensures forall g, k :: OwnedBy(s, t, g, k) ==> g == f && k == s.timers[t].body.call
  {
    hide HoldInv, CallInv;
    var k := s.timers[t].body.call;
    f :| OwnedBy(s, t, f, k);
    forall g, l | OwnedBy(s, t, g, l) ensures g == f && l == k {
      HeldOnce(s, f, g);
    }
  }

  lemma IoOwn(s: State, w: WorkerId, a: IoStep)
    requires CallInv(s) && HoldInv(s) && OwnInv(s) && HandleInv(s) && IoEnabled(s, w, a)
    ensures OwnInv(IoApply(s, w, a))
  {
    IoRecords(s, w, a);
    IoMoved(s, w, a);
    IoTimers(s, w, a);
    IoHandles(s, w, a);
    var t, f := IoApply(s, w, a), s.workers[w].pc.fiber;
    forall x | x in t.index && x in t.timers && t.timers[x].body.TimeoutBody?
      ensures exists g :: OwnedBy(t, x, g, t.timers[x].body.call)
    {
      var k := t.timers[x].body.call;
      if x in s.timers {
        var g :| OwnedBy(s, x, g, k);
        assert OwnedBy(t, x, g, k);
      } else {
        assert OwnedBy(t, x, f, k);
      }
    }
  }

  lemma IoComing(s: State, w: WorkerId, a: IoStep)
    requires CallInv(s) && HoldInv(s) && ComingInv(s) && IoEnabled(s, w, a)
    ensures ComingInv(IoApply(s, w, a))
  {
    IoRecords(s, w, a);
    IoMoved(s, w, a);
    IoTimers(s, w, a);
    IoEffect(s, w, a);
    var t, f := IoApply(s, w, a), s.workers[w].pc.fiber;
    assert ProgOf(s, w) == s.fibers[f].prog;
    forall g: FiberId, k: CallId, x: TimerId | OwnedBy(t, x, g, k) && k in t.calls && !t.calls[k].cancelled
      ensures OnItsWay(t, k, x)
    {
      if g == f && a.WouldBlock? {
      } else {
        if g != f && HandleOf(s.fibers[f].prog) == Some(x) {
          HeldOnce(s, f, g);
        }
        assert OwnedBy(s, x, g, k);
        StillComing(s, w, a, k, x);
      }
    }
  }

  /** A call step leaves what is on its way, but for the timer it cancels. */
  lemma StillComing(s: State, w: WorkerId, a: IoStep, k: CallId, x: TimerId)
    requires IoEnabled(s, w, a) && OnItsWay(s, k, x)
    requires HandleOf(ProgOf(s, w)) != Some(x) || HandleOf(IoNext(s, w, a)) == Some(x)
    ensures OnItsWay(IoApply(s, w, a), k, x)
  {
    var t := IoApply(s, w, a);
    IoTimers(s, w, a);
    IoEffect(s, w, a);
    hide IoApply;
    if id :| Queued(s, id, k) {
      assert Queued(t, id, k);
    } else if c :| CheckedBy(s, c, k) {
      NotChecking(s, w, a, k);
      assert CheckedBy(t, c, k);
    }
  }

  lemma NotChecking(s: State, w: WorkerId, a: IoStep, k: CallId)
    requires IoEnabled(s, w, a)
    ensures !Checking(ProgOf(s, w), k)
  {
  }

  lemma WaitIoStep(s: State, w: WorkerId, a: IoStep)
    requires WaitInv(s) && HandleInv(s) && IoEnabled(s, w, a)
    ensures WaitInv(IoApply(s, w, a))
  {
    hide FitInv, CallInv, OpenInv, HoldInv, OwnInv, HandsInv, WrapInv, ComingInv, HandleInv, IoApply, IoEnabled;
    IoCallInv(s, w, a);
    IoOpen(s, w, a);
    IoWrap(s, w, a);
    IoFits(s, w, a);
    IoHands(s, w, a);
    IoHold(s, w, a);
    IoOwn(s, w, a);
    IoComing(s, w, a);
  }

  lemma WaitStep(s: State, step: Step)
    requires FiberInv(s) && WaitInv(s) && Enabled(s, step)
    ensures WaitInv(Apply(s, step))
  {
    hide WaitInv, HandleInv, StackInv, SpareInv, ResumeInv, TokenInv, TaskInv;
    match step
    case Scanning(w, a) => WaitScanStep(s, w, a);
    case Stacking(w, a) => WaitRunStep(s, w, a);
    case Dispatch(w, a) => WaitIdleStep(s, w, a);
    case Code(w, a) => WaitCodeStep(s, w, a);
    case Hooked(w, a) => WaitIoStep(s, w, a);
    case Callback(w, a) => WaitCbStep(s, w, a);
    case Outside(a) => WaitOutsideStep(s, a);
  }

  // ---------------------------------------------------------------------------------------
  // Lost timeouts

  /** The fiber waits for its event, with a timeout. */
  ghost predicate Waiting(s: State, f: FiberId, k: CallId, t: TimerId) {
    && f in s.fibers && s.fibers[f].prog == WaitYield(k, Some(t))
    && k in s.calls && s.calls[k].slot in s.slots && s.slots[s.calls[k].slot] == Resume(f)
  }

  /** A callback of this call's timeouts has found it unmarked, and has yet to cancel its event. */
  predicate Marking(prog: Prog, k: CallId) {
    (prog.TimeoutSet? || prog.TimeoutCancel?) && prog.call == k
  }

  ghost predicate MarkedBy(s: State, c: FiberId, k: CallId) { c in s.fibers && Marking(s.fibers[c].prog, k) }

  /** The call is marked and nobody is about to cancel its event: later callbacks of its timeouts
      will find the mark and do nothing. */
  ghost predicate Lost(s: State, k: CallId) {
    k in s.calls && s.calls[k].cancelled && forall c :: !MarkedBy(s, c, k)
  }

  /** Only a callback's own steps make it or end it as one that marks. */
  lemma MarksSame(s: State, step: Step)
    requires FiberInv(s) && Enabled(s, step) && !step.Callback?
    ensures forall c, k :: MarkedBy(Apply(s, step), c, k) <==> MarkedBy(s, c, k)
  {
    hide TaskInv, TokenInv, HandleInv, ScanApply, IdleApply, CodeApply, OutsideApply, IoApply;
    hide StackInv, SpareInv, ResumeInv;
    match step
    case Scanning(w, a) => ScanEffect(s, w, a);
    case Stacking(w, a) => RunMarks(s, w, a);
    case Dispatch(w, a) => IdleEffect(s, w, a);
    case Code(w, a) => CodeMarks(s, w, a);
    case Hooked(w, a) => IoMarks(s, w, a);
    case Outside(a) => OutsideMarks(s, a);
  }

  lemma OneMarks(s: State, t: State, f: FiberId)
    requires f in t.fibers && t.fibers == s.fibers[f := t.fibers[f]]
    requires forall k :: Marking(t.fibers[f].prog, k) <==> Marking(ProgAt(s, f), k)
    ensures forall c, k :: MarkedBy(t, c, k) <==> MarkedBy(s, c, k)
  {
    hide Marking;
    assert f in s.fibers ==> ProgAt(s, f) == s.fibers[f].prog;
    NotMarking();
  }

  lemma NotMarking()
    ensures forall k :: !Marking(User, k)
  {
  }

  lemma RunMarks(s: State, w: WorkerId, a: RunStep)
    requires FiberInv(s) && w in s.workers && RunEnabled(s, w, a)
    ensures forall c, k :: MarkedBy(RunApply(s, w, a), c, k) <==> MarkedBy(s, c, k)
  {
    hide FiberInv, MarkedBy;
    RunProgs(s, w, a);
    var t := RunApply(s, w, a);
    if a.BeginFiber? {
      OneMarks(s, t, s.workers[w].pc.task.job.fiber);
    } else if a.BeginCall? {
      OneMarks(s, t, a.runner);
    } else if a.SettleTerm? || a.SettleHold? {
      OneMarks(s, t, s.workers[w].pc.fiber);
    } else {
      SameMarks(s, t);
    }
  }

  lemma SameMarks(s: State, t: State)
    requires t.fibers == s.fibers
    ensures forall c, k :: MarkedBy(t, c, k) <==> MarkedBy(s, c, k)
  {
  }

  lemma CodeMarks(s: State, w: WorkerId, a: CodeStep)
    requires CodeEnabled(s, w, a)
    ensures forall c, k :: MarkedBy(CodeApply(s, w, a), c, k) <==> MarkedBy(s, c, k)
  {
    match a
    case SpawnFiber(_, _, _) =>
    case SpawnCall(_, _) =>
    case ArmCallback(_) =>
    case CancelSlot(_, _) =>
    case Sleep(_, _) =>
    case MakeReady =>
    case Finish =>
  }

  lemma IoMarks(s: State, w: WorkerId, a: IoStep)
    requires IoEnabled(s, w, a)
    ensures forall c, k :: MarkedBy(IoApply(s, w, a), c, k) <==> MarkedBy(s, c, k)
  {
    IoEffect(s, w, a);
    hide IoApply;
  }

  lemma OutsideMarks(s: State, a: OutsideStep)
    requires OutsideEnabled(s, a)
    ensures forall c, k :: MarkedBy(OutsideApply(s, a), c, k) <==> MarkedBy(s, c, k)
  {
  }

  /** While a wait lasts, its timeout is neither lost nor found again. */
  lemma LostStays(s: State, step: Step, f: FiberId, k: CallId, t: TimerId)
    requires FiberInv(s) && WaitInv(s) && Enabled(s, step)
    requires Waiting(s, f, k, t) && Waiting(Apply(s, step), f, k, t)
    ensures Lost(s, k) <==> Lost(Apply(s, step), k)
  {
    if step.Callback? {
      LostCb(s, step.worker, step.cb, f, k, t);
    } else {
      MarksSame(s, step);
      MarkSame(s, step, k);
    }
  }

  /** Only a callback marks a call. */
  lemma MarkSame(s: State, step: Step, k: CallId)
    requires Enabled(s, step) && !step.Callback? && CallInv(s) && k in s.calls
    ensures var t := Apply(s, step); k in t.calls && t.calls[k].cancelled == s.calls[k].cancelled
  {
    hide ScanApply, RunApply, IdleApply, CodeApply, OutsideApply, IoApply;
    match step
    case Scanning(w, a) => ScanEffect(s, w, a);
    case Stacking(w, a) => RunEffect(s, w, a);
    case Dispatch(w, a) => IdleEffect(s, w, a);
    case Code(w, a) => CodeEffect(s, w, a);
    case Hooked(w, a) => IoRecords(s, w, a);
    case Outside(a) => OutsideEffect(s, a);
  }

  lemma LostCb(s: State, w: WorkerId, a: CbStep, f: FiberId, k: CallId, t: TimerId)
    requires FitInv(s) && CbEnabled(s, w, a)
    requires Waiting(s, f, k, t) && Waiting(CbApply(s, w, a), f, k, t)
    ensures Lost(s, k) <==> Lost(CbApply(s, w, a), k)
  {
    var n, c := CbApply(s, w, a), s.workers[w].pc.fiber;
    CbEffect(s, w, a);
    CbCalls(s, w, a);
    assert forall x :: x != c ==> (MarkedBy(n, x, k) <==> MarkedBy(s, x, k));
    assert ProgFits(s.calls, s.fibers[c].prog);
    match a
    case WakeSleeper(_) =>
    case TimeoutStale =>
    case TimeoutFresh =>
    case TimeoutMark =>
      assert MarkedBy(s, c, k) <==> MarkedBy(n, c, k);
    case TimeoutTrigger(_) =>
    case TimeoutMiss =>
  }
}
