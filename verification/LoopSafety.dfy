/** The scheduler loop: the counters count what they say, and no unpinned work is left behind
    when the workers have gone. */
module LoopSafety {
  import opened Wrappers
  import opened Protocol
  import opened Effects
  import opened TaskSafety
  import opened FiberSafety

  // ---------------------------------------------------------------------------------------
  // Counters

  /** Between dequeueing a task and decrementing the active-thread counter. */
  predicate Busy(pc: Pc) { pc.Took? || (pc.On? && pc.stage != Settle) }

  predicate Idling(pc: Pc) { pc == Idle || pc == IdleBack }

  function BusyWorkers(workers: map<WorkerId, Worker>): set<WorkerId> {
    set w | w in workers && Busy(workers[w].pc)
  }

  function IdleWorkers(workers: map<WorkerId, Worker>): set<WorkerId> {
    set w | w in workers && Idling(workers[w].pc)
  }

  ghost predicate CountInv(s: State) {
    s.active == |BusyWorkers(s.workers)| && s.idle == |IdleWorkers(s.workers)|
  }

  function Bit(b: bool): int { if b then 1 else 0 }

  /** Two sets that agree except possibly on w. */
  lemma CardinalityUpdate(before: set<WorkerId>, after: set<WorkerId>, w: WorkerId)
    requires before - {w} == after - {w}
    ensures |after| == |before| + Bit(w in after) - Bit(w in before)
  {
    var rest := before - {w};
    assert before == if w in before then rest + {w} else rest;
    assert after == if w in after then rest + {w} else rest;
  }

  lemma CountUpdate(workers: map<WorkerId, Worker>, w: WorkerId, me: Worker)
    requires w in workers
    ensures |BusyWorkers(workers[w := me])| == |BusyWorkers(workers)| + Bit(Busy(me.pc)) - Bit(Busy(workers[w].pc))
    ensures |IdleWorkers(workers[w := me])| == |IdleWorkers(workers)| + Bit(Idling(me.pc)) - Bit(Idling(workers[w].pc))
  {
    CardinalityUpdate(BusyWorkers(workers), BusyWorkers(workers[w := me]), w);
    CardinalityUpdate(IdleWorkers(workers), IdleWorkers(workers[w := me]), w);
  }

  lemma CountInit(s: State)
    requires Init(s)
    ensures CountInv(s)
  {
    assert BusyWorkers(s.workers) == {} && IdleWorkers(s.workers) == {};
  }

  lemma CountStep(s: State, step: Step)
    requires CountInv(s) && Enabled(s, step)
    ensures CountInv(Apply(s, step))
  {
    hide ScanApply, RunApply, IdleApply, CodeApply, IoApply, CbApply, OutsideApply, BusyWorkers, IdleWorkers;
    match step
    case Scanning(w, a) => CountScanStep(s, w, a);
    case Stacking(w, a) => CountRunStep(s, w, a);
    case Dispatch(w, a) => CountIdleStep(s, w, a);
    case Code(w, a) => CodeEffect(s, w, a);
    case Hooked(w, a) => IoEffect(s, w, a);
    case Callback(w, a) => CbEffect(s, w, a);
    case Outside(a) => OutsideEffect(s, a);
  }

  lemma CountScanStep(s: State, w: WorkerId, a: ScanStep)
    requires CountInv(s) && w in s.workers && ScanEnabled(s, w, a)
    ensures CountInv(ScanApply(s, w, a))
  {
    hide BusyWorkers, IdleWorkers;
    ScanEffect(s, w, a);
    CountUpdate(s.workers, w, Scanned(s, w, a));
  }

  lemma CountIdleStep(s: State, w: WorkerId, a: IdleStep)
    requires CountInv(s) && w in s.workers && IdleEnabled(s, w, a)
    ensures CountInv(IdleApply(s, w, a))
  {
    hide BusyWorkers, IdleWorkers;
    IdleEffect(s, w, a);
    CountUpdate(s.workers, w, IdleApply(s, w, a).workers[w]);
  }

  lemma CountRunStep(s: State, w: WorkerId, a: RunStep)
    requires CountInv(s) && w in s.workers && RunEnabled(s, w, a)
    ensures CountInv(RunApply(s, w, a))
  {
    RunEffect(s, w, a);
    CountUpdate(s.workers, w, Ran(s, w, a));
    hide RunApply;
    match a
    case BeginFiber =>
    case DropFinished =>
    case BeginCall(_) =>
    case Yield =>
    case CountDown =>
    case SettleReady(_) =>
    case SettleTerm =>
    case SettleHold =>
  }

  // ---------------------------------------------------------------------------------------
  // Leaving

  /** The worker has scanned for the last time. */
  predicate Gone(me: Worker) { me.pc == Left || (me.pc == NoTask && me.idleDone) }

  ghost predicate LeaveInv(s: State) {
    && s.workers != map[]
    && forall w :: w in s.workers && (s.workers[w].idleDone || Gone(s.workers[w])) ==> s.stopping
  }

  lemma LeaveInit(s: State)
    requires Init(s)
    ensures LeaveInv(s)
  {
  }

  lemma LeaveStep(s: State, step: Step)
    requires LeaveInv(s) && Enabled(s, step)
    ensures LeaveInv(Apply(s, step))
  {
    hide ScanApply, RunApply, IdleApply, CodeApply, IoApply, CbApply, OutsideApply;
    hide RunEnabled, CodeEnabled, IoEnabled, CbEnabled, OutsideEnabled;
    match step
    case Scanning(w, a) => ScanEffect(s, w, a);
    case Stacking(w, a) => RunEffect(s, w, a);
    case Dispatch(w, a) => IdleEffect(s, w, a);
    case Code(w, a) => CodeEffect(s, w, a);
    case Hooked(w, a) => IoEffect(s, w, a);
    case Callback(w, a) => CbEffect(s, w, a);
    case Outside(a) => OutsideEffect(s, a);
  }

  // ---------------------------------------------------------------------------------------
  // Queued work

  /** The task is in the queue under this pin. */
  ghost predicate QueuedFor(s: State, id: TaskId, pin: Option<WorkerId>) {
    exists i :: QueuedAt(s, id, i) && s.queue[i].pin == pin
  }

  /** A worker the pin allows has yet to scan. */
  ghost predicate SomeoneScans(s: State, pin: Option<WorkerId>) {
    exists w :: w in s.workers && Takes(pin, w) && !Gone(s.workers[w])
  }

  /** Pinned fiber tasks are first submissions, so their fibers have never run. */
  ghost predicate PinInv(s: State) {
    forall id :: Live(s, id) && s.submitted[id].pin.Some? && s.submitted[id].job.Resume? ==>
      var f := s.submitted[id].job.fiber;
      f in s.fibers && s.fibers[f].state == INIT
  }

  /** Which fibers can stop being INIT in a step: one that is begun. */
  lemma PinStep(s: State, step: Step)
    requires FiberInv(s) && PinInv(s) && Enabled(s, step)
    ensures PinInv(Apply(s, step))
  {
    hide PinInv, FiberInv;
    match step
    case Scanning(w, a) => PinScanStep(s, w, a);
    case Stacking(w, a) => PinRunStep(s, w, a);
    case Dispatch(w, a) => PinIdleStep(s, w, a);
    case Code(w, a) => PinCodeStep(s, w, a);
    case Hooked(w, a) => PinIoStep(s, w, a);
    case Callback(w, a) => PinCbStep(s, w, a);
    case Outside(a) => PinOutsideStep(s, a);
  }

  lemma PinScanStep(s: State, w: WorkerId, a: ScanStep)
    requires PinInv(s) && w in s.workers && ScanEnabled(s, w, a)
    ensures PinInv(ScanApply(s, w, a))
  {
    ScanEffect(s, w, a);
  }

  lemma PinIdleStep(s: State, w: WorkerId, a: IdleStep)
    requires PinInv(s) && w in s.workers && IdleEnabled(s, w, a)
    ensures PinInv(IdleApply(s, w, a))
  {
    IdleEffect(s, w, a);
  }

  lemma PinIoStep(s: State, w: WorkerId, a: IoStep)
    requires PinInv(s) && IoEnabled(s, w, a)
    ensures PinInv(IoApply(s, w, a))
  {
    IoEffect(s, w, a);
  }

  lemma PinCbStep(s: State, w: WorkerId, a: CbStep)
    requires PinInv(s) && CbEnabled(s, w, a)
    ensures PinInv(CbApply(s, w, a))
  {
    CbEffect(s, w, a);
  }

  lemma PinOutsideStep(s: State, a: OutsideStep)
    requires PinInv(s) && OutsideEnabled(s, a)
    ensures PinInv(OutsideApply(s, a))
  {
    OutsideEffect(s, a);
  }

  lemma PinCodeStep(s: State, w: WorkerId, a: CodeStep)
    requires FiberInv(s) && PinInv(s) && CodeEnabled(s, w, a)
    ensures PinInv(CodeApply(s, w, a))
  {
    CodeEffect(s, w, a);
    assert OnStack(s, s.workers[w].pc.fiber, w);
    match a
    case SpawnFiber(_, _, _) =>
    case SpawnCall(_, _) =>
    case ArmCallback(_) =>
    case CancelSlot(_, _) =>
    case Sleep(_, _) =>
    case MakeReady =>
    case Finish =>
  }

  lemma PinRunStep(s: State, w: WorkerId, a: RunStep)
    requires FiberInv(s) && PinInv(s) && w in s.workers && RunEnabled(s, w, a)
    ensures PinInv(RunApply(s, w, a))
  {
    var t := RunApply(s, w, a);
    RunEffect(s, w, a);
    hide RunApply;
    forall id | Live(t, id) && t.submitted[id].pin.Some? && t.submitted[id].job.Resume?
      ensures var f := t.submitted[id].job.fiber; f in t.fibers && t.fibers[f].state == INIT
    {
      InitStays(s, w, a, id);
    }
  }

  /** A running step leaves a fiber with a pinned task queued as it is. */
  lemma InitStays(s: State, w: WorkerId, a: RunStep, id: TaskId)
    requires FiberInv(s) && PinInv(s) && w in s.workers && RunEnabled(s, w, a)
    requires Live(s, id) && s.submitted[id].pin.Some? && s.submitted[id].job.Resume?
    requires Begins(a) ==> s.workers[w].pc.Took? && s.workers[w].pc.task.id != id
    ensures var t, f := RunApply(s, w, a), s.submitted[id].job.fiber; f in t.fibers && t.fibers[f].state == INIT
  {
    var f := s.submitted[id].job.fiber;
    assert Token(s, f, InTask(id));
    if a.BeginFiber? || a.BeginCall? {
      BegunIsOther(s, w, id, f);
    } else if s.workers[w].pc.On? {
      assert OnStack(s, s.workers[w].pc.fiber, w);
    }
  }

  /** A fiber with a live task of its own is not the one a worker is about to begin. */
  lemma BegunIsOther(s: State, w: WorkerId, id: TaskId, f: FiberId)
    requires FiberInv(s) && w in s.workers && s.workers[w].pc.Took? && s.workers[w].pc.task.id != id
    requires Token(s, f, InTask(id))
    ensures s.workers[w].pc.task.job != Resume(f)
    ensures s.workers[w].spare != Some(f)
  {
    assert Parked(s, f);
    if s.workers[w].pc.task.job == Resume(f) {
      TookToken(s, w);
    }
    assert s.workers[w].spare == Some(f) ==> SpareOf(s, f, w);
  }

  lemma GrowKeeps(s: State, t: State, id: TaskId, pin: Option<WorkerId>)
    requires QueuedFor(s, id, pin) && s.queue <= t.queue
    ensures QueuedFor(t, id, pin)
  {
    var i :| QueuedAt(s, id, i) && s.queue[i].pin == pin;
    assert QueuedAt(t, id, i);
  }

  /** A queued task stays queued until a worker its pin allows takes it. */
  lemma QueuedStays(s: State, step: Step, id: TaskId, pin: Option<WorkerId>)
    requires Enabled(s, step) && QueuedFor(s, id, pin)
    ensures QueuedFor(Apply(s, step), id, pin)
         || (step.Scanning? && step.scan == ScanTake && Takes(pin, step.worker))
  {
    var t := Apply(s, step);
    hide ScanApply, RunApply, IdleApply, CodeApply, IoApply, CbApply, OutsideApply;
    match step
    case Scanning(v, a) =>
      if a.ScanTake? {
        TakeKeeps(s, v, id, pin);
      } else {
        ScanEffect(s, v, a);
        GrowKeeps(s, t, id, pin);
      }
    case Stacking(v, a) =>
      RunEffect(s, v, a);
      GrowKeeps(s, t, id, pin);
    case Dispatch(v, a) =>
      IdleEffect(s, v, a);
      GrowKeeps(s, t, id, pin);
    case Code(v, a) =>
      CodeEffect(s, v, a);
      GrowKeeps(s, t, id, pin);
    case Hooked(v, a) =>
      IoEffect(s, v, a);
      GrowKeeps(s, t, id, pin);
    case Callback(v, a) =>
      CbEffect(s, v, a);
      GrowKeeps(s, t, id, pin);
    case Outside(a) =>
      OutsideEffect(s, a);
      GrowKeeps(s, t, id, pin);
  }

  lemma TakeKeeps(s: State, v: WorkerId, id: TaskId, pin: Option<WorkerId>)
    requires v in s.workers && ScanEnabled(s, v, ScanTake) && QueuedFor(s, id, pin)
    ensures QueuedFor(ScanApply(s, v, ScanTake), id, pin) || Takes(pin, v)
  {
    var i :| QueuedAt(s, id, i) && s.queue[i].pin == pin;
    var k := FirstEligible(s.queue, s.fibers, v).value;
    assert QueuedAt(ScanApply(s, v, ScanTake), id, if i < k then i else i - 1) || Takes(pin, v);
  }

  /** A worker that has gone stays gone, and takes nothing. */
  lemma GoneStays(s: State, step: Step, w: WorkerId)
    requires w in s.workers && Gone(s.workers[w]) && Enabled(s, step)
    ensures var t := Apply(s, step); w in t.workers && Gone(t.workers[w])
    ensures step != Scanning(w, ScanTake)
  {
    match step
    case Scanning(v, a) => ScanEffect(s, v, a);
    case Stacking(v, a) => RunEffect(s, v, a);
    case Dispatch(v, a) => IdleEffect(s, v, a);
    case Code(v, a) => CodeEffect(s, v, a);
    case Hooked(v, a) => IoEffect(s, v, a);
    case Callback(v, a) => CbEffect(s, v, a);
    case Outside(a) => OutsideEffect(s, a);
  }

  /** While a task is queued that some worker yet to scan may take, a step leaves such a worker. */
  lemma SomeoneHolds(s: State, step: Step, id: TaskId, pin: Option<WorkerId>)
    requires FiberInv(s) && PinInv(s) && Enabled(s, step) && QueuedFor(s, id, pin) && SomeoneScans(s, pin)
    ensures SomeoneScans(Apply(s, step), pin)
  {
    var t := Apply(s, step);
    var w :| w in s.workers && Takes(pin, w) && !Gone(s.workers[w]);
    hide FiberInv, PinInv, QueuedFor, Apply, Enabled;
    if FirstEligible(s.queue, s.fibers, w).Some? {
      NoneGone(s, step, w);
      assert Takes(pin, w) && !Gone(t.workers[w]);
    } else {
      var v := OtherHolds(s, id, pin, w);
      OnStays(s, step, v);
      assert Takes(pin, v) && !Gone(t.workers[v]);
    }
  }

  /** A task that a worker's scan would skip, though its pin allows the worker, is not pinned,
      and its fiber is on the stack of another worker. */
  lemma OtherHolds(s: State, id: TaskId, pin: Option<WorkerId>, w: WorkerId) returns (v: WorkerId)
    requires FiberInv(s) && PinInv(s) && QueuedFor(s, id, pin) && Takes(pin, w)
    requires FirstEligible(s.queue, s.fibers, w).None?
    ensures pin.None? && v in s.workers && s.workers[v].pc.On?
  {
    var i :| QueuedAt(s, id, i) && s.queue[i].pin == pin;
    assert Live(s, s.queue[i].id);
    assert !Eligible(s.queue[i], s.fibers, w);
    var f := s.queue[i].job.fiber;
    assert IsOn(s, f);
    v :| OnStack(s, f, v);
  }

  /** A worker with a fiber on its stack does not leave in one step. */
  lemma OnStays(s: State, step: Step, w: WorkerId)
    requires Enabled(s, step) && w in s.workers && s.workers[w].pc.On?
    ensures var t := Apply(s, step); w in t.workers && !Gone(t.workers[w])
  {
    hide ScanApply, RunApply, IdleApply, CodeApply, IoApply, CbApply, OutsideApply, FirstEligible;
    match step
    case Scanning(v, a) => ScanEffect(s, v, a);
    case Stacking(v, a) => RunEffect(s, v, a);
    case Dispatch(v, a) => IdleEffect(s, v, a);
    case Code(v, a) => CodeEffect(s, v, a);
    case Hooked(v, a) => IoEffect(s, v, a);
    case Callback(v, a) => CbEffect(s, v, a);
    case Outside(a) => OutsideEffect(s, a);
  }

  /** A worker that finds something in its scan does not go. */
  lemma NoneGone(s: State, step: Step, w: WorkerId)
    requires Enabled(s, step) && w in s.workers && !Gone(s.workers[w])
    requires FirstEligible(s.queue, s.fibers, w).Some?
    ensures var t := Apply(s, step); w in t.workers && !Gone(t.workers[w])
  {
    hide ScanApply, RunApply, IdleApply, CodeApply, IoApply, CbApply, OutsideApply, FirstEligible;
    match step
    case Scanning(v, a) => ScanEffect(s, v, a);
    case Stacking(v, a) => RunEffect(s, v, a);
    case Dispatch(v, a) => IdleEffect(s, v, a);
    case Code(v, a) => CodeEffect(s, v, a);
    case Hooked(v, a) => IoEffect(s, v, a);
    case Callback(v, a) => CbEffect(s, v, a);
    case Outside(a) => OutsideEffect(s, a);
  }
}
