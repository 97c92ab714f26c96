/** What holds along every run of the protocol, for any number of workers and any
    interleaving. */
module Runs {
  import opened Wrappers
  import opened Protocol
  import opened Effects
  import opened TaskSafety
  import opened FiberSafety
  import opened LoopSafety
  import opened TimeoutSafety
  import opened WaitSafety
  import opened Clock

  ghost predicate Inv(s: State) {
    FiberInv(s) && CountInv(s) && LeaveInv(s) && PinInv(s) && TimeInv(s) && WaitInv(s)
  }

  lemma InvInit(s: State)
    requires Init(s)
    ensures Inv(s)
  {
    FiberInit(s);
    CountInit(s);
    LeaveInit(s);
    TimeInit(s);
    WaitInit(s);
  }

  lemma Hands(s: State)
    requires FiberInv(s)
    ensures HandInv(s)
  {
  }

  lemma Tasks(s: State)
    requires Inv(s)
    ensures TaskInv(s)
  {
  }

  lemma InvStep(s: State, step: Step)
    requires Inv(s) && Enabled(s, step)
    ensures Inv(Apply(s, step))
  {
    Hands(s);
    hide CountInv, LeaveInv, PinInv, TimeInv, WaitInv, TaskInv, SpareInv, ResumeInv, TokenInv, HandleInv;
    CountStep(s, step);
    LeaveStep(s, step);
    PinStep(s, step);
    TimeStep(s, step);
    WaitStep(s, step);
    FiberStep(s, step);
  }

  /** Every state of every run satisfies the invariants. */
  lemma {:induction false} InvAlways(states: seq<State>, steps: seq<Step>, i: nat)
    requires Run(states, steps) && i < |states|
    ensures Inv(states[i])
  {
    if i == 0 {
      InvInit(states[0]);
    } else {
      InvAlways(states, steps, i - 1);
      InvStep(states[i - 1], steps[i - 1]);
    }
  }

  /** Fiber exclusivity: at most one worker is running a given fiber, the fiber a worker is
      about to resume is not being executed, and a spare callback fiber about to be reset has
      finished - also when an event fires between being armed and the yield. */
  lemma FiberExclusivity(states: seq<State>, steps: seq<Step>, i: nat)
    requires Run(states, steps) && i < |states|
    ensures forall f, v, w :: OnStack(states[i], f, v) && OnStack(states[i], f, w) ==> v == w
    ensures forall w :: w in states[i].workers && states[i].workers[w].pc.Took? ==>
      match states[i].workers[w].pc.task.job
      case Resume(f) =>
        && f in states[i].fibers && states[i].fibers[f].state != EXEC && states[i].fibers[f].state != TERM
        && forall v :: !OnStack(states[i], f, v)
      case Call(_) =>
        forall c :: states[i].workers[w].spare == Some(c) ==>
          && c in states[i].fibers && states[i].fibers[c].state == INIT
          && forall v :: !OnStack(states[i], c, v)
  {
    InvAlways(states, steps, i);
    var s := states[i];
    forall w | w in s.workers && s.workers[w].pc.Took?
      ensures match s.workers[w].pc.task.job
        case Resume(f) =>
          f in s.fibers && s.fibers[f].state != EXEC && s.fibers[f].state != TERM && forall v :: !OnStack(s, f, v)
        case Call(_) =>
          forall c :: s.workers[w].spare == Some(c) ==>
            c in s.fibers && s.fibers[c].state == INIT && forall v :: !OnStack(s, c, v)
    {
      match s.workers[w].pc.task.job
      case Resume(f) => TookIsFree(s, w, f);
      case Call(_) =>
        forall c | s.workers[w].spare == Some(c)
          ensures c in s.fibers && s.fibers[c].state == INIT && forall v :: !OnStack(s, c, v)
        {
          RunnerIsFree(s, w, c);
        }
    }
  }

  /** Exactly one wake per wait: a fiber that has blocked - or armed its wake and is about to
      yield - is in exactly one of an event context, a sleep timer, the task queue, a worker's
      hands, or a wake callback; a fiber that runs or has finished is in none. */
  lemma OneWakePerWait(states: seq<State>, steps: seq<Step>, i: nat, f: FiberId)
    requires Run(states, steps) && i < |states| && f in states[i].fibers
    ensures (states[i].fibers[f].state == HOLD || Suspended(states[i].fibers[f])) ==>
      exists p :: Token(states[i], f, p) && forall q :: Token(states[i], f, q) ==> q == p
    ensures (states[i].fibers[f].state == TERM
             || (states[i].fibers[f].state == EXEC && !Suspended(states[i].fibers[f]))) ==>
      forall p :: !Token(states[i], f, p)
  {
    InvAlways(states, steps, i);
    if states[i].fibers[f].state == HOLD || Suspended(states[i].fibers[f]) {
      assert Parked(states[i], f) && HasToken(states[i], f);
      var p :| Token(states[i], f, p);
    }
  }

  /** The waiter of a slot stays where it is, or becomes the task appended to the queue. */
  ghost predicate WaiterKept(s: State, t: State, slot: Slot)
    requires slot in s.slots
  {
    || (slot in t.slots && t.slots[slot] == s.slots[slot])
    || (exists task: Task :: slot !in t.slots && task.job == s.slots[slot] && Appended(s, t, Some(task)))
  }

  /** An armed waiter is never overwritten and never dropped: in one step it either stays in
      its context or becomes the task appended to the queue. */
  lemma WaiterNeverLost(s: State, step: Step, slot: Slot)
    requires Enabled(s, step) && slot in s.slots
    ensures WaiterKept(s, Apply(s, step), slot)
  {
    hide WaiterKept, ScanApply, RunApply, IdleApply, CodeApply, IoApply, CbApply, OutsideApply;
    match step
    case Scanning(w, a) =>
      ScanEffect(s, w, a);
      SameSlots(s, Apply(s, step), slot);
    case Stacking(w, a) =>
      RunEffect(s, w, a);
      SameSlots(s, Apply(s, step), slot);
    case Dispatch(w, a) => WaiterIdleStep(s, w, a, slot);
    case Code(w, a) => WaiterCodeStep(s, w, a, slot);
    case Hooked(w, a) => WaiterIoStep(s, w, a, slot);
    case Callback(w, a) => WaiterCbStep(s, w, a, slot);
    case Outside(a) =>
      OutsideEffect(s, a);
      SameSlots(s, Apply(s, step), slot);
  }

  lemma SameSlots(s: State, t: State, slot: Slot)
    requires slot in s.slots && t.slots == s.slots
    ensures WaiterKept(s, t, slot)
  {
  }

  lemma WaiterIdleStep(s: State, w: WorkerId, a: IdleStep, slot: Slot)
    requires w in s.workers && IdleEnabled(s, w, a) && slot in s.slots
    ensures WaiterKept(s, IdleApply(s, w, a), slot)
  {
    IdleEffect(s, w, a);
    if a.Trigger? && a.slot == slot {
      assert Appended(s, IdleApply(s, w, a), Some(Task(a.id, s.slots[slot], None)));
    }
  }

  lemma WaiterIoStep(s: State, w: WorkerId, a: IoStep, slot: Slot)
    requires IoEnabled(s, w, a) && slot in s.slots
    ensures WaiterKept(s, IoApply(s, w, a), slot)
  {
    IoEffect(s, w, a);
  }

  lemma WaiterCbStep(s: State, w: WorkerId, a: CbStep, slot: Slot)
    requires CbEnabled(s, w, a) && slot in s.slots
    ensures WaiterKept(s, CbApply(s, w, a), slot)
  {
    CbEffect(s, w, a);
    if a.TimeoutTrigger? && ProgOf(s, w).slot == slot {
      assert Appended(s, CbApply(s, w, a), Some(Task(a.id, s.slots[slot], None)));
    }
  }

  lemma WaiterCodeStep(s: State, w: WorkerId, a: CodeStep, slot: Slot)
    requires CodeEnabled(s, w, a) && slot in s.slots
    ensures WaiterKept(s, CodeApply(s, w, a), slot)
  {
    var t := CodeApply(s, w, a);
    CodeEffect(s, w, a);
    if a.CancelSlot? && a.slot == slot {
      assert Appended(s, t, Some(Task(a.id, s.slots[slot], None)));
    } else {
      match a
      case SpawnFiber(_, _, _) =>
      case CancelSlot(_, _) =>
      case _ =>
    }
  }

  // ---------------------------------------------------------------------------------------
  // Work left in the queue

  /** A run neither adds nor removes workers. */
  lemma {:induction false} WorkersStay(states: seq<State>, steps: seq<Step>, n: nat)
    requires Run(states, steps) && n < |states|
    ensures states[n].workers.Keys == states[0].workers.Keys
  {
    hide Enabled, Apply;
    if 0 < n {
      WorkersStay(states, steps, n - 1);
      SameWorkers(states[n - 1], steps[n - 1]);
    }
  }

  lemma SameWorkers(s: State, step: Step)
    requires Enabled(s, step)
    ensures Apply(s, step).workers.Keys == s.workers.Keys
  {
    hide ScanApply, RunApply, IdleApply, CodeApply, IoApply, CbApply, OutsideApply;
    match step
    case Scanning(w, a) => ScanEffect(s, w, a);
    case Stacking(w, a) => RunEffect(s, w, a);
    case Dispatch(w, a) => IdleEffect(s, w, a);
    case Code(w, a) => CodeEffect(s, w, a);
    case Hooked(w, a) => IoEffect(s, w, a);
    case Callback(w, a) => CbEffect(s, w, a);
    case Outside(a) => OutsideEffect(s, a);
  }

  /** Once no worker that may take a queued task is left to scan, there never is one again, and
      the task stays in the queue. */
  lemma {:induction false} StaysStranded(states: seq<State>, steps: seq<Step>, k: nat, n: nat,
                                         id: TaskId, pin: Option<WorkerId>)
    requires Run(states, steps) && k <= n < |states|
    requires QueuedFor(states[k], id, pin) && !SomeoneScans(states[k], pin)
    ensures QueuedFor(states[n], id, pin) && !SomeoneScans(states[n], pin)
    decreases n
  {
    hide QueuedFor, Enabled, Apply;
    if k < n {
      StaysStranded(states, steps, k, n - 1, id, pin);
      NobodyScans(states[n - 1], steps[n - 1], pin);
      QueuedStays(states[n - 1], steps[n - 1], id, pin);
    }
  }

  /** If no worker the pin allows is left to scan, none takes anything, and none is added. */
  lemma NobodyScans(s: State, step: Step, pin: Option<WorkerId>)
    requires Enabled(s, step) && !SomeoneScans(s, pin)
    ensures !SomeoneScans(Apply(s, step), pin)
    ensures step.Scanning? && step.scan == ScanTake ==> !Takes(pin, step.worker)
  {
    SameWorkers(s, step);
    hide Apply;
    var t := Apply(s, step);
    forall w | w in t.workers && Takes(pin, w) ensures Gone(t.workers[w]) {
      GoneStays(s, step, w);
    }
  }

  /** While a queued task is not taken, a worker that may take it and has yet to scan is left. */
  lemma {:induction false} StaysAwaited(states: seq<State>, steps: seq<Step>, k: nat, n: nat,
                                        id: TaskId, pin: Option<WorkerId>)
    requires Run(states, steps) && k <= n < |states|
    requires QueuedFor(states[k], id, pin) && SomeoneScans(states[k], pin)
    requires QueuedFor(states[n], id, pin)
    ensures SomeoneScans(states[n], pin)
    decreases n
  {
    hide Enabled, Apply, QueuedFor, SomeoneScans, TaskInv;
    if k < n {
      InvAlways(states, steps, n - 1);
      if QueuedFor(states[n - 1], id, pin) {
        StaysAwaited(states, steps, k, n - 1, id, pin);
        SomeoneHolds(states[n - 1], steps[n - 1], id, pin);
      } else {
        StaysSubmitted(states, steps, k, n - 1, id, pin);
        NotRequeued(states[n - 1], steps[n - 1], id, pin);
      }
    }
  }

  /** Submitted tasks stay submitted. */
  lemma {:induction false} StaysSubmitted(states: seq<State>, steps: seq<Step>, k: nat, n: nat,
                                          id: TaskId, pin: Option<WorkerId>)
    requires Run(states, steps) && k <= n < |states| && QueuedFor(states[k], id, pin)
    ensures id in states[n].submitted && states[n].submitted[id].pin == pin
    decreases n
  {
    hide Enabled, Apply, Inv, QueuedFor;
    if k < n {
      StaysSubmitted(states, steps, k, n - 1, id, pin);
      SubmittedGrows(states[n - 1], steps[n - 1], id);
    } else {
      InvAlways(states, steps, k);
      Tasks(states[k]);
      QueuedIsSubmitted(states[k], id, pin);
    }
  }

  lemma QueuedIsSubmitted(s: State, id: TaskId, pin: Option<WorkerId>)
    requires TaskInv(s) && QueuedFor(s, id, pin)
    ensures id in s.submitted && s.submitted[id].pin == pin
  {
    var i :| QueuedAt(s, id, i) && s.queue[i].pin == pin;
    assert Live(s, s.queue[i].id);
  }

  lemma SubmittedGrows(s: State, step: Step, id: TaskId)
    requires Enabled(s, step) && id in s.submitted
    ensures var t := Apply(s, step); id in t.submitted && t.submitted[id] == s.submitted[id]
  {
    hide ScanApply, RunApply, IdleApply, CodeApply, IoApply, CbApply, OutsideApply;
    match step
    case Scanning(w, a) => ScanEffect(s, w, a);
    case Stacking(w, a) => RunEffect(s, w, a);
    case Dispatch(w, a) => IdleEffect(s, w, a);
    case Code(w, a) => CodeEffect(s, w, a);
    case Hooked(w, a) => IoEffect(s, w, a);
    case Callback(w, a) => CbEffect(s, w, a);
    case Outside(a) => OutsideEffect(s, a);
  }

  /** A task that left the queue does not come back. */
  lemma NotRequeued(s: State, step: Step, id: TaskId, pin: Option<WorkerId>)
    requires Enabled(s, step) && id in s.submitted && !QueuedFor(s, id, pin)
    ensures !QueuedFor(Apply(s, step), id, pin)
  {
    var t := Apply(s, step);
    assert forall i :: QueuedAt(s, id, i) ==> s.queue[i].pin != pin;
    forall i | QueuedAt(t, id, i) ensures t.queue[i].pin != pin {
      match step
      case Scanning(v, a) =>
        ScanEffect(s, v, a);
        if a.ScanTake? {
          var k := FirstEligible(s.queue, s.fibers, v).value;
          assert QueuedAt(s, id, if i < k then i else i + 1);
        } else {
          assert QueuedAt(s, id, i);
        }
      case Stacking(v, a) =>
        RunEffect(s, v, a);
        assert QueuedAt(s, id, i);
      case Dispatch(v, a) =>
        IdleEffect(s, v, a);
        assert QueuedAt(s, id, i);
      case Code(v, a) =>
        CodeEffect(s, v, a);
        assert QueuedAt(s, id, i);
      case Hooked(v, a) =>
        IoEffect(s, v, a);
        assert QueuedAt(s, id, i);
      case Callback(v, a) =>
        CbEffect(s, v, a);
        assert QueuedAt(s, id, i);
      case Outside(a) =>
        OutsideEffect(s, a);
        assert QueuedAt(s, id, i);
    }
  }

  /** The workers have all left their loops. */
  ghost predicate AllLeft(s: State) { forall w :: w in s.workers ==> s.workers[w].pc == Left }

  /** Work left behind, exactly: a task in the queue at some point of a run is still there when
      every worker has left if and only if every worker its pin allows had already scanned for
      the last time at that point; otherwise it was begun. */
  lemma StrandedExactly(states: seq<State>, steps: seq<Step>, k: nat, id: TaskId, pin: Option<WorkerId>)
    requires Run(states, steps) && k < |states| && QueuedFor(states[k], id, pin)
    requires AllLeft(states[|states| - 1])
    ensures QueuedFor(states[|states| - 1], id, pin) <==>
              forall w :: w in states[k].workers && Takes(pin, w) ==> Gone(states[k].workers[w])
    ensures id in states[|states| - 1].begun <==> !QueuedFor(states[|states| - 1], id, pin)
  {
    hide QueuedFor, Enabled, Apply, Inv;
    var n := |states| - 1;
    if !SomeoneScans(states[k], pin) {
      StaysStranded(states, steps, k, n, id, pin);
    } else if QueuedFor(states[n], id, pin) {
      StaysAwaited(states, steps, k, n, id, pin);
    }
    InvAlways(states, steps, n);
    Tasks(states[n]);
    StaysSubmitted(states, steps, k, n, id, pin);
    QueuedOrBegun(states[n], id, pin);
  }

  /** When nobody holds a task, it is queued under its own pin or begun. */
  lemma QueuedOrBegun(s: State, id: TaskId, pin: Option<WorkerId>)
    requires TaskInv(s) && AllLeft(s) && id in s.submitted && s.submitted[id].pin == pin
    ensures id in s.begun <==> !QueuedFor(s, id, pin)
  {
    if id !in s.begun {
      assert Located(s, id);
      var i :| QueuedAt(s, id, i);
      assert Live(s, s.queue[i].id);
    } else {
      assert !Live(s, id);
    }
  }

  /** No stranded work: a task queued before stopping is set, for a worker or for none in
      particular, has been begun by the time every worker has left. */
  lemma NoStrandedWork(states: seq<State>, steps: seq<Step>, k: nat, id: TaskId, pin: Option<WorkerId>)
    requires Run(states, steps) && k < |states| && QueuedFor(states[k], id, pin)
    requires !states[k].stopping && (pin.Some? ==> pin.value in states[k].workers)
    requires AllLeft(states[|states| - 1])
    ensures id in states[|states| - 1].begun && !QueuedFor(states[|states| - 1], id, pin)
  {
    InvAlways(states, steps, k);
    StrandedExactly(states, steps, k, id, pin);
    var w :| w in states[k].workers && Takes(pin, w);
    assert !Gone(states[k].workers[w]);
  }

  /** Timeout soundness: a call that reported a timeout did so at least its timeout after its
      first wait, unless the clock plus its timeout had reached 2^64. */
  lemma TimeoutSoundness(states: seq<State>, steps: seq<Step>, i: nat, k: CallId)
    requires Run(states, steps) && i < |states| && k in states[i].calls
    requires states[i].calls[k].result.TimedOut?
    ensures var c := states[i].calls[k];
      && c.timeout.Some? && c.start.Some? && c.result.at <= states[i].now
      && (c.start.value + c.timeout.value <= c.result.at || CLOCK_MODULUS <= c.result.at + c.timeout.value)
  {
    InvAlways(states, steps, i);
    assert CallOk(states[i].calls, states[i].now, k);
    assert WrapOk(states[i].calls[k], states[i].now);
  }

  /** Task conservation: every submitted task is queued, in exactly one worker's hands, or was
      begun - by the worker it was pinned to, if any - and never two of these; and the
      counters count the workers between dequeue and decrement, and in their idle fibers. */
  lemma TaskConservation(states: seq<State>, steps: seq<Step>, i: nat, id: TaskId)
    requires Run(states, steps) && i < |states| && id in states[i].submitted
    ensures id in states[i].begun <==> !Located(states[i], id)
    ensures id in states[i].begun ==> AllowedOn(states[i].submitted[id], states[i].begun[id])
    ensures forall j, k :: QueuedAt(states[i], id, j) && QueuedAt(states[i], id, k) ==> j == k
    ensures forall j, w :: !(QueuedAt(states[i], id, j) && HeldBy(states[i], id, w))
    ensures forall v, w :: HeldBy(states[i], id, v) && HeldBy(states[i], id, w) ==> v == w
    ensures states[i].active == |BusyWorkers(states[i].workers)|
    ensures states[i].idle == |IdleWorkers(states[i].workers)|
  {
    InvAlways(states, steps, i);
    var s := states[i];
    assert forall j :: QueuedAt(s, id, j) ==> Live(s, id);
    assert forall w :: HeldBy(s, id, w) ==> Live(s, id);
  }

  /** Step i begins the task with this identifier. */
  ghost predicate BeginsTask(s: State, step: Step, id: TaskId) {
    step.Stacking? && Begins(step.run) && HeldBy(s, id, step.worker)
  }

  /** Nothing is begun twice: what was begun stays begun by the same worker, and no later step
      begins it, not even that worker's. */
  lemma {:induction false} BegunOnce(states: seq<State>, steps: seq<Step>, i: nat, j: nat, id: TaskId)
    requires Run(states, steps) && i <= j < |states| && id in states[i].begun
    ensures id in states[j].begun && states[j].begun[id] == states[i].begun[id]
    ensures j < |steps| ==> !BeginsTask(states[j], steps[j], id)
    decreases j
  {
    hide Enabled, Apply, Inv, TaskInv, HeldBy;
    if i < j {
      BegunOnce(states, steps, i, j - 1, id);
      InvAlways(states, steps, j - 1);
      Tasks(states[j - 1]);
      BegunStays(states[j - 1], steps[j - 1], id);
    }
    InvAlways(states, steps, j);
    Tasks(states[j]);
    NotHeld(states[j], id);
  }

  lemma NotHeld(s: State, id: TaskId)
    requires TaskInv(s) && id in s.begun
    ensures forall w :: !HeldBy(s, id, w)
  {
    assert !Live(s, id);
  }

  lemma BegunStays(s: State, step: Step, id: TaskId)
    requires TaskInv(s) && Enabled(s, step) && id in s.begun
    ensures id in Apply(s, step).begun && Apply(s, step).begun[id] == s.begun[id]
  {
    hide ScanApply, RunApply, IdleApply, CodeApply, IoApply, CbApply, OutsideApply, QueueInv, ConservedInv;
    match step
    case Scanning(w, a) => ScanEffect(s, w, a);
    case Stacking(w, a) => RunEffect(s, w, a);
    case Dispatch(w, a) => IdleEffect(s, w, a);
    case Code(w, a) => CodeEffect(s, w, a);
    case Hooked(w, a) => IoEffect(s, w, a);
    case Callback(w, a) => CbEffect(s, w, a);
    case Outside(a) => OutsideEffect(s, a);
  }
}
