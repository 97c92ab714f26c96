/** What the workers can do: none is ever stuck, and none leaves before all is quiet. */
module Progress {
  import opened Wrappers
  import opened Protocol
  import opened Effects
  import opened TaskSafety
  import opened FiberSafety
  import opened LoopSafety
  import opened TimeoutSafety
  import opened WaitSafety
  import opened Runs

  // ---------------------------------------------------------------------------------------
  // No worker is stuck

  /** The worker that takes the step. */
  function Actor(step: Step): Option<WorkerId> {
    match step
    case Scanning(w, _) => Some(w)
    case Stacking(w, _) => Some(w)
    case Dispatch(w, _) => Some(w)
    case Code(w, _) => Some(w)
    case Hooked(w, _) => Some(w)
    case Callback(w, _) => Some(w)
    case Outside(_) => None
  }

  /** There is always a number not yet used. */
  lemma Unused(used: set<nat>) returns (n: nat)
    ensures n !in used
  {
    n := Above(used);
  }

  lemma {:induction false} Above(used: set<nat>) returns (n: nat)
    ensures forall x :: x in used ==> x < n
    decreases |used|
  {
    if used == {} {
      n := 0;
    } else {
      var x :| x in used;
      var m := Above(used - {x});
      assert used == (used - {x}) + {x};
      n := if m <= x then x + 1 else m;
    }
  }

  /** In every state of every run every worker that has not left can take a step. */
  lemma NoWorkerStuck(states: seq<State>, steps: seq<Step>, i: nat, w: WorkerId) returns (step: Step)
    requires Run(states, steps) && i < |states|
    requires w in states[i].workers && states[i].workers[w].pc != Left
    ensures Enabled(states[i], step) && Actor(step) == Some(w)
  {
    InvAlways(states, steps, i);
    var s := states[i];
    match s.workers[w].pc
    case Unstarted => step := Scanning(w, Start);
    case Scan =>
      step := Scanning(w, if FirstEligible(s.queue, s.fibers, w).Some? then ScanTake else ScanNone);
    case Took(_) => step := TookGoesOn(s, w);
    case On(_, _, stage) =>
      match stage {
        case Running => step := RunningGoesOn(s, w);
        case Back => step := Stacking(w, CountDown);
        case Settle => step := SettleGoesOn(s, w);
      }
    case NoTask => step := Scanning(w, if s.workers[w].idleDone then Leave else EnterIdle);
    case Idle => step := IdleGoesOn(s, w);
    case IdleBack => step := Scanning(w, IdleReturn);
  }

  lemma TookGoesOn(s: State, w: WorkerId) returns (step: Step)
    requires ResumeInv(s) && w in s.workers && s.workers[w].pc.Took?
    ensures Enabled(s, step) && Actor(step) == Some(w)
  {
    match s.workers[w].pc.task.job
    case Resume(_) => step := Stacking(w, BeginFiber);
    case Call(_) =>
      if s.workers[w].spare.Some? {
        step := Stacking(w, BeginCall(s.workers[w].spare.value));
      } else {
        var c := Unused(s.fibers.Keys);
        step := Stacking(w, BeginCall(c));
      }
  }

  lemma SettleGoesOn(s: State, w: WorkerId) returns (step: Step)
    requires StackInv(s) && w in s.workers && s.workers[w].pc.On? && s.workers[w].pc.stage == Settle
    ensures Enabled(s, step) && Actor(step) == Some(w)
  {
    var f := s.workers[w].pc.fiber;
    assert OnStack(s, f, w);
    var id := Unused(s.submitted.Keys);
    step := Stacking(w, if s.fibers[f].state == READY then SettleReady(id)
                        else if s.fibers[f].state == TERM then SettleTerm else SettleHold);
  }

  lemma IdleGoesOn(s: State, w: WorkerId) returns (step: Step)
    requires HandsInv(s) && w in s.workers && s.workers[w].pc == Idle
    ensures Enabled(s, step) && Actor(step) == Some(w)
  {
    if t :| t in s.taken && s.taken[t] == w {
      var id := Unused(s.submitted.Keys);
      step := Dispatch(w, Flush(t, id));
    } else {
      step := Dispatch(w, IdleYield);
    }
  }

  /** The records a running fiber or callback will look at are there. */
  lemma RunningFacts(s: State, w: WorkerId)
    requires StackInv(s) && CallInv(s) && FitInv(s)
    requires w in s.workers && s.workers[w].pc.On? && s.workers[w].pc.stage == Running
    ensures RunsOn(s, w) && ProgFits(s.calls, ProgOf(s, w))
    ensures CallOf(ProgOf(s, w)).Some? ==> CallOf(ProgOf(s, w)).value in s.calls
  {
    assert OnStack(s, s.workers[w].pc.fiber, w);
    InCall(s, w);
  }

  /** A running fiber, or the callback that runs on one, has a next move at every point. */
  lemma RunningGoesOn(s: State, w: WorkerId) returns (step: Step)
    requires StackInv(s) && CallInv(s) && FitInv(s)
    requires w in s.workers && s.workers[w].pc.On? && s.workers[w].pc.stage == Running
    ensures Enabled(s, step) && Actor(step) == Some(w)
  {
    hide StackInv, CallInv, FitInv, ScanEnabled, IdleEnabled, OutsideEnabled;
    RunningFacts(s, w);
    var id := Unused(s.submitted.Keys);
    match ProgOf(s, w)
    case User => step := Code(w, Finish);
    case Attempt(_) => step := Hooked(w, IoReturn);
    case Arm(_, _) => step := Hooked(w, ArmFail);
    case ArmFailed(_, _) => step := Hooked(w, FailCleanup);
    case WaitYield(_, _) => step := Stacking(w, Yield);
    case Woken(_, _) => step := Hooked(w, StopTimer);
    case CheckCall(k) => step := Hooked(w, if s.calls[k].cancelled then ReportTimeout else Retry);
    case SleepYield => step := Stacking(w, Yield);
    case ReadyYield => step := Stacking(w, Yield);
    case WakeDue(_) => step := Callback(w, WakeSleeper(id));
    case TimeoutDue(k, _) =>
      step := Callback(w, if s.calls[k].result == Pending && !s.calls[k].cancelled then TimeoutFresh else TimeoutStale);
    case TimeoutSet(_, _) => step := Callback(w, TimeoutMark);
    case TimeoutCancel(_, slot) => step := Callback(w, if slot in s.slots then TimeoutTrigger(id) else TimeoutMiss);
    case Done => step := Code(w, Finish);
    case Ended => step := Stacking(w, Yield);
  }

  // ---------------------------------------------------------------------------------------
  // Nobody leaves before all is quiet

  /** stop() has been called, nothing is queued, and nobody is between dequeue and decrement. */
  ghost predicate Quiet(s: State) {
    s.autoStop && s.stopping && s.queue == [] && BusyWorkers(s.workers) == {}
  }

  /** The worker's idle fiber has ended, or it has left. */
  predicate Leaving(me: Worker) { me.idleDone || me.pc == Left }

  /** A worker's idle fiber ends, and a worker leaves, only after a moment at which all was quiet. */
  lemma {:induction false} LeftQuietly(states: seq<State>, steps: seq<Step>, j: nat, w: WorkerId) returns (i: nat)
    requires Run(states, steps) && j < |states| && w in states[j].workers && Leaving(states[j].workers[w])
    ensures i < j && Quiet(states[i])
    decreases j
  {
    hide Enabled, Apply, Inv, Quiet;
    WorkersStay(states, steps, j);
    NotAtFirst(states[0], w);
    var s := states[j - 1];
    SameWorkers(s, steps[j - 1]);
    if Leaving(s.workers[w]) {
      i := LeftQuietly(states, steps, j - 1, w);
    } else {
      i := j - 1;
      InvAlways(states, steps, j - 1);
      Counted(s);
      LeavesQuietly(s, steps[j - 1], w);
    }
  }

  lemma NotAtFirst(s: State, w: WorkerId)
    requires w in s.workers
    ensures Init(s) ==> !Leaving(s.workers[w])
  {
  }

  lemma Counted(s: State)
    requires Inv(s)
    ensures CountInv(s)
  {
  }

  lemma LeavesQuietly(s: State, step: Step, w: WorkerId)
    requires CountInv(s) && Enabled(s, step) && w in s.workers && !Leaving(s.workers[w])
    requires w in Apply(s, step).workers && Leaving(Apply(s, step).workers[w])
    ensures Quiet(s)
  {
    hide RunApply, CodeApply, IoApply, CbApply, OutsideApply;
    match step
    case Scanning(v, a) => ScanEffect(s, v, a);
    case Stacking(v, a) => RunEffect(s, v, a);
    case Dispatch(v, a) => IdleEffect(s, v, a);
    case Code(v, a) => CodeEffect(s, v, a);
    case Hooked(v, a) => IoEffect(s, v, a);
    case Callback(v, a) => CbEffect(s, v, a);
    case Outside(a) => OutsideEffect(s, a);
  }
}
