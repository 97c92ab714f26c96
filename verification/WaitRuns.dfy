/** What holds along every run for the timeouts of hooked calls. */
module WaitRuns {
  import opened Wrappers
  import opened Protocol
  import opened Effects
  import opened FiberSafety
  import opened WaitSafety
  import opened Runs

  /** The fiber is in this wait: it has set the timer, and has neither cancelled it nor given up. */
  predicate InWait(prog: Prog, k: CallId, t: TimerId) {
    || prog == Arm(k, Some(t)) || prog == ArmFailed(k, Some(t))
    || prog == WaitYield(k, Some(t)) || prog == Woken(k, Some(t))
  }

  /** No timeout timer outlives its wait: one that is in the manager belongs to exactly one fiber,
      and that fiber is still in the wait the timer was set for. */
  lemma TimerBelongs(states: seq<State>, steps: seq<Step>, i: nat, t: TimerId)
    requires Run(states, steps) && i < |states| && t in states[i].index
    ensures t in states[i].timers
    ensures var s := states[i];
      s.timers[t].body.TimeoutBody? ==>
        exists f :: f in s.fibers && InWait(s.fibers[f].prog, s.timers[t].body.call, t)
          && forall g, k :: g in s.fibers && InWait(s.fibers[g].prog, k, t) ==> g == f && k == s.timers[t].body.call
  {
    InvAlways(states, steps, i);
    Parts(states[i]);
    hide Inv, FiberInv;
    var s := states[i];
    if s.timers[t].body.TimeoutBody? {
      var f := OwnedOnce(s, t);
      hide WaitInv, HandleInv, Run;
      InWaitHolds(s);
    }
  }

  lemma InWaitHolds(s: State)
    ensures forall f, k, t :: OwnedBy(s, t, f, k) <==> f in s.fibers && InWait(s.fibers[f].prog, k, t)
  {
  }

  /** A wait's timeout is on its way - its timer is in the manager or in a dispatcher's hands, or a
      callback of the call's timeouts is queued or running - as long as the call is not marked. */
  lemma TimeoutOnItsWay(states: seq<State>, steps: seq<Step>, i: nat, f: FiberId, k: CallId, t: TimerId)
    requires Run(states, steps) && i < |states| && f in states[i].fibers && InWait(states[i].fibers[f].prog, k, t)
    ensures k in states[i].calls && states[i].calls[k].result == Pending
    ensures states[i].calls[k].cancelled || OnItsWay(states[i], k, t)
  {
    InvAlways(states, steps, i);
    assert OwnedBy(states[i], t, f, k);
  }

  /** A call has no result exactly as long as a fiber is in it, and it is one fiber's. */
  lemma CallsEnd(states: seq<State>, steps: seq<Step>, i: nat, k: CallId)
    requires Run(states, steps) && i < |states| && k in states[i].calls
    ensures states[i].calls[k].result == Pending <==>
      exists f :: f in states[i].fibers && CallOf(states[i].fibers[f].prog) == Some(k)
    ensures forall f, g :: f in states[i].fibers && g in states[i].fibers ==>
      CallOf(states[i].fibers[f].prog) == Some(k) == CallOf(states[i].fibers[g].prog) ==> f == g
  {
    InvAlways(states, steps, i);
    Parts(states[i]);
    hide Inv, FiberInv;
    var s := states[i];
    if s.calls[k].result == Pending {
      var f :| InCallBy(s, f, k);
    }
    forall f, g | InCallBy(s, f, k) && InCallBy(s, g, k) ensures f == g {
      assert SameCall(s, f, g);
    }
    assert forall f :: f in s.fibers && CallOf(s.fibers[f].prog) == Some(k) ==> InCallBy(s, f, k);
  }

  /** An expired timer in a worker's hands: the worker is still in its idle fiber, so that it can
      do nothing else before it has queued the timer's callback. */
  lemma TakenIsHeld(states: seq<State>, steps: seq<Step>, i: nat, t: TimerId)
    requires Run(states, steps) && i < |states| && t in states[i].taken
    ensures var s, w := states[i], states[i].taken[t];
      t in s.timers && t !in s.index && w in s.workers && s.workers[w].pc == Idle
  {
    InvAlways(states, steps, i);
  }

  /** The fiber is in the same wait in all these states. */
  ghost predicate WaitsThrough(states: seq<State>, i: nat, j: nat, f: FiberId, k: CallId, t: TimerId) {
    i <= j < |states| && forall m :: i <= m <= j ==> Waiting(states[m], f, k, t)
  }

  /** Lost timeouts, exactly: a wait's timeout is lost at any point of the wait if and only if it
      was at its beginning - if the call was marked then, by a callback of an earlier timeout of
      its that expired just as the call was retried, and that callback had already looked for the
      event. */
  lemma {:induction false} LostExactly(states: seq<State>, steps: seq<Step>, i: nat, j: nat,
                                       f: FiberId, k: CallId, t: TimerId)
    requires Run(states, steps) && WaitsThrough(states, i, j, f, k, t)
    ensures Lost(states[j], k) <==> Lost(states[i], k)
    ensures !states[i].calls[k].cancelled ==> !Lost(states[j], k)
    decreases j
  {
    hide Enabled, Apply, Lost, Inv, Init;
    if i < j {
      LostExactly(states, steps, i, j - 1, f, k, t);
      InvAlways(states, steps, j - 1);
      Parts(states[j - 1]);
      assert Waiting(states[j - 1], f, k, t) && Waiting(states[j], f, k, t);
      LostStays(states[j - 1], steps[j - 1], f, k, t);
    } else {
      assert Waiting(states[i], f, k, t);
    }
    NotLost(states[i], k);
  }

  lemma Parts(s: State)
    requires Inv(s)
    ensures FiberInv(s) && WaitInv(s) && HandleInv(s)
  {
  }

  lemma NotLost(s: State, k: CallId)
    ensures k in s.calls && !s.calls[k].cancelled ==> !Lost(s, k)
  {
  }

  /** A wait whose timeout is not lost either has it on its way, or a callback is about to cancel
      its event; for one whose timeout is lost there is no such callback. */
  lemma LostOrComing(states: seq<State>, steps: seq<Step>, i: nat, f: FiberId, k: CallId, t: TimerId)
    requires Run(states, steps) && i < |states| && Waiting(states[i], f, k, t)
    ensures !Lost(states[i], k) ==> OnItsWay(states[i], k, t) || exists c :: MarkedBy(states[i], c, k)
    ensures Lost(states[i], k) ==> states[i].calls[k].cancelled && forall c :: !MarkedBy(states[i], c, k)
  {
    TimeoutOnItsWay(states, steps, i, f, k, t);
  }

  /** The mark decides: a woken call that finds itself marked reports the timeout, at the clock value
      at which it looks; any other is retried, and has no result yet. */
  lemma MarkDecides(states: seq<State>, steps: seq<Step>, i: nat, w: WorkerId, a: IoStep)
    requires Run(states, steps) && i < |steps| && steps[i] == Hooked(w, a) && ProgOf(states[i], w).CheckCall?
    ensures var s, t, k, f := states[i], states[i + 1], ProgOf(states[i], w).call, states[i].workers[w].pc.fiber;
      && k in s.calls && k in t.calls && f in t.fibers
      && (if s.calls[k].cancelled then t.calls[k].result == TimedOut(s.now) && t.fibers[f].prog == User
          else t.calls[k].result == Pending && t.fibers[f].prog == Attempt(k))
  {
    InvAlways(states, steps, i);
    Parts(states[i]);
    InCall(states[i], w);
    hide Inv, FiberInv, WaitInv;
  }

  /** A timeout's callback: for a call that has its result, or its mark, it does nothing; otherwise
      it marks the call and then wakes whoever waits for the call's event. */
  lemma CallbackDecides(states: seq<State>, steps: seq<Step>, i: nat, w: WorkerId, a: CbStep)
    requires Run(states, steps) && i < |steps| && steps[i] == Callback(w, a) && !ProgOf(states[i], w).WakeDue?
    ensures var s, t, c, prog := states[i], states[i + 1], states[i].workers[w].pc.fiber, ProgOf(states[i], w);
      && c in t.fibers && prog.call in s.calls && s.calls[prog.call].slot == prog.slot
      && (prog.TimeoutDue? ==>
            && t.calls == s.calls && t.slots == s.slots && t.queue == s.queue
            && t.fibers[c].prog == if s.calls[prog.call].result == Pending && !s.calls[prog.call].cancelled
                                   then TimeoutSet(prog.call, prog.slot) else Done)
      && (prog.TimeoutSet? ==>
            && t.calls == s.calls[prog.call := s.calls[prog.call].(cancelled := true)]
            && t.slots == s.slots && t.queue == s.queue && t.fibers[c].prog == TimeoutCancel(prog.call, prog.slot))
      && (prog.TimeoutCancel? ==>
            && t.calls == s.calls && t.fibers[c].prog == Done
            && (if prog.slot in s.slots then
                  && t.slots == s.slots - {prog.slot} && |t.queue| == |s.queue| + 1
                  && s.queue <= t.queue && t.queue[|s.queue|].job == s.slots[prog.slot]
                else t.slots == s.slots && t.queue == s.queue))
  {
    InvAlways(states, steps, i);
    assert ProgFits(states[i].calls, ProgOf(states[i], w));
    hide Inv;
    CbEffect(states[i], w, a);
    match a
    case WakeSleeper(_) =>
    case TimeoutStale =>
    case TimeoutFresh =>
    case TimeoutMark =>
    case TimeoutTrigger(_) =>
    case TimeoutMiss =>
  }
}
