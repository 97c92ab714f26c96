/** Tasks are conserved: every submitted task is in the queue, in the hands of the one worker
    that dequeued it, or begun by exactly one worker, and pinned tasks stay on their thread. */
module TaskSafety {
  import opened Wrappers
  import opened Protocol
  import opened Effects

  predicate Live(s: State, id: TaskId) { id in s.submitted && id !in s.begun }
  predicate QueuedAt(s: State, id: TaskId, i: int) { 0 <= i < |s.queue| && s.queue[i].id == id }
  predicate HeldBy(s: State, id: TaskId, w: WorkerId) {
    w in s.workers && s.workers[w].pc.Took? && s.workers[w].pc.task.id == id
  }

  /** The pin lets this worker take the task. */
  predicate Takes(pin: Option<WorkerId>, w: WorkerId) { pin == None || pin == Some(w) }

  predicate AllowedOn(task: Task, w: WorkerId) { Takes(task.pin, w) }

  ghost predicate QueueInv(s: State) {
    && (forall i :: 0 <= i < |s.queue| ==>
          Live(s, s.queue[i].id) && s.submitted[s.queue[i].id] == s.queue[i])
    && (forall i, j :: 0 <= i < j < |s.queue| ==> s.queue[i].id != s.queue[j].id)
  }

  ghost predicate HandInv(s: State) {
    && (forall w :: w in s.workers && s.workers[w].pc.Took? ==>
          && Live(s, s.workers[w].pc.task.id)
          && s.submitted[s.workers[w].pc.task.id] == s.workers[w].pc.task
          && AllowedOn(s.workers[w].pc.task, w))
    && (forall w, i :: w in s.workers && s.workers[w].pc.Took? && 0 <= i < |s.queue| ==>
          s.queue[i].id != s.workers[w].pc.task.id)
    && (forall id, v, w :: HeldBy(s, id, v) && HeldBy(s, id, w) ==> v == w)
  }

  ghost predicate Located(s: State, id: TaskId) {
    (exists i :: QueuedAt(s, id, i)) || (exists w :: HeldBy(s, id, w))
  }

  ghost predicate ConservedInv(s: State) {
    && (forall id :: Live(s, id) ==> Located(s, id))
    && (forall id :: id in s.submitted ==> s.submitted[id].id == id)
    && (forall id :: id in s.begun ==> id in s.submitted && AllowedOn(s.submitted[id], s.begun[id]))
  }

  ghost predicate TaskInv(s: State) { QueueInv(s) && HandInv(s) && ConservedInv(s) }

  lemma TaskInit(s: State)
    requires Init(s)
    ensures TaskInv(s)
  {
  }

  /** No worker took up or put down a task. */
  ghost predicate SameHands(s: State, t: State) {
    && s.workers.Keys == t.workers.Keys
    && forall w :: w in s.workers && (s.workers[w].pc.Took? || t.workers[w].pc.Took?) ==>
         s.workers[w].pc == t.workers[w].pc
  }

  lemma StillLocated(s: State, t: State, id: TaskId)
    requires Located(s, id) && SameHands(s, t) && s.queue <= t.queue
    ensures Located(t, id)
  {
    if i :| QueuedAt(s, id, i) {
      assert QueuedAt(t, id, i);
    } else {
      var w :| HeldBy(s, id, w);
      assert HeldBy(t, id, w);
    }
  }

  /** At most one task was submitted and nothing else happened to tasks. */
  lemma TaskAppended(s: State, t: State, o: Option<Task>)
    requires TaskInv(s) && Appended(s, t, o) && t.begun == s.begun && SameHands(s, t)
    ensures TaskInv(t)
  {
    assert forall id, w :: HeldBy(t, id, w) ==> HeldBy(s, id, w);
    forall id | Live(t, id) ensures Located(t, id) {
      if o.Some? && id == o.value.id {
        assert QueuedAt(t, id, |s.queue|);
      } else {
        assert Live(s, id);
        StillLocated(s, t, id);
      }
    }
  }

  /** A scan moved one task from the queue to the scanning worker. */
  lemma TaskTaken(s: State, t: State, w: WorkerId, i: nat)
    requires TaskInv(s) && w in s.workers && i < |s.queue| && AllowedOn(s.queue[i], w)
    requires !s.workers[w].pc.Took?
    requires t.workers == s.workers[w := s.workers[w].(pc := Took(s.queue[i]))]
    requires t.queue == s.queue[..i] + s.queue[i + 1..] && t.submitted == s.submitted && t.begun == s.begun
    ensures TaskInv(t)
  {
    assert forall j :: 0 <= j < |t.queue| ==> t.queue[j] == s.queue[if j < i then j else j + 1];
    assert forall id, v :: HeldBy(t, id, v) ==> if v == w then id == s.queue[i].id else HeldBy(s, id, v);
    assert QueueInv(t);
    assert HandInv(t);
    TakenLocated(s, t, w, i);
  }

  lemma TakenLocated(s: State, t: State, w: WorkerId, i: nat)
    requires ConservedInv(s) && w in s.workers && i < |s.queue| && !s.workers[w].pc.Took?
    requires t.workers == s.workers[w := s.workers[w].(pc := Took(s.queue[i]))]
    requires t.queue == s.queue[..i] + s.queue[i + 1..] && t.submitted == s.submitted && t.begun == s.begun
    ensures ConservedInv(t)
  {
    forall id | Live(t, id) ensures Located(t, id) {
      assert Live(s, id);
      if id == s.queue[i].id {
        assert HeldBy(t, id, w);
      } else if j :| QueuedAt(s, id, j) {
        assert QueuedAt(t, id, if j < i then j else j - 1);
      } else {
        var v :| HeldBy(s, id, v);
        assert HeldBy(t, id, v);
      }
    }
  }

  /** A worker began (or dropped) the task it held. */
  lemma TaskBegun(s: State, t: State, w: WorkerId, me: Worker)
    requires TaskInv(s) && w in s.workers && s.workers[w].pc.Took? && !me.pc.Took?
    requires t.queue == s.queue && t.submitted == s.submitted
    requires t.begun == s.begun[s.workers[w].pc.task.id := w]
    requires t.workers == s.workers[w := me]
    ensures TaskInv(t)
  {
    assert forall id, v :: HeldBy(t, id, v) ==> v != w && HeldBy(s, id, v);
    assert HeldBy(s, s.workers[w].pc.task.id, w);
    assert forall v :: v in t.workers && t.workers[v].pc.Took? ==> HeldBy(s, t.workers[v].pc.task.id, v);
    forall id | Live(t, id) ensures Located(t, id) {
      assert Live(s, id);
      if i :| QueuedAt(s, id, i) {
        assert QueuedAt(t, id, i);
      } else {
        var v :| HeldBy(s, id, v);
        assert HeldBy(t, id, v);
      }
    }
  }

  lemma TaskScanStep(s: State, w: WorkerId, step: ScanStep)
    requires TaskInv(s) && w in s.workers && ScanEnabled(s, w, step)
    ensures TaskInv(ScanApply(s, w, step))
  {
    hide TaskInv;
    var t := ScanApply(s, w, step);
    ScanEffect(s, w, step);
    if step.ScanTake? {
      TaskTaken(s, t, w, FirstEligible(s.queue, s.fibers, w).value);
    } else {
      TaskAppended(s, t, None);
    }
  }

  lemma TaskRunStep(s: State, w: WorkerId, step: RunStep)
    requires TaskInv(s) && w in s.workers && RunEnabled(s, w, step)
    ensures TaskInv(RunApply(s, w, step))
  {
    hide TaskInv;
    RunEffect(s, w, step);
    hide RunApply;
    if Begins(step) {
      TaskBegun(s, RunApply(s, w, step), w, Ran(s, w, step));
    } else {
      TaskAppended(s, RunApply(s, w, step), RunTask(s, w, step));
    }
  }

  lemma TaskStep(s: State, step: Step)
    requires TaskInv(s) && Enabled(s, step)
    ensures TaskInv(Apply(s, step))
  {
    hide TaskInv;
    match step
    case Scanning(w, a) => TaskScanStep(s, w, a);
    case Stacking(w, a) => TaskRunStep(s, w, a);
    case Dispatch(w, a) =>
      IdleEffect(s, w, a);
      TaskAppended(s, IdleApply(s, w, a), IdleTask(s, w, a));
    case Code(w, a) =>
      CodeEffect(s, w, a);
      TaskAppended(s, CodeApply(s, w, a), CodeTask(s, w, a));
    case Hooked(w, a) =>
      IoEffect(s, w, a);
      TaskAppended(s, IoApply(s, w, a), None);
    case Callback(w, a) =>
      CbEffect(s, w, a);
      TaskAppended(s, CbApply(s, w, a), CbTask(s, w, a));
    case Outside(a) =>
      OutsideEffect(s, a);
      TaskAppended(s, OutsideApply(s, a), OutsideTask(s, a));
  }
}
