/** The scheduler's task list, as it is updated under its lock: submission, submission in bulk,
    and the scan by which a worker takes a task.  The protocol's submit and take steps are
    what these methods are proved to do. */
module TaskQueues {
  import opened Wrappers
  import opened Protocol

  /** The task of the job, if the job is not null; the identifier is used up either way. */
  function Stamped(jobs: seq<Option<Job>>, first: TaskId, pin: Option<WorkerId>): seq<Task> {
    if jobs == [] then []
    else (if jobs[0].Some? then [Task(first, jobs[0].value, pin)] else []) + Stamped(jobs[1..], first + 1, pin)
  }

  lemma {:induction false} StampedAppend(jobs: seq<Option<Job>>, job: Option<Job>, first: TaskId, pin: Option<WorkerId>)
    ensures Stamped(jobs + [job], first, pin)
         == Stamped(jobs, first, pin) + if job.Some? then [Task(first + |jobs|, job.value, pin)] else []
  {
    if jobs == [] {
      assert [job][1..] == [];
    } else {
      StampedAppend(jobs[1..], job, first + 1, pin);
      assert (jobs + [job])[1..] == jobs[1..] + [job];
    }
  }

  /** Bulk submission queues only jobs of the range, in its order, each under the identifier
      that its place in the range gives it. */
  lemma {:induction false} StampedFrom(jobs: seq<Option<Job>>, first: TaskId, pin: Option<WorkerId>, i: nat)
    requires i < |Stamped(jobs, first, pin)|
    ensures var ts := Stamped(jobs, first, pin);
      && first <= ts[i].id < first + |jobs|
      && jobs[ts[i].id - first] == Some(ts[i].job) && ts[i].pin == pin
      && (0 < i ==> ts[i - 1].id < ts[i].id)
  {
    var rest, d := Stamped(jobs[1..], first + 1, pin), if jobs[0].Some? then 1 else 0;
    if d <= i {
      StampedFrom(jobs[1..], first + 1, pin, i - d);
      assert Stamped(jobs, first, pin)[i] == rest[i - d];
    }
  }

  /** It loses none of them. */
  lemma {:induction false} StampedAll(jobs: seq<Option<Job>>, first: TaskId, pin: Option<WorkerId>, k: nat)
    requires k < |jobs| && jobs[k].Some?
    ensures Task(first + k, jobs[k].value, pin) in Stamped(jobs, first, pin)
  {
    if k > 0 {
      StampedAll(jobs[1..], first + 1, pin, k - 1);
    }
  }

  /** Pinned to another worker. */
  predicate Elsewhere(task: Task, w: WorkerId) { task.pin.Some? && task.pin != Some(w) }

  /** Every submission of the protocol is what scheduleNoLock does with the job and the pin it is
      given: from outside, ... */
  lemma OutsideIsStamped(s: State, g: FiberId, pin: Option<WorkerId>, id: TaskId)
    ensures OutsideEnabled(s, SubmitFiber(g, pin, id)) ==>
      OutsideApply(s, SubmitFiber(g, pin, id)).queue == s.queue + Stamped([Some(Resume(g))], id, pin)
    ensures OutsideEnabled(s, SubmitCall(pin, id)) ==>
      OutsideApply(s, SubmitCall(pin, id)).queue == s.queue + Stamped([Some(Call(UserBody))], id, pin)
  {
    StampedOne(Resume(g), id, pin);
    StampedOne(Call(UserBody), id, pin);
    hide Stamped;
  }

  /** ... by a fiber's code, ... */
  lemma SpawnIsStamped(s: State, w: WorkerId, g: FiberId, pin: Option<WorkerId>, id: TaskId)
    ensures CodeEnabled(s, w, SpawnFiber(g, pin, id)) ==>
      CodeApply(s, w, SpawnFiber(g, pin, id)).queue == s.queue + Stamped([Some(Resume(g))], id, pin)
    ensures CodeEnabled(s, w, SpawnCall(pin, id)) ==>
      CodeApply(s, w, SpawnCall(pin, id)).queue == s.queue + Stamped([Some(Call(UserBody))], id, pin)
  {
    StampedOne(Resume(g), id, pin);
    StampedOne(Call(UserBody), id, pin);
    hide Stamped;
  }

  /** ... of a fiber that yielded READY ... */
  lemma ReadyIsStamped(s: State, w: WorkerId, id: TaskId)
    requires w in s.workers && RunEnabled(s, w, SettleReady(id))
    ensures RunApply(s, w, SettleReady(id)).queue == s.queue + Stamped([Some(Resume(s.workers[w].pc.fiber))], id, None)
  {
    StampedOne(Resume(s.workers[w].pc.fiber), id, None);
    hide Stamped;
  }

  /** ... and of one that slept. */
  lemma WakeIsStamped(s: State, w: WorkerId, id: TaskId)
    requires CbEnabled(s, w, WakeSleeper(id))
    ensures CbApply(s, w, WakeSleeper(id)).queue == s.queue + Stamped([Some(Resume(ProgOf(s, w).sleeper))], id, None)
  {
    StampedOne(Resume(ProgOf(s, w).sleeper), id, None);
    hide Stamped;
  }

  lemma StampedOne(job: Job, id: TaskId, pin: Option<WorkerId>)
    ensures Stamped([Some(job)], id, pin) == [Task(id, job, pin)]
  {
    assert [Some(job)][1..] == [];
  }

  class TaskQueue {
    var tasks: seq<Task>
    var nextId: TaskId

    constructor ()
      ensures tasks == [] && nextId == 0
    {
      tasks, nextId := [], 0;
    }

    /** scheduleNoLock: append unless null; wake somebody if the list was empty. */
    method ScheduleNoLock(job: Option<Job>, pin: Option<WorkerId>) returns (need: bool)
      modifies this
      ensures tasks == old(tasks) + Stamped([job], old(nextId), pin) && nextId == old(nextId) + 1
      ensures need <==> old(tasks) == []
    {
      need := tasks == [];
      assert Stamped([job], nextId, pin) == if job.Some? then [Task(nextId, job.value, pin)] else [] by {
        StampedAppend([], job, nextId, pin);
        assert [] + [job] == [job];
      }
      if job.Some? {
        tasks := tasks + [Task(nextId, job.value, pin)];
      }
      nextId := nextId + 1;
    }

    /** schedule(begin, end): the jobs are swapped out of the caller's range. */
    method ScheduleAll(jobs: array<Option<Job>>) returns (need: bool)
      modifies this, jobs
      ensures tasks == old(tasks) + Stamped(old(jobs[..]), old(nextId), None)
      ensures nextId == old(nextId) + jobs.Length
      ensures forall i :: 0 <= i < jobs.Length ==> jobs[i] == None
      ensures need <==> old(tasks) == [] && 0 < jobs.Length
    {
      need := false;
      ghost var all := jobs[..];
      for i := 0 to jobs.Length
        invariant jobs[i..] == all[i..] && forall k :: 0 <= k < i ==> jobs[k] == None
        invariant nextId == old(nextId) + i
        invariant tasks == old(tasks) + Stamped(all[..i], old(nextId), None)
        invariant need <==> old(tasks) == [] && 0 < i
      {
        assert all[..i + 1] == all[..i] + [all[i]];
        StampedAppend(all[..i], all[i], old(nextId), None);
        StampedAppend([], all[i], nextId, None);
        assert [] + [all[i]] == [all[i]];
        var first := ScheduleNoLock(jobs[i], None);
        need := first || need;
        jobs[i] := None;
      }
      assert all[..jobs.Length] == all;
    }

    /** The scan in run: take the first entry this worker may run.  tickle: somebody else should
        look at the list - an entry for another worker was passed over, or entries remain behind
        the one taken. */
    method Scan(w: WorkerId, fibers: map<FiberId, Fiber>) returns (task: Option<Task>, tickle: bool)
      modifies this`tasks
      ensures match FirstEligible(old(tasks), fibers, w)
        case None =>
          && task == None && tasks == old(tasks)
          && (tickle <==> exists j :: 0 <= j < |tasks| && tasks[j].pin.Some? && tasks[j].pin != Some(w))
        case Some(i) =>
          && task == Some(old(tasks)[i]) && tasks == old(tasks)[..i] + old(tasks)[i + 1..]
          && (tickle <==> i < |tasks| || exists j :: 0 <= j < i && Elsewhere(old(tasks)[j], w))
    {
      task, tickle := None, false;
      var it := 0;
      while it < |tasks|
        invariant 0 <= it <= |tasks| && tasks == old(tasks) && task == None
        invariant forall j :: 0 <= j < it ==> !Eligible(tasks[j], fibers, w)
        invariant tickle <==> exists j :: 0 <= j < it && Elsewhere(old(tasks)[j], w)
      {
        var t := tasks[it];
        if t.pin.Some? && t.pin != Some(w) {
          it := it + 1;
          tickle := true;
          continue;
        }
        if t.job.Resume? && t.job.fiber in fibers && fibers[t.job.fiber].state == EXEC {
          it := it + 1;
          continue;
        }
        task := Some(t);
        FirstIs(tasks, fibers, w, it);
        tasks := tasks[..it] + tasks[it + 1..];
        tickle := tickle || it < |tasks|;
        return;
      }
    }
  }

  lemma FirstIs(tasks: seq<Task>, fibers: map<FiberId, Fiber>, w: WorkerId, i: nat)
    requires i < |tasks| && Eligible(tasks[i], fibers, w)
    requires forall j :: 0 <= j < i ==> !Eligible(tasks[j], fibers, w)
    ensures FirstEligible(tasks, fibers, w) == Some(i)
  {
  }

  /** A queued fiber that is being executed: some worker holds it and will scan again. */
  predicate Executing(task: Task, fibers: map<FiberId, Fiber>) {
    task.job.Resume? && task.job.fiber in fibers && fibers[task.job.fiber].state == EXEC
  }

  /** A scan comes back empty-handed exactly when every entry is for another worker or is a
      fiber being executed. */
  lemma EmptyHanded(tasks: seq<Task>, fibers: map<FiberId, Fiber>, w: WorkerId)
    ensures FirstEligible(tasks, fibers, w).None? <==>
      forall j :: 0 <= j < |tasks| ==> Elsewhere(tasks[j], w) || Executing(tasks[j], fibers)
  {
    if FirstEligible(tasks, fibers, w).Some? {
      assert Eligible(tasks[FirstEligible(tasks, fibers, w).value], fibers, w);
    }
  }
}
