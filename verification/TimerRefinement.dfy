/** The timer manager refines the protocol: what it does to its entries is what the protocol's
    steps do to its timers. */
module TimerRefinement {
  import opened Wrappers
  import opened Clock
  import opened Protocol
  import opened Playing
  import opened TaskQueues
  import Spec = TimerSpec

  /** What the function behind a callback does when it runs. */
  type Meaning = Spec.Callback -> Body

  /** The manager's entries are the timers of a protocol state: one-shots, of which those that
      still have a callback are the ones in the index. */
  ghost predicate Shows(s: State, m: Spec.Entries, means: Meaning) {
    && m.Keys == s.timers.Keys
    && (forall t :: t in s.index <==> Spec.Live(m, t))
    && forall t :: Spec.Live(m, t) ==>
         && !m[t].recurring && m[t].deadline == s.timers[t].deadline
         && means(m[t].cb.value) == s.timers[t].body
  }

  // ---------------------------------------------------------------------------------------
  // One timer

  /** Adding a timer is what going to sleep does to the timers. */
  lemma SleepRefines(s: State, w: WorkerId, t: TimerId, period: Time, m: Spec.Entries,
                     cb: Spec.Callback, means: Meaning)
    requires Shows(s, m, means) && CodeEnabled(s, w, Sleep(t, period)) && s.now < CLOCK_MODULUS
    requires means(cb) == WakeBody(s.workers[w].pc.fiber)
    ensures Shows(CodeApply(s, w, Sleep(t, period)), Spec.Step(m, Spec.Add(t, period, cb, false, s.now)), means)
  {
  }

  /** Adding a timer is what a hooked call with a timeout does to the timers when it would block. */
  lemma BlockRefines(s: State, w: WorkerId, t: TimerId, m: Spec.Entries, cb: Spec.Callback, means: Meaning)
    requires Shows(s, m, means) && IoEnabled(s, w, WouldBlock(t)) && s.now < CLOCK_MODULUS
    requires var k := ProgOf(s, w).call; var c := s.calls[k];
      && c.timeout.Some? && c.timeout.value < CLOCK_MODULUS && means(cb) == TimeoutBody(k, c.slot)
    ensures var period := s.calls[ProgOf(s, w).call].timeout.value;
      Shows(IoApply(s, w, WouldBlock(t)), Spec.Step(m, Spec.Add(t, period, cb, false, s.now)), means)
  {
  }

  /** Cancelling one is what a hooked call does with its wait's timer, expired already or not:
      after it was woken, and when the event could not be added. */
  lemma CancelRefines(s: State, w: WorkerId, step: IoStep, m: Spec.Entries, means: Meaning)
    requires Shows(s, m, means) && IoEnabled(s, w, step) && (step.StopTimer? || step.FailCleanup?)
    requires ProgOf(s, w).timer.Some? ==> ProgOf(s, w).timer.value in s.timers
    ensures var timer := ProgOf(s, w).timer;
      Shows(IoApply(s, w, step), if timer.Some? then Spec.Step(m, Spec.Cancel(timer.value)) else m, means)
  {
  }

  // ---------------------------------------------------------------------------------------
  // Expiry

  predicate Distinct(ts: seq<TimerId>) { forall i, j :: 0 <= i < j < |ts| ==> ts[i] != ts[j] }

  function Members(ts: seq<TimerId>): set<TimerId> { set t | t in ts }

  /** The timers in the hands of the dispatching worker. */
  function TakenBy(taken: map<TimerId, WorkerId>, ts: seq<TimerId>, w: WorkerId): map<TimerId, WorkerId> {
    taken + map t | t in ts :: w
  }

  /** The state after these timers were taken out of the index. */
  function TakenOut(s: State, ts: seq<TimerId>, w: WorkerId): State {
    s.(index := s.index - Members(ts), taken := TakenBy(s.taken, ts, w))
  }

  lemma ExpireOne(s: State, w: WorkerId, t: TimerId)
    requires w in s.workers && s.workers[w].pc == Idle
    requires t in s.index && t in s.timers && s.timers[t].deadline <= s.now
    ensures var step := Dispatch(w, Expire(t));
      Enabled(s, step) && Apply(s, step) == s.(index := s.index - {t}, taken := s.taken[t := w])
  {
  }

  lemma MembersMore(ts: seq<TimerId>)
    requires ts != []
    ensures Members(ts) == {ts[0]} + Members(ts[1..])
  {
    assert ts == [ts[0]] + ts[1..];
  }

  lemma TakenByMore(taken: map<TimerId, WorkerId>, ts: seq<TimerId>, w: WorkerId)
    requires ts != []
    ensures TakenBy(taken[ts[0] := w], ts[1..], w) == TakenBy(taken, ts, w)
  {
    assert ts == [ts[0]] + ts[1..];
  }

  lemma TakenOutMore(s: State, ts: seq<TimerId>, w: WorkerId)
    requires ts != []
    ensures TakenOut(s.(index := s.index - {ts[0]}, taken := s.taken[ts[0] := w]), ts[1..], w) == TakenOut(s, ts, w)
  {
    var next := s.(index := s.index - {ts[0]}, taken := s.taken[ts[0] := w]);
    MembersMore(ts);
    TakenByMore(s.taken, ts, w);
    hide TakenBy, Members;
    assert next.index - Members(ts[1..]) == s.index - Members(ts);
  }

  /** One expiry step for each timer. */
  function ExpireSteps(w: WorkerId, ts: seq<TimerId>): seq<Step> {
    if ts == [] then [] else [Dispatch(w, Expire(ts[0]))] + ExpireSteps(w, ts[1..])
  }

  lemma {:induction false} ExpireEach(s: State, w: WorkerId, ts: seq<TimerId>)
    requires w in s.workers && s.workers[w].pc == Idle && Distinct(ts)
    requires forall t :: t in ts ==> t in s.index && t in s.timers && s.timers[t].deadline <= s.now
    ensures Play(s, ExpireSteps(w, ts)) == Some(TakenOut(s, ts, w))
    decreases |ts|
  {
    hide Play, Enabled, Apply;
    if ts == [] {
      PlayNothing(s);
      assert s.index - Members(ts) == s.index && TakenBy(s.taken, ts, w) == s.taken;
    } else {
      ExpireOne(s, w, ts[0]);
      TakenOutMore(s, ts, w);
      hide TakenOut;
      var next := s.(index := s.index - {ts[0]}, taken := s.taken[ts[0] := w]);
      assert forall t :: t in ts[1..] ==> t in ts && t != ts[0];
      ExpireEach(next, w, ts[1..]);
      PlayStep(s, Dispatch(w, Expire(ts[0])), next, ExpireSteps(w, ts[1..]));
    }
  }

  /** The functions of the timers, as a range to be submitted. */
  function Range(timers: map<TimerId, Timer>, ts: seq<TimerId>): (jobs: seq<Option<Job>>)
    requires forall t :: t in ts ==> t in timers
    ensures |jobs| == |ts| && forall i :: 0 <= i < |ts| ==> jobs[i] == Some(Call(timers[ts[i]].body))
  {
    if ts == [] then [] else [Some(Call(timers[ts[0]].body))] + Range(timers, ts[1..])
  }

  function Submitted(submitted: map<TaskId, Task>, tasks: seq<Task>): map<TaskId, Task>
    decreases |tasks|
  {
    if tasks == [] then submitted else Submitted(submitted[tasks[0].id := tasks[0]], tasks[1..])
  }

  /** The state after the functions of these timers were submitted. */
  function Flushed(s: State, ts: seq<TimerId>, tasks: seq<Task>): State {
    s.(taken := s.taken - Members(ts), queue := s.queue + tasks, submitted := Submitted(s.submitted, tasks))
  }

  lemma FlushOne(s: State, w: WorkerId, t: TimerId, id: TaskId)
    requires w in s.workers && s.workers[w].pc == Idle
    requires t in s.taken && s.taken[t] == w && t in s.timers && id !in s.submitted
    ensures var step := Dispatch(w, Flush(t, id));
      Enabled(s, step) && Apply(s, step) == Submit(s.(taken := s.taken - {t}), id, Call(s.timers[t].body), None)
  {
  }

  lemma FlushedMore(s: State, ts: seq<TimerId>, task: Task, more: seq<Task>)
    requires ts != []
    ensures var next := Submit(s.(taken := s.taken - {ts[0]}), task.id, task.job, task.pin);
      Flushed(next, ts[1..], more) == Flushed(s, ts, [task] + more)
  {
    var next := Submit(s.(taken := s.taken - {ts[0]}), task.id, task.job, task.pin);
    MembersMore(ts);
    hide Members;
    assert next.taken - Members(ts[1..]) == s.taken - Members(ts);
    assert s.queue + [task] + more == s.queue + ([task] + more);
    assert ([task] + more)[1..] == more;
  }

  lemma RangeMore(timers: map<TimerId, Timer>, ts: seq<TimerId>, first: TaskId)
    requires ts != [] && forall t :: t in ts ==> t in timers
    ensures Stamped(Range(timers, ts), first, None)
         == [Task(first, Call(timers[ts[0]].body), None)] + Stamped(Range(timers, ts[1..]), first + 1, None)
  {
    assert Range(timers, ts)[1..] == Range(timers, ts[1..]);
  }

  /** One submission for each timer taken out. */
  function FlushSteps(w: WorkerId, ts: seq<TimerId>, first: TaskId): seq<Step> {
    if ts == [] then [] else [Dispatch(w, Flush(ts[0], first))] + FlushSteps(w, ts[1..], first + 1)
  }

  /** The worker has these timers in its hands, and the identifiers are free. */
  ghost predicate MayFlush(s: State, w: WorkerId, ts: seq<TimerId>, first: TaskId) {
    && w in s.workers && s.workers[w].pc == Idle && Distinct(ts)
    && (forall t :: t in ts ==> t in s.taken && s.taken[t] == w && t in s.timers)
    && forall id :: first <= id ==> id !in s.submitted
  }

  lemma MayFlushMore(s: State, w: WorkerId, ts: seq<TimerId>, first: TaskId)
    requires MayFlush(s, w, ts, first) && ts != []
    ensures var next := Submit(s.(taken := s.taken - {ts[0]}), first, Call(s.timers[ts[0]].body), None);
      MayFlush(next, w, ts[1..], first + 1)
  {
    assert forall t :: t in ts[1..] ==> t in ts && t != ts[0];
  }

  lemma {:induction false} FlushEach(s: State, w: WorkerId, ts: seq<TimerId>, first: TaskId)
    requires MayFlush(s, w, ts, first)
    ensures Play(s, FlushSteps(w, ts, first)) == Some(Flushed(s, ts, Stamped(Range(s.timers, ts), first, None)))
    decreases |ts|
  {
    hide Play, Enabled, Apply;
    if ts == [] {
      PlayNothing(s);
      assert s.taken - Members(ts) == s.taken && s.queue + [] == s.queue;
    } else {
      var task := Task(first, Call(s.timers[ts[0]].body), None);
      var more := Stamped(Range(s.timers, ts[1..]), first + 1, None);
      FlushOne(s, w, ts[0], first);
      FlushedMore(s, ts, task, more);
      RangeMore(s.timers, ts, first);
      MayFlushMore(s, w, ts, first);
      hide Flushed, Stamped, Range, MayFlush;
      var next := Submit(s.(taken := s.taken - {ts[0]}), first, task.job, None);
      FlushEach(next, w, ts[1..], first + 1);
      PlayStep(s, Dispatch(w, Flush(ts[0], first)), next, FlushSteps(w, ts[1..], first + 1));
    }
  }

  function Addresses(due: seq<Spec.Key>): (ts: seq<TimerId>)
    ensures |ts| == |due| && forall i :: 0 <= i < |due| ==> ts[i] == due[i].address
  {
    if due == [] then [] else [due[0].address] + Addresses(due[1..])
  }

  /** What was emitted, as the range handed to the scheduler. */
  function Emitted(cbs: seq<Spec.Callback>, means: Meaning): (jobs: seq<Option<Job>>)
    ensures |jobs| == |cbs| && forall i :: 0 <= i < |cbs| ==> jobs[i] == Some(Call(means(cbs[i])))
  {
    if cbs == [] then [] else [Some(Call(means(cbs[0])))] + Emitted(cbs[1..], means)
  }

  /** The state after expiry and bulk submission: the timers due are out of the index, and what
      was emitted is in the queue as bulk submission appends it. */
  function Dispatched(s: State, m: Spec.Entries, means: Meaning, due: seq<Spec.Key>, first: TaskId): State
    requires s.now < CLOCK_MODULUS && Spec.DueListing(m, s.now, due)
  {
    DueLive(m, s.now, due);
    var tasks := Stamped(Emitted(Spec.Callbacks(m, due), means), first, None);
    s.(index := s.index - Members(Addresses(due)), queue := s.queue + tasks,
       submitted := Submitted(s.submitted, tasks))
  }

  lemma DueLive(m: Spec.Entries, now: Time, due: seq<Spec.Key>)
    requires Spec.DueListing(m, now, due)
    ensures forall i :: 0 <= i < |due| ==> due[i].address in m && m[due[i].address].cb.Some?
  {
    forall i | 0 <= i < |due| ensures due[i].address in m && m[due[i].address].cb.Some? {
      assert due[i] in due;
    }
  }

  /** listExpiredCb and then schedule(begin, end), in one worker's idle fiber, is a sequence of
      the protocol's steps: one expiry for each timer due, in index order, and then one
      submission for each. */
  lemma ExpiryRefines(s: State, w: WorkerId, m: Spec.Entries, means: Meaning, due: seq<Spec.Key>, first: TaskId)
    requires Shows(s, m, means) && s.now < CLOCK_MODULUS && Spec.DueListing(m, s.now, due)
    requires w in s.workers && s.workers[w].pc == Idle && forall t :: t in s.index ==> t !in s.taken
    requires forall id :: first <= id ==> id !in s.submitted
    ensures var ts := Addresses(due);
      Play(s, ExpireSteps(w, ts) + FlushSteps(w, ts, first)) == Some(Dispatched(s, m, means, due, first))
  {
    hide Play, MayFlush;
    var ts := Addresses(due);
    DueDistinct(m, s.now, due);
    DueInIndex(s, m, means, due);
    ExpireEach(s, w, ts);
    var mid := TakenOut(s, ts, w);
    InHand(s, w, ts, first);
    FlushEach(mid, w, ts, first);
    PlayOn(s, ExpireSteps(w, ts), FlushSteps(w, ts, first));
    GivenBack(s.taken, ts, w);
    SameRange(s, m, means, due);
    hide ExpireSteps, FlushSteps, Stamped, Submitted;
  }

  /** Afterwards the entries, expired the manager's way, show the protocol's state again. */
  lemma ExpiryShows(s: State, m: Spec.Entries, means: Meaning, due: seq<Spec.Key>, first: TaskId)
    requires Shows(s, m, means) && s.now < CLOCK_MODULUS && Spec.DueListing(m, s.now, due)
    ensures Shows(Dispatched(s, m, means, due, first), Spec.Step(m, Spec.Expire(s.now)), means)
  {
    DueInIndex(s, m, means, due);
  }

  lemma InHand(s: State, w: WorkerId, ts: seq<TimerId>, first: TaskId)
    requires w in s.workers && s.workers[w].pc == Idle && Distinct(ts) && forall t :: t in ts ==> t in s.timers
    requires forall id :: first <= id ==> id !in s.submitted
    ensures MayFlush(TakenOut(s, ts, w), w, ts, first)
  {
  }

  lemma SameRange(s: State, m: Spec.Entries, means: Meaning, due: seq<Spec.Key>)
    requires Shows(s, m, means) && s.now < CLOCK_MODULUS && Spec.DueListing(m, s.now, due)
    ensures forall t :: t in Addresses(due) ==> t in s.timers
    ensures forall i :: 0 <= i < |due| ==> due[i].address in m && m[due[i].address].cb.Some?
    ensures Range(s.timers, Addresses(due)) == Emitted(Spec.Callbacks(m, due), means)
  {
    DueInIndex(s, m, means, due);
    DueLive(m, s.now, due);
  }

  lemma GivenBack(taken: map<TimerId, WorkerId>, ts: seq<TimerId>, w: WorkerId)
    requires forall t :: t in ts ==> t !in taken
    ensures TakenBy(taken, ts, w) - Members(ts) == taken
  {
  }

  lemma DueDistinct(m: Spec.Entries, now: Time, due: seq<Spec.Key>)
    requires Spec.DueListing(m, now, due)
    ensures Distinct(Addresses(due))
  {
    forall i, j | 0 <= i < j < |due| ensures due[i].address != due[j].address {
      assert due[i] in due && due[j] in due && Spec.KeyLess(due[i], due[j]);
    }
  }

  /** The addresses listed are those of the timers that are in the index and due. */
  lemma DueInIndex(s: State, m: Spec.Entries, means: Meaning, due: seq<Spec.Key>)
    requires Shows(s, m, means) && s.now < CLOCK_MODULUS && Spec.DueListing(m, s.now, due)
    ensures forall t :: t in Addresses(due) <==> Spec.Expired(m, t, s.now)
    ensures forall t :: t in Addresses(due) ==> t in s.index && t in s.timers && s.timers[t].deadline <= s.now
    ensures forall i :: 0 <= i < |due| ==>
      means(Spec.Callbacks(m, due)[i]) == s.timers[due[i].address].body
  {
    var ts := Addresses(due);
    forall t ensures t in ts <==> Spec.Expired(m, t, s.now) {
      if Spec.Expired(m, t, s.now) {
        var k := Spec.Key(m[t].deadline, t);
        assert k in due;
        var i :| 0 <= i < |due| && due[i] == k;
        assert ts[i] == t;
      }
      if t in ts {
        var i :| 0 <= i < |due| && ts[i] == t;
        assert due[i] in due;
      }
    }
    forall i | 0 <= i < |due| ensures means(Spec.Callbacks(m, due)[i]) == s.timers[due[i].address].body {
      assert ts[i] in ts;
    }
  }
}
