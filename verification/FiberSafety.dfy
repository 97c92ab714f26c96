/** One worker per fiber, one wake per wait.

    Stacks: a fiber is on at most one worker's stack, and only a fiber that is on a stack is
    marked EXEC.  Tokens: everything that will make some worker resume fiber f - a queue
    entry, an armed event context, a sleep timer, a wake callback being run - is a token for
    f; a parked fiber has exactly one and any other fiber has none. */
module FiberSafety {
  import opened Wrappers
  import opened Clock
  import opened Protocol
  import opened Effects
  import opened TaskSafety

  // ---------------------------------------------------------------------------------------
  // Stacks

  predicate OnStack(s: State, f: FiberId, w: WorkerId) {
    w in s.workers && s.workers[w].pc.On? && s.workers[w].pc.fiber == f
  }

  predicate SpareOf(s: State, f: FiberId, w: WorkerId) {
    w in s.workers && s.workers[w].spare == Some(f)
  }

  ghost predicate IsOn(s: State, f: FiberId) { exists w :: OnStack(s, f, w) }
  ghost predicate IsSpare(s: State, f: FiberId) { exists w :: SpareOf(s, f, w) }

  /** Waiting for a wake, and its own code is done until then. */
  predicate Suspended(fiber: Fiber) {
    fiber.state == EXEC && (fiber.prog.WaitYield? || fiber.prog.SleepYield?)
  }

  /** What a fiber on a stack looks like at each stage of its worker's loop. */
  predicate StageOk(stage: Stage, fiber: Fiber) {
    || (fiber.state == EXEC && stage == Running && fiber.prog != ReadyYield && fiber.prog != Ended)
    || Suspended(fiber)
    || (fiber.state == READY && fiber.prog == ReadyYield)
    || (fiber.state == TERM && fiber.prog == Ended)
  }

  ghost predicate StackInv(s: State) {
    && (forall f, w :: OnStack(s, f, w) ==>
          && f in s.fibers && StageOk(s.workers[w].pc.stage, s.fibers[f])
          && s.workers[w].pc.viaCallback == (s.workers[w].spare == Some(f)))
    && (forall f, v, w :: OnStack(s, f, v) && OnStack(s, f, w) ==> v == w)
    && (forall f :: f in s.fibers && s.fibers[f].state == EXEC ==> IsOn(s, f))
  }

  /** Where the program of a fiber in each state stands. */
  predicate RestOk(fiber: Fiber) {
    match fiber.state
    case INIT => fiber.prog == User || fiber.prog == Done
    case HOLD => fiber.prog.WaitYield? || fiber.prog.SleepYield?
    case READY => fiber.prog == ReadyYield
    case TERM => fiber.prog == Ended
    case EXEC => true
  }

  ghost predicate SpareInv(s: State) {
    && (forall f, v, w :: SpareOf(s, f, v) && SpareOf(s, f, w) ==> v == w)
    && (forall f, v, w :: SpareOf(s, f, v) && OnStack(s, f, w) ==> v == w)
    && (forall f, w :: SpareOf(s, f, w) ==> f in s.fibers && (s.fibers[f].state == INIT || OnStack(s, f, w)))
    && (forall f :: f in s.fibers ==> RestOk(s.fibers[f]))
  }

  /** The assertion at the head of Fiber::resume will hold for every dequeued fiber. */
  ghost predicate ResumeInv(s: State) {
    forall w :: w in s.workers && s.workers[w].pc.Took? && s.workers[w].pc.task.job.Resume? ==>
      var f := s.workers[w].pc.task.job.fiber;
      f in s.fibers && s.fibers[f].state != EXEC && s.fibers[f].state != TERM
  }

  // ---------------------------------------------------------------------------------------
  // Tokens

  datatype Place =
    | InTask(id: TaskId)        // queued, or in the hands of the worker that dequeued it
    | InSlot(slot: Slot)        // armed event context
    | InTimer(timer: TimerId)   // sleep timer
    | InCallback(runner: FiberId)

  function BodyTarget(body: Body): Option<FiberId> {
    if body.WakeBody? then Some(body.sleeper) else None
  }

  function Target(job: Job): Option<FiberId> {
    if job.Resume? then Some(job.fiber) else BodyTarget(job.body)
  }

  predicate Token(s: State, f: FiberId, p: Place) {
    match p
    case InTask(id) => Live(s, id) && Target(s.submitted[id].job) == Some(f)
    case InSlot(slot) => slot in s.slots && Target(s.slots[slot]) == Some(f)
    case InTimer(t) =>
      (t in s.index || t in s.taken) && t in s.timers && BodyTarget(s.timers[t].body) == Some(f)
    case InCallback(c) => c in s.fibers && s.fibers[c].prog == WakeDue(f)
  }

  ghost predicate HasToken(s: State, f: FiberId) { exists p :: Token(s, f, p) }

  ghost predicate Parked(s: State, f: FiberId) {
    && f in s.fibers
    && match s.fibers[f].state
       case INIT => !IsSpare(s, f)
       case HOLD => true
       case EXEC => Suspended(s.fibers[f])
       case READY => !IsOn(s, f)
       case TERM => false
  }

  ghost predicate TokenInv(s: State) {
    && (forall f, p :: Token(s, f, p) ==> Parked(s, f))
    && (forall f :: Parked(s, f) ==> HasToken(s, f))
    && (forall f, p, q :: Token(s, f, p) && Token(s, f, q) ==> p == q)
  }

  /** A hooked call's timer handle names a timeout timer, never a sleeper's timer. */
  predicate HandleOk(timers: map<TimerId, Timer>, t: Option<TimerId>) {
    t.Some? ==> t.value in timers && timers[t.value].body.TimeoutBody?
  }

  predicate ProgHandleOk(timers: map<TimerId, Timer>, prog: Prog) {
    (prog.Arm? || prog.ArmFailed? || prog.WaitYield? || prog.Woken?) ==> HandleOk(timers, prog.timer)
  }

  ghost predicate HandleInv(s: State) {
    && (forall f :: f in s.fibers ==> ProgHandleOk(s.timers, s.fibers[f].prog))
    && (forall t :: t in s.index || t in s.taken ==> t in s.timers)
    && (forall t :: t in s.index ==> t !in s.taken)
  }

  ghost predicate FiberInv(s: State) {
    TaskInv(s) && StackInv(s) && SpareInv(s) && ResumeInv(s) && TokenInv(s) && HandleInv(s)
  }

  lemma FiberInit(s: State)
    requires Init(s)
    ensures FiberInv(s)
  {
    TaskInit(s);
    forall f, p ensures !Token(s, f, p) {
      match p
      case InTask(_) =>
      case InSlot(_) =>
      case InTimer(_) =>
      case InCallback(_) =>
    }
  }

  /** The token discipline survives when one fiber's token moves, appears or disappears
      together with the fiber's need for it. */
  lemma TokenChange(s: State, t: State, g: FiberId, from: Option<Place>, to: Option<Place>)
    requires TokenInv(s)
    requires from.Some? ==> Token(s, g, from.value)
    requires from.None? && to.Some? ==> !Parked(s, g)
    requires forall f, p :: Token(t, f, p) <==> (Token(s, f, p) && Some(p) != from) || (f == g && Some(p) == to)
    requires forall f :: f != g ==> (Parked(t, f) <==> Parked(s, f))
    requires Parked(t, g) <==> (if from.None? && to.None? then Parked(s, g) else to.Some?)
    ensures TokenInv(t)
  {
    forall f | Parked(t, f) ensures HasToken(t, f) {
      if f == g && to.Some? {
        assert Token(t, f, to.value);
      } else {
        assert Parked(s, f) && HasToken(s, f);
        var p :| Token(s, f, p);
        assert Token(t, f, p);
      }
    }
  }

  lemma TokensAgree(s: State, t: State)
    requires t.submitted == s.submitted && t.begun == s.begun && t.slots == s.slots
    requires t.timers == s.timers && (forall x :: (x in t.index || x in t.taken) <==> (x in s.index || x in s.taken))
    requires forall c, f :: Token(t, f, InCallback(c)) <==> Token(s, f, InCallback(c))
    ensures forall f, p :: Token(t, f, p) <==> Token(s, f, p)
  {
    forall f, p ensures Token(t, f, p) <==> Token(s, f, p) {
      match p
      case InTask(_) =>
      case InSlot(_) =>
      case InTimer(_) =>
      case InCallback(_) =>
    }
  }

  /** A dequeued fiber task is its fiber's token. */
  lemma TookToken(s: State, w: WorkerId)
    requires HandInv(s) && w in s.workers && s.workers[w].pc.Took?
    requires Target(s.workers[w].pc.task.job).Some?
    ensures Token(s, Target(s.workers[w].pc.task.job).value, InTask(s.workers[w].pc.task.id))
  {
  }

  // ---------------------------------------------------------------------------------------
  // Scanning steps

  lemma FiberScanStep(s: State, w: WorkerId, step: ScanStep)
    requires FiberInv(s) && w in s.workers && ScanEnabled(s, w, step)
    ensures FiberInv(ScanApply(s, w, step))
  {
    hide TaskInv, StackInv, SpareInv, TokenInv, HandleInv;
    var t := ScanApply(s, w, step);
    TaskScanStep(s, w, step);
    ScanEffect(s, w, step);
    ScanKeepsStacks(s, t, w, Scanned(s, w, step));
    if step.ScanTake? {
      QueuedResumes(s, FirstEligible(s.queue, s.fibers, w).value);
    }
    assert ResumeInv(t);
  }

  /** A queued fiber exists and has not finished. */
  lemma QueuedResumes(s: State, i: nat)
    requires TaskInv(s) && TokenInv(s) && i < |s.queue|
    ensures s.queue[i].job.Resume? ==>
      var f := s.queue[i].job.fiber; f in s.fibers && s.fibers[f].state != TERM
  {
    if s.queue[i].job.Resume? {
      assert Token(s, s.queue[i].job.fiber, InTask(s.queue[i].id));
    }
  }

  lemma ScanKeepsStacks(s: State, t: State, w: WorkerId, me: Worker)
    requires StackInv(s) && SpareInv(s) && TokenInv(s) && HandleInv(s)
    requires w in s.workers && t.workers == s.workers[w := me]
    requires me.spare == s.workers[w].spare && !me.pc.On? && !s.workers[w].pc.On?
    requires t.fibers == s.fibers && SameOutside(s, t) && t.submitted == s.submitted && t.begun == s.begun
    ensures StackInv(t) && SpareInv(t) && TokenInv(t) && HandleInv(t)
  {
    assert forall f, v :: OnStack(t, f, v) <==> OnStack(s, f, v);
    assert forall f, v :: SpareOf(t, f, v) <==> SpareOf(s, f, v);
    assert forall f :: IsOn(t, f) <==> IsOn(s, f);
    assert forall f :: IsSpare(t, f) <==> IsSpare(s, f);
    assert forall f :: Parked(t, f) <==> Parked(s, f);
    TokensAgree(s, t);
    TokenChange(s, t, 0, None, None);
  }

  // ---------------------------------------------------------------------------------------
  // Running steps

  /** A dequeued fiber is on no stack and is nobody's spare. */
  lemma TookIsFree(s: State, w: WorkerId, f: FiberId)
    requires FiberInv(s) && w in s.workers && s.workers[w].pc.Took? && s.workers[w].pc.task.job == Resume(f)
    ensures Token(s, f, InTask(s.workers[w].pc.task.id)) && Parked(s, f) && !IsOn(s, f) && !IsSpare(s, f)
  {
    TookToken(s, w);
    assert Parked(s, f);
    assert forall v, g :: OnStack(s, g, v) ==> StageOk(s.workers[v].pc.stage, s.fibers[g]);
  }

  lemma ExecStillOn(s: State, t: State, w: WorkerId, f: FiberId)
    requires StackInv(s) && w in s.workers && w in t.workers && !s.workers[w].pc.On?
    requires t.workers == s.workers[w := t.workers[w]] && OnStack(t, f, w)
    requires f in t.fibers && t.fibers == s.fibers[f := t.fibers[f]]
    ensures forall g :: g in t.fibers && t.fibers[g].state == EXEC ==> IsOn(t, g)
  {
    forall g | g in t.fibers && t.fibers[g].state == EXEC ensures IsOn(t, g) {
      if g != f {
        assert IsOn(s, g);
        var v :| OnStack(s, g, v);
        assert OnStack(t, g, v);
      }
    }
  }

  /** Putting a free fiber on the stack of a worker that has none there. */
  lemma EnterStack(s: State, t: State, w: WorkerId, f: FiberId)
    requires StackInv(s) && SpareInv(s) && w in s.workers && w in t.workers && !s.workers[w].pc.On?
    requires !IsOn(s, f) && forall v :: SpareOf(s, f, v) ==> v == w
    requires t.workers == s.workers[w := t.workers[w]]
    requires var me := t.workers[w];
      && me.pc == On(f, me.spare == Some(f), Running)
      && (me.spare == s.workers[w].spare || (me.spare == Some(f) && s.workers[w].spare == None))
    requires f in t.fibers && t.fibers == s.fibers[f := t.fibers[f]]
    requires t.fibers[f].state == EXEC && t.fibers[f].prog != ReadyYield && t.fibers[f].prog != Ended
    ensures StackInv(t) && SpareInv(t)
  {
    assert forall g, v :: OnStack(t, g, v) <==> if v == w then g == f else OnStack(s, g, v);
    assert forall g, v :: SpareOf(t, g, v) ==> SpareOf(s, g, v) || (v == w && g == f);
    ExecStillOn(s, t, w, f);
  }

  lemma BeginFiberKeeps(s: State, t: State, w: WorkerId, f: FiberId)
    requires FiberInv(s) && w in s.workers && s.workers[w].pc.Took? && s.workers[w].pc.task.job == Resume(f)
    requires SameOutside(s, t) && t.submitted == s.submitted && f in s.fibers
    requires t.workers == s.workers[w := s.workers[w].(pc := On(f, false, Running))]
    requires t.fibers == s.fibers[f := Fiber(EXEC, Resumed(s.fibers[f].prog))]
    requires t.begun == s.begun[s.workers[w].pc.task.id := w]
    ensures StackInv(t) && SpareInv(t) && ResumeInv(t) && TokenInv(t) && HandleInv(t)
  {
    hide FiberInv, TokenInv, ResumeInv, HandleInv, StackInv;
    BeginFiberTokens(s, t, w, f);
    BeginFiberResumes(s, t, w, f);
    TookIsFree(s, w, f);
    hide Token, Parked;
    assert !SpareOf(s, f, w);
    Stacked(s);
    hide SpareInv;
    EnterStack(s, t, w, f);
  }

  lemma Stacked(s: State)
    requires FiberInv(s)
    ensures StackInv(s) && SpareInv(s)
  {
  }

  lemma BeginFiberResumes(s: State, t: State, w: WorkerId, f: FiberId)
    requires FiberInv(s) && w in s.workers && s.workers[w].pc.Took? && s.workers[w].pc.task.job == Resume(f)
    requires SameOutside(s, t) && f in s.fibers
    requires t.workers == s.workers[w := s.workers[w].(pc := On(f, false, Running))]
    requires t.fibers == s.fibers[f := Fiber(EXEC, Resumed(s.fibers[f].prog))]
    ensures ResumeInv(t) && HandleInv(t)
  {
    hide StackInv, SpareInv;
    TookToken(s, w);
    forall v | v in t.workers && t.workers[v].pc.Took? && t.workers[v].pc.task.job.Resume?
      ensures t.workers[v].pc.task.job.fiber != f
    {
      TookToken(s, v);
      assert HeldBy(s, s.workers[v].pc.task.id, v) && HeldBy(s, s.workers[w].pc.task.id, w);
    }
  }

  lemma BeginFiberTokens(s: State, t: State, w: WorkerId, f: FiberId)
    requires FiberInv(s) && w in s.workers && s.workers[w].pc.Took? && s.workers[w].pc.task.job == Resume(f)
    requires SameOutside(s, t) && t.submitted == s.submitted && f in s.fibers
    requires t.workers == s.workers[w := s.workers[w].(pc := On(f, false, Running))]
    requires t.fibers == s.fibers[f := Fiber(EXEC, Resumed(s.fibers[f].prog))]
    requires t.begun == s.begun[s.workers[w].pc.task.id := w]
    ensures TokenInv(t)
  {
    TookIsFree(s, w, f);
    var id := s.workers[w].pc.task.id;
    OthersParked(s, t, w, f);
    forall g, p ensures Token(t, g, p) <==> (Token(s, g, p) && Some(p) != Some(InTask(id))) {
      match p
      case InTask(_) =>
      case InSlot(_) =>
      case InTimer(_) =>
      case InCallback(_) =>
    }
    TokenChange(s, t, f, Some(InTask(id)), None);
  }

  /** Putting f on w's stack changes nothing for the other fibers. */
  lemma OthersParked(s: State, t: State, w: WorkerId, f: FiberId)
    requires w in s.workers && !s.workers[w].pc.On? && w in t.workers
    requires t.workers == s.workers[w := t.workers[w]]
    requires t.workers[w].pc.On? && t.workers[w].pc.fiber == f
    requires t.workers[w].spare == s.workers[w].spare || (t.workers[w].spare == Some(f) && s.workers[w].spare == None)
    requires f in t.fibers && t.fibers == s.fibers[f := t.fibers[f]]
    ensures forall g :: g != f ==> (Parked(t, g) <==> Parked(s, g))
  {
    forall g | g != f ensures Parked(t, g) <==> Parked(s, g) {
      assert forall v :: OnStack(t, g, v) <==> OnStack(s, g, v);
      assert forall v :: SpareOf(t, g, v) <==> SpareOf(s, g, v);
      assert IsOn(t, g) <==> IsOn(s, g);
      assert IsSpare(t, g) <==> IsSpare(s, g);
    }
  }

  lemma BeginCallKeeps(s: State, t: State, w: WorkerId, c: FiberId)
    requires FiberInv(s) && w in s.workers && s.workers[w].pc.Took? && s.workers[w].pc.task.job.Call?
    requires if s.workers[w].spare.Some? then c == s.workers[w].spare.value else c !in s.fibers
    requires SameOutside(s, t) && t.submitted == s.submitted
    requires t.workers == s.workers[w := s.workers[w].(pc := On(c, true, Running), spare := Some(c))]
    requires t.fibers == s.fibers[c := Fiber(EXEC, StartOf(s.workers[w].pc.task.job.body))]
    requires t.begun == s.begun[s.workers[w].pc.task.id := w]
    ensures StackInv(t) && SpareInv(t) && ResumeInv(t) && TokenInv(t) && HandleInv(t)
  {
    hide FiberInv, TokenInv, ResumeInv, HandleInv, StackInv, SpareInv, Token, Parked;
    BeginCallTokens(s, t, w, c);
    BeginCallResumes(s, t, w, c);
    RunnerIsFree(s, w, c);
    Stacked(s);
    EnterStack(s, t, w, c);
  }

  lemma BeginCallResumes(s: State, t: State, w: WorkerId, c: FiberId)
    requires FiberInv(s) && w in s.workers && s.workers[w].pc.Took? && s.workers[w].pc.task.job.Call?
    requires SameOutside(s, t)
    requires if s.workers[w].spare.Some? then c == s.workers[w].spare.value else c !in s.fibers
    requires t.workers == s.workers[w := s.workers[w].(pc := On(c, true, Running), spare := Some(c))]
    requires t.fibers == s.fibers[c := Fiber(EXEC, StartOf(s.workers[w].pc.task.job.body))]
    ensures ResumeInv(t) && HandleInv(t)
  {
    RunnerIsFree(s, w, c);
    hide StackInv, SpareInv;
    forall v | v in t.workers && t.workers[v].pc.Took? && t.workers[v].pc.task.job.Resume?
      ensures t.workers[v].pc.task.job.fiber != c
    {
      TookToken(s, v);
    }
  }

  /** The fiber that will run a function task has no token and is on no stack. */
  lemma RunnerIsFree(s: State, w: WorkerId, c: FiberId)
    requires FiberInv(s) && w in s.workers && s.workers[w].pc.Took?
    requires if s.workers[w].spare.Some? then c == s.workers[w].spare.value else c !in s.fibers
    ensures !Parked(s, c) && (forall p :: !Token(s, c, p)) && !IsOn(s, c)
    ensures forall v :: SpareOf(s, c, v) ==> v == w
    ensures c in s.fibers ==> s.fibers[c].state == INIT
  {
    if s.workers[w].spare.Some? {
      assert SpareOf(s, c, w);
    }
    assert forall v :: !OnStack(s, c, v);
  }

  lemma BeginCallTokens(s: State, t: State, w: WorkerId, c: FiberId)
    requires FiberInv(s) && w in s.workers && s.workers[w].pc.Took? && s.workers[w].pc.task.job.Call?
    requires if s.workers[w].spare.Some? then c == s.workers[w].spare.value else c !in s.fibers
    requires SameOutside(s, t) && t.submitted == s.submitted
    requires t.workers == s.workers[w := s.workers[w].(pc := On(c, true, Running), spare := Some(c))]
    requires t.fibers == s.fibers[c := Fiber(EXEC, StartOf(s.workers[w].pc.task.job.body))]
    requires t.begun == s.begun[s.workers[w].pc.task.id := w]
    ensures TokenInv(t)
  {
    RunnerIsFree(s, w, c);
    OthersParked(s, t, w, c);
    var task := s.workers[w].pc.task;
    var target: Option<FiberId> := BodyTarget(task.job.body);
    forall g: FiberId, p: Place
      ensures Token(t, g, p) <==>
        (Token(s, g, p) && !(target.Some? && p == InTask(task.id))) || (target == Some(g) && p == InCallback(c))
    {
      match p
      case InTask(_) =>
      case InSlot(_) =>
      case InTimer(_) =>
      case InCallback(_) =>
    }
    if target.Some? {
      TookToken(s, w);
      TokenChange(s, t, target.value, Some(InTask(task.id)), Some(InCallback(c)));
    } else {
      TokenChange(s, t, c, None, None);
    }
  }

  /** Moving between the stages of a resume. */
  lemma StageKeeps(s: State, t: State, w: WorkerId, stage: Stage)
    requires StackInv(s) && SpareInv(s) && ResumeInv(s) && TokenInv(s) && HandleInv(s)
    requires w in s.workers && s.workers[w].pc.On? && s.workers[w].pc.fiber in s.fibers
    requires t.workers == s.workers[w := s.workers[w].(pc := s.workers[w].pc.(stage := stage))]
    requires StageOk(stage, s.fibers[s.workers[w].pc.fiber])
    requires t.fibers == s.fibers && SameOutside(s, t) && t.submitted == s.submitted && t.begun == s.begun
    ensures StackInv(t) && SpareInv(t) && ResumeInv(t) && TokenInv(t) && HandleInv(t)
  {
    assert forall f, v :: OnStack(t, f, v) <==> OnStack(s, f, v);
    assert forall f, v :: SpareOf(t, f, v) <==> SpareOf(s, f, v);
    assert forall f :: IsOn(t, f) <==> IsOn(s, f);
    assert forall f :: IsSpare(t, f) <==> IsSpare(s, f);
    assert forall f :: Parked(t, f) <==> Parked(s, f);
    TokensAgree(s, t);
    TokenChange(s, t, 0, None, None);
  }

  /** Taking a settled fiber off its worker's stack. */
  lemma LeaveStack(s: State, t: State, w: WorkerId, f: FiberId)
    requires StackInv(s) && SpareInv(s) && ResumeInv(s) && OnStack(s, f, w)
    requires w in t.workers && t.workers == s.workers[w := t.workers[w]]
    requires t.workers[w].pc == Scan
    requires t.workers[w].spare == s.workers[w].spare
          || (t.workers[w].spare == None && s.workers[w].spare == Some(f))
    requires f in t.fibers && t.fibers == s.fibers[f := t.fibers[f]]
    requires t.fibers == s.fibers || t.fibers[f].state != TERM
    requires t.fibers[f].state != EXEC && RestOk(t.fibers[f])
    requires t.workers[w].spare == Some(f) ==> t.fibers[f].state == INIT
    ensures StackInv(t) && SpareInv(t) && ResumeInv(t)
    ensures !IsOn(t, f)
    ensures forall g :: g != f ==> (Parked(t, g) <==> Parked(s, g))
  {
    assert forall g, v :: OnStack(t, g, v) <==> OnStack(s, g, v) && v != w;
    assert forall g, v :: g != f ==> (OnStack(t, g, v) <==> OnStack(s, g, v));
    assert forall g, v :: SpareOf(t, g, v) ==> SpareOf(s, g, v);
    assert forall g, v :: g != f ==> (SpareOf(t, g, v) <==> SpareOf(s, g, v));
    forall g | g != f
      ensures (IsOn(t, g) <==> IsOn(s, g)) && (IsSpare(t, g) <==> IsSpare(s, g)) && (Parked(t, g) <==> Parked(s, g))
    {
      assert forall v :: OnStack(t, g, v) <==> OnStack(s, g, v);
      assert forall v :: SpareOf(t, g, v) <==> SpareOf(s, g, v);
    }
  }

  lemma SettleReadyKeeps(s: State, t: State, w: WorkerId, f: FiberId, task: Task)
    requires FiberInv(s) && OnStack(s, f, w) && s.fibers[f].state == READY
    requires task.job == Resume(f) && Appended(s, t, Some(task)) && t.begun == s.begun
    requires SameOutside(s, t) && t.fibers == s.fibers
    requires t.workers == s.workers[w := BackToScan(s.workers[w])]
    ensures StackInv(t) && SpareInv(t) && ResumeInv(t) && TokenInv(t) && HandleInv(t)
  {
    assert SpareOf(s, f, w) <==> s.workers[w].pc.viaCallback;
    LeaveStack(s, t, w, f);
    assert IsOn(s, f);
    forall g: FiberId, p: Place
      ensures Token(t, g, p) <==> Token(s, g, p) || (g == f && p == InTask(task.id))
    {
      match p
      case InTask(_) =>
      case InSlot(_) =>
      case InTimer(_) =>
      case InCallback(_) =>
    }
    TokenChange(s, t, f, None, Some(InTask(task.id)));
  }

  /** A finished fiber: its worker scans again, and a callback fiber is reset. */
  lemma SettleTermKeeps(s: State, t: State, w: WorkerId, f: FiberId)
    requires FiberInv(s) && OnStack(s, f, w)
    requires t.submitted == s.submitted && t.begun == s.begun && SameOutside(s, t)
    requires s.workers[w].pc.stage == Settle && s.fibers[f].state == TERM
    requires t.workers == s.workers[w := s.workers[w].(pc := Scan)]
    requires t.fibers == if s.workers[w].pc.viaCallback then s.fibers[f := Fiber(INIT, Done)] else s.fibers
    ensures StackInv(t) && SpareInv(t) && ResumeInv(t) && TokenInv(t) && HandleInv(t)
  {
    SettledSpare(s, w, f);
    hide FiberInv, TokenInv, StackInv, SpareInv, ResumeInv;
    assert t.fibers == s.fibers[f := t.fibers[f]];
    SettledNotParked(s, t, w, f);
    SettledTokens(s, t, w, f);
    hide Token, HandleInv;
    LeaveStack(s, t, w, f);
    hide Parked;
    TokenChange(s, t, f, None, None);
  }

  lemma SettledTokens(s: State, t: State, w: WorkerId, f: FiberId)
    requires HandleInv(s) && SameOutside(s, t) && t.submitted == s.submitted && t.begun == s.begun
    requires w in s.workers && f in s.fibers && StageOk(Settle, s.fibers[f]) && s.fibers[f].state == TERM
    requires s.workers[w].pc.On?
    requires t.fibers == if s.workers[w].pc.viaCallback then s.fibers[f := Fiber(INIT, Done)] else s.fibers
    ensures forall g, p :: Token(t, g, p) <==> Token(s, g, p)
    ensures HandleInv(t)
  {
    TokensAgree(s, t);
  }

  lemma SettledNotParked(s: State, t: State, w: WorkerId, f: FiberId)
    requires OnStack(s, f, w) && f in s.fibers && s.fibers[f].state == TERM
    requires SpareOf(s, f, w) <==> s.workers[w].pc.viaCallback
    requires t.workers == s.workers[w := s.workers[w].(pc := Scan)]
    requires t.fibers == if s.workers[w].pc.viaCallback then s.fibers[f := Fiber(INIT, Done)] else s.fibers
    ensures !Parked(s, f) && !Parked(t, f)
  {
    assert SpareOf(t, f, w) ==> IsSpare(t, f);
  }

  /** A fiber run for a callback is its worker's spare. */
  lemma SettledSpare(s: State, w: WorkerId, f: FiberId)
    requires StackInv(s) && SpareInv(s) && OnStack(s, f, w)
    ensures SpareOf(s, f, w) <==> s.workers[w].pc.viaCallback
    ensures f in s.fibers && StageOk(s.workers[w].pc.stage, s.fibers[f])
  {
  }

  /** A fiber that gave up the stack to wait is marked HOLD only now. */
  lemma SettleHoldKeeps(s: State, t: State, w: WorkerId, f: FiberId)
    requires FiberInv(s) && OnStack(s, f, w)
    requires t.submitted == s.submitted && t.begun == s.begun && SameOutside(s, t)
    requires s.workers[w].pc.stage == Settle && s.fibers[f].state == EXEC
    requires t.workers == s.workers[w := BackToScan(s.workers[w])]
    requires t.fibers == s.fibers[f := s.fibers[f].(state := HOLD)]
    ensures StackInv(t) && SpareInv(t) && ResumeInv(t) && TokenInv(t) && HandleInv(t)
  {
    assert SpareOf(s, f, w) <==> s.workers[w].pc.viaCallback;
    assert t.fibers == s.fibers[f := t.fibers[f]];
    LeaveStack(s, t, w, f);
    assert SpareOf(t, f, w) ==> IsSpare(t, f);
    hide TokenInv, StackInv, SpareInv, ResumeInv;
    TokensAgree(s, t);
    TokenChange(s, t, f, None, None);
  }

  lemma FiberRunStep(s: State, w: WorkerId, step: RunStep)
    requires FiberInv(s) && w in s.workers && RunEnabled(s, w, step)
    ensures FiberInv(RunApply(s, w, step))
  {
    var t := RunApply(s, w, step);
    TaskRunStep(s, w, step);
    RunEffect(s, w, step);
    var pc := s.workers[w].pc;
    assert pc.On? ==> OnStack(s, pc.fiber, w);
    assert StackInv(t) && SpareInv(t) && ResumeInv(t) && TokenInv(t) && HandleInv(t) by {
      match step
      case BeginFiber => BeginFiberKeeps(s, t, w, pc.task.job.fiber);
      case DropFinished => assert false;
      case BeginCall(c) => BeginCallKeeps(s, t, w, c);
      case Yield => StageKeeps(s, t, w, Back);
      case CountDown => StageKeeps(s, t, w, Settle);
      case SettleReady(id) => SettleReadyKeeps(s, t, w, pc.fiber, Task(id, Resume(pc.fiber), None));
      case SettleTerm => SettleTermKeeps(s, t, w, pc.fiber);
      case SettleHold => SettleHoldKeeps(s, t, w, pc.fiber);
    }
  }

  // ---------------------------------------------------------------------------------------
  // Steps of the running fiber

  /** The running fiber moved on by itself, still on its stack. */
  lemma MoveKeeps(s: State, t: State, w: WorkerId, f: FiberId)
    requires StackInv(s) && SpareInv(s) && ResumeInv(s) && RunsOn(s, w) && f == s.workers[w].pc.fiber
    requires s.fibers[f].state == EXEC
    requires t.workers == s.workers && f in t.fibers && t.fibers == s.fibers[f := t.fibers[f]]
    requires StageOk(Running, t.fibers[f])
    ensures StackInv(t) && SpareInv(t) && ResumeInv(t)
    ensures forall g :: g != f ==> (Parked(t, g) <==> Parked(s, g))
    ensures Parked(t, f) <==> Suspended(t.fibers[f])
  {
    assert OnStack(s, f, w);
    SameStacks(s, t);
    MovedStacks(s, t, w, f);
    MovedSpares(s, t, w, f);
    hide StackInv, SpareInv;
  }

  lemma SameStacks(s: State, t: State)
    requires t.workers == s.workers
    ensures forall g, v :: OnStack(t, g, v) <==> OnStack(s, g, v)
    ensures forall g, v :: SpareOf(t, g, v) <==> SpareOf(s, g, v)
    ensures forall g :: (IsOn(t, g) <==> IsOn(s, g)) && (IsSpare(t, g) <==> IsSpare(s, g))
  {
    assert forall g, v :: OnStack(t, g, v) <==> OnStack(s, g, v);
    assert forall g, v :: SpareOf(t, g, v) <==> SpareOf(s, g, v);
  }

  lemma MovedStacks(s: State, t: State, w: WorkerId, f: FiberId)
    requires StackInv(s) && OnStack(s, f, w) && s.workers[w].pc.stage == Running
    requires t.workers == s.workers && f in t.fibers && t.fibers == s.fibers[f := t.fibers[f]]
    requires StageOk(Running, t.fibers[f])
    ensures StackInv(t)
  {
    SameStacks(s, t);
    assert IsOn(t, f);
    hide IsOn;
    assert forall g, v :: OnStack(s, g, v) && g == f ==> v == w;
  }

  lemma MovedSpares(s: State, t: State, w: WorkerId, f: FiberId)
    requires StackInv(s) && SpareInv(s) && OnStack(s, f, w) && s.fibers[f].state == EXEC
    requires t.workers == s.workers && f in t.fibers && t.fibers == s.fibers[f := t.fibers[f]]
    requires RestOk(t.fibers[f])
    ensures SpareInv(t)
  {
    SameStacks(s, t);
    hide StackInv;
    assert forall v :: SpareOf(s, f, v) ==> v == w && OnStack(t, f, v);
    hide OnStack, SpareOf, RestOk;
  }

  /** A new fiber was created and queued. */
  lemma SpawnKeeps(s: State, t: State, g: FiberId, task: Task)
    requires FiberInv(s) && g !in s.fibers && t.workers == s.workers && t.begun == s.begun
    requires t.fibers == s.fibers[g := Fiber(INIT, User)]
    requires t.slots == s.slots && t.timers == s.timers && t.index == s.index && t.taken == s.taken
    requires task.job == Resume(g) && Appended(s, t, Some(task))
    ensures StackInv(t) && SpareInv(t) && ResumeInv(t) && TokenInv(t) && HandleInv(t)
  {
    SpawnStacks(s, t, g);
    SpawnTokens(s, t, g, task);
    hide Token, TokenInv, StackInv, SpareInv, ResumeInv;
    TokenChange(s, t, g, None, Some(InTask(task.id)));
  }

  lemma SpawnStacks(s: State, t: State, g: FiberId)
    requires StackInv(s) && SpareInv(s) && ResumeInv(s) && g !in s.fibers && t.workers == s.workers
    requires t.fibers == s.fibers[g := Fiber(INIT, User)]
    ensures StackInv(t) && SpareInv(t) && ResumeInv(t)
    ensures !Parked(s, g) && Parked(t, g) && forall h :: h != g ==> (Parked(t, h) <==> Parked(s, h))
  {
    assert forall h, v :: OnStack(t, h, v) <==> OnStack(s, h, v);
    assert forall h, v :: SpareOf(t, h, v) <==> SpareOf(s, h, v);
    forall h ensures (IsOn(t, h) <==> IsOn(s, h)) && (IsSpare(t, h) <==> IsSpare(s, h)) {
      assert forall v :: OnStack(t, h, v) <==> OnStack(s, h, v);
    }
    assert !IsSpare(s, g);
  }

  lemma SpawnTokens(s: State, t: State, g: FiberId, task: Task)
    requires g !in s.fibers && t.begun == s.begun && t.fibers == s.fibers[g := Fiber(INIT, User)]
    requires t.slots == s.slots && t.timers == s.timers && t.index == s.index && t.taken == s.taken
    requires ConservedInv(s) && task.job == Resume(g) && Appended(s, t, Some(task))
    ensures forall h: FiberId, p: Place ::
              Token(t, h, p) <==> Token(s, h, p) || (h == g && p == InTask(task.id))
  {
    forall h: FiberId, p: Place
      ensures Token(t, h, p) <==> Token(s, h, p) || (h == g && p == InTask(task.id))
    {
      match p
      case InTask(_) =>
      case InSlot(_) =>
      case InTimer(_) =>
      case InCallback(_) =>
    }
  }

  /** An event context was triggered: its waiter moved to the queue. */
  lemma TriggerKeepsTokens(s: State, t: State, slot: Slot, task: Task)
    requires FiberInv(s) && slot in s.slots && t.slots == s.slots - {slot}
    requires task.job == s.slots[slot] && Appended(s, t, Some(task)) && t.begun == s.begun
    requires t.timers == s.timers && t.index == s.index && t.taken == s.taken
    requires forall c, f :: Token(t, f, InCallback(c)) <==> Token(s, f, InCallback(c))
    requires forall f :: Parked(t, f) <==> Parked(s, f)
    ensures TokenInv(t)
  {
    var target: Option<FiberId> := Target(s.slots[slot]);
    forall f: FiberId, p: Place
      ensures Token(t, f, p) <==>
        (Token(s, f, p) && !(target.Some? && p == InSlot(slot))) || (target == Some(f) && p == InTask(task.id))
    {
      match p
      case InTask(_) =>
      case InSlot(_) =>
      case InTimer(_) =>
      case InCallback(_) =>
    }
    if target.Some? {
      assert Token(s, target.value, InSlot(slot));
      TokenChange(s, t, target.value, Some(InSlot(slot)), Some(InTask(task.id)));
    } else {
      TokenChange(s, t, 0, None, None);
    }
  }

  /** A task that wakes nobody was queued; nothing else about tokens changed. */
  lemma PlainTaskKeepsTokens(s: State, t: State, o: Option<Task>)
    requires FiberInv(s) && Appended(s, t, o) && t.begun == s.begun
    requires o.Some? ==> Target(o.value.job).None?
    requires t.timers == s.timers
    requires forall slot: Slot :: slot in t.slots && Target(t.slots[slot]).Some? ==>
               slot in s.slots && t.slots[slot] == s.slots[slot]
    requires forall slot: Slot :: slot in s.slots ==> slot in t.slots && t.slots[slot] == s.slots[slot]
    requires forall x :: (x in t.index || x in t.taken) <==> (x in s.index || x in s.taken)
    requires forall c, f :: Token(t, f, InCallback(c)) <==> Token(s, f, InCallback(c))
    requires forall f :: Parked(t, f) <==> Parked(s, f)
    ensures TokenInv(t)
  {
    forall f: FiberId, p: Place ensures Token(t, f, p) <==> Token(s, f, p) {
      match p
      case InTask(_) =>
      case InSlot(_) =>
      case InTimer(_) =>
      case InCallback(_) =>
    }
    TokenChange(s, t, 0, None, None);
  }

  lemma SleepKeepsTokens(s: State, t: State, w: WorkerId, f: FiberId, timer: TimerId, deadline: nat)
    requires FiberInv(s) && RunsOn(s, w) && f == s.workers[w].pc.fiber && s.fibers[f] == Fiber(EXEC, User)
    requires t.workers == s.workers && t.fibers == s.fibers[f := Fiber(EXEC, SleepYield)]
    requires timer !in s.timers && t.timers == s.timers[timer := Timer(deadline, WakeBody(f))]
    requires t.index == s.index + {timer} && t.taken == s.taken && t.slots == s.slots
    requires t.submitted == s.submitted && t.begun == s.begun
    ensures TokenInv(t)
  {
    MoveKeeps(s, t, w, f);
    forall g: FiberId, p: Place
      ensures Token(t, g, p) <==> Token(s, g, p) || (g == f && p == InTimer(timer))
    {
      match p
      case InTask(_) =>
      case InSlot(_) =>
      case InTimer(_) =>
      case InCallback(_) =>
    }
    TokenChange(s, t, f, None, Some(InTimer(timer)));
  }

  /** Code steps that wake nobody and create no fiber. */
  lemma PlainCodeStep(s: State, w: WorkerId, step: CodeStep)
    requires FiberInv(s) && CodeEnabled(s, w, step)
    requires step.SpawnCall? || step.ArmCallback? || step.MakeReady? || step.Finish?
    ensures var t := CodeApply(s, w, step);
      StackInv(t) && SpareInv(t) && ResumeInv(t) && TokenInv(t) && HandleInv(t)
  {
    hide TaskInv, TokenInv, SpareInv, ResumeInv, HasToken;
    var t := CodeApply(s, w, step);
    CodeEffect(s, w, step);
    PlainCodeStacks(s, w, step);
    hide Parked;
    PlainTaskKeepsTokens(s, t, CodeTask(s, w, step));
  }

  lemma PlainCodeStacks(s: State, w: WorkerId, step: CodeStep)
    requires FiberInv(s) && CodeEnabled(s, w, step)
    requires step.SpawnCall? || step.ArmCallback? || step.MakeReady? || step.Finish?
    ensures var t := CodeApply(s, w, step);
      && StackInv(t) && SpareInv(t) && ResumeInv(t)
      && forall f :: Parked(t, f) <==> Parked(s, f)
  {
    hide TaskInv, TokenInv, SpareInv, ResumeInv, HasToken, Parked;
    CodeEffect(s, w, step);
    assert OnStack(s, s.workers[w].pc.fiber, w);
    MoveKeeps(s, CodeApply(s, w, step), w, s.workers[w].pc.fiber);
    NotParked(s, w);
  }

  /** A running fiber that has not suspended itself is not parked. */
  lemma NotParked(s: State, w: WorkerId)
    requires StackInv(s) && RunsOn(s, w)
    requires var fiber := s.fibers[s.workers[w].pc.fiber]; fiber.state == EXEC && !Suspended(fiber)
    ensures !Parked(s, s.workers[w].pc.fiber)
  {
  }

  lemma FiberCodeStep(s: State, w: WorkerId, step: CodeStep)
    requires FiberInv(s) && CodeEnabled(s, w, step)
    ensures FiberInv(CodeApply(s, w, step))
  {
    hide TaskInv, TokenInv, SpareInv, ResumeInv, HasToken;
    var t := CodeApply(s, w, step);
    CodeEffect(s, w, step);
    TaskAppended(s, t, CodeTask(s, w, step));
    var f := s.workers[w].pc.fiber;
    assert OnStack(s, f, w);
    match step
    case SpawnFiber(g, pin, id) => SpawnKeeps(s, t, g, Task(id, Resume(g), pin));
    case CancelSlot(slot, id) =>
      MoveKeeps(s, t, w, f);
      TriggerKeepsTokens(s, t, slot, Task(id, s.slots[slot], None));
    case Sleep(timer, period) =>
      MoveKeeps(s, t, w, f);
      SleepKeepsTokens(s, t, w, f, timer, Deadline(s.now, period));
    case _ => PlainCodeStep(s, w, step);
  }

  /** Tokens after the running fiber dropped a timeout timer. */
  lemma StopTimerKeepsTokens(s: State, t: State, w: WorkerId, f: FiberId, handle: Option<TimerId>)
    requires FiberInv(s) && RunsOn(s, w) && f == s.workers[w].pc.fiber && s.fibers[f].state == EXEC
    requires HandleOk(s.timers, handle)
    requires t.workers == s.workers && f in t.fibers && t.fibers == s.fibers[f := t.fibers[f]]
    requires t.fibers[f].state == EXEC && !s.fibers[f].prog.WakeDue? && !t.fibers[f].prog.WakeDue?
    requires !Suspended(s.fibers[f]) && !Suspended(t.fibers[f]) && StageOk(Running, t.fibers[f])
    requires t.timers == s.timers && t.index == WithoutTimer(s.index, handle) && t.taken == s.taken
    requires t.slots == s.slots && t.submitted == s.submitted && t.begun == s.begun
    ensures TokenInv(t)
  {
    MoveKeeps(s, t, w, f);
    forall g: FiberId, p: Place ensures Token(t, g, p) <==> Token(s, g, p) {
      match p
      case InTask(_) =>
      case InSlot(_) =>
      case InTimer(_) =>
      case InCallback(_) =>
    }
    TokenChange(s, t, f, None, None);
  }

  lemma ArmKeepsTokens(s: State, t: State, w: WorkerId, f: FiberId, slot: Slot)
    requires FiberInv(s) && RunsOn(s, w) && f == s.workers[w].pc.fiber && s.fibers[f].state == EXEC
    requires s.fibers[f].prog.Arm? && slot !in s.slots && t.slots == s.slots[slot := Resume(f)]
    requires t.workers == s.workers && f in t.fibers && t.fibers == s.fibers[f := t.fibers[f]]
    requires t.fibers[f].state == EXEC && t.fibers[f].prog.WaitYield?
    requires t.timers == s.timers && t.index == s.index && t.taken == s.taken
    requires t.submitted == s.submitted && t.begun == s.begun
    ensures TokenInv(t)
  {
    MoveKeeps(s, t, w, f);
    forall g: FiberId, p: Place
      ensures Token(t, g, p) <==> Token(s, g, p) || (g == f && p == InSlot(slot))
    {
      match p
      case InTask(_) =>
      case InSlot(_) =>
      case InTimer(_) =>
      case InCallback(_) =>
    }
    TokenChange(s, t, f, None, Some(InSlot(slot)));
  }

  /** Tokens after a timeout timer was added. */
  lemma BlockKeepsTokens(s: State, t: State, w: WorkerId, f: FiberId)
    requires FiberInv(s) && RunsOn(s, w) && f == s.workers[w].pc.fiber && s.fibers[f].state == EXEC
    requires s.fibers[f].prog.Attempt?
    requires t.workers == s.workers && f in t.fibers && t.fibers == s.fibers[f := t.fibers[f]]
    requires t.fibers[f].state == EXEC && t.fibers[f].prog.Arm?
    requires forall x :: x in s.timers ==> x in t.timers && t.timers[x] == s.timers[x]
    requires forall x :: x in t.timers && x !in s.timers ==> t.timers[x].body.TimeoutBody?
    requires forall x :: x in s.index ==> x in t.index
    requires forall x :: x in t.index && x !in s.index ==> x in t.timers && x !in s.timers
    requires t.taken == s.taken && t.slots == s.slots && t.submitted == s.submitted && t.begun == s.begun
    ensures TokenInv(t)
  {
    MoveKeeps(s, t, w, f);
    forall g: FiberId, p: Place ensures Token(t, g, p) <==> Token(s, g, p) {
      match p
      case InTask(_) =>
      case InSlot(_) =>
      case InTimer(_) =>
      case InCallback(_) =>
    }
    TokenChange(s, t, f, None, None);
  }

  /** Call steps that neither add a timer nor arm an event. */
  lemma PlainIoStep(s: State, w: WorkerId, step: IoStep)
    requires FiberInv(s) && IoEnabled(s, w, step) && !step.WouldBlock? && !step.ArmOk?
    ensures var t := IoApply(s, w, step);
      StackInv(t) && SpareInv(t) && ResumeInv(t) && TokenInv(t) && HandleInv(t)
  {
    hide TaskInv, TokenInv, SpareInv, ResumeInv, HasToken, IoApply;
    var t := IoApply(s, w, step);
    IoEffect(s, w, step);
    var f := s.workers[w].pc.fiber;
    assert OnStack(s, f, w);
    MoveKeeps(s, t, w, f);
    StopTimerKeepsTokens(s, t, w, f, IoDropped(s, w, step));
  }

  lemma FiberIoStep(s: State, w: WorkerId, step: IoStep)
    requires FiberInv(s) && IoEnabled(s, w, step)
    ensures FiberInv(IoApply(s, w, step))
  {
    hide TaskInv, TokenInv, SpareInv, ResumeInv, HasToken;
    var t := IoApply(s, w, step);
    IoEffect(s, w, step);
    TaskAppended(s, t, None);
    var f := s.workers[w].pc.fiber;
    assert OnStack(s, f, w);
    match step
    case WouldBlock(_) =>
      MoveKeeps(s, t, w, f);
      BlockKeepsTokens(s, t, w, f);
    case ArmOk =>
      MoveKeeps(s, t, w, f);
      ArmKeepsTokens(s, t, w, f, s.calls[ProgOf(s, w).call].slot);
    case _ => PlainIoStep(s, w, step);
  }

  lemma WakeKeepsTokens(s: State, t: State, w: WorkerId, c: FiberId, f: FiberId, task: Task)
    requires FiberInv(s) && RunsOn(s, w) && c == s.workers[w].pc.fiber && s.fibers[c] == Fiber(EXEC, WakeDue(f))
    requires t.workers == s.workers && t.fibers == s.fibers[c := Fiber(EXEC, Done)]
    requires task.job == Resume(f) && Appended(s, t, Some(task)) && t.begun == s.begun
    requires t.slots == s.slots && t.timers == s.timers && t.index == s.index && t.taken == s.taken
    ensures TokenInv(t)
  {
    MoveKeeps(s, t, w, c);
    assert Token(s, f, InCallback(c));
    forall g: FiberId, p: Place
      ensures Token(t, g, p) <==> (Token(s, g, p) && p != InCallback(c)) || (g == f && p == InTask(task.id))
    {
      match p
      case InTask(_) =>
      case InSlot(_) =>
      case InTimer(_) =>
      case InCallback(_) =>
    }
    TokenChange(s, t, f, Some(InCallback(c)), Some(InTask(task.id)));
  }

  /** Callback steps that submit nothing. */
  lemma PlainCbStep(s: State, w: WorkerId, step: CbStep)
    requires FiberInv(s) && CbEnabled(s, w, step) && !step.WakeSleeper? && !step.TimeoutTrigger?
    ensures var t := CbApply(s, w, step);
      StackInv(t) && SpareInv(t) && ResumeInv(t) && TokenInv(t) && HandleInv(t)
  {
    hide TaskInv, TokenInv, SpareInv, ResumeInv, HasToken, CbApply;
    var t := CbApply(s, w, step);
    CbEffect(s, w, step);
    assert OnStack(s, s.workers[w].pc.fiber, w);
    MoveKeeps(s, t, w, s.workers[w].pc.fiber);
    PlainTaskKeepsTokens(s, t, None);
  }

  lemma FiberCbStep(s: State, w: WorkerId, step: CbStep)
    requires FiberInv(s) && CbEnabled(s, w, step)
    ensures FiberInv(CbApply(s, w, step))
  {
    hide TaskInv, TokenInv, SpareInv, ResumeInv, HasToken;
    var t := CbApply(s, w, step);
    CbEffect(s, w, step);
    TaskAppended(s, t, CbTask(s, w, step));
    var f := s.workers[w].pc.fiber;
    assert OnStack(s, f, w);
    match step
    case WakeSleeper(id) =>
      var g := ProgOf(s, w).sleeper;
      MoveKeeps(s, t, w, f);
      WakeKeepsTokens(s, t, w, f, g, Task(id, Resume(g), None));
    case TimeoutTrigger(id) =>
      var slot := ProgOf(s, w).slot;
      MoveKeeps(s, t, w, f);
      TriggerKeepsTokens(s, t, slot, Task(id, s.slots[slot], None));
    case _ => PlainCbStep(s, w, step);
  }

  // ---------------------------------------------------------------------------------------
  // Dispatching and outside steps

  /** Stacks, spares and fibers are exactly as before. */
  lemma StacksAgree(s: State, t: State)
    requires StackInv(s) && SpareInv(s) && ResumeInv(s) && t.fibers == s.fibers
    requires t.workers.Keys == s.workers.Keys
    requires forall w :: w in s.workers ==>
               && t.workers[w].spare == s.workers[w].spare
               && (t.workers[w].pc == s.workers[w].pc || (t.workers[w].pc == IdleBack && s.workers[w].pc == Idle))
    ensures StackInv(t) && SpareInv(t) && ResumeInv(t)
    ensures forall f :: Parked(t, f) <==> Parked(s, f)
  {
    assert forall f, v :: OnStack(t, f, v) <==> OnStack(s, f, v);
    assert forall f, v :: SpareOf(t, f, v) <==> SpareOf(s, f, v);
    assert forall f :: IsOn(t, f) <==> IsOn(s, f);
    assert forall f :: IsSpare(t, f) <==> IsSpare(s, f);
  }

  lemma FlushKeepsTokens(s: State, t: State, timer: TimerId, task: Task)
    requires FiberInv(s) && timer in s.taken && timer in s.timers
    requires t.taken == s.taken - {timer} && t.index == s.index && t.timers == s.timers
    requires task.job == Call(s.timers[timer].body) && Appended(s, t, Some(task)) && t.begun == s.begun
    requires t.slots == s.slots && t.fibers == s.fibers
    requires forall f :: Parked(t, f) <==> Parked(s, f)
    ensures TokenInv(t)
  {
    var target: Option<FiberId> := BodyTarget(s.timers[timer].body);
    forall f: FiberId, p: Place
      ensures Token(t, f, p) <==>
        (Token(s, f, p) && !(target.Some? && p == InTimer(timer))) || (target == Some(f) && p == InTask(task.id))
    {
      match p
      case InTask(_) =>
      case InSlot(_) =>
      case InTimer(_) =>
      case InCallback(_) =>
    }
    if target.Some? {
      assert Token(s, target.value, InTimer(timer));
      TokenChange(s, t, target.value, Some(InTimer(timer)), Some(InTask(task.id)));
    } else {
      TokenChange(s, t, 0, None, None);
    }
  }

  lemma FiberIdleStep(s: State, w: WorkerId, step: IdleStep)
    requires FiberInv(s) && w in s.workers && IdleEnabled(s, w, step)
    ensures FiberInv(IdleApply(s, w, step))
  {
    hide TaskInv, TokenInv, SpareInv, ResumeInv, HasToken, StackInv, Parked, Token;
    var t := IdleApply(s, w, step);
    IdleEffect(s, w, step);
    TaskAppended(s, t, IdleTask(s, w, step));
    StacksAgree(s, t);
    IdleKeepsTokens(s, w, step);
  }

  lemma IdleKeepsTokens(s: State, w: WorkerId, step: IdleStep)
    requires FiberInv(s) && w in s.workers && IdleEnabled(s, w, step)
    requires forall f :: Parked(IdleApply(s, w, step), f) <==> Parked(s, f)
    ensures TokenInv(IdleApply(s, w, step))
  {
    hide TaskInv, TokenInv, SpareInv, ResumeInv, HasToken, StackInv, Parked;
    var t := IdleApply(s, w, step);
    IdleEffect(s, w, step);
    match step
    case Flush(timer, id) => FlushKeepsTokens(s, t, timer, Task(id, Call(s.timers[timer].body), None));
    case Trigger(slot, id) => TriggerKeepsTokens(s, t, slot, Task(id, s.slots[slot], None));
    case _ => PlainTaskKeepsTokens(s, t, None);
  }

  lemma FiberOutsideStep(s: State, step: OutsideStep)
    requires FiberInv(s) && OutsideEnabled(s, step)
    ensures FiberInv(OutsideApply(s, step))
  {
    hide TaskInv, TokenInv, SpareInv, ResumeInv, HasToken, StackInv;
    var t := OutsideApply(s, step);
    OutsideEffect(s, step);
    TaskAppended(s, t, OutsideTask(s, step));
    if step.SubmitFiber? {
      SpawnKeeps(s, t, step.child, Task(step.id, Resume(step.child), step.pin));
    } else {
      StacksAgree(s, t);
      PlainTaskKeepsTokens(s, t, OutsideTask(s, step));
    }
  }

  lemma FiberStep(s: State, step: Step)
    requires FiberInv(s) && Enabled(s, step)
    ensures FiberInv(Apply(s, step))
  {
    hide FiberInv;
    match step
    case Scanning(w, a) => FiberScanStep(s, w, a);
    case Stacking(w, a) => FiberRunStep(s, w, a);
    case Dispatch(w, a) => FiberIdleStep(s, w, a);
    case Code(w, a) => FiberCodeStep(s, w, a);
    case Hooked(w, a) => FiberIoStep(s, w, a);
    case Callback(w, a) => FiberCbStep(s, w, a);
    case Outside(a) => FiberOutsideStep(s, a);
  }
}
