/** The I/O manager's operations on the event table, updating it in place.  What each does to
    the armed waiters and the task queue is what the protocol's steps assume of it. */
module IOManagers {
  import opened Wrappers
  import opened Protocol
  import opened EventTable

  /** The kernel's side of epoll.  refuse: the call fails for a reason of the kernel's own. */
  class Epoll {
    var interest: map<nat, Mask>

    constructor ()
      ensures interest == map[]
    {
      interest := map[];
    }

    method Control(op: CtlOp, fd: nat, mask: Mask, refuse: bool) returns (ok: bool)
      modifies this
      ensures ok <==> Legal(old(interest), op, fd) && !refuse
      ensures interest == if ok then Ctl(old(interest), op, fd, mask) else old(interest)
    {
      ok := Legal(interest, op, fd) && !refuse;
      if ok {
        interest := Ctl(interest, op, fd, mask);
      }
    }
  }

  datatype EventContext = EventContext(scheduler: bool, fiber: Option<FiberId>, cb: Option<Body>)

  const EMPTY := EventContext(false, None, None)

  /** One waiter, a callback or a fiber. */
  predicate Armed(c: EventContext) { c.scheduler && (c.cb.Some? != c.fiber.Some?) }

  /** What a trigger would schedule: the callback first, else the fiber. */
  function Waiter(c: EventContext): Option<Job> {
    if c.cb.Some? then Some(Call(c.cb.value))
    else if c.fiber.Some? then Some(Resume(c.fiber.value))
    else None
  }

  /** The waiter that arming installs: the callback if there is one, else the current fiber. */
  function Arming(cb: Option<Body>, current: FiberId): Job {
    if cb.Some? then Call(cb.value) else Resume(current)
  }

  class FdContext {
    const fd: nat
    var read: EventContext
    var write: EventContext
    var events: Mask

    constructor (i: nat)
      ensures fd == i && events == 0 && Valid() && forall e :: At(e) == None
    {
      fd, read, write, events := i, EMPTY, EMPTY, 0;
    }

    function Context(e: Event): EventContext
      reads this
    {
      match e
      case READ => read
      case WRITE => write
    }

    /** A context is in use exactly when its event bit is set. */
    ghost predicate Valid()
      reads this
    {
      && WellFormed(events)
      && forall e :: if Has(events, e) then Armed(Context(e)) else Context(e) == EMPTY
    }

    function At(e: Event): Option<Job>
      reads this
    {
      if Has(events, e) then Waiter(Context(e)) else None
    }

    method SetContext(e: Event, c: EventContext)
      modifies this`read, this`write
      ensures Context(e) == c && forall f :: f != e ==> Context(f) == old(Context(f))
    {
      match e {
        case READ => read := c;
        case WRITE => write := c;
      }
    }

    /** The end of addEvent: set the bit and fill the context, with the callback if there is
        one and else the current fiber. */
    method Arm(e: Event, cb: Option<Body>, current: FiberId)
      requires Valid() && !Has(events, e)
      modifies this
      ensures Valid() && events == Plus(old(events), e)
      ensures forall f :: At(f) == if f == e then Some(Arming(cb, current)) else old(At(f))
    {
      hide Has, WellFormed, Plus, Minus, Without;
      MaskSet(events, e, Plus(events, e));
      assert Context(e) == EMPTY;
      events := Plus(events, e);
      if cb.Some? {
        SetContext(e, EventContext(true, None, cb));
      } else {
        SetContext(e, EventContext(true, Some(current), None));
      }
    }

    /** The end of removeEvent: clear the bit and reset the context. */
    method Disarm(e: Event)
      requires Valid() && Has(events, e)
      modifies this
      ensures Valid() && events == Minus(old(events), e)
      ensures forall f :: At(f) == if f != e then old(At(f)) else None
    {
      hide Has, WellFormed, Plus, Minus, Without;
      MaskCut(events, e, Minus(events, e));
      events := Minus(events, e);
      SetContext(e, EMPTY);
    }

    /** triggerEvent: clear the bit and hand the waiter to the scheduler, which swaps it out of
        the context. */
    method TriggerEvent(e: Event) returns (job: Job)
      requires Valid() && Has(events, e)
      modifies this
      ensures Valid() && events == Minus(old(events), e)
      ensures Some(job) == old(At(e))
      ensures forall f :: At(f) == if f != e then old(At(f)) else None
    {
      hide Has, WellFormed, Plus, Minus, Without;
      MaskCut(events, e, Minus(events, e));
      events := Minus(events, e);
      var c := Context(e);
      if c.cb.Some? {
        job := Call(c.cb.value);
        SetContext(e, c.(cb := None));
      } else {
        job := Resume(c.fiber.value);
        SetContext(e, c.(fiber := None));
      }
      SetContext(e, Context(e).(scheduler := false));
    }
  }

  function MasksOf(cs: seq<FdContext>): (masks: seq<Mask>)
    reads cs`events
    ensures |masks| == |cs| && forall i :: 0 <= i < |cs| ==> masks[i] == cs[i].events
  {
    if cs == [] then [] else [cs[0].events] + MasksOf(cs[1..])
  }

  /** What a wake-up schedules, reader first. */
  function Scheduled(reader: Option<Job>, writer: Option<Job>): seq<Job> {
    (if reader.Some? then [reader.value] else []) + (if writer.Some? then [writer.value] else [])
  }

  /** The waiter, if its event is ready. */
  function When(ready: bool, waiter: Option<Job>): Option<Job> {
    if ready then waiter else None
  }

  /** Each waiter that is woken is scheduled, and nothing else, the reader first. */
  lemma ScheduledIs(before: seq<Job>, reader: bool, r: Option<Job>, writer: bool, w: Option<Job>)
    ensures before + Scheduled(When(reader, r), When(writer, w))
         == before + (if reader && r.Some? then [r.value] else []) + (if writer && w.Some? then [w.value] else [])
  {
  }

  lemma WhenArmed(ready: bool, waiter: Option<Job>)
    requires waiter.Some? ==> ready
    ensures When(ready, waiter) == When(true, waiter)
  {
  }

  /** Both events are ready, and exactly one of them is armed: for any other report the ready
      events are all armed or none is. */
  predicate Mixed(readable: bool, writeable: bool, reader: Option<Job>, writer: Option<Job>) {
    readable && writeable && reader.Some? != writer.Some?
  }

  class IOManager {
    const epoll: Epoll
    var contexts: seq<FdContext>
    var pendingEventCount: int
    var tasks: seq<Job>              // the scheduler's queue

    /** Every descriptor has a context of its own, each context is in use exactly for its
        event bits, and counter, bits and interest list agree. */
    ghost predicate Table()
      reads this, epoll, contexts
    {
      && (forall i, j :: 0 <= i < j < |contexts| ==> contexts[i] != contexts[j])
      && (forall i :: 0 <= i < |contexts| ==> contexts[i].fd == i && contexts[i].Valid())
      && Agrees(MasksOf(contexts), epoll.interest, pendingEventCount)
    }

    /** The table starts with 32 contexts, so growing it by half always reaches the descriptor. */
    ghost predicate Valid()
      reads this, epoll, contexts
    {
      Table() && 32 <= |contexts|
    }

    constructor Empty()
      ensures contexts == [] && tasks == [] && pendingEventCount == 0
      ensures fresh(epoll) && epoll.interest == map[]
    {
      epoll := new Epoll();
      contexts, pendingEventCount, tasks := [], 0, [];
    }

    /** A new manager: the table gets its first 32 contexts. */
    static method Create() returns (m: IOManager)
      ensures fresh(m) && fresh(m.epoll) && forall i :: 0 <= i < |m.contexts| ==> fresh(m.contexts[i])
      ensures m.Valid() && m.tasks == [] && m.pendingEventCount == 0
      ensures forall s: Slot :: m.At(s) == None
    {
      hide *;
      m := new IOManager.Empty();
      m.EmptyTable();
      m.Grow(32);
      m.Sized();
    }

    lemma EmptyTable()
      requires contexts == [] && pendingEventCount == 0 && epoll.interest == map[]
      ensures Table() && forall s: Slot :: At(s) == None
    {
    }

    /** The waiter armed for a slot. */
    function At(slot: Slot): Option<Job>
      reads this, contexts
    {
      if slot.fd < |contexts| then contexts[slot.fd].At(slot.event) else None
    }

    lemma Unreached(fd: nat)
      ensures |contexts| <= fd ==> forall e :: At(Slot(fd, e)) == None
    {
    }

    /** The table grows to the given size (SafeContextResize). */
    method Grow(size: nat)
      requires Table() && |contexts| <= size
      modifies this`contexts
      ensures Table() && |contexts| == size
      ensures forall i :: 0 <= i < |old(contexts)| ==> contexts[i] == old(contexts)[i]
      ensures forall i :: |old(contexts)| <= i < size ==> fresh(contexts[i])
      ensures forall s: Slot :: At(s) == old(At(s))
    {
      hide Agrees, ArmedSlots, Has, MasksOf, Waiter, FdContext.Valid, FdContext.At;
      while |contexts| < size
        invariant Table() && |old(contexts)| <= |contexts| <= size
        invariant forall i :: 0 <= i < |old(contexts)| ==> contexts[i] == old(contexts)[i]
        invariant forall i :: |old(contexts)| <= i < |contexts| ==> fresh(contexts[i])
        invariant forall s: Slot :: At(s) == old(At(s))
      {
        var c := new FdContext(|contexts|);
        GrowAgrees(MasksOf(contexts), epoll.interest, pendingEventCount);
        assert MasksOf(contexts + [c]) == MasksOf(contexts) + [0];
        contexts := contexts + [c];
      }
    }

    lemma Entry(fd: nat)
      requires Table() && fd < |contexts|
      ensures contexts[fd].Valid() && WellFormed(contexts[fd].events) && MasksOf(contexts)[fd] == contexts[fd].events
      ensures forall i :: 0 <= i < |contexts| && i != fd ==> contexts[i] != contexts[fd]
      ensures Agrees(MasksOf(contexts), epoll.interest, pendingEventCount)
      ensures forall e :: At(Slot(fd, e)) == contexts[fd].At(e)
      ensures forall e :: contexts[fd].At(e).Some? <==> Has(contexts[fd].events, e)
    {
      hide Agrees, Has, MasksOf;
    }

    /** Context fd changed, and nothing else in the table. */
    twostate lemma MasksNow(fd: nat)
      requires fd < |contexts| && contexts == old(contexts)
      requires forall i :: 0 <= i < |contexts| && i != fd ==> unchanged(contexts[i])
      ensures MasksOf(contexts) == old(MasksOf(contexts))[fd := contexts[fd].events]
    {
      hide MasksOf;
    }

    /** The table is in order again. */
    twostate lemma Kept(fd: nat)
      requires old(Table()) && fd < |contexts| && contexts == old(contexts)
      requires forall i :: 0 <= i < |contexts| && i != fd ==> unchanged(contexts[i])
      requires contexts[fd].Valid() && Agrees(MasksOf(contexts), epoll.interest, pendingEventCount)
      ensures Table()
      ensures forall s: Slot :: At(s) == if s.fd == fd then contexts[fd].At(s.event) else old(At(s))
    {
      hide Agrees, MasksOf, Has;
    }

    /** addEvent, once the table reaches the descriptor. */
    method ArmAt(fd: nat, e: Event, cb: Option<Body>, current: FiberId, refuse: bool) returns (r: int)
      requires Table() && fd < |contexts|
      modifies this`pendingEventCount, epoll, contexts[fd]
      ensures Table()
      ensures r == (if old(At(Slot(fd, e))).None? && !refuse then 0 else -1)
      ensures forall s: Slot :: At(s) == if s == Slot(fd, e) && r == 0 then Some(Arming(cb, current)) else old(At(s))
    {
      hide *;
      var ctx := contexts[fd];
      Entry(fd);
      if Has(ctx.events, e) {
        return -1;
      }
      var op := if ctx.events != 0 then MOD else ADD;
      AgreesArm(MasksOf(contexts), epoll.interest, pendingEventCount, fd, e);
      var ok := epoll.Control(op, fd, Plus(ctx.events, e), refuse);
      if !ok {
        Kept(fd);
        return -1;
      }
      pendingEventCount := pendingEventCount + 1;
      ctx.Arm(e, cb, current);
      MasksNow(fd);
      Kept(fd);
      return 0;
    }

    /** addEvent */
    method AddEvent(fd: nat, e: Event, cb: Option<Body>, current: FiberId, refuse: bool) returns (r: int)
      requires Valid()
      modifies this`contexts, this`pendingEventCount, epoll, contexts
      ensures Valid() && old(|contexts|) <= |contexts|
      ensures forall i :: 0 <= i < old(|contexts|) ==> contexts[i] == old(contexts)[i]
      ensures forall i :: old(|contexts|) <= i < |contexts| ==> fresh(contexts[i])
      ensures r == (if old(At(Slot(fd, e))).None? && !refuse then 0 else -1)
      ensures forall s: Slot :: At(s) == if s == Slot(fd, e) && r == 0 then Some(Arming(cb, current)) else old(At(s))
    {
      hide Table, FdContext.At;
      if |contexts| <= fd {
        Grow(fd * 3 / 2);
      }
      r := ArmAt(fd, e, cb, current, refuse);
    }

    /** The part of removeEvent and cancelEvent they share, once the context is found and the
        event known to be armed: change or delete the registration, then drop or schedule the
        waiter. */
    method DropAt(fd: nat, e: Event, schedule: bool, refuse: bool) returns (ok: bool)
      requires Table() && fd < |contexts| && Has(contexts[fd].events, e)
      modifies this`pendingEventCount, this`tasks, epoll, contexts[fd]
      ensures Table() && ok == !refuse
      ensures forall s: Slot :: At(s) == if s == Slot(fd, e) && ok then None else old(At(s))
      ensures tasks == old(tasks) + if ok && schedule then [old(At(Slot(fd, e))).value] else []
    {
      hide *;
      var ctx := contexts[fd];
      Entry(fd);
      var left := Minus(ctx.events, e);
      var op := if left != 0 then MOD else DEL;
      AgreesDrop(MasksOf(contexts), epoll.interest, pendingEventCount, fd, e);
      ok := epoll.Control(op, fd, left, refuse);
      if !ok {
        Kept(fd);
        return;
      }
      pendingEventCount := pendingEventCount - 1;
      if schedule {
        var job := ctx.TriggerEvent(e);
        tasks := tasks + [job];
      } else {
        ctx.Disarm(e);
      }
      MasksNow(fd);
      Kept(fd);
    }

    /** removeEvent: the waiter is dropped. */
    method RemoveEvent(fd: nat, e: Event, refuse: bool) returns (ok: bool)
      requires Valid()
      modifies this`pendingEventCount, this`tasks, epoll, contexts
      ensures Valid() && tasks == old(tasks)
      ensures ok <==> old(At(Slot(fd, e))).Some? && !refuse
      ensures forall s: Slot :: At(s) == if s == Slot(fd, e) && ok then None else old(At(s))
    {
      hide Table, Has, FdContext.At;
      if |contexts| <= fd {
        return false;
      }
      Entry(fd);
      if !Has(contexts[fd].events, e) {
        return false;
      }
      ok := DropAt(fd, e, false, refuse);
    }

    /** cancelEvent: the waiter is scheduled. */
    method CancelEvent(fd: nat, e: Event, refuse: bool) returns (ok: bool)
      requires Valid()
      modifies this`pendingEventCount, this`tasks, epoll, contexts
      ensures Valid()
      ensures ok <==> old(At(Slot(fd, e))).Some? && !refuse
      ensures forall s: Slot :: At(s) == if s == Slot(fd, e) && ok then None else old(At(s))
      ensures tasks == old(tasks) + if ok then [old(At(Slot(fd, e))).value] else []
    {
      hide *;
      TableOf();
      Unreached(fd);
      if |contexts| <= fd {
        return false;
      }
      Entry(fd);
      if !Has(contexts[fd].events, e) {
        return false;
      }
      ok := DropAt(fd, e, true, refuse);
      Sized();
    }

    /** Trigger the ready events of a context one after the other.  Triggering an event that is
        not armed is an assertion failure. */
    method Wake(ctx: FdContext, ready: Mask) returns (aborted: bool)
      requires ctx.Valid() && WellFormed(ready)
      modifies ctx, this`pendingEventCount, this`tasks
      ensures aborted <==> Unarmed(old(ctx.events), ready)
      ensures !aborted ==>
        && ctx.Valid() && ctx.events == Without(old(ctx.events), ready)
        && (forall f :: ctx.At(f) == if Has(ready, f) then None else old(ctx.At(f)))
        && tasks == old(tasks)
                    + Scheduled(When(Has(ready, READ), old(ctx.At(READ))), When(Has(ready, WRITE), old(ctx.At(WRITE))))
        && pendingEventCount == old(pendingEventCount) - Count(ready)
    {
      hide Has, WellFormed, Plus, Minus, Without, FdContext.At, Armed;
      MaskLess(ctx.events, ready, Without(ctx.events, ready));
      MaskEmpty(ready);
      if Has(ready, READ) {
        if !Has(ctx.events, READ) {
          return true;
        }
        MaskCut(ctx.events, READ, Minus(ctx.events, READ));
        var job := ctx.TriggerEvent(READ);
        tasks := tasks + [job];
        pendingEventCount := pendingEventCount - 1;
      }
      if Has(ready, WRITE) {
        if !Has(ctx.events, WRITE) {
          return true;
        }
        var job := ctx.TriggerEvent(WRITE);
        tasks := tasks + [job];
        pendingEventCount := pendingEventCount - 1;
      }
      return false;
    }

    /** Drop the ready events of a context from the registration and wake their waiters. */
    method WakeAt(fd: nat, ready: Mask, refuse: bool) returns (ok: bool, aborted: bool)
      requires Table() && fd < |contexts| && WellFormed(ready)
      requires Meets(contexts[fd].events, ready)
      modifies this`pendingEventCount, this`tasks, epoll, contexts[fd]
      ensures ok == !refuse && (aborted <==> ok && Unarmed(old(contexts[fd].events), ready))
      ensures !aborted ==>
        && Table()
        && (forall s: Slot :: At(s) == if s.fd == fd && Has(ready, s.event) && ok then None else old(At(s)))
        && tasks == old(tasks) + if ok then
             Scheduled(When(Has(ready, READ), old(At(Slot(fd, READ)))),
                       When(Has(ready, WRITE), old(At(Slot(fd, WRITE)))))
           else []
    {
      hide *;
      var ctx := contexts[fd];
      Entry(fd);
      ghost var armed := ctx.events;
      var left := Without(ctx.events, ready);
      var op := if left != 0 then MOD else DEL;
      ReadyOrNot(MasksOf(contexts), epoll.interest, pendingEventCount, fd, ready, left);
      ok := epoll.Control(op, fd, left, refuse);
      if !ok {
        Kept(fd);
        return false, false;
      }
      aborted := Wake(ctx, ready);
      if !aborted {
        MasksNow(fd);
        Kept(fd);
      }
    }

    lemma NoneArmed(fd: nat)
      requires Table() && fd < |contexts| && contexts[fd].events == 0
      ensures forall e :: At(Slot(fd, e)) == None
    {
      NoEvents();
    }

    /** cancelAll: every waiter of the descriptor is scheduled. */
    method CancelAll(fd: nat, refuse: bool) returns (ok: bool)
      requires Valid()
      modifies this`pendingEventCount, this`tasks, epoll, contexts
      ensures Valid()
      ensures ok <==> (exists e :: old(At(Slot(fd, e))).Some?) && !refuse
      ensures forall s: Slot :: At(s) == if s.fd == fd && ok then None else old(At(s))
      ensures var r, w := old(At(Slot(fd, READ))), old(At(Slot(fd, WRITE)));
        tasks == old(tasks) + (if ok && r.Some? then [r.value] else []) + (if ok && w.Some? then [w.value] else [])
    {
      hide *;
      TableOf();
      Unreached(fd);
      if |contexts| <= fd {
        return false;
      }
      Entry(fd);
      var events := contexts[fd].events;
      MaskEmpty(events);
      Overlap(events, events);
      if events == 0 {
        NoneArmed(fd);
        return false;
      }
      AllArmed(events);
      ghost var e := if Has(events, READ) then READ else WRITE;
      assert Has(events, e) && At(Slot(fd, e)).Some?;
      var aborted;
      ok, aborted := WakeAt(fd, events, refuse);
      Sized();
      if ok {
        WhenArmed(Has(events, READ), old(At(Slot(fd, READ))));
        WhenArmed(Has(events, WRITE), old(At(Slot(fd, WRITE))));
        ScheduledIs(old(tasks), true, old(At(Slot(fd, READ))), true, old(At(Slot(fd, WRITE))));
      }
    }

    /** The kernel reports events of a descriptor: what idle does with one report.  The assertion
        fails exactly when a reported event is armed and another one is not. */
    method Dispatch(fd: nat, reported: Mask, refuse: bool) returns (aborted: bool)
      requires Valid() && fd < |contexts|
      modifies this`pendingEventCount, this`tasks, epoll, contexts
      ensures var readable, writeable := Concerns(reported, READ), Concerns(reported, WRITE);
        && (aborted <==> !refuse && Mixed(readable, writeable, old(At(Slot(fd, READ))), old(At(Slot(fd, WRITE)))))
        && (!aborted ==>
              && Valid()
              && (forall s: Slot ::
                    At(s) == if s.fd == fd && !refuse && (if s.event == READ then readable else writeable) then None
                             else old(At(s)))
              && var r, w := old(At(Slot(fd, READ))), old(At(Slot(fd, WRITE)));
                 tasks == old(tasks) + (if readable && !refuse && r.Some? then [r.value] else [])
                                     + (if writeable && !refuse && w.Some? then [w.value] else []))
    {
      hide *;
      TableOf();
      Entry(fd);
      var ready := ReadyOf(reported);
      MixedIs(fd, ready);
      if !Meets(contexts[fd].events, ready) {
        if !refuse {
          ghost var r, w := old(At(Slot(fd, READ))), old(At(Slot(fd, WRITE)));
        ScheduledIs(old(tasks), Has(ready, READ), r, Has(ready, WRITE), w);
        }
        return false;
      }
      var ok;
      ok, aborted := WakeAt(fd, ready, refuse);
      Sized();
      if !refuse && !aborted {
        ghost var r, w := old(At(Slot(fd, READ))), old(At(Slot(fd, WRITE)));
        ScheduledIs(old(tasks), Has(ready, READ), r, Has(ready, WRITE), w);
      }
    }

    lemma TableOf()
      requires Valid()
      ensures Table() && 32 <= |contexts|
    {
    }

    lemma Sized()
      ensures Valid() <==> Table() && 32 <= |contexts|
    {
    }

    /** When a report concerns the descriptor at all, and when only in part. */
    lemma MixedIs(fd: nat, ready: Mask)
      requires Table() && fd < |contexts| && WellFormed(ready)
      ensures var m, reader, writer := contexts[fd].events, At(Slot(fd, READ)), At(Slot(fd, WRITE));
        && (Mixed(Has(ready, READ), Has(ready, WRITE), reader, writer) <==> Meets(m, ready) && Unarmed(m, ready))
        && (!Meets(m, ready) ==>
              && (forall e :: Has(ready, e) ==> At(Slot(fd, e)) == None)
              && Scheduled(When(Has(ready, READ), reader), When(Has(ready, WRITE), writer)) == [])
    {
      Entry(fd);
      Overlap(contexts[fd].events, ready);
      hide Table, Has, FdContext.At, Meets, WellFormed;
    }

    // -------------------------------------------------------------------------------------
    // Refinement of the protocol

    /** The event table and the queue are those of a protocol state. */
    ghost predicate Shows(s: State)
      reads this, contexts
    {
      && (forall slot: Slot :: At(slot) == if slot in s.slots then Some(s.slots[slot]) else None)
      && tasks == Jobs(s.queue)
    }

    /** What AddEvent does on success is the protocol's arming step. */
    twostate lemma AddRefines(s: State, w: WorkerId, slot: Slot, current: FiberId)
      requires old(Shows(s)) && IoEnabled(s, w, ArmOk) && current == s.workers[w].pc.fiber
      requires slot == s.calls[ProgOf(s, w).call].slot && tasks == old(tasks)
      requires forall x: Slot :: At(x) == if x == slot then Some(Arming(None, current)) else old(At(x))
      ensures Shows(IoApply(s, w, ArmOk))
    {
      hide IOManager.At;
    }

    /** With a callback it is the step that arms one. */
    twostate lemma AddCallbackRefines(s: State, w: WorkerId, slot: Slot, current: FiberId)
      requires old(Shows(s)) && CodeEnabled(s, w, ArmCallback(slot)) && tasks == old(tasks)
      requires forall x: Slot :: At(x) == if x == slot then Some(Arming(Some(UserBody), current)) else old(At(x))
      ensures Shows(CodeApply(s, w, ArmCallback(slot)))
    {
      hide IOManager.At;
    }

    /** What waking does - cancelEvent, cancelAll, and the dispatch of any report - is the
        protocol's trigger for the reader, if it is woken and there is one, and then for the
        writer: a waiter moves from its slot to the end of the queue. */
    twostate lemma WakesRefines(s: State, fd: nat, reader: bool, writer: bool, id: TaskId, next: TaskId)
      requires old(Shows(s))
      requires forall x: Slot ::
        At(x) == if x.fd == fd && (if x.event == READ then reader else writer) then None else old(At(x))
      requires var r, w := old(At(Slot(fd, READ))), old(At(Slot(fd, WRITE)));
        tasks == old(tasks) + (if reader && r.Some? then [r.value] else [])
                            + (if writer && w.Some? then [w.value] else [])
      ensures Shows(TriggerIf(TriggerIf(s, Slot(fd, READ), reader, id), Slot(fd, WRITE), writer, next))
    {
      hide IOManager.At, Jobs, TriggerIf;
      var t := TriggerIf(s, Slot(fd, READ), reader, id);
      TriggeredSlots(s, Slot(fd, READ), reader, id);
      TriggeredSlots(t, Slot(fd, WRITE), writer, next);
      forall x: Slot | x.fd == fd ensures x == Slot(fd, READ) || x == Slot(fd, WRITE) {
        match x.event { case READ => case WRITE => }
      }
      TriggeredTwice(s, Slot(fd, READ), reader, id, Slot(fd, WRITE), writer, next);
    }

    /** Nothing is lost and nothing invented: what the queue gained is what the emptied contexts
        held, and a reader is before a writer. */
    twostate lemma WakesExactly(fd: nat, reader: bool, writer: bool)
      requires forall s: Slot ::
        At(s) == if s.fd == fd && (if s.event == READ then reader else writer) then None else old(At(s))
      requires var r, w := old(At(Slot(fd, READ))), old(At(Slot(fd, WRITE)));
        tasks == old(tasks) + (if reader && r.Some? then [r.value] else [])
                            + (if writer && w.Some? then [w.value] else [])
      ensures old(tasks) <= tasks
      ensures var r, w := Slot(fd, READ), Slot(fd, WRITE);
        var gained := tasks[|old(tasks)|..];
        var readerGone := old(At(r)).Some? && At(r).None?;
        var writerGone := old(At(w)).Some? && At(w).None?;
        && multiset(gained) == (if readerGone then multiset{old(At(r)).value} else multiset{})
                             + (if writerGone then multiset{old(At(w)).value} else multiset{})
        && (readerGone && writerGone ==> gained == [old(At(r)).value, old(At(w)).value])
      ensures forall s: Slot :: old(At(s)).Some? && At(s).None? ==> s.fd == fd
    {
      hide IOManager.At;
      var r, w := old(At(Slot(fd, READ))), old(At(Slot(fd, WRITE)));
      var first := if reader && r.Some? then [r.value] else [];
      var second := if writer && w.Some? then [w.value] else [];
      assert tasks == old(tasks) + (first + second);
      assert tasks[|old(tasks)|..] == first + second;
    }

    lemma AtReaches(slot: Slot)
      ensures At(slot).Some? ==> slot.fd < |contexts|
    {
    }

    /** A table with a single waiter can be had: one event armed on a new manager. */
    static method OneWaiter(fd: nat, e: Event, current: FiberId) returns (m: IOManager)
      ensures fresh(m) && m.Valid() && fd < |m.contexts|
      ensures forall s: Slot :: m.At(s) == if s == Slot(fd, e) then Some(Resume(current)) else None
    {
      hide *;
      m := Create();
      var r := m.AddEvent(fd, e, None, current, false);
      m.AtReaches(Slot(fd, e));
      ArmsFiber(current);
    }
  }

  lemma ArmsFiber(current: FiberId)
    ensures Arming(None, current) == Resume(current)
  {
  }

  /** After an error or a hang-up the assertion fails, unless the kernel refuses, exactly when one
      of the two events is armed and the other is not. */
  lemma HangUpExact(reported: Mask, reader: Option<Job>, writer: Option<Job>)
    requires Failed(reported)
    ensures Mixed(Concerns(reported, READ), Concerns(reported, WRITE), reader, writer) <==> reader.Some? != writer.Some?
  {
  }

  function Jobs(queue: seq<Task>): (jobs: seq<Job>)
    ensures |jobs| == |queue| && forall i :: 0 <= i < |queue| ==> jobs[i] == queue[i].job
  {
    if queue == [] then [] else [queue[0].job] + Jobs(queue[1..])
  }

  /** The trigger of a slot that is to be woken, if somebody waits there. */
  function TriggerIf(s: State, slot: Slot, woken: bool, id: TaskId): State {
    if woken && slot in s.slots then TriggerSlot(s, slot, id) else s
  }

  lemma TriggeredTwice(s: State, r: Slot, reader: bool, id: TaskId, w: Slot, writer: bool, next: TaskId)
    requires r != w
    ensures Jobs(TriggerIf(TriggerIf(s, r, reader, id), w, writer, next).queue)
         == Jobs(s.queue) + (if reader && r in s.slots then [s.slots[r]] else [])
                          + (if writer && w in s.slots then [s.slots[w]] else [])
  {
    hide Jobs, TriggerIf;
    TriggeredSlots(s, r, reader, id);
    TriggeredJobs(s, r, reader, id);
    TriggeredJobs(TriggerIf(s, r, reader, id), w, writer, next);
  }

  lemma TriggeredSlots(s: State, slot: Slot, woken: bool, id: TaskId)
    ensures TriggerIf(s, slot, woken, id).slots == if woken then s.slots - {slot} else s.slots
  {
  }

  lemma TriggeredJobs(s: State, slot: Slot, woken: bool, id: TaskId)
    ensures Jobs(TriggerIf(s, slot, woken, id).queue)
         == Jobs(s.queue) + (if woken && slot in s.slots then [s.slots[slot]] else [])
  {
    if woken && slot in s.slots {
      JobsAppend(s.queue, Task(id, s.slots[slot], None));
    }
  }

  lemma JobsAppend(queue: seq<Task>, task: Task)
    ensures Jobs(queue + [task]) == Jobs(queue) + [task.job]
  {
  }

  lemma GrowAgrees(masks: seq<Mask>, interest: map<nat, Mask>, pending: int)
    requires Agrees(masks, interest, pending)
    ensures Agrees(masks + [0], interest, pending)
  {
    NoEvents();
    assert ArmedSlots(masks + [0]) == ArmedSlots(masks);
  }

  lemma NoEvents()
    ensures forall e :: !Has(0, e)
  {
    forall e ensures !Has(0, e) {
      match e { case READ => case WRITE => }
    }
  }
}
