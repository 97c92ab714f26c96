/** The I/O manager's event table: the context of every descriptor, the number of pending
    events, and the kernel's epoll interest list.  They are updated together by every
    operation and must agree. */
module EventTable {
  import opened Wrappers
  import opened Protocol

  // ---------------------------------------------------------------------------------------
  // Event masks

  type Mask = bv8

  const EPOLLIN: Mask := 0x1
  const EPOLLOUT: Mask := 0x4
  const EPOLLERR: Mask := 0x8
  const EPOLLHUP: Mask := 0x10

  function Bit(e: Event): Mask {
    match e
    case READ => 0x1
    case WRITE => 0x4
  }

  /** Both events. */
  const BOTH: Mask := 0x5

  predicate Has(m: Mask, e: Event) { m & Bit(e) != 0 }

  // events | event, events & ~event, and events & ~real_events.
  function Plus(m: Mask, e: Event): Mask { m | Bit(e) }
  function Minus(m: Mask, e: Event): Mask { m & !Bit(e) }
  function Without(m: Mask, ready: Mask): Mask { m & !ready }
  predicate Meets(m: Mask, ready: Mask) { m & ready != 0 }

  predicate WellFormed(m: Mask) { m & !BOTH == 0 }

  lemma MaskSet(m: Mask, e: Event, r: Mask)
    requires WellFormed(m) && r == Plus(m, e)
    ensures WellFormed(r) && r != 0
    ensures forall f :: Has(r, f) <==> Has(m, f) || f == e
  {
    forall f ensures Has(r, f) <==> Has(m, f) || f == e {
      match e { case READ => case WRITE => }
      match f { case READ => case WRITE => }
    }
  }

  lemma MaskCut(m: Mask, e: Event, r: Mask)
    requires WellFormed(m) && r == Minus(m, e)
    ensures WellFormed(r)
    ensures forall f :: Has(r, f) <==> Has(m, f) && f != e
  {
    forall f ensures Has(r, f) <==> Has(m, f) && f != e {
      match e { case READ => case WRITE => }
      match f { case READ => case WRITE => }
    }
  }

  /** The kernel reports an error or a hang-up. */
  predicate Failed(reported: Mask) { reported & (EPOLLERR | EPOLLHUP) != 0 }

  /** A report wakes the waiters of this event: it names it, or an error or a hang-up. */
  predicate Concerns(reported: Mask, e: Event) { Has(reported, e) || Failed(reported) }

  /** real_events: the source first widens an error or a hang-up to both events and then tests
      the input and the output bit. */
  function ReadyOf(reported: Mask): (ready: Mask)
    ensures WellFormed(ready)
    ensures forall e :: Has(ready, e) <==> Concerns(reported, e)
    ensures ready & 0x1 != 0 <==> reported & 0x1 != 0 || reported & 0x8 != 0 || reported & 0x10 != 0
    ensures ready & 0x4 != 0 <==> reported & 0x4 != 0 || reported & 0x8 != 0 || reported & 0x10 != 0
  {
    var ready := InOut(Widened(reported));
    WidenedBits(reported);
    assert reported & 0x18 != 0 <==> reported & 0x8 != 0 || reported & 0x10 != 0;
    assert Has(ready, READ) <==> ready & 0x1 != 0;
    assert Has(ready, WRITE) <==> ready & 0x4 != 0;
    assert EPOLLERR | EPOLLHUP == 0x18;
    ready
  }

  function Widened(reported: Mask): Mask {
    if reported & (EPOLLERR | EPOLLHUP) != 0 then reported | EPOLLIN | EPOLLOUT else reported
  }

  function InOut(all: Mask): Mask {
    (if all & EPOLLIN != 0 then 0x1 else 0x0) | (if all & EPOLLOUT != 0 then 0x4 else 0x0)
  }

  lemma WidenedBits(reported: Mask)
    ensures WellFormed(InOut(Widened(reported)))
    ensures forall e :: Has(InOut(Widened(reported)), e) <==> Concerns(reported, e)
  {
    forall e ensures Has(InOut(Widened(reported)), e) <==> Concerns(reported, e) {
      match e { case READ => case WRITE => }
    }
  }

  lemma MaskEmpty(m: Mask)
    requires WellFormed(m)
    ensures m == 0 <==> !Has(m, READ) && !Has(m, WRITE)
  {
  }

  // ---------------------------------------------------------------------------------------
  // Agreement, on values

  /** The armed events over all descriptors. */
  function ArmedSlots(masks: seq<Mask>): (s: set<Slot>)
    ensures forall x :: x in s <==> x.fd < |masks| && Has(masks[x.fd], x.event)
  {
    if masks == [] then {}
    else
      var n := |masks| - 1;
      assert forall x: Slot :: x.fd < n ==> masks[..n][x.fd] == masks[x.fd];
      ArmedSlots(masks[..n])
      + (if Has(masks[n], READ) then {Slot(n, READ)} else {})
      + (if Has(masks[n], WRITE) then {Slot(n, WRITE)} else {})
  }

  /** The pending counter counts the armed events, and the kernel watches exactly the
      descriptors with an armed event, for exactly those events. */
  ghost predicate Agrees(masks: seq<Mask>, interest: map<nat, Mask>, pending: int) {
    && (forall fd: nat :: fd < |masks| ==> WellFormed(masks[fd]))
    && pending == |ArmedSlots(masks)|
    && (forall fd: nat :: fd in interest <==> fd < |masks| && masks[fd] != 0)
    && (forall fd :: fd in interest ==> interest[fd] == masks[fd])
  }

  datatype CtlOp = ADD | MOD | DEL

  /** The kernel refuses to add what is there and to change or delete what is not. */
  predicate Legal(interest: map<nat, Mask>, op: CtlOp, fd: nat) {
    if op == ADD then fd !in interest else fd in interest
  }

  function Ctl(interest: map<nat, Mask>, op: CtlOp, fd: nat, mask: Mask): map<nat, Mask> {
    if op == DEL then interest - {fd} else interest[fd := mask]
  }

  /** Arming one event with the operation the source picks: it is legal, and keeps agreement. */
  lemma AgreesArm(masks: seq<Mask>, interest: map<nat, Mask>, pending: int, fd: nat, e: Event)
    requires Agrees(masks, interest, pending) && fd < |masks| && !Has(masks[fd], e)
    ensures var op := if masks[fd] != 0 then MOD else ADD;
      var mask := Plus(masks[fd], e);
      && Legal(interest, op, fd)
      && Agrees(masks[fd := mask], Ctl(interest, op, fd, mask), pending + 1)
      && ArmedSlots(masks[fd := mask]) == ArmedSlots(masks) + {Slot(fd, e)}
  {
    hide Has, WellFormed, ArmedSlots, Plus, Minus;
    var mask := Plus(masks[fd], e);
    MaskSet(masks[fd], e, mask);
    assert ArmedSlots(masks[fd := mask]) == ArmedSlots(masks) + {Slot(fd, e)};
    assert Slot(fd, e) !in ArmedSlots(masks);
  }

  /** Dropping one event likewise. */
  lemma AgreesDrop(masks: seq<Mask>, interest: map<nat, Mask>, pending: int, fd: nat, e: Event)
    requires Agrees(masks, interest, pending) && fd < |masks| && Has(masks[fd], e)
    ensures var mask := Minus(masks[fd], e);
      var op := if mask != 0 then MOD else DEL;
      && Legal(interest, op, fd)
      && Agrees(masks[fd := mask], Ctl(interest, op, fd, mask), pending - 1)
      && ArmedSlots(masks[fd := mask]) == ArmedSlots(masks) - {Slot(fd, e)}
  {
    hide Has, WellFormed, ArmedSlots, Plus, Minus;
    var mask := Minus(masks[fd], e);
    MaskCut(masks[fd], e, mask);
    MaskEmpty(masks[fd]);
    assert ArmedSlots(masks[fd := mask]) == ArmedSlots(masks) - {Slot(fd, e)};
    assert Slot(fd, e) in ArmedSlots(masks);
  }

  function Count(m: Mask): nat {
    (if Has(m, READ) then 1 else 0) + (if Has(m, WRITE) then 1 else 0)
  }

  lemma MaskLess(m: Mask, ready: Mask, left: Mask)
    requires WellFormed(m) && WellFormed(ready) && left == Without(m, ready)
    ensures WellFormed(left)
    ensures forall e :: Has(left, e) <==> Has(m, e) && !Has(ready, e)
    ensures Has(ready, READ) && !Has(ready, WRITE) ==> left == Minus(m, READ)
    ensures !Has(ready, READ) && Has(ready, WRITE) ==> left == Minus(m, WRITE)
    ensures !Has(ready, READ) && !Has(ready, WRITE) ==> left == m
    ensures Has(ready, READ) && Has(ready, WRITE) ==> left == Minus(Minus(m, READ), WRITE)
  {
    forall e ensures Has(left, e) <==> Has(m, e) && !Has(ready, e) {
      match e { case READ => case WRITE => }
    }
  }

  lemma Overlap(m: Mask, ready: Mask)
    requires WellFormed(m) && WellFormed(ready)
    ensures Meets(m, ready) <==> (Has(m, READ) && Has(ready, READ)) || (Has(m, WRITE) && Has(ready, WRITE))
  {
    if Has(m, READ) && Has(ready, READ) {
      assert m & ready != 0;
    } else if Has(m, WRITE) && Has(ready, WRITE) {
      assert m & ready != 0;
    } else {
      assert m & ready == 0;
    }
  }

  lemma AgreesMask(masks: seq<Mask>, interest: map<nat, Mask>, pending: int, fd: nat)
    requires Agrees(masks, interest, pending) && fd < |masks|
    ensures WellFormed(masks[fd])
  {
  }

  /** Dropping the ready events of a descriptor in one go, when all of them are armed. */
  lemma AgreesReady(masks: seq<Mask>, interest: map<nat, Mask>, pending: int, fd: nat, ready: Mask, left: Mask)
    requires Agrees(masks, interest, pending) && fd < |masks| && left == Without(masks[fd], ready)
    requires WellFormed(ready) && ready != 0 && forall e :: Has(ready, e) ==> Has(masks[fd], e)
    ensures var op := if left != 0 then MOD else DEL;
      && Legal(interest, op, fd)
      && Agrees(masks[fd := left], Ctl(interest, op, fd, left), pending - Count(ready))
  {
    hide Has, WellFormed, ArmedSlots, Plus, Minus, Without, Agrees;
    assert WellFormed(masks[fd]) by { AgreesMask(masks, interest, pending, fd); }
    MaskLess(masks[fd], ready, left);
    MaskEmpty(ready);
    MaskEmpty(left);
    if Has(ready, READ) && !Has(ready, WRITE) {
      AgreesDrop(masks, interest, pending, fd, READ);
    } else if Has(ready, WRITE) && !Has(ready, READ) {
      AgreesDrop(masks, interest, pending, fd, WRITE);
    } else {
      var first := Minus(masks[fd], READ);
      MaskCut(masks[fd], READ, first);
      MaskEmpty(first);
      AgreesDrop(masks, interest, pending, fd, READ);
      AgreesDrop(masks[fd := first], Ctl(interest, MOD, fd, first), pending - 1, fd, WRITE);
      assert masks[fd := first][fd := left] == masks[fd := left];
      assert Ctl(Ctl(interest, MOD, fd, first), DEL, fd, left) == Ctl(interest, DEL, fd, left);
    }
  }

  /** Ready events of which at least one is armed: changing the registration is legal; if all of
      them are armed, it keeps agreement. */
  lemma ReadyOrNot(masks: seq<Mask>, interest: map<nat, Mask>, pending: int, fd: nat, ready: Mask, left: Mask)
    requires Agrees(masks, interest, pending) && fd < |masks| && left == Without(masks[fd], ready)
    requires WellFormed(ready) && Meets(masks[fd], ready)
    ensures var op := if left != 0 then MOD else DEL;
      && Legal(interest, op, fd)
      && (!Unarmed(masks[fd], ready) ==>
            Agrees(masks[fd := left], Ctl(interest, op, fd, left), pending - Count(ready)))
  {
    hide Has, WellFormed, ArmedSlots, Plus, Minus, Without, Meets;
    Overlap(masks[fd], ready);
    MaskEmpty(masks[fd]);
    MaskEmpty(ready);
    if !Unarmed(masks[fd], ready) {
      forall e | Has(ready, e) ensures Has(masks[fd], e) {
        match e { case READ => case WRITE => }
      }
      AgreesReady(masks, interest, pending, fd, ready, left);
    }
  }

  /** Some ready event is not armed. */
  predicate Unarmed(armed: Mask, ready: Mask) {
    (Has(ready, READ) && !Has(armed, READ)) || (Has(ready, WRITE) && !Has(armed, WRITE))
  }

  lemma AllArmed(m: Mask)
    ensures !Unarmed(m, m)
  {
  }
}
