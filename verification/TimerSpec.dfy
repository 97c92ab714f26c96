/** What the timer manager means: a map from timers to entries.  The ordered index is not part
    of it - it is determined by the entries that still have a callback. */
module TimerSpec {
  import opened Wrappers
  import opened Clock

  type Address = nat
  type Callback = nat

  /** A timer without a callback was cancelled or was a one-shot that expired. */
  datatype Entry = Entry(recurring: bool, period: Time, deadline: Time, cb: Option<Callback>)

  /** What the index orders by. */
  datatype Key = Key(deadline: Time, address: Address)

  type Entries = map<Address, Entry>

  // ---------------------------------------------------------------------------------------
  // The order of the index

  /** The comparator: the null pointer first, then by deadline, then by address. */
  predicate Less(l: Option<Key>, r: Option<Key>) {
    if l.None? && r.None? then false
    else if l.None? then true
    else if r.None? then false
    else if l.value.deadline == r.value.deadline then l.value.address < r.value.address
    else l.value.deadline < r.value.deadline
  }

  /** The order spelled out, and the null pointer before every timer. */
  lemma LessIs(l: Key, r: Key)
    ensures Less(Some(l), Some(r)) <==> l.deadline < r.deadline || (l.deadline == r.deadline && l.address < r.address)
    ensures KeyLess(l, r) <==> Less(Some(l), Some(r))
    ensures Less(None, Some(r)) && !Less(Some(l), None) && !Less(None, None)
  {
  }

  /** It is a strict total order, so the set behind the index is well defined: two timers are
      equivalent under it only if they are the same. */
  lemma LessIsStrictTotal(a: Option<Key>, b: Option<Key>, c: Option<Key>)
    ensures !Less(a, a)
    ensures Less(a, b) && Less(b, c) ==> Less(a, c)
    ensures Less(a, b) || Less(b, a) || a == b
    ensures !(Less(a, b) && Less(b, a))
  {
  }

  predicate KeyLess(a: Key, b: Key) { Less(Some(a), Some(b)) }

  ghost predicate Sorted(keys: seq<Key>) {
    forall i, j :: 0 <= i < j < |keys| ==> KeyLess(keys[i], keys[j])
  }

  /** lower_bound of an ordered set: the first position whose key is not less than x. */
  function LowerBound(keys: seq<Key>, x: Key): (i: nat)
    ensures i <= |keys|
    ensures forall j :: 0 <= j < i ==> KeyLess(keys[j], x)
    ensures i < |keys| ==> !KeyLess(keys[i], x)
  {
    if keys == [] || !KeyLess(keys[0], x) then 0
    else
      var rest := LowerBound(keys[1..], x);
      assert forall j :: 1 <= j < |keys| ==> keys[j] == keys[1..][j - 1];
      1 + rest
  }

  /** In a sorted index every key from the lower bound on is greater, but for x itself. */
  lemma BoundSplits(keys: seq<Key>, x: Key)
    requires Sorted(keys)
    ensures forall j :: LowerBound(keys, x) <= j < |keys| ==> keys[j] == x || KeyLess(x, keys[j])
    ensures x in keys <==> LowerBound(keys, x) < |keys| && keys[LowerBound(keys, x)] == x
  {
    var i := LowerBound(keys, x);
    if i < |keys| {
      LessIsStrictTotal(Some(keys[i]), Some(x), Some(x));
      forall j | i <= j < |keys| ensures keys[j] == x || KeyLess(x, keys[j]) {
        if i < j {
          LessIsStrictTotal(Some(x), Some(keys[i]), Some(keys[j]));
        }
      }
    }
  }

  /** Inserting at the lower bound keeps the index sorted. */
  lemma InsertSorted(keys: seq<Key>, x: Key)
    requires Sorted(keys) && x !in keys
    ensures var i := LowerBound(keys, x); Sorted(keys[..i] + [x] + keys[i..])
  {
    BoundSplits(keys, x);
  }

  lemma KeysDistinct(keys: seq<Key>)
    requires Sorted(keys)
    ensures forall i, j :: 0 <= i < j < |keys| ==> keys[i] != keys[j]
  {
  }

  lemma EraseSorted(keys: seq<Key>, i: nat)
    requires Sorted(keys) && i < |keys|
    ensures Sorted(keys[..i] + keys[i + 1..])
  {
    var r := keys[..i] + keys[i + 1..];
    assert forall j :: 0 <= j < |r| ==> r[j] == keys[if j < i then j else j + 1];
  }

  /** A set of timers has one sorted listing, so the index is determined by its members. */
  lemma {:induction false} ListingUnique(a: seq<Key>, b: seq<Key>)
    requires Sorted(a) && Sorted(b) && forall k :: k in a <==> k in b
    ensures a == b
  {
    if a == [] {
      Memberless(b);
    } else {
      assert a[0] in a && a[0] in b;
      assert b[0] in b && b[0] in a;
      FirstIsLeast(a, b[0]);
      FirstIsLeast(b, a[0]);
      LessIsStrictTotal(Some(a[0]), Some(b[0]), Some(a[0]));
      forall k ensures k in a[1..] <==> k in b[1..] {
        TailMember(a, k);
        TailMember(b, k);
      }
      ListingUnique(a[1..], b[1..]);
    }
  }

  lemma Memberless(b: seq<Key>)
    ensures b == [] || exists k :: k in b
  {
    if b != [] {
      assert b[0] in b;
    }
  }

  lemma FirstIsLeast(a: seq<Key>, k: Key)
    requires Sorted(a) && k in a
    ensures k == a[0] || KeyLess(a[0], k)
  {
    var i :| 0 <= i < |a| && a[i] == k;
  }

  lemma TailMember(a: seq<Key>, k: Key)
    requires Sorted(a) && a != []
    ensures k in a[1..] <==> k in a && k != a[0]
  {
    if k in a[1..] {
      var i :| 0 <= i < |a[1..]| && a[1..][i] == k;
      assert KeyLess(a[0], a[i + 1]);
    }
    if k in a && k != a[0] {
      var i :| 0 <= i < |a| && a[i] == k;
      assert a[1..][i - 1] == k;
    }
  }

  // ---------------------------------------------------------------------------------------
  // Operations

  predicate Live(m: Entries, a: Address) { a in m && m[a].cb.Some? }

  predicate Expired(m: Entries, a: Address, now: Time) { Live(m, a) && m[a].deadline <= now }

  /** The entry of a timer that just expired. */
  function Renewed(e: Entry, now: Time): Entry {
    if e.recurring then e.(deadline := Deadline(now, e.period)) else e.(cb := None)
  }

  datatype Op =
    | Add(a: Address, period: Time, cb: Callback, recurring: bool, now: Time)
    | Cancel(a: Address)
    | Refresh(a: Address, now: Time)
    | Reset(a: Address, period: Time, fromNow: bool, now: Time)
    | Expire(now: Time)

  predicate Allowed(m: Entries, op: Op) {
    match op
    case Add(a, _, _, _, _) => a !in m
    case Cancel(a) => a in m
    case Refresh(a, _) => a in m
    case Reset(a, _, _, _) => a in m
    case Expire(_) => true
  }

  /** Whether a reset really rearms the timer: asking for the period it has, without counting
      from now, succeeds at once and changes nothing. */
  predicate Rearms(e: Entry, period: Time, fromNow: bool) {
    e.cb.Some? && !(e.period == period && !fromNow)
  }

  /** The start of the timer's current period, recovered as the source does. */
  function StartOf(e: Entry): Time {
    (e.deadline - e.period + CLOCK_MODULUS) % CLOCK_MODULUS
  }

  function ResetEntry(e: Entry, period: Time, fromNow: bool, now: Time): Entry {
    if !Rearms(e, period, fromNow) then e
    else e.(period := period, deadline := Deadline(if fromNow then now else StartOf(e), period))
  }

  function Step(m: Entries, op: Op): Entries
    requires Allowed(m, op)
  {
    match op
    case Add(a, period, cb, recurring, now) => m[a := Entry(recurring, period, Deadline(now, period), Some(cb))]
    case Cancel(a) => m[a := m[a].(cb := None)]
    case Refresh(a, now) =>
      if m[a].cb.None? then m else m[a := m[a].(deadline := Deadline(now, m[a].period))]
    case Reset(a, period, fromNow, now) => m[a := ResetEntry(m[a], period, fromNow, now)]
    case Expire(now) => map a | a in m :: if Expired(m, a, now) then Renewed(m[a], now) else m[a]
  }

  /** Expiry partition: exactly the timers due are affected, one-shots die, recurring ones
      reappear at now + period, and what is left is strictly later than now exactly when every
      recurring timer that expired has a positive period that does not overflow the clock. */
  lemma ExpiryPartition(m: Entries, now: Time)
    ensures var n := Step(m, Expire(now));
      && n.Keys == m.Keys
      && (forall a :: a in m && !Expired(m, a, now) ==> n[a] == m[a])
      && (forall a :: Expired(m, a, now) ==>
            if m[a].recurring then Live(n, a) && n[a].cb == m[a].cb else !Live(n, a))
      && ((forall a :: Live(n, a) ==> now < n[a].deadline) <==>
          (forall a :: Expired(m, a, now) && m[a].recurring ==> 0 < m[a].period && now + m[a].period < CLOCK_MODULUS))
  {
    var n := Step(m, Expire(now));
    forall a | Expired(m, a, now) && m[a].recurring
      ensures now < n[a].deadline <==> 0 < m[a].period && now + m[a].period < CLOCK_MODULUS
    {
      DeadlineExact(now, m[a].period);
    }
    if forall a :: Live(n, a) ==> now < n[a].deadline {
      forall a | Expired(m, a, now) && m[a].recurring
        ensures 0 < m[a].period && now + m[a].period < CLOCK_MODULUS
      {
        assert Live(n, a);
      }
    }
  }

  /** Timer a has the earliest deadline, and it is `wait` away. */
  ghost predicate NextIs(m: Entries, a: Address, now: Time, wait: Time) {
    && Live(m, a)
    && (forall b :: Live(m, b) ==> m[a].deadline <= m[b].deadline)
    && wait == if now >= m[a].deadline then 0 else m[a].deadline - now
  }

  lemma KeyLessTime(a: Key, b: Key)
    requires KeyLess(a, b)
    ensures a.deadline <= b.deadline
  {
  }

  /** The keys of the timers due, in index order. */
  ghost predicate DueListing(m: Entries, now: Time, due: seq<Key>) {
    && Sorted(due)
    && forall k :: k in due <==> Expired(m, k.address, now) && m[k.address].deadline == k.deadline
  }

  /** What expiry emits for a listing: each timer's callback, in that order. */
  function Callbacks(m: Entries, due: seq<Key>): (cbs: seq<Callback>)
    requires forall i :: 0 <= i < |due| ==> due[i].address in m && m[due[i].address].cb.Some?
    ensures |cbs| == |due| && forall i :: 0 <= i < |due| ==> Some(cbs[i]) == m[due[i].address].cb
  {
    if due == [] then [] else [m[due[0].address].cb.value] + Callbacks(m, due[1..])
  }

  /** There is one such listing, so what is emitted depends on the entries and the clock alone. */
  lemma DueUnique(m: Entries, now: Time, a: seq<Key>, b: seq<Key>)
    requires DueListing(m, now, a) && DueListing(m, now, b)
    ensures a == b
  {
    ListingUnique(a, b);
  }

  // ---------------------------------------------------------------------------------------
  // Lifetimes over runs

  /** The entries before each operation of a run that starts with no timer. */
  ghost predicate Run(states: seq<Entries>, ops: seq<Op>) {
    && |states| == |ops| + 1 && states[0] == map[]
    && forall i :: 0 <= i < |ops| ==> Allowed(states[i], ops[i]) && states[i + 1] == Step(states[i], ops[i])
  }

  /** Operation i emits the callback of timer a. */
  predicate Emits(states: seq<Entries>, ops: seq<Op>, i: nat, a: Address)
    requires i < |ops| && |states| == |ops| + 1
  {
    ops[i].Expire? && Expired(states[i], a, ops[i].now)
  }

  /** A timer without a callback never gets one again. */
  lemma {:induction false} DeadStaysDead(states: seq<Entries>, ops: seq<Op>, i: nat, j: nat, a: Address)
    requires Run(states, ops) && i <= j < |states|
    requires a in states[i] && states[i][a].cb.None?
    ensures a in states[j] && states[j][a].cb.None?
    decreases j
  {
    if i < j {
      DeadStaysDead(states, ops, i, j - 1, a);
      assert states[j] == Step(states[j - 1], ops[j - 1]);
    }
  }

  /** Whether a timer recurs never changes. */
  lemma {:induction false} KindStays(states: seq<Entries>, ops: seq<Op>, i: nat, j: nat, a: Address)
    requires Run(states, ops) && i <= j < |states| && a in states[i]
    ensures a in states[j] && states[j][a].recurring == states[i][a].recurring
    decreases j
  {
    if i < j {
      KindStays(states, ops, i, j - 1, a);
      assert states[j] == Step(states[j - 1], ops[j - 1]);
    }
  }

  /** A callback is emitted at most once unless the timer recurs. */
  lemma OneShotOnce(states: seq<Entries>, ops: seq<Op>, i: nat, j: nat, a: Address)
    requires Run(states, ops) && i < j < |ops|
    requires Emits(states, ops, i, a) && Emits(states, ops, j, a)
    ensures states[i][a].recurring
  {
    if !states[i][a].recurring {
      assert states[i + 1] == Step(states[i], ops[i]);
      DeadStaysDead(states, ops, i + 1, j, a);
    }
  }

  /** After a cancel nothing is emitted for the timer. */
  lemma SilentAfterCancel(states: seq<Entries>, ops: seq<Op>, i: nat, j: nat, a: Address)
    requires Run(states, ops) && i < j < |ops| && ops[i] == Cancel(a)
    ensures !Emits(states, ops, j, a)
  {
    assert states[i + 1] == Step(states[i], ops[i]);
    DeadStaysDead(states, ops, i + 1, j, a);
  }

  /** The clock value from which operation op makes timer a count, if it rearms it. */
  function Restart(m: Entries, op: Op, a: Address): Option<Time>
    requires Allowed(m, op)
  {
    match op
    case Add(b, _, _, _, now) => if a == b then Some(now) else None
    case Cancel(_) => None
    case Refresh(b, now) => if a == b && m[b].cb.Some? then Some(now) else None
    case Reset(b, period, fromNow, now) =>
      if a == b && fromNow && m[b].cb.Some? then Some(now) else None
    case Expire(now) => if Expired(m, a, now) && m[a].recurring then Some(now) else None
  }

  /** Where the timer's current period began: the last restart before state j. */
  function Base(states: seq<Entries>, ops: seq<Op>, j: nat, a: Address): Option<Time>
    requires |states| == |ops| + 1 && j <= |ops|
    requires forall i :: 0 <= i < |ops| ==> Allowed(states[i], ops[i])
  {
    if j == 0 then None
    else
      var r := Restart(states[j - 1], ops[j - 1], a);
      if r.Some? then r else Base(states, ops, j - 1, a)
  }

  /** Every timer's deadline is its base plus its period, whatever cancels, refreshes, resets
      and expiries happened in between. */
  lemma {:induction false} DeadlineIsBasePlusPeriod(states: seq<Entries>, ops: seq<Op>, j: nat, a: Address)
    requires Run(states, ops) && j <= |ops| && a in states[j]
    ensures var b := Base(states, ops, j, a);
      b.Some? && states[j][a].deadline == Deadline(b.value, states[j][a].period)
  {
    var m, op := states[j - 1], ops[j - 1];
    assert states[j] == Step(m, op);
    if a in m {
      DeadlineIsBasePlusPeriod(states, ops, j - 1, a);
      StartRecovered(Base(states, ops, j - 1, a).value, m[a].period);
    }
  }

  /** Subtracting the period from the deadline recovers the base, also after a wrap. */
  lemma StartRecovered(base: Time, period: Time)
    ensures (Deadline(base, period) - period + CLOCK_MODULUS) % CLOCK_MODULUS == base
  {
    if base + period >= CLOCK_MODULUS {
      assert Deadline(base, period) == base + period - CLOCK_MODULUS;
    } else {
      assert (base + CLOCK_MODULUS) % CLOCK_MODULUS == base;
    }
  }

  /** A new period, counted from where the old one began, moves the deadline by the difference. */
  lemma ShiftKept(deadline: Time, period: Time, p: Time)
    ensures var start := (deadline - period + CLOCK_MODULUS) % CLOCK_MODULUS;
      (Deadline(start, p) + period) % CLOCK_MODULUS == (deadline + p) % CLOCK_MODULUS
  {
  }

  lemma StartIs(e: Entry, base: Time)
    requires e.deadline == Deadline(base, e.period)
    ensures StartOf(e) == base
  {
    StartRecovered(base, e.period);
  }

  /** reset(p, false) lands exactly on the old base + p; its subtraction stays in range exactly
      when the timer's last deadline did not overflow. */
  lemma ResetKeepsBase(states: seq<Entries>, ops: seq<Op>, j: nat, a: Address, p: Time, now: Time)
    requires Run(states, ops) && j <= |ops| && Live(states[j], a)
    ensures var e, b := states[j][a], Base(states, ops, j, a);
      && b.Some?
      && ResetEntry(e, p, false, now).deadline == Deadline(b.value, p)
      && (e.period <= e.deadline <==> b.value + e.period < CLOCK_MODULUS)
      && (b.value + p < CLOCK_MODULUS ==> ResetEntry(e, p, false, now).deadline == b.value + p)
  {
    DeadlineIsBasePlusPeriod(states, ops, j, a);
    hide Base, Run, Deadline, StartOf;
    var b := Base(states, ops, j, a).value;
    StartIs(states[j][a], b);
    DeadlineExact(b, states[j][a].period);
    DeadlineExact(b, p);
  }

  /** The period asked for by the last add or reset of timer a. */
  function AskedPeriod(ops: seq<Op>, j: nat, a: Address): Option<Time>
    requires j <= |ops|
  {
    if j == 0 then None
    else
      match ops[j - 1]
      case Add(b, period, _, _, _) => if a == b then Some(period) else AskedPeriod(ops, j - 1, a)
      case Reset(b, period, _, _) => if a == b then Some(period) else AskedPeriod(ops, j - 1, a)
      case _ => AskedPeriod(ops, j - 1, a)
  }

  /** The callback timer a was added with, and whether it was to recur. */
  function AskedCallback(ops: seq<Op>, j: nat, a: Address): Option<(Callback, bool)>
    requires j <= |ops|
  {
    if j == 0 then None
    else if ops[j - 1].Add? && ops[j - 1].a == a then Some((ops[j - 1].cb, ops[j - 1].recurring))
    else AskedCallback(ops, j - 1, a)
  }

  /** A live timer is as asked for: it has the callback it was added with, it recurs if that was
      asked, and its period is that of the last add or reset, counting from now or not. */
  lemma {:induction false} LiveAsAsked(states: seq<Entries>, ops: seq<Op>, j: nat, a: Address)
    requires Run(states, ops) && j <= |ops| && Live(states[j], a)
    ensures var e := states[j][a];
      && AskedPeriod(ops, j, a) == Some(e.period)
      && AskedCallback(ops, j, a) == Some((e.cb.value, e.recurring))
  {
    var m, op := states[j - 1], ops[j - 1];
    assert states[j] == Step(m, op);
    hide Deadline, StartOf;
    if Live(m, a) {
      LiveAsAsked(states, ops, j - 1, a);
    }
  }
}
