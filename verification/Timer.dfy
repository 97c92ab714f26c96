/** The timer manager: timers updated in place, indexed by a set ordered by keys that change
    under it.  Every operation is proved against the entries of TimerSpec. */
module Timers {
  import opened Wrappers
  import opened Clock
  import opened TimerSpec

  class Timer {
    const address: Address
    const recurring: bool
    const manager: TimerManager
    var period: Time
    var executeTime: Time
    var cb: Option<Callback>

    constructor (a: Address, p: Time, c: Option<Callback>, r: bool, now: Time, mgr: TimerManager)
      ensures address == a && recurring == r && manager == mgr
      ensures Value() == Entry(r, p, Deadline(now, p), c)
    {
      address, recurring, manager := a, r, mgr;
      period, executeTime, cb := p, Deadline(now, p), c;
    }

    function Value(): Entry
      reads this
    {
      Entry(recurring, period, executeTime, cb)
    }

    /** Timer::cancel.  The position handed to the unchecked erase is always this timer's. */
    method Cancel() returns (ok: bool)
      requires manager.Valid() && manager.Has(this)
      modifies this`cb, manager`timers
      ensures manager.Valid()
      ensures ok <==> old(cb).Some?
      ensures manager.Entries() == Step(old(manager.Entries()), TimerSpec.Cancel(address)) && cb.None?
    {
      if cb.Some? {
        cb := None;
        manager.Erase(this);
        return true;
      }
      return false;
    }

    /** Timer::refresh */
    method Refresh(now: Time) returns (ok: bool)
      requires manager.Valid() && manager.Has(this)
      modifies this`executeTime, manager`timers
      ensures manager.Valid()
      ensures ok <==> cb.Some?
      ensures manager.Entries() == Step(old(manager.Entries()), TimerSpec.Refresh(address, now))
      ensures executeTime == if ok then Deadline(now, period) else old(executeTime)
    {
      hide Keys, Sorted;
      if cb.None? {
        return false;
      }
      manager.Erase(this);
      executeTime := Deadline(now, period);
      var at := manager.Insert(this);
      return true;
    }

    /** Timer::reset.  front: the manager was told that the earliest deadline changed. */
    method Reset(newPeriod: Time, fromNow: bool, now: Time) returns (ok: bool, front: bool)
      requires manager.Valid() && manager.Has(this)
      modifies this`executeTime, this`period, manager`timers, manager`tickled
      ensures manager.Valid()
      ensures ok <==> cb.Some? || (old(period) == newPeriod && !fromNow)
      ensures manager.Entries() == Step(old(manager.Entries()), TimerSpec.Reset(address, newPeriod, fromNow, now))
      ensures front <==> cb.Some? && (old(period) != newPeriod || fromNow) && !old(manager.tickled)
                         && manager.timers[0] == this
      ensures period == if ok then newPeriod else old(period)
      ensures ok && fromNow ==> executeTime == Deadline(now, newPeriod)
      ensures ok && !fromNow ==>
        (executeTime + old(period)) % CLOCK_MODULUS == (old(executeTime) + newPeriod) % CLOCK_MODULUS
      ensures !ok ==> executeTime == old(executeTime)
      ensures manager.tickled == (old(manager.tickled) || front)
    {
      hide Keys, Sorted, KeyLess, LowerBound, Deadline;
      if period == newPeriod && !fromNow {
        return true, false;
      }
      if cb.None? {
        return false, false;
      }
      var start := if fromNow then now else (executeTime - period + CLOCK_MODULUS) % CLOCK_MODULUS;
      ShiftKept(executeTime, period, newPeriod);
      front := Rearm(start, newPeriod);
      return true, front;
    }

    /** The part of reset behind its tests: out of the index, and in again under the new key. */
    method Rearm(start: Time, newPeriod: Time) returns (front: bool)
      requires manager.Valid() && manager.Has(this) && cb.Some?
      modifies this`executeTime, this`period, manager`timers, manager`tickled
      ensures manager.Valid()
      ensures manager.Entries() ==
        old(manager.Entries())[address := old(Value()).(period := newPeriod, deadline := Deadline(start, newPeriod))]
      ensures period == newPeriod && executeTime == Deadline(start, newPeriod)
      ensures front <==> !old(manager.tickled) && manager.timers[0] == this
      ensures manager.tickled == (old(manager.tickled) || front)
    {
      hide Keys, Sorted, KeyLess, LowerBound, Deadline;
      manager.Erase(this);
      period := newPeriod;
      executeTime := Deadline(start, period);
      front := manager.AddLocked(this);
    }
  }

  function KeyOf(t: Timer): Key
    reads t`executeTime
  {
    Key(t.executeTime, t.address)
  }

  /** The keys of a list of timers. */
  function Keys(ts: seq<Timer>): (keys: seq<Key>)
    reads ts`executeTime
    ensures |keys| == |ts| && forall i :: 0 <= i < |ts| ==> keys[i] == KeyOf(ts[i])
  {
    if ts == [] then [] else [KeyOf(ts[0])] + Keys(ts[1..])
  }

  /** Timers with one address are one timer. */
  ghost predicate Distinguished(ts: seq<Timer>) {
    forall s, t :: s in ts && t in ts && s.address == t.address ==> s == t
  }

  /** Looking a member up finds it. */
  lemma FindIs(ts: seq<Timer>, t: Timer)
    requires Sorted(Keys(ts)) && Distinguished(ts) && t in ts
    ensures var i := LowerBound(Keys(ts), KeyOf(t)); i < |ts| && ts[i] == t
  {
    hide Keys, Sorted, LowerBound, KeyLess;
    var keys, x := Keys(ts), KeyOf(t);
    var i :| 0 <= i < |ts| && ts[i] == t;
    assert keys[i] == x;
    BoundSplits(keys, x);
    var j := LowerBound(keys, x);
    assert keys[j] == x && ts[j] in ts && ts[j].address == t.address;
  }

  /** No timer is listed twice. */
  lemma SortedDistinct(ts: seq<Timer>)
    requires Sorted(Keys(ts))
    ensures forall i, j :: 0 <= i < j < |ts| ==> ts[i] != ts[j]
  {
    hide Keys, Sorted;
    KeysDistinct(Keys(ts));
    assert forall i, j :: 0 <= i < j < |ts| ==> KeyOf(ts[i]) != KeyOf(ts[j]);
  }

  lemma EraseAt(ts: seq<Timer>, i: nat)
    requires Sorted(Keys(ts)) && i < |ts|
    ensures var r := ts[..i] + ts[i + 1..];
      Sorted(Keys(r)) && forall s :: s in r <==> s in ts && s != ts[i]
  {
    hide Keys, Sorted, KeyLess;
    var r := ts[..i] + ts[i + 1..];
    SortedDistinct(ts);
    EraseSorted(Keys(ts), i);
    assert Keys(r) == Keys(ts)[..i] + Keys(ts)[i + 1..];
    WithoutMember(ts, i);
  }

  lemma WithoutMember(ts: seq<Timer>, i: nat)
    requires i < |ts| && forall j, k :: 0 <= j < k < |ts| ==> ts[j] != ts[k]
    ensures forall s :: s in ts[..i] + ts[i + 1..] <==> s in ts && s != ts[i]
  {
    assert ts == ts[..i] + [ts[i]] + ts[i + 1..];
  }

  lemma InsertAt(ts: seq<Timer>, t: Timer)
    requires Sorted(Keys(ts)) && KeyOf(t) !in Keys(ts)
    ensures var i := LowerBound(Keys(ts), KeyOf(t));
      && Sorted(Keys(ts[..i] + [t] + ts[i..]))
      && forall s :: s in ts[..i] + [t] + ts[i..] <==> s in ts || s == t
  {
    hide Keys, Sorted, KeyLess, LowerBound;
    var i := LowerBound(Keys(ts), KeyOf(t));
    var r := ts[..i] + [t] + ts[i..];
    InsertSorted(Keys(ts), KeyOf(t));
    assert Keys(r) == Keys(ts)[..i] + [KeyOf(t)] + Keys(ts)[i..];
    assert ts == ts[..i] + ts[i..];
  }

  class TimerManager {
    var timers: seq<Timer>
    var tickled: bool
    ghost var all: map<Address, Timer>   // every timer made, by address

    ghost predicate Has(t: Timer)
      reads this`all
    {
      t.address in all && all[t.address] == t
    }

    ghost predicate Shape()
      reads this`all
    {
      forall a :: a in all ==> all[a].address == a && all[a].manager == this
    }

    /** The index is sorted and its members are timers of this manager. */
    ghost predicate Indexed()
      reads this`all, this`timers, timers`executeTime
    {
      && Shape()
      && (forall t :: t in timers ==> Has(t))
      && Sorted(Keys(timers))
    }

    /** The index holds exactly the timers that have a callback. */
    ghost predicate Valid()
      reads this`all, this`timers, timers, all.Values
    {
      && Indexed()
      && forall a :: a in all ==> (all[a].cb.Some? <==> all[a] in timers)
    }

    ghost function Entries(): Entries
      reads this`all, all.Values
    {
      map a | a in all :: all[a].Value()
    }

    constructor ()
      ensures Valid() && Entries() == map[] && !tickled
    {
      timers, tickled, all := [], false, map[];
    }

    lemma NewKey(t: Timer)
      requires Indexed() && Has(t) && t !in timers
      ensures KeyOf(t) !in Keys(timers)
    {
      hide Keys, Sorted;
      forall i | 0 <= i < |timers| ensures Keys(timers)[i] != KeyOf(t) {
        assert timers[i] in timers && Has(timers[i]);
      }
    }

    /** find, then erase by position. */
    method Erase(t: Timer)
      requires Indexed() && t in timers
      modifies this`timers
      ensures Indexed() && forall s :: s in timers <==> s in old(timers) && s != t
    {
      hide Keys, Sorted, KeyLess, LowerBound;
      assert Distinguished(timers);
      var i := LowerBound(Keys(timers), KeyOf(t));
      FindIs(timers, t);
      EraseAt(timers, i);
      timers := timers[..i] + timers[i + 1..];
    }

    /** Ordered insertion of a timer that is not in the index. */
    method Insert(t: Timer) returns (at: nat)
      requires Indexed() && Has(t) && t !in timers
      modifies this`timers
      ensures Indexed() && forall s :: s in timers <==> s in old(timers) || s == t
      ensures at < |timers| && timers[at] == t
    {
      hide Keys, Sorted, KeyLess, LowerBound;
      NewKey(t);
      at := LowerBound(Keys(timers), KeyOf(t));
      InsertAt(timers, t);
      timers := timers[..at] + [t] + timers[at..];
    }

    /** Insert a timer and report whether the earliest deadline changed, at most once until
        somebody asks for the next timeout. */
    method AddLocked(t: Timer) returns (front: bool)
      requires Indexed() && Has(t) && t !in timers
      modifies this`timers, this`tickled
      ensures Indexed() && forall s :: s in timers <==> s in old(timers) || s == t
      ensures front <==> !old(tickled) && timers[0] == t
      ensures tickled == (old(tickled) || front)
    {
      var at := Insert(t);
      front := at == 0 && !tickled;
      if front {
        tickled := true;
      }
    }

    /** TimerManager::addTimer.  The new timer's address is one no other timer has.  The timer
        is indexed whatever its callback, so the index holds exactly the timers that have one if
        and only if the caller passed one: an empty function leaves a timer there that cannot be
        cancelled. */
    method AddTimer(a: Address, period: Time, cb: Option<Callback>, recurring: bool, now: Time)
      returns (t: Timer, front: bool)
      requires Valid() && a !in all
      modifies this
      ensures Indexed() && Has(t) && fresh(t)
      ensures Valid() <==> cb.Some?
      ensures Entries() == old(Entries())[a := Entry(recurring, period, Deadline(now, period), cb)]
      ensures cb.Some? ==> Entries() == Step(old(Entries()), Add(a, period, cb.value, recurring, now))
      ensures t in timers && (front <==> !old(tickled) && timers[0] == t)
      ensures tickled == (old(tickled) || front)
    {
      hide Keys, Sorted;
      t := new Timer(a, period, cb, recurring, now, this);
      all := all[a := t];
      front := AddLocked(t);
      assert all[a] in timers;
    }

    /** TimerManager::getNextTimer: how long until the earliest deadline, all ones if there is
        none.  An empty index leaves the tickle mark as it is. */
    method GetNextTimer(now: Time) returns (wait: Time)
      requires Valid()
      modifies this`tickled
      ensures tickled <==> old(tickled) && timers == []
      ensures timers == [] ==> wait == CLOCK_MODULUS - 1 && forall a :: !Live(Entries(), a)
      ensures timers != [] ==> exists a :: NextIs(Entries(), a, now, wait)
    {
      hide Keys, KeyLess;
      if timers == [] {
        return CLOCK_MODULUS - 1;
      }
      tickled := false;
      var next := timers[0];
      assert next in timers && Has(next);
      forall a | Live(Entries(), a) ensures next.executeTime <= all[a].executeTime {
        var i :| 0 <= i < |timers| && timers[i] == all[a];
        if i > 0 {
          KeyLessTime(Keys(timers)[0], Keys(timers)[i]);
        }
      }
      wait := if now >= next.executeTime then 0 else next.executeTime - now;
      assert NextIs(Entries(), next.address, now, wait);
    }

    /** Take one expired timer: rearm it or drop its callback. */
    method Settle(p: Timer, now: Time)
      requires Indexed() && Has(p) && p !in timers
      modifies this`timers, p`executeTime, p`cb
      ensures Indexed()
      ensures p.Value() == Renewed(old(p.Value()), now)
      ensures forall s :: s in timers <==> s in old(timers) || (s == p && p.recurring)
    {
      hide Keys, Sorted;
      if p.recurring {
        p.executeTime := Deadline(now, p.period);
        var at := Insert(p);
      } else {
        p.cb := None;
      }
    }

    /** Where the expired timers end, found through a sentinel with deadline now and any
        address at all. */
    method FirstLater(now: Time, sentinel: Address) returns (it: nat)
      requires Indexed()
      ensures it <= |timers|
      ensures forall j :: 0 <= j < it ==> timers[j].executeTime <= now
      ensures forall j :: it <= j < |timers| ==> now < timers[j].executeTime
    {
      hide Keys, LowerBound;
      ghost var keys := Keys(timers);
      it := LowerBound(Keys(timers), Key(now, sentinel));
      BoundSplits(keys, Key(now, sentinel));
      assert forall j :: 0 <= j < it ==> KeyLess(keys[j], Key(now, sentinel));
      assert forall j :: it <= j < |timers| ==> keys[j].deadline >= now;
      while it < |timers| && timers[it].executeTime == now
        invariant it <= |timers|
        invariant forall j :: 0 <= j < it ==> timers[j].executeTime <= now
        invariant forall j :: it <= j < |timers| ==> keys[j].deadline >= now
      {
        it := it + 1;
      }
      assert forall j :: it < j < |timers| ==> KeyLess(keys[it], keys[j]);
    }

    lemma FirstIsEarliest()
      requires Indexed()
      ensures forall j :: 0 < j < |timers| ==> timers[0].executeTime <= timers[j].executeTime
    {
      hide Keys, KeyLess;
      forall j | 0 < j < |timers| ensures timers[0].executeTime <= timers[j].executeTime {
        KeyLessTime(Keys(timers)[0], Keys(timers)[j]);
      }
    }

    /** The timers before the first later one are those due. */
    lemma DueKeys(now: Time, it: nat)
      requires Valid() && it <= |timers|
      requires forall j :: 0 <= j < it ==> timers[j].executeTime <= now
      requires forall j :: it <= j < |timers| ==> now < timers[j].executeTime
      ensures DueListing(Entries(), now, Keys(timers[..it]))
    {
      hide Keys, KeyLess;
      var due := Keys(timers[..it]);
      assert due == Keys(timers)[..it];
      forall k ensures k in due <==> Expired(Entries(), k.address, now) && Entries()[k.address].deadline == k.deadline {
        if k in due {
          var j :| 0 <= j < it && due[j] == k;
          assert timers[j] in timers;
        }
        if Expired(Entries(), k.address, now) && Entries()[k.address].deadline == k.deadline {
          var j :| 0 <= j < |timers| && timers[j] == all[k.address];
          assert due[j] == k;
        }
      }
    }

    /** What SettleAll is given: expired timers that are no longer in the index, each once. */
    ghost predicate TakenOut(expired: seq<Timer>, rest: seq<Timer>, now: Time)
      reads this`all, all.Values
    {
      && (forall t :: t in expired ==> Has(t) && t !in rest)
      && (forall i, j :: 0 <= i < j < |expired| ==> expired[i] != expired[j])
      && (forall a :: a in all ==> (all[a].cb.Some? <==> all[a] in rest || all[a] in expired))
      && (forall a :: a in all ==> (all[a] in expired <==> Expired(Entries(), a, now)))
    }

    /** Cutting the timers due off the index. */
    lemma CutDue(now: Time, it: nat)
      requires Valid() && it <= |timers|
      requires forall j :: 0 <= j < it ==> timers[j].executeTime <= now
      requires forall j :: it <= j < |timers| ==> now < timers[j].executeTime
      ensures Sorted(Keys(timers[it..])) && TakenOut(timers[..it], timers[it..], now)
      ensures forall t :: t in timers[it..] ==> t in timers
    {
      hide Keys, KeyLess;
      assert Keys(timers[it..]) == Keys(timers)[it..];
      assert timers == timers[..it] + timers[it..];
      SortedDistinct(timers);
    }

    /** Copy the timers due and erase them from the index. */
    method TakeDue(now: Time, sentinel: Address) returns (expired: seq<Timer>, ghost due: seq<Key>)
      requires Valid()
      modifies this`timers
      ensures Indexed() && Entries() == old(Entries()) && TakenOut(expired, timers, now)
      ensures DueListing(Entries(), now, due)
      ensures due == [] ==> old(timers) == [] || now < old(timers)[0].executeTime
      ensures |due| == |expired| && forall i :: 0 <= i < |due| ==> due[i].address == expired[i].address
    {
      hide Keys, Sorted, LowerBound, KeyLess;
      var it := FirstLater(now, sentinel);
      due := Keys(timers[..it]);
      DueKeys(now, it);
      CutDue(now, it);
      expired := timers[..it];
      timers := timers[it..];
    }

    /** TimerManager::listExpiredCb: emit the callbacks of exactly the timers due, in deadline
        order; `given` is returned unchanged when there are none. */
    method ListExpired(now: Time, sentinel: Address, given: seq<Callback>)
      returns (cbs: seq<Callback>, ghost due: seq<Key>)
      requires Valid()
      modifies this`timers, all.Values`executeTime, all.Values`cb
      ensures Valid()
      ensures Entries() == Step(old(Entries()), Expire(now))
      ensures DueListing(old(Entries()), now, due)
      ensures cbs == if due == [] then given else Callbacks(old(Entries()), due)
    {
      hide Keys, Sorted, KeyLess, TakenOut;
      ghost var m := Entries();
      if timers == [] || now < timers[0].executeTime {
        FirstIsEarliest();
        DueKeys(now, 0);
        return given, [];
      }
      var expired;
      expired, due := TakeDue(now, sentinel);
      cbs := SettleAll(expired, now, m);
      assert cbs == Callbacks(m, due);
    }

    /** The first i of the expired timers have been settled. */
    ghost predicate SettledTo(expired: seq<Timer>, i: nat, later: seq<Timer>, now: Time, m: Entries)
      requires i <= |expired|
      reads this`all, this`timers, all.Values
    {
      && all.Keys == m.Keys
      && (forall a :: a in all ==>
            all[a].Value() == if all[a] in expired[..i] then Renewed(m[a], now) else m[a])
      && forall a :: a in all ==>
           (all[a] in timers <==> all[a] in later || (all[a] in expired[..i] && all[a].recurring))
    }

    /** One turn of the loop over the expired timers. */
    method SettleOne(p: Timer, ghost expired: seq<Timer>, ghost i: nat, ghost later: seq<Timer>,
                     now: Time, ghost m: Entries)
      returns (cb: Callback)
      requires i < |expired| && p == expired[i] && Indexed() && SettledTo(expired, i, later, now, m)
      requires Has(p) && p !in later && p !in expired[..i] && Live(m, p.address)
      modifies this`timers, p`executeTime, p`cb
      ensures Indexed() && SettledTo(expired, i + 1, later, now, m)
      ensures Some(cb) == m[p.address].cb
    {
      hide Keys, Sorted, Renewed;
      assert expired[..i + 1] == expired[..i] + [p];
      assert p.Value() == m[p.address];
      cb := p.cb.value;
      Settle(p, now);
    }

    /** The loop over the expired timers, which have been taken out of the index. */
    method SettleAll(expired: seq<Timer>, now: Time, ghost m: Entries) returns (cbs: seq<Callback>)
      requires Indexed() && m == Entries() && TakenOut(expired, timers, now)
      modifies this`timers, all.Values`executeTime, all.Values`cb
      ensures Valid()
      ensures Entries() == Step(m, Expire(now))
      ensures |cbs| == |expired| && forall i :: 0 <= i < |cbs| ==>
                expired[i].address in m && Some(cbs[i]) == m[expired[i].address].cb
    {
      hide SettledTo, Indexed;
      ghost var later := timers;
      cbs := [];
      var i := 0;
      NoneSettled(expired, now, m);
      while i < |expired|
        invariant 0 <= i <= |expired| && |cbs| == i
        invariant Indexed() && SettledTo(expired, i, later, now, m)
        invariant forall j :: 0 <= j < i ==>
          expired[j].address in m && Some(cbs[j]) == m[expired[j].address].cb
      {
        assert expired[i] in expired && Expired(m, expired[i].address, now);
        var cb := SettleOne(expired[i], expired, i, later, now, m);
        cbs := cbs + [cb];
        i := i + 1;
      }
      AllSettled(expired, later, now, m);
    }

    lemma NoneSettled(expired: seq<Timer>, now: Time, m: Entries)
      requires m == Entries()
      ensures SettledTo(expired, 0, timers, now, m)
    {
    }

    lemma AllSettled(expired: seq<Timer>, later: seq<Timer>, now: Time, m: Entries)
      requires Indexed() && SettledTo(expired, |expired|, later, now, m)
      requires forall a :: a in all ==> (m[a].cb.Some? <==> all[a] in later || all[a] in expired)
      requires forall a :: a in all ==> (all[a] in expired <==> Expired(m, a, now))
      requires forall t :: t in expired ==> t !in later
      ensures Valid() && Entries() == Step(m, Expire(now))
    {
      hide Keys, Sorted;
      assert expired[..|expired|] == expired;
    }
  }
}
