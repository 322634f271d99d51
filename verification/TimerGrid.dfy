/** What the timer manager does to its list of active timers, and what that means over a run. */
module TimerGrid {
  import opened Words

  /** An active timer: who, the tick it is stored to expire at, and its period (0: one-shot). */
  datatype Entry<T> = Entry(who: T, expire: uint32, interval: uint32)

  predicate Due<T>(e: Entry<T>, now: uint32) {
    Expired(now, e.expire)
  }

  /** The timers that fire, in list order. */
  function Fired<T>(es: seq<Entry<T>>, now: uint32): seq<T> {
    if es == [] then []
    else Fired(es[..|es| - 1], now) + if Due(es[|es| - 1], now) then [es[|es| - 1].who] else []
  }

  /** The active timers afterwards: a one-shot that fired is gone, a periodic one reloaded. */
  function After<T>(es: seq<Entry<T>>, now: uint32): seq<Entry<T>> {
    if es == [] then []
    else
      var e := es[|es| - 1];
      After(es[..|es| - 1], now) +
      (if !Due(e, now) then [e]
       else if e.interval == 0 then []
       else [e.(expire := Low32(e.expire + e.interval))])
  }

  /** Every timer due at entry fires exactly once, and no other does. */
  lemma {:induction false} FiresExactlyTheDue<T>(es: seq<Entry<T>>, now: uint32, x: T)
    requires forall i, j :: 0 <= i < j < |es| ==> es[i].who != es[j].who
    ensures multiset(Fired(es, now))[x] == if exists e :: e in es && e.who == x && Due(e, now) then 1 else 0
  {
    if es != [] {
      var front, e := es[..|es| - 1], es[|es| - 1];
      assert es == front + [e];
      FiresExactlyTheDue(front, now, x);
      if e.who == x {
        assert !(exists d :: d in front && d.who == x && Due(d, now));
      }
    }
  }

  /** A timer is still active afterwards unless it was a one-shot and fired. */
  lemma {:induction false} StaysUnlessOneShotFired<T>(es: seq<Entry<T>>, now: uint32, x: T)
    ensures (exists a :: a in After(es, now) && a.who == x) <==>
            exists e :: e in es && e.who == x && (!Due(e, now) || e.interval != 0)
  {
    if es != [] {
      var front, e := es[..|es| - 1], es[|es| - 1];
      assert es == front + [e];
      StaysUnlessOneShotFired(front, now, x);
      var last := After(es, now)[|After(front, now)|..];
      assert After(es, now) == After(front, now) + last;
      if e.who == x && (!Due(e, now) || e.interval != 0) {
        assert last[0].who == x && last[0] in After(es, now);
      }
    }
  }

  // ---------------------------------------------------------------- runs of the manager

  /** What happens to the list: a tick is processed, a timer is started or stopped. */
  datatype Happening<T> = Tick(at: nat) | Started(e: Entry<T>) | Stopped(who: T)

  /** The list without one timer. */
  function Dropped<T(==)>(es: seq<Entry<T>>, who: T): seq<Entry<T>> {
    if es == [] then []
    else Dropped(es[..|es| - 1], who) + if es[|es| - 1].who == who then [] else [es[|es| - 1]]
  }

  function Step<T(==)>(es: seq<Entry<T>>, h: Happening<T>): seq<Entry<T>> {
    match h
    case Tick(at) => After(es, Low32(at))
    case Started(e) => Dropped(es, e.who) + [e]
    case Stopped(who) => Dropped(es, who)
  }

  function Run<T(==)>(es: seq<Entry<T>>, hs: seq<Happening<T>>): seq<Entry<T>>
    decreases |hs|
  {
    if hs == [] then es else Run(Step(es, hs[0]), hs[1..])
  }

  /** The ticks processed. */
  function Ticks<T>(hs: seq<Happening<T>>): seq<nat> {
    if hs == [] then [] else (if hs[0].Tick? then [hs[0].at] else []) + Ticks(hs[1..])
  }

  /** Those at which x fires. */
  function FiringTicks<T(==)>(es: seq<Entry<T>>, hs: seq<Happening<T>>, x: T): seq<nat>
    decreases |hs|
  {
    if hs == [] then []
    else
      (if hs[0].Tick? && x in Fired(es, Low32(hs[0].at)) then [hs[0].at] else [])
      + FiringTicks(Step(es, hs[0]), hs[1..], x)
  }

  predicate Distinct<T(==)>(es: seq<Entry<T>>) {
    forall i, j :: 0 <= i < j < |es| ==> es[i].who != es[j].who
  }

  /** Nobody starts or stops x; what is done to other timers does not matter. */
  predicate LeftAlone<T(==)>(hs: seq<Happening<T>>, x: T) {
    forall h :: h in hs ==> !(h.Started? && h.e.who == x) && !(h.Stopped? && h.who == x)
  }

  predicate Absent<T(==)>(es: seq<Entry<T>>, x: T) {
    forall e :: e in es ==> e.who != x
  }

  /** A timer's own list entry after a tick it stays active through. */
  function Reloaded<T>(e: Entry<T>, now: uint32): Entry<T> {
    if Due(e, now) then e.(expire := Low32(e.expire + e.interval)) else e
  }

  lemma {:induction false} DroppedKeeps<T>(es: seq<Entry<T>>, who: T)
    requires Distinct(es)
    ensures Distinct(Dropped(es, who)) && forall e :: e in Dropped(es, who) <==> e in es && e.who != who
  {
    if es != [] {
      var front, last := es[..|es| - 1], es[|es| - 1];
      assert es == front + [last];
      DroppedKeeps(front, who);
      assert forall e :: e in Dropped(es, who) <==> e in Dropped(front, who) || (e == last && last.who != who);
    }
  }

  lemma {:induction false} AfterKeeps<T>(es: seq<Entry<T>>, now: uint32)
    requires Distinct(es)
    ensures Distinct(After(es, now))
    ensures forall d :: d in After(es, now) <==>
              exists e :: e in es && (!Due(e, now) || e.interval != 0) && d == Reloaded(e, now)
  {
    hide Due, Low32;
    if es != [] {
      var front, last := es[..|es| - 1], es[|es| - 1];
      assert es == front + [last];
      AfterKeeps(front, now);
      var more := After(es, now)[|After(front, now)|..];
      assert After(es, now) == After(front, now) + more;
      assert forall d :: d in After(front, now) ==> d.who != last.who;
    }
  }

  /** Who is in the list, and how, after one happening. */
  lemma StepOfOne<T>(es: seq<Entry<T>>, h: Happening<T>, e: Entry<T>)
    requires Distinct(es) && e in es && LeftAlone([h], e.who)
    ensures Distinct(Step(es, h))
    ensures h.Tick? ==> (e.who in Fired(es, Low32(h.at)) <==> Due(e, Low32(h.at)))
    ensures h.Tick? && Due(e, Low32(h.at)) && e.interval == 0 ==> Absent(Step(es, h), e.who)
    ensures h.Tick? && (!Due(e, Low32(h.at)) || e.interval != 0) ==> Reloaded(e, Low32(h.at)) in Step(es, h)
    ensures !h.Tick? ==> e in Step(es, h)
  {
    hide Due, Low32, Fired, After, Dropped;
    assert h in [h];
    match h {
      case Tick(at) =>
        AfterKeeps(es, Low32(at));
        FiresExactlyTheDue(es, Low32(at), e.who);
      case Started(d) => DroppedKeeps(es, d.who);
      case Stopped(who) => DroppedKeeps(es, who);
    }
  }

  lemma StepOfAbsent<T>(es: seq<Entry<T>>, h: Happening<T>, x: T)
    requires Distinct(es) && Absent(es, x) && LeftAlone([h], x)
    ensures Distinct(Step(es, h)) && Absent(Step(es, h), x)
    ensures h.Tick? ==> x !in Fired(es, Low32(h.at))
  {
    hide Due, Low32, Fired, After, Dropped;
    assert h in [h];
    match h {
      case Tick(at) =>
        AfterKeeps(es, Low32(at));
        FiresExactlyTheDue(es, Low32(at), x);
      case Started(d) => DroppedKeeps(es, d.who);
      case Stopped(who) => DroppedKeeps(es, who);
    }
  }

  lemma {:induction false} AbsentNeverFires<T>(es: seq<Entry<T>>, hs: seq<Happening<T>>, x: T)
    requires Distinct(es) && Absent(es, x) && LeftAlone(hs, x)
    ensures FiringTicks(es, hs, x) == []
    decreases |hs|
  {
    hide Absent, Distinct, Fired, Step;
    if hs != [] {
      StepOfAbsent(es, hs[0], x);
      AbsentNeverFires(Step(es, hs[0]), hs[1..], x);
    }
  }

  // ---------------------------------------------------------------- one timer of a run

  /** The ticks at which a timer fires, of those processed while it is active; a one-shot fires
      once. */
  function Fires(times: seq<nat>, expire: uint32, interval: uint32): seq<nat> {
    if times == [] then []
    else
      var e := Entry((), expire, interval);
      if !Due(e, Low32(times[0])) then Fires(times[1..], expire, interval)
      else [times[0]] + if interval == 0 then [] else Fires(times[1..], Low32(expire + interval), interval)
  }

  /** The tick a periodic timer has stored at the end. */
  function Stored(times: seq<nat>, expire: uint32, interval: uint32): uint32 {
    if times == [] then expire
    else if Due(Entry((), expire, interval), Low32(times[0])) then Stored(times[1..], Low32(expire + interval),
    interval)
    else Stored(times[1..], expire, interval)
  }

  /** In a run of the whole list a timer does what its own expiry and period say, whatever other
      timers are started, stopped or fire. */
  lemma {:induction false} EachTimerRunsAlone<T>(es: seq<Entry<T>>, hs: seq<Happening<T>>, e: Entry<T>)
    requires Distinct(es) && e in es && LeftAlone(hs, e.who)
    ensures FiringTicks(es, hs, e.who) == Fires(Ticks(hs), e.expire, e.interval)
    ensures e.interval != 0 ==> Entry(e.who, Stored(Ticks(hs), e.expire, e.interval), e.interval) in Run(es, hs)
    decreases |hs|
  {
    hide Due, Low32, Distinct, Fired, Step, Absent, LeftAlone;
    if hs != [] {
      AloneThroughout(hs, e.who);
      StepOfOne(es, hs[0], e);
      var es' := Step(es, hs[0]);
      if !hs[0].Tick? {
        EachTimerRunsAlone(es', hs[1..], e);
        assert Ticks(hs) == Ticks(hs[1..]);
      } else {
        var now := Low32(hs[0].at);
        assert Ticks(hs)[1..] == Ticks(hs[1..]);
        DueAlone(e, now);
        if Due(e, now) && e.interval == 0 {
          AbsentNeverFires(es', hs[1..], e.who);
        } else {
          EachTimerRunsAlone(es', hs[1..], Reloaded(e, now));
        }
      }
    }
  }

  lemma AloneThroughout<T>(hs: seq<Happening<T>>, x: T)
    requires LeftAlone(hs, x) && hs != []
    ensures LeftAlone([hs[0]], x) && LeftAlone(hs[1..], x)
  {}

  lemma DueAlone<T>(e: Entry<T>, now: uint32)
    ensures Due(e, now) <==> Due(Entry((), e.expire, e.interval), now)
  {}

  // ---------------------------------------------------------------- against an unbounded clock

  /** The manager keeps up: at every tick processed while it is active, the timer is neither
      further ahead than half the counter nor that far behind, counting only true time. */
  predicate KeptUp(times: seq<nat>, due: nat, interval: nat) {
    if times == [] then true
    else
      && -TWO_31 <= times[0] - due < TWO_31
      && if times[0] < due then KeptUp(times[1..], due, interval)
         else interval == 0 || KeptUp(times[1..], due + interval, interval)
  }

  /** What a timer on an unbounded clock would do. */
  function TrueFires(times: seq<nat>, due: nat, interval: nat): seq<nat> {
    if times == [] then []
    else if times[0] < due then TrueFires(times[1..], due, interval)
    else [times[0]] + if interval == 0 then [] else TrueFires(times[1..], due + interval, interval)
  }

  /** While the manager keeps up, a timer of a run on the 32-bit clock fires exactly when one on
      an unbounded clock would. */
  lemma WrappedClockIsTrueClock<T>(es: seq<Entry<T>>, hs: seq<Happening<T>>, e: Entry<T>, first: nat)
    requires Distinct(es) && e in es && LeftAlone(hs, e.who)
    requires e.expire == Low32(first) && KeptUp(Ticks(hs), first, e.interval)
    ensures FiringTicks(es, hs, e.who) == TrueFires(Ticks(hs), first, e.interval)
  {
    EachTimerRunsAlone(es, hs, e);
    AloneOnTrueClock(Ticks(hs), first, e.interval);
  }

  lemma {:induction false} AloneOnTrueClock(times: seq<nat>, first: nat, interval: uint32)
    requires KeptUp(times, first, interval)
    ensures Fires(times, Low32(first), interval) == TrueFires(times, first, interval)
  {
    if times != [] {
      Diff32OfReadings(times[0], first);
      Diff32Exact(times[0], first);
      Low32Sum(first, interval);
      if times[0] < first || interval != 0 {
        AloneOnTrueClock(times[1..], if times[0] >= first then first + interval else first, interval);
      }
    }
  }

  /** So it is never early: its k-th firing is not before first + k * interval. */
  lemma NeverEarly<T>(es: seq<Entry<T>>, hs: seq<Happening<T>>, e: Entry<T>, first: nat, k: nat)
    requires Distinct(es) && e in es && LeftAlone(hs, e.who)
    requires e.expire == Low32(first) && KeptUp(Ticks(hs), first, e.interval)
    requires k < |FiringTicks(es, hs, e.who)|
    ensures FiringTicks(es, hs, e.who)[k] >= first + k * e.interval
  {
    WrappedClockIsTrueClock(es, hs, e, first);
    TrueNeverEarly(Ticks(hs), first, e.interval, k);
  }

  lemma {:induction false} TrueNeverEarly(times: seq<nat>, first: nat, interval: nat, k: nat)
    requires k < |TrueFires(times, first, interval)|
    ensures TrueFires(times, first, interval)[k] >= first + k * interval
  {
    if times[0] >= first {
      if k > 0 {
        TrueNeverEarly(times[1..], first + interval, interval, k - 1);
        assert first + interval + (k - 1) * interval == first + k * interval;
      }
    } else {
      TrueNeverEarly(times[1..], first, interval, k);
    }
  }

  /** Nor is it left behind: a tick processed without a firing of a periodic timer comes before
      its next grid point. */
  lemma NeverIdle<T>(es: seq<Entry<T>>, hs: seq<Happening<T>>, e: Entry<T>, first: nat, i: nat)
    requires Distinct(es) && e in es && LeftAlone(hs, e.who) && e.interval != 0
    requires e.expire == Low32(first) && KeptUp(Ticks(hs), first, e.interval)
    requires i < |Ticks(hs)| && forall a, b :: 0 <= a < b < |Ticks(hs)| ==> Ticks(hs)[a] < Ticks(hs)[b]
    ensures Ticks(hs)[i] in FiringTicks(es, hs, e.who)
         || Ticks(hs)[i] < first + |TrueFires(Ticks(hs)[..i], first, e.interval)| * e.interval
  {
    WrappedClockIsTrueClock(es, hs, e, first);
    TrueNeverIdle(Ticks(hs), first, e.interval, i);
  }

  lemma {:induction false} TrueNeverIdle(times: seq<nat>, first: nat, interval: nat, i: nat)
    requires i < |times| && interval != 0
    requires forall a, b :: 0 <= a < b < |times| ==> times[a] < times[b]
    ensures times[i] in TrueFires(times, first, interval)
         || times[i] < first + |TrueFires(times[..i], first, interval)| * interval
  {
    if i > 0 {
      var next := if times[0] >= first then first + interval else first;
      assert times[..i][1..] == times[1..][..i - 1] && times[..i][0] == times[0];
      TrueNeverIdle(times[1..], next, interval, i - 1);
      var n := |TrueFires(times[1..][..i - 1], next, interval)|;
      assert first + interval + n * interval == first + (n + 1) * interval;
    }
  }

  /** However late a periodic timer is processed, and however the clock wraps, the expiry in the
      list stays on the grid of its first one. */
  lemma StaysOnGrid<T>(es: seq<Entry<T>>, hs: seq<Happening<T>>, e: Entry<T>, first: nat)
    requires Distinct(es) && e in es && LeftAlone(hs, e.who) && e.interval != 0 && e.expire == Low32(first)
    ensures Entry(e.who, Low32(first + |FiringTicks(es, hs, e.who)| * e.interval), e.interval) in Run(es, hs)
  {
    EachTimerRunsAlone(es, hs, e);
    AloneOnGrid(Ticks(hs), first, e.interval);
  }

  lemma {:induction false} AloneOnGrid(times: seq<nat>, first: nat, interval: uint32)
    requires interval != 0
    ensures Stored(times, Low32(first), interval) == Low32(first + |Fires(times, Low32(first), interval)| * interval)
    decreases |times|
  {
    hide Low32, Due;
    if times != [] {
      if Due(Entry((), Low32(first), interval), Low32(times[0])) {
        Low32Sum(first, interval);
        AloneOnGrid(times[1..], first + interval, interval);
        var n := |Fires(times[1..], Low32(first + interval), interval)|;
        NextGridPoint(first, interval, n);
      } else {
        AloneOnGrid(times[1..], first, interval);
      }
    }
  }

  lemma NextGridPoint(first: nat, interval: nat, n: nat)
    ensures first + interval + n * interval == first + (n + 1) * interval
  {}

  /** Half the counter is as far as a delay may reach: a timer fires at the very tick it was
      started at if and only if its delay is zero or longer than that. */
  lemma FiresWhenStartedIff<T>(es: seq<Entry<T>>, who: T, started: nat, delay: uint32, period: uint32)
    requires Distinct(es)
    ensures var hs := [Started(Entry(who, Low32(started + delay), period)), Tick(started)];
            FiringTicks(es, hs, who) == [started] <==> delay == 0 || delay > TWO_31
  {
    hide Due, Low32, Dropped;
    var e := Entry(who, Low32(started + delay), period);
    var hs := [Started(e), Tick(started)];
    DroppedKeeps(es, who);
    var es' := Step(es, hs[0]);
    assert es'[|es'| - 1] == e && Distinct(es');
    assert Ticks(hs[1..]) == [started] by {
      assert Ticks(hs[1..][1..]) == [];
    }
    EachTimerRunsAlone(es', hs[1..], e);
    DueAtStartIff(started, delay, e);
    DueAlone(e, Low32(started));
  }

  lemma DueAtStartIff<T>(started: nat, delay: uint32, e: Entry<T>)
    requires e.expire == Low32(started + delay)
    ensures Due(e, Low32(started)) <==> delay == 0 || delay > TWO_31
  {
    Diff32OfReadings(started, started + delay);
  }
}
