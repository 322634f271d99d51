/** Driving a shared half-duplex bus: one frame at a time, in order, after enough silence. */
module ModbusBus {
  import opened Options
  import opened Words
  import opened RefMsg
  import opened Pool
  import opened PoolState

  /** What is wired up: a busy query, a direction pin, a clock; and the line's baud rate. */
  datatype Line = Line(hasBusy: bool, hasDir: bool, hasClock: bool, baud: nat)

  /** The silence wanted before a frame, in microseconds. */
  function Gap(line: Line): nat {
    if line.baud == 0 then 0 else 38_500_000 / line.baud + 1
  }

  /** It is the least whole number of microseconds longer than 3.5 characters of 11 bits. */
  lemma GapIsThreeAndAHalfCharacters(line: Line)
    requires line.baud > 0
    ensures 38_500_000 < Gap(line) * line.baud <= 38_500_000 + line.baud
  {}

  predicate Paced(line: Line) {
    line.hasClock && Gap(line) != 0
  }

  // ---------------------------------------------------------------- the machine

  /** The transmitter between calls; `last` is the true time of the last activity it saw. */
  datatype Bus = Bus(queue: seq<nat>, cur: Option<nat>, last: nat)

  /** What happens around a transmitter: a module queues a frame, bytes arrive, or it is
      polled, and then finds the interface busy or not, reads the clock, and has its write
      taken or refused. */
  datatype Event = Queue(m: nat) | Heard(at: nat) | Poll(busy: bool, check: nat, accepted: bool, done: nat)

  /** What it does: set the direction pin, hand a frame to the driver, give its block back, and
      note activity. */
  datatype Action = Drive(on: bool) | Write(m: nat, at: nat) | Free(m: nat) | Seen(at: nat)

  function On(line: Line): seq<Action> {
    if line.hasDir then [Drive(true)] else []
  }

  function Off(line: Line): seq<Action> {
    if line.hasDir then [Drive(false)] else []
  }

  function Note(line: Line, at: nat): seq<Action> {
    if Paced(line) then [Seen(at)] else []
  }

  function Noted(line: Line, bus: Bus, at: nat): Bus {
    if Paced(line) then bus.(last := at) else bus
  }

  predicate Holds(line: Line, bus: Bus, busy: bool, check: nat) {
    || bus.queue == []
    || (line.hasBusy && busy)
    || (Paced(line) && Low32(check - bus.last) < Gap(line))
  }

  /** What follows handing over the oldest frame. */
  function Begun(line: Line, bus: Bus, accepted: bool, done: nat): (Bus, seq<Action>)
    requires bus.queue != []
  {
    var m := bus.queue[0];
    var taken := bus.(queue := bus.queue[1..]);
    if !accepted then (taken, Off(line) + [Free(m)])
    else if !line.hasBusy then (Noted(line, taken, done), Off(line) + [Free(m)] + Note(line, done))
    else (taken.(cur := Some(m)), [])
  }

  function Step(line: Line, bus: Bus, e: Event): (Bus, seq<Action>) {
    match e
    case Queue(m) => (bus.(queue := bus.queue + [m]), [])
    case Heard(at) => (Noted(line, bus, at), Note(line, at))
    case Poll(busy, check, accepted, done) =>
      if bus.cur.Some? then
        if busy then (bus, [])
        else (Noted(line, bus.(cur := None), done), Off(line) + [Free(bus.cur.value)] + Note(line, done))
      else if Holds(line, bus, busy, check) then (bus, [])
      else
        var (bus', more) := Begun(line, bus, accepted, done);
        (bus', On(line) + [Write(bus.queue[0], check)] + more)
  }

  /** A whole run, from a transmitter just initialised at `start`. */
  function Run(line: Line, start: nat, events: seq<Event>): (Bus, seq<Action>) {
    if events == [] then (Bus([], None, start), Note(line, start))
    else
      var (bus, acts) := Run(line, start, events[..|events| - 1]);
      var (bus', more) := Step(line, bus, events[|events| - 1]);
      (bus', acts + more)
  }

  // ---------------------------------------------------------------- discipline

  /** The frames handed to the driver, in order. */
  function Written(acts: seq<Action>): seq<nat> {
    if acts == [] then []
    else
      var a := acts[|acts| - 1];
      Written(acts[..|acts| - 1]) + if a.Write? then [a.m] else []
  }

  function Freed(acts: seq<Action>): seq<nat> {
    if acts == [] then []
    else
      var a := acts[|acts| - 1];
      Freed(acts[..|acts| - 1]) + if a.Free? then [a.m] else []
  }

  function QueuedIn(events: seq<Event>): seq<nat> {
    if events == [] then []
    else
      var e := events[|events| - 1];
      QueuedIn(events[..|events| - 1]) + if e.Queue? then [e.m] else []
  }

  /** Is the direction pin asserted? */
  function Driven(acts: seq<Action>): bool {
    if acts == [] then false
    else
      var a := acts[|acts| - 1];
      if a.Drive? then a.on else Driven(acts[..|acts| - 1])
  }

  /** Every frame handed over finds the pin asserted, and every block given back finds it
      released. */
  predicate PinRight(line: Line, acts: seq<Action>) {
    line.hasDir ==>
      forall i :: 0 <= i < |acts| ==>
        (acts[i].Write? ==> Driven(acts[..i])) && (acts[i].Free? ==> !Driven(acts[..i]))
  }

  /** Real silence before every frame: the gap has passed since all activity seen before it. */
  predicate Quiet(line: Line, acts: seq<Action>) {
    Paced(line) ==>
      forall i, j :: 0 <= i < j < |acts| && acts[i].Seen? && acts[j].Write? ==> acts[j].at >= acts[i].at + Gap(line)
  }

  /** The latest time an event carries. */
  function TimeOf(e: Event, before: nat): nat {
    match e
    case Queue(_) => before
    case Heard(at) => at
    case Poll(_, _, _, done) => done
  }

  /** The clock does not run backwards from event to event. */
  predicate InOrder(start: nat, events: seq<Event>) {
    if events == [] then true
    else
      var front, e := events[..|events| - 1], events[|events| - 1];
      && InOrder(start, front)
      && (match e
          case Queue(_) => true
          case Heard(at) => Latest(start, front) <= at
          case Poll(_, check, _, done) => Latest(start, front) <= check <= done)
  }

  function Latest(start: nat, events: seq<Event>): nat {
    if events == [] then start else TimeOf(events[|events| - 1], Latest(start, events[..|events| - 1]))
  }

  /** Over every run: frames go out in the order they were queued and one at a time, every block
      is given back exactly once, in that order, when its frame is over; the pin is asserted
      exactly while a frame is under way. */
  ghost predicate Disciplined(line: Line, bus: Bus, acts: seq<Action>, queued: seq<nat>) {
    && queued == Written(acts) + bus.queue
    && Written(acts) == Freed(acts) + (if bus.cur.Some? then [bus.cur.value] else [])
    && (bus.cur.Some? ==> line.hasBusy)
    && Driven(acts) == (line.hasDir && bus.cur.Some?)
    && PinRight(line, acts)
  }

  lemma {:induction false} RunsAreDisciplined(line: Line, start: nat, events: seq<Event>)
    ensures var (bus, acts) := Run(line, start, events); Disciplined(line, bus, acts, QueuedIn(events))
  {
    if events != [] {
      var front, e := events[..|events| - 1], events[|events| - 1];
      RunsAreDisciplined(line, start, front);
      var (bus, acts) := Run(line, start, front);
      StepDisciplined(line, bus, acts, QueuedIn(front), e);
    }
  }

  lemma StepDisciplined(line: Line, bus: Bus, acts: seq<Action>, queued: seq<nat>, e: Event)
    requires Disciplined(line, bus, acts, queued)
    ensures var (bus', more) := Step(line, bus, e);
            Disciplined(line, bus', acts + more, queued + if e.Queue? then [e.m] else [])
  {
    hide On, Off, Note, Written, Freed, Driven, PinRight, Holds, Gap;
    var (bus', more) := Step(line, bus, e);
    match e
    case Queue(m) =>
      assert acts + [] == acts;
    case Heard(at) =>
      Noting(line, acts, at);
    case Poll(busy, check, accepted, done) =>
      if bus.cur.Some? {
        if busy {
          assert acts + [] == acts;
        } else {
          Closing(line, acts, bus.cur.value);
          var closed := acts + Off(line) + [Free(bus.cur.value)];
          Noting(line, closed, done);
          assert acts + more == closed + Note(line, done);
        }
      } else if Holds(line, bus, busy, check) {
        assert acts + [] == acts;
      } else {
        PollSends(line, bus, acts, queued, e);
      }
  }

  lemma PollSends(line: Line, bus: Bus, acts: seq<Action>, queued: seq<nat>, e: Event)
    requires Disciplined(line, bus, acts, queued) && e.Poll? && bus.cur.None? && !Holds(line, bus, e.busy, e.check)
    ensures var (bus', more) := Step(line, bus, e); Disciplined(line, bus', acts + more, queued)
  {
    hide On, Off, Note, Written, Freed, Driven, PinRight, Gap;
    var (bus', more) := Step(line, bus, e);
    var m := bus.queue[0];
    var begun := acts + On(line) + [Write(m, e.check)];
    var closed := begun + Off(line) + [Free(m)];
    Opening(line, acts, m, e.check);
    Closing(line, begun, m);
    assert bus.queue == [m] + bus.queue[1..];
    if !e.accepted {
      assert acts + more == closed;
    } else if !line.hasBusy {
      Noting(line, closed, e.done);
      assert acts + more == closed + Note(line, e.done);
    } else {
      assert acts + more == begun;
    }
  }

  lemma AddOne(line: Line, acts: seq<Action>, a: Action)
    ensures Written(acts + [a]) == Written(acts) + (if a.Write? then [a.m] else [])
    ensures Freed(acts + [a]) == Freed(acts) + (if a.Free? then [a.m] else [])
    ensures Driven(acts + [a]) == (if a.Drive? then a.on else Driven(acts))
    ensures PinRight(line, acts + [a]) <==>
              PinRight(line, acts) && (line.hasDir ==> (a.Write? ==> Driven(acts)) && (a.Free? ==> !Driven(acts)))
  {
    var all := acts + [a];
    assert all[..|acts|] == acts && all[|acts|] == a;
    hide Driven, Written, Freed;
    assert forall i :: 0 <= i < |acts| ==> all[..i] == acts[..i];
    if PinRight(line, all) && line.hasDir {
      forall i | 0 <= i < |acts|
        ensures (acts[i].Write? ==> Driven(acts[..i])) && (acts[i].Free? ==> !Driven(acts[..i]))
      {
        assert all[i] == acts[i];
      }
      assert (all[|acts|].Write? ==> Driven(all[..|acts|])) && (all[|acts|].Free? ==> !Driven(all[..|acts|]));
    }
  }

  /** Asserting the pin and handing a frame over. */
  lemma Opening(line: Line, acts: seq<Action>, m: nat, at: nat)
    requires PinRight(line, acts) && Driven(acts) == false
    ensures var begun := acts + On(line) + [Write(m, at)];
            && Written(begun) == Written(acts) + [m] && Freed(begun) == Freed(acts)
            && Driven(begun) == line.hasDir && PinRight(line, begun)
  {
    hide Written, Freed, Driven, PinRight;
    AddOne(line, acts, Drive(true));
    AddOne(line, acts + On(line), Write(m, at));
    assert acts + [] == acts;
  }

  /** Releasing the pin and giving a block back. */
  lemma Closing(line: Line, acts: seq<Action>, m: nat)
    requires PinRight(line, acts) && Driven(acts) == line.hasDir
    ensures var closed := acts + Off(line) + [Free(m)];
            && Written(closed) == Written(acts) && Freed(closed) == Freed(acts) + [m]
            && !Driven(closed) && PinRight(line, closed)
  {
    hide Written, Freed, Driven, PinRight;
    AddOne(line, acts, Drive(false));
    AddOne(line, acts + Off(line), Free(m));
    assert acts + [] == acts;
  }

  lemma Noting(line: Line, acts: seq<Action>, at: nat)
    ensures var noted := acts + Note(line, at);
            && Written(noted) == Written(acts) && Freed(noted) == Freed(acts)
            && Driven(noted) == Driven(acts) && (PinRight(line, noted) <==> PinRight(line, acts))
  {
    hide Written, Freed, Driven, PinRight;
    AddOne(line, acts, Seen(at));
    assert acts + [] == acts;
  }

  /** A frame starts only on an idle interface with nothing under way. */
  lemma NeverWhileBusy(line: Line, bus: Bus, e: Event, i: nat)
    requires i < |Step(line, bus, e).1| && Step(line, bus, e).1[i].Write?
    ensures e.Poll? && bus.cur.None? && !(line.hasBusy && e.busy) && |bus.queue| > 0
    ensures Step(line, bus, e).1[i] == Write(bus.queue[0], e.check)
  {}

  // ---------------------------------------------------------------- silence

  /** Over every run on a clock that does not run backwards, no frame starts before the gap has
      truly passed since all activity seen: not even when the 32-bit clock wraps. */
  lemma {:induction false} RunsAreQuiet(line: Line, start: nat, events: seq<Event>)
    requires InOrder(start, events)
    ensures var (bus, acts) := Run(line, start, events);
            Quiet(line, acts) && (Paced(line) ==> bus.last <= Latest(start, events))
            && forall i :: 0 <= i < |acts| && acts[i].Seen? ==> acts[i].at <= bus.last
  {
    if events != [] {
      var front, e := events[..|events| - 1], events[|events| - 1];
      RunsAreQuiet(line, start, front);
      var (bus, acts) := Run(line, start, front);
      StepQuiet(line, bus, acts, e, Latest(start, front));
    }
  }

  lemma StepQuiet(line: Line, bus: Bus, acts: seq<Action>, e: Event, now: nat)
    requires Quiet(line, acts) && forall i :: 0 <= i < |acts| && acts[i].Seen? ==> acts[i].at <= bus.last
    requires Paced(line) ==> bus.last <= now
    requires match e case Queue(_) => true case Heard(at) => now <= at case Poll(_, check, _, done) => now <= check <= done
    ensures var (bus', more) := Step(line, bus, e);
            && Quiet(line, acts + more) && (Paced(line) ==> bus'.last <= TimeOf(e, now))
            && forall i :: 0 <= i < |acts + more| && (acts + more)[i].Seen? ==> (acts + more)[i].at <= bus'.last
  {
    hide Gap;
    var (bus', more) := Step(line, bus, e);
    StepTimes(line, bus, e);
    var all := acts + more;
    if Paced(line) {
      forall i, j | 0 <= i < j < |all| && all[i].Seen? && all[j].Write?
        ensures all[j].at >= all[i].at + Gap(line)
      {
        if j >= |acts| {
          assert more[j - |acts|] == all[j];
          if i >= |acts| {
            assert more[i - |acts|] == all[i];
          }
        }
      }
    }
  }

  /** In one step: a frame starts a gap after the last activity, and before any new is noted. */
  lemma StepTimes(line: Line, bus: Bus, e: Event)
    requires Paced(line) && e.Heard? ==> bus.last <= e.at
    requires Paced(line) && e.Poll? ==> bus.last <= e.check <= e.done
    ensures var (bus', more) := Step(line, bus, e);
            && bus.last <= bus'.last
            && (forall i :: 0 <= i < |more| && more[i].Seen? ==> Paced(line) && more[i].at == bus'.last)
            && (Paced(line) ==> forall i :: 0 <= i < |more| && more[i].Write? ==> more[i].at >= bus.last + Gap(line))
            && (forall i, j :: 0 <= i < j < |more| && more[i].Seen? && more[j].Write? ==> more[j].at >= more[i].at + Gap(line))
  {
    hide Gap;
  }

  /** A poll at which a frame leaves the wire: one under way is over, or a write that only returns
      when all is sent was taken. */
  predicate EndsFrame(line: Line, bus: Bus, e: Event) {
    e.Poll? &&
    var bus' := Step(line, bus, e).0;
    || (bus.cur.Some? && bus'.cur.None?)
    || (bus.cur.None? && !line.hasBusy && e.accepted && |bus'.queue| < |bus.queue|)
  }

  /** The k-th event shows that the wire was in use until `at`: bytes were heard, or a frame of
      the transmitter's own ended. Whether the machine takes notice is not asked. */
  predicate InUse(line: Line, start: nat, events: seq<Event>, k: nat, at: nat)
    requires k < |events|
  {
    match events[k]
    case Queue(_) => false
    case Heard(t) => at == t
    case Poll(_, _, _, done) => at == done && EndsFrame(line, Run(line, start, events[..k]).0, events[k])
  }

  /** A frame under way ends at the first poll that finds the interface idle; one written to an
      interface without a busy query ends with the write that took it. */
  lemma EndsIffIdle(line: Line, bus: Bus, e: Event)
    requires e.Poll? && (bus.cur.Some? ==> line.hasBusy)
    ensures bus.cur.Some? ==> (EndsFrame(line, bus, e) <==> !e.busy)
    ensures bus.cur.None? ==> (EndsFrame(line, bus, e) <==>
              !line.hasBusy && e.accepted && exists a :: a in Step(line, bus, e).1 && a.Write?)
  {
    if bus.cur.None? && !Holds(line, bus, e.busy, e.check) {
      assert Step(line, bus, e).1[|On(line)|] == Write(bus.queue[0], e.check);
    }
  }

  /** Until when the wire was last in use. */
  function LastUse(line: Line, start: nat, events: seq<Event>): nat {
    if events == [] then start
    else
      var front, e := events[..|events| - 1], events[|events| - 1];
      if e.Heard? then e.at
      else if e.Poll? && EndsFrame(line, Run(line, start, front).0, e) then e.done
      else LastUse(line, start, front)
  }

  /** The machine keeps that time, and nothing that happened is later. */
  lemma {:induction false} LastUseIsKept(line: Line, start: nat, events: seq<Event>)
    requires InOrder(start, events) && Paced(line)
    ensures Run(line, start, events).0.last == LastUse(line, start, events)
    ensures start <= LastUse(line, start, events) <= Latest(start, events)
    ensures forall k, at: nat :: 0 <= k < |events| && InUse(line, start, events, k, at) ==> at <= LastUse(line, start, events)
  {
    hide Gap;
    if events != [] {
      var n := |events| - 1;
      var front, e := events[..n], events[n];
      LastUseIsKept(line, start, front);
      UseIsNoted(line, Run(line, start, front).0, e);
      hide Run;
      forall k, at: nat | 0 <= k < n && InUse(line, start, events, k, at)
        ensures at <= LastUse(line, start, front)
      {
        assert front[..k] == events[..k] && front[k] == events[k];
        assert InUse(line, start, front, k, at);
      }
    }
  }

  lemma UseIsNoted(line: Line, bus: Bus, e: Event)
    requires Paced(line)
    ensures Step(line, bus, e).0.last ==
              if e.Heard? then e.at else if EndsFrame(line, bus, e) then e.done else bus.last
  {
    hide Gap;
  }

  /** Over every run on a clock that does not run backwards, no frame starts before the gap has
      truly passed since the start, since all that was heard, and since the end of every frame of
      the transmitter's own. */
  lemma SilenceBeforeEveryFrame(line: Line, start: nat, events: seq<Event>, k: nat, i: nat)
    requires k < |events| && InOrder(start, events[..k + 1]) && Paced(line)
    requires i < |Step(line, Run(line, start, events[..k]).0, events[k]).1|
    requires Step(line, Run(line, start, events[..k]).0, events[k]).1[i].Write?
    ensures var at := Step(line, Run(line, start, events[..k]).0, events[k]).1[i].at;
            && at >= start + Gap(line)
            && forall j, use: nat :: 0 <= j < k && InUse(line, start, events, j, use) ==> at >= use + Gap(line)
  {
    hide Gap, Run;
    var front := events[..k];
    assert events[..k + 1][..k] == front && events[..k + 1][k] == events[k];
    LastUseIsKept(line, start, front);
    NeverWhileBusy(line, Run(line, start, front).0, events[k], i);
    forall j, use: nat | 0 <= j < k && InUse(line, start, events, j, use)
      ensures use <= LastUse(line, start, front)
    {
      assert front[..j] == events[..j] && front[j] == events[j];
      assert InUse(line, start, front, j, use);
    }
  }

  /** And once it has passed a poll does start the oldest frame: if and only if none is under way,
      the interface is idle and the wire has been silent for the gap (for less than the 32-bit
      clock takes to come round). */
  lemma StartsIffSilent(line: Line, start: nat, events: seq<Event>, e: Event)
    requires InOrder(start, events) && e.Poll? && Latest(start, events) <= e.check
    requires Paced(line) ==> e.check - LastUse(line, start, events) < TWO_32
    ensures var bus := Run(line, start, events).0;
            (exists a :: a in Step(line, bus, e).1 && a.Write?) <==>
              && bus.cur.None? && bus.queue != [] && !(line.hasBusy && e.busy)
              && (Paced(line) ==> e.check - LastUse(line, start, events) >= Gap(line))
  {
    hide Gap, Run, Begun;
    if Paced(line) {
      LastUseIsKept(line, start, events);
    }
    var bus := Run(line, start, events).0;
    if bus.cur.None? && !Holds(line, bus, e.busy, e.check) {
      assert Step(line, bus, e).1[|On(line)|] == Write(bus.queue[0], e.check);
    }
  }

  // ---------------------------------------------------------------- the transmitter

  /** The subtraction on readings is the subtraction on true times. */
  lemma ElapsedOnReadings(a: int, b: int)
    ensures Low32(Low32(a) - Low32(b)) == Low32(a - b)
  {}

  /** The oldest frame is the current one. */
  function Launched(bus: Bus): Bus
    requires bus.queue != []
  {
    bus.(queue := bus.queue[1..], cur := Some(bus.queue[0]))
  }

  class Transmitter {
    const line: Line
    const ms: Messages
    /** Place of the outgoing queue among the queues. */
    const queue: nat
    const gap: nat
    var sending: bool
    var cur: Option<nat>
    var lastUs: uint32
    ghost var lastTrue: nat
    ghost var log: seq<Action>

    ghost predicate Wired()
      reads this, ms, ms.pool, ms.pool.mem, ms.pool.tiers, ms.QueueParts()
    {
      && ms.Valid() && queue < |ms.queues|
      && (this as object) !in {ms as object, ms.pool, ms.pool.mem, ms.pool.tiers} + ms.QueueParts()
      && gap == Gap(line) && lastUs == Low32(lastTrue)
      && (cur.Some? ==> ms.held[cur.value] > 0)
    }

    ghost predicate Valid()
      reads this, ms, ms.pool, ms.pool.mem, ms.pool.tiers, ms.QueueParts()
    {
      Wired() && sending == cur.Some? && (cur.Some? ==> line.hasBusy)
    }

    ghost function Abs(): Bus
      requires Wired()
      reads this, ms, ms.pool, ms.pool.mem, ms.pool.tiers, ms.QueueParts()
    {
      Bus(ms.View()[queue], cur, lastTrue)
    }

    /** References held by anyone but the transmitter. */
    ghost function Others(): multiset<nat>
      reads this`cur, ms`held
    {
      if cur.Some? then ms.held - multiset{cur.value} else ms.held
    }

    /** init: the bus released, and the first quiet interval counted from now. */
    constructor (line: Line, ms: Messages, queue: nat, start: nat)
      requires ms.Valid() && queue < |ms.queues| && ms.View()[queue] == []
      ensures Valid() && this.line == line && this.ms == ms && this.queue == queue
      ensures (Abs(), log) == Run(line, start, [])
    {
      this.line, this.ms, this.queue := line, ms, queue;
      gap := if line.baud != 0 then 38_500_000 / line.baud + 1 else 0;
      sending, cur := false, None;
      lastUs, lastTrue := Low32(start), start;
      log := Note(line, start);
      new;
    }

    /** slave_rx and master_rx note the time when bytes came in. */
    method Hear(at: nat)
      requires Valid()
      modifies this`lastUs, this`lastTrue, this`log
      ensures Valid() && Abs() == Step(line, old(Abs()), Heard(at)).0
      ensures log == old(log) + Step(line, old(Abs()), Heard(at)).1
    {
      if line.hasClock && gap != 0 {
        lastUs, lastTrue := Low32(at), at;
        log := log + [Seen(at)];
      }
    }

    /** Release the pin and give the current frame's block back. */
    method Drop()
      requires Wired() && cur.Some?
      modifies this`sending, this`cur, this`log, ms, ms.pool`history, ms.pool.mem, ms.pool.tiers
      ensures Valid() && cur == None && !sending
      ensures log == old(log) + Off(line) + [Free(old(cur).value)]
      ensures ms.View() == old(ms.View()) && Others() == old(Others())
    {
      hide PoolOk, Live, Balanced, Messages.Separate, Messages.View, Messages.QueuesOk, Gap;
      log := log + Off(line);
      ms.Release(cur.value);
      log := log + [Free(cur.value)];
      cur, sending := None, false;
    }

    /** May a frame start now? */
    method Ready(busy: bool, check: nat) returns (ready: bool)
      requires Valid()
      ensures ready == !Holds(line, Abs(), busy, check)
      ensures ready ==> ms.View()[queue] != []
    {
      hide PoolOk, Live, Balanced, Messages.Separate, Gap;
      assert ms.queues[queue] in ms.queues && ms.View()[queue] == ms.queues[queue].Contents();
      if ms.queues[queue].count == 0 {
        return false;
      }
      if line.hasBusy && busy {
        return false;
      }
      ElapsedOnReadings(check, lastTrue);
      if line.hasClock && gap != 0 && Low32(Low32(check) - lastUs) < gap {
        return false;
      }
      return true;
    }

    lemma SameQueues()
      requires Wired()
      ensures ms.QueuesOk() && queue < |ms.View()| && ms.View()[queue := Abs().queue] == ms.View()
    {}

    /** The current frame has left the wire. */
    method Finish(done: nat)
      requires Wired() && cur.Some?
      modifies this`sending, this`cur, this`lastUs, this`lastTrue, this`log, ms, ms.pool`history, ms.pool.mem, ms.pool.tiers
      ensures Valid() && Abs() == Noted(line, old(Abs()).(cur := None), done)
      ensures log == old(log) + (Off(line) + [Free(old(cur).value)] + Note(line, done))
      ensures ms.View() == old(ms.View()) && Others() == old(Others())
    {
      hide PoolOk, Live, Balanced, Messages.Separate, Messages.View, Messages.QueuesOk, Gap, Off;
      Drop();
      Hear(done);
    }

    lemma BegunBy(bus: Bus, accepted: bool, done: nat)
      requires bus.queue != [] && bus.cur == None
      ensures var m := bus.queue[0];
              Begun(line, bus, accepted, done) ==
                if !accepted then (Launched(bus).(cur := None), Off(line) + [Free(m)])
                else if !line.hasBusy then (Noted(line, Launched(bus).(cur := None), done), Off(line) + [Free(m)] + Note(line, done))
                else (Launched(bus), [])
    {}

    /** Take the oldest frame and hand it to the driver. */
    method Launch(check: nat)
      requires Valid() && !sending && ms.View()[queue] != []
      modifies this`cur, this`log, ms`held, ms.queues[queue]
      ensures Wired() && cur == Some(old(Abs()).queue[0])
      ensures Abs() == Launched(old(Abs()))
      ensures log == old(log) + (On(line) + [Write(cur.value, check)])
      ensures ms.View() == old(ms.View())[queue := old(ms.View())[queue][1..]]
      ensures Others() == old(Others())
    {
      hide PoolOk, Live, Balanced, Messages.Separate, Messages.View, Messages.QueuesOk, Gap, On;
      var msg := ms.Pop(queue);
      cur := msg;
      log := log + (On(line) + [Write(msg.value, check)]);
    }

    /** Hand over the oldest frame, and what follows at once. */
    method Begin(check: nat, accepted: bool, done: nat)
      requires Valid() && !sending && ms.View()[queue] != []
      modifies this`sending, this`cur, this`lastUs, this`lastTrue, this`log
      modifies ms, ms.pool`history, ms.pool.mem, ms.pool.tiers, ms.queues[queue]
      ensures Valid()
      ensures Abs() == Begun(line, old(Abs()), accepted, done).0
      ensures log == old(log) + (On(line) + [Write(old(Abs()).queue[0], check)] + Begun(line, old(Abs()), accepted, done).1)
      ensures ms.View() == old(ms.View())[queue := old(ms.View())[queue][1..]]
      ensures Others() == old(Others())
    {
      hide PoolOk, Live, Balanced, Messages.Separate, Messages.QueuesOk, Others, Messages.View, Begun, Launched, On, Off, Note, Noted, Gap;
      ghost var was := Abs();
      BegunBy(was, accepted, done);
      Launch(check);
      if !accepted {
        Drop();
        assert Abs() == Launched(was).(cur := None);
      } else if !line.hasBusy {
        Finish(done);
      } else {
        sending := true;
      }
    }

    /** slave_tx and master_tx: `busy` is what the interface says, `accepted` what the write
        returned, `check` and `done` what the clock truly is at the two places it is read. */
    method Poll(busy: bool, check: nat, accepted: bool, done: nat)
      requires Valid()
      modifies this`sending, this`cur, this`lastUs, this`lastTrue, this`log
      modifies ms, ms.pool`history, ms.pool.mem, ms.pool.tiers, ms.queues[queue]
      ensures Valid()
      ensures Abs() == Step(line, old(Abs()), Event.Poll(busy, check, accepted, done)).0
      ensures log == old(log) + Step(line, old(Abs()), Event.Poll(busy, check, accepted, done)).1
      ensures ms.View() == old(ms.View())[queue := Abs().queue]
      ensures Others() == old(Others())
    {
      hide PoolOk, Live, Balanced, Messages.Separate, Messages.View, Messages.QueuesOk, Gap, On, Off, Note, Noted, Holds, Others;
      SameQueues();
      if sending {
        if !busy {
          Finish(done);
        }
        return;
      }
      var ready := Ready(busy, check);
      if ready {
        Begin(check, accepted, done);
      }
    }
  }
}
