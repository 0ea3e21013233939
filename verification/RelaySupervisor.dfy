/**
  The relay supervisor of a publishing leaf (modules/calendar/src/relay-supervisor.ts) with the start
  and teardown it is given (modules/calendar/src/index.ts): connect, bind the stream, arm the relay
  interval; retry on a bounded schedule; leave nothing behind a stop. Beside the code's own variables
  the state counts what exists outside them: connects and binds in flight, timers scheduled,
  connections open.
*/
module RelaySupervisor {
  const DELAYS: seq<int> := [5_000, 15_000, 60_000, 300_000]

  datatype State = State(
    attempts: nat,
    timer: bool,
    relayStopped: bool,
    broker: bool,        // natsBroker is set
    interval: bool,      // relayTimer is set
    connecting: nat,
    binding: nat,
    scheduled: nat,
    open: nat,
    ended: bool,         // the repoint refusal ended the process
    off: bool,           // the ladder reached its cap
    delay: int)

  const EMPTY := State(0, false, false, false, false, 0, 0, 0, 0, false, false, 0)

  function ClearedPending(s: State): State {
    if s.timer then s.(timer := false, scheduled := if s.scheduled > 0 then s.scheduled - 1 else 0) else s
  }

  /** The interval first, then the broker. */
  function TornDown(s: State): State {
    var t := s.(interval := false);
    if t.broker then t.(broker := false, open := if t.open > 0 then t.open - 1 else 0) else t
  }

  function Attempted(s: State): State {
    if s.relayStopped then s else s.(attempts := s.attempts + 1, connecting := s.connecting + 1)
  }

  function Connected(s: State): State
    requires s.connecting > 0
  {
    s.(connecting := s.connecting - 1, binding := s.binding + 1, broker := true, open := s.open + 1)
  }

  /** The stream is bound: the interval is armed, and dropped again if the stop came first. */
  function Bound(s: State): State
    requires s.binding > 0
  {
    var t := s.(binding := s.binding - 1, interval := true);
    if t.relayStopped then TornDown(t) else t
  }

  function Rung(attempts: nat): int { DELAYS[if attempts == 0 then 0 else if attempts - 1 < 3 then attempts - 1 else 3] }

  /** The attempt rejected. */
  function Rejected(s: State, cap: nat, unretryable: bool): State {
    if unretryable then s.(ended := true)
    else
      var t := TornDown(s);
      if t.relayStopped then t
      else if t.attempts >= cap then t.(off := true)
      else
        var c := ClearedPending(t);
        c.(timer := true, scheduled := c.scheduled + 1, delay := Rung(t.attempts))
  }

  function Fired(s: State): State
    requires s.scheduled > 0
  {
    Attempted(s.(timer := false, scheduled := s.scheduled - 1))
  }

  function Stopped(s: State): State { TornDown(ClearedPending(s.(relayStopped := true))) }

  class Supervisor {
    const cap: nat
    var attempts: nat
    var timer: bool
    var relayStopped: bool
    var broker: bool
    var interval: bool
    var connecting: nat
    var binding: nat
    var scheduled: nat
    var open: nat
    var ended: bool
    var off: bool
    var delay: int

    function Now(): State
      reads this
    {
      State(attempts, timer, relayStopped, broker, interval, connecting, binding, scheduled, open, ended, off, delay)
    }

    constructor (cap: nat)
      ensures Now() == EMPTY && this.cap == cap
    {
      this.cap := cap;
      attempts, timer, relayStopped, broker, interval := 0, false, false, false, false;
      connecting, binding, scheduled, open, ended, off, delay := 0, 0, 0, 0, false, false, 0;
    }

    method ClearPending()
      modifies this
      ensures Now() == ClearedPending(old(Now()))
    {
      if timer {
        scheduled := if scheduled > 0 then scheduled - 1 else 0;
        timer := false;
      }
    }

    method TeardownRelay()
      modifies this
      ensures Now() == TornDown(old(Now()))
    {
      if interval {
        interval := false;
      }
      if broker {
        broker := false;
        open := if open > 0 then open - 1 else 0;
      }
    }

    /** An attempt up to its first await. */
    method Attempt()
      modifies this
      ensures Now() == Attempted(old(Now()))
    {
      if relayStopped { return; }
      attempts := attempts + 1;
      connecting := connecting + 1;
    }

    method ConnectResolved()
      requires connecting > 0
      modifies this
      ensures Now() == Connected(old(Now()))
    {
      connecting, binding := connecting - 1, binding + 1;
      broker, open := true, open + 1;
    }

    method BindResolved()
      requires binding > 0
      modifies this
      ensures Now() == Bound(old(Now()))
    {
      binding := binding - 1;
      interval := true;
      if relayStopped {
        TeardownRelay();
      }
    }

    method StartRejected(unretryable: bool)
      modifies this
      ensures Now() == Rejected(old(Now()), cap, unretryable)
    {
      if unretryable {
        ended := true;
        return;
      }
      TeardownRelay();
      if relayStopped { return; }
      if attempts >= cap {
        off := true;
        return;
      }
      var wait := Rung(attempts);
      ClearPending();
      timer, scheduled, delay := true, scheduled + 1, wait;
    }

    method OnTimer()
      requires scheduled > 0
      modifies this
      ensures Now() == Fired(old(Now()))
    {
      timer, scheduled := false, scheduled - 1;
      Attempt();
    }

    method Stop()
      modifies this
      ensures Now() == Stopped(old(Now()))
    {
      relayStopped := true;
      ClearPending();
      TeardownRelay();
    }
  }

  // ---------------------------------------------------------------------------------------------
  // Runs
  // ---------------------------------------------------------------------------------------------

  datatype Event = Start | ConnectOk | ConnectFails(unretryable: bool) | BindOk | BindFails(unretryable: bool) | Timer | Stop

  /** A run's state, how many of its attempts were rejected, and whether one got through. */
  datatype Run = Run(s: State, started: bool, rejected: nat, bound: bool)

  const IDLE := Run(EMPTY, false, 0, false)

  /** One start; stop may come at any time, more than once. */
  predicate Legal(r: Run, e: Event) {
    !r.s.ended &&
    match e
    case Start => !r.started
    case ConnectOk => r.s.connecting > 0
    case ConnectFails(_) => r.s.connecting > 0
    case BindOk => r.s.binding > 0
    case BindFails(_) => r.s.binding > 0
    case Timer => r.s.scheduled > 0
    case Stop => true
  }

  function Step(r: Run, cap: nat, e: Event): Run
    requires Legal(r, e)
  {
    match e
    case Start => r.(s := Attempted(r.s), started := true)
    case ConnectOk => r.(s := Connected(r.s))
    case ConnectFails(unretryable) =>
      r.(s := Rejected(r.s.(connecting := r.s.connecting - 1), cap, unretryable), rejected := r.rejected + 1)
    case BindOk => r.(s := Bound(r.s), bound := true)
    case BindFails(unretryable) =>
      r.(s := Rejected(r.s.(binding := r.s.binding - 1), cap, unretryable), rejected := r.rejected + 1)
    case Timer => r.(s := Fired(r.s))
    case Stop => r.(s := Stopped(r.s))
  }

  function Next(r: Run, cap: nat, e: Event): Run { if Legal(r, e) then Step(r, cap, e) else r }

  function RunOf(cap: nat, events: seq<Event>): Run {
    if events == [] then IDLE
    else Next(RunOf(cap, events[..|events| - 1]), cap, events[|events| - 1])
  }

  function One(b: bool): nat { if b then 1 else 0 }

  function InFlight(s: State): nat { s.connecting + s.binding }

  /** At most one attempt or timer, and every open connection is the one the leaf can still close. */
  ghost predicate Consistent(s: State) {
    && InFlight(s) + s.scheduled <= 1
    && s.scheduled == One(s.timer)
    && s.open == One(s.broker)
    && (s.broker && !s.ended ==> s.binding > 0 || s.interval)
  }

  ghost predicate Ladder(r: Run, cap: nat) {
    && (r.s.attempts <= cap || r.s.attempts <= 1)
    && (r.s.scheduled > 0 ==> 1 <= r.s.attempts < cap && r.s.delay == Rung(r.s.attempts))
    && r.s.attempts == r.rejected + One(InFlight(r.s) > 0) + One(r.bound)
    && (r.bound ==> InFlight(r.s) + r.s.scheduled == 0)
    && (r.s.off ==> r.s.attempts == r.rejected >= cap)
  }

  /** Before the stop something always goes on: an attempt, a timer, the relay itself, or it is off for good. */
  ghost predicate Ongoing(r: Run) {
    && (r.started && !r.s.relayStopped && !r.s.ended ==>
          InFlight(r.s) + r.s.scheduled + One(r.s.interval) + One(r.s.off) == 1 && (r.s.interval ==> r.s.broker) && (r.s.binding > 0 ==> r.s.broker) && r.bound == r.s.interval)
    && (!r.started ==> r.s.attempts == 0 && InFlight(r.s) + r.s.scheduled == 0 && !r.s.interval && !r.s.off && r.rejected == 0 && !r.bound)
  }

  /** After the stop no timer is armed, and what is open belongs to the one attempt still under way. */
  ghost predicate Quiet(s: State) {
    s.relayStopped ==> s.scheduled == 0 && !s.interval && (s.broker ==> s.binding > 0 || s.ended)
  }

  ghost predicate Inv(r: Run, cap: nat) { Consistent(r.s) && Ladder(r, cap) && Ongoing(r) && Quiet(r.s) }

  lemma ConsistentKeeps(r: Run, cap: nat, e: Event)
    requires Inv(r, cap)
    ensures Consistent(Next(r, cap, e).s)
  {
  }

  lemma LadderKeeps(r: Run, cap: nat, e: Event)
    requires Inv(r, cap)
    ensures Ladder(Next(r, cap, e), cap)
  {
  }

  lemma OngoingKeeps(r: Run, cap: nat, e: Event)
    requires Inv(r, cap)
    ensures Ongoing(Next(r, cap, e))
  {
  }

  lemma QuietKeeps(r: Run, cap: nat, e: Event)
    requires Inv(r, cap)
    ensures Quiet(Next(r, cap, e).s)
  {
  }

  lemma NextKeeps(r: Run, cap: nat, e: Event)
    requires Inv(r, cap)
    ensures Inv(Next(r, cap, e), cap)
  {
    ConsistentKeeps(r, cap, e);
    LadderKeeps(r, cap, e);
    OngoingKeeps(r, cap, e);
    QuietKeeps(r, cap, e);
  }

  lemma UntouchedKeeps(r: Run, cap: nat)
    requires !r.started && !r.bound && r.rejected == 0 && r.s.attempts == 0 && InFlight(r.s) == r.s.scheduled == r.s.open == 0
    requires !r.s.timer && !r.s.broker && !r.s.interval && !r.s.off
    ensures Inv(r, cap)
  {
  }

  lemma {:induction false} RunKeeps(cap: nat, events: seq<Event>)
    ensures Inv(RunOf(cap, events), cap)
  {
    if events == [] {
      UntouchedKeeps(IDLE, cap);
    } else {
      RunKeeps(cap, events[..|events| - 1]);
      NextKeeps(RunOf(cap, events[..|events| - 1]), cap, events[|events| - 1]);
    }
  }

  // ---------------------------------------------------------------------------------------------
  // What a run guarantees
  // ---------------------------------------------------------------------------------------------

  /**
    At most one attempt or timer and one broker at a time; attempts stay within the cap; the n-th
    rejection is retried after the n-th delay, the last of them from then on; and the relay goes off
    for good only when every attempt the cap allows was rejected.
  */
  lemma LadderIsBounded(cap: nat, events: seq<Event>)
    requires cap >= 1
    ensures var r := RunOf(cap, events); var s := r.s;
            && InFlight(s) + s.scheduled <= 1 && s.open <= 1 && s.attempts <= cap
            && (s.off ==> s.attempts == r.rejected == cap)
            && (s.timer ==> 1 <= r.rejected == s.attempts < cap &&
                            s.delay == [5_000, 15_000, 60_000, 300_000][if r.rejected <= 4 then r.rejected - 1 else 3])
            && (r.started && !s.relayStopped && !s.ended && InFlight(s) + s.scheduled == 0 && !s.off ==> s.interval && s.open == 1)
  {
    RunKeeps(cap, events);
  }

  predicate Unretryable(e: Event) { (e.ConnectFails? && e.unretryable) || (e.BindFails? && e.unretryable) }

  lemma EndsIff(r: Run, cap: nat, e: Event)
    requires Legal(r, e)
    ensures Next(r, cap, e).s.ended <==> Unretryable(e)
  {
    match e
    case Start =>
    case ConnectOk =>
    case ConnectFails(_) =>
    case BindOk =>
    case BindFails(_) =>
    case Timer =>
    case Stop =>
  }

  lemma EndArmsNothing(r: Run, cap: nat, e: Event)
    requires Consistent(r.s) && Legal(r, e) && Unretryable(e)
    ensures var n := Next(r, cap, e).s; n.scheduled == 0 && !n.timer && InFlight(n) == 0
  {
  }

  /** A failure that must not be retried ends the process and arms nothing; nothing else ends it. */
  lemma UnretryableEnds(cap: nat, events: seq<Event>, e: Event)
    requires Legal(RunOf(cap, events), e)
    ensures Next(RunOf(cap, events), cap, e).s.ended <==> Unretryable(e)
    ensures var n := Next(RunOf(cap, events), cap, e).s; n.ended ==> n.scheduled == 0 && !n.timer && InFlight(n) == 0
  {
    RunKeeps(cap, events);
    EndsIff(RunOf(cap, events), cap, e);
    if Unretryable(e) {
      EndArmsNothing(RunOf(cap, events), cap, e);
    }
  }

  lemma StoppedStep(r: Run, cap: nat, e: Event)
    requires r.s.relayStopped
    ensures Next(r, cap, e).s.relayStopped && Next(r, cap, e).s.attempts == r.s.attempts
  {
    if Legal(r, e) {
      match e
      case Start =>
      case ConnectOk =>
      case ConnectFails(_) =>
      case BindOk =>
      case BindFails(_) =>
      case Timer =>
      case Stop =>
    }
  }

  lemma Snoc(cap: nat, events: seq<Event>, e: Event)
    ensures RunOf(cap, events + [e]) == Next(RunOf(cap, events), cap, e)
  {
    assert (events + [e])[..|events + [e]| - 1] == events;
  }

  lemma {:induction false} StoppedStays(cap: nat, events: seq<Event>, more: seq<Event>)
    requires RunOf(cap, events).s.relayStopped
    ensures RunOf(cap, events + more).s.relayStopped && RunOf(cap, events + more).s.attempts == RunOf(cap, events).s.attempts
  {
    if more == [] {
      assert events + more == events;
    } else {
      var rest := more[..|more| - 1];
      StoppedStays(cap, events, rest);
      assert events + more == events + rest + [more[|more| - 1]];
      Snoc(cap, events + rest, more[|more| - 1]);
      StoppedStep(RunOf(cap, events + rest), cap, more[|more| - 1]);
    }
  }

  /**
    After stop() no timer is armed and no attempt begun, whatever comes; and once the attempt it
    caught is over, no broker is open and no interval runs, unless the refusal ended the process.
  */
  lemma StopIsFinal(cap: nat, events: seq<Event>, more: seq<Event>)
    requires RunOf(cap, events).s.relayStopped
    ensures var s := RunOf(cap, events + more).s;
            && s.relayStopped && s.scheduled == 0 && !s.timer && s.attempts == RunOf(cap, events).s.attempts
            && !s.interval && (InFlight(s) == 0 && !s.ended ==> s.open == 0)
  {
    StoppedStays(cap, events, more);
    RunKeeps(cap, events + more);
  }
}
