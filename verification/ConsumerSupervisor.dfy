/**
  The finance leaf's consumer supervisor (modules/finance/src/consumer-supervisor.ts) and its pre-stop
  hook (modules/finance/src/stop-consumer.ts): a bounded restart ladder whose counter starts over
  when a consumer proved stable. Beside the supervisor's own variables the state counts what exists
  outside it: boots in flight, timers still scheduled, live consumers. Times are milliseconds.
*/
module ConsumerSupervisor {
  import opened Wrappers

  const DELAYS: seq<int> := [5_000, 15_000, 60_000, 300_000]
  const STABLE_AFTER: int := 60_000

  datatype State = State(
    attempts: nat,
    timer: bool,
    gaveUp: bool,
    liveSince: Option<int>,
    retained: bool,
    stopped: bool,
    ended: bool,          // an unretryable failure ended the process
    booting: nat,
    scheduled: nat,
    live: nat,
    closed: nat,          // closes asked of live consumers at shutdown, and of boots that came late
    delay: int)           // of the last timer armed

  const EMPTY := State(0, false, false, None, false, false, false, 0, 0, 0, 0, 0)

  function ClearedPending(s: State): State {
    if s.timer then s.(timer := false, scheduled := if s.scheduled > 0 then s.scheduled - 1 else 0) else s
  }

  function Attempted(s: State): State { s.(attempts := s.attempts + 1, booting := s.booting + 1) }

  /** The last run was long enough to start the count over. */
  predicate Stable(s: State, now: int) { s.liveSince.Some? && now - s.liveSince.value >= STABLE_AFTER }

  /** From a boot failure the delay follows the table; from a death it is the first step. */
  function Rung(attempts: nat): int { DELAYS[if attempts == 0 then 0 else if attempts - 1 < 3 then attempts - 1 else 3] }

  function ScheduledNext(s: State, cap: nat, now: int, died: bool): State {
    if s.stopped then s
    else
      var t := s.(attempts := if Stable(s, now) then 1 else s.attempts, liveSince := None);
      if t.attempts >= cap then t.(gaveUp := true)
      else
        var c := ClearedPending(t);
        c.(timer := true, scheduled := c.scheduled + 1, delay := if died then DELAYS[0] else Rung(t.attempts))
  }

  function Booted(s: State, now: int): State
    requires s.booting > 0
  {
    var t := s.(booting := s.booting - 1);
    if s.stopped then t.(closed := t.closed + 1)
    else t.(retained := true, live := t.live + 1, liveSince := Some(now))
  }

  function BootFailed(s: State, cap: nat, unretryable: bool, now: int): State
    requires s.booting > 0
  {
    var t := s.(booting := s.booting - 1);
    if unretryable then t.(ended := true)
    else ScheduledNext(t, cap, now, false)
  }

  function Died(s: State, cap: nat, unretryable: bool, now: int): State
    requires s.live > 0
  {
    var t := s.(live := s.live - 1);
    if unretryable then t.(ended := true)
    else ScheduledNext(t.(retained := false), cap, now, true)
  }

  function Fired(s: State): State
    requires s.scheduled > 0
  {
    Attempted(s.(timer := false, scheduled := s.scheduled - 1))
  }

  /** Mark, cancel, close: in this order. */
  function Stopped(s: State): State {
    var c := ClearedPending(s.(stopped := true));
    if c.retained then c.(closed := c.closed + 1) else c
  }

  class Supervisor {
    const cap: nat
    var attempts: nat
    var timer: bool
    var gaveUp: bool
    var liveSince: Option<int>
    var retained: bool
    var stopped: bool
    var ended: bool
    var booting: nat
    var scheduled: nat
    var live: nat
    var closed: nat
    var delay: int

    function Now(): State
      reads this
    {
      State(attempts, timer, gaveUp, liveSince, retained, stopped, ended, booting, scheduled, live, closed, delay)
    }

    constructor (cap: nat)
      ensures Now() == EMPTY && this.cap == cap
    {
      this.cap := cap;
      attempts, timer, gaveUp, liveSince, retained, stopped, ended := 0, false, false, None, false, false, false;
      booting, scheduled, live, closed, delay := 0, 0, 0, 0, 0;
    }

    method ClearPending()
      modifies this
      ensures Now() == ClearedPending(old(Now()))
    {
      if timer {
        scheduled := if scheduled > 0 then scheduled - 1 else 0;
        timer := false;
      }
    }

    method ScheduleNext(now: int, died: bool)
      modifies this
      ensures Now() == ScheduledNext(old(Now()), cap, now, died)
    {
      if stopped { return; }
      if liveSince.Some? && now - liveSince.value >= STABLE_AFTER {
        attempts := 1;
      }
      liveSince := None;
      if attempts >= cap {
        if !gaveUp {
          gaveUp := true;
        }
        return;
      }
      var wait := if died then DELAYS[0] else Rung(attempts);
      ClearPending();
      timer, scheduled, delay := true, scheduled + 1, wait;
    }

    method Attempt()
      modifies this
      ensures Now() == Attempted(old(Now()))
    {
      attempts := attempts + 1;
      booting := booting + 1;
    }

    method BootResolved(now: int)
      requires booting > 0
      modifies this
      ensures Now() == Booted(old(Now()), now)
    {
      booting := booting - 1;
      if stopped {
        closed := closed + 1;
        return;
      }
      retained := true;
      live := live + 1;
      liveSince := Some(now);
    }

    method BootRejected(unretryable: bool, now: int)
      requires booting > 0
      modifies this
      ensures Now() == BootFailed(old(Now()), cap, unretryable, now)
    {
      booting := booting - 1;
      if unretryable {
        ended := true;
        return;
      }
      if stopped { return; }
      ScheduleNext(now, false);
    }

    method OnMidLifeFault(unretryable: bool, now: int)
      requires live > 0
      modifies this
      ensures Now() == Died(old(Now()), cap, unretryable, now)
    {
      live := live - 1;
      if unretryable {
        ended := true;
        return;
      }
      retained := false;
      if stopped { return; }
      ScheduleNext(now, true);
    }

    method OnTimer()
      requires scheduled > 0
      modifies this
      ensures Now() == Fired(old(Now()))
    {
      timer, scheduled := false, scheduled - 1;
      Attempt();
    }

    method StopOrgUnitConsumer()
      modifies this
      ensures Now() == Stopped(old(Now()))
    {
      stopped := true;
      ClearPending();
      if retained {
        closed := closed + 1;
      }
    }
  }

  // ---------------------------------------------------------------------------------------------
  // Runs
  // ---------------------------------------------------------------------------------------------

  datatype Event =
    | Start
    | BootOk(now: int)
    | BootFails(unretryable: bool, now: int)
    | Death(unretryable: bool, now: int)
    | Timer
    | Stop

  /**
    A run's state; its failures since the broker was last proven, boots that failed or died too young;
    and what became of the handles its boots opened.
  */
  datatype Run = Run(s: State, started: bool, bad: nat, proven: bool, handles: Handles)

  /** Handles booted in all, those that died, those that came after the stop, and those live at the stop. */
  datatype Handles = Handles(booted: nat, died: nat, late: nat, liveAtStop: nat)

  predicate Legal(r: Run, e: Event) {
    !r.s.ended &&
    match e
    case Start => !r.started
    case BootOk(_) => r.s.booting > 0
    case BootFails(_, _) => r.s.booting > 0
    case Death(_, _) => r.s.live > 0
    case Timer => r.s.scheduled > 0
    case Stop => !r.s.stopped
  }

  function Step(r: Run, cap: nat, e: Event): Run
    requires Legal(r, e)
  {
    match e
    case Start => r.(s := Attempted(r.s), started := true)
    case BootOk(now) =>
      r.(s := Booted(r.s, now),
         handles := r.handles.(booted := r.handles.booted + 1, late := r.handles.late + One(r.s.stopped)))
    case BootFails(unretryable, now) => r.(s := BootFailed(r.s, cap, unretryable, now), bad := r.bad + 1)
    case Death(unretryable, now) =>
      var next := r.(s := Died(r.s, cap, unretryable, now), handles := r.handles.(died := r.handles.died + 1));
      if Stable(r.s, now) then next.(bad := 0, proven := true) else next.(bad := r.bad + 1)
    case Timer => r.(s := Fired(r.s))
    case Stop => r.(s := Stopped(r.s), handles := r.handles.(liveAtStop := r.s.live))
  }

  const IDLE := Run(EMPTY, false, 0, false, Handles(0, 0, 0, 0))

  function Next(r: Run, cap: nat, e: Event): Run { if Legal(r, e) then Step(r, cap, e) else r }

  function RunOf(cap: nat, events: seq<Event>): Run {
    if events == [] then IDLE
    else Next(RunOf(cap, events[..|events| - 1]), cap, events[|events| - 1])
  }

  /** What there is to do the consumer's work, now or later. */
  function Things(s: State): nat { s.booting + s.scheduled + s.live }

  function One(b: bool): nat { if b then 1 else 0 }

  /** The supervisor's variables agree with what is outside it. */
  ghost predicate Consistent(s: State) {
    && s.scheduled == One(s.timer)
    && (s.live == 1 ==> s.liveSince.Some? && s.retained)
    && (s.liveSince.Some? && !s.stopped && !s.ended ==> s.live == 1)
    && (s.retained && !s.ended ==> s.live == 1)
    && (s.stopped ==> s.live <= s.closed && s.scheduled == 0)
  }

  /** The counter is the failures since the last proof, that proof's own death, and the attempt under way. */
  ghost predicate Counted(r: Run, cap: nat) {
    && (r.s.attempts <= cap || r.s.attempts <= 1)
    && (!r.s.stopped && !r.s.ended && r.started ==> r.s.attempts == r.bad + One(r.proven) + One(r.s.booting + r.s.live > 0))
    && (r.s.scheduled > 0 ==> r.s.attempts < cap)
    && (r.s.gaveUp ==> r.s.attempts >= cap && r.bad + One(r.proven) >= cap)
  }

  /** Nothing is lost and nothing doubled: something is under way until the ladder gives up, stops or ends. */
  ghost predicate Ongoing(r: Run) {
    && Things(r.s) <= 1
    && (r.s.gaveUp ==> Things(r.s) == 0 && r.started)
    && (r.started && !r.s.gaveUp && !r.s.stopped && !r.s.ended ==> Things(r.s) == 1)
    && (!r.started ==> r.s.attempts == 0 && Things(r.s) == 0 && r.bad == 0 && !r.proven)
  }

  ghost predicate Inv(r: Run, cap: nat) { Consistent(r.s) && Counted(r, cap) && Ongoing(r) }

  lemma ConsistentKeeps(r: Run, cap: nat, e: Event)
    requires Consistent(r.s) && Ongoing(r)
    ensures Consistent(Next(r, cap, e).s)
  {
  }

  lemma CountedKeeps(r: Run, cap: nat, e: Event)
    requires Inv(r, cap)
    ensures Counted(Next(r, cap, e), cap)
  {
    if Legal(r, e) {
      match e
      case Start =>
      case BootOk(_) =>
      case BootFails(_, _) =>
      case Death(_, _) =>
      case Timer =>
      case Stop =>
    }
  }

  lemma OngoingKeeps(r: Run, cap: nat, e: Event)
    requires Consistent(r.s) && Ongoing(r)
    ensures Ongoing(Next(r, cap, e))
  {
  }

  lemma NextKeeps(r: Run, cap: nat, e: Event)
    requires Inv(r, cap)
    ensures Inv(Next(r, cap, e), cap)
  {
    ConsistentKeeps(r, cap, e);
    CountedKeeps(r, cap, e);
    OngoingKeeps(r, cap, e);
  }

  /** Every handle is dead, live, or came too late; and the closes are those of the live one at the stop and the late ones. */
  ghost predicate HandlesAccounted(r: Run) {
    && r.handles.booted == r.handles.died + r.s.live + r.handles.late
    && r.s.closed == r.handles.liveAtStop + r.handles.late
    && (!r.s.stopped ==> r.handles.liveAtStop == r.handles.late == 0)
  }

  lemma HandlesKeep(r: Run, cap: nat, e: Event)
    requires HandlesAccounted(r) && Inv(r, cap)
    ensures HandlesAccounted(Next(r, cap, e))
  {
    if Legal(r, e) {
      match e
      case Start =>
      case BootOk(_) =>
      case BootFails(_, _) =>
      case Death(_, _) =>
      case Timer =>
      case Stop =>
    }
  }

  lemma {:induction false} RunHandles(cap: nat, events: seq<Event>)
    ensures HandlesAccounted(RunOf(cap, events))
  {
    if events != [] {
      RunHandles(cap, events[..|events| - 1]);
      RunKeeps(cap, events[..|events| - 1]);
      HandlesKeep(RunOf(cap, events[..|events| - 1]), cap, events[|events| - 1]);
    }
  }

  lemma IdleKeeps(cap: nat)
    ensures Inv(IDLE, cap)
  {
  }

  lemma {:induction false} RunKeeps(cap: nat, events: seq<Event>)
    ensures Inv(RunOf(cap, events), cap)
  {
    if events == [] {
      IdleKeeps(cap);
    } else {
      var before, last := RunOf(cap, events[..|events| - 1]), events[|events| - 1];
      RunKeeps(cap, events[..|events| - 1]);
      NextKeeps(before, cap, last);
      assert RunOf(cap, events) == Next(before, cap, last);
    }
  }

  // ---------------------------------------------------------------------------------------------
  // What a run guarantees
  // ---------------------------------------------------------------------------------------------

  /**
    At most one boot, timer or consumer at a time, and exactly one while the ladder is on; attempts
    stay within the cap; giving up takes at least cap - 1 failures since the broker was last proven,
    and the full cap if it never was.
  */
  lemma LadderIsBounded(cap: nat, events: seq<Event>)
    requires cap >= 1
    ensures var r := RunOf(cap, events); var s := r.s;
            && Things(s) <= 1 && s.attempts <= cap
            && (r.started && !s.stopped && !s.ended ==> (Things(s) == 0 <==> s.gaveUp))
            && (s.gaveUp ==> r.bad >= cap - 1 && (!r.proven ==> r.bad >= cap))
            && (s.timer <==> s.scheduled == 1)
  {
    RunKeeps(cap, events);
  }

  /** A stopped step arms nothing. */
  lemma StoppedStep(r: Run, cap: nat, e: Event)
    requires r.s.stopped
    ensures Next(r, cap, e).s.stopped && Next(r, cap, e).s.live <= r.s.live
  {
  }

  lemma {:induction false} StoppedStays(cap: nat, events: seq<Event>, more: seq<Event>)
    requires RunOf(cap, events).s.stopped
    ensures RunOf(cap, events + more).s.stopped && RunOf(cap, events + more).s.live <= RunOf(cap, events).s.live
  {
    if more == [] {
      assert events + more == events;
    } else {
      var rest := more[..|more| - 1];
      StoppedStays(cap, events, rest);
      assert events + more == events + rest + [more[|more| - 1]];
      Snoc(cap, events + rest, more[|more| - 1]);
      StoppedStep(RunOf(cap, events + rest), cap, more[|more| - 1]);
    }
  }

  /** From the stop on no timer is ever armed, no consumer comes to life, and everything live has been closed. */
  lemma StopIsFinal(cap: nat, events: seq<Event>, more: seq<Event>)
    requires RunOf(cap, events).s.stopped
    ensures var s := RunOf(cap, events + more).s;
            s.stopped && s.scheduled == 0 && !s.timer && s.live <= s.closed && s.live <= RunOf(cap, events).s.live
  {
    StoppedStays(cap, events, more);
    RunKeeps(cap, events + more);
  }

  predicate Off(r: Run) { r.started && r.s.gaveUp && Things(r.s) == 0 }

  lemma GivenUpIsOff(cap: nat, events: seq<Event>)
    requires RunOf(cap, events).s.gaveUp
    ensures Off(RunOf(cap, events))
  {
    RunKeeps(cap, events);
  }

  lemma OffStep(r: Run, cap: nat, e: Event)
    requires Off(r)
    ensures Off(Next(r, cap, e))
  {
  }

  /**
    No handle is lost over any run: each one opened has died, is live, or resolved after the stop;
    before the stop nothing is closed, and from then on the closes are exactly the consumer that was
    live at the stop and every boot that resolved after it.
  */
  lemma NoHandleLeaks(cap: nat, events: seq<Event>)
    ensures var r := RunOf(cap, events); var h := r.handles;
            && h.booted == h.died + r.s.live + h.late
            && (if r.s.stopped then r.s.closed == h.liveAtStop + h.late else r.s.closed == 0 && h.late == 0)
  {
    RunHandles(cap, events);
  }

  /** A failure that must not be retried ends the process and arms nothing. */
  lemma UnretryableEnds(cap: nat, events: seq<Event>, e: Event)
    requires Legal(RunOf(cap, events), e) && ((e.BootFails? && e.unretryable) || (e.Death? && e.unretryable))
    ensures var n := Next(RunOf(cap, events), cap, e).s; n.ended && n.scheduled == 0 && !n.timer && n.booting == 0
    ensures forall f :: !Legal(Next(RunOf(cap, events), cap, e), f)
  {
    RunKeeps(cap, events);
  }

  /** Nothing else ever ends it. */
  lemma OnlyUnretryableEnds(r: Run, cap: nat, e: Event)
    requires !r.s.ended && Next(r, cap, e).s.ended
    ensures (e.BootFails? && e.unretryable) || (e.Death? && e.unretryable)
  {
  }

  /** Once the ladder gives up nothing starts again. */
  lemma {:induction false} GivingUpIsFinal(cap: nat, events: seq<Event>, more: seq<Event>)
    requires RunOf(cap, events).s.gaveUp
    ensures Off(RunOf(cap, events + more))
  {
    if more == [] {
      GivenUpIsOff(cap, events);
      assert events + more == events;
    } else {
      var rest := more[..|more| - 1];
      GivingUpIsFinal(cap, events, rest);
      assert events + more == events + rest + [more[|more| - 1]];
      Snoc(cap, events + rest, more[|more| - 1]);
      OffStep(RunOf(cap, events + rest), cap, more[|more| - 1]);
    }
  }

  /** A death is retried after the first delay however far the ladder had climbed, unless it was the cap's last. */
  lemma DeathRestartsSoon(cap: nat, events: seq<Event>, now: int)
    requires Legal(RunOf(cap, events), Death(false, now)) && !RunOf(cap, events).s.stopped
    ensures var s, n := RunOf(cap, events).s, Next(RunOf(cap, events), cap, Death(false, now)).s;
            && !n.retained && n.live == 0
            && n.attempts == (if s.liveSince.Some? && now - s.liveSince.value >= 60_000 then 1 else s.attempts)
            && n.gaveUp == (n.attempts >= cap)
            && (!n.gaveUp ==> n.scheduled == 1 && n.delay == 5_000)
  {
    RunKeeps(cap, events);
    DeathStep(RunOf(cap, events), cap, now);
  }

  lemma DeathStep(r: Run, cap: nat, now: int)
    requires Inv(r, cap) && Legal(r, Death(false, now)) && !r.s.stopped
    ensures var n := Next(r, cap, Death(false, now)).s;
            && !n.retained && n.live == 0
            && n.attempts == (if Stable(r.s, now) then 1 else r.s.attempts)
            && n.gaveUp == (n.attempts >= cap)
            && (!n.gaveUp ==> n.scheduled == 1 && n.delay == 5_000)
  {
  }

  /** A run whose only failures are deaths after a stable run. */
  ghost predicate OnlyStableDeaths(cap: nat, events: seq<Event>) {
    forall i | 0 <= i < |events| && Legal(RunOf(cap, events[..i]), events[i]) ::
      !events[i].BootFails? && (events[i].Death? ==> Stable(RunOf(cap, events[..i]).s, events[i].now))
  }

  lemma {:induction false} NothingBad(cap: nat, events: seq<Event>)
    requires OnlyStableDeaths(cap, events)
    ensures RunOf(cap, events).bad == 0
  {
    if events != [] {
      var rest := events[..|events| - 1];
      assert forall i | 0 <= i < |rest| :: rest[..i] == events[..i];
      NothingBad(cap, rest);
      assert events[..|events| - 1] == rest;
    }
  }

  /** One boot that dies on the edge of the stable window. */
  const ONE_STABLE_DEATH: seq<Event> := [Start, BootOk(0), Death(false, STABLE_AFTER)]

  /** Any number of deaths after stable runs leaves the ladder on, exactly when the cap is at least two. */
  lemma StableDeathsNeverEndIff(cap: nat)
    ensures cap >= 2 <==> forall events | OnlyStableDeaths(cap, events) :: !RunOf(cap, events).s.gaveUp
  {
    if cap >= 2 {
      forall events | OnlyStableDeaths(cap, events) ensures !RunOf(cap, events).s.gaveUp {
        RunKeeps(cap, events);
        NothingBad(cap, events);
      }
    } else {
      OneStableDeath(cap);
    }
  }

  lemma FirstStart(cap: nat)
    ensures var r := Next(IDLE, cap, Start); r.s.booting == 1 && r.s.attempts == 1 && Open(r.s)
    ensures RunOf(cap, [Start]) == Next(IDLE, cap, Start)
  {
    Snoc(cap, [], Start);
    assert [] + [Start] == [Start];
  }

  /** Neither stopped nor ended, nothing live and no timer, never live before. */
  predicate Open(s: State) { !s.stopped && !s.ended && !s.gaveUp && s.live == 0 && s.scheduled == 0 && !s.timer && s.liveSince.None? }

  lemma BootStep(cap: nat, r: Run)
    requires Open(r.s) && r.s.booting == 1
    ensures Legal(r, BootOk(0))
    ensures var s := Next(r, cap, BootOk(0)).s; s == r.s.(booting := 0, retained := true, live := 1, liveSince := Some(0))
  {
  }

  lemma StableDeathStep(cap: nat, r: Run)
    requires cap < 2 && r.s.live == 1 && r.s.liveSince == Some(0) && !r.s.stopped && !r.s.ended
    ensures Next(r, cap, Death(false, STABLE_AFTER)).s.gaveUp && Stable(r.s, STABLE_AFTER)
  {
  }

  lemma OneStableDeath(cap: nat)
    requires cap < 2
    ensures OnlyStableDeaths(cap, ONE_STABLE_DEATH) && RunOf(cap, ONE_STABLE_DEATH).s.gaveUp
  {
    var a, b, c := [Start], [Start, BootOk(0)], ONE_STABLE_DEATH;
    assert a + [BootOk(0)] == b && b + [Death(false, STABLE_AFTER)] == c;
    FirstStart(cap);
    Snoc(cap, a, BootOk(0));
    BootStep(cap, RunOf(cap, a));
    Snoc(cap, b, Death(false, STABLE_AFTER));
    StableDeathStep(cap, RunOf(cap, b));
    assert c[..2] == b;
  }

  /** A cold boot that keeps failing waits 5 s, 15 s, 60 s and 300 s, and is given up at its fifth failure. */
  function Failures(n: nat): seq<Event> {
    if n == 0 then [Start] else if n == 1 then [Start, BootFails(false, 0)] else Failures(n - 1) + [Timer] + [BootFails(false, 0)]
  }

  lemma Snoc(cap: nat, events: seq<Event>, e: Event)
    ensures RunOf(cap, events + [e]) == Next(RunOf(cap, events), cap, e)
  {
    assert (events + [e])[..|events + [e]| - 1] == events;
  }

  lemma FailureStep(r: Run)
    requires Open(r.s) && r.s.booting == 1 && 1 <= r.s.attempts <= 5
    ensures var s := Next(r, 5, BootFails(false, 0)).s;
            && s.attempts == r.s.attempts && s.gaveUp == (s.attempts == 5) && s.timer == (s.attempts < 5)
            && s.booting == 0 && s.scheduled == One(s.timer) && s.live == 0 && !s.stopped && !s.ended && s.liveSince.None?
            && (s.attempts < 5 ==> s.delay == DELAYS[s.attempts - 1])
  {
  }

  lemma TimerStep(r: Run)
    requires r.s.timer && r.s.scheduled == 1 && Open(r.s.(timer := false, scheduled := 0)) && r.s.booting == 0
    ensures var s := Next(r, 5, Timer).s; Open(s) && s.booting == 1 && s.attempts == r.s.attempts + 1
  {
  }

  lemma {:induction false} ColdLadder(n: nat)
    requires 1 <= n <= 5
    ensures var s := RunOf(5, Failures(n)).s;
            && s.attempts == n && s.gaveUp == (n == 5) && s.timer == (n < 5) && s.scheduled == One(s.timer) && s.booting == 0
            && (n < 5 ==> s.delay == DELAYS[n - 1]) && s.live == 0 && !s.ended && !s.stopped && s.liveSince.None?
  {
    if n == 1 {
      FirstStart(5);
      Snoc(5, [Start], BootFails(false, 0));
      FailureStep(RunOf(5, [Start]));
      assert [Start] + [BootFails(false, 0)] == Failures(1);
    } else {
      ColdLadder(n - 1);
      var before := Failures(n - 1);
      Snoc(5, before, Timer);
      TimerStep(RunOf(5, before));
      Snoc(5, before + [Timer], BootFails(false, 0));
      FailureStep(RunOf(5, before + [Timer]));
    }
  }
}
