/**
  The kernel's boot state machine (gremion-ui/src/hooks.server.ts): a memoized boot attempt that any
  caller may ask for, one scheduled re-attempt after a transient failure, and an exit after a failure
  that waiting does not fix. What an attempt does between its start and its end is one outcome. Beside
  the module's flags the state holds the attempts in flight, the timers scheduled and the exits made;
  it goes on past an exit, as when the exit is intercepted.
*/
module Boot {
  const BOOT_MAX_TRANSIENT_FAILURES: nat := 10

  datatype Outcome = Succeeds | FailsTransiently | FailsForGood

  datatype State = State(
    complete: bool,
    error: bool,
    errorRetryable: bool,
    promise: bool,          // _bootPromise holds an attempt
    attemptId: nat,
    retryPending: bool,
    transientFailures: nat,
    running: set<nat>,
    scheduled: nat,
    exits: nat)

  const EMPTY := State(false, false, false, false, 0, false, 0, {}, 0, 0)

  /** boot() up to its first await. */
  function Asked(s: State): State {
    if s.promise then s
    else s.(promise := true, attemptId := s.attemptId + 1, running := s.running + {s.attemptId + 1})
  }

  function RetryScheduled(s: State): State {
    if s.retryPending then s else s.(retryPending := true, scheduled := s.scheduled + 1)
  }

  function Settled(s: State, id: nat, outcome: Outcome): State {
    var t := s.(running := s.running - {id});
    if outcome.Succeeds? then t.(complete := true, error := false, errorRetryable := false, transientFailures := 0)
    else
      var failures := t.transientFailures + if outcome.FailsTransiently? then 1 else 0;
      var retryable := outcome.FailsTransiently? && failures < BOOT_MAX_TRANSIENT_FAILURES;
      var f := t.(error := true, errorRetryable := retryable, transientFailures := failures);
      if retryable then RetryScheduled(if f.attemptId == id then f.(promise := false) else f)
      else f.(exits := f.exits + 1)
  }

  function Fired(s: State): State
    requires s.scheduled > 0
  {
    Asked(s.(retryPending := false, scheduled := s.scheduled - 1))
  }

  class BootRuntime {
    var complete: bool
    var error: bool
    var errorRetryable: bool
    var promise: bool
    var attemptId: nat
    var retryPending: bool
    var transientFailures: nat
    var running: set<nat>
    var scheduled: nat
    var exits: nat

    function Now(): State
      reads this
    {
      State(complete, error, errorRetryable, promise, attemptId, retryPending, transientFailures, running, scheduled, exits)
    }

    constructor ()
      ensures Now() == EMPTY
    {
      complete, error, errorRetryable, promise, attemptId := false, false, false, false, 0;
      retryPending, transientFailures, running, scheduled, exits := false, 0, {}, 0, 0;
    }

    method Boot()
      modifies this
      ensures Now() == Asked(old(Now()))
    {
      if promise { return; }
      attemptId := attemptId + 1;
      promise := true;
      running := running + {attemptId};
    }

    method ScheduleBootRetry()
      modifies this
      ensures Now() == RetryScheduled(old(Now()))
    {
      if retryPending { return; }
      retryPending := true;
      scheduled := scheduled + 1;
    }

    method OnTimer()
      requires scheduled > 0
      modifies this
      ensures Now() == Fired(old(Now()))
    {
      scheduled := scheduled - 1;
      retryPending := false;
      Boot();
    }

    method Settle(id: nat, outcome: Outcome)
      modifies this
      ensures Now() == Settled(old(Now()), id, outcome)
    {
      running := running - {id};
      if outcome.Succeeds? {
        complete, error, errorRetryable, transientFailures := true, false, false, 0;
        return;
      }
      error := true;
      if outcome.FailsTransiently? {
        transientFailures := transientFailures + 1;
      }
      errorRetryable := outcome.FailsTransiently? && transientFailures < BOOT_MAX_TRANSIENT_FAILURES;
      if errorRetryable {
        if attemptId == id {
          promise := false;
        }
        ScheduleBootRetry();
      } else {
        exits := exits + 1;
      }
    }
  }

  // ---------------------------------------------------------------------------------------------
  // Runs
  // ---------------------------------------------------------------------------------------------

  datatype Event = Call | Settle(id: nat, outcome: Outcome) | Timer

  predicate Legal(s: State, e: Event) {
    match e
    case Call => true
    case Settle(id, _) => id in s.running
    case Timer => s.scheduled > 0
  }

  /** A run's state, and how its attempts ended so far. */
  datatype Run = Run(s: State, transients: nat, fatals: nat)

  const IDLE := Run(EMPTY, 0, 0)

  function Next(r: Run, e: Event): Run {
    if !Legal(r.s, e) then r
    else match e
      case Call => r.(s := Asked(r.s))
      case Timer => r.(s := Fired(r.s))
      case Settle(id, outcome) =>
        Run(Settled(r.s, id, outcome), r.transients + (if outcome.FailsTransiently? then 1 else 0),
            r.fatals + (if outcome.FailsForGood? then 1 else 0))
  }

  function RunOf(events: seq<Event>): Run {
    if events == [] then IDLE else Next(RunOf(events[..|events| - 1]), events[|events| - 1])
  }

  function One(b: bool): nat { if b then 1 else 0 }

  /** The memo covers the one attempt in flight, and the flag the one timer. */
  ghost predicate Single(s: State) {
    && (forall id | id in s.running :: id == s.attemptId)
    && (!s.promise ==> s.running == {})
    && s.scheduled == One(s.retryPending)
    && (s.attemptId == 0 ==> !s.promise && !s.retryPending)
  }

  /** Completed, exited, or on the way: and only one of them. */
  ghost predicate Progress(r: Run) {
    && (r.s.complete ==> r.s.promise && r.s.running == {} && !r.s.error && r.s.exits == 0)
    && (r.s.exits > 0 ==> r.s.promise && r.s.running == {} && !r.s.complete)
    && (r.s.exits == 0 && !r.s.complete && r.s.attemptId > 0 ==> if r.s.promise then r.s.attemptId in r.s.running else r.s.retryPending)
  }

  ghost predicate Counted(r: Run) {
    && r.s.attemptId == r.transients + r.fatals + One(r.s.running != {}) + One(r.s.complete)
    && r.transients <= BOOT_MAX_TRANSIENT_FAILURES && r.fatals <= 1
    && (r.s.running != {} || r.s.complete || !r.s.promise ==> r.transients < BOOT_MAX_TRANSIENT_FAILURES && r.fatals == 0)
    && (r.fatals == 1 ==> r.transients < BOOT_MAX_TRANSIENT_FAILURES)
    && (r.s.error <==> !r.s.complete && r.transients + r.fatals > 0)
    && (r.s.errorRetryable <==> r.s.error && r.s.exits == 0)
    && r.s.transientFailures == (if r.s.complete then 0 else r.transients)
    && r.s.exits == One(r.fatals == 1 || r.transients == BOOT_MAX_TRANSIENT_FAILURES)
  }

  ghost predicate Inv(r: Run) { Single(r.s) && Progress(r) && Counted(r) }

  lemma NextKeeps(r: Run, e: Event)
    requires Inv(r)
    ensures Inv(Next(r, e))
  {
    if e.Settle? && e.id in r.s.running {
      assert r.s.running == {e.id};
    }
  }

  lemma {:induction false} RunKeeps(events: seq<Event>)
    ensures Inv(RunOf(events))
  {
    if events != [] {
      RunKeeps(events[..|events| - 1]);
      NextKeeps(RunOf(events[..|events| - 1]), events[|events| - 1]);
    }
  }

  // ---------------------------------------------------------------------------------------------
  // What a run guarantees
  // ---------------------------------------------------------------------------------------------

  /**
    At most one attempt and one timer; never more than ten attempts; an exit exactly when one attempt
    failed for good or ten failed transiently, and at most one; and otherwise, until it completes,
    an attempt is running or one is scheduled. The error is shown from the first failure to the
    completion, as retryable until the exit.
  */
  lemma BootIsBounded(events: seq<Event>)
    ensures var r := RunOf(events); var s := r.s;
            && |s.running| <= 1 && s.scheduled <= 1 && s.attemptId <= BOOT_MAX_TRANSIENT_FAILURES
            && (s.exits == 1 <==> r.fatals > 0 || r.transients >= BOOT_MAX_TRANSIENT_FAILURES) && s.exits <= 1
            && (s.attemptId > 0 && s.exits == 0 && !s.complete ==> s.running != {} || s.retryPending)
            && (s.complete ==> !s.error && s.exits == 0)
            && (s.error <==> !s.complete && r.transients + r.fatals > 0) && (s.errorRetryable <==> s.error && s.exits == 0)
            && s.transientFailures == (if s.complete then 0 else r.transients)
  {
    RunKeeps(events);
    var s := RunOf(events).s;
    if s.running != {} {
      var id :| id in s.running;
      assert s.running == {id};
    }
  }

  lemma Snoc(events: seq<Event>, e: Event)
    ensures RunOf(events + [e]) == Next(RunOf(events), e)
  {
    assert (events + [e])[..|events + [e]| - 1] == events;
  }

  /** Completed or exited: the memo keeps its attempt, and none runs. */
  predicate Over(s: State) { s.promise && s.running == {} && (s.complete || s.exits == 1) }

  /** All of the state that a reader of it, or a caller of boot(), can tell. */
  predicate SameEnd(s: State, t: State) {
    s.complete == t.complete && s.error == t.error && s.exits == t.exits && s.attemptId == t.attemptId
  }

  lemma EndedIsOver(events: seq<Event>)
    requires RunOf(events).s.complete || RunOf(events).s.exits == 1
    ensures Over(RunOf(events).s)
  {
    RunKeeps(events);
  }

  lemma OverStep(r: Run, e: Event)
    requires Over(r.s)
    ensures Over(Next(r, e).s) && SameEnd(r.s, Next(r, e).s)
  {
  }

  /** Completion, like an exit, is never undone, and nothing is attempted after it. */
  lemma {:induction false} OverIsOver(events: seq<Event>, more: seq<Event>)
    requires RunOf(events).s.complete || RunOf(events).s.exits == 1
    ensures Over(RunOf(events + more).s) && SameEnd(RunOf(events).s, RunOf(events + more).s)
  {
    if more == [] {
      EndedIsOver(events);
      assert events + more == events;
    } else {
      var rest := more[..|more| - 1];
      OverIsOver(events, rest);
      assert events + more == events + rest + [more[|more| - 1]];
      Snoc(events + rest, more[|more| - 1]);
      OverStep(RunOf(events + rest), more[|more| - 1]);
    }
  }
}
