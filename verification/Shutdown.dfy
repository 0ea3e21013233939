/**
  The signal handler of createShutdown (modules/calendar/src/shutdown.ts): a forced-exit timer armed
  before anything else, a pre-stop hook that may throw, the server's close, the pool drain, and one
  exit. `exits` lists every call of the process-exit seam. The hook is a step of its own, so what
  holds while it runs can be said, and its throw is one of the two ways it ends.
*/
module Shutdown {
  datatype State = State(
    shuttingDown: bool,
    exited: bool,
    armed: bool,         // the forced-exit timer
    hooking: nat,        // pre-stop hooks begun and not ended
    hookFailed: bool,
    closing: nat,        // close callbacks awaited
    draining: nat,       // drains awaited
    closeFailed: bool,
    exits: seq<int>)

  const EMPTY := State(false, false, false, 0, false, 0, 0, false, [])

  function ExitedOnce(s: State, code: int): State {
    if s.exited then s else s.(exited := true, exits := s.exits + [code])
  }

  function Signalled(s: State): State {
    if s.shuttingDown then s else s.(shuttingDown := true, armed := true, hooking := s.hooking + 1)
  }

  /** The hook returned; the server is closed next. */
  function HookReturned(s: State): State
    requires s.hooking > 0
  {
    s.(hooking := s.hooking - 1, closing := s.closing + 1)
  }

  /** The hook threw: the error is noted, and the server is closed all the same. */
  function HookThrew(s: State): State
    requires s.hooking > 0
  {
    s.(hooking := s.hooking - 1, hookFailed := true, closing := s.closing + 1)
  }

  function Closed(s: State, failed: bool): State
    requires s.closing > 0
  {
    s.(closing := s.closing - 1, draining := s.draining + 1, closeFailed := failed)
  }

  function Drained(s: State, ok: bool): State
    requires s.draining > 0
  {
    ExitedOnce(s.(draining := s.draining - 1, armed := false), if ok && !s.closeFailed then 0 else 1)
  }

  function Forced(s: State): State { ExitedOnce(s.(armed := false), 1) }

  class Handler {
    var shuttingDown: bool
    var exited: bool
    var armed: bool
    var hooking: nat
    var hookFailed: bool
    var closing: nat
    var draining: nat
    var closeFailed: bool
    var exits: seq<int>

    function Now(): State
      reads this
    {
      State(shuttingDown, exited, armed, hooking, hookFailed, closing, draining, closeFailed, exits)
    }

    constructor ()
      ensures Now() == EMPTY
    {
      shuttingDown, exited, armed, hooking, hookFailed := false, false, false, 0, false;
      closing, draining, closeFailed, exits := 0, 0, false, [];
    }

    method ExitOnce(code: int)
      modifies this
      ensures Now() == ExitedOnce(old(Now()), code)
    {
      if exited { return; }
      exited := true;
      exits := exits + [code];
    }

    /** The handler up to the hook's call. */
    method OnSignal()
      modifies this
      ensures Now() == Signalled(old(Now()))
    {
      if shuttingDown { return; }
      shuttingDown := true;
      armed := true;
      hooking := hooking + 1;
    }

    /** The handler from the end of the hook on. */
    method OnHookEnded(threw: bool)
      requires hooking > 0
      modifies this
      ensures Now() == if threw then HookThrew(old(Now())) else HookReturned(old(Now()))
    {
      hooking := hooking - 1;
      if threw {
        hookFailed := true;
      }
      closing := closing + 1;
    }

    method OnClosed(failed: bool)
      requires closing > 0
      modifies this
      ensures Now() == Closed(old(Now()), failed)
    {
      closing, closeFailed := closing - 1, failed;
      draining := draining + 1;
    }

    method OnDrained(ok: bool)
      requires draining > 0
      modifies this
      ensures Now() == Drained(old(Now()), ok)
    {
      draining, armed := draining - 1, false;
      if ok {
        ExitOnce(if closeFailed then 1 else 0);
      } else {
        ExitOnce(1);
      }
    }

    method OnForced()
      modifies this
      ensures Now() == Forced(old(Now()))
    {
      armed := false;
      ExitOnce(1);
    }
  }

  // ---------------------------------------------------------------------------------------------
  // Runs
  // ---------------------------------------------------------------------------------------------

  datatype Event = Signal | HookReturns | HookThrows | Close(failed: bool) | Drain(ok: bool) | Timer

  predicate Legal(s: State, e: Event) {
    match e
    case Signal => true
    case HookReturns => s.hooking > 0
    case HookThrows => s.hooking > 0
    case Close(_) => s.closing > 0
    case Drain(_) => s.draining > 0
    case Timer => s.armed
  }

  function Step(s: State, e: Event): State
    requires Legal(s, e)
  {
    match e
    case Signal => Signalled(s)
    case HookReturns => HookReturned(s)
    case HookThrows => HookThrew(s)
    case Close(failed) => Closed(s, failed)
    case Drain(ok) => Drained(s, ok)
    case Timer => Forced(s)
  }

  function Next(s: State, e: Event): State { if Legal(s, e) then Step(s, e) else s }

  function Run(events: seq<Event>): State {
    if events == [] then EMPTY
    else Next(Run(events[..|events| - 1]), events[|events| - 1])
  }

  /** Every event of the history really could happen when it did. */
  predicate History(events: seq<Event>) {
    events == [] ||
    (History(events[..|events| - 1]) && Legal(Run(events[..|events| - 1]), events[|events| - 1]))
  }

  ghost predicate Seen(events: seq<Event>, e: Event) { exists i :: 0 <= i < |events| && events[i] == e }

  ghost predicate SeenDrain(events: seq<Event>) { exists i :: 0 <= i < |events| && events[i].Drain? }

  ghost predicate SeenHookEnd(events: seq<Event>) { Seen(events, HookReturns) || Seen(events, HookThrows) }

  /** The drain completed after a successful close, and before any forced exit. */
  ghost predicate Clean(events: seq<Event>) {
    exists k :: 0 <= k < |events| && events[k] == Drain(true) && Seen(events[..k], Close(false)) && !Seen(events[..k], Timer)
  }

  lemma SeenSnoc(events: seq<Event>, last: Event, e: Event)
    ensures Seen(events + [last], e) <==> Seen(events, e) || last == e
  {
    assert (events + [last])[|events|] == last;
    assert forall i | 0 <= i < |events| :: (events + [last])[i] == events[i];
  }

  lemma DrainSnoc(events: seq<Event>, last: Event)
    ensures SeenDrain(events + [last]) <==> SeenDrain(events) || last.Drain?
  {
    assert (events + [last])[|events|] == last;
    assert forall i | 0 <= i < |events| :: (events + [last])[i] == events[i];
  }

  lemma CleanSnoc(events: seq<Event>, last: Event)
    ensures Clean(events + [last]) <==> Clean(events) || (last == Drain(true) && Seen(events, Close(false)) && !Seen(events, Timer))
  {
    var all := events + [last];
    assert all[..|events|] == events && all[|events|] == last;
    forall k | 0 <= k < |events| ensures all[..k] == events[..k] && all[k] == events[k] {
    }
  }

  /** Where the graceful path stands: at the hook, the close, the drain, or past them. */
  ghost predicate OnPath(s: State, events: seq<Event>) {
    && (s.shuttingDown <==> Seen(events, Signal))
    && (s.shuttingDown && !SeenDrain(events) <==> s.hooking + s.closing + s.draining > 0)
    && s.hooking + s.closing + s.draining <= 1
    && (s.hooking > 0 <==> s.shuttingDown && !SeenHookEnd(events))
    && (s.hookFailed <==> Seen(events, HookThrows))
    && (SeenDrain(events) ==> SeenHookEnd(events) && s.shuttingDown)
    && (SeenHookEnd(events) ==> s.shuttingDown)
  }

  /** What a close left for the drain's exit code. */
  ghost predicate KnowsClose(s: State, events: seq<Event>) {
    && (Seen(events, Close(false)) ==> s.shuttingDown && s.hooking + s.closing == 0 && !s.closeFailed)
    && (s.draining > 0 && !s.closeFailed ==> Seen(events, Close(false)))
  }

  /** The timer is armed from the signal to the exit, and the exits made are those the history calls for. */
  ghost predicate KnowsExit(s: State, events: seq<Event>) {
    && (s.exited <==> SeenDrain(events) || Seen(events, Timer))
    && (s.exited ==> s.shuttingDown)
    && (s.armed <==> s.shuttingDown && !s.exited)
    && s.exits == (if !s.exited then [] else if Clean(events) then [0] else [1])
    && (Clean(events) ==> SeenDrain(events))
  }

  ghost predicate Remembers(s: State, events: seq<Event>) {
    OnPath(s, events) && KnowsClose(s, events) && KnowsExit(s, events)
  }

  lemma StepRemembers(s: State, events: seq<Event>, e: Event)
    requires Remembers(s, events) && Legal(s, e)
    ensures Remembers(Step(s, e), events + [e])
  {
    SeenSnoc(events, e, Signal);
    SeenSnoc(events, e, Timer);
    SeenSnoc(events, e, HookReturns);
    SeenSnoc(events, e, HookThrows);
    SeenSnoc(events, e, Close(false));
    DrainSnoc(events, e);
    CleanSnoc(events, e);
  }

  /** A state that remembers its history has made the exits the history calls for. */
  lemma ExitsOf(s: State, events: seq<Event>)
    requires Remembers(s, events)
    ensures s.exits == Outcome(events)
  {
  }

  /** Nothing before a drain settles or the timer fires; from then on one exit, with 0 for a clean path only. */
  ghost function Outcome(events: seq<Event>): seq<int> {
    if !SeenDrain(events) && !Seen(events, Timer) then [] else if Clean(events) then [0] else [1]
  }

  /**
    The whole outcome of every history: nothing is exited before a drain settles or the timer
    fires; from then on exactly one exit has been made, with 0 exactly when the drain completed
    after a successful close and before the timer.
  */
  lemma {:induction false} ExitsOnce(events: seq<Event>)
    requires History(events)
    ensures Remembers(Run(events), events) && Run(events).exits == Outcome(events)
  {
    if events != [] {
      var before, last := events[..|events| - 1], events[|events| - 1];
      ExitsOnce(before);
      StepRemembers(Run(before), before, last);
      assert before + [last] == events;
    }
    ExitsOf(Run(events), events);
  }

  /**
    In every state from the signal to the exit, the pre-stop hook's own included, the timer is armed;
    when it fires there, the shutdown ends in exit(1).
  */
  lemma HangsEndInForcedExit(events: seq<Event>)
    requires History(events) && Seen(events, Signal) && !SeenDrain(events) && !Seen(events, Timer)
    ensures Legal(Run(events), Timer) && Run(events + [Timer]).exits == [1]
  {
    ExitsOnce(events);
    assert (events + [Timer])[..|events|] == events;
    ExitsOnce(events + [Timer]);
    SeenSnoc(events, Timer, Timer);
    CleanSnoc(events, Timer);
  }

  /**
    The close begins when the hook ends and not before, however it ends; and between the signal and
    the end of the drain there is always exactly one thing awaited: the hook, the close or the drain.
  */
  lemma CloseFollowsTheHook(events: seq<Event>, failed: bool, threw: bool)
    requires History(events) && Seen(events, Signal) && !SeenDrain(events)
    ensures var s := Run(events);
            && (Legal(s, HookReturns) <==> !SeenHookEnd(events)) && (Legal(s, HookThrows) <==> !SeenHookEnd(events))
            && (Legal(s, Close(failed)) || Legal(s, Drain(true)) <==> SeenHookEnd(events))
            && (!SeenHookEnd(events) ==>
                  Legal(Step(s, if threw then HookThrows else HookReturns), Close(failed)))
  {
    ExitsOnce(events);
  }

  /** A second signal makes no difference. */
  lemma SignalsAreIdempotent(events: seq<Event>)
    requires History(events) && Seen(events, Signal)
    ensures Run(events + [Signal]) == Run(events)
  {
    ExitsOnce(events);
    assert (events + [Signal])[..|events|] == events;
  }

  function Noted(s: State): State { s.(hookFailed := true) }

  lemma NotedStep(s: State, e: Event)
    requires Legal(s, e) && !e.Drain? && !e.Timer?
    ensures Step(Noted(s), e) == Noted(Step(s, e))
  {
  }

  lemma NotedExit(s: State, code: int)
    ensures ExitedOnce(Noted(s), code) == Noted(ExitedOnce(s, code))
  {
  }

  lemma NotedEnd(s: State, e: Event)
    requires Legal(s, e) && (e.Drain? || e.Timer?)
    ensures Step(Noted(s), e) == Noted(Step(s, e))
  {
    if e.Drain? {
      NotedExit(s.(draining := s.draining - 1, armed := false), if e.ok && !s.closeFailed then 0 else 1);
    } else {
      NotedExit(s.(armed := false), 1);
    }
  }

  lemma SameButNoted(s: State, e: Event)
    ensures Next(Noted(s), e) == Noted(Next(s, e))
  {
    assert Legal(Noted(s), e) <==> Legal(s, e);
    if Legal(s, e) {
      if e.Drain? || e.Timer? {
        NotedEnd(s, e);
      } else {
        NotedStep(s, e);
      }
    }
  }

  lemma Snoc(events: seq<Event>, e: Event)
    ensures Run(events + [e]) == Next(Run(events), e)
  {
    assert (events + [e])[..|events + [e]| - 1] == events;
  }

  /** A hook that throws ends as one that returns, but for the error noted: the same exits, whatever follows. */
  lemma {:induction false} ThrowingHookChangesNothing(events: seq<Event>, more: seq<Event>)
    requires Run(events).hooking > 0
    ensures Run(events + [HookThrows] + more) == Noted(Run(events + [HookReturns] + more))
  {
    var a, b := events + [HookThrows], events + [HookReturns];
    if more == [] {
      assert a + more == a && b + more == b;
      Snoc(events, HookThrows);
      Snoc(events, HookReturns);
    } else {
      var rest, last := more[..|more| - 1], more[|more| - 1];
      ThrowingHookChangesNothing(events, rest);
      assert a + more == a + rest + [last] && b + more == b + rest + [last];
      Snoc(a + rest, last);
      Snoc(b + rest, last);
      SameButNoted(Run(b + rest), last);
    }
  }
}
