/**
  ensureControlDb (modules/calendar/src/tenant-store.ts): the single-flight initialization of the
  control pool, raced by concurrent callers, by failures at either of its two awaits, and by
  closeAllPools. A caller either gets a pool at once, waits for the attempt in flight, or is refused.
*/
module ControlInit {
  import opened Wrappers

  type Handle = nat

  type AttemptId = nat

  datatype Flight = OnAdmin | OnTable(sql: Handle)

  datatype Caller = Waiting(attempt: AttemptId) | Got(sql: Handle) | Failed(attempt: AttemptId) | Refused

  datatype State = State(
    controlSql: Option<Handle>,
    initPromise: Option<AttemptId>,
    closing: bool,
    flights: map<AttemptId, Flight>,
    nextAttempt: AttemptId,
    callers: map<nat, Caller>,
    opened_: set<Handle>,
    ended: set<Handle>)

  const EMPTY := State(None, None, false, map[], 0, map[], {}, {})

  datatype Event =
    | Ask(c: nat)
    | Admin(a: AttemptId, ok: bool, sql: Handle)
    | Table(a: AttemptId, ok: bool)
    | Close

  /** A pool just opened is new. */
  predicate Legal(s: State, e: Event) {
    match e
    case Ask(c) => c !in s.callers
    case Admin(a, _, sql) => a in s.flights && s.flights[a].OnAdmin? && sql !in s.opened_
    case Table(a, _) => a in s.flights && s.flights[a].OnTable?
    case Close => true
  }

  /** Everyone awaiting this attempt is answered. */
  function Answered(callers: map<nat, Caller>, a: AttemptId, answer: Caller): map<nat, Caller> {
    map c | c in callers :: if callers[c] == Waiting(a) then answer else callers[c]
  }

  /** The attempt rejected: its callers fail, and the promise is dropped if it is still this one. */
  function Rejected(s: State, a: AttemptId): State {
    s.(flights := s.flights - {a}, callers := Answered(s.callers, a, Failed(a)),
       initPromise := if s.initPromise == Some(a) then None else s.initPromise)
  }

  function Step(s: State, e: Event): State
    requires Legal(s, e)
  {
    match e
    case Ask(c) =>
      if s.closing then s.(callers := s.callers[c := Refused])
      else if s.controlSql.Some? then s.(callers := s.callers[c := Got(s.controlSql.value)])
      else if s.initPromise.Some? then s.(callers := s.callers[c := Waiting(s.initPromise.value)])
      else s.(callers := s.callers[c := Waiting(s.nextAttempt)], flights := s.flights[s.nextAttempt := OnAdmin],
              initPromise := Some(s.nextAttempt), nextAttempt := s.nextAttempt + 1)
    case Admin(a, ok, sql) =>
      if ok then s.(flights := s.flights[a := OnTable(sql)], opened_ := s.opened_ + {sql}) else Rejected(s, a)
    case Table(a, ok) =>
      var sql := s.flights[a].sql;
      if ok then s.(flights := s.flights - {a}, callers := Answered(s.callers, a, Got(sql)), controlSql := Some(sql))
      else Rejected(s.(ended := s.ended + {sql}), a)
    case Close =>
      s.(closing := true, controlSql := None, initPromise := None,
         ended := s.ended + if s.controlSql.Some? then {s.controlSql.value} else {})
  }

  function Next(s: State, e: Event): State { if Legal(s, e) then Step(s, e) else s }

  function Run(s: State, events: seq<Event>): State {
    if events == [] then s else Next(Run(s, events[..|events| - 1]), events[|events| - 1])
  }

  // ---------------------------------------------------------------------------------------------
  // The invariant
  // ---------------------------------------------------------------------------------------------

  /** One attempt at a time: the promise is that attempt or the one that set the pool, and never a rejected one. */
  ghost predicate SingleFlight(s: State) {
    && (forall a, b | a in s.flights && b in s.flights :: a == b)
    && (forall a | a in s.flights :: a < s.nextAttempt)
    && (s.controlSql.Some? ==> s.flights == map[])
    && (!s.closing ==> (s.initPromise.Some? <==> s.controlSql.Some? || s.flights != map[]))
    && (!s.closing && s.flights != map[] ==> s.initPromise.value in s.flights)
    && (s.closing ==> s.initPromise.None?)
  }

  /** Every waiting caller waits for an attempt still in flight. */
  ghost predicate NobodyForgotten(s: State) {
    forall c | c in s.callers && s.callers[c].Waiting? :: s.callers[c].attempt in s.flights
  }

  predicate Holds(s: State, h: Handle) { exists a :: a in s.flights && s.flights[a] == OnTable(h) }

  /** Every pool opened is in exactly one place: an attempt, the control pool, or ended. */
  ghost predicate Conserved(s: State, h: Handle) {
    && (h in s.opened_ <==> Holds(s, h) || s.controlSql == Some(h) || h in s.ended)
    && !(Holds(s, h) && s.controlSql == Some(h)) && !(Holds(s, h) && h in s.ended) && !(s.controlSql == Some(h) && h in s.ended)
  }

  ghost predicate SamePool(s: State) {
    forall c | c in s.callers && s.callers[c].Got? ::
      s.controlSql == Some(s.callers[c].sql) || (s.closing && s.callers[c].sql in s.ended)
  }

  ghost predicate Inv(s: State) { SingleFlight(s) && NobodyForgotten(s) && SamePool(s) && forall h :: Conserved(s, h) }

  lemma FlightsKeep(s: State, e: Event)
    requires SingleFlight(s) && NobodyForgotten(s)
    ensures SingleFlight(Next(s, e)) && NobodyForgotten(Next(s, e))
  {
    if (e.Table? || e.Admin?) && Legal(s, e) {
      assert s.flights - {e.a} == map[];
      assert !s.closing ==> s.initPromise == Some(e.a);
      if e.Admin? && e.ok {
        assert e.a in Next(s, e).flights;
        assert Next(s, e).flights != map[];
      } else {
        assert Next(s, e).flights == map[];
      }
    } else if Next(s, e).nextAttempt > s.nextAttempt {
      assert s.nextAttempt in Next(s, e).flights;
    }
  }

  lemma HandleKeeps(s: State, e: Event, h: Handle)
    requires SingleFlight(s) && Conserved(s, h)
    ensures Conserved(Next(s, e), h)
  {
    if Legal(s, e) {
      var next := Step(s, e);
      match e
      case Ask(_) =>
        assert forall a | a in s.flights :: next.flights[a] == s.flights[a];
        assert Holds(next, h) ==> Holds(s, h);
        assert Holds(s, h) ==> Holds(next, h);
      case Admin(a, ok, sql) =>
        assert forall b | b in s.flights :: b == a;
        assert !Holds(s, h);
        if ok {
          assert next.flights[a] == OnTable(sql);
          assert Holds(next, h) <==> h == sql;
        } else {
          assert !Holds(next, h);
        }
      case Table(a, ok) =>
        assert s.flights[a] == OnTable(s.flights[a].sql);
        assert Holds(s, h) <==> h == s.flights[a].sql;
        assert !Holds(next, h);
      case Close =>
        assert Holds(next, h) <==> Holds(s, h);
    }
  }

  lemma NextKeeps(s: State, e: Event)
    requires Inv(s)
    ensures Inv(Next(s, e))
  {
    FlightsKeep(s, e);
    forall h ensures Conserved(Next(s, e), h) {
      HandleKeeps(s, e, h);
    }
  }

  lemma {:induction false} RunKeeps(s: State, events: seq<Event>)
    requires Inv(s)
    ensures Inv(Run(s, events))
  {
    if events != [] {
      RunKeeps(s, events[..|events| - 1]);
      NextKeeps(Run(s, events[..|events| - 1]), events[|events| - 1]);
    }
  }

  // ---------------------------------------------------------------------------------------------
  // What callers get, and what a close leaves
  // ---------------------------------------------------------------------------------------------

  /**
    Over every run, one attempt at a time; a rejection is never cached, so outside a shutdown the next
    caller after one starts afresh; every caller served is given the one control pool; no pool opened
    is lost, held twice, or ended while in use.
  */
  lemma OneControlPool(events: seq<Event>, c: nat, d: nat, h: Handle)
    ensures var s := Run(EMPTY, events);
            && (forall a, b | a in s.flights && b in s.flights :: a == b)
            && (!s.closing && s.flights == map[] && s.controlSql.None? ==> s.initPromise.None?)
            && (!s.closing && c in s.callers && d in s.callers && s.callers[c].Got? && s.callers[d].Got? ==>
                  s.callers[c] == s.callers[d] && s.controlSql == Some(s.callers[c].sql))
            && (h in s.opened_ <==> Holds(s, h) || s.controlSql == Some(h) || h in s.ended)
            && (c in s.callers && s.callers[c].Waiting? ==> s.callers[c].attempt in s.flights)
  {
    RunKeeps(EMPTY, events);
    assert Conserved(Run(EMPTY, events), h);
  }

  /**
    What every caller is told: refused under the latch, the open pool at once, and otherwise to wait
    for the attempt in flight; and an attempt that ends answers every caller waiting for it, with its
    pool or with its failure, and nobody else.
  */
  lemma EveryCallerIsAnswered(s: State, e: Event)
    requires Inv(s) && Legal(s, e)
    ensures var now := Step(s, e);
            match e
            case Ask(c) =>
              if s.closing then now.callers == s.callers[c := Refused]
              else if s.controlSql.Some? then now.callers == s.callers[c := Got(s.controlSql.value)]
              else exists a :: a in now.flights && now.initPromise == Some(a) && now.callers == s.callers[c := Waiting(a)]
                                && (s.flights != map[] ==> now.flights == s.flights)
            case Table(a, true) =>
              var sql := s.flights[a].sql;
              && now.controlSql == Some(sql) && now.flights == map[]
              && forall c | c in s.callers :: c in now.callers && now.callers[c] == if s.callers[c] == Waiting(a) then Got(sql) else s.callers[c]
            case Table(a, false) =>
              && s.flights[a].sql in now.ended && now.flights == map[] && now.initPromise.None? && now.controlSql == s.controlSql
              && forall c | c in s.callers :: c in now.callers && now.callers[c] == if s.callers[c] == Waiting(a) then Failed(a) else s.callers[c]
            case Admin(a, true, sql) => now.flights == map[a := OnTable(sql)] && now.callers == s.callers
            case Admin(a, false, _) =>
              && now.flights == map[] && now.initPromise.None? && now.ended == s.ended
              && forall c | c in s.callers :: c in now.callers && now.callers[c] == if s.callers[c] == Waiting(a) then Failed(a) else s.callers[c]
            case Close =>
              && now.closing && now.controlSql.None? && now.callers == s.callers && now.flights == s.flights
              && (s.controlSql.Some? ==> s.controlSql.value in now.ended)
  {
    match e
    case Ask(c) =>
      if !s.closing && s.controlSql.None? {
        var a := if s.initPromise.Some? then s.initPromise.value else s.nextAttempt;
        assert a in Step(s, e).flights;
      }
    case Table(a, _) => assert s.flights - {a} == map[];
    case Admin(a, _, _) => assert s.flights - {a} == map[];
    case Close =>
  }

  /** Nothing is in flight and no control pool is open. */
  predicate Gone(s: State) { s.closing && s.flights == map[] && s.controlSql.None? }

  lemma {:induction false} GoneForGood(s: State, events: seq<Event>)
    requires Gone(s)
    ensures Gone(Run(s, events))
  {
    if events != [] {
      GoneForGood(s, events[..|events| - 1]);
    }
  }

  /** The attempt a close caught, succeeding after it. */
  function Late(a: AttemptId, f: Flight, sql: Handle): seq<Event> {
    if f.OnAdmin? then [Admin(a, true, sql)] + [Table(a, true)] else [Table(a, true)]
  }

  /** An attempt in flight outlives a close: it sets a control pool nothing will end. */
  lemma LateAttemptStays(s: State, a: AttemptId, sql: Handle)
    requires Inv(s) && s.closing && a in s.flights && sql !in s.opened_
    ensures var after := Run(s, Late(a, s.flights[a], sql)); after.closing && after.controlSql.Some? && after.flights == map[]
  {
    var open_ := if s.flights[a].OnAdmin? then Next(s, Admin(a, true, sql)) else s;
    NextKeeps(s, Admin(a, true, sql));
    var after := Next(open_, Table(a, true));
    NextKeeps(open_, Table(a, true));
    assert Run(s, []) == s;
    if s.flights[a].OnAdmin? {
      var es := [Admin(a, true, sql)] + [Table(a, true)];
      assert es[..1] == [Admin(a, true, sql)] && es[..1][..0] == [];
      assert Run(s, es[..1]) == open_;
    } else {
      assert [Table(a, true)][..0] == [];
    }
  }

  /**
    The latch is tested only on entry: a close leaves no control pool behind, whatever still happens,
    exactly when no initialization was in flight as it ran.
  */
  lemma CloseLeavesNoControlPoolIff(events: seq<Event>)
    ensures var s := Run(EMPTY, events);
            var closed := Next(s, Close);
            (forall more :: Run(closed, more).controlSql.None?) <==> s.flights == map[]
  {
    RunKeeps(EMPTY, events);
    var s := Run(EMPTY, events);
    var closed := Next(s, Close);
    NextKeeps(s, Close);
    if s.flights == map[] {
      forall more ensures Run(closed, more).controlSql.None? {
        GoneForGood(closed, more);
      }
    } else {
      var a :| a in s.flights;
      var sql := Unused(s.opened_);
      LateAttemptStays(closed, a, sql);
    }
  }
}
