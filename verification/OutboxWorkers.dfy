/**
  Overlapping relay workers on one outbox (modules/content/src/outbox.ts): each pass is a
  transaction that locks the rows it fetched, publishes them one by one, and commits or rolls
  back as a whole. A pass may roll back at any point, for instance when the ledger write after a
  successful publish fails.
*/
module OutboxWorkers {
  import opened Wrappers
  import opened Outbox

  type Worker = nat

  /** A pass in progress: the locked batch, how far it got, and its uncommitted updates. */
  datatype Pass = Pass(now: int, limit: nat, batch: seq<Id>, next: nat, written: Table, ok: nat, failed: nat)

  datatype State = State(
    rows: Table,
    passes: map<Worker, Pass>,
    locks: map<Id, Worker>,
    published: multiset<Id>,   // every publish the broker accepted, committed or not
    undone: multiset<Id>)      // those of passes that rolled back

  const EMPTY := State(map[], map[], map[], multiset{}, multiset{})

  datatype Event =
    | Enqueue(id: Id, at: int)
    | Begin(w: Worker, now: int, limit: nat, batch: seq<Id>)
    | Publish(w: Worker, accepted: bool)
    | Commit(w: Worker)
    | Rollback(w: Worker)

  ghost predicate Legal(s: State, e: Event) {
    match e
    case Enqueue(id, _) => id !in s.rows
    case Begin(w, now, limit, batch) => w !in s.passes && IsFetch(s.rows, s.locks.Keys, now, limit, batch)
    case Publish(w, _) =>
      w in s.passes && s.passes[w].next < |s.passes[w].batch| && s.passes[w].batch[s.passes[w].next] in s.rows
    case Commit(w) => w in s.passes && s.passes[w].next == |s.passes[w].batch|
    case Rollback(w) => w in s.passes
  }

  function Unlocked(locks: map<Id, Worker>, w: Worker): map<Id, Worker> {
    map id | id in locks && locks[id] != w :: locks[id]
  }

  /** The rows this pass published so far. */
  function Accepted(p: Pass): set<Id> { set id | id in p.written && p.written[id].status == Ok }

  ghost function Begun(s: State, w: Worker, now: int, limit: nat, batch: seq<Id>): State {
    s.(passes := s.passes[w := Pass(now, limit, batch, 0, map[], 0, 0)],
       locks := map id | id in s.locks.Keys + (set i | 0 <= i < |batch| :: batch[i]) :: if id in s.locks then s.locks[id] else w)
  }

  /** One row of a pass attempted: the broker accepted it or not. */
  function Tried(p: Pass, r: Row, accepted: bool): Pass
    requires p.next < |p.batch|
  {
    p.(next := p.next + 1, written := p.written[p.batch[p.next] := Attempted(r, p.now, !accepted)],
       ok := p.ok + (if accepted then 1 else 0), failed := p.failed + (if accepted then 0 else 1))
  }

  ghost function Step(s: State, e: Event): State
    requires Legal(s, e)
  {
    match e
    case Enqueue(id, at) => s.(rows := s.rows[id := NewRow(at)])
    case Begin(w, now, limit, batch) => Begun(s, w, now, limit, batch)
    case Publish(w, accepted) =>
      var p := s.passes[w];
      var id := p.batch[p.next];
      s.(passes := s.passes[w := Tried(p, s.rows[id], accepted)],
         published := if accepted then s.published + multiset{id} else s.published)
    case Commit(w) =>
      s.(rows := s.rows + s.passes[w].written, passes := s.passes - {w}, locks := Unlocked(s.locks, w))
    case Rollback(w) =>
      s.(passes := s.passes - {w}, locks := Unlocked(s.locks, w), undone := s.undone + multiset(Accepted(s.passes[w])))
  }

  ghost function Run(events: seq<Event>): State {
    if events == [] then EMPTY
    else
      var before := Run(events[..|events| - 1]);
      if Legal(before, events[|events| - 1]) then Step(before, events[|events| - 1]) else before
  }

  // ---------------------------------------------------------------------------------------------
  // Locks
  // ---------------------------------------------------------------------------------------------

  /** A pass has updated exactly the rows it has been through. */
  ghost predicate GoodPass(p: Pass) {
    && p.next <= |p.batch| <= p.limit && p.ok + p.failed == p.next
    && (forall i, j | 0 <= i < j < |p.batch| :: p.batch[i] != p.batch[j])
    && (forall i | 0 <= i < |p.batch| :: p.batch[i] in p.written <==> i < p.next)
    && (forall id | id in p.written :: id in p.batch && p.written[id].status != Pending)
  }

  /** A pass holds the locks of its own batch, of rows not yet 'ok', and writes no others. */
  ghost predicate Holds(s: State, w: Worker, p: Pass) {
    && (forall i | 0 <= i < |p.batch| :: p.batch[i] in s.locks && s.locks[p.batch[i]] == w)
    && (forall id | id in p.written :: id in s.locks && s.locks[id] == w)
  }

  ghost predicate GoodPasses(s: State) { forall w | w in s.passes :: GoodPass(s.passes[w]) }

  ghost predicate GoodHolds(s: State) { forall w | w in s.passes :: Holds(s, w, s.passes[w]) }

  /** A lock belongs to an open pass and covers a row that is not 'ok'. */
  ghost predicate GoodLocks(s: State) {
    forall id | id in s.locks :: s.locks[id] in s.passes && id in s.rows && s.rows[id].status != Ok
  }

  ghost predicate Inv(s: State) { GoodPasses(s) && GoodHolds(s) && GoodLocks(s) }

  lemma PublishKeepsPass(p: Pass, r: Row, accepted: bool)
    requires GoodPass(p) && p.next < |p.batch|
    ensures GoodPass(Tried(p, r, accepted))
  {
    var q := Tried(p, r, accepted);
    forall i | 0 <= i < |q.batch| ensures q.batch[i] in q.written <==> i < q.next {
      assert i < p.next ==> p.batch[i] != p.batch[p.next];
      assert i > p.next ==> p.batch[p.next] != p.batch[i];
    }
  }

  lemma PassesKeep(s: State, e: Event)
    requires GoodPasses(s) && Legal(s, e)
    ensures GoodPasses(Step(s, e))
  {
    if e.Publish? {
      var p := s.passes[e.w];
      PublishKeepsPass(p, s.rows[p.batch[p.next]], e.accepted);
    }
  }

  lemma HoldsKeep(s: State, e: Event)
    requires Inv(s) && Legal(s, e)
    ensures GoodHolds(Step(s, e))
  {
    var after := Step(s, e);
    forall v | v in after.passes ensures Holds(after, v, after.passes[v]) {
      if v in s.passes {
        assert Holds(s, v, s.passes[v]);
      }
    }
  }

  lemma LocksKeep(s: State, e: Event)
    requires Inv(s) && Legal(s, e)
    ensures GoodLocks(Step(s, e))
  {
    if e.Commit? {
      assert Holds(s, e.w, s.passes[e.w]);
    }
  }

  // ---------------------------------------------------------------------------------------------
  // Accounting
  // ---------------------------------------------------------------------------------------------

  function OkCommitted(s: State, id: Id): nat { if id in s.rows && s.rows[id].status == Ok then 1 else 0 }

  /** Published in a pass that is still open. */
  function InFlight(s: State, id: Id): nat {
    if id in s.locks && s.locks[id] in s.passes && id in Accepted(s.passes[s.locks[id]]) then 1 else 0
  }

  /** Every accepted publish of a row is the one its 'ok' status records, or is in an open pass, or was rolled back. */
  ghost predicate Accounted(s: State, id: Id) {
    s.published[id] == OkCommitted(s, id) + InFlight(s, id) + s.undone[id]
  }

  lemma BeginAccounts(s: State, w: Worker, now: int, limit: nat, batch: seq<Id>, id: Id)
    requires Inv(s) && Accounted(s, id) && Legal(s, Begin(w, now, limit, batch))
    ensures Accounted(Begun(s, w, now, limit, batch), id)
  {
    assert id in s.locks ==> s.locks[id] in s.passes;
  }

  lemma PublishAccounts(s: State, w: Worker, accepted: bool, id: Id)
    requires Inv(s) && Accounted(s, id) && Legal(s, Publish(w, accepted))
    ensures Accounted(Step(s, Publish(w, accepted)), id)
  {
    var p := s.passes[w];
    var row := p.batch[p.next];
    assert GoodPass(p) && Holds(s, w, p);
    assert row !in p.written && s.locks[row] == w;
    assert id != row ==> (id in Accepted(Tried(p, s.rows[row], accepted)) <==> id in Accepted(p));
  }

  lemma CommitAccounts(s: State, w: Worker, id: Id)
    requires Inv(s) && Accounted(s, id) && Legal(s, Commit(w))
    ensures Accounted(Step(s, Commit(w)), id)
  {
    var p := s.passes[w];
    assert Holds(s, w, p) && GoodPass(p);
    assert id in p.written ==> s.locks[id] == w && OkCommitted(s, id) == 0;
  }

  lemma RollbackAccounts(s: State, w: Worker, id: Id)
    requires Inv(s) && Accounted(s, id) && Legal(s, Rollback(w))
    ensures Accounted(Step(s, Rollback(w)), id)
  {
    assert Holds(s, w, s.passes[w]);
    assert id in s.passes[w].written ==> s.locks[id] == w;
  }

  /** A row nobody enqueued was never published. */
  ghost predicate NotPublished(s: State) { forall id | id in s.published :: id in s.rows }

  /**
    Over every run, with any overlap of workers and any pass rolled back: no row is held by two
    passes, and every accepted publish of every row is accounted for.
  */
  lemma {:induction false} DrainIsSound(events: seq<Event>, id: Id)
    ensures Inv(Run(events)) && Accounted(Run(events), id) && NotPublished(Run(events))
  {
    if events != [] {
      var before, e := Run(events[..|events| - 1]), events[|events| - 1];
      DrainIsSound(events[..|events| - 1], id);
      if Legal(before, e) {
        PassesKeep(before, e);
        HoldsKeep(before, e);
        LocksKeep(before, e);
        match e
        case Enqueue(_, _) =>
        case Begin(w, now, limit, batch) => BeginAccounts(before, w, now, limit, batch, id);
        case Publish(w, accepted) => PublishAccounts(before, w, accepted, id);
        case Commit(w) => CommitAccounts(before, w, id);
        case Rollback(w) => RollbackAccounts(before, w, id);
      }
    }
  }

  predicate NoRollback(events: seq<Event>) { forall i | 0 <= i < |events| :: !events[i].Rollback? }

  lemma {:induction false} NothingUndone(events: seq<Event>)
    requires NoRollback(events)
    ensures Run(events).undone == multiset{}
  {
    if events != [] {
      NothingUndone(events[..|events| - 1]);
    }
  }

  /** Without rollbacks no row is successfully published twice; with them, only rolled-back publishes repeat. */
  lemma AtMostOncePerRollback(events: seq<Event>, id: Id)
    ensures Run(events).published[id] <= 1 + Run(events).undone[id]
    ensures NoRollback(events) ==> Run(events).published[id] <= 1
    ensures OkCommitted(Run(events), id) == 1 ==> Run(events).published[id] > Run(events).undone[id]
  {
    DrainIsSound(events, id);
    if NoRollback(events) {
      NothingUndone(events);
    }
  }

  /** A row that is 'ok' stays ok and is never fetched again; a row once enqueued is never lost. */
  lemma OkIsFinal(events: seq<Event>, e: Event, id: Id)
    requires Legal(Run(events), e) && id in Run(events).rows
    ensures id in Step(Run(events), e).rows
    ensures Run(events).rows[id].status == Ok ==>
              Step(Run(events), e).rows[id] == Run(events).rows[id] && (e.Begin? ==> id !in e.batch)
    ensures e.Commit? ==> var p := Run(events).passes[e.w];
              p.ok + p.failed == |p.batch| <= p.limit && (id in p.batch <==> id in p.written) &&
              (id in p.written ==> Step(Run(events), e).rows[id] == p.written[id])
    ensures e.Rollback? ==> Step(Run(events), e).rows == Run(events).rows
  {
    DrainIsSound(events, id);
    if e.Commit? {
      assert GoodPass(Run(events).passes[e.w]);
      assert Holds(Run(events), e.w, Run(events).passes[e.w]);
    }
  }

  /** A row enqueued is in the table, fresh at first, and in every later state. */
  lemma {:induction false} EnqueuedStays(events: seq<Event>, k: nat)
    requires k < |events| && events[k].Enqueue? && Legal(Run(events[..k]), events[k])
    ensures events[k].id in Run(events).rows
    ensures k == |events| - 1 ==> Run(events) == Run(events[..k]).(rows := Run(events[..k]).rows[events[k].id := Row(Pending, 0, None, None, events[k].at)])
  {
    var rest := events[..|events| - 1];
    if k < |rest| {
      assert rest[..k] == events[..k];
      EnqueuedStays(rest, k);
    }
  }

  // ---------------------------------------------------------------------------------------------
  // The retry bound, over every run of overlapping workers
  // ---------------------------------------------------------------------------------------------

  ghost predicate RowsOnSchedule(rows: Table) { forall id | id in rows :: OnSchedule(rows[id]) }

  /** A locked row is as due as when its pass fetched it. */
  ghost predicate StillDue(s: State) {
    forall w, i | w in s.passes && 0 <= i < |s.passes[w].batch| ::
      s.passes[w].batch[i] in s.rows && Due(s.rows[s.passes[w].batch[i]], s.passes[w].now)
  }

  ghost predicate Timely(s: State) {
    RowsOnSchedule(s.rows) && StillDue(s) && forall w | w in s.passes :: RowsOnSchedule(s.passes[w].written)
  }

  lemma FailureKeepsSchedule(r: Row, now: int, fails: bool)
    requires OnSchedule(r) && Due(r, now)
    ensures OnSchedule(Attempted(r, now, fails))
  {
    DayIsFull(r.attempts);
  }

  lemma BatchesStayDue(s: State, e: Event, w: Worker, i: nat)
    requires Inv(s) && Timely(s) && Legal(s, e) && w in Step(s, e).passes && i < |Step(s, e).passes[w].batch|
    ensures var p := Step(s, e).passes[w]; p.batch[i] in Step(s, e).rows && Due(Step(s, e).rows[p.batch[i]], p.now)
  {
    if w in s.passes {
      assert Holds(s, w, s.passes[w]);
      assert Step(s, e).passes[w].batch == s.passes[w].batch;
      if e.Commit? {
        assert Holds(s, e.w, s.passes[e.w]);
      }
    }
  }

  lemma ScheduleKeeps(s: State, e: Event)
    requires Timely(s) && Legal(s, e)
    ensures RowsOnSchedule(Step(s, e).rows) && forall w | w in Step(s, e).passes :: RowsOnSchedule(Step(s, e).passes[w].written)
  {
    if e.Publish? {
      var p := s.passes[e.w];
      FailureKeepsSchedule(s.rows[p.batch[p.next]], p.now, !e.accepted);
      assert RowsOnSchedule(p.written);
    } else if e.Commit? {
      assert RowsOnSchedule(s.passes[e.w].written);
    }
  }

  lemma TimelyKeeps(s: State, e: Event)
    requires Inv(s) && Timely(s) && Legal(s, e)
    ensures Timely(Step(s, e))
  {
    var after := Step(s, e);
    ScheduleKeeps(s, e);
    forall w, i | w in after.passes && 0 <= i < |after.passes[w].batch|
      ensures after.passes[w].batch[i] in after.rows && Due(after.rows[after.passes[w].batch[i]], after.passes[w].now)
    {
      BatchesStayDue(s, e, w, i);
    }
  }

  /** However the workers overlap and roll back, no row's failure is ever recorded a 30th time. */
  lemma {:induction false} RetryBoundForEveryRun(events: seq<Event>)
    ensures Timely(Run(events)) && forall id | id in Run(events).rows :: Run(events).rows[id].attempts <= MAX_FAILURES
  {
    if events != [] {
      var before, e := Run(events[..|events| - 1]), events[|events| - 1];
      RetryBoundForEveryRun(events[..|events| - 1]);
      DrainIsSound(events[..|events| - 1], 0);
      if Legal(before, e) {
        TimelyKeeps(before, e);
      }
    }
  }
}
