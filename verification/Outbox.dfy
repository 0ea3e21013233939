/**
  The content leaf's transactional outbox (modules/content/src/outbox.ts): due rows, capped
  exponential backoff, the 24-hour give-up, and one drain pass. Times are microseconds, the
  resolution of a Postgres timestamp; now() is the start of the pass's transaction.
*/
module Outbox {
  import opened Wrappers

  const SECOND: int := 1_000_000
  const GIVE_UP_AFTER: int := 24 * 60 * 60 * SECOND

  datatype Status = Pending | Ok | Failed

  datatype Row = Row(status: Status, attempts: nat, nextAttemptAt: Option<int>, firstFailedAt: Option<int>, createdAt: int)

  type Id = nat

  type Table = map<Id, Row>

  /** The row an INSERT with only payload columns gets from the column defaults. */
  function NewRow(now: int): Row { Row(Pending, 0, None, None, now) }

  predicate Due(r: Row, now: int) {
    r.status == Pending ||
    (r.status == Failed &&
     (r.nextAttemptAt.None? || r.nextAttemptAt.value <= now) &&
     (r.firstFailedAt.None? || now - r.firstFailedAt.value < GIVE_UP_AFTER))
  }

  function Pow2(n: nat): nat { if n == 0 then 1 else 2 * Pow2(n - 1) }

  function Min(a: int, b: int): int { if a <= b then a else b }

  /** LEAST(3600, 30 * 2^LEAST(attempts + 1, 12)) seconds, from the attempts before this failure. */
  function Delay(attempts: nat): int { Min(3600, 30 * Pow2(Min(attempts + 1, 12))) * SECOND }

  function MarkedOk(r: Row): Row { Row(Ok, 0, None, None, r.createdAt) }

  function MarkedFailed(r: Row, now: int): Row {
    Row(Failed, r.attempts + 1, Some(now + Delay(r.attempts)), Some(if r.firstFailedAt.Some? then r.firstFailedAt.value else now),
        r.createdAt)
  }

  /** What one attempt leaves of a row. */
  function Attempted(r: Row, now: int, fails: bool): Row { if fails then MarkedFailed(r, now) else MarkedOk(r) }

  /** SELECT … WHERE due ORDER BY created_at LIMIT n FOR UPDATE SKIP LOCKED, any order among equal times. */
  ghost predicate IsFetch(rows: Table, locked: set<Id>, now: int, limit: nat, batch: seq<Id>) {
    && |batch| <= limit
    && (forall i | 0 <= i < |batch| :: batch[i] in rows && batch[i] !in locked && Due(rows[batch[i]], now))
    && (forall i, j | 0 <= i < j < |batch| :: batch[i] != batch[j] && rows[batch[i]].createdAt <= rows[batch[j]].createdAt)
    && (forall id | id in rows && id !in locked && Due(rows[id], now) && id !in batch ::
          |batch| == limit && forall i | 0 <= i < |batch| :: rows[batch[i]].createdAt <= rows[id].createdAt)
  }

  class OutboxTable {
    var rows: Table

    constructor ()
      ensures rows == map[]
    {
      rows := map[];
    }

    method Enqueue(id: Id, now: int)
      requires id !in rows
      modifies this
      ensures rows == old(rows)[id := NewRow(now)]
    {
      rows := rows[id := NewRow(now)];
    }

    /** The query, as a selection of the oldest due unlocked row until the limit. */
    method FetchDueRows(locked: set<Id>, now: int, limit: nat) returns (batch: seq<Id>)
      ensures IsFetch(rows, locked, now, limit, batch)
    {
      batch := [];
      var left := set id | id in rows && id !in locked && Due(rows[id], now);
      while left != {} && |batch| < limit
        invariant |batch| <= limit
        invariant forall id :: id in left <==> id in rows && id !in locked && Due(rows[id], now) && id !in batch
        invariant forall i | 0 <= i < |batch| :: batch[i] in rows && batch[i] !in locked && Due(rows[batch[i]], now)
        invariant forall i, j | 0 <= i < j < |batch| ::
                    batch[i] != batch[j] && rows[batch[i]].createdAt <= rows[batch[j]].createdAt
        invariant forall i, id | 0 <= i < |batch| && id in left :: rows[batch[i]].createdAt <= rows[id].createdAt
        decreases left
      {
        var oldest := Oldest(left);
        batch := batch + [oldest];
        left := left - {oldest};
      }
    }

    method Oldest(ids: set<Id>) returns (oldest: Id)
      requires ids != {} && ids <= rows.Keys
      ensures oldest in ids && forall id | id in ids :: rows[oldest].createdAt <= rows[id].createdAt
    {
      oldest :| oldest in ids;
      var left := ids - {oldest};
      while left != {}
        invariant left <= ids && oldest in ids
        invariant forall id | id in ids && id !in left :: rows[oldest].createdAt <= rows[id].createdAt
        decreases left
      {
        var id :| id in left;
        if rows[id].createdAt < rows[oldest].createdAt {
          oldest := id;
        }
        left := left - {id};
      }
    }

    /**
      One pass. `refused` are the rows whose publish throws. Every fetched row is attempted once
      and no other row is touched.
    */
    method DrainOutbox(locked: set<Id>, refused: set<Id>, now: int, limit: nat) returns (ok: nat, failed: nat, ghost batch: seq<Id>)
      modifies this
      ensures IsFetch(old(rows), locked, now, limit, batch)
      ensures rows.Keys == old(rows).Keys
      ensures forall id | id in rows :: rows[id] == if id in batch then Attempted(old(rows)[id], now, id in refused) else old(rows)[id]
      ensures ok + failed == |batch| <= limit
      ensures failed == |set id | id in batch && id in refused| && ok == |set id | id in batch && id !in refused|
    {
      var fetched := FetchDueRows(locked, now, limit);
      ghost var done: set<Id> := {};
      ok, failed := 0, 0;
      for i := 0 to |fetched|
        invariant Through(fetched, i, done)
        invariant Worked(old(rows), rows, done, refused, now)
        invariant ok + failed == i && Tallied(done, refused, ok, failed)
      {
        ThroughOne(fetched, i, done);
        TallyOne(done, refused, fetched[i], ok, failed);
        WorkOne(old(rows), rows, done, refused, now, fetched[i]);
        if fetched[i] !in refused {
          rows := rows[fetched[i] := MarkedOk(rows[fetched[i]])];
          ok := ok + 1;
        } else {
          rows := rows[fetched[i] := MarkedFailed(rows[fetched[i]], now)];
          failed := failed + 1;
        }
        done := done + {fetched[i]};
      }
      batch := fetched;
      TalliedBatch(done, refused, batch, ok, failed);
    }
  }

  /** The first i rows of the batch are done, and no others. */
  ghost predicate Through(batch: seq<Id>, i: nat, done: set<Id>) {
    && (forall k | 0 <= k < |batch| :: batch[k] in done <==> k < i)
    && (forall id | id in done :: id in batch)
  }

  lemma ThroughOne(batch: seq<Id>, i: nat, done: set<Id>)
    requires Through(batch, i, done) && i < |batch| && forall j, k | 0 <= j < k < |batch| :: batch[j] != batch[k]
    ensures batch[i] !in done && Through(batch, i + 1, done + {batch[i]})
  {
  }

  /** Each row done was attempted once, and no other row changed. */
  ghost predicate Worked(before: Table, rows: Table, done: set<Id>, refused: set<Id>, now: int) {
    && rows.Keys == before.Keys
    && forall id | id in rows :: rows[id] == if id in done then Attempted(before[id], now, id in refused) else before[id]
  }

  lemma WorkOne(before: Table, rows: Table, done: set<Id>, refused: set<Id>, now: int, id: Id)
    requires Worked(before, rows, done, refused, now) && id in rows && id !in done
    ensures Worked(before, rows[id := Attempted(rows[id], now, id in refused)], done + {id}, refused, now)
  {
  }

  ghost predicate Tallied(done: set<Id>, refused: set<Id>, ok: nat, failed: nat) {
    failed == |done * refused| && ok == |done - refused|
  }

  lemma TallyOne(done: set<Id>, refused: set<Id>, id: Id, ok: nat, failed: nat)
    requires Tallied(done, refused, ok, failed) && id !in done
    ensures Tallied(done + {id}, refused, ok + (if id in refused then 0 else 1), failed + (if id in refused then 1 else 0))
  {
    var more := done + {id};
    if id in refused {
      assert more * refused == done * refused + {id} && more - refused == done - refused;
    } else {
      assert more * refused == done * refused && more - refused == done - refused + {id};
    }
  }

  lemma TalliedBatch(done: set<Id>, refused: set<Id>, batch: seq<Id>, ok: nat, failed: nat)
    requires Tallied(done, refused, ok, failed) && forall id :: id in done <==> id in batch
    ensures failed == |set id | id in batch && id in refused| && ok == |set id | id in batch && id !in refused|
  {
    assert (set id | id in batch && id in refused) == done * refused;
    assert (set id | id in batch && id !in refused) == done - refused;
  }

  // ---------------------------------------------------------------------------------------------
  // The retry bound of one row
  // ---------------------------------------------------------------------------------------------

  /** A pass at `now` over a row whose publish always fails. */
  function Passed(r: Row, now: int): Row { if Due(r, now) then MarkedFailed(r, now) else r }

  function PassedAll(r: Row, passes: seq<int>): Row {
    if passes == [] then r else Passed(PassedAll(r, passes[..|passes| - 1]), passes[|passes| - 1])
  }

  /** The waits before the second, third, … failure add up. */
  function Waited(failures: nat): int { if failures == 0 then 0 else Waited(failures - 1) + Delay(failures - 1) }

  const MAX_FAILURES: nat := 29

  lemma Pow2Values()
    ensures Pow2(0) == 1 && Pow2(1) == 2 && Pow2(2) == 4 && Pow2(3) == 8 && Pow2(4) == 16 && Pow2(5) == 32
    ensures Pow2(6) == 64 && Pow2(7) == 128 && Pow2(8) == 256 && Pow2(9) == 512 && Pow2(10) == 1024 && Pow2(11) == 2048
    ensures Pow2(12) == 4096
  {
    assert Pow2(4) == 16;
    assert Pow2(8) == 256;
  }

  /** 60, 120, 240, 480, 960, 1920 seconds, then one hour for good. */
  lemma DelayValues(attempts: nat)
    ensures Delay(attempts) == (if attempts < 6 then 30 * Pow2(attempts + 1) else 3600) * SECOND
    ensures 60 * SECOND <= Delay(attempts) <= 3600 * SECOND
    ensures Delay(attempts) <= Delay(attempts + 1)
  {
    Pow2Values();
  }

  lemma {:induction false} WaitedValues(failures: nat)
    ensures failures <= 6 ==> Waited(failures) == 30 * (Pow2(failures + 1) - 2) * SECOND
    ensures failures >= 6 ==> Waited(failures) == (3780 + 3600 * (failures - 6)) * SECOND
  {
    Pow2Values();
    if failures > 0 {
      WaitedValues(failures - 1);
      DelayValues(failures - 1);
    }
  }

  /** 29 waits are the first to fill the day. */
  lemma DayIsFull(failures: nat)
    ensures failures < MAX_FAILURES <==> Waited(failures) < GIVE_UP_AFTER
  {
    WaitedValues(failures);
    Pow2Values();
  }

  /** The timing every reachable row obeys. */
  ghost predicate OnSchedule(r: Row) {
    match r.status
    case Pending => r.attempts == 0 && r.firstFailedAt.None?
    case Ok => r.attempts == 0
    case Failed =>
      && 1 <= r.attempts <= MAX_FAILURES && r.firstFailedAt.Some? && r.nextAttemptAt.Some?
      && r.nextAttemptAt.value >= r.firstFailedAt.value + Waited(r.attempts)
  }

  lemma {:induction false} StaysOnSchedule(r: Row, passes: seq<int>)
    requires OnSchedule(r)
    ensures OnSchedule(PassedAll(r, passes))
  {
    if passes != [] {
      var before, now := PassedAll(r, passes[..|passes| - 1]), passes[|passes| - 1];
      StaysOnSchedule(r, passes[..|passes| - 1]);
      DayIsFull(before.attempts);
    }
  }

  /** A row that always fails is recorded as failed at most 29 times, whenever the passes run. */
  lemma RetryBound(created: int, passes: seq<int>)
    ensures PassedAll(NewRow(created), passes).attempts <= MAX_FAILURES
  {
    StaysOnSchedule(NewRow(created), passes);
  }

  function Times(at: nat -> int, n: nat): seq<int> { if n == 0 then [] else Times(at, n - 1) + [at(n - 1)] }

  /** Passes exactly on schedule, the first one at `start`. */
  function Punctual(start: int, n: nat): seq<int> { Times((k: nat) => start + Waited(k), n) }

  /** The row after n punctual failures. */
  function PunctualRow(created: int, start: int, n: nat): Row {
    if n == 0 then NewRow(created) else Row(Failed, n, Some(start + Waited(n)), Some(start), created)
  }

  lemma PunctualStep(created: int, start: int, n: nat)
    requires n < MAX_FAILURES
    ensures Passed(PunctualRow(created, start, n), start + Waited(n)) == PunctualRow(created, start, n + 1)
  {
    DayIsFull(n);
    assert Waited(n + 1) == Waited(n) + Delay(n);
    assert Due(PunctualRow(created, start, n), start + Waited(n));
  }

  lemma PassedSnoc(r: Row, passes: seq<int>, now: int)
    ensures PassedAll(r, passes + [now]) == Passed(PassedAll(r, passes), now)
  {
    assert (passes + [now])[..|passes|] == passes;
  }

  /** Passes that each take one row to the next. */
  lemma {:induction false} PassesFollow(rows: nat -> Row, at: nat -> int, n: nat)
    requires forall k: nat | k < n :: Passed(rows(k), at(k)) == rows(k + 1)
    ensures PassedAll(rows(0), Times(at, n)) == rows(n)
  {
    if n > 0 {
      PassesFollow(rows, at, n - 1);
      PassedSnoc(rows(0), Times(at, n - 1), at(n - 1));
    }
  }

  lemma PunctualFails(created: int, start: int, n: nat)
    requires n <= MAX_FAILURES
    ensures PassedAll(NewRow(created), Punctual(start, n)) == PunctualRow(created, start, n)
  {
    var rows := (k: nat) => PunctualRow(created, start, k);
    var at := (k: nat) => start + Waited(k);
    forall k: nat | k < n ensures Passed(rows(k), at(k)) == rows(k + 1) {
      PunctualStep(created, start, k);
    }
    PassesFollow(rows, at, n);
  }

  /** … and 29 is reached. */
  lemma RetryBoundIsReached(created: int, start: int)
    ensures PassedAll(NewRow(created), Punctual(start, MAX_FAILURES)).attempts == MAX_FAILURES
  {
    PunctualFails(created, start, MAX_FAILURES);
  }

  predicate Terminal(r: Row, now: int) {
    r.status == Ok || (r.status == Failed && r.firstFailedAt.Some? && now - r.firstFailedAt.value >= GIVE_UP_AFTER)
  }

  /** Once terminal a row is never due again, and later passes leave it exactly as it is. */
  lemma {:induction false} TerminalForEver(r: Row, now: int, passes: seq<int>)
    requires Terminal(r, now) && forall i | 0 <= i < |passes| :: passes[i] >= now
    ensures PassedAll(r, passes) == r
  {
    if passes != [] {
      TerminalForEver(r, now, passes[..|passes| - 1]);
    }
  }

  /** A row that failed 29 times has waited out its day: it is terminal by the time it could be due. */
  lemma ExhaustedIsTerminal(r: Row, now: int)
    requires OnSchedule(r) && r.status == Failed && r.attempts == MAX_FAILURES
    ensures !Due(r, now)
  {
    DayIsFull(MAX_FAILURES);
  }
}
