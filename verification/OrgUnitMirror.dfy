/**
  The finance leaf's org-unit mirror (modules/finance/src/org-unit-consumer.ts, and the
  snapshot upsert of modules/finance/scripts/backfill.ts).

  The mirror is a last-writer-wins replica: every event is applied at most once per event id,
  an older event never overwrites a newer one, and a delete leaves a tombstone. The module proves
  when, and only when, the replica is independent of the order of delivery, and when, and only
  when, the backfill may run beside the live consumer.
*/
module OrgUnitMirror {
  import opened Wrappers

  datatype Op =
    | Upsert(eventId: string, occurredAt: int, id: string, name: string, kind: string, parentId: Option<string>)
    | Delete(eventId: string, occurredAt: int, id: string)

  /** A row of finance.org_unit_mirror. */
  datatype Row = Row(name: string, kind: string, parentId: Option<string>, deleted: bool, at: int)

  datatype Outcome = Applied | Stale | Duplicate

  type Rows = map<string, Row>

  /** One tenant's database: finance.event_consumption and finance.org_unit_mirror. */
  datatype Db = Db(consumed: set<string>, rows: Rows)

  const EMPTY := Db({}, map[])

  /** The ordering guard shared by all three statements: strictly newer, or no row yet. */
  predicate Wins(rows: Rows, id: string, at: int) {
    id in rows ==> at > rows[id].at
  }

  /** INSERT … ON CONFLICT (id) DO UPDATE … WHERE EXCLUDED is newer, for both kinds of event. */
  function Written(rows: Rows, op: Op): Rows {
    if !Wins(rows, op.id, op.occurredAt) then rows
    else match op
      case Upsert(_, at, id, name, kind, parentId) => rows[id := Row(name, kind, parentId, false, at)]
      case Delete(_, at, id) =>
        rows[id := if id in rows then rows[id].(deleted := true, at := at) else Row("", "", None, true, at)]
  }

  /** One apply(): the idempotency claim and the guarded write in one transaction. */
  function Apply(db: Db, op: Op): (Db, Outcome) {
    if op.eventId in db.consumed then (db, Duplicate)
    else (Db(db.consumed + {op.eventId}, Written(db.rows, op)),
          if Wins(db.rows, op.id, op.occurredAt) then Applied else Stale)
  }

  /** A row of the kernel's org_units table. */
  datatype Unit = Unit(id: string, name: string, kind: string, parentId: Option<string>)

  /** The backfill's upsert: like an event's, except that an existing row keeps its deleted flag. */
  function BackfillWritten(rows: Rows, u: Unit, at: int): Rows {
    if !Wins(rows, u.id, at) then rows
    else rows[u.id := Row(u.name, u.kind, u.parentId, u.id in rows && rows[u.id].deleted, at)]
  }

  function CopiedUnits(rows: Rows, units: seq<Unit>, at: int): Rows {
    if units == [] then rows
    else BackfillWritten(CopiedUnits(rows, units[..|units| - 1], at), units[|units| - 1], at)
  }

  // ---------------------------------------------------------------------------------------------
  // The store, updated in place
  // ---------------------------------------------------------------------------------------------

  class MirrorStore {
    var consumed: set<string>
    var rows: Rows

    function View(): Db
      reads this
    {
      Db(consumed, rows)
    }

    constructor ()
      ensures View() == EMPTY
    {
      consumed, rows := {}, map[];
    }

    method ApplyOp(op: Op) returns (outcome: Outcome)
      modifies this
      ensures (View(), outcome) == Apply(old(View()), op)
    {
      if op.eventId in consumed {
        return Duplicate;
      }
      consumed := consumed + {op.eventId};
      if op.id in rows && rows[op.id].at >= op.occurredAt {
        return Stale;
      }
      match op {
        case Upsert(_, at, id, name, kind, parentId) =>
          rows := rows[id := Row(name, kind, parentId, false, at)];
        case Delete(_, at, id) =>
          if id in rows {
            rows := rows[id := rows[id].(deleted := true, at := at)];
          } else {
            rows := rows[id := Row("", "", None, true, at)];
          }
      }
      return Applied;
    }

    /** copyOrgUnitMirror: every row stamped with the one snapshot instant. */
    method CopyOrgUnits(units: seq<Unit>, snapshotAt: int) returns (count: nat)
      modifies this`rows
      ensures rows == CopiedUnits(old(rows), units, snapshotAt)
      ensures count == |units|
    {
      for i := 0 to |units|
        invariant rows == CopiedUnits(old(rows), units[..i], snapshotAt)
      {
        assert units[..i + 1][..i] == units[..i];
        var u := units[i];
        if u.id !in rows {
          rows := rows[u.id := Row(u.name, u.kind, u.parentId, false, snapshotAt)];
        } else if snapshotAt > rows[u.id].at {
          rows := rows[u.id := rows[u.id].(name := u.name, kind := u.kind, parentId := u.parentId, at := snapshotAt)];
        }
      }
      assert units[..|units|] == units;
      count := |units|;
    }
  }

  // ---------------------------------------------------------------------------------------------
  // Runs: events and snapshot rows, interleaved and redelivered in any way
  // ---------------------------------------------------------------------------------------------

  datatype Delivery =
    | Event(op: Op)
    | Snapshot(unit: Unit, snapshotAt: int)
  {
    function Key(): string { if Event? then op.id else unit.id }
    function At(): int { if Event? then op.occurredAt else snapshotAt }
  }

  function Step(db: Db, d: Delivery): Db {
    match d
    case Event(op) => Apply(db, op).0
    case Snapshot(u, at) => db.(rows := BackfillWritten(db.rows, u, at))
  }

  function Run(ds: seq<Delivery>): Db {
    if ds == [] then EMPTY else Step(Run(ds[..|ds| - 1]), ds[|ds| - 1])
  }

  /** What a reader of the mirror can see of one org unit. */
  datatype View =
    | Absent
    | Gone(at: int)
    | Shown(name: string, kind: string, parentId: Option<string>, at: int)

  function ViewOf(rows: Rows, id: string): View {
    if id !in rows then Absent
    else if rows[id].deleted then Gone(rows[id].at)
    else Shown(rows[id].name, rows[id].kind, rows[id].parentId, rows[id].at)
  }

  function ViewAfter(ds: seq<Delivery>, id: string): View { ViewOf(Run(ds).rows, id) }

  /** The view one delivery asks for. */
  function Content(d: Delivery): View {
    match d
    case Event(Upsert(_, at, _, name, kind, parentId)) => Shown(name, kind, parentId, at)
    case Event(Delete(_, at, _)) => Gone(at)
    case Snapshot(u, at) => Shown(u.name, u.kind, u.parentId, at)
  }

  ghost predicate EventIdsDetermine(ds: seq<Delivery>) {
    forall d, e | d in ds && e in ds && d.Event? && e.Event? && d.op.eventId == e.op.eventId :: d == e
  }

  ghost predicate IsNewest(ds: seq<Delivery>, d: Delivery) {
    d in ds && forall e | e in ds && e.Key() == d.Key() :: e.At() <= d.At()
  }

  ghost predicate SameSet(ds: seq<Delivery>, es: seq<Delivery>) {
    forall d :: d in ds <==> d in es
  }

  /** Row `d.Key()` carries `d`: all that an event says, or all of a snapshot row but the deleted flag. */
  ghost predicate Carries(rows: Rows, d: Delivery) {
    d.Key() in rows && rows[d.Key()].at == d.At() &&
    (if d.Event? then ViewOf(rows, d.Key()) == Content(d)
     else ViewOf(rows[d.Key() := rows[d.Key()].(deleted := false)], d.Key()) == Content(d))
  }

  /** The dedup table holds the ids of the events delivered, applied or not. */
  lemma {:induction false} ConsumedIffDelivered(ds: seq<Delivery>, s: string)
    ensures s in Run(ds).consumed <==> exists d :: d in ds && d.Event? && d.op.eventId == s
  {
    if ds != [] {
      var before, last := ds[..|ds| - 1], ds[|ds| - 1];
      assert ds == before + [last];
      ConsumedIffDelivered(before, s);
    }
  }

  /** Every row carries some newest delivery of its org unit, whatever was delivered in whatever order. */
  lemma {:induction false} NewestWins(ds: seq<Delivery>, id: string)
    requires EventIdsDetermine(ds)
    ensures id in Run(ds).rows <==> exists d :: d in ds && d.Key() == id
    ensures id in Run(ds).rows ==> exists d :: IsNewest(ds, d) && d.Key() == id && Carries(Run(ds).rows, d)
  {
    if ds != [] {
      var before, last := ds[..|ds| - 1], ds[|ds| - 1];
      assert ds == before + [last];
      assert forall d :: d in ds <==> d in before || d == last;
      NewestWins(before, id);
      if last.Event? {
        ConsumedIffDelivered(before, last.op.eventId);
      }
      var was, now := Run(before), Run(ds);
      if id in was.rows {
        var d :| IsNewest(before, d) && d.Key() == id && Carries(was.rows, d);
        if last.Key() == id && last.At() > d.At() && !(last.Event? && last.op.eventId in was.consumed) {
          assert IsNewest(ds, last) && Carries(now.rows, last);
        } else {
          assert now.rows[id] == was.rows[id];
          assert IsNewest(ds, d) && Carries(now.rows, d);
        }
      } else if last.Key() == id {
        assert !(last.Event? && last.op.eventId in was.consumed);
        assert IsNewest(ds, last) && Carries(now.rows, last);
      }
    }
  }

  /** Deliveries no newer than the row leave it as it is. */
  lemma {:induction false} Settled(ds: seq<Delivery>, more: seq<Delivery>, id: string)
    requires id in Run(ds).rows
    requires forall d | d in more && d.Key() == id :: d.At() <= Run(ds).rows[id].at
    ensures id in Run(ds + more).rows && Run(ds + more).rows[id] == Run(ds).rows[id]
  {
    if more == [] {
      assert ds + more == ds;
    } else {
      var before, last := more[..|more| - 1], more[|more| - 1];
      Settled(ds, before, id);
      assert (ds + more)[..|ds + more| - 1] == ds + before && (ds + more)[|ds + more| - 1] == last;
      assert last in more;
    }
  }

  // ---------------------------------------------------------------------------------------------
  // Convergence
  // ---------------------------------------------------------------------------------------------

  /** Newest events of one org unit ask for the same view; distinct timestamps are the usual reason. */
  ghost predicate TiesAgree(ds: seq<Delivery>) {
    forall d, e | IsNewest(ds, d) && IsNewest(ds, e) && d.Key() == e.Key() :: Content(d) == Content(e)
  }

  /** Any two deliveries of the same events, in any order and with any redeliveries, look the same. */
  ghost predicate Converges(events: seq<Delivery>) {
    forall a, b, id | SameSet(a, events) && SameSet(b, events) :: ViewAfter(a, id) == ViewAfter(b, id)
  }

  ghost predicate OnlyEvents(ds: seq<Delivery>) {
    forall d | d in ds :: d.Event?
  }

  lemma ShowsNewest(ds: seq<Delivery>, events: seq<Delivery>, d: Delivery)
    requires OnlyEvents(events) && EventIdsDetermine(events) && TiesAgree(events)
    requires SameSet(ds, events) && IsNewest(events, d)
    ensures ViewAfter(ds, d.Key()) == Content(d)
  {
    NewestWins(ds, d.Key());
    var e :| IsNewest(ds, e) && e.Key() == d.Key() && Carries(Run(ds).rows, e);
    assert IsNewest(events, e) && e.Event?;
  }

  lemma FirstNewestSticks(events: seq<Delivery>, d: Delivery)
    requires OnlyEvents(events) && IsNewest(events, d)
    ensures ViewAfter([d] + events, d.Key()) == Content(d)
  {
    assert Run([]) == EMPTY;
    assert [d][..0] == [];
    Settled([d], events, d.Key());
  }

  /** The replica converges exactly when ties among newest events agree. */
  lemma ConvergesIffTiesAgree(events: seq<Delivery>)
    requires OnlyEvents(events) && EventIdsDetermine(events)
    ensures Converges(events) <==> TiesAgree(events)
  {
    if TiesAgree(events) {
      forall a, b, id | SameSet(a, events) && SameSet(b, events) ensures ViewAfter(a, id) == ViewAfter(b, id) {
        NewestWins(a, id);
        NewestWins(b, id);
        if id in Run(a).rows {
          var d :| IsNewest(a, d) && d.Key() == id && Carries(Run(a).rows, d);
          assert IsNewest(events, d);
          ShowsNewest(a, events, d);
          ShowsNewest(b, events, d);
        }
      }
    }
    if Converges(events) {
      forall d, e | IsNewest(events, d) && IsNewest(events, e) && d.Key() == e.Key() ensures Content(d) == Content(e) {
        FirstNewestSticks(events, d);
        FirstNewestSticks(events, e);
        assert SameSet([d] + events, events) && SameSet([e] + events, events);
        assert ViewAfter([d] + events, d.Key()) == ViewAfter([e] + events, d.Key());
      }
    }
  }

  /** Distinct timestamps within each org unit: every order ends with the newest event. */
  lemma DistinctTimesConverge(events: seq<Delivery>, ds: seq<Delivery>, newest: Delivery)
    requires OnlyEvents(events) && EventIdsDetermine(events)
    requires forall d, e | d in events && e in events && d.Key() == e.Key() && d.At() == e.At() :: d == e
    requires SameSet(ds, events) && IsNewest(events, newest)
    ensures ViewAfter(ds, newest.Key()) == Content(newest)
  {
    forall d, e | IsNewest(events, d) && IsNewest(events, e) && d.Key() == e.Key() ensures d == e {
      assert d.At() == e.At();
    }
    ShowsNewest(ds, events, newest);
  }

  /** Two upserts of one org unit at the same instant: the order of delivery decides, for good. */
  lemma EqualTimesDiverge(d: Op, e: Op)
    requires d.id == e.id && d.occurredAt == e.occurredAt && d.eventId != e.eventId && Content(Event(d)) != Content(Event(e))
    ensures ViewAfter([Event(d), Event(e)], d.id) == Content(Event(d)) && ViewAfter([Event(e), Event(d)], d.id) == Content(Event(e))
    ensures !Converges([Event(d), Event(e)])
  {
    OnlyFirst(d, e);
    OnlyFirst(e, d);
    assert SameSet([Event(e), Event(d)], [Event(d), Event(e)]);
  }

  lemma OnlyFirst(d: Op, e: Op)
    requires d.id == e.id && d.occurredAt == e.occurredAt
    ensures ViewAfter([Event(d), Event(e)], d.id) == Content(Event(d))
  {
    assert Run([]) == EMPTY && [Event(d)][..0] == [];
    Settled([Event(d)], [Event(e)], d.id);
    assert [Event(d)] + [Event(e)] == [Event(d), Event(e)];
  }

  // ---------------------------------------------------------------------------------------------
  // The backfill beside the live consumer
  // ---------------------------------------------------------------------------------------------

  ghost predicate Interleaves(ds: seq<Delivery>, events: seq<Delivery>, units: seq<Unit>, at: int) {
    forall d :: d in ds <==> d in events || (d.Snapshot? && d.snapshotAt == at && d.unit in units)
  }

  /** Every interleaving ends with the newest of all writes, a snapshot row counting as an upsert at `at`. */
  ghost predicate BackfillFaithful(events: seq<Delivery>, units: seq<Unit>, at: int) {
    forall ds, d | Interleaves(ds, events, units, at) && IsNewest(ds, d) :: ViewAfter(ds, d.Key()) == Content(d)
  }

  predicate IsDelete(d: Delivery) { d.Event? && d.op.Delete? }

  /** Each copied unit has an event newer than the snapshot, or no delete older than it. */
  ghost predicate NoOldDelete(events: seq<Delivery>, units: seq<Unit>, at: int) {
    forall u | u in units ::
      (exists e :: e in events && e.Key() == u.id && e.At() > at) ||
      (forall e | e in events && e.Key() == u.id && IsDelete(e) :: e.At() > at)
  }

  ghost predicate BackfillSetting(events: seq<Delivery>, units: seq<Unit>, at: int) {
    OnlyEvents(events) && EventIdsDetermine(events) && TiesAgree(events) &&
    (forall u, v | u in units && v in units && u.id == v.id :: u == v) &&
    (forall u, e | u in units && e in events && e.Key() == u.id :: e.At() != at)
  }

  /** A tombstone always comes from a delete no newer than the row. */
  lemma {:induction false} TombstoneHasDelete(ds: seq<Delivery>, id: string)
    requires id in Run(ds).rows && Run(ds).rows[id].deleted
    ensures exists e :: e in ds && IsDelete(e) && e.Key() == id && e.At() <= Run(ds).rows[id].at
  {
    var before, last := ds[..|ds| - 1], ds[|ds| - 1];
    if id in Run(before).rows && Run(before).rows[id].deleted {
      TombstoneHasDelete(before, id);
      assert Run(before).rows[id].at <= Run(ds).rows[id].at;
    } else {
      assert last in ds && IsDelete(last) && last.Key() == id;
    }
  }

  lemma BackfillFaithfulIf(events: seq<Delivery>, units: seq<Unit>, at: int, ds: seq<Delivery>, d: Delivery)
    requires BackfillSetting(events, units, at) && NoOldDelete(events, units, at)
    requires Interleaves(ds, events, units, at) && IsNewest(ds, d)
    ensures ViewAfter(ds, d.Key()) == Content(d)
  {
    NewestWins(ds, d.Key());
    var e :| IsNewest(ds, e) && e.Key() == d.Key() && Carries(Run(ds).rows, e);
    assert e.At() == d.At();
    if e.Event? {
      assert d.Event?;
      assert IsNewest(events, d) && IsNewest(events, e);
    } else {
      assert d == e;
      if Run(ds).rows[d.Key()].deleted {
        TombstoneHasDelete(ds, d.Key());
        assert false;
      }
    }
  }

  /** An old delete, then the snapshot row, then everything else: the unit stays deleted. */
  lemma OldDeleteSticks(events: seq<Delivery>, units: seq<Unit>, at: int, u: Unit, del: Delivery) returns (ds: seq<Delivery>)
    requires BackfillSetting(events, units, at) && u in units
    requires forall e | e in events && e.Key() == u.id :: e.At() <= at
    requires del in events && del.Key() == u.id && IsDelete(del)
    ensures Interleaves(ds, events, units, at) && IsNewest(ds, Snapshot(u, at)) && ViewAfter(ds, u.id) == Gone(at)
  {
    var copied := seq(|units|, i requires 0 <= i < |units| => Snapshot(units[i], at));
    var start, rest := [del, Snapshot(u, at)], events + copied;
    assert Run([]) == EMPTY && [del][..0] == [] && start[..1] == [del];
    assert Run([del]).rows[u.id] == Row("", "", None, true, del.At());
    assert ViewAfter(start, u.id) == Gone(at);
    forall d | d in rest && d.Key() == u.id ensures d.At() <= at {
      assert d in events || d in copied;
    }
    Settled(start, rest, u.id);
    ds := start + rest;
    forall v | v in units ensures Snapshot(v, at) in copied {
      var i :| 0 <= i < |units| && units[i] == v;
      assert copied[i] == Snapshot(v, at);
    }
  }

  /** The backfill is faithful in every interleaving exactly when no copied unit has an old delete and no newer event. */
  lemma BackfillFaithfulIff(events: seq<Delivery>, units: seq<Unit>, at: int)
    requires BackfillSetting(events, units, at)
    ensures BackfillFaithful(events, units, at) <==> NoOldDelete(events, units, at)
  {
    if NoOldDelete(events, units, at) {
      forall ds, d | Interleaves(ds, events, units, at) && IsNewest(ds, d) ensures ViewAfter(ds, d.Key()) == Content(d) {
        BackfillFaithfulIf(events, units, at, ds, d);
      }
    } else {
      var u :| u in units && !(exists e :: e in events && e.Key() == u.id && e.At() > at) &&
        !(forall e | e in events && e.Key() == u.id && IsDelete(e) :: e.At() > at);
      var del :| del in events && del.Key() == u.id && IsDelete(del) && del.At() <= at;
      var ds := OldDeleteSticks(events, units, at, u, del);
      assert ViewAfter(ds, Snapshot(u, at).Key()) != Content(Snapshot(u, at));
    }
  }

  /** A unit deleted at 5 and re-created at 7, copied at 10 before event 7 arrives, reads as deleted for ever. */
  lemma RecreatedUnitStaysDeleted()
    ensures var del := Event(Delete("e1", 5, "u"));
            var up := Event(Upsert("e2", 7, "u", "Board", "org", None));
            ViewAfter([del, Snapshot(Unit("u", "Board", "org", None), 10), up], "u") == Gone(10)
  {
    var del, up := Event(Delete("e1", 5, "u")), Event(Upsert("e2", 7, "u", "Board", "org", None));
    var snap := Snapshot(Unit("u", "Board", "org", None), 10);
    assert Run([]) == EMPTY;
    assert [del][..0] == [] && [del, snap][..1] == [del];
    Settled([del, snap], [up], "u");
    assert [del, snap] + [up] == [del, snap, up];
  }

  /** The copy's deliveries, one row after the other. */
  function Copied(units: seq<Unit>, at: int): seq<Delivery> {
    if units == [] then [] else Copied(units[..|units| - 1], at) + [Snapshot(units[|units| - 1], at)]
  }

  /** A copy is the delivery of its rows, whatever was delivered before it. */
  lemma {:induction false} CopyIsDeliveries(ds: seq<Delivery>, units: seq<Unit>, at: int)
    ensures Run(ds + Copied(units, at)) == Run(ds).(rows := CopiedUnits(Run(ds).rows, units, at))
  {
    if units == [] {
      assert ds + Copied(units, at) == ds;
    } else {
      var rest, last := units[..|units| - 1], Snapshot(units[|units| - 1], at);
      CopyIsDeliveries(ds, rest, at);
      assert ds + Copied(units, at) == ds + Copied(rest, at) + [last];
      assert (ds + Copied(rest, at) + [last])[..|ds + Copied(rest, at)|] == ds + Copied(rest, at);
    }
  }

  /** The copy's deliveries are exactly its rows at its time, so the results on deliveries are about the copy. */
  lemma {:induction false} CopiedMembers(units: seq<Unit>, at: int, d: Delivery)
    ensures d in Copied(units, at) <==> d.Snapshot? && d.snapshotAt == at && d.unit in units
  {
    if units != [] {
      CopiedMembers(units[..|units| - 1], at, d);
      assert units == units[..|units| - 1] + [units[|units| - 1]];
    }
  }

  /** What each answer of apply() says: the row carries the op, or nothing but the dedup table changed. */
  lemma OutcomeMeans(db: Db, op: Op)
    ensures var (after, outcome) := Apply(db, op);
            && (outcome == Duplicate <==> op.eventId in db.consumed)
            && (outcome == Applied ==> Carries(after.rows, Event(op)))
            && (outcome == Stale ==> op.id in db.rows && db.rows[op.id].at >= op.occurredAt)
            && (outcome != Applied ==> after.rows == db.rows)
            && after.consumed == db.consumed + {op.eventId}
            && forall id | id != op.id :: (id in after.rows <==> id in db.rows) && (id in db.rows ==> after.rows[id] == db.rows[id])
  {
  }

  /** Along any run a row never disappears and its timestamp never decreases. */
  lemma {:induction false} NeverOlder(ds: seq<Delivery>, more: seq<Delivery>, id: string)
    requires id in Run(ds).rows
    ensures id in Run(ds + more).rows && Run(ds + more).rows[id].at >= Run(ds).rows[id].at
  {
    if more == [] {
      assert ds + more == ds;
    } else {
      var before, last := more[..|more| - 1], more[|more| - 1];
      NeverOlder(ds, before, id);
      assert (ds + more)[..|ds + more| - 1] == ds + before && (ds + more)[|ds + more| - 1] == last;
    }
  }

  /** The whole copy never changes whether an existing row is a tombstone, and never steps its time back. */
  lemma {:induction false} CopyKeepsTombstones(rows: Rows, units: seq<Unit>, at: int, id: string)
    requires id in rows
    ensures var after := CopiedUnits(rows, units, at);
            id in after && after[id].deleted == rows[id].deleted && after[id].at >= rows[id].at
  {
    if units != [] {
      CopyKeepsTombstones(rows, units[..|units| - 1], at, id);
    }
  }
}
