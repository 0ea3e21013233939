/**
  The backfill against the source's own history (modules/finance/scripts/backfill.ts): what the copy
  and the live events leave of a unit, compared with what the kernel's org_units table ends with, and
  which deliveries the verify gate's counts catch.

  A unit's operations carry strictly increasing times, and a deleted unit is never re-created, its id
  being the database's (gremion-ui/src/lib/server/governance/org-units-db.ts). The copy's read sees
  the operations committed before it, a prefix; its timestamp is taken before the read, so an
  operation dated earlier may still be missing from it.
*/
module BackfillHistory {
  import opened Wrappers
  import opened OrgUnitMirror

  /** One unit: the row it had before its first event, if any, and its operations in order. */
  datatype History = History(id: string, start: Option<Unit>, ops: seq<Op>)

  /** The unit's row in the source after its first n operations. */
  function After(h: History, n: nat): Option<Unit>
    requires n <= |h.ops|
  {
    if n == 0 then h.start
    else match h.ops[n - 1]
      case Upsert(_, _, id, name, kind, parentId) => Some(Unit(id, name, kind, parentId))
      case Delete(_, _, _) => None
  }

  function Final(h: History): Option<Unit> { After(h, |h.ops|) }

  ghost predicate WellFormed(h: History) {
    && (h.start.Some? ==> h.start.value.id == h.id)
    && (forall i | 0 <= i < |h.ops| :: h.ops[i].id == h.id)
    && (forall i, j | 0 <= i < j < |h.ops| :: h.ops[i].occurredAt < h.ops[j].occurredAt && h.ops[i].eventId != h.ops[j].eventId)
    && (forall i | 0 <= i < |h.ops| - 1 :: h.ops[i].Upsert?)
  }

  /** What the unit's deliveries are: every event, and the copied row if the read saw one. */
  ghost predicate Delivers(ds: seq<Delivery>, h: History, seen: nat, at: int)
    requires seen <= |h.ops|
  {
    forall d: Delivery | d.Key() == h.id ::
      d in ds <==> (d.Event? && d.op in h.ops) || (After(h, seen).Some? && d == Snapshot(After(h, seen).value, at))
  }

  /** The mirror shows the unit as the source ends with it: its row, or none. */
  predicate ShowsFinal(v: View, final: Option<Unit>) {
    match final
    case Some(u) => v.Shown? && v.name == u.name && v.kind == u.kind && v.parentId == u.parentId
    case None => !v.Shown?
  }

  /** The snapshot outdates no operation its read missed: a newer event follows, or it saw no row, or the final one. */
  predicate NothingMissed(h: History, seen: nat, at: int)
    requires seen <= |h.ops|
  {
    (h.ops != [] && h.ops[|h.ops| - 1].occurredAt > at) || After(h, seen).None? || After(h, seen) == Final(h)
  }

  lemma LastIsNewest(ds: seq<Delivery>, h: History, seen: nat, at: int, d: Delivery)
    requires WellFormed(h) && seen <= |h.ops| && Delivers(ds, h, seen, at) && IsNewest(ds, d) && d.Key() == h.id && d.Event?
    ensures h.ops != [] && d.op == h.ops[|h.ops| - 1]
  {
    var k :| 0 <= k < |h.ops| && h.ops[k] == d.op;
    var last := Event(h.ops[|h.ops| - 1]);
    assert last.Key() == h.id && last in ds;
    assert last.At() <= d.At();
  }

  lemma OnlyUpserts(h: History)
    requires WellFormed(h) && Final(h).Some?
    ensures forall op | op in h.ops :: op.Upsert?
  {
    forall i | 0 <= i < |h.ops| ensures h.ops[i].Upsert? {
    }
  }

  lemma NoDeleteBefore(ds: seq<Delivery>, h: History, seen: nat, at: int)
    requires WellFormed(h) && seen <= |h.ops| && Delivers(ds, h, seen, at) && Final(h).Some? && h.id in Run(ds).rows
    ensures !Run(ds).rows[h.id].deleted
  {
    OnlyUpserts(h);
    if Run(ds).rows[h.id].deleted {
      TombstoneHasDelete(ds, h.id);
      assert false;
    }
  }

  /** Whatever the order and the redeliveries, of this unit's deliveries and everybody else's. */
  lemma MirrorsIf(ds: seq<Delivery>, h: History, seen: nat, at: int)
    requires WellFormed(h) && seen <= |h.ops| && EventIdsDetermine(ds) && Delivers(ds, h, seen, at) && NothingMissed(h, seen, at)
    ensures ShowsFinal(ViewAfter(ds, h.id), Final(h))
  {
    NewestWins(ds, h.id);
    if Final(h).Some? {
      SomethingDelivered(ds, h, seen, at);
    }
    if h.id in Run(ds).rows {
      var d :| IsNewest(ds, d) && d.Key() == h.id && Carries(Run(ds).rows, d);
      if d.Event? {
        LastIsNewest(ds, h, seen, at, d);
      } else {
        SnapshotIsFinal(ds, h, seen, at, d);
        NoDeleteBefore(ds, h, seen, at);
      }
    }
  }

  lemma SnapshotIsFinal(ds: seq<Delivery>, h: History, seen: nat, at: int, d: Delivery)
    requires WellFormed(h) && seen <= |h.ops| && Delivers(ds, h, seen, at) && NothingMissed(h, seen, at)
    requires IsNewest(ds, d) && d.Key() == h.id && !d.Event?
    ensures After(h, seen).Some? && d == Snapshot(After(h, seen).value, at) && After(h, seen) == Final(h)
  {
    if h.ops != [] {
      var last := Event(h.ops[|h.ops| - 1]);
      assert last.Key() == h.id && last in ds;
      assert last.At() <= at;
    }
  }

  lemma SomethingDelivered(ds: seq<Delivery>, h: History, seen: nat, at: int)
    requires WellFormed(h) && seen <= |h.ops| && Delivers(ds, h, seen, at) && Final(h).Some?
    ensures exists d :: d in ds && d.Key() == h.id
  {
    var d := if h.ops == [] then Snapshot(Final(h).value, at) else Event(h.ops[|h.ops| - 1]);
    assert d.Key() == h.id && d in ds;
  }

  function Events(h: History): seq<Delivery> { seq(|h.ops|, i requires 0 <= i < |h.ops| => Event(h.ops[i])) }

  lemma EventsMembers(h: History)
    ensures forall d :: d in Events(h) <==> d.Event? && d.op in h.ops
  {
    forall d: Delivery | d.Event? && d.op in h.ops ensures d in Events(h) {
      var i :| 0 <= i < |h.ops| && h.ops[i] == d.op;
      assert Events(h)[i] == d;
    }
  }

  /** The copy first, then every event. */
  function CopyFirst(h: History, u: Unit, at: int): seq<Delivery> { [Snapshot(u, at)] + Events(h) }

  lemma CopyFirstDelivers(h: History, seen: nat, at: int)
    requires WellFormed(h) && seen <= |h.ops| && After(h, seen).Some?
    ensures var ds := CopyFirst(h, After(h, seen).value, at); EventIdsDetermine(ds) && Delivers(ds, h, seen, at)
  {
    EventsMembers(h);
  }

  lemma CopyFirstShows(h: History, u: Unit, at: int)
    requires WellFormed(h) && h.ops != [] && h.ops[|h.ops| - 1].occurredAt <= at && u.id == h.id
    ensures ViewAfter(CopyFirst(h, u, at), h.id) == Shown(u.name, u.kind, u.parentId, at)
  {
    var first := [Snapshot(u, at)];
    assert Run([]) == EMPTY && first[..0] == [];
    assert ViewAfter(first, h.id) == Shown(u.name, u.kind, u.parentId, at);
    EventsMembers(h);
    forall d | d in Events(h) && d.Key() == h.id ensures d.At() <= at {
      var i :| 0 <= i < |h.ops| && h.ops[i] == d.op;
      assert h.ops[i].occurredAt <= h.ops[|h.ops| - 1].occurredAt;
    }
    Settled(first, Events(h), h.id);
  }

  /** A row that outdates a missed operation stays for ever. */
  lemma MissedStays(h: History, seen: nat, at: int)
    requires WellFormed(h) && seen <= |h.ops| && !NothingMissed(h, seen, at)
    ensures var ds := CopyFirst(h, After(h, seen).value, at);
            && EventIdsDetermine(ds) && Delivers(ds, h, seen, at) && !ShowsFinal(ViewAfter(ds, h.id), Final(h))
  {
    CopyFirstDelivers(h, seen, at);
    CopyFirstShows(h, After(h, seen).value, at);
  }

  /**
    After the copy and all events the mirror shows a unit as the source ends with it, in every order
    and with any redeliveries, exactly when a newer event follows the snapshot, or the read saw no
    row of the unit, or it saw the final one.
  */
  lemma MirrorsSourceIff(h: History, seen: nat, at: int)
    requires WellFormed(h) && seen <= |h.ops|
    ensures NothingMissed(h, seen, at) <==>
            forall ds | EventIdsDetermine(ds) && Delivers(ds, h, seen, at) :: ShowsFinal(ViewAfter(ds, h.id), Final(h))
  {
    if NothingMissed(h, seen, at) {
      forall ds | EventIdsDetermine(ds) && Delivers(ds, h, seen, at) ensures ShowsFinal(ViewAfter(ds, h.id), Final(h)) {
        MirrorsIf(ds, h, seen, at);
      }
    } else {
      MissedStays(h, seen, at);
    }
  }

  /** In particular when every operation dated at or before the snapshot was committed before its read. */
  lemma MirrorsWhenReadIsCurrent(h: History, seen: nat, at: int, ds: seq<Delivery>)
    requires WellFormed(h) && seen <= |h.ops| && forall i | 0 <= i < |h.ops| && h.ops[i].occurredAt <= at :: i < seen
    requires EventIdsDetermine(ds) && Delivers(ds, h, seen, at)
    ensures ShowsFinal(ViewAfter(ds, h.id), Final(h))
  {
    MirrorsIf(ds, h, seen, at);
  }

  /** A unit deleted at 5 in a transaction that commits after the read of a copy stamped 10 is shown for ever. */
  lemma MissedDeleteStays()
    ensures var h := History("u", Some(Unit("u", "Board", "org", None)), [Delete("e1", 5, "u")]);
            && WellFormed(h) && Final(h) == None
            && ViewAfter(CopyFirst(h, h.start.value, 10), "u").Shown?
  {
    var h := History("u", Some(Unit("u", "Board", "org", None)), [Delete("e1", 5, "u")]);
    MissedStays(h, 0, 10);
  }

  // ---------------------------------------------------------------------------------------------
  // Tombstones a copy keeps, and the gate
  // ---------------------------------------------------------------------------------------------

  /** The unit's first copied row is delivery k, and it outdates every event of the unit. */
  ghost predicate CopiedAt(ds: seq<Delivery>, u: Unit, at: int, k: nat) {
    && k < |ds| && ds[k] == Snapshot(u, at) && TiesAgree(ds[..k])
    && (forall d | d in ds[..k] && d.Key() == u.id :: d.Event?)
    && (forall d | d in ds && d.Key() == u.id :: d == Snapshot(u, at) || (d.Event? && d.At() < at))
  }

  /** The newest of the unit's events delivered before its copied row is a delete. */
  ghost predicate DeletedBefore(ds: seq<Delivery>, u: Unit, k: nat) {
    k <= |ds| && exists d :: IsNewest(ds[..k], d) && d.Key() == u.id && IsDelete(d)
  }

  lemma DeletedThenIff(ds: seq<Delivery>, id: string)
    requires EventIdsDetermine(ds) && TiesAgree(ds) && forall d | d in ds && d.Key() == id :: d.Event?
    ensures id in Run(ds).rows && Run(ds).rows[id].deleted <==> exists d :: IsNewest(ds, d) && d.Key() == id && IsDelete(d)
  {
    NewestWins(ds, id);
    if id in Run(ds).rows {
      var d :| IsNewest(ds, d) && d.Key() == id && Carries(Run(ds).rows, d);
      assert ViewOf(Run(ds).rows, id) == Content(d);
      if e :| IsNewest(ds, e) && e.Key() == id && IsDelete(e) {
        assert Content(e) == Content(d);
      }
    }
  }

  /** The copied row takes the place of a row it outdates, and leaves its flag. */
  lemma CopyStep(ds: seq<Delivery>, u: Unit, at: int, k: nat)
    requires EventIdsDetermine(ds) && CopiedAt(ds, u, at, k)
    ensures var was, now := Run(ds[..k]).rows, Run(ds[..k + 1]).rows;
            u.id in now && now[u.id].at == at && (now[u.id].deleted <==> u.id in was && was[u.id].deleted)
  {
    var before := ds[..k];
    assert ds[..k + 1][..k] == before;
    NewestWins(before, u.id);
    if u.id in Run(before).rows {
      var d :| IsNewest(before, d) && d.Key() == u.id && Carries(Run(before).rows, d);
      assert d in ds && d.At() < at;
    }
  }

  /** A copied unit no event outdates stays deleted exactly when it was deleted as its row was copied. */
  lemma KeptDeletedIff(ds: seq<Delivery>, u: Unit, at: int, k: nat)
    requires EventIdsDetermine(ds) && CopiedAt(ds, u, at, k)
    ensures u.id in Run(ds).rows && (Run(ds).rows[u.id].deleted <==> DeletedBefore(ds, u, k))
  {
    CopyStep(ds, u, at, k);
    DeletedThenIff(ds[..k], u.id);
    assert ds == ds[..k + 1] + ds[k + 1..];
    Settled(ds[..k + 1], ds[k + 1..], u.id);
  }

  /** The rows the verify gate counts in the mirror: those not deleted. */
  function Visible(rows: Rows): set<string> { set id | id in rows && !rows[id].deleted }

  function Ids(units: seq<Unit>): set<string> { set i | 0 <= i < |units| :: units[i].id }

  /**
    The gate compares the number of units with the number of visible rows. While only copied units
    are visible these agree exactly when none was deleted as its row was copied; a further visible
    row can mask a kept tombstone.
  */
  lemma GateCatchesKeptTombstones(ds: seq<Delivery>, units: seq<Unit>, at: int, copied: seq<nat>)
    requires EventIdsDetermine(ds) && |copied| == |units| && forall i | 0 <= i < |units| :: CopiedAt(ds, units[i], at, copied[i])
    requires Visible(Run(ds).rows) <= Ids(units)
    ensures |Ids(units)| == |Visible(Run(ds).rows)| <==> forall i | 0 <= i < |units| :: !DeletedBefore(ds, units[i], copied[i])
  {
    var ids, visible := Ids(units), Visible(Run(ds).rows);
    forall i | 0 <= i < |units| ensures units[i].id in visible <==> !DeletedBefore(ds, units[i], copied[i]) {
      KeptDeletedIff(ds, units[i], at, copied[i]);
    }
    SubsetSizes(ids, visible);
  }

  lemma SubsetSizes(a: set<string>, b: set<string>)
    requires b <= a
    ensures |a| == |b| <==> a == b
  {
    assert a == b + (a - b);
    if |a - b| == 0 {
      assert a == b;
    }
  }
}
