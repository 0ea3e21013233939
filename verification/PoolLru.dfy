/**
  The stamp-and-scan eviction of the pool registry refines a move-to-front list: while tenants are
  only looked up and registered, the live tenants are the 16 most recently used distinct ones.
*/
module PoolLru {
  import opened PoolRegistry
  import opened PoolRuns

  function Minus(ids: seq<TenantId>, x: TenantId): seq<TenantId> {
    if ids == [] then [] else (if ids[0] == x then [] else [ids[0]]) + Minus(ids[1..], x)
  }

  /** Every id ever used, once each, most recently used first. */
  function ByRecency(uses: seq<TenantId>): seq<TenantId> {
    if uses == [] then [] else var x := uses[|uses| - 1]; [x] + Minus(ByRecency(uses[..|uses| - 1]), x)
  }

  function Top(ids: seq<TenantId>): seq<TenantId> {
    if |ids| <= POOL_REGISTRY_MAX then ids else ids[..POOL_REGISTRY_MAX]
  }

  /** The 16 (or fewer) most recently used distinct ids. */
  function MostRecent(uses: seq<TenantId>): seq<TenantId> { Top(ByRecency(uses)) }

  predicate OnlyUses(events: seq<Event>) { forall e | e in events :: e.Get? || e.Set? }

  /** The use history: a registration is a use, a lookup is one when it finds its tenant. */
  function Uses(events: seq<Event>): seq<TenantId>
    requires OnlyUses(events)
  {
    if events == [] then []
    else
      var before, e := Uses(events[..|events| - 1]), events[|events| - 1];
      if e.Set? || e.tenantId in MostRecent(before) then before + [e.tenantId] else before
  }

  // ---------------------------------------------------------------------------------------------
  // Lists without duplicates
  // ---------------------------------------------------------------------------------------------

  ghost predicate Distinct(ids: seq<TenantId>) { forall i, j | 0 <= i < j < |ids| :: ids[i] != ids[j] }

  lemma {:induction false} MinusAbsent(ids: seq<TenantId>, x: TenantId)
    requires x !in ids
    ensures Minus(ids, x) == ids
  {
    if ids != [] {
      MinusAbsent(ids[1..], x);
    }
  }

  lemma {:induction false} MinusAt(ids: seq<TenantId>, p: nat)
    requires Distinct(ids) && p < |ids|
    ensures Minus(ids, ids[p]) == Without(ids, p)
  {
    if p == 0 {
      MinusAbsent(ids[1..], ids[0]);
    } else {
      MinusAt(ids[1..], p - 1);
    }
  }

  /** Position of the last use of an id. */
  function LastUse(uses: seq<TenantId>, id: TenantId): (k: nat)
    requires id in uses
    ensures k < |uses| && uses[k] == id && id !in uses[k + 1..]
  {
    if uses[|uses| - 1] == id then |uses| - 1 else LastUse(uses[..|uses| - 1], id)
  }

  lemma {:induction false} MinusMembers(ids: seq<TenantId>, x: TenantId, y: TenantId)
    ensures y in Minus(ids, x) <==> y in ids && y != x
  {
    if ids != [] {
      MinusMembers(ids[1..], x, y);
    }
  }

  lemma {:induction false} ByRecencyMembers(uses: seq<TenantId>, y: TenantId)
    ensures y in ByRecency(uses) <==> y in uses
  {
    if uses != [] {
      ByRecencyMembers(uses[..|uses| - 1], y);
      MinusMembers(ByRecency(uses[..|uses| - 1]), uses[|uses| - 1], y);
      assert uses == uses[..|uses| - 1] + [uses[|uses| - 1]];
    }
  }

  /** The order is by last use, newest first; in particular no id occurs twice. */
  ghost predicate Ordered(uses: seq<TenantId>, ids: seq<TenantId>) {
    (forall i | 0 <= i < |ids| :: ids[i] in uses) &&
    (forall i, j | 0 <= i < j < |ids| :: LastUse(uses, ids[i]) > LastUse(uses, ids[j]))
  }

  lemma ConsOrdered(uses: seq<TenantId>, id: TenantId, rest: seq<TenantId>)
    requires Ordered(uses, rest) && id in uses
    requires forall j | 0 <= j < |rest| :: LastUse(uses, id) > LastUse(uses, rest[j])
    ensures Ordered(uses, [id] + rest)
  {
  }

  lemma {:induction false} MinusOrdered(uses: seq<TenantId>, ids: seq<TenantId>, x: TenantId)
    requires Ordered(uses, ids)
    ensures Ordered(uses, Minus(ids, x))
  {
    if ids != [] {
      var rest := Minus(ids[1..], x);
      MinusOrdered(uses, ids[1..], x);
      if ids[0] != x {
        forall j | 0 <= j < |rest| ensures LastUse(uses, ids[0]) > LastUse(uses, rest[j]) {
          MinusMembers(ids[1..], x, rest[j]);
          var k :| 0 <= k < |ids[1..]| && ids[1..][k] == rest[j];
          assert ids[k + 1] == rest[j];
        }
        ConsOrdered(uses, ids[0], rest);
      }
    }
  }

  lemma OneMoreUse(uses: seq<TenantId>, x: TenantId, y: TenantId)
    requires y in uses + [x]
    ensures LastUse(uses + [x], y) == if y == x then |uses| else LastUse(uses, y)
  {
    assert (uses + [x])[..|uses|] == uses;
  }

  lemma {:induction false} ByRecencyOrdered(uses: seq<TenantId>)
    ensures Ordered(uses, ByRecency(uses))
  {
    if uses != [] {
      var before, x := uses[..|uses| - 1], uses[|uses| - 1];
      ByRecencyOrdered(before);
      MinusOrdered(before, ByRecency(before), x);
      assert uses == before + [x];
      var rest := Minus(ByRecency(before), x);
      forall i | 0 <= i < |rest| ensures rest[i] in uses && LastUse(uses, rest[i]) == LastUse(before, rest[i]) {
        MinusMembers(ByRecency(before), x, rest[i]);
        OneMoreUse(before, x, rest[i]);
      }
      OneMoreUse(before, x, x);
    }
  }

  lemma OrderedDistinct(uses: seq<TenantId>, ids: seq<TenantId>)
    requires Ordered(uses, ids)
    ensures Distinct(ids)
  {
  }

  lemma TopOfHit(ids: seq<TenantId>, p: nat)
    requires p < |ids| && p < POOL_REGISTRY_MAX
    ensures Top([ids[p]] + Without(ids, p)) == [ids[p]] + Without(Top(ids), p)
  {
  }

  lemma TopOfMiss(ids: seq<TenantId>, p: nat)
    requires POOL_REGISTRY_MAX <= p < |ids|
    ensures Top([ids[p]] + Without(ids, p)) == [ids[p]] + ids[..POOL_REGISTRY_MAX - 1]
  {
  }

  lemma SameMembers(l: seq<TenantId>, p: nat, y: TenantId)
    requires p < |l|
    ensures y in [l[p]] + Without(l, p) <==> y in l
  {
    assert l == l[..p] + [l[p]] + l[p + 1..];
  }

  /** One more use of an id among the 16 most recent: the same ids. */
  lemma TopHit(uses: seq<TenantId>, x: TenantId)
    requires x in MostRecent(uses)
    ensures |MostRecent(uses + [x])| == |MostRecent(uses)|
    ensures forall y :: y in MostRecent(uses + [x]) <==> y in MostRecent(uses)
  {
    var ids, l := ByRecency(uses), MostRecent(uses);
    ByRecencyOrdered(uses);
    assert (uses + [x])[..|uses|] == uses;
    var p :| 0 <= p < |l| && l[p] == x;
    MinusAt(ids, p);
    TopOfHit(ids, p);
    forall y ensures y in MostRecent(uses + [x]) <==> y in l {
      SameMembers(l, p, y);
    }
  }

  lemma TopOfNew(ids: seq<TenantId>, x: TenantId)
    ensures Top([x] + ids) == [x] + var l := Top(ids); if |l| < POOL_REGISTRY_MAX then l else l[..POOL_REGISTRY_MAX - 1]
  {
  }

  lemma TopHas(ids: seq<TenantId>, p: nat)
    requires p < |ids| && p < POOL_REGISTRY_MAX
    ensures ids[p] in Top(ids)
  {
    assert Top(ids)[p] == ids[p];
  }

  lemma TopOfReused(ids: seq<TenantId>, p: nat)
    requires Distinct(ids) && POOL_REGISTRY_MAX <= p < |ids|
    ensures Top([ids[p]] + Minus(ids, ids[p])) == [ids[p]] + Top(ids)[..POOL_REGISTRY_MAX - 1]
  {
    MinusAt(ids, p);
    TopOfMiss(ids, p);
    assert Top(ids)[..POOL_REGISTRY_MAX - 1] == ids[..POOL_REGISTRY_MAX - 1];
  }

  /** One use of another id: it goes to the front, and a full list loses its last. */
  lemma TopMiss(uses: seq<TenantId>, x: TenantId)
    requires x !in MostRecent(uses)
    ensures MostRecent(uses + [x]) ==
            [x] + var l := MostRecent(uses); if |l| < POOL_REGISTRY_MAX then l else l[..POOL_REGISTRY_MAX - 1]
  {
    var ids := ByRecency(uses);
    assert (uses + [x])[..|uses|] == uses;
    assert ByRecency(uses + [x]) == [x] + Minus(ids, x);
    if p: nat :| p < |ids| && ids[p] == x {
      if p < POOL_REGISTRY_MAX {
        TopHas(ids, p);
        assert false;
      } else {
        RecentOrdered(uses);
        TopOfReused(ids, p);
      }
    } else {
      MinusAbsent(ids, x);
      TopOfNew(ids, x);
    }
  }

  lemma RecentOrdered(uses: seq<TenantId>)
    ensures Ordered(uses, ByRecency(uses)) && Ordered(uses, MostRecent(uses))
    ensures Distinct(ByRecency(uses)) && Distinct(MostRecent(uses))
  {
    ByRecencyOrdered(uses);
    OrderedDistinct(uses, ByRecency(uses));
  }

  // ---------------------------------------------------------------------------------------------
  // The refinement
  // ---------------------------------------------------------------------------------------------

  /** The live tenants are `ids`, and every stamp is the position of the tenant's last use. */
  ghost predicate Tracks(live: seq<PoolEntry>, nextOrder: nat, uses: seq<TenantId>, ids: seq<TenantId>) {
    && nextOrder == |uses|
    && |live| == |ids|
    && (forall i | 0 <= i < |ids| :: Has(live, ids[i]))
    && (forall k | 0 <= k < |live| :: live[k].tenantId in ids && live[k].tenantId in uses
                                      && live[k].lastUsedOrder == LastUse(uses, live[k].tenantId))
  }

  lemma TracksIds(live: seq<PoolEntry>, n: nat, uses: seq<TenantId>, ids: seq<TenantId>, id: TenantId)
    requires Tracks(live, n, uses, ids)
    ensures Has(live, id) <==> id in ids
  {
    if Has(live, id) {
      assert live[IndexOf(live, id)].tenantId == id;
    }
  }

  /** A use of a live tenant, by lookup or by registering again. */
  lemma UseTracked(live: seq<PoolEntry>, n: nat, uses: seq<TenantId>, e: PoolEntry)
    requires UniqueTenants(live) && Tracks(live, n, uses, MostRecent(uses)) && Has(live, e.tenantId) && e.lastUsedOrder == n
    ensures Tracks(live[IndexOf(live, e.tenantId) := e], n + 1, uses + [e.tenantId], MostRecent(uses + [e.tenantId]))
  {
    var x, now := e.tenantId, live[IndexOf(live, e.tenantId) := e];
    TracksIds(live, n, uses, MostRecent(uses), x);
    TopHit(uses, x);
    var ids := MostRecent(uses + [x]);
    forall i | 0 <= i < |ids| ensures Has(now, ids[i]) {
      assert ids[i] in MostRecent(uses);
      TracksIds(live, n, uses, MostRecent(uses), ids[i]);
      assert now[IndexOf(live, ids[i])].tenantId == ids[i];
    }
    forall k | 0 <= k < |now| ensures now[k].lastUsedOrder == LastUse(uses + [x], now[k].tenantId) {
      OneMoreUse(uses, x, now[k].tenantId);
    }
  }

  /** A tenant that was not live takes a free place. */
  lemma NewTracked(live: seq<PoolEntry>, n: nat, uses: seq<TenantId>, ids: seq<TenantId>, e: PoolEntry)
    requires Tracks(live, n, uses, ids) && !Has(live, e.tenantId) && e.lastUsedOrder == n
    ensures Tracks(live + [e], n + 1, uses + [e.tenantId], [e.tenantId] + ids)
  {
    var x, now, ids' := e.tenantId, live + [e], [e.tenantId] + ids;
    forall i | 0 <= i < |ids'| ensures Has(now, ids'[i]) {
      assert now[if i == 0 then |live| else IndexOf(live, ids[i - 1])].tenantId == ids'[i];
    }
    forall k | 0 <= k < |now| ensures now[k].tenantId in ids' && now[k].lastUsedOrder == LastUse(uses + [x], now[k].tenantId) {
      OneMoreUse(uses, x, now[k].tenantId);
      assert k < |live| ==> IndexOf(live, live[k].tenantId) <= k;
    }
  }

  /** The scan finds the least recently used of the live tenants. */
  lemma VictimIsLast(live: seq<PoolEntry>, n: nat, uses: seq<TenantId>, ids: seq<TenantId>)
    requires Tracks(live, n, uses, ids) && Ordered(uses, ids) && ids != []
    ensures live[LruIndex(live)].tenantId == ids[|ids| - 1]
  {
    var v, k := LruIndex(live), IndexOf(live, ids[|ids| - 1]);
    var last := |ids| - 1;
    assert Has(live, ids[last]);
    assert live[v].lastUsedOrder <= live[k].lastUsedOrder == LastUse(uses, ids[last]);
    var q :| 0 <= q < |ids| && ids[q] == live[v].tenantId;
    assert LastUse(uses, ids[q]) <= LastUse(uses, ids[last]);
  }

  lemma EvictHas(live: seq<PoolEntry>, v: nat, id: TenantId)
    requires v < |live| && Has(live, id) && live[v].tenantId != id
    ensures Has(Without(live, v), id)
  {
    var k := IndexOf(live, id);
    assert Without(live, v)[if k < v then k else k - 1].tenantId == id;
  }

  lemma EvictMember(live: seq<PoolEntry>, ids: seq<TenantId>, v: nat, k: nat)
    requires UniqueTenants(live) && v < |live| && k < |live| && k != v && live[k].tenantId in ids
    requires ids != [] && live[v].tenantId == ids[|ids| - 1]
    ensures live[k].tenantId in ids[..|ids| - 1]
  {
    var j :| 0 <= j < |ids| && ids[j] == live[k].tenantId;
    assert live[if k < v then k else v].tenantId != live[if k < v then v else k].tenantId;
    assert ids[..|ids| - 1][j] == ids[j];
  }

  lemma EvictTracked(live: seq<PoolEntry>, n: nat, uses: seq<TenantId>, ids: seq<TenantId>, v: nat)
    requires UniqueTenants(live) && Tracks(live, n, uses, ids) && Distinct(ids)
    requires ids != [] && v < |live| && live[v].tenantId == ids[|ids| - 1]
    ensures Tracks(Without(live, v), n, uses, ids[..|ids| - 1])
  {
    var now, rest := Without(live, v), ids[..|ids| - 1];
    forall i | 0 <= i < |rest| ensures Has(now, rest[i]) {
      assert rest[i] == ids[i];
      EvictHas(live, v, ids[i]);
    }
    forall k | 0 <= k < |now| ensures now[k].tenantId in rest && now[k].tenantId in uses && now[k].lastUsedOrder == LastUse(uses, now[k].tenantId) {
      EvictMember(live, ids, v, if k < v then k else k + 1);
      assert now[k] == live[if k < v then k else k + 1];
    }
  }

  /** A registration that makes room by eviction. */
  lemma FullTracked(live: seq<PoolEntry>, n: nat, uses: seq<TenantId>, e: PoolEntry)
    requires UniqueTenants(live) && |live| == POOL_REGISTRY_MAX && Tracks(live, n, uses, MostRecent(uses))
    requires !Has(live, e.tenantId) && e.lastUsedOrder == n
    ensures Tracks(Without(live, LruIndex(live)) + [e], n + 1, uses + [e.tenantId], MostRecent(uses + [e.tenantId]))
    ensures !Has(Without(live, LruIndex(live)), e.tenantId)
  {
    var ids, v := MostRecent(uses), LruIndex(live);
    TracksIds(live, n, uses, ids, e.tenantId);
    TopMiss(uses, e.tenantId);
    RecentOrdered(uses);
    VictimIsLast(live, n, uses, ids);
    EvictTracked(live, n, uses, ids, v);
    TracksIds(Without(live, v), n, uses, ids[..|ids| - 1], e.tenantId);
    NewTracked(Without(live, v), n, uses, ids[..|ids| - 1], e);
  }

  /** What registering does to the live entries. */
  function LiveAfterSet(live: seq<PoolEntry>, e: PoolEntry): seq<PoolEntry> {
    if Has(live, e.tenantId) then live[IndexOf(live, e.tenantId) := e]
    else if |live| < POOL_REGISTRY_MAX then live + [e]
    else Without(live, LruIndex(live)) + [e]
  }

  lemma SetLive(r: Registry, id: TenantId, sql: Handle, slug: string)
    requires Has(r.live, id) || |r.live| < POOL_REGISTRY_MAX || !Has(Without(r.live, LruIndex(r.live)), id)
    ensures PoolSet(r, id, sql, slug).live == LiveAfterSet(r.live, PoolEntry(id, sql, slug, r.nextOrder))
    ensures PoolSet(r, id, sql, slug).nextOrder == r.nextOrder + 1
  {
    var s := Evicted(r, id);
    assert s.nextOrder == r.nextOrder;
    assert Displaced(s, id, sql).live == s.live && Displaced(s, id, sql).nextOrder == s.nextOrder;
  }

  lemma SetTracked(live: seq<PoolEntry>, n: nat, uses: seq<TenantId>, e: PoolEntry)
    requires UniqueTenants(live) && |live| <= POOL_REGISTRY_MAX && Tracks(live, n, uses, MostRecent(uses)) && e.lastUsedOrder == n
    ensures Tracks(LiveAfterSet(live, e), n + 1, uses + [e.tenantId], MostRecent(uses + [e.tenantId]))
    ensures Has(live, e.tenantId) || |live| < POOL_REGISTRY_MAX || !Has(Without(live, LruIndex(live)), e.tenantId)
  {
    TracksIds(live, n, uses, MostRecent(uses), e.tenantId);
    if Has(live, e.tenantId) {
      UseTracked(live, n, uses, e);
    } else if |live| < POOL_REGISTRY_MAX {
      TopMiss(uses, e.tenantId);
      NewTracked(live, n, uses, MostRecent(uses), e);
    } else {
      FullTracked(live, n, uses, e);
    }
  }

  /** The live tenants are the most recently used ones, and every stamp is the position of a last use. */
  lemma {:induction false} LruRefinesMoveToFront(events: seq<Event>)
    requires OnlyUses(events) && LegalFrom(EMPTY, events)
    ensures var r := RunFrom(EMPTY, events);
            Tracks(r.live, r.nextOrder, Uses(events), MostRecent(Uses(events))) &&
            forall id :: Has(r.live, id) <==> id in MostRecent(Uses(events))
  {
    if events != [] {
      var before, e := events[..|events| - 1], events[|events| - 1];
      LruRefinesMoveToFront(before);
      Conservation(before, 0);
      var r := RunFrom(EMPTY, before);
      match e
      case Get(id) =>
        if Has(r.live, id) {
          UseTracked(r.live, r.nextOrder, Uses(before), EntryOf(r.live, id).(lastUsedOrder := r.nextOrder));
        }
      case Set(id, sql, slug) =>
        SetTracked(r.live, r.nextOrder, Uses(before), PoolEntry(id, sql, slug, r.nextOrder));
        SetLive(r, id, sql, slug);
    }
    var r := RunFrom(EMPTY, events);
    forall id ensures Has(r.live, id) <==> id in MostRecent(Uses(events)) {
      TracksIds(r.live, r.nextOrder, Uses(events), MostRecent(Uses(events)), id);
    }
  }
}
