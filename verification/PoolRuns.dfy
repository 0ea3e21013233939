/**
  What every run of the pool registry keeps: no pool is lost or ended twice, the bounds hold
  between steps, the eviction order is that of a move-to-front list, and the shutdown latch
  leaves nothing open unless a registration lands behind it.
*/
module PoolRuns {
  import opened Wrappers
  import opened PoolRegistry

  datatype Event =
    | Get(tenantId: TenantId)
    | Set(tenantId: TenantId, sql: Handle, slug: string)
    | OpenControl(sql: Handle)
    | Fire(drainId: nat)
    | DrainNow
    | Teardown(match_: Match)
    | Close

  /** How often a pool occurs in a list. */
  function Count(handles: seq<Handle>, h: Handle): nat { CountIn(handles, {h}) }

  /** How often a pool is held: live, pending, as the control pool, or already ended. */
  function Total(r: Registry, h: Handle): nat {
    Count(Sqls(r.live), h) + Count(PendingSqls(r.pending), h) + Count(r.ended, h) + (if r.control == Some(h) then 1 else 0)
  }

  /** What the callers guarantee: a registered pool was just opened, and only an armed timer fires. */
  predicate Legal(r: Registry, e: Event) {
    match e
    case Set(_, sql, _) => Total(r, sql) == 0
    case OpenControl(sql) => Total(r, sql) == 0 && r.control.None?
    case Fire(id) => id in r.timers
    case _ => true
  }

  function Step(r: Registry, e: Event): Registry
    requires Legal(r, e)
  {
    match e
    case Get(id) => Got(r, id)
    case Set(id, sql, slug) => PoolSet(r, id, sql, slug)
    case OpenControl(sql) => r.(control := Some(sql))
    case Fire(id) => Fired(r, id)
    case DrainNow => Drained(r)
    case Teardown(m) => TornDown(r, m)
    case Close => Closed(r)
  }

  /** An illegal event does not happen. */
  function RunFrom(r: Registry, events: seq<Event>): Registry {
    if events == [] then r
    else
      var before := RunFrom(r, events[..|events| - 1]);
      var e := events[|events| - 1];
      if Legal(before, e) then Step(before, e) else before
  }

  predicate LegalFrom(r: Registry, events: seq<Event>) {
    events == [] ||
    (LegalFrom(r, events[..|events| - 1]) && Legal(RunFrom(r, events[..|events| - 1]), events[|events| - 1]))
  }

  function Given(events: seq<Event>): seq<Handle> {
    if events == [] then []
    else
      var e := events[|events| - 1];
      Given(events[..|events| - 1]) + (if e.Set? || e.OpenControl? then [e.sql] else [])
  }

  // ---------------------------------------------------------------------------------------------
  // The invariant
  // ---------------------------------------------------------------------------------------------

  ghost predicate UniqueTenants(live: seq<PoolEntry>) {
    forall i, j | 0 <= i < j < |live| :: live[i].tenantId != live[j].tenantId
  }

  ghost predicate Ascending(pending: seq<PendingDrain>) {
    forall i, j | 0 <= i < j < |pending| :: pending[i].id < pending[j].id
  }

  /** One armed timer for each pending drain, holding that drain's pool, and no other timer. */
  ghost predicate TimersMatch(pending: seq<PendingDrain>, timers: map<nat, Handle>) {
    && (forall i | 0 <= i < |pending| :: pending[i].id in timers && timers[pending[i].id] == pending[i].sql)
    && (forall id | id in timers :: PendingIndex(pending, id) < |pending|)
  }

  ghost predicate DrainsInOrder(r: Registry) {
    && Ascending(r.pending)
    && (forall i | 0 <= i < |r.pending| :: r.pending[i].id < r.nextDrainId)
    && TimersMatch(r.pending, r.timers)
  }

  ghost predicate StampsInOrder(live: seq<PoolEntry>, nextOrder: nat) {
    && (forall i | 0 <= i < |live| :: live[i].lastUsedOrder < nextOrder)
    && (forall i, j | 0 <= i < j < |live| :: live[i].lastUsedOrder != live[j].lastUsedOrder)
  }

  ghost predicate Good(r: Registry) {
    && UniqueTenants(r.live) && StampsInOrder(r.live, r.nextOrder) && DrainsInOrder(r)
    && |r.live| <= POOL_REGISTRY_MAX && |r.pending| <= PENDING_DRAIN_MAX
  }

  lemma CountOne(sql: Handle, h: Handle)
    ensures Count([sql], h) == if sql == h then 1 else 0
  {
    assert [sql][1..] == [];
    assert CountIn([sql], {h}) == (if sql in {h} then 1 else 0) + CountIn([], {h});
  }

  lemma {:induction false} SqlsWithout(live: seq<PoolEntry>, i: nat, h: Handle)
    requires i < |live|
    ensures Count(Sqls(live), h) == Count(Sqls(Without(live, i)), h) + Count([live[i].sql], h)
  {
    CountOne(live[i].sql, h);
    if i == 0 {
      assert Without(live, 0) == live[1..];
    } else {
      SqlsWithout(live[1..], i - 1, h);
      assert Without(live, i)[1..] == Without(live[1..], i - 1);
    }
  }

  lemma SqlsUpdate(live: seq<PoolEntry>, i: nat, e: PoolEntry, h: Handle)
    requires i < |live|
    ensures Count(Sqls(live[i := e]), h) == Count(Sqls(live), h) - Count([live[i].sql], h) + Count([e.sql], h)
  {
    SqlsWithout(live, i, h);
    SqlsWithout(live[i := e], i, h);
    assert Without(live[i := e], i) == Without(live, i);
  }

  lemma {:induction false} PendingSqlsWithout(pending: seq<PendingDrain>, i: nat, h: Handle)
    requires i < |pending|
    ensures Count(PendingSqls(pending), h) == Count(PendingSqls(Without(pending, i)), h) + Count([pending[i].sql], h)
  {
    CountOne(pending[i].sql, h);
    if i == 0 {
      assert Without(pending, 0) == pending[1..];
    } else {
      PendingSqlsWithout(pending[1..], i - 1, h);
      assert Without(pending, i)[1..] == Without(pending[1..], i - 1);
    }
  }

  /** A deferred drain holds one pool more. */
  lemma DeferredTotal(r: Registry, tenantId: TenantId, sql: Handle, slug: string, h: Handle)
    ensures Total(Deferred(r, tenantId, sql, slug), h) == Total(r, h) + Count([sql], h)
  {
    var p := PendingDrain(r.nextDrainId, tenantId, slug, sql);
    var grown := r.pending + [p];
    PendingSqlsAppend(r.pending, [p]);
    assert PendingSqls([p]) == [sql];
    CountInAppend(PendingSqls(r.pending), [sql], {h});
    if |grown| > PENDING_DRAIN_MAX {
      var k := |grown| - PENDING_DRAIN_MAX;
      assert grown == grown[..k] + grown[k..];
      PendingSqlsAppend(grown[..k], grown[k..]);
      CountInAppend(PendingSqls(grown[..k]), PendingSqls(grown[k..]), {h});
      CountInAppend(r.ended, PendingSqls(grown[..k]), {h});
    }
  }

  lemma WithoutAt(pending: seq<PendingDrain>, i: nat, k: nat)
    requires i < |pending| && k < |pending| - 1
    ensures Without(pending, i)[k] == pending[if k < i then k else k + 1]
  {
  }

  lemma AscendingWithout(pending: seq<PendingDrain>, i: nat)
    requires Ascending(pending) && i < |pending|
    ensures Ascending(Without(pending, i))
  {
    var rest := Without(pending, i);
    forall j, k | 0 <= j < k < |rest| ensures rest[j].id < rest[k].id {
      WithoutAt(pending, i, j);
      WithoutAt(pending, i, k);
    }
  }

  lemma TimerKept(pending: seq<PendingDrain>, timers: map<nat, Handle>, i: nat, k: nat)
    requires Ascending(pending) && TimersMatch(pending, timers) && i < |pending| && k < |pending| && k != i
    ensures pending[k].id in timers - {pending[i].id} && timers[pending[k].id] == pending[k].sql
  {
    assert pending[if k < i then k else i].id < pending[if k < i then i else k].id;
  }

  lemma TimerOwned(pending: seq<PendingDrain>, timers: map<nat, Handle>, i: nat, id: nat)
    requires TimersMatch(pending, timers) && i < |pending| && id in timers && id != pending[i].id
    ensures PendingIndex(Without(pending, i), id) < |pending| - 1
  {
    var k := PendingIndex(pending, id);
    WithoutAt(pending, i, if k < i then k else k - 1);
    assert Without(pending, i)[if k < i then k else k - 1].id == id;
  }

  /** Cancelling the timer of one removed drain leaves exactly the others armed. */
  lemma TimersWithout(pending: seq<PendingDrain>, timers: map<nat, Handle>, i: nat)
    requires Ascending(pending) && TimersMatch(pending, timers) && i < |pending|
    ensures Ascending(Without(pending, i)) && TimersMatch(Without(pending, i), timers - {pending[i].id})
  {
    var rest, armed := Without(pending, i), timers - {pending[i].id};
    AscendingWithout(pending, i);
    forall k | 0 <= k < |rest| ensures rest[k].id in armed && armed[rest[k].id] == rest[k].sql {
      WithoutAt(pending, i, k);
      TimerKept(pending, timers, i, if k < i then k else k + 1);
    }
    forall id | id in armed ensures PendingIndex(rest, id) < |rest| {
      TimerOwned(pending, timers, i, id);
    }
  }

  lemma OneDrain(p: PendingDrain)
    ensures PendingSqls([p]) == [p.sql] && TimerIds([p]) == {p.id}
  {
    assert [p][1..] == [];
    assert PendingSqls([p]) == [p.sql] + PendingSqls([]);
    forall id ensures id in TimerIds([p]) <==> id == p.id {
      assert p in [p];
    }
  }

  /** One drain too many: the oldest is performed, the others wait on. */
  lemma BoundedOrder(w: Registry)
    requires DrainsInOrder(w) && |w.pending| == PENDING_DRAIN_MAX + 1
    ensures DrainsInOrder(Bounded(w)) && Bounded(w).pending == w.pending[1..]
    ensures Bounded(w).ended == w.ended + [w.pending[0].sql]
  {
    var oldest := w.pending[0];
    assert w.pending[..1] == [oldest] && Without(w.pending, 0) == w.pending[1..];
    OneDrain(oldest);
    TimersWithout(w.pending, w.timers, 0);
  }

  lemma GrownOrder(r: Registry, tenantId: TenantId, sql: Handle, slug: string)
    requires DrainsInOrder(r)
    ensures DrainsInOrder(Grown(r, tenantId, sql, slug))
  {
    var w := Grown(r, tenantId, sql, slug);
    assert w.pending[|r.pending|].id == r.nextDrainId && forall i | 0 <= i < |r.pending| :: w.pending[i] == r.pending[i];
    assert Ascending(w.pending);
    forall id | id in w.timers ensures PendingIndex(w.pending, id) < |w.pending| {
      assert w.pending[if id == r.nextDrainId then |r.pending| else PendingIndex(r.pending, id)].id == id;
    }
  }

  /** … and the oldest one is ended first when there are too many. */
  lemma DeferredOrder(r: Registry, tenantId: TenantId, sql: Handle, slug: string)
    requires DrainsInOrder(r) && |r.pending| <= PENDING_DRAIN_MAX
    ensures var d, p := Deferred(r, tenantId, sql, slug), PendingDrain(r.nextDrainId, tenantId, slug, sql);
            && DrainsInOrder(d) && |d.pending| <= PENDING_DRAIN_MAX
            && (if |r.pending| < PENDING_DRAIN_MAX then d.pending == r.pending + [p] && d.ended == r.ended
                else d.pending == r.pending[1..] + [p] && d.ended == r.ended + [r.pending[0].sql])
  {
    GrownOrder(r, tenantId, sql, slug);
    if |r.pending| == PENDING_DRAIN_MAX {
      BoundedOrder(Grown(r, tenantId, sql, slug));
    }
  }

  lemma GotKeeps(r: Registry, id: TenantId, h: Handle)
    requires Good(r)
    ensures Good(Got(r, id)) && Total(Got(r, id), h) == Total(r, h)
  {
    if Has(r.live, id) {
      var i := IndexOf(r.live, id);
      SqlsUpdate(r.live, i, r.live[i].(lastUsedOrder := r.nextOrder), h);
    }
  }

  lemma EvictedTotal(r: Registry, id: TenantId, h: Handle)
    ensures Total(Evicted(r, id), h) == Total(r, h)
  {
    if |r.live| >= POOL_REGISTRY_MAX && !Has(r.live, id) {
      var i := LruIndex(r.live);
      SqlsWithout(r.live, i, h);
      DeferredTotal(r.(live := Without(r.live, i)), r.live[i].tenantId, r.live[i].sql, r.live[i].slug, h);
    }
  }

  lemma WithoutGood(live: seq<PoolEntry>, i: nat, nextOrder: nat)
    requires UniqueTenants(live) && StampsInOrder(live, nextOrder) && i < |live|
    ensures UniqueTenants(Without(live, i)) && StampsInOrder(Without(live, i), nextOrder)
  {
  }

  lemma EvictedOrder(r: Registry, id: TenantId)
    requires Good(r)
    ensures var d := Evicted(r, id); Good(d) && (Has(d.live, id) || |d.live| < POOL_REGISTRY_MAX)
  {
    if |r.live| >= POOL_REGISTRY_MAX && !Has(r.live, id) {
      var i := LruIndex(r.live);
      WithoutGood(r.live, i, r.nextOrder);
      DeferredOrder(r.(live := Without(r.live, i)), r.live[i].tenantId, r.live[i].sql, r.live[i].slug);
    }
  }

  lemma DisplacedKeeps(r: Registry, id: TenantId, sql: Handle, h: Handle)
    requires Good(r) && Total(r, sql) == 0
    ensures var d := Displaced(r, id, sql);
            && Good(d) && d.live == r.live
            && Total(d, h) == Total(r, h) + (if Has(r.live, id) then Count([EntryOf(r.live, id).sql], h) else 0)
  {
    if Has(r.live, id) {
      var e := EntryOf(r.live, id);
      SqlsWithout(r.live, IndexOf(r.live, id), sql);
      CountOne(e.sql, sql);
      DeferredTotal(r, id, e.sql, e.slug, h);
      DeferredOrder(r, id, e.sql, e.slug);
    }
  }

  lemma StoredKeeps(r: Registry, id: TenantId, sql: Handle, slug: string, h: Handle)
    requires Good(r) && (Has(r.live, id) || |r.live| < POOL_REGISTRY_MAX)
    ensures Good(Stored(r, id, sql, slug))
    ensures Total(Stored(r, id, sql, slug), h) ==
            Total(r, h) + Count([sql], h) - (if Has(r.live, id) then Count([EntryOf(r.live, id).sql], h) else 0)
  {
    var e := PoolEntry(id, sql, slug, r.nextOrder);
    if Has(r.live, id) {
      SqlsUpdate(r.live, IndexOf(r.live, id), e, h);
    } else {
      SqlsAppend(r.live, [e]);
      assert Sqls([e]) == [sql];
      CountInAppend(Sqls(r.live), [sql], {h});
    }
  }

  lemma PoolSetKeeps(r: Registry, id: TenantId, sql: Handle, slug: string, h: Handle)
    requires Good(r) && Total(r, sql) == 0
    ensures Good(PoolSet(r, id, sql, slug))
    ensures Total(PoolSet(r, id, sql, slug), h) == Total(r, h) + Count([sql], h)
  {
    EvictedTotal(r, id, h);
    EvictedTotal(r, id, sql);
    EvictedOrder(r, id);
    DisplacedKeeps(Evicted(r, id), id, sql, h);
    StoredKeeps(Displaced(Evicted(r, id), id, sql), id, sql, slug, h);
  }

  lemma FiredOrder(r: Registry, id: nat)
    requires Good(r) && id in r.timers
    ensures Good(Fired(r, id))
  {
    var i := PendingIndex(r.pending, id);
    TimersWithout(r.pending, r.timers, i);
    var rest := Fired(r, id).pending;
    forall k | 0 <= k < |rest| ensures rest[k].id < r.nextDrainId {
      WithoutAt(r.pending, i, k);
    }
  }

  lemma FiredTotal(r: Registry, id: nat, h: Handle)
    requires DrainsInOrder(r) && id in r.timers
    ensures Total(Fired(r, id), h) == Total(r, h)
  {
    PendingSqlsWithout(r.pending, PendingIndex(r.pending, id), h);
    CountInAppend(r.ended, [r.timers[id]], {h});
  }

  lemma {:induction false} LiveSplit(live: seq<PoolEntry>, m: Match, h: Handle)
    ensures Count(Sqls(live), h) == Count(Sqls(LiveHits(live, m, true)), h) + Count(Sqls(LiveHits(live, m, false)), h)
  {
    if live != [] {
      var hit := Hit(m, live[0].tenantId, live[0].slug);
      LiveSplit(live[1..], m, h);
      SqlsWithout(live, 0, h);
      assert Without(live, 0) == live[1..];
      SqlsWithout(LiveHits(live, m, hit), 0, h);
      assert Without(LiveHits(live, m, hit), 0) == LiveHits(live[1..], m, hit);
      assert LiveHits(live, m, !hit) == LiveHits(live[1..], m, !hit);
    }
  }

  lemma {:induction false} LiveHitsAreMembers(live: seq<PoolEntry>, m: Match)
    ensures |LiveHits(live, m, false)| <= |live|
    ensures forall j | 0 <= j < |LiveHits(live, m, false)| ::
              exists k :: 0 <= k < |live| && live[k] == LiveHits(live, m, false)[j]
  {
    if live != [] {
      var kept, rest := LiveHits(live, m, false), LiveHits(live[1..], m, false);
      LiveHitsAreMembers(live[1..], m);
      forall j | 0 <= j < |kept| ensures exists k :: 0 <= k < |live| && live[k] == kept[j] {
        var at := j - (|kept| - |rest|);
        if at < 0 {
          assert live[0] == kept[j];
        } else {
          var k :| 0 <= k < |live[1..]| && live[1..][k] == rest[at];
          assert live[k + 1] == kept[j];
        }
      }
    }
  }

  /** What survives a teardown keeps its order. */
  lemma {:induction false} LiveSurvivors(live: seq<PoolEntry>, m: Match, nextOrder: nat)
    requires UniqueTenants(live) && StampsInOrder(live, nextOrder)
    ensures UniqueTenants(LiveHits(live, m, false)) && StampsInOrder(LiveHits(live, m, false), nextOrder)
  {
    if live != [] {
      LiveSurvivors(live[1..], m, nextOrder);
      LiveHitsAreMembers(live[1..], m);
      var kept := LiveHits(live[1..], m, false);
      forall j | 0 <= j < |kept| ensures kept[j].tenantId != live[0].tenantId && kept[j].lastUsedOrder != live[0].lastUsedOrder {
        var k :| 0 <= k < |live[1..]| && live[1..][k] == kept[j];
        assert live[k + 1] == kept[j];
      }
    }
  }

  lemma {:induction false} PendingSplit(pending: seq<PendingDrain>, m: Match, h: Handle)
    ensures Count(PendingSqls(pending), h) ==
            Count(PendingSqls(PendingHits(pending, m, true)), h) + Count(PendingSqls(PendingHits(pending, m, false)), h)
  {
    if pending != [] {
      var hit := Hit(m, pending[0].tenantId, pending[0].slug);
      PendingSplit(pending[1..], m, h);
      PendingSqlsWithout(pending, 0, h);
      assert Without(pending, 0) == pending[1..];
      PendingSqlsWithout(PendingHits(pending, m, hit), 0, h);
      assert Without(PendingHits(pending, m, hit), 0) == PendingHits(pending[1..], m, hit);
      assert PendingHits(pending, m, !hit) == PendingHits(pending[1..], m, !hit);
    }
  }

  lemma {:induction false} HitsAreMembers(pending: seq<PendingDrain>, m: Match, hit: bool)
    ensures |PendingHits(pending, m, hit)| <= |pending|
    ensures forall p :: p in PendingHits(pending, m, hit) <==> p in pending && Hit(m, p.tenantId, p.slug) == hit
  {
    if pending != [] {
      HitsAreMembers(pending[1..], m, hit);
      assert pending == [pending[0]] + pending[1..];
    }
  }

  lemma {:induction false} HitsAscend(pending: seq<PendingDrain>, m: Match, hit: bool)
    requires Ascending(pending)
    ensures Ascending(PendingHits(pending, m, hit))
  {
    if pending != [] {
      HitsAscend(pending[1..], m, hit);
      HitsAreMembers(pending[1..], m, hit);
      var kept := PendingHits(pending[1..], m, hit);
      forall j | 0 <= j < |kept| ensures pending[0].id < kept[j].id {
        var k :| 0 <= k < |pending[1..]| && pending[1..][k] == kept[j];
      }
    }
  }

  /** A teardown leaves exactly the timers of the drains that survive it. */
  lemma SurvivingTimers(pending: seq<PendingDrain>, timers: map<nat, Handle>, m: Match)
    requires Ascending(pending) && TimersMatch(pending, timers)
    ensures TimersMatch(PendingHits(pending, m, false), timers - TimerIds(PendingHits(pending, m, true)))
  {
    HitsAreMembers(pending, m, true);
    HitsAreMembers(pending, m, false);
    var kept, gone := PendingHits(pending, m, false), PendingHits(pending, m, true);
    forall i | 0 <= i < |kept| ensures kept[i].id in timers && timers[kept[i].id] == kept[i].sql && kept[i].id !in TimerIds(gone) {
      assert kept[i] in pending;
      var k :| 0 <= k < |pending| && pending[k] == kept[i];
      forall q | q in gone ensures q.id != kept[i].id {
        var j :| 0 <= j < |pending| && pending[j] == q;
      }
    }
    forall id | id in timers - TimerIds(gone) ensures PendingIndex(kept, id) < |kept| {
      var p := pending[PendingIndex(pending, id)];
      assert p !in gone && p in kept;
    }
  }

  lemma TornDownOrder(r: Registry, m: Match)
    requires Good(r)
    ensures Good(TornDown(r, m))
  {
    LiveSurvivors(r.live, m, r.nextOrder);
    LiveHitsAreMembers(r.live, m);
    HitsAscend(r.pending, m, false);
    HitsAreMembers(r.pending, m, false);
    SurvivingTimers(r.pending, r.timers, m);
  }

  lemma TornDownTotal(r: Registry, m: Match, h: Handle)
    ensures Total(TornDown(r, m), h) == Total(r, h)
  {
    LiveSplit(r.live, m, h);
    PendingSplit(r.pending, m, h);
    CountInAppend(r.ended + Sqls(LiveHits(r.live, m, true)), PendingSqls(PendingHits(r.pending, m, true)), {h});
    CountInAppend(r.ended, Sqls(LiveHits(r.live, m, true)), {h});
  }

  lemma {:induction false} LiveHitsExact(live: seq<PoolEntry>, m: Match, hit: bool, e: PoolEntry)
    ensures e in LiveHits(live, m, hit) <==> e in live && Hit(m, e.tenantId, e.slug) == hit
  {
    if live != [] {
      LiveHitsExact(live[1..], m, hit, e);
      assert live == [live[0]] + live[1..];
    }
  }

  lemma {:induction false} PendingHitsExact(pending: seq<PendingDrain>, m: Match, hit: bool, p: PendingDrain)
    ensures p in PendingHits(pending, m, hit) <==> p in pending && Hit(m, p.tenantId, p.slug) == hit
  {
    if pending != [] {
      PendingHitsExact(pending[1..], m, hit, p);
      assert pending == [pending[0]] + pending[1..];
    }
  }

  /** A teardown takes out exactly what matches its id or its slug, live or pending, and its pools are ended. */
  lemma TeardownIsExact(r: Registry, m: Match, e: PoolEntry, p: PendingDrain)
    ensures e in TornDown(r, m).live <==> e in r.live && !Hit(m, e.tenantId, e.slug)
    ensures p in TornDown(r, m).pending <==> p in r.pending && !Hit(m, p.tenantId, p.slug)
    ensures |TornDown(r, m).ended| - |r.ended| == (|r.live| - |TornDown(r, m).live|) + (|r.pending| - |TornDown(r, m).pending|)
  {
    LiveHitsExact(r.live, m, false, e);
    PendingHitsExact(r.pending, m, false, p);
    HitCounts(r.live, r.pending, m);
    SqlsLength(LiveHits(r.live, m, true));
    PendingSqlsLength(PendingHits(r.pending, m, true));
  }

  lemma {:induction false} HitCounts(live: seq<PoolEntry>, pending: seq<PendingDrain>, m: Match)
    ensures |LiveHits(live, m, true)| + |LiveHits(live, m, false)| == |live|
    ensures |PendingHits(pending, m, true)| + |PendingHits(pending, m, false)| == |pending|
    decreases |live| + |pending|
  {
    if live != [] {
      HitCounts(live[1..], pending, m);
    } else if pending != [] {
      HitCounts(live, pending[1..], m);
    }
  }

  lemma DrainedOrder(r: Registry)
    requires Good(r)
    ensures Good(Drained(r)) && Drained(r).timers == map[]
  {
    forall id | id in r.timers ensures id in TimerIds(r.pending) {
      assert r.pending[PendingIndex(r.pending, id)] in r.pending;
    }
  }

  lemma DrainedTotal(r: Registry, h: Handle)
    ensures Total(Drained(r), h) == Total(r, h)
  {
    CountInAppend(r.ended, PendingSqls(r.pending), {h});
    assert Count([], h) == 0;
  }

  lemma ClosedTotal(r: Registry, h: Handle)
    ensures Total(Closed(r), h) == Total(r, h) == Count(Closed(r).ended, h)
  {
    DrainedTotal(r, h);
    var d, controls := Drained(r), if r.control.Some? then [r.control.value] else [];
    CountInAppend(d.ended + Sqls(r.live), controls, {h});
    CountInAppend(d.ended, Sqls(r.live), {h});
    assert Count([], h) == 0;
    if r.control.Some? {
      CountOne(r.control.value, h);
    }
  }

  lemma StepKeeps(r: Registry, e: Event, h: Handle)
    requires Good(r) && Legal(r, e)
    ensures Good(Step(r, e))
    ensures Total(Step(r, e), h) == Total(r, h) + (if e.Set? || e.OpenControl? then Count([e.sql], h) else 0)
  {
    match e
    case Get(id) => GotKeeps(r, id, h);
    case Set(id, sql, slug) => PoolSetKeeps(r, id, sql, slug, h);
    case Fire(id) => FiredOrder(r, id); FiredTotal(r, id, h);
    case Teardown(m) => TornDownOrder(r, m); TornDownTotal(r, m, h);
    case DrainNow => DrainedOrder(r); DrainedTotal(r, h);
    case Close => DrainedOrder(r); ClosedTotal(r, h);
    case OpenControl(sql) => CountOne(sql, h);
  }

  /**
    Pool conservation over every interleaving: each pool ever given is held exactly as often as it
    was given, which is at most once. So it is live, pending, the control pool or ended, in exactly
    one of these, and end() is never called on it twice. The bounds hold between steps.
  */
  lemma {:induction false} Conservation(events: seq<Event>, h: Handle)
    requires LegalFrom(EMPTY, events)
    ensures Good(RunFrom(EMPTY, events))
    ensures Total(RunFrom(EMPTY, events), h) == Count(Given(events), h) <= 1
    ensures |RunFrom(EMPTY, events).live| <= 16 && |RunFrom(EMPTY, events).pending| <= 4
  {
    if events != [] {
      var before, e := events[..|events| - 1], events[|events| - 1];
      Conservation(before, h);
      StepKeeps(RunFrom(EMPTY, before), e, h);
      CountInAppend(Given(before), if e.Set? || e.OpenControl? then [e.sql] else [], {h});
    }
  }

  // ---------------------------------------------------------------------------------------------
  // Whose a pool is
  // ---------------------------------------------------------------------------------------------

  /** Some event registered this pool for this tenant under this slug. */
  ghost predicate WasSet(events: seq<Event>, id: TenantId, sql: Handle, slug: string) {
    exists k :: 0 <= k < |events| && events[k] == Set(id, sql, slug)
  }

  /** Every live and every deferred pool carries the tenant and the slug it was registered with. */
  ghost predicate Labelled(r: Registry, events: seq<Event>) {
    && (forall i | 0 <= i < |r.live| :: WasSet(events, r.live[i].tenantId, r.live[i].sql, r.live[i].slug))
    && (forall i | 0 <= i < |r.pending| :: WasSet(events, r.pending[i].tenantId, r.pending[i].sql, r.pending[i].slug))
  }

  lemma WasSetLater(events: seq<Event>, e: Event, id: TenantId, sql: Handle, slug: string)
    requires WasSet(events, id, sql, slug)
    ensures WasSet(events + [e], id, sql, slug)
  {
    var k :| 0 <= k < |events| && events[k] == Set(id, sql, slug);
    assert (events + [e])[k] == events[k];
  }

  lemma LabelledLater(r: Registry, events: seq<Event>, e: Event)
    requires Labelled(r, events)
    ensures Labelled(r, events + [e])
  {
    forall i | 0 <= i < |r.live| ensures WasSet(events + [e], r.live[i].tenantId, r.live[i].sql, r.live[i].slug) {
      WasSetLater(events, e, r.live[i].tenantId, r.live[i].sql, r.live[i].slug);
    }
    forall i | 0 <= i < |r.pending| ensures WasSet(events + [e], r.pending[i].tenantId, r.pending[i].sql, r.pending[i].slug) {
      WasSetLater(events, e, r.pending[i].tenantId, r.pending[i].sql, r.pending[i].slug);
    }
  }

  lemma DeferredLabelled(r: Registry, events: seq<Event>, id: TenantId, sql: Handle, slug: string)
    requires Labelled(r, events) && WasSet(events, id, sql, slug)
    ensures Labelled(Deferred(r, id, sql, slug), events)
  {
    var w, d := Grown(r, id, sql, slug), Deferred(r, id, sql, slug);
    assert forall i | 0 <= i < |w.pending| :: WasSet(events, w.pending[i].tenantId, w.pending[i].sql, w.pending[i].slug);
  }

  lemma EvictedLabelled(r: Registry, events: seq<Event>, id: TenantId)
    requires Labelled(r, events)
    ensures Labelled(Evicted(r, id), events)
  {
    if |r.live| >= POOL_REGISTRY_MAX && !Has(r.live, id) {
      var i := LruIndex(r.live);
      var rest := r.(live := Without(r.live, i));
      assert forall k | 0 <= k < |rest.live| :: rest.live[k] == r.live[if k < i then k else k + 1];
      DeferredLabelled(rest, events, r.live[i].tenantId, r.live[i].sql, r.live[i].slug);
    }
  }

  lemma SetLabelled(r: Registry, events: seq<Event>, id: TenantId, sql: Handle, slug: string)
    requires Labelled(r, events)
    ensures Labelled(PoolSet(r, id, sql, slug), events + [Set(id, sql, slug)])
  {
    var all := events + [Set(id, sql, slug)];
    assert all[|events|] == Set(id, sql, slug);
    EvictedLabelled(r, events, id);
    var s := Evicted(r, id);
    if Has(s.live, id) && EntryOf(s.live, id).sql != sql {
      assert EntryOf(s.live, id).tenantId == id;
      DeferredLabelled(s, events, id, EntryOf(s.live, id).sql, EntryOf(s.live, id).slug);
    }
    LabelledLater(Displaced(s, id, sql), events, Set(id, sql, slug));
  }

  lemma TornDownLabelled(r: Registry, events: seq<Event>, m: Match)
    requires Labelled(r, events)
    ensures Labelled(TornDown(r, m), events)
  {
    LiveHitsAreMembers(r.live, m);
    HitsAreMembers(r.pending, m, false);
    var now := TornDown(r, m);
    forall i | 0 <= i < |now.live| ensures WasSet(events, now.live[i].tenantId, now.live[i].sql, now.live[i].slug) {
      var k :| 0 <= k < |r.live| && r.live[k] == now.live[i];
    }
    forall i | 0 <= i < |now.pending| ensures WasSet(events, now.pending[i].tenantId, now.pending[i].sql, now.pending[i].slug) {
      assert now.pending[i] in r.pending;
    }
  }

  lemma StepLabelled(r: Registry, events: seq<Event>, e: Event)
    requires Labelled(r, events) && Legal(r, e)
    ensures Labelled(Step(r, e), events + [e])
  {
    match e
    case Set(id, sql, slug) => SetLabelled(r, events, id, sql, slug);
    case Teardown(m) =>
      TornDownLabelled(r, events, m);
      LabelledLater(TornDown(r, m), events, e);
    case _ => LabelledLater(Step(r, e), events, e);
  }

  lemma {:induction false} RunLabelled(events: seq<Event>)
    requires LegalFrom(EMPTY, events)
    ensures Labelled(RunFrom(EMPTY, events), events)
  {
    if events != [] {
      var before, e := events[..|events| - 1], events[|events| - 1];
      RunLabelled(before);
      assert before + [e] == events;
      StepLabelled(RunFrom(EMPTY, before), before, e);
    }
  }

  lemma {:induction false} SetIsGiven(events: seq<Event>, i: nat)
    requires i < |events| && events[i].Set?
    ensures Count(Given(events), events[i].sql) >= 1
  {
    var rest, e := events[..|events| - 1], events[|events| - 1];
    var more := if e.Set? || e.OpenControl? then [e.sql] else [];
    CountInAppend(Given(rest), more, {events[i].sql});
    if i < |rest| {
      SetIsGiven(rest, i);
    } else {
      CountOne(e.sql, e.sql);
    }
  }

  /** A pool given at most once was registered by one event. */
  lemma {:induction false} SetOnce(events: seq<Event>, i: nat, j: nat)
    requires i < |events| && j < |events| && events[i].Set? && events[j].Set? && events[i].sql == events[j].sql
    requires Count(Given(events), events[i].sql) <= 1
    ensures i == j
  {
    var rest, e := events[..|events| - 1], events[|events| - 1];
    var sql := events[i].sql;
    CountInAppend(Given(rest), if e.Set? || e.OpenControl? then [e.sql] else [], {sql});
    CountOne(sql, sql);
    if i < |rest| && j < |rest| {
      SetOnce(rest, i, j);
    } else if i < |rest| {
      SetIsGiven(rest, i);
    } else if j < |rest| {
      SetIsGiven(rest, j);
    }
  }

  lemma SameLabel(events: seq<Event>, sql: Handle, id: TenantId, slug: string, id': TenantId, slug': string)
    requires LegalFrom(EMPTY, events) && WasSet(events, id, sql, slug) && WasSet(events, id', sql, slug')
    ensures id == id' && slug == slug'
  {
    Conservation(events, sql);
    var i :| 0 <= i < |events| && events[i] == Set(id, sql, slug);
    var j :| 0 <= j < |events| && events[j] == Set(id', sql, slug');
    SetOnce(events, i, j);
  }

  ghost predicate InLive(r: Registry, sql: Handle) { exists i :: 0 <= i < |r.live| && r.live[i].sql == sql }

  ghost predicate InPending(r: Registry, sql: Handle) { exists i :: 0 <= i < |r.pending| && r.pending[i].sql == sql }

  /** A pool the run registered for this tenant under this slug. */
  lemma TeardownEnds(events: seq<Event>, id: TenantId, sql: Handle, slug: string, m: Match)
    requires LegalFrom(EMPTY, events) && WasSet(events, id, sql, slug)
    ensures var r := RunFrom(EMPTY, events); var now := TornDown(r, m);
            if m.id == Some(id) || m.slug == Some(slug) then !InLive(now, sql) && !InPending(now, sql)
            else (InLive(now, sql) <==> InLive(r, sql)) && (InPending(now, sql) <==> InPending(r, sql))
  {
    var r := RunFrom(EMPTY, events);
    var now := TornDown(r, m);
    RunLabelled(events);
    forall e: PoolEntry | e in r.live && e.sql == sql ensures e.tenantId == id && e.slug == slug {
      SameLabel(events, sql, id, slug, e.tenantId, e.slug);
    }
    forall p: PendingDrain | p in r.pending && p.sql == sql ensures p.tenantId == id && p.slug == slug {
      SameLabel(events, sql, id, slug, p.tenantId, p.slug);
    }
    forall e: PoolEntry ensures e in now.live <==> e in r.live && !Hit(m, e.tenantId, e.slug) {
      LiveHitsExact(r.live, m, false, e);
    }
    forall p: PendingDrain ensures p in now.pending <==> p in r.pending && !Hit(m, p.tenantId, p.slug) {
      PendingHitsExact(r.pending, m, false, p);
    }
    MembersLive(r, now, sql);
    MembersPending(r, now, sql);
  }

  lemma MembersLive(r: Registry, now: Registry, sql: Handle)
    ensures InLive(r, sql) <==> exists e: PoolEntry :: e in r.live && e.sql == sql
    ensures InLive(now, sql) <==> exists e: PoolEntry :: e in now.live && e.sql == sql
  {
    if InLive(r, sql) {
      var i :| 0 <= i < |r.live| && r.live[i].sql == sql;
      assert r.live[i] in r.live;
    }
    if InLive(now, sql) {
      var i :| 0 <= i < |now.live| && now.live[i].sql == sql;
      assert now.live[i] in now.live;
    }
  }

  lemma MembersPending(r: Registry, now: Registry, sql: Handle)
    ensures InPending(r, sql) <==> exists p: PendingDrain :: p in r.pending && p.sql == sql
    ensures InPending(now, sql) <==> exists p: PendingDrain :: p in now.pending && p.sql == sql
  {
    if InPending(r, sql) {
      var i :| 0 <= i < |r.pending| && r.pending[i].sql == sql;
      assert r.pending[i] in r.pending;
    }
    if InPending(now, sql) {
      var i :| 0 <= i < |now.pending| && now.pending[i].sql == sql;
      assert now.pending[i] in now.pending;
    }
  }

  // ---------------------------------------------------------------------------------------------
  // The shutdown latch
  // ---------------------------------------------------------------------------------------------

  /** Nothing is open but, possibly, the control pool. */
  predicate Idle(r: Registry) { r.live == [] && r.pending == [] }

  /** closeAllPools sets the latch and ends every pool held so far, each exactly once, leaving no timer. */
  lemma CloseEndsEverything(events: seq<Event>, h: Handle)
    requires LegalFrom(EMPTY, events)
    ensures var r := Closed(RunFrom(EMPTY, events));
            && Idle(r) && Count(r.ended, h) == Count(Given(events), h)
            && r.closing && r.control.None? && r.timers == map[]
  {
    Conservation(events, h);
    DrainedOrder(RunFrom(EMPTY, events));
    ClosedTotal(RunFrom(EMPTY, events), h);
  }
}
