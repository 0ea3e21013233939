/**
  The bounded registry of tenant pools (modules/calendar/src/tenant-store.ts): a true LRU of at
  most 16 live pools, a deferred drain of at most 4 evicted ones, a teardown seam and a shutdown
  latch. The source's two JavaScript Maps are sequences in insertion order (section 24.1 of
  ECMA-262); an armed setTimeout is an entry of `timers` holding the pool its callback captured;
  every call of end() is appended to `ended`.
*/
module PoolRegistry {
  import opened Wrappers

  /** A tenant id is a uuid; it is represented by its number. */
  type TenantId = nat

  /** A postgres-js pool; its database is CatalogBinding's concern. */
  type Handle = nat

  const POOL_REGISTRY_MAX: nat := 16
  const PENDING_DRAIN_MAX: nat := 4

  datatype PoolEntry = PoolEntry(tenantId: TenantId, sql: Handle, slug: string, lastUsedOrder: nat)

  datatype PendingDrain = PendingDrain(id: nat, tenantId: TenantId, slug: string, sql: Handle)

  datatype Registry = Registry(
    live: seq<PoolEntry>,
    pending: seq<PendingDrain>,
    timers: map<nat, Handle>,
    nextOrder: nat,
    nextDrainId: nat,
    closing: bool,
    control: Option<Handle>,
    ended: seq<Handle>)

  const EMPTY := Registry([], [], map[], 0, 0, false, None, [])

  datatype Match = Match(id: Option<TenantId>, slug: Option<string>)

  // ---------------------------------------------------------------------------------------------
  // Specification functions
  // ---------------------------------------------------------------------------------------------

  /** Position of a tenant's entry, or |live| when it has none. */
  function IndexOf(live: seq<PoolEntry>, tenantId: TenantId): (i: nat)
    ensures i <= |live| && (forall j | 0 <= j < i :: live[j].tenantId != tenantId)
    ensures i < |live| ==> live[i].tenantId == tenantId
  {
    if live == [] || live[0].tenantId == tenantId then 0 else 1 + IndexOf(live[1..], tenantId)
  }

  predicate Has(live: seq<PoolEntry>, tenantId: TenantId) { IndexOf(live, tenantId) < |live| }

  function EntryOf(live: seq<PoolEntry>, tenantId: TenantId): PoolEntry
    requires Has(live, tenantId)
  {
    live[IndexOf(live, tenantId)]
  }

  /** First entry with the smallest recency stamp. */
  function LruIndex(live: seq<PoolEntry>): (i: nat)
    requires live != []
    ensures i < |live| && (forall j | 0 <= j < |live| :: live[i].lastUsedOrder <= live[j].lastUsedOrder)
    ensures forall j | 0 <= j < i :: live[i].lastUsedOrder < live[j].lastUsedOrder
  {
    if |live| == 1 then 0
    else
      var i := LruIndex(live[..|live| - 1]);
      if live[|live| - 1].lastUsedOrder < live[i].lastUsedOrder then |live| - 1 else i
  }

  function Without<T>(s: seq<T>, i: nat): seq<T>
    requires i < |s|
  {
    s[..i] + s[i + 1..]
  }

  function Sqls(live: seq<PoolEntry>): seq<Handle> {
    if live == [] then [] else [live[0].sql] + Sqls(live[1..])
  }

  function PendingSqls(pending: seq<PendingDrain>): seq<Handle> {
    if pending == [] then [] else [pending[0].sql] + PendingSqls(pending[1..])
  }

  function TimerIds(pending: seq<PendingDrain>): set<nat> { set p | p in pending :: p.id }

  /** A read is a use: the entry's stamp is refreshed. */
  function Got(r: Registry, tenantId: TenantId): Registry {
    if !Has(r.live, tenantId) then r
    else
      var i := IndexOf(r.live, tenantId);
      r.(live := r.live[i := r.live[i].(lastUsedOrder := r.nextOrder)], nextOrder := r.nextOrder + 1)
  }

  /** Overflowing drains are performed at once, oldest first, and their timers cancelled. */
  function Bounded(r: Registry): Registry {
    if |r.pending| <= PENDING_DRAIN_MAX then r
    else
      var over := r.pending[..|r.pending| - PENDING_DRAIN_MAX];
      r.(pending := r.pending[|over|..], timers := r.timers - TimerIds(over), ended := r.ended + PendingSqls(over))
  }

  /** A new pending drain with its armed timer, before the bound is enforced. */
  function Grown(r: Registry, tenantId: TenantId, sql: Handle, slug: string): Registry {
    r.(pending := r.pending + [PendingDrain(r.nextDrainId, tenantId, slug, sql)],
       timers := r.timers[r.nextDrainId := sql],
       nextDrainId := r.nextDrainId + 1)
  }

  function Deferred(r: Registry, tenantId: TenantId, sql: Handle, slug: string): Registry {
    Bounded(Grown(r, tenantId, sql, slug))
  }

  function Evicted(r: Registry, tenantId: TenantId): Registry {
    if |r.live| >= POOL_REGISTRY_MAX && !Has(r.live, tenantId) then
      var i := LruIndex(r.live);
      Deferred(r.(live := Without(r.live, i)), r.live[i].tenantId, r.live[i].sql, r.live[i].slug)
    else r
  }

  function Displaced(r: Registry, tenantId: TenantId, sql: Handle): Registry {
    if Has(r.live, tenantId) && EntryOf(r.live, tenantId).sql != sql then
      var e := EntryOf(r.live, tenantId);
      Deferred(r, tenantId, e.sql, e.slug)
    else r
  }

  function Stored(r: Registry, tenantId: TenantId, sql: Handle, slug: string): Registry {
    var e := PoolEntry(tenantId, sql, slug, r.nextOrder);
    r.(live := if Has(r.live, tenantId) then r.live[IndexOf(r.live, tenantId) := e] else r.live + [e],
       nextOrder := r.nextOrder + 1)
  }

  function PoolSet(r: Registry, tenantId: TenantId, sql: Handle, slug: string): Registry {
    Stored(Displaced(Evicted(r, tenantId), tenantId, sql), tenantId, sql, slug)
  }

  /** The deferred drain's own timer; only an armed timer fires. */
  function PendingIndex(pending: seq<PendingDrain>, id: nat): (i: nat)
    ensures i <= |pending| && (i < |pending| ==> pending[i].id == id)
    ensures forall j | 0 <= j < i :: pending[j].id != id
  {
    if pending == [] || pending[0].id == id then 0 else 1 + PendingIndex(pending[1..], id)
  }

  /** The callback deletes its map entry, if it is still there, and ends the pool it captured. */
  function Fired(r: Registry, id: nat): Registry
    requires id in r.timers
  {
    var i := PendingIndex(r.pending, id);
    r.(pending := if i < |r.pending| then Without(r.pending, i) else r.pending,
       timers := r.timers - {id}, ended := r.ended + [r.timers[id]])
  }

  function Drained(r: Registry): Registry {
    r.(pending := [], timers := r.timers - TimerIds(r.pending), ended := r.ended + PendingSqls(r.pending))
  }

  function Closed(r: Registry): Registry {
    var d := Drained(r);
    d.(closing := true, live := [], control := None,
       ended := d.ended + Sqls(r.live) + (if r.control.Some? then [r.control.value] else []))
  }

  predicate Hit(m: Match, id: TenantId, slug: string) { m.id == Some(id) || m.slug == Some(slug) }

  function LiveHits(live: seq<PoolEntry>, m: Match, hit: bool): seq<PoolEntry> {
    if live == [] then []
    else (if Hit(m, live[0].tenantId, live[0].slug) == hit then [live[0]] else []) + LiveHits(live[1..], m, hit)
  }

  function PendingHits(pending: seq<PendingDrain>, m: Match, hit: bool): seq<PendingDrain> {
    if pending == [] then []
    else (if Hit(m, pending[0].tenantId, pending[0].slug) == hit then [pending[0]] else []) + PendingHits(pending[1..], m, hit)
  }

  function TornDown(r: Registry, m: Match): Registry {
    var gone := PendingHits(r.pending, m, true);
    r.(live := LiveHits(r.live, m, false), pending := PendingHits(r.pending, m, false), timers := r.timers - TimerIds(gone),
       ended := r.ended + Sqls(LiveHits(r.live, m, true)) + PendingSqls(gone))
  }

  // ---------------------------------------------------------------------------------------------
  // The store, updated in place
  // ---------------------------------------------------------------------------------------------

  datatype PoolDrainCounts = PoolDrainCounts(live: nat, evicted: nat, control: nat, failed: nat)

  function CountIn(handles: seq<Handle>, rejecting: set<Handle>): nat {
    if handles == [] then 0 else (if handles[0] in rejecting then 1 else 0) + CountIn(handles[1..], rejecting)
  }

  class TenantStore {
    var poolMap: seq<PoolEntry>
    var pendingDrains: seq<PendingDrain>
    var timers: map<nat, Handle>
    var nextOrder: nat
    var nextDrainId: nat
    var closing: bool
    var controlSql: Option<Handle>
    var ended: seq<Handle>

    function View(): Registry
      reads this
    {
      Registry(poolMap, pendingDrains, timers, nextOrder, nextDrainId, closing, controlSql, ended)
    }

    constructor ()
      ensures View() == EMPTY
    {
      poolMap, pendingDrains, timers, nextOrder, nextDrainId := [], [], map[], 0, 0;
      closing, controlSql, ended := false, None, [];
    }

    method GetEntry(tenantId: TenantId) returns (entry: Option<PoolEntry>)
      modifies this`poolMap, this`nextOrder
      ensures View() == Got(old(View()), tenantId)
      ensures entry == if Has(poolMap, tenantId) then Some(EntryOf(poolMap, tenantId)) else None
    {
      var i := IndexOf(poolMap, tenantId);
      if i == |poolMap| {
        return None;
      }
      poolMap := poolMap[i := poolMap[i].(lastUsedOrder := nextOrder)];
      nextOrder := nextOrder + 1;
      assert poolMap[i].tenantId == tenantId;
      assert IndexOf(poolMap, tenantId) == i;
      entry := Some(poolMap[i]);
    }

    method EnforcePendingDrainBound()
      modifies this`pendingDrains, this`timers, this`ended
      ensures View() == Bounded(old(View()))
    {
      ghost var was := pendingDrains;
      ghost var k := 0;
      while |pendingDrains| > PENDING_DRAIN_MAX
        invariant k <= |was| && pendingDrains == was[k..]
        invariant k == 0 || |pendingDrains| >= PENDING_DRAIN_MAX
        invariant timers == old(timers) - TimerIds(was[..k])
        invariant ended == old(ended) + PendingSqls(was[..k])
      {
        var oldest := pendingDrains[0];
        timers := timers - {oldest.id};
        pendingDrains := pendingDrains[1..];
        ended := ended + [oldest.sql];
        assert was[..k + 1] == was[..k] + [oldest];
        PendingSqlsAppend(was[..k], [oldest]);
        k := k + 1;
      }
      assert k == 0 ==> was[..k] == [];
    }

    method DeferDrain(tenantId: TenantId, sql: Handle, slug: string)
      modifies this`pendingDrains, this`timers, this`nextDrainId, this`ended
      ensures View() == Deferred(old(View()), tenantId, sql, slug)
    {
      var id := nextDrainId;
      nextDrainId := nextDrainId + 1;
      timers := timers[id := sql];
      pendingDrains := pendingDrains + [PendingDrain(id, tenantId, slug, sql)];
      EnforcePendingDrainBound();
    }

    /** setPool's first half: make room for a tenant that has no entry. */
    method EvictLruIfFull(tenantId: TenantId)
      modifies this`poolMap, this`pendingDrains, this`timers, this`nextDrainId, this`ended
      ensures View() == Evicted(old(View()), tenantId)
    {
      if |poolMap| < POOL_REGISTRY_MAX || IndexOf(poolMap, tenantId) < |poolMap| {
        return;
      }
      var live := poolMap;
      var lru := FindLru(live);
      poolMap := live[..lru] + live[lru + 1..];
      DeferDrain(live[lru].tenantId, live[lru].sql, live[lru].slug);
    }

    static method FindLru(live: seq<PoolEntry>) returns (lru: nat)
      requires live != []
      ensures lru == LruIndex(live)
    {
      lru := 0;
      for k := 1 to |live|
        invariant lru < k <= |live| && lru == LruIndex(live[..k])
      {
        assert live[..k + 1][..k] == live[..k];
        if live[k].lastUsedOrder < live[lru].lastUsedOrder {
          lru := k;
        }
      }
      assert live[..|live|] == live;
    }

    method SetPool(tenantId: TenantId, sql: Handle, slug: string)
      modifies this`poolMap, this`nextOrder, this`pendingDrains, this`timers, this`nextDrainId, this`ended
      ensures View() == PoolSet(old(View()), tenantId, sql, slug)
    {
      EvictLruIfFull(tenantId);
      var at := IndexOf(poolMap, tenantId);
      if at < |poolMap| && poolMap[at].sql != sql {
        DeferDrain(tenantId, poolMap[at].sql, poolMap[at].slug);
      }
      var e := PoolEntry(tenantId, sql, slug, nextOrder);
      poolMap := if at < |poolMap| then poolMap[at := e] else poolMap + [e];
      nextOrder := nextOrder + 1;
    }

    method DrainPendingNow() returns (drained: seq<Handle>)
      modifies this`pendingDrains, this`timers, this`ended
      ensures View() == Drained(old(View())) && drained == PendingSqls(old(pendingDrains))
    {
      var pending := pendingDrains;
      pendingDrains := [];
      drained := [];
      for i := 0 to |pending|
        invariant timers == old(timers) - TimerIds(pending[..i]) && ended == old(ended)
        invariant pendingDrains == [] && drained == PendingSqls(pending[..i])
      {
        assert pending[..i + 1] == pending[..i] + [pending[i]];
        PendingSqlsAppend(pending[..i], [pending[i]]);
        timers := timers - {pending[i].id};
        drained := drained + [pending[i].sql];
      }
      assert pending[..|pending|] == pending;
      ended := ended + drained;
    }

    /** `rejecting` are the pools whose end() the database will reject. */
    method CloseAllPools(rejecting: set<Handle>) returns (counts: PoolDrainCounts)
      modifies this`closing, this`poolMap, this`controlSql, this`pendingDrains, this`timers, this`ended
      ensures View() == Closed(old(View()))
      ensures counts.live == |old(poolMap)| && counts.evicted == |old(pendingDrains)|
      ensures counts.control == if old(controlSql).Some? then 1 else 0
      ensures |ended| == |old(ended)| + counts.live + counts.evicted + counts.control
      ensures counts.failed == CountIn(ended[|old(ended)|..], rejecting)
    {
      closing := true;
      var live := poolMap;
      poolMap := [];
      var control := controlSql;
      controlSql := None;
      var pending := DrainPendingNow();
      var liveSqls := [];
      for i := 0 to |live|
        invariant liveSqls == Sqls(live[..i])
        invariant View() == Drained(old(View())).(closing := true, live := [], control := None)
      {
        assert live[..i + 1] == live[..i] + [live[i]];
        SqlsAppend(live[..i], [live[i]]);
        liveSqls := liveSqls + [live[i].sql];
      }
      assert live[..|live|] == live;
      var controls := if control.Some? then [control.value] else [];
      ended := ended + liveSqls + controls;
      assert ended[|old(ended)|..] == pending + liveSqls + controls;
      CountInAppend(pending, liveSqls, rejecting);
      CountInAppend(pending + liveSqls, controls, rejecting);
      SqlsLength(live);
      PendingSqlsLength(old(pendingDrains));
      counts := PoolDrainCounts(|live|, |pending|, |controls|,
                                CountIn(liveSqls, rejecting) + CountIn(pending, rejecting) + CountIn(controls, rejecting));
    }

    /** evictTenantPools: the teardown seam of the admin routes. */
    method EvictTenantPools(m: Match) returns (count: nat)
      modifies this`poolMap, this`pendingDrains, this`timers, this`ended
      ensures View() == TornDown(old(View()), m)
      ensures |ended| == |old(ended)| + count
    {
      var kept, ending := SplitLive(poolMap, m);
      var waiting, armed, drained := SplitPending(pendingDrains, timers, m);
      poolMap, pendingDrains, timers := kept, waiting, armed;
      ended := ended + ending + drained;
      count := |ending| + |drained|;
    }

    /** The first loop: entries that match are removed and ended. */
    static method SplitLive(live: seq<PoolEntry>, m: Match) returns (kept: seq<PoolEntry>, ending: seq<Handle>)
      ensures kept == LiveHits(live, m, false) && ending == Sqls(LiveHits(live, m, true))
    {
      kept, ending := [], [];
      for i := 0 to |live|
        invariant kept == LiveHits(live[..i], m, false) && ending == Sqls(LiveHits(live[..i], m, true))
      {
        assert live[..i + 1] == live[..i] + [live[i]];
        LiveHitsAppend(live[..i], live[i], m, true);
        LiveHitsAppend(live[..i], live[i], m, false);
        if Hit(m, live[i].tenantId, live[i].slug) {
          SqlsAppend(LiveHits(live[..i], m, true), [live[i]]);
          assert [live[i]][1..] == [];
          ending := ending + [live[i].sql];
        } else {
          kept := kept + [live[i]];
        }
      }
      assert live[..|live|] == live;
    }

    /** The second loop: pending drains that match also lose their timers. */
    static method SplitPending(pending: seq<PendingDrain>, timers: map<nat, Handle>, m: Match)
      returns (kept: seq<PendingDrain>, armed: map<nat, Handle>, ending: seq<Handle>)
      ensures kept == PendingHits(pending, m, false) && ending == PendingSqls(PendingHits(pending, m, true))
      ensures armed == timers - TimerIds(PendingHits(pending, m, true))
    {
      kept, armed, ending := [], timers, [];
      for i := 0 to |pending|
        invariant kept == PendingHits(pending[..i], m, false) && ending == PendingSqls(PendingHits(pending[..i], m, true))
        invariant armed == timers - TimerIds(PendingHits(pending[..i], m, true))
      {
        assert pending[..i + 1] == pending[..i] + [pending[i]];
        PendingHitsAppend(pending[..i], pending[i], m, true);
        PendingHitsAppend(pending[..i], pending[i], m, false);
        if Hit(m, pending[i].tenantId, pending[i].slug) {
          PendingSqlsAppend(PendingHits(pending[..i], m, true), [pending[i]]);
          assert [pending[i]][1..] == [];
          armed := armed - {pending[i].id};
          ending := ending + [pending[i].sql];
        } else {
          kept := kept + [pending[i]];
        }
      }
      assert pending[..|pending|] == pending;
    }

    /** The drain timer's callback, run by the event loop for an armed timer. */
    method OnDrainTimer(id: nat)
      requires id in timers
      modifies this`pendingDrains, this`timers, this`ended
      ensures View() == Fired(old(View()), id)
    {
      var sql := timers[id];
      timers := timers - {id};
      var i := PendingIndex(pendingDrains, id);
      if i < |pendingDrains| {
        pendingDrains := pendingDrains[..i] + pendingDrains[i + 1..];
      }
      ended := ended + [sql];
    }
  }

  // ---------------------------------------------------------------------------------------------
  // Lists of handles
  // ---------------------------------------------------------------------------------------------

  lemma {:induction false} SqlsAppend(a: seq<PoolEntry>, b: seq<PoolEntry>)
    ensures Sqls(a + b) == Sqls(a) + Sqls(b)
  {
    if a == [] {
      assert a + b == b;
    } else {
      SqlsAppend(a[1..], b);
      assert (a + b)[1..] == a[1..] + b;
    }
  }

  lemma {:induction false} PendingSqlsAppend(a: seq<PendingDrain>, b: seq<PendingDrain>)
    ensures PendingSqls(a + b) == PendingSqls(a) + PendingSqls(b)
  {
    if a == [] {
      assert a + b == b;
    } else {
      PendingSqlsAppend(a[1..], b);
      assert (a + b)[1..] == a[1..] + b;
    }
  }

  lemma {:induction false} SqlsLength(live: seq<PoolEntry>)
    ensures |Sqls(live)| == |live|
  {
    if live != [] {
      SqlsLength(live[1..]);
    }
  }

  lemma {:induction false} PendingSqlsLength(pending: seq<PendingDrain>)
    ensures |PendingSqls(pending)| == |pending|
  {
    if pending != [] {
      PendingSqlsLength(pending[1..]);
    }
  }

  lemma {:induction false} CountInAppend(a: seq<Handle>, b: seq<Handle>, rejecting: set<Handle>)
    ensures CountIn(a + b, rejecting) == CountIn(a, rejecting) + CountIn(b, rejecting)
  {
    if a == [] {
      assert a + b == b;
    } else {
      CountInAppend(a[1..], b, rejecting);
      assert (a + b)[1..] == a[1..] + b;
    }
  }

  lemma {:induction false} LiveHitsAppend(live: seq<PoolEntry>, e: PoolEntry, m: Match, hit: bool)
    ensures LiveHits(live + [e], m, hit) == if Hit(m, e.tenantId, e.slug) == hit then LiveHits(live, m, hit) + [e] else LiveHits(live, m, hit)
  {
    if live == [] {
      assert live + [e] == [e] && [e][1..] == [];
    } else {
      LiveHitsAppend(live[1..], e, m, hit);
      assert (live + [e])[1..] == live[1..] + [e];
    }
  }

  lemma {:induction false} PendingHitsAppend(pending: seq<PendingDrain>, p: PendingDrain, m: Match, hit: bool)
    ensures PendingHits(pending + [p], m, hit) ==
              if Hit(m, p.tenantId, p.slug) == hit then PendingHits(pending, m, hit) + [p] else PendingHits(pending, m, hit)
  {
    if pending == [] {
      assert pending + [p] == [p] && [p][1..] == [];
    } else {
      PendingHitsAppend(pending[1..], p, m, hit);
      assert (pending + [p])[1..] == pending[1..] + [p];
    }
  }
}
