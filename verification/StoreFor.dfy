/**
  storeFor() as a protocol (modules/calendar/src/tenant-store.ts): any number of calls in flight,
  interleaved at their awaits with each other, with drain timers, teardowns and the shutdown.

  A call is one of the states below; each `await` of the source is one Settle event, whose outcome
  the environment chooses. The code between two awaits runs as one step, and ends by sending the next
  statement. A close ends the control pool: a catalog statement already sent may still succeed, but
  the next one on that pool is refused. Control pools are told apart by a generation.
*/
module StoreFor {
  import opened Wrappers
  import opened PoolRegistry
  import PoolRuns
  import opened CatalogBinding

  /** The databases that are never a tenant's: the admin url's own, and those every cluster has. */
  datatype Config = Config(prefix: string, maintenance: set<string>)

  const RESERVED_SLUG := "control"

  function DbName(cfg: Config, slug: string): string { cfg.prefix + slug }

  datatype Why = ShuttingDown | WrongIdentity | InvalidTenant | MaintenanceDb | NotLanded | Failed

  /** With the control pool open ensureControlDb answers at once; a close can only find a call waiting for an initialization. */
  datatype Call =
    | EnsuringControl(t: Tenant)
    | Checking(t: Tenant, ctrl: nat)
    | Inserting(t: Tenant, ctrl: nat)
    | Rechecking(t: Tenant)
    | CreatingDb(t: Tenant)
    | Migrating(t: Tenant, sql: Handle)
    | Returned(t: Tenant, sql: Handle)
    | Refused(t: Tenant, why: Why)

  datatype World = World(catalog: Catalog, reg: Registry, calls: map<nat, Call>, dbOf: map<Handle, string>, controlGen: nat)

  datatype Event =
    | Begin(cid: nat, t: Tenant, wellFormed: bool)
    | Settle(cid: nat, ok: bool, pool: Handle)
    | Other(e: PoolRuns.Event)

  /** The code before the first await: the latch, the warm path, and the refusals that touch nothing. */
  function Begun(w: World, cfg: Config, cid: nat, t: Tenant, wellFormed: bool): World {
    if w.reg.closing then w.(calls := w.calls[cid := Refused(t, ShuttingDown)])
    else if Has(w.reg.live, t.id) then
      var e := EntryOf(w.reg.live, t.id);
      w.(reg := Got(w.reg, t.id), calls := w.calls[cid := if e.slug == t.slug then Returned(t, e.sql) else Refused(t, WrongIdentity)])
    else w.(calls := w.calls[cid :=
      if !wellFormed || t.slug == RESERVED_SLUG then Refused(t, InvalidTenant)
      else if DbName(cfg, t.slug) in cfg.maintenance then Refused(t, MaintenanceDb)
      else EnsuringControl(t)])
  }

  /** The code after a check; `absent` is what follows when neither name is in the catalog. */
  function AfterCheck(t: Tenant, check: Check, absent: Call): Call {
    match check
    case Mismatch(_) => Refused(t, WrongIdentity)
    case Bound(n) => if n == 1 then CreatingDb(t) else absent
  }

  /** A statement sent on a control pool, or refused because that pool was ended. */
  function Sent(w: World, c: Call, ctrl: nat): Call { if ctrl == w.controlGen then c else Refused(c.t, Failed) }

  /** One await settles: `ok` says whether the awaited operation succeeded. */
  function Settled(w: World, cfg: Config, cid: nat, ok: bool, pool: Handle): World
    requires cid in w.calls
  {
    match w.calls[cid]
    case Returned(_, _) => w
    case Refused(_, _) => w
    case Migrating(t, sql) =>
      if ok then w.(reg := PoolSet(w.reg, t.id, sql, t.slug), calls := w.calls[cid := Returned(t, sql)])
      else w.(reg := w.reg.(ended := w.reg.ended + [sql]), calls := w.calls[cid := Refused(t, Failed)])
    case c =>
      if !ok then w.(calls := w.calls[cid := Refused(c.t, Failed)])
      else match c
        case EnsuringControl(t) => w.(calls := w.calls[cid := Checking(t, w.controlGen)])
        case Checking(t, ctrl) =>
          w.(calls := w.calls[cid := AfterCheck(t, Checked(w.catalog, t), Sent(w, Inserting(t, ctrl), ctrl))])
        case Inserting(t, ctrl) =>
          w.(catalog := Inserted(w.catalog, t, DbName(cfg, t.slug)), calls := w.calls[cid := Sent(w, Rechecking(t), ctrl)])
        case Rechecking(t) => w.(calls := w.calls[cid := AfterCheck(t, Checked(w.catalog, t), Refused(t, NotLanded))])
        case CreatingDb(t) =>
          w.(calls := w.calls[cid := Migrating(t, pool)], dbOf := w.dbOf[pool := DbName(cfg, t.slug)])
        case _ => w
  }

  /** A call id is used once, a pool just opened is new, and other events leave registering to storeFor. */
  predicate Legal(w: World, e: Event) {
    match e
    case Begin(cid, _, _) => cid !in w.calls
    case Settle(cid, _, pool) => cid in w.calls && pool !in w.dbOf
    case Other(p) => !p.Set? && !p.OpenControl? && PoolRuns.Legal(w.reg, p)
  }

  function Step(w: World, cfg: Config, e: Event): World
    requires Legal(w, e)
  {
    match e
    case Begin(cid, t, wellFormed) => Begun(w, cfg, cid, t, wellFormed)
    case Settle(cid, ok, pool) => Settled(w, cfg, cid, ok, pool)
    case Other(p) => w.(reg := PoolRuns.Step(w.reg, p), controlGen := w.controlGen + if p.Close? then 1 else 0)
  }

  function Run(w: World, cfg: Config, events: seq<Event>): World {
    if events == [] then w
    else
      var before := Run(w, cfg, events[..|events| - 1]);
      if Legal(before, events[|events| - 1]) then Step(before, cfg, events[|events| - 1]) else before
  }

  // ---------------------------------------------------------------------------------------------
  // The invariant
  // ---------------------------------------------------------------------------------------------

  /** A slug storeFor builds a database name from. */
  predicate Servable(cfg: Config, slug: string) { slug != RESERVED_SLUG && DbName(cfg, slug) !in cfg.maintenance }

  ghost predicate GoodCatalog(rows: Catalog, cfg: Config) {
    OneToOne(rows) &&
    forall i | 0 <= i < |rows| :: rows[i].dbName == DbName(cfg, rows[i].tenant.slug) && Servable(cfg, rows[i].tenant.slug)
  }

  /** A pool on the database of a pair the catalog holds. */
  ghost predicate BoundPool(w: World, cfg: Config, t: Tenant, sql: Handle) {
    Binds(w.catalog, t) && sql in w.dbOf && w.dbOf[sql] == DbName(cfg, t.slug)
  }

  ghost predicate GoodCall(w: World, cfg: Config, c: Call) {
    match c
    case Refused(_, why) => why != NotLanded
    case Rechecking(t) => TouchedBy(w.catalog, t) && Servable(cfg, t.slug)
    case CreatingDb(t) => Binds(w.catalog, t)
    case Migrating(t, sql) => BoundPool(w, cfg, t, sql)
    case Returned(t, sql) => BoundPool(w, cfg, t, sql)
    case _ => Servable(cfg, c.t.slug)
  }

  ghost predicate GoodLive(w: World, cfg: Config) {
    forall i | 0 <= i < |w.reg.live| ::
      BoundPool(w, cfg, Tenant(w.reg.live[i].tenantId, w.reg.live[i].slug), w.reg.live[i].sql)
  }

  ghost predicate GoodCalls(w: World, cfg: Config) { forall cid | cid in w.calls :: GoodCall(w, cfg, w.calls[cid]) }

  ghost predicate Inv(w: World, cfg: Config) { GoodCatalog(w.catalog, cfg) && GoodLive(w, cfg) && GoodCalls(w, cfg) }

  /** Before any call: no pools, any well-formed catalog. */
  ghost predicate Init(w: World, cfg: Config) {
    GoodCatalog(w.catalog, cfg) && w.reg == EMPTY && w.calls == map[] && w.dbOf == map[]
  }

  /** What holds of a call or pool keeps holding as rows are added and pools are opened. */
  lemma CallLater(w: World, later: World, cfg: Config, c: Call)
    requires GoodCall(w, cfg, c) && w.catalog <= later.catalog
    requires forall h | h in w.dbOf :: h in later.dbOf && later.dbOf[h] == w.dbOf[h]
    ensures GoodCall(later, cfg, c)
  {
    BindsLater(w.catalog, later.catalog, c.t);
  }

  lemma LiveLater(w: World, later: World, cfg: Config)
    requires GoodLive(w, cfg) && w.catalog <= later.catalog && w.reg.live == later.reg.live
    requires forall h | h in w.dbOf :: h in later.dbOf && later.dbOf[h] == w.dbOf[h]
    ensures GoodLive(later, cfg)
  {
    forall i | 0 <= i < |w.reg.live| ensures BoundPool(later, cfg, Tenant(w.reg.live[i].tenantId, w.reg.live[i].slug), w.reg.live[i].sql) {
      BindsLater(w.catalog, later.catalog, Tenant(w.reg.live[i].tenantId, w.reg.live[i].slug));
    }
  }

  /** A step that only moves one call forward. */
  lemma CallsStep(w: World, later: World, cfg: Config, cid: nat, c: Call)
    requires GoodCalls(w, cfg) && w.catalog <= later.catalog && later.calls == w.calls[cid := c] && GoodCall(later, cfg, c)
    requires forall h | h in w.dbOf :: h in later.dbOf && later.dbOf[h] == w.dbOf[h]
    ensures GoodCalls(later, cfg)
  {
    forall k | k in later.calls ensures GoodCall(later, cfg, later.calls[k]) {
      if k != cid {
        CallLater(w, later, cfg, w.calls[k]);
      }
    }
  }

  /** Two entries are the same but for their stamps. */
  predicate Same(a: PoolEntry, b: PoolEntry) { a.tenantId == b.tenantId && a.slug == b.slug && a.sql == b.sql }

  ghost predicate Was(was: seq<PoolEntry>, e: PoolEntry) { exists j :: 0 <= j < |was| && Same(was[j], e) }

  /** Every event but a registration leaves only entries that were live before, stamps aside. */
  ghost predicate Kept(was: seq<PoolEntry>, now: seq<PoolEntry>) { forall i | 0 <= i < |now| :: Was(was, now[i]) }

  lemma KeptInPlace(was: seq<PoolEntry>, now: seq<PoolEntry>)
    requires |now| == |was| && forall i | 0 <= i < |now| :: Same(was[i], now[i])
    ensures Kept(was, now)
  {
  }

  lemma KeptAfterTeardown(live: seq<PoolEntry>, m: Match)
    ensures Kept(live, LiveHits(live, m, false))
  {
    var now := LiveHits(live, m, false);
    PoolRuns.LiveHitsAreMembers(live, m);
    forall i | 0 <= i < |now| ensures Was(live, now[i]) {
      var k :| 0 <= k < |live| && live[k] == now[i];
      assert Same(live[k], now[i]);
    }
  }

  lemma OtherKeeps(r: Registry, p: PoolRuns.Event)
    requires PoolRuns.Legal(r, p) && !p.Set?
    ensures Kept(r.live, PoolRuns.Step(r, p).live)
  {
    match p
    case Get(id) => KeptInPlace(r.live, Got(r, id).live);
    case Teardown(m) => KeptAfterTeardown(r.live, m);
    case OpenControl(_) => KeptInPlace(r.live, r.live);
    case Fire(_) => KeptInPlace(r.live, r.live);
    case DrainNow => KeptInPlace(r.live, r.live);
    case Close =>
  }

  lemma WithoutEntries(live: seq<PoolEntry>, v: nat, i: nat)
    requires v < |live| && i < |Without(live, v)|
    ensures exists j :: 0 <= j < |live| && live[j] == Without(live, v)[i]
  {
    assert Without(live, v)[i] == live[if i < v then i else i + 1];
  }

  /** A registration leaves the entries that were live, and its own. */
  lemma SetEntries(r: Registry, id: TenantId, sql: Handle, slug: string, i: nat)
    requires i < |PoolSet(r, id, sql, slug).live|
    ensures var now := PoolSet(r, id, sql, slug).live[i];
            (now.tenantId == id && now.slug == slug && now.sql == sql) || exists j :: 0 <= j < |r.live| && r.live[j] == now
  {
    var s := Evicted(r, id);
    assert Displaced(s, id, sql).live == s.live;
    if i < |s.live| && |r.live| >= POOL_REGISTRY_MAX && !Has(r.live, id) {
      WithoutEntries(r.live, LruIndex(r.live), i);
    } else if i < |s.live| {
      assert s.live[i] == r.live[i];
    }
  }

  lemma KeptLive(w: World, later: World, cfg: Config)
    requires GoodLive(w, cfg) && Kept(w.reg.live, later.reg.live) && w.catalog == later.catalog && w.dbOf == later.dbOf
    ensures GoodLive(later, cfg)
  {
    var live := later.reg.live;
    forall i | 0 <= i < |live| ensures BoundPool(later, cfg, Tenant(live[i].tenantId, live[i].slug), live[i].sql) {
      assert Was(w.reg.live, live[i]);
      var j :| 0 <= j < |w.reg.live| && Same(w.reg.live[j], live[i]);
      assert BoundPool(w, cfg, Tenant(w.reg.live[j].tenantId, w.reg.live[j].slug), w.reg.live[j].sql);
    }
  }

  /** A warm entry is of its tenant, on the database bound to it. */
  lemma WarmEntry(w: World, cfg: Config, t: Tenant)
    requires GoodLive(w, cfg) && Has(w.reg.live, t.id)
    ensures var e := EntryOf(w.reg.live, t.id); e.tenantId == t.id && BoundPool(w, cfg, Tenant(t.id, e.slug), e.sql)
  {
    var i := IndexOf(w.reg.live, t.id);
    assert w.reg.live[i].tenantId == t.id;
  }

  lemma BeginCall(w: World, cfg: Config, cid: nat, t: Tenant, wellFormed: bool)
    requires Inv(w, cfg)
    ensures var later := Begun(w, cfg, cid, t, wellFormed);
            later.calls == w.calls[cid := later.calls[cid]] && GoodCall(later, cfg, later.calls[cid])
  {
    if !w.reg.closing && Has(w.reg.live, t.id) {
      WarmEntry(w, cfg, t);
      var later := Begun(w, cfg, cid, t, wellFormed);
      assert later.catalog == w.catalog && later.dbOf == w.dbOf;
    }
  }

  lemma BeginLive(w: World, cfg: Config, cid: nat, t: Tenant, wellFormed: bool)
    ensures Kept(w.reg.live, Begun(w, cfg, cid, t, wellFormed).reg.live)
  {
    OtherKeeps(w.reg, PoolRuns.Get(t.id));
    KeptInPlace(w.reg.live, w.reg.live);
  }

  lemma BeginKeeps(w: World, cfg: Config, cid: nat, t: Tenant, wellFormed: bool)
    requires Inv(w, cfg) && cid !in w.calls
    ensures Inv(Begun(w, cfg, cid, t, wellFormed), cfg)
  {
    var later := Begun(w, cfg, cid, t, wellFormed);
    BeginCall(w, cfg, cid, t, wellFormed);
    BeginLive(w, cfg, cid, t, wellFormed);
    KeptLive(w, later, cfg);
    CallsStep(w, later, cfg, cid, later.calls[cid]);
  }

  lemma SettleKeeps(w: World, cfg: Config, cid: nat, ok: bool, pool: Handle)
    requires Inv(w, cfg) && cid in w.calls && pool !in w.dbOf
    ensures Inv(Settled(w, cfg, cid, ok, pool), cfg) && w.catalog <= Settled(w, cfg, cid, ok, pool).catalog
  {
    var later := Settled(w, cfg, cid, ok, pool);
    var c := w.calls[cid];
    assert GoodCall(w, cfg, c);
    CheckedMeans(w.catalog, c.t);
    InsertKeeps(w.catalog, c.t, DbName(cfg, c.t.slug));
    if c.Migrating? && ok {
      forall i | 0 <= i < |later.reg.live|
        ensures BoundPool(later, cfg, Tenant(later.reg.live[i].tenantId, later.reg.live[i].slug), later.reg.live[i].sql)
      {
        SetEntries(w.reg, c.t.id, c.sql, c.t.slug, i);
      }
    } else {
      LiveLater(w, later, cfg);
    }
    if !c.Returned? && !c.Refused? {
      CallsStep(w, later, cfg, cid, later.calls[cid]);
    }
  }

  /** Every step of every call keeps the invariant, and no row is ever changed or removed. */
  lemma StepKeeps(w: World, cfg: Config, e: Event)
    requires Inv(w, cfg) && Legal(w, e)
    ensures Inv(Step(w, cfg, e), cfg) && w.catalog <= Step(w, cfg, e).catalog
  {
    match e
    case Begin(cid, t, wellFormed) => BeginKeeps(w, cfg, cid, t, wellFormed);
    case Settle(cid, ok, pool) => SettleKeeps(w, cfg, cid, ok, pool);
    case Other(p) =>
      OtherKeeps(w.reg, p);
      KeptLive(w, Step(w, cfg, e), cfg);
      forall k | k in w.calls ensures GoodCall(Step(w, cfg, e), cfg, w.calls[k]) {
        CallLater(w, Step(w, cfg, e), cfg, w.calls[k]);
      }
  }

  lemma {:induction false} RunKeeps(w: World, cfg: Config, events: seq<Event>)
    requires Inv(w, cfg)
    ensures Inv(Run(w, cfg, events), cfg) && w.catalog <= Run(w, cfg, events).catalog
  {
    if events != [] {
      var before := Run(w, cfg, events[..|events| - 1]);
      RunKeeps(w, cfg, events[..|events| - 1]);
      if Legal(before, events[|events| - 1]) {
        StepKeeps(before, cfg, events[|events| - 1]);
      }
    }
  }

  // ---------------------------------------------------------------------------------------------
  // What the caller gets
  // ---------------------------------------------------------------------------------------------

  /** Every pool storeFor ever returns, warm or cold, is on the one database the catalog binds to its tenant. */
  lemma ReturnedPoolsAreBound(w: World, cfg: Config, events: seq<Event>, a: nat, b: nat)
    requires Init(w, cfg)
    requires var now := Run(w, cfg, events); a in now.calls && b in now.calls && now.calls[a].Returned? && now.calls[b].Returned?
    ensures var now := Run(w, cfg, events);
            var c, d := now.calls[a], now.calls[b];
            && Binds(now.catalog, c.t) && c.sql in now.dbOf && d.sql in now.dbOf
            && now.dbOf[c.sql] == DbName(cfg, c.t.slug)
            && now.dbOf[c.sql] != DbName(cfg, RESERVED_SLUG) && now.dbOf[c.sql] !in cfg.maintenance
            && (c.t.id == d.t.id <==> now.dbOf[c.sql] == now.dbOf[d.sql])
            && (c.t.id == d.t.id <==> c.t.slug == d.t.slug)
  {
    RunKeeps(w, cfg, events);
    var now := Run(w, cfg, events);
    var c, d := now.calls[a], now.calls[b];
    assert GoodCall(now, cfg, c) && GoodCall(now, cfg, d);
    BoundPairs(now.catalog, c.t, d.t);
    var i :| 0 <= i < |now.catalog| && now.catalog[i].tenant == c.t;
    SamePrefix(cfg.prefix, c.t.slug, d.t.slug);
    SamePrefix(cfg.prefix, c.t.slug, RESERVED_SLUG);
  }

  lemma SamePrefix(p: string, a: string, b: string)
    ensures p + a == p + b <==> a == b
  {
    assert (p + a)[|p|..] == a && (p + b)[|p|..] == b;
  }

  /** With a live entry a call is answered at once: with that entry's pool if the catalog binds its pair, and else refused. */
  lemma WarmCall(w: World, cfg: Config, cid: nat, t: Tenant, wellFormed: bool)
    requires Inv(w, cfg) && !w.reg.closing && Has(w.reg.live, t.id)
    ensures var now := Begun(w, cfg, cid, t, wellFormed);
            && cid in now.calls
            && now.calls[cid] == (if Binds(w.catalog, t) then Returned(t, EntryOf(w.reg.live, t.id).sql) else Refused(t, WrongIdentity))
            && now == w.(reg := Got(w.reg, t.id), calls := w.calls[cid := now.calls[cid]])
  {
    WarmEntry(w, cfg, t);
    var e := EntryOf(w.reg.live, t.id);
    if Binds(w.catalog, t) {
      BoundPairs(w.catalog, t, Tenant(t.id, e.slug));
    }
  }

  /** A cold call is refused before anything is touched for a bad name, a reserved one, or a database that is nobody's. */
  lemma ColdCall(w: World, cfg: Config, cid: nat, t: Tenant, wellFormed: bool)
    requires !w.reg.closing && !Has(w.reg.live, t.id)
    ensures var now := Begun(w, cfg, cid, t, wellFormed);
            && now == w.(calls := now.calls) && cid in now.calls && now.calls == w.calls[cid := now.calls[cid]]
            && (now.calls[cid] == EnsuringControl(t) <==> wellFormed && Servable(cfg, t.slug))
            && (now.calls[cid] == Refused(t, InvalidTenant) <==> !wellFormed || t.slug == "control")
            && (now.calls[cid] == Refused(t, MaintenanceDb) <==>
                  wellFormed && t.slug != "control" && cfg.prefix + t.slug in cfg.maintenance)
  {
  }

  /** An await that fails ends its call; the catalog and the live pools stay, and a pool being migrated is ended. */
  lemma FailedAwait(w: World, cfg: Config, cid: nat, pool: Handle)
    requires cid in w.calls && !w.calls[cid].Returned? && !w.calls[cid].Refused?
    ensures var now := Settled(w, cfg, cid, false, pool); var c := w.calls[cid];
            && now.calls == w.calls[cid := Refused(c.t, Failed)] && now.catalog == w.catalog && now.dbOf == w.dbOf
            && now.reg == w.reg.(ended := w.reg.ended + if c.Migrating? then [c.sql] else [])
  {
  }

  /** A call just served got the pool its tenant's entry now holds. */
  lemma ServedIsLive(w: World, cfg: Config, e: Event, cid: nat)
    requires Legal(w, e) && cid in Step(w, cfg, e).calls && Step(w, cfg, e).calls[cid].Returned?
    requires cid in w.calls ==> !w.calls[cid].Returned?
    ensures var now := Step(w, cfg, e); var c := now.calls[cid];
            Has(now.reg.live, c.t.id) && EntryOf(now.reg.live, c.t.id).sql == c.sql
  {
    match e
    case Begin(k, t, _) => GotKeepsPool(w.reg, t.id);
    case Settle(k, _, _) =>
      assert k == cid && w.calls[cid].Migrating?;
      NewestIsLive(w.reg, w.calls[cid].t.id, w.calls[cid].sql, w.calls[cid].t.slug);
    case Other(_) =>
  }

  lemma GotKeepsPool(r: Registry, id: TenantId)
    requires Has(r.live, id)
    ensures Has(Got(r, id).live, id) && EntryOf(Got(r, id).live, id).sql == EntryOf(r.live, id).sql
  {
    var i := IndexOf(r.live, id);
    assert Got(r, id).live[i].tenantId == id;
    assert forall j | 0 <= j < i :: Got(r, id).live[j].tenantId != id;
  }

  /** The step registers a pool for this tenant. */
  predicate Registers(w: World, e: Event, id: TenantId) {
    e.Settle? && e.ok && e.cid in w.calls && w.calls[e.cid].Migrating? && w.calls[e.cid].t.id == id
  }

  lemma EntryWas(w: World, cfg: Config, e: Event, id: TenantId)
    requires Legal(w, e) && !Registers(w, e, id) && Has(Step(w, cfg, e).reg.live, id)
    ensures Was(w.reg.live, EntryOf(Step(w, cfg, e).reg.live, id))
  {
    var was, now := w.reg.live, Step(w, cfg, e).reg.live;
    var i := IndexOf(now, id);
    match e
    case Begin(cid, t, wellFormed) => BeginLive(w, cfg, cid, t, wellFormed);
    case Settle(cid, ok, _) =>
      if w.calls[cid].Migrating? && ok {
        SetEntries(w.reg, w.calls[cid].t.id, w.calls[cid].sql, w.calls[cid].t.slug, i);
      } else {
        KeptInPlace(was, now);
      }
    case Other(p) => OtherKeeps(w.reg, p);
  }

  /** Only a registration gives a tenant a pool it did not have. */
  lemma EntryStep(w: World, cfg: Config, e: Event, id: TenantId)
    requires Legal(w, e) && PoolRuns.UniqueTenants(w.reg.live) && !Registers(w, e, id) && Has(Step(w, cfg, e).reg.live, id)
    ensures Has(w.reg.live, id) && EntryOf(w.reg.live, id).sql == EntryOf(Step(w, cfg, e).reg.live, id).sql
  {
    EntryWas(w, cfg, e, id);
    var was, entry := w.reg.live, EntryOf(Step(w, cfg, e).reg.live, id);
    var j :| 0 <= j < |was| && Same(was[j], entry);
    OnlyEntry(was, j);
  }

  lemma OnlyEntry(live: seq<PoolEntry>, j: nat)
    requires PoolRuns.UniqueTenants(live) && j < |live|
    ensures IndexOf(live, live[j].tenantId) == j
  {
    assert IndexOf(live, live[j].tenantId) <= j;
  }

  ghost predicate NoRegistration(w: World, cfg: Config, events: seq<Event>, id: TenantId) {
    forall k | 0 <= k < |events| && Legal(Run(w, cfg, events[..k]), events[k]) :: !Registers(Run(w, cfg, events[..k]), events[k], id)
  }

  /** As long as a tenant's entry is live and nothing registers for it again, it holds one pool. */
  lemma {:induction false} SamePoolWhileLive(w: World, cfg: Config, events: seq<Event>, id: TenantId)
    requires Conserved(w) && NoRegistration(w, cfg, events, id) && Has(Run(w, cfg, events).reg.live, id)
    ensures Has(w.reg.live, id) && EntryOf(w.reg.live, id).sql == EntryOf(Run(w, cfg, events).reg.live, id).sql
  {
    if events != [] {
      var rest, e := events[..|events| - 1], events[|events| - 1];
      var before := Run(w, cfg, rest);
      assert forall k | 0 <= k < |rest| :: rest[..k] == events[..k];
      RunConserved(w, cfg, rest);
      if Legal(before, e) {
        EntryStep(before, cfg, e, id);
      }
      SamePoolWhileLive(w, cfg, rest, id);
    }
  }

  /**
    Two served calls of one pair get one pool: whatever happens after event `e` served call `cid`, as
    long as the tenant's entry is live and nothing registers for it again, the next call is
    answered with the same pool.
  */
  lemma TwoCallsOnePool(w: World, cfg: Config, events: seq<Event>, e: Event, cid: nat, more: seq<Event>, next: nat)
    requires Init(w, cfg) && Legal(Run(w, cfg, events), e)
    requires cid in Run(w, cfg, events).calls ==> !Run(w, cfg, events).calls[cid].Returned?
    requires var served := Step(Run(w, cfg, events), cfg, e);
             && cid in served.calls && served.calls[cid].Returned?
             && NoRegistration(served, cfg, more, served.calls[cid].t.id)
             && var later := Run(served, cfg, more);
                Has(later.reg.live, served.calls[cid].t.id) && !later.reg.closing && next !in later.calls
    ensures var served := Step(Run(w, cfg, events), cfg, e);
            var c := served.calls[cid];
            Begun(Run(served, cfg, more), cfg, next, c.t, true).calls[next] == Returned(c.t, c.sql)
  {
    var before := Run(w, cfg, events);
    var served := Step(before, cfg, e);
    var c, later := served.calls[cid], Run(served, cfg, more);
    RunKeeps(w, cfg, events);
    StepKeeps(before, cfg, e);
    InitConserved(w, cfg);
    RunConserved(w, cfg, events);
    ConservedStep(before, cfg, e);
    ServedIsLive(before, cfg, e, cid);
    SamePoolWhileLive(served, cfg, more, c.t.id);
    RunKeeps(served, cfg, more);
    assert GoodCall(served, cfg, c);
    BindsLater(served.catalog, later.catalog, c.t);
    WarmCall(later, cfg, next, c.t, true);
  }

  /** A call whose claim of its pair returned. */
  predicate PastClaim(c: Call) { c.CreatingDb? || c.Migrating? || c.Returned? }

  /** Of two conflicting pairs at most one ever gets past its claim, and then the catalog holds that pair. */
  lemma OneClaimWins(w: World, cfg: Config, events: seq<Event>, a: nat, b: nat)
    requires Init(w, cfg)
    requires var now := Run(w, cfg, events); a in now.calls && b in now.calls && PastClaim(now.calls[a]) && PastClaim(now.calls[b])
    ensures var now := Run(w, cfg, events);
            && Binds(now.catalog, now.calls[a].t) && Binds(now.catalog, now.calls[b].t)
            && (now.calls[a].t.id == now.calls[b].t.id <==> now.calls[a].t.slug == now.calls[b].t.slug)
  {
    RunKeeps(w, cfg, events);
    var now := Run(w, cfg, events);
    assert GoodCall(now, cfg, now.calls[a]) && GoodCall(now, cfg, now.calls[b]);
    BoundPairs(now.catalog, now.calls[a].t, now.calls[b].t);
  }

  /** A claim is never reported lost, and rows once in the catalog stay there, over every run. */
  lemma ClaimsLand(w: World, cfg: Config, events: seq<Event>, cid: nat)
    requires Init(w, cfg) && cid in Run(w, cfg, events).calls
    ensures Run(w, cfg, events).calls[cid] != Refused(Run(w, cfg, events).calls[cid].t, NotLanded)
    ensures w.catalog <= Run(w, cfg, events).catalog && OneToOne(Run(w, cfg, events).catalog)
  {
    RunKeeps(w, cfg, events);
    assert GoodCall(Run(w, cfg, events), cfg, Run(w, cfg, events).calls[cid]);
  }

  /** A call that begins after the latch never gets a pool, whatever happens next. */
  lemma {:induction false} NoPoolAfterClose(w: World, cfg: Config, cid: nat, t: Tenant, wellFormed: bool, events: seq<Event>)
    requires w.reg.closing && cid !in w.calls
    ensures var now := Run(Begun(w, cfg, cid, t, wellFormed), cfg, events);
            cid in now.calls && now.calls[cid] == Refused(t, ShuttingDown)
  {
    if events != [] {
      NoPoolAfterClose(w, cfg, cid, t, wellFormed, events[..|events| - 1]);
    }
  }

  // ---------------------------------------------------------------------------------------------
  // The exact reach of the latch
  // ---------------------------------------------------------------------------------------------

  /** The catalog binds one of the pair's names to another pair. */
  ghost predicate Foreign(rows: Catalog, t: Tenant) { TouchedBy(rows, t) && !Binds(rows, t) }

  /** Another call's INSERT of the same pair is on its way. */
  ghost predicate InsertSent(w: World, t: Tenant) {
    exists cid :: cid in w.calls && w.calls[cid].Inserting? && w.calls[cid].t == t
  }

  /**
    What a close finds a call doing when it can still register: it needs the catalog no more, or its
    last statement there is sent and will succeed, or it will be handed a control pool opened later.
  */
  ghost predicate WillRegister(w: World, c: Call) {
    match c
    case CreatingDb(_) => true
    case Migrating(_, _) => true
    case Rechecking(t) => !Foreign(w.catalog, t)
    case EnsuringControl(t) => !Foreign(w.catalog, t)
    case Checking(t, _) => Binds(w.catalog, t) || (!TouchedBy(w.catalog, t) && InsertSent(w, t))
    case _ => false
  }

  /** After a close, a call whose own operations will bring it to a registered pool. */
  ghost predicate OnItsWay(w: World, c: Call) {
    match c
    case CreatingDb(_) => true
    case Migrating(_, _) => true
    case Rechecking(t) => !Foreign(w.catalog, t)
    case EnsuringControl(t) => !Foreign(w.catalog, t)
    case Checking(t, ctrl) => Binds(w.catalog, t) || (ctrl == w.controlGen && !Foreign(w.catalog, t))
    case Inserting(t, ctrl) => ctrl == w.controlGen && !Foreign(w.catalog, t)
    case _ => false
  }

  /** A catalog statement on a pool some close has ended. */
  predicate Ended(w: World, c: Call) { (c.Checking? || c.Inserting?) && c.ctrl < w.controlGen }

  /** A control pool is handed out with the generation of its time. */
  ghost predicate Handed(w: World) {
    forall cid | cid in w.calls && (w.calls[cid].Checking? || w.calls[cid].Inserting?) :: w.calls[cid].ctrl <= w.controlGen
  }

  lemma HandedSettles(w: World, cfg: Config, cid: nat, ok: bool, pool: Handle)
    requires Handed(w) && cid in w.calls
    ensures Handed(Settled(w, cfg, cid, ok, pool))
  {
    var later := Settled(w, cfg, cid, ok, pool);
    forall k | k in later.calls && (later.calls[k].Checking? || later.calls[k].Inserting?) ensures later.calls[k].ctrl <= later.controlGen {
      assert k in w.calls && (k != cid ==> later.calls[k] == w.calls[k]);
    }
  }

  lemma HandedStep(w: World, cfg: Config, e: Event)
    requires Handed(w) && Legal(w, e)
    ensures Handed(Step(w, cfg, e))
  {
    if e.Settle? {
      HandedSettles(w, cfg, e.cid, e.ok, e.pool);
    }
  }

  lemma {:induction false} RunHanded(w: World, cfg: Config, events: seq<Event>)
    requires Handed(w)
    ensures Handed(Run(w, cfg, events))
  {
    if events != [] {
      var before, e := Run(w, cfg, events[..|events| - 1]), events[|events| - 1];
      RunHanded(w, cfg, events[..|events| - 1]);
      if Legal(before, e) {
        HandedStep(before, cfg, e);
      }
    }
  }

  /** A call that cannot register any more, whatever it and the others still do. */
  ghost predicate Harmless(w: World, c: Call) {
    !WillRegister(w, c) && (c.Inserting? ==> Ended(w, c)) && (c.Checking? ==> Ended(w, c) || Foreign(w.catalog, c.t))
  }

  /** Closed, empty, and nobody can register. */
  ghost predicate Spent(w: World) {
    w.reg.closing && w.reg.live == [] && OneToOne(w.catalog) && forall cid | cid in w.calls :: Harmless(w, w.calls[cid])
  }

  /** A call that was harmless stays so when another one moves on, whose INSERT may land. */
  lemma HarmlessLater(w: World, cfg: Config, cid: nat, ok: bool, pool: Handle, k: nat)
    requires Spent(w) && cid in w.calls && k in w.calls && k != cid
    ensures var later := Settled(w, cfg, cid, ok, pool); k in later.calls && Harmless(later, later.calls[k])
  {
    var c, d := w.calls[cid], w.calls[k];
    var later := Settled(w, cfg, cid, ok, pool);
    assert Harmless(w, c) && Harmless(w, d);
    CheckedMeans(w.catalog, c.t);
    InsertKeeps(w.catalog, c.t, DbName(cfg, c.t.slug));
    BindsLater(w.catalog, later.catalog, d.t);
    if InsertSent(later, d.t) {
      var j :| j in later.calls && later.calls[j].Inserting? && later.calls[j].t == d.t;
      assert j in w.calls && w.calls[j] == later.calls[j];
    }
    if later.catalog != w.catalog && Binds(later.catalog, d.t) && !Binds(w.catalog, d.t) {
      var j :| 0 <= j < |later.catalog| && later.catalog[j].tenant == d.t;
      assert d.t == c.t && !TouchedBy(w.catalog, d.t) && InsertSent(w, d.t);
    }
  }

  lemma HarmlessSettles(w: World, cfg: Config, cid: nat, ok: bool, pool: Handle)
    requires Spent(w) && cid in w.calls
    ensures var later := Settled(w, cfg, cid, ok, pool); cid in later.calls && Harmless(later, later.calls[cid])
  {
    var c := w.calls[cid];
    assert Harmless(w, c);
    CheckedMeans(w.catalog, c.t);
  }

  lemma SpentSettles(w: World, cfg: Config, cid: nat, ok: bool, pool: Handle)
    requires Spent(w) && cid in w.calls
    ensures Spent(Settled(w, cfg, cid, ok, pool))
  {
    var later := Settled(w, cfg, cid, ok, pool);
    assert Harmless(w, w.calls[cid]);
    InsertKeeps(w.catalog, w.calls[cid].t, DbName(cfg, w.calls[cid].t.slug));
    forall k | k in later.calls ensures Harmless(later, later.calls[k]) {
      if k == cid {
        HarmlessSettles(w, cfg, cid, ok, pool);
      } else {
        HarmlessLater(w, cfg, cid, ok, pool, k);
      }
    }
  }

  lemma SpentElse(w: World, cfg: Config, e: Event)
    requires Spent(w) && Legal(w, e) && !e.Settle?
    ensures Spent(Step(w, cfg, e))
  {
    var later := Step(w, cfg, e);
    if e.Other? {
      OtherKeeps(w.reg, e.e);
      var was, now := w.reg.live, later.reg.live;
      assert forall i | 0 <= i < |now| :: Was(was, now[i]);
    }
    forall k | k in later.calls ensures Harmless(later, later.calls[k]) {
      if k in w.calls {
        assert Harmless(w, w.calls[k]);
        if InsertSent(later, w.calls[k].t) {
          var j :| j in later.calls && later.calls[j].Inserting? && later.calls[j].t == w.calls[k].t;
          assert j in w.calls;
        }
      }
    }
  }

  lemma {:induction false} SpentStays(w: World, cfg: Config, events: seq<Event>)
    requires Spent(w)
    ensures Spent(Run(w, cfg, events))
  {
    if events != [] {
      var before, e := Run(w, cfg, events[..|events| - 1]), events[|events| - 1];
      SpentStays(w, cfg, events[..|events| - 1]);
      if Legal(before, e) {
        if e.Settle? {
          SpentSettles(before, cfg, e.cid, e.ok, e.pool);
        } else {
          SpentElse(before, cfg, e);
        }
      }
    }
  }

  lemma {:induction false} RunCons(w: World, cfg: Config, e: Event, events: seq<Event>)
    requires Legal(w, e)
    ensures Run(w, cfg, [e] + events) == Run(Step(w, cfg, e), cfg, events)
  {
    if events == [] {
      assert ([e] + events)[..|[e] + events| - 1] == [];
    } else {
      RunCons(w, cfg, e, events[..|events| - 1]);
      assert ([e] + events)[..|[e] + events| - 1] == [e] + events[..|events| - 1];
    }
  }

  /** The awaits a call still has before it registers its pool. */
  function AwaitsLeft(c: Call): nat {
    match c
    case EnsuringControl(_) => 6
    case Checking(_, _) => 5
    case Inserting(_, _) => 4
    case Rechecking(_) => 3
    case CreatingDb(_) => 2
    case Migrating(_, _) => 1
    case _ => 0
  }

  /** One await that succeeds brings a call on its way nearer to its registration. */
  lemma OneAwait(w: World, cfg: Config, cid: nat, pool: Handle)
    requires Inv(w, cfg) && cid in w.calls && OnItsWay(w, w.calls[cid]) && AwaitsLeft(w.calls[cid]) > 1
    ensures var later := Settled(w, cfg, cid, true, pool);
            cid in later.calls && OnItsWay(later, later.calls[cid]) && AwaitsLeft(later.calls[cid]) < AwaitsLeft(w.calls[cid])
  {
    var c := w.calls[cid];
    assert GoodCall(w, cfg, c);
    CheckedMeans(w.catalog, c.t);
    InsertKeeps(w.catalog, c.t, DbName(cfg, c.t.slug));
  }

  /** If its remaining awaits succeed, a call on its way leaves a live pool, latch or no latch. */
  lemma {:induction false} Arrives(w: World, cfg: Config, cid: nat) returns (more: seq<Event>)
    requires Inv(w, cfg) && cid in w.calls && OnItsWay(w, w.calls[cid])
    ensures Run(w, cfg, more).reg.live != []
    decreases AwaitsLeft(w.calls[cid])
  {
    var e := Settle(cid, true, Unused(w.dbOf.Keys));
    var rest: seq<Event> := [];
    if AwaitsLeft(w.calls[cid]) > 1 {
      OneAwait(w, cfg, cid, e.pool);
      StepKeeps(w, cfg, e);
      rest := Arrives(Step(w, cfg, e), cfg, cid);
    } else {
      NewestIsLive(w.reg, w.calls[cid].t.id, w.calls[cid].sql, w.calls[cid].t.slug);
    }
    more := [e] + rest;
    RunCons(w, cfg, e, rest);
  }

  /** A call that a close finds able to register does so in some continuation: after another call's INSERT, if it waits for that. */
  lemma LateCallRegisters(w: World, cfg: Config, cid: nat) returns (more: seq<Event>)
    requires Inv(w, cfg) && cid in w.calls && WillRegister(w, w.calls[cid])
    ensures Run(w, cfg, more).reg.live != []
  {
    var c := w.calls[cid];
    if OnItsWay(w, c) {
      more := Arrives(w, cfg, cid);
    } else {
      var k :| k in w.calls && w.calls[k].Inserting? && w.calls[k].t == c.t;
      var e := Settle(k, true, Unused(w.dbOf.Keys));
      InsertKeeps(w.catalog, c.t, DbName(cfg, c.t.slug));
      assert Inserted(w.catalog, c.t, DbName(cfg, c.t.slug))[|w.catalog|].tenant == c.t;
      StepKeeps(w, cfg, e);
      var rest := Arrives(Step(w, cfg, e), cfg, cid);
      more := [e] + rest;
      RunCons(w, cfg, e, rest);
    }
  }

  /**
    The latch is tested on entry only: after a close the registry stays empty, whatever still
    happens, exactly when the close found no call that will register. The ended control pool stops
    every call with another catalog statement to send; what gets past is a call done with the
    catalog, one whose last statement there is on the wire and will find its pair, and one still
    waiting for an initialization, which is handed the pool opened behind the drain.
  */
  lemma CloseStaysEmptyIff(w: World, cfg: Config, events: seq<Event>)
    requires Init(w, cfg)
    ensures var now := Run(w, cfg, events);
            var closed := Step(now, cfg, Other(PoolRuns.Close));
            (forall more :: Run(closed, cfg, more).reg.live == []) <==> (forall cid | cid in now.calls :: !WillRegister(now, now.calls[cid]))
  {
    RunKeeps(w, cfg, events);
    RunHanded(w, cfg, events);
    var now := Run(w, cfg, events);
    var closed := Step(now, cfg, Other(PoolRuns.Close));
    StepKeeps(now, cfg, Other(PoolRuns.Close));
    SameSent(now, closed);
    if forall cid | cid in now.calls :: !WillRegister(now, now.calls[cid]) {
      forall more ensures Run(closed, cfg, more).reg.live == [] {
        SpentStays(closed, cfg, more);
      }
    } else {
      var cid :| cid in now.calls && WillRegister(now, now.calls[cid]);
      var more := LateCallRegisters(closed, cfg, cid);
    }
  }

  lemma SameSent(w: World, later: World)
    requires w.calls == later.calls && w.catalog == later.catalog
    ensures forall cid | cid in w.calls :: WillRegister(w, w.calls[cid]) <==> WillRegister(later, w.calls[cid])
  {
    forall t ensures InsertSent(w, t) <==> InsertSent(later, t) {
    }
  }

  // ---------------------------------------------------------------------------------------------
  // Pools are conserved end to end
  // ---------------------------------------------------------------------------------------------

  ghost predicate Holds(w: World, cid: nat, h: Handle) {
    cid in w.calls && w.calls[cid].Migrating? && w.calls[cid].sql == h
  }

  ghost predicate InCall(w: World, h: Handle) { exists cid :: Holds(w, cid, h) }

  /** A pool just opened belongs to one call, and to that call alone, until it is registered or ended. */
  ghost predicate Conserved(w: World) {
    && PoolRuns.Good(w.reg)
    && (forall h :: PoolRuns.Total(w.reg, h) == if h !in w.dbOf || InCall(w, h) then 0 else 1)
    && (forall cid, h | Holds(w, cid, h) :: h in w.dbOf)
    && (forall c, d, h | Holds(w, c, h) && Holds(w, d, h) :: c == d)
  }

  lemma InOtherCalls(w: World, later: World, cid: nat, h: Handle)
    requires forall k | k != cid :: Holds(later, k, h) <==> Holds(w, k, h)
    requires !Holds(w, cid, h) && !Holds(later, cid, h)
    ensures InCall(later, h) <==> InCall(w, h)
  {
  }

  lemma ConservedFinish(w: World, cfg: Config, cid: nat, ok: bool, pool: Handle)
    requires Conserved(w) && cid in w.calls && w.calls[cid].Migrating?
    ensures Conserved(Settled(w, cfg, cid, ok, pool))
  {
    var later, c := Settled(w, cfg, cid, ok, pool), w.calls[cid];
    assert Holds(w, cid, c.sql) && InCall(w, c.sql);
    forall k, h ensures Holds(later, k, h) <==> k != cid && Holds(w, k, h) {
    }
    PoolRuns.PoolSetKeeps(w.reg, c.t.id, c.sql, c.t.slug, c.sql);
    assert PoolRuns.Good(later.reg);
    forall h ensures PoolRuns.Total(later.reg, h) == if h !in w.dbOf || InCall(later, h) then 0 else 1 {
      FinishTotal(w, cfg, cid, ok, pool, h);
      if h == c.sql {
        assert !InCall(later, h);
      } else {
        InOtherCalls(w, later, cid, h);
      }
    }
  }

  lemma FinishTotal(w: World, cfg: Config, cid: nat, ok: bool, pool: Handle, h: Handle)
    requires PoolRuns.Good(w.reg) && cid in w.calls && w.calls[cid].Migrating? && PoolRuns.Total(w.reg, w.calls[cid].sql) == 0
    ensures PoolRuns.Total(Settled(w, cfg, cid, ok, pool).reg, h) == PoolRuns.Total(w.reg, h) + if h == w.calls[cid].sql then 1 else 0
  {
    var c := w.calls[cid];
    PoolRuns.CountOne(c.sql, h);
    if ok {
      PoolRuns.PoolSetKeeps(w.reg, c.t.id, c.sql, c.t.slug, h);
    } else {
      CountInAppend(w.reg.ended, [c.sql], {h});
    }
  }

  lemma ConservedSettle(w: World, cfg: Config, cid: nat, ok: bool, pool: Handle)
    requires Conserved(w) && cid in w.calls && !w.calls[cid].Migrating? && pool !in w.dbOf
    ensures Conserved(Settled(w, cfg, cid, ok, pool))
  {
    var later := Settled(w, cfg, cid, ok, pool);
    var opens := w.calls[cid].CreatingDb? && ok;
    forall k, h ensures Holds(later, k, h) <==> Holds(w, k, h) || (opens && k == cid && h == pool) {
    }
    forall h ensures PoolRuns.Total(later.reg, h) == if h !in later.dbOf || InCall(later, h) then 0 else 1 {
      if opens && h == pool {
        assert Holds(later, cid, h);
      } else {
        InOtherCalls(w, later, cid, h);
      }
    }
  }

  /** Nothing but the registry's own bookkeeping changed. */
  lemma ConservedSame(w: World, later: World)
    requires Conserved(w) && w.dbOf == later.dbOf && PoolRuns.Good(later.reg)
    requires forall h :: PoolRuns.Total(later.reg, h) == PoolRuns.Total(w.reg, h)
    requires forall k, h :: Holds(later, k, h) <==> Holds(w, k, h)
    ensures Conserved(later)
  {
    forall h ensures InCall(later, h) <==> InCall(w, h) {
      if InCall(w, h) {
        var k :| Holds(w, k, h);
        assert Holds(later, k, h);
      }
    }
  }

  lemma ConservedBegin(w: World, cfg: Config, cid: nat, t: Tenant, wellFormed: bool)
    requires Conserved(w) && cid !in w.calls
    ensures Conserved(Begun(w, cfg, cid, t, wellFormed))
  {
    var later := Begun(w, cfg, cid, t, wellFormed);
    PoolRuns.GotKeeps(w.reg, t.id, 0);
    forall h ensures PoolRuns.Total(later.reg, h) == PoolRuns.Total(w.reg, h) {
      PoolRuns.GotKeeps(w.reg, t.id, h);
    }
    ConservedSame(w, later);
  }

  lemma ConservedOther(w: World, cfg: Config, p: PoolRuns.Event)
    requires Conserved(w) && Legal(w, Other(p))
    ensures Conserved(Step(w, cfg, Other(p)))
  {
    var later := Step(w, cfg, Other(p));
    PoolRuns.StepKeeps(w.reg, p, 0);
    forall h ensures PoolRuns.Total(later.reg, h) == PoolRuns.Total(w.reg, h) {
      PoolRuns.StepKeeps(w.reg, p, h);
    }
    ConservedSame(w, later);
  }

  lemma ConservedStep(w: World, cfg: Config, e: Event)
    requires Conserved(w) && Legal(w, e)
    ensures Conserved(Step(w, cfg, e))
  {
    match e
    case Begin(cid, t, wellFormed) => ConservedBegin(w, cfg, cid, t, wellFormed);
    case Settle(cid, ok, pool) =>
      if w.calls[cid].Migrating? {
        ConservedFinish(w, cfg, cid, ok, pool);
      } else {
        ConservedSettle(w, cfg, cid, ok, pool);
      }
    case Other(p) => ConservedOther(w, cfg, p);
  }

  lemma InitConserved(w: World, cfg: Config)
    requires Init(w, cfg)
    ensures Conserved(w)
  {
  }

  lemma {:induction false} RunConserved(w: World, cfg: Config, events: seq<Event>)
    requires Conserved(w)
    ensures Conserved(Run(w, cfg, events))
  {
    if events != [] {
      var before := Run(w, cfg, events[..|events| - 1]);
      RunConserved(w, cfg, events[..|events| - 1]);
      if Legal(before, events[|events| - 1]) {
        ConservedStep(before, cfg, events[|events| - 1]);
      }
    }
  }

  /** In every run each pool storeFor opened is migrating in one call, or live, or pending, or ended once. */
  lemma NoPoolLeaks(w: World, cfg: Config, events: seq<Event>)
    requires Init(w, cfg)
    ensures Conserved(Run(w, cfg, events))
  {
    InitConserved(w, cfg);
    RunConserved(w, cfg, events);
  }

  // ---------------------------------------------------------------------------------------------
  // A call left alone
  // ---------------------------------------------------------------------------------------------

  /** The next `n` awaits of one call, all succeeding; a finished call ignores the rest. */
  function Alone(w: World, cfg: Config, cid: nat, pool: Handle, n: nat): World
    requires cid in w.calls
    decreases n
  {
    if n == 0 then w else Alone(Settled(w, cfg, cid, true, pool), cfg, cid, pool, n - 1)
  }

  lemma {:induction false} FinishedStays(w: World, cfg: Config, cid: nat, pool: Handle, n: nat)
    requires cid in w.calls && (w.calls[cid].Returned? || w.calls[cid].Refused?)
    ensures Alone(w, cfg, cid, pool, n) == w
    decreases n
  {
    if n > 0 {
      FinishedStays(w, cfg, cid, pool, n - 1);
    }
  }

  /** From the moment its pair is bound, a call creates, migrates and registers its pool. */
  lemma ServesOnceBound(w: World, cfg: Config, cid: nat, t: Tenant, pool: Handle, n: nat)
    requires cid in w.calls && w.calls[cid] == CreatingDb(t) && n >= 2
    ensures var now := Alone(w, cfg, cid, pool, n);
            cid in now.calls && now.calls[cid] == Returned(t, pool) && Has(now.reg.live, t.id) && EntryOf(now.reg.live, t.id).sql == pool
  {
    var w1 := Settled(w, cfg, cid, true, pool);
    assert w1.calls[cid] == Migrating(t, pool) && w1.reg == w.reg;
    var w2 := Settled(w1, cfg, cid, true, pool);
    assert w2.calls[cid] == Returned(t, pool) && w2.reg == PoolSet(w.reg, t.id, pool, t.slug);
    AloneStep(w, cfg, cid, pool, n);
    AloneStep(w1, cfg, cid, pool, n - 1);
    FinishedStays(w2, cfg, cid, pool, n - 2);
    NewestIsLive(w.reg, t.id, pool, t.slug);
  }

  lemma AloneStep(w: World, cfg: Config, cid: nat, pool: Handle, n: nat)
    requires cid in w.calls && n > 0
    ensures cid in Settled(w, cfg, cid, true, pool).calls
    ensures Alone(w, cfg, cid, pool, n) == Alone(Settled(w, cfg, cid, true, pool), cfg, cid, pool, n - 1)
  {
  }

  /** A pair nobody claimed is inserted, found, and served. */
  lemma ServesUnclaimed(w: World, cfg: Config, cid: nat, t: Tenant, pool: Handle)
    requires OneToOne(w.catalog) && !TouchedBy(w.catalog, t) && cid in w.calls && w.calls[cid] == Inserting(t, w.controlGen)
    ensures var now := Alone(w, cfg, cid, pool, 4);
            cid in now.calls && now.calls[cid] == Returned(t, pool) && Has(now.reg.live, t.id) && EntryOf(now.reg.live, t.id).sql == pool
  {
    InsertKeeps(w.catalog, t, DbName(cfg, t.slug));
    var added := Inserted(w.catalog, t, DbName(cfg, t.slug));
    CheckedMeans(added, t);
    assert added[|w.catalog|].tenant == t;
    var w1 := Settled(w, cfg, cid, true, pool);
    var w2 := Settled(w1, cfg, cid, true, pool);
    assert Alone(w, cfg, cid, pool, 4) == Alone(w1, cfg, cid, pool, 3) == Alone(w2, cfg, cid, pool, 2);
    ServesOnceBound(w2, cfg, cid, t, pool, 2);
  }

  /** A cold call none of whose operations fails: it is served exactly when the catalog binds neither name to another pair. */
  lemma ColdStart(w: World, cfg: Config, cid: nat, t: Tenant, pool: Handle)
    requires Inv(w, cfg) && !w.reg.closing && !Has(w.reg.live, t.id) && Servable(cfg, t.slug) && cid !in w.calls
    ensures var now := Alone(Begun(w, cfg, cid, t, true), cfg, cid, pool, 6);
            cid in now.calls &&
            if TouchedBy(w.catalog, t) && !Binds(w.catalog, t) then
              now == w.(calls := w.calls[cid := Refused(t, WrongIdentity)])
            else
              now.calls[cid] == Returned(t, pool) && Has(now.reg.live, t.id) && EntryOf(now.reg.live, t.id).sql == pool
  {
    CheckedMeans(w.catalog, t);
    var w0 := Begun(w, cfg, cid, t, true);
    var w1 := Settled(w0, cfg, cid, true, pool);
    var w2 := Settled(w1, cfg, cid, true, pool);
    assert Alone(w0, cfg, cid, pool, 6) == Alone(w1, cfg, cid, pool, 5) == Alone(w2, cfg, cid, pool, 4);
    if Binds(w.catalog, t) {
      ServesOnceBound(w2, cfg, cid, t, pool, 4);
    } else if TouchedBy(w.catalog, t) {
      FinishedStays(w2, cfg, cid, pool, 4);
    } else {
      ServesUnclaimed(w2, cfg, cid, t, pool);
    }
  }

  lemma NewestIsLive(r: Registry, id: TenantId, sql: Handle, slug: string)
    ensures var now := PoolSet(r, id, sql, slug).live; Has(now, id) && EntryOf(now, id).sql == sql
  {
    var s := Displaced(Evicted(r, id), id, sql).live;
    if Has(s, id) {
      assert PoolSet(r, id, sql, slug).live[IndexOf(s, id)].tenantId == id;
    } else {
      assert PoolSet(r, id, sql, slug).live[|s|].tenantId == id;
    }
  }
}
