/**
  The tenant catalog and its claim protocol (modules/calendar/src/tenant-store.ts): one row per
  tenant, one tenant per slug, a row inserted only by a claim and never changed.
*/
module CatalogBinding {
  import opened PoolRegistry

  datatype Tenant = Tenant(id: TenantId, slug: string)

  /** A row of tenant_catalog; tenant_id is its primary key and slug is UNIQUE. */
  datatype Row = Row(tenant: Tenant, dbName: string)

  type Catalog = seq<Row>

  predicate Touches(r: Row, t: Tenant) { r.tenant.id == t.id || r.tenant.slug == t.slug }

  /** SELECT … WHERE tenant_id = $1 OR slug = $2 */
  function Touching(rows: Catalog, t: Tenant): Catalog {
    if rows == [] then [] else (if Touches(rows[0], t) then [rows[0]] else []) + Touching(rows[1..], t)
  }

  datatype Check = Bound(count: nat) | Mismatch(bound: Tenant)

  /** Every selected row must be exactly the pair; the first that is not refuses. */
  function Refusal(selected: Catalog, t: Tenant): Check {
    if selected == [] then Bound(0)
    else if selected[0].tenant != t then Mismatch(selected[0].tenant)
    else match Refusal(selected[1..], t) case Bound(n) => Bound(n + 1) case m => m
  }

  function Checked(rows: Catalog, t: Tenant): Check { Refusal(Touching(rows, t), t) }

  /** INSERT … ON CONFLICT DO NOTHING, under both unique constraints. */
  function Inserted(rows: Catalog, t: Tenant, dbName: string): Catalog {
    if Touching(rows, t) != [] then rows else rows + [Row(t, dbName)]
  }

  function InsertedAll(rows: Catalog, claims: seq<Row>): Catalog
    decreases claims
  {
    if claims == [] then rows else InsertedAll(Inserted(rows, claims[0].tenant, claims[0].dbName), claims[1..])
  }

  // ---------------------------------------------------------------------------------------------
  // One-to-one catalogs
  // ---------------------------------------------------------------------------------------------

  ghost predicate OneToOne(rows: Catalog) {
    forall i, j | 0 <= i < j < |rows| :: rows[i].tenant.id != rows[j].tenant.id && rows[i].tenant.slug != rows[j].tenant.slug
  }

  ghost predicate Binds(rows: Catalog, t: Tenant) { exists i :: 0 <= i < |rows| && rows[i].tenant == t }

  ghost predicate TouchedBy(rows: Catalog, t: Tenant) { exists i :: 0 <= i < |rows| && Touches(rows[i], t) }

  lemma {:induction false} NothingTouches(rows: Catalog, t: Tenant)
    ensures Touching(rows, t) == [] <==> !TouchedBy(rows, t)
  {
    if rows != [] {
      NothingTouches(rows[1..], t);
      if Touches(rows[0], t) {
      } else if TouchedBy(rows[1..], t) {
        var i :| 0 <= i < |rows[1..]| && Touches(rows[1..][i], t);
        assert Touches(rows[i + 1], t);
      } else {
        forall i | 0 <= i < |rows| ensures !Touches(rows[i], t) {
          assert i > 0 ==> rows[i] == rows[1..][i - 1];
        }
      }
    }
  }

  lemma {:induction false} OnlyOwnRow(rows: Catalog, t: Tenant, k: nat)
    requires OneToOne(rows) && k < |rows| && rows[k].tenant == t
    ensures Touching(rows, t) == [rows[k]]
  {
    if k == 0 {
      forall i | 0 <= i < |rows[1..]| ensures !Touches(rows[1..][i], t) {
        assert rows[1..][i] == rows[i + 1];
      }
      NothingTouches(rows[1..], t);
    } else {
      OnlyOwnRow(rows[1..], t, k - 1);
      assert !Touches(rows[0], t);
    }
  }

  lemma {:induction false} ForeignRowRefuses(rows: Catalog, t: Tenant)
    requires !Binds(rows, t)
    ensures Checked(rows, t) == Bound(0) || Checked(rows, t).Mismatch?
  {
    if rows != [] {
      forall i | 0 <= i < |rows[1..]| ensures rows[1..][i].tenant != t {
        assert rows[1..][i] == rows[i + 1];
      }
      assert rows[0].tenant != t;
      ForeignRowRefuses(rows[1..], t);
      if !Touches(rows[0], t) {
        assert Touching(rows, t) == Touching(rows[1..], t);
      }
    }
  }

  /** The three answers of assertCatalogBinding on a one-to-one catalog. */
  lemma CheckedMeans(rows: Catalog, t: Tenant)
    requires OneToOne(rows)
    ensures Checked(rows, t) == Bound(1) <==> Binds(rows, t)
    ensures Checked(rows, t) == Bound(0) <==> !TouchedBy(rows, t)
    ensures Checked(rows, t).Mismatch? <==> TouchedBy(rows, t) && !Binds(rows, t)
  {
    NothingTouches(rows, t);
    if Binds(rows, t) {
      var k :| 0 <= k < |rows| && rows[k].tenant == t;
      OnlyOwnRow(rows, t, k);
      assert Touches(rows[k], t);
      assert Refusal([rows[k]][1..], t) == Bound(0);
    } else {
      ForeignRowRefuses(rows, t);
    }
  }

  /** An insert keeps the catalog one-to-one, keeps every row, and leaves the id and the slug taken. */
  lemma InsertKeeps(rows: Catalog, t: Tenant, dbName: string)
    requires OneToOne(rows)
    ensures OneToOne(Inserted(rows, t, dbName)) && rows <= Inserted(rows, t, dbName)
    ensures TouchedBy(Inserted(rows, t, dbName), t)
    ensures TouchedBy(rows, t) ==> Inserted(rows, t, dbName) == rows
    ensures !TouchedBy(rows, t) ==> Inserted(rows, t, dbName) == rows + [Row(t, dbName)]
  {
    NothingTouches(rows, t);
    if !TouchedBy(rows, t) {
      assert Touches((rows + [Row(t, dbName)])[|rows|], t);
    }
  }

  lemma {:induction false} InsertAllKeeps(rows: Catalog, claims: seq<Row>)
    requires OneToOne(rows)
    ensures OneToOne(InsertedAll(rows, claims)) && rows <= InsertedAll(rows, claims)
    decreases claims
  {
    if claims != [] {
      InsertKeeps(rows, claims[0].tenant, claims[0].dbName);
      InsertAllKeeps(Inserted(rows, claims[0].tenant, claims[0].dbName), claims[1..]);
    }
  }

  lemma BoundPairs(rows: Catalog, a: Tenant, b: Tenant)
    requires OneToOne(rows) && Binds(rows, a) && Binds(rows, b)
    ensures a.id == b.id <==> a.slug == b.slug
  {
    var i :| 0 <= i < |rows| && rows[i].tenant == a;
    var j :| 0 <= j < |rows| && rows[j].tenant == b;
  }

  lemma BindsLater(rows: Catalog, later: Catalog, t: Tenant)
    requires rows <= later
    ensures Binds(rows, t) ==> Binds(later, t)
    ensures TouchedBy(rows, t) ==> TouchedBy(later, t)
  {
    if Binds(rows, t) {
      var i :| 0 <= i < |rows| && rows[i].tenant == t;
      assert later[i].tenant == t;
    }
    if TouchedBy(rows, t) {
      var i :| 0 <= i < |rows| && Touches(rows[i], t);
      assert Touches(later[i], t);
    }
  }

  // ---------------------------------------------------------------------------------------------
  // The claim, with other claims landing at every await
  // ---------------------------------------------------------------------------------------------

  datatype ClaimResult = Claimed | IdentityMismatch(bound: Tenant) | DidNotLand

  class TenantCatalog {
    var rows: Catalog

    constructor ()
      ensures rows == []
    {
      rows := [];
    }

    method AssertCatalogBinding(t: Tenant) returns (check: Check)
      ensures check == Checked(rows, t)
    {
      var selected := Touching(rows, t);
      for i := 0 to |selected|
        invariant forall k | 0 <= k < i :: selected[k].tenant == t
      {
        if selected[i].tenant != t {
          RefusalAt(selected, t, i);
          return Mismatch(selected[i].tenant);
        }
      }
      AllExact(selected, t);
      check := Bound(|selected|);
    }

    /** `before` and `between` are the claims of other callers that land while this one awaits. */
    method ClaimCatalog(t: Tenant, dbName: string, before: seq<Row>, between: seq<Row>) returns (result: ClaimResult)
      requires OneToOne(rows)
      modifies this
      ensures OneToOne(rows) && old(rows) <= rows
      ensures rows == if TouchedBy(old(rows), t) then old(rows)
                      else InsertedAll(Inserted(InsertedAll(old(rows), before), t, dbName), between)
      ensures result.Claimed? <==> Binds(rows, t)
      ensures result.IdentityMismatch? ==> TouchedBy(rows, t) && (!Binds(old(rows), t))
      ensures result != DidNotLand
      ensures !TouchedBy(old(rows), t) && before == [] ==> result == Claimed && Row(t, dbName) in rows
      ensures TouchedBy(old(rows), t) ==> rows == old(rows)
    {
      var first := AssertCatalogBinding(t);
      CheckedMeans(rows, t);
      if first.Mismatch? {
        return IdentityMismatch(first.bound);
      } else if first.count == 1 {
        return Claimed;
      }
      InsertAllKeeps(rows, before);
      rows := InsertedAll(rows, before);
      InsertKeeps(rows, t, dbName);
      rows := Inserted(rows, t, dbName);
      ghost var inserted := rows;
      InsertAllKeeps(rows, between);
      rows := InsertedAll(rows, between);
      BindsLater(inserted, rows, t);
      var second := AssertCatalogBinding(t);
      CheckedMeans(rows, t);
      if before == [] && !TouchedBy(old(rows), t) {
        assert inserted[|inserted| - 1] == Row(t, dbName);
        assert inserted[|inserted| - 1].tenant == t;
        assert rows[|inserted| - 1] == Row(t, dbName);
      }
      match second
      case Mismatch(bound) => result := IdentityMismatch(bound);
      case Bound(n) => result := if n == 1 then Claimed else DidNotLand;
    }
  }

  lemma {:induction false} RefusalAt(selected: Catalog, t: Tenant, i: nat)
    requires i < |selected| && selected[i].tenant != t && forall k | 0 <= k < i :: selected[k].tenant == t
    ensures Refusal(selected, t) == Mismatch(selected[i].tenant)
  {
    if i > 0 {
      RefusalAt(selected[1..], t, i - 1);
    }
  }

  lemma {:induction false} AllExact(selected: Catalog, t: Tenant)
    requires forall k | 0 <= k < |selected| :: selected[k].tenant == t
    ensures Refusal(selected, t) == Bound(|selected|)
  {
    if selected != [] {
      AllExact(selected[1..], t);
    }
  }
}
