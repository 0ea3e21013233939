/**
  The resolved audience of the email channel (buildRecipientList,
  modules/content/src/dispatch.ts). Lower-casing, the mailing lists, the groups and the unsubscribed
  addresses are whatever the caller's Directory says.
*/
module RecipientList {
  import opened Wrappers

  datatype Recipient = Recipient(email: string, name: string)

  datatype Ref = Ref(mailingList: Option<nat>, group: Option<nat>)

  datatype Directory = Directory(
    members: nat -> seq<Recipient>, groups: nat -> seq<Recipient>, unsubscribed: set<string>, lower: string -> string)

  /** `m` is member k of the reference's mailing list, or, when it has none, of its group. */
  predicate MemberAt(d: Directory, r: Ref, k: nat, m: Recipient) {
    if r.mailingList.Some? then k < |d.members(r.mailingList.value)| && d.members(r.mailingList.value)[k] == m
    else r.group.Some? && k < |d.groups(r.group.value)| && d.groups(r.group.value)[k] == m
  }

  /** Member k of reference i. */
  datatype Place = Place(i: nat, k: nat)

  predicate Before(p: Place, q: Place) { p.i < q.i || (p.i == q.i && p.k < q.k) }

  predicate At(d: Directory, refs: seq<Ref>, p: Place, m: Recipient) { p.i < |refs| && MemberAt(d, refs[p.i], p.k, m) }

  /** The first place, in the order of the references and of the members within each, with this address. */
  ghost predicate FirstPlace(d: Directory, refs: seq<Ref>, p: Place, address: string) {
    && (exists m :: At(d, refs, p, m) && d.lower(m.email) == address)
    && forall q, m | At(d, refs, q, m) && d.lower(m.email) == address :: q == p || Before(p, q)
  }

  /** The recipient is the member at this place, lowercased, and the first with its address. */
  ghost predicate ComesFrom(d: Directory, refs: seq<Ref>, r: Recipient, p: Place) {
    && (exists m :: At(d, refs, p, m) && r.email == d.lower(m.email) && r.name == m.name)
    && FirstPlace(d, refs, p, r.email)
  }

  /** Recipient k comes from from[k], and earlier recipients from earlier places. */
  ghost predicate Resolves(d: Directory, refs: seq<Ref>, result: seq<Recipient>, from: seq<Place>) {
    && |from| == |result|
    && (forall k | 0 <= k < |from| :: ComesFrom(d, refs, result[k], from[k]))
    && (forall k, l | 0 <= k < l < |from| :: Before(from[k], from[l]))
  }

  /** Some reference has the address. */
  ghost predicate Addressed(d: Directory, refs: seq<Ref>, address: string) {
    exists p, m :: At(d, refs, p, m) && d.lower(m.email) == address
  }

  ghost predicate Listed(list: seq<Recipient>, address: string) { exists k :: 0 <= k < |list| && list[k].email == address }

  /** A reference's mailing list wins over its group; one with neither names nobody. */
  function Batch(d: Directory, r: Ref): seq<Recipient> {
    if r.mailingList.Some? then d.members(r.mailingList.value)
    else if r.group.Some? then d.groups(r.group.value)
    else []
  }

  function Everyone(d: Directory, refs: seq<Ref>): seq<Recipient> {
    if refs == [] then [] else Everyone(d, refs[..|refs| - 1]) + Batch(d, refs[|refs| - 1])
  }

  /** Entry i is subscribed and the first with its address. */
  predicate Kept(d: Directory, all: seq<Recipient>, i: nat)
    requires i < |all|
  {
    d.lower(all[i].email) !in d.unsubscribed && forall j | 0 <= j < i :: d.lower(all[j].email) != d.lower(all[i].email)
  }

  function Lowered(d: Directory, r: Recipient): Recipient { Recipient(d.lower(r.email), r.name) }

  /** The entries kept, lowercased, in their order. */
  function Audience(d: Directory, all: seq<Recipient>): seq<Recipient> {
    if all == [] then []
    else Audience(d, all[..|all| - 1]) + if Kept(d, all, |all| - 1) then [Lowered(d, all[|all| - 1])] else []
  }

  function Addresses(d: Directory, all: seq<Recipient>): set<string> {
    set i | 0 <= i < |all| && d.lower(all[i].email) !in d.unsubscribed :: d.lower(all[i].email)
  }

  lemma AudienceSnoc(d: Directory, all: seq<Recipient>, r: Recipient)
    ensures Audience(d, all + [r]) ==
              Audience(d, all) + if d.lower(r.email) !in d.unsubscribed && d.lower(r.email) !in Addresses(d, all) then [Lowered(d, r)] else []
    ensures Addresses(d, all + [r]) == Addresses(d, all) + if d.lower(r.email) !in d.unsubscribed then {d.lower(r.email)} else {}
  {
    assert (all + [r])[..|all|] == all;
    assert forall j | 0 <= j < |all| :: (all + [r])[j] == all[j];
  }

  ghost predicate Collected(d: Directory, all: seq<Recipient>, seen: set<string>, result: seq<Recipient>) {
    seen == Addresses(d, all) && result == Audience(d, all)
  }

  /**
    An address is in the result exactly when it is subscribed and some reference has it, through its
    mailing list or, having none, through its group; and order and name are those of the first
    member with it, in the order of the references.
  */
  method BuildRecipientList(d: Directory, refs: seq<Ref>) returns (result: seq<Recipient>, ghost from: seq<Place>)
    ensures result == Audience(d, Everyone(d, refs))
    ensures Resolves(d, refs, result, from)
    ensures forall address :: Listed(result, address) <==> address !in d.unsubscribed && Addressed(d, refs, address)
  {
    var seen: set<string> := {};
    result := [];
    ghost var all: seq<Recipient> := [];
    for i := 0 to |refs|
      invariant all == Everyone(d, refs[..i])
      invariant Collected(d, all, seen, result)
    {
      var batch: seq<Recipient> := [];
      if refs[i].mailingList.Some? {
        batch := d.members(refs[i].mailingList.value);
      } else if refs[i].group.Some? {
        batch := d.groups(refs[i].group.value);
      }
      ghost var before := all;
      for k := 0 to |batch|
        invariant all == before + batch[..k]
        invariant Collected(d, all, seen, result)
      {
        AudienceSnoc(d, all, batch[k]);
        assert before + batch[..k + 1] == all + [batch[k]];
        all := all + [batch[k]];
        var lower := d.lower(batch[k].email);
        if lower !in seen && lower !in d.unsubscribed {
          seen := seen + {lower};
          result := result + [Recipient(lower, batch[k].name)];
        }
      }
      assert refs[..i + 1][..i] == refs[..i] && batch[..|batch|] == batch;
    }
    assert refs[..|refs|] == refs;
    from := PlacesOf(d, refs, Origins(d, all));
    AudienceResolves(d, refs);
    ReachesAllReferences(d, refs);
  }

  // ---------------------------------------------------------------------------------------------
  // The places of the concatenated members
  // ---------------------------------------------------------------------------------------------

  /** Where entry j of the concatenated members comes from. */
  function PlaceOf(d: Directory, refs: seq<Ref>, j: nat): Place
    requires j < |Everyone(d, refs)|
  {
    var n := |refs| - 1;
    var before := Everyone(d, refs[..n]);
    if j < |before| then PlaceOf(d, refs[..n], j) else Place(n, j - |before|)
  }

  lemma {:induction false} PlaceIsMember(d: Directory, refs: seq<Ref>, j: nat)
    requires j < |Everyone(d, refs)|
    ensures At(d, refs, PlaceOf(d, refs, j), Everyone(d, refs)[j])
  {
    if j < |Everyone(d, refs[..|refs| - 1])| {
      PlaceIsMember(d, refs[..|refs| - 1], j);
    }
  }

  lemma {:induction false} PlacesAscend(d: Directory, refs: seq<Ref>, j: nat, k: nat)
    requires j < k < |Everyone(d, refs)|
    ensures Before(PlaceOf(d, refs, j), PlaceOf(d, refs, k))
  {
    if j < |Everyone(d, refs[..|refs| - 1])| {
      PlaceIsMember(d, refs[..|refs| - 1], j);
      if k < |Everyone(d, refs[..|refs| - 1])| {
        PlacesAscend(d, refs[..|refs| - 1], j, k);
      }
    }
  }

  /** Every member of every reference is somewhere. */
  lemma {:induction false} MemberHasPlace(d: Directory, refs: seq<Ref>, p: Place, m: Recipient) returns (j: nat)
    requires At(d, refs, p, m)
    ensures j < |Everyone(d, refs)| && Everyone(d, refs)[j] == m && PlaceOf(d, refs, j) == p
  {
    var rest := refs[..|refs| - 1];
    if p.i < |rest| {
      j := MemberHasPlace(d, rest, p, m);
    } else {
      j := |Everyone(d, rest)| + p.k;
    }
  }

  function PlacesOf(d: Directory, refs: seq<Ref>, origins: seq<nat>): seq<Place> {
    seq(|origins|, k requires 0 <= k < |origins| =>
          if origins[k] < |Everyone(d, refs)| then PlaceOf(d, refs, origins[k]) else Place(0, 0))
  }

  lemma FirstEntryFirstPlace(d: Directory, refs: seq<Ref>, i: nat)
    requires i < |Everyone(d, refs)| && Kept(d, Everyone(d, refs), i)
    ensures FirstPlace(d, refs, PlaceOf(d, refs, i), d.lower(Everyone(d, refs)[i].email))
  {
    var all := Everyone(d, refs);
    PlaceIsMember(d, refs, i);
    forall q, m | At(d, refs, q, m) && d.lower(m.email) == d.lower(all[i].email)
      ensures q == PlaceOf(d, refs, i) || Before(PlaceOf(d, refs, i), q)
    {
      var j := MemberHasPlace(d, refs, q, m);
      if j > i {
        PlacesAscend(d, refs, i, j);
      }
    }
  }

  lemma AudienceResolves(d: Directory, refs: seq<Ref>)
    ensures Resolves(d, refs, Audience(d, Everyone(d, refs)), PlacesOf(d, refs, Origins(d, Everyone(d, refs))))
  {
    var all := Everyone(d, refs);
    var origins, result := Origins(d, all), Audience(d, all);
    var from := PlacesOf(d, refs, origins);
    AudienceSelects(d, all);
    forall k | 0 <= k < |from| ensures ComesFrom(d, refs, result[k], from[k]) {
      var m := all[origins[k]];
      PlaceIsMember(d, refs, origins[k]);
      FirstEntryFirstPlace(d, refs, origins[k]);
      assert from[k] == PlaceOf(d, refs, origins[k]);
      assert At(d, refs, from[k], m) && result[k] == Lowered(d, m);
    }
    forall k, l | 0 <= k < l < |from| ensures Before(from[k], from[l]) {
      PlacesAscend(d, refs, origins[k], origins[l]);
    }
  }

  lemma ReachesAllReferences(d: Directory, refs: seq<Ref>)
    ensures forall address ::
              Listed(Audience(d, Everyone(d, refs)), address) <==> address !in d.unsubscribed && Addressed(d, refs, address)
  {
    forall address
      ensures Listed(Audience(d, Everyone(d, refs)), address) <==> address !in d.unsubscribed && Addressed(d, refs, address)
    {
      ReachesReferences(d, refs, address);
    }
  }

  lemma ReachesReferences(d: Directory, refs: seq<Ref>, address: string)
    ensures Listed(Audience(d, Everyone(d, refs)), address) <==> address !in d.unsubscribed && Addressed(d, refs, address)
  {
    var all := Everyone(d, refs);
    ReachesEveryone(d, all, address);
    if i :| 0 <= i < |all| && d.lower(all[i].email) == address {
      PlaceIsMember(d, refs, i);
    }
    if p, m :| At(d, refs, p, m) && d.lower(m.email) == address {
      var j := MemberHasPlace(d, refs, p, m);
    }
  }

  // ---------------------------------------------------------------------------------------------
  // What the audience is
  // ---------------------------------------------------------------------------------------------

  /** Where recipient k came from: the audience is an order-preserving selection of kept entries … */
  ghost predicate Selects(d: Directory, all: seq<Recipient>, from: seq<nat>) {
    && |from| == |Audience(d, all)|
    && (forall k | 0 <= k < |from| :: from[k] < |all| && Kept(d, all, from[k]) && Audience(d, all)[k] == Lowered(d, all[from[k]]))
    && (forall k, l | 0 <= k < l < |from| :: from[k] < from[l])
  }

  /** … and leaves none of them out. */
  ghost predicate Covers(d: Directory, all: seq<Recipient>, from: seq<nat>) {
    forall i | 0 <= i < |all| && Kept(d, all, i) :: i in from
  }

  function Origins(d: Directory, all: seq<Recipient>): seq<nat> {
    if all == [] then []
    else Origins(d, all[..|all| - 1]) + if Kept(d, all, |all| - 1) then [|all| - 1] else []
  }

  lemma KeptPrefix(d: Directory, all: seq<Recipient>, i: nat)
    requires i < |all| - 1
    ensures Kept(d, all[..|all| - 1], i) <==> Kept(d, all, i)
  {
  }

  lemma {:induction false} OriginsSelect(d: Directory, all: seq<Recipient>)
    ensures Selects(d, all, Origins(d, all))
  {
    if all != [] {
      var n := |all| - 1;
      OriginsSelect(d, all[..n]);
      forall i: nat | i < n ensures Kept(d, all[..n], i) <==> Kept(d, all, i) {
        KeptPrefix(d, all, i);
      }
    }
  }

  lemma {:induction false} OriginsCover(d: Directory, all: seq<Recipient>)
    ensures Covers(d, all, Origins(d, all))
  {
    if all != [] {
      var n := |all| - 1;
      OriginsCover(d, all[..n]);
      forall i: nat | i < |all| && Kept(d, all, i) ensures i in Origins(d, all) {
        if i < n {
          KeptPrefix(d, all, i);
        }
      }
    }
  }

  lemma AudienceSelects(d: Directory, all: seq<Recipient>)
    ensures Selects(d, all, Origins(d, all)) && Covers(d, all, Origins(d, all))
  {
    OriginsSelect(d, all);
    OriginsCover(d, all);
  }

  /** No address twice, none unsubscribed, and the name is the one its first occurrence carries. */
  lemma NoDuplicates(d: Directory, all: seq<Recipient>, k: nat, l: nat)
    requires k < l < |Audience(d, all)|
    ensures Audience(d, all)[k].email != Audience(d, all)[l].email
    ensures Audience(d, all)[k].email !in d.unsubscribed && Audience(d, all)[l].email !in d.unsubscribed
  {
    AudienceSelects(d, all);
    var from := Origins(d, all);
    assert from[k] < from[l];
  }

  /** An address is in the audience exactly when some entry has it and it is not unsubscribed. */
  lemma ReachesEveryone(d: Directory, all: seq<Recipient>, address: string)
    ensures (exists k :: 0 <= k < |Audience(d, all)| && Audience(d, all)[k].email == address)
       <==> (address !in d.unsubscribed && exists i :: 0 <= i < |all| && d.lower(all[i].email) == address)
  {
    AudienceSelects(d, all);
    var from := Origins(d, all);
    if address !in d.unsubscribed && exists i :: 0 <= i < |all| && d.lower(all[i].email) == address {
      var i := FirstWith(d, all, address);
      assert Kept(d, all, i);
      var k :| 0 <= k < |from| && from[k] == i;
      assert Audience(d, all)[k].email == address;
    }
  }

  lemma FirstNameWins(d: Directory, all: seq<Recipient>, k: nat, i: nat)
    requires k < |Audience(d, all)| && i < |all| && d.lower(all[i].email) == Audience(d, all)[k].email
    requires forall j | 0 <= j < i :: d.lower(all[j].email) != d.lower(all[i].email)
    ensures Audience(d, all)[k].name == all[i].name
  {
    AudienceSelects(d, all);
    assert Origins(d, all)[k] == i;
  }

  ghost function FirstWith(d: Directory, all: seq<Recipient>, address: string): (i: nat)
    requires exists i :: 0 <= i < |all| && d.lower(all[i].email) == address
    ensures i < |all| && d.lower(all[i].email) == address && forall j | 0 <= j < i :: d.lower(all[j].email) != address
  {
    var rest := all[..|all| - 1];
    if j :| 0 <= j < |rest| && d.lower(rest[j].email) == address then FirstWith(d, rest, address) else |all| - 1
  }
}
