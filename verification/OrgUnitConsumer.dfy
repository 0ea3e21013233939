/**
  From envelope to mirror (modules/finance/src/org-unit-consumer.ts): parsing an event envelope,
  and routing it to the database of its tenant. A malformed event, an unknown event type and an
  unknown tenant are all acknowledged without effect.
*/
module OrgUnitConsumer {
  import opened Wrappers
  import opened OrgUnitMirror

  /** A payload value, as far as the parser looks: a string, or anything else. */
  datatype Json = Text(text: string) | NotText

  datatype Envelope = Envelope(eventId: string, eventType: string, tenantId: string, occurredAt: int, payload: map<string, Json>)

  function TextOf(payload: map<string, Json>, field: string): Option<string> {
    if field in payload && payload[field].Text? then Some(payload[field].text) else None
  }

  function TextOr(payload: map<string, Json>, field: string, default: string): string {
    match TextOf(payload, field) case Some(t) => t case None => default
  }

  function ParseOp(env: Envelope): Option<Op> {
    if env.eventType != "upserted" && env.eventType != "deleted" then None
    else match TextOf(env.payload, "id")
      case None => None
      case Some(id) =>
        if id == "" then None
        else if env.eventType == "deleted" then Some(Delete(env.eventId, env.occurredAt, id))
        else
          var parent := TextOr(env.payload, "parent_id", "");
          Some(Upsert(env.eventId, env.occurredAt, id, TextOr(env.payload, "name", ""), TextOr(env.payload, "kind", ""),
                      if parent == "" then None else Some(parent)))
  }

  /** The envelope the kernel's relay publishes for one change. */
  function Published(op: Op, tenantId: string): Envelope {
    match op
    case Delete(eventId, at, id) => Envelope(eventId, "deleted", tenantId, at, map["id" := Text(id)])
    case Upsert(eventId, at, id, name, kind, parentId) =>
      Envelope(eventId, "upserted", tenantId, at,
               map["id" := Text(id), "name" := Text(name), "kind" := Text(kind),
                   "parent_id" := if parentId.Some? then Text(parentId.value) else NotText])
  }

  /** Parsing undoes publishing for every operation that names an org unit (and a non-empty parent, if any). */
  lemma ParsePublished(op: Op, tenantId: string)
    ensures ParseOp(Published(op, tenantId)) == Some(op) <==> op.id != "" && (op.Upsert? ==> op.parentId != Some(""))
  {
    var p := Published(op, tenantId).payload;
    assert TextOf(p, "id") == Some(op.id);
    if op.Upsert? {
      assert TextOr(p, "parent_id", "") == if op.parentId.Some? then op.parentId.value else "";
    }
  }

  function Handle(stores: map<string, Db>, env: Envelope): map<string, Db> {
    match ParseOp(env)
    case None => stores
    case Some(op) =>
      if env.tenantId !in stores then stores
      else stores[env.tenantId := Apply(stores[env.tenantId], op).0]
  }

  function HandleAll(stores: map<string, Db>, envs: seq<Envelope>): map<string, Db> {
    if envs == [] then stores else Handle(HandleAll(stores, envs[..|envs| - 1]), envs[|envs| - 1])
  }

  /** The operations one tenant's mirror receives from the shared stream. */
  function OpsFor(tenantId: string, envs: seq<Envelope>): seq<Delivery> {
    if envs == [] then []
    else
      var env := envs[|envs| - 1];
      OpsFor(tenantId, envs[..|envs| - 1]) +
      match ParseOp(env) case Some(op) => (if env.tenantId == tenantId then [Event(op)] else []) case None => []
  }

  /** Each known tenant's mirror is the run of its own operations alone; an unknown tenant never gets one. */
  lemma {:induction false} TenantsAreIsolated(stores: map<string, Db>, envs: seq<Envelope>, tenantId: string)
    requires forall t | t in stores :: stores[t] == EMPTY
    ensures tenantId in HandleAll(stores, envs) <==> tenantId in stores
    ensures tenantId in stores ==> HandleAll(stores, envs)[tenantId] == Run(OpsFor(tenantId, envs))
  {
    if envs != [] {
      var before, env := envs[..|envs| - 1], envs[|envs| - 1];
      TenantsAreIsolated(stores, before, tenantId);
      var ops, all := OpsFor(tenantId, before), OpsFor(tenantId, envs);
      if all != ops {
        assert all[..|all| - 1] == ops;
      }
    }
  }
}
