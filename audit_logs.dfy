/** `src/hooks/useAuditLogs.tsx`: the audit-log row and `mapAuditLog`, which
    lifts the actor and owner out of the row's `meta` column. */
module AuditLogs {
  import opened Wrappers
  import opened JsonValues

  datatype AuditEntityType = TransactionEntity | CategoryEntity | AccountEntity

  datatype AuditActionType = Created | Updated | Deleted

  /** An `audit_logs` row; `changes` and `meta` are `JNull` when null. */
  datatype AuditLog = AuditLog(
    id: string,
    entityType: AuditEntityType,
    entityId: string,
    action: AuditActionType,
    userId: Option<string>,
    message: Option<string>,
    changes: Json,
    createdAt: string,
    meta: Json)

  /** `AuditLogWithMeta`: the row and the three values taken from `meta`. The
      `as string | null` casts do not convert, so the values are kept as
      they are. */
  datatype AuditLogWithMeta = AuditLogWithMeta(
    log: AuditLog,
    actorName: Json,
    ownerName: Json,
    ownerId: Json)

  /** One attribute of `mapAuditLog`: the value under `key` when `meta` (or
      `{}` for a null `meta`) is an object having the key, else `null`. An
      array is an object for `typeof` but never has these keys. */
  function MetaValue(meta: Json, key: string): (r: Json)
    ensures meta.JObject? && HasKey(meta.entries, key) ==> Some(r) == Lookup(meta.entries, key)
    ensures !(meta.JObject? && HasKey(meta.entries, key)) ==> r == JNull
  {
    if meta.JObject? then Lookup(meta.entries, key).GetOr(JNull) else JNull
  }

  /** `mapAuditLog`. */
  function MapAuditLog(record: AuditLog): (r: AuditLogWithMeta)
    ensures r.log == record
    ensures r.actorName == MetaValue(record.meta, "actor_name")
    ensures r.ownerName == MetaValue(record.meta, "owner_name")
    ensures r.ownerId == MetaValue(record.meta, "owner_id")
  {
    var meta := if record.meta == JNull then JObject([]) else record.meta;
    AuditLogWithMeta(
      record,
      MetaValue(meta, "actor_name"),
      MetaValue(meta, "owner_name"),
      MetaValue(meta, "owner_id"))
  }

  /** A row without `meta` has no actor, owner or owner id. */
  lemma NullMetaGivesNulls(record: AuditLog)
    requires record.meta == JNull || record.meta.JArray? || record.meta.JString?
    ensures var r := MapAuditLog(record);
            r.actorName == JNull && r.ownerName == JNull && r.ownerId == JNull
  {
  }

  /** The actor is the value written under `actor_name`, whichever other
      keys `meta` has and in whatever order. */
  lemma ActorFromMeta(record: AuditLog, before: seq<(string, Json)>, name: Json, after: seq<(string, Json)>)
    requires record.meta == JObject(before + [("actor_name", name)] + after)
    requires !HasKey(before, "actor_name")
    ensures MapAuditLog(record).actorName == name
  {
    var entries := before + [("actor_name", name)] + after;
    assert entries[|before|] == ("actor_name", name);
    LookupPastPrefix(before, ("actor_name", name), after);
  }

  lemma {:induction false} LookupPastPrefix(before: seq<(string, Json)>, entry: (string, Json), after: seq<(string, Json)>)
    requires !HasKey(before, entry.0)
    ensures Lookup(before + [entry] + after, entry.0) == Some(entry.1)
  {
    if before != [] {
      assert (before + [entry] + after)[1..] == before[1..] + [entry] + after;
      assert forall i :: 0 <= i < |before[1..]| ==> before[1..][i] == before[i + 1];
      LookupPastPrefix(before[1..], entry, after);
    }
  }
}
