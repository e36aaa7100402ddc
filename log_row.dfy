/** `src/components/audit/LogRow.tsx`: the labels of one audit-log row. */
module LogRow {
  import opened Wrappers
  import opened JsonValues
  import opened AuditLogs

  /** Who the row says acted. */
  datatype ActorLabel =
    | Named(name: Json)        // the `actor_name` from `meta`
    | You                      // "Você"
    | ByUserId(userId: string) // the raw user id
    | SystemActor              // "Sistema"

  /** `actorLabel`: the actor's name when there is one; otherwise "Você" for
      the signed-in user's own non-empty id; otherwise the row's user id, or
      "Sistema" without one. */
  function ActorLabelOf(log: AuditLogWithMeta, currentUserId: Option<string>): (r: ActorLabel)
    ensures log.actorName != JNull ==> r == Named(log.actorName)
    ensures log.actorName == JNull ==>
              && (r == You <==> log.log.userId.Some? && log.log.userId.value != "" && currentUserId == log.log.userId)
              && (r == SystemActor <==> log.log.userId.None?)
              && (r.ByUserId? ==> Some(r.userId) == log.log.userId)
    ensures !r.Named? ==> log.actorName == JNull
  {
    if log.actorName != JNull then Named(log.actorName)
    else if log.log.userId.Some? && log.log.userId.value != "" && currentUserId == log.log.userId then You
    else if log.log.userId.Some? then ByUserId(log.log.userId.value)
    else SystemActor
  }

  /** Another user's row, without a recorded actor, shows that user's id; an
      empty id is shown as it is rather than as "Você". */
  lemma OtherUsersShowTheirId(log: AuditLogWithMeta, me: Option<string>)
    requires log.actorName == JNull && log.log.userId.Some?
    requires me != log.log.userId || log.log.userId.value == ""
    ensures ActorLabelOf(log, me) == ByUserId(log.log.userId.value)
  {
  }

  /** `ACTION_META` labels. */
  function ActionLabel(action: AuditActionType): (r: string)
    ensures action == Created <==> r == "Criado"
    ensures action == Updated <==> r == "Atualizado"
    ensures action == Deleted <==> r == "Removido"
  {
    match action
    case Created => "Criado"
    case Updated => "Atualizado"
    case Deleted => "Removido"
  }

  /** `ENTITY_LABEL`. */
  function EntityLabel(entity: AuditEntityType): (r: string)
    ensures entity == TransactionEntity <==> r == "Transação"
    ensures entity == CategoryEntity <==> r == "Categoria"
    ensures entity == AccountEntity <==> r == "Conta"
  {
    match entity
    case TransactionEntity => "Transação"
    case CategoryEntity => "Categoria"
    case AccountEntity => "Conta"
  }

  const NoDescription: string := "Ação registrada sem descrição"

  /** The row's message, with a fixed text for a log without one. */
  function MessageOf(log: AuditLogWithMeta): (r: string)
    ensures log.log.message.Some? ==> r == log.log.message.value
    ensures log.log.message.None? ==> r == NoDescription
  {
    log.log.message.GetOr(NoDescription)
  }

  /** The " • Dono: …" suffix appears only for a truthy owner name. */
  function OwnerSuffix(log: AuditLogWithMeta): (r: Option<Json>)
    ensures r.Some? <==> Truthy(log.ownerName)
    ensures r.Some? ==> r.value == log.ownerName
  {
    if Truthy(log.ownerName) then Some(log.ownerName) else None
  }

  /** A log whose `meta` names an actor shows that name, whatever it is and
      whoever is signed in; a log with neither `meta` nor user shows
      "Sistema". */
  lemma MetaActorWins(record: AuditLog, name: Json, me: Option<string>)
    requires record.meta.JObject? && Lookup(record.meta.entries, "actor_name") == Some(name) && name != JNull
    ensures ActorLabelOf(MapAuditLog(record), me) == Named(name)
    ensures ActorLabelOf(MapAuditLog(record.(meta := JNull, userId := None)), me) == SystemActor
  {
  }
}
