/** `src/pages/Logs.tsx`: the audit-log filters. The page's filter fields
    are the `LogsFilters` class; `Filters` is the query they produce. */
module LogsPage {
  import opened Wrappers
  import opened Text
  import opened AuditLogs

  /** A select whose "all" entry stands for no filter. */
  datatype Choice<T> = All | Only(value: T)

  /** `AuditLogFilters` as the page fills it in (it never sets `entityId`). */
  datatype AuditLogFilters = AuditLogFilters(
    entityType: Option<AuditEntityType>,
    action: Option<AuditActionType>,
    userId: Option<string>,
    search: Option<string>,
    startDate: Option<string>,
    endDate: Option<string>)

  const NoFilters: AuditLogFilters := AuditLogFilters(None, None, None, None, None, None)

  function ChoiceFilter<T>(choice: Choice<T>): (r: Option<T>)
    ensures r.None? <==> choice.All?
    ensures r.Some? ==> r.value == choice.value
  {
    match choice
    case All => None
    case Only(v) => Some(v)
  }

  /** A text filter: the trimmed text, or none when it is blank. */
  function TrimmedFilter(text: string): (r: Option<string>)
    ensures r.None? <==> AllWhitespace(text)
    ensures r.Some? ==> r.value == Trim(text) && r.value != ""
  {
    TrimProperties(text);
    if Trim(text) != "" then Some(Trim(text)) else None
  }

  /** The first and last instant of a picked day, in UTC. */
  function DayStart(day: string): string { day + "T00:00:00Z" }

  function DayEnd(day: string): string { day + "T23:59:59Z" }

  class LogsFilters {
    var entityType: Choice<AuditEntityType>
    var actionType: Choice<AuditActionType>
    var search: string
    var userId: string
    var startDate: string
    var endDate: string

    /** The initial state: every select on "all", every text empty. */
    constructor ()
      ensures entityType == All && actionType == All
      ensures search == "" && userId == "" && startDate == "" && endDate == ""
    {
      entityType, actionType := All, All;
      search, userId, startDate, endDate := "", "", "", "";
    }

    /** The `filters` memo: "all" is no filter; the user filter is for staff
        only; texts are trimmed and dropped when blank; a picked day becomes
        its first or last second in UTC. */
    function Filters(isStaff: bool): (r: AuditLogFilters)
      reads this
      ensures r.entityType == ChoiceFilter(entityType) && r.action == ChoiceFilter(actionType)
      ensures r.userId.Some? <==> isStaff && !AllWhitespace(userId)
      ensures r.userId.Some? ==> r.userId.value == Trim(userId)
      ensures r.search == TrimmedFilter(search)
      ensures r.startDate.Some? <==> startDate != ""
      ensures r.startDate.Some? ==> r.startDate.value == DayStart(startDate)
      ensures r.endDate.Some? <==> endDate != ""
      ensures r.endDate.Some? ==> r.endDate.value == DayEnd(endDate)
    {
      AuditLogFilters(
        ChoiceFilter(entityType),
        ChoiceFilter(actionType),
        if isStaff then TrimmedFilter(userId) else None,
        TrimmedFilter(search),
        if startDate != "" then Some(DayStart(startDate)) else None,
        if endDate != "" then Some(DayEnd(endDate)) else None)
    }

    /** The staff effect: a user who is not staff has the user field
        emptied. */
    method StaffEffect(isStaff: bool)
      modifies this
      ensures !isStaff ==> userId == ""
      ensures isStaff ==> userId == old(userId)
      ensures entityType == old(entityType) && actionType == old(actionType) && search == old(search)
      ensures startDate == old(startDate) && endDate == old(endDate)
      ensures Filters(isStaff) == old(Filters(isStaff))
    {
      if !isStaff && userId != "" {
        userId := "";
      }
    }

    /** `handleClearFilters`: every field back to its initial value, except
        that only staff have the user field cleared. Either way no filter is
        left. */
    method ClearFilters(isStaff: bool)
      modifies this
      ensures entityType == All && actionType == All
      ensures search == "" && startDate == "" && endDate == ""
      ensures userId == (if isStaff then "" else old(userId))
      ensures Filters(isStaff) == NoFilters
    {
      entityType := All;
      actionType := All;
      search := "";
      if isStaff {
        userId := "";
      }
      startDate := "";
      endDate := "";
      TrimProperties("");
    }
  }

  /** Spaces around a search or user id do not change the query. */
  lemma SurroundingSpacesIgnored(text: string)
    ensures TrimmedFilter(Trim(text)) == TrimmedFilter(text)
  {
    TrimIdempotent(text);
    TrimProperties(text);
    TrimProperties(Trim(text));
  }

  /** The bounds of a picked day, `T00:00:00Z` and `T23:59:59Z`, take in
      every UTC timestamp of that day to the second, and no timestamp of an
      earlier or later day of the same `yyyy-MM-dd` form. */
  lemma DayBoundsBracketDay(day: string, other: string, time: string)
    requires StrLe("00:00:00Z", time) && StrLe(time, "23:59:59Z")
    requires |other| == |day|
    ensures StrLe(DayStart(day), day + "T" + time) && StrLe(day + "T" + time, DayEnd(day))
    ensures StrLt(other, day) ==> StrLt(other + "T" + time, DayStart(day))
    ensures StrLt(day, other) ==> StrLt(DayEnd(day), other + "T" + time)
  {
    assert DayStart(day) == day + ("T" + "00:00:00Z");
    assert DayEnd(day) == day + ("T" + "23:59:59Z");
    assert day + "T" + time == day + ("T" + time);
    assert other + "T" + time == other + ("T" + time);
    StrLeCommonPrefix(day, "T" + "00:00:00Z", "T" + time);
    StrLeCommonPrefix(day, "T" + time, "T" + "23:59:59Z");
    StrLeCommonPrefix("T", "00:00:00Z", time);
    StrLeCommonPrefix("T", time, "23:59:59Z");
    if StrLt(other, day) {
      StrLtSameLength(other, day, "T" + time, "T" + "00:00:00Z");
    }
    if StrLt(day, other) {
      StrLtSameLength(day, other, "T" + "23:59:59Z", "T" + time);
    }
  }
}
