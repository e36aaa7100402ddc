/** `src/pages/Transactions.tsx`: the status, series and account filters and
    their URL parameters, the series scope of a delete or status change, and
    the clone dialog. Rendering and the mutations' I/O are not modelled. */
module TransactionsPage {
  import opened Wrappers
  import opened Text
  import opened Series
  import opened Records

  // ---------------------------------------------------------------------------
  // URLSearchParams
  // ---------------------------------------------------------------------------

  /** The parameters of a URL query string, in order. */
  type Params = seq<(string, string)>

  /** `URLSearchParams.get`: the value of the first pair with that name. */
  function GetParam(entries: Params, name: string): (r: Option<string>)
    ensures r.Some? ==> (name, r.value) in entries
    ensures r.None? ==> forall v :: (name, v) !in entries
    ensures r.Some? ==> exists i :: 0 <= i < |entries| && entries[i] == (name, r.value)
                                    && forall j :: 0 <= j < i ==> entries[j].0 != name
  {
    if entries == [] then None
    else if entries[0].0 == name then Some(entries[0].1)
    else
      var rest := GetParam(entries[1..], name);
      assert rest.Some? ==> exists i :: 1 <= i < |entries| && entries[i] == (name, rest.value)
                                        && forall j :: 0 <= j < i ==> entries[j].0 != name by {
        if rest.Some? {
          var k :| 0 <= k < |entries[1..]| && entries[1..][k] == (name, rest.value)
                   && forall j :: 0 <= j < k ==> entries[1..][j].0 != name;
          assert entries[k + 1] == (name, rest.value);
          assert forall j :: 0 <= j < k + 1 ==> entries[j].0 != name by {
            forall j | 0 <= j < k + 1 ensures entries[j].0 != name {
              if j > 0 { assert entries[j] == entries[1..][j - 1]; }
            }
          }
        }
      }
      rest
  }

  /** The pairs with any other name, in order. */
  function Without(entries: Params, name: string): (r: Params)
    ensures forall p :: p in r <==> p in entries && p.0 != name
  {
    if entries == [] then []
    else if entries[0].0 == name then Without(entries[1..], name)
    else [entries[0]] + Without(entries[1..], name)
  }

  /** `URLSearchParams.set`: the first pair with that name takes the value and
      the later ones are removed; without one, the pair is appended. */
  function SetParam(entries: Params, name: string, value: string): Params
  {
    if entries == [] then [(name, value)]
    else if entries[0].0 == name then [(name, value)] + Without(entries[1..], name)
    else [entries[0]] + SetParam(entries[1..], name, value)
  }

  /** `set` makes the value readable under the name, and leaves the pairs of
      every other name exactly as they were, in order. */
  lemma {:induction false} SetParamSpec(entries: Params, name: string, value: string)
    ensures GetParam(SetParam(entries, name, value), name) == Some(value)
    ensures Without(SetParam(entries, name, value), name) == Without(entries, name)
  {
    if entries != [] && entries[0].0 != name {
      SetParamSpec(entries[1..], name, value);
    } else if entries != [] {
      WithoutIdempotent(entries[1..], name);
    }
  }

  lemma {:induction false} WithoutIdempotent(entries: Params, name: string)
    ensures Without(Without(entries, name), name) == Without(entries, name)
  {
    if entries != [] {
      var rest := Without(entries[1..], name);
      WithoutIdempotent(entries[1..], name);
      if entries[0].0 != name {
        assert ([entries[0]] + rest)[1..] == rest;
      }
    }
  }

  /** Pairs of other names decide what `get` returns for them. */
  lemma {:induction false} GetThroughWithout(entries: Params, name: string, other: string)
    requires other != name
    ensures GetParam(Without(entries, name), other) == GetParam(entries, other)
  {
    if entries != [] {
      var rest := Without(entries[1..], name);
      GetThroughWithout(entries[1..], name, other);
      if entries[0].0 != name {
        assert ([entries[0]] + rest)[0] == entries[0];
        assert ([entries[0]] + rest)[1..] == rest;
      }
    }
  }

  lemma SameOthersSameGet(a: Params, b: Params, name: string, other: string)
    requires other != name && Without(a, name) == Without(b, name)
    ensures GetParam(a, other) == GetParam(b, other)
  {
    GetThroughWithout(a, name, other);
    GetThroughWithout(b, name, other);
  }

  /** A mutable `URLSearchParams` object. */
  class SearchParams {
    var entries: Params

    /** `new URLSearchParams(searchParams)`: a copy. */
    constructor(init: Params)
      ensures entries == init
    {
      entries := init;
    }

    function Get(name: string): Option<string>
      reads this
    {
      GetParam(entries, name)
    }

    method Delete(name: string)
      modifies this
      ensures entries == Without(old(entries), name)
      ensures Get(name).None?
    {
      entries := Without(entries, name);
    }

    method Set(name: string, value: string)
      modifies this
      ensures entries == SetParam(old(entries), name, value)
      ensures Get(name) == Some(value)
      ensures Without(entries, name) == Without(old(entries), name)
    {
      entries := SetParam(entries, name, value);
      SetParamSpec(old(entries), name, value);
    }
  }

  // ---------------------------------------------------------------------------
  // Filters read from the URL
  // ---------------------------------------------------------------------------

  datatype StatusFilter = AllStatuses | Paid | Pending

  datatype SeriesFilter = AllSeries | OnlySeries(seriesType: RecurrenceType)

  function StatusText(s: StatusFilter): string
    requires s != AllStatuses
  {
    if s == Paid then "paid" else "pending"
  }

  function SeriesText(t: RecurrenceType): string
  {
    match t
    case Single => "single"
    case Installment => "installment"
    case Monthly => "monthly"
  }

  /** The `status` parameter: exactly "paid" or "pending", anything else
      (or nothing) meaning all. */
  function ParseStatusParam(param: Option<string>): (r: StatusFilter)
    ensures r == Paid <==> param == Some("paid")
    ensures r == Pending <==> param == Some("pending")
  {
    if param == Some("paid") then Paid
    else if param == Some("pending") then Pending
    else AllStatuses
  }

  /** The `series` parameter: exactly one of the three recurrence names,
      anything else meaning all. */
  function ParseSeriesParam(param: Option<string>): (r: SeriesFilter)
    ensures forall t :: r == OnlySeries(t) <==> param == Some(SeriesText(t))
  {
    if param == Some("installment") then OnlySeries(Installment)
    else if param == Some("monthly") then OnlySeries(Monthly)
    else if param == Some("single") then OnlySeries(Single)
    else AllSeries
  }

  /** The `account` parameter as the first render reads it (`?? 'all'`). */
  function InitialAccountFilter(param: Option<string>): string
  {
    param.GetOr("all")
  }

  /** The `account` parameter as the effect reads it: an empty value is falsy
      and also means all. */
  function EffectAccountFilter(param: Option<string>): (r: string)
    ensures r == "all" || (param.Some? && r == param.value)
  {
    if param.Some? && param.value != "" then param.value else "all"
  }

  /** The first render and the effect agree except on an empty `account`
      parameter, which the first render keeps as "" and the effect turns into
      "all". */
  lemma AccountReadingsAgree(param: Option<string>)
    ensures InitialAccountFilter(param) == EffectAccountFilter(param) <==> param != Some("")
  {
  }

  // ---------------------------------------------------------------------------
  // The page's filter state
  // ---------------------------------------------------------------------------

  /** The filter state of the page and the URL it is kept in. */
  class FilterState {
    var statusFilter: StatusFilter
    var seriesFilter: SeriesFilter
    var accountFilter: string
    var searchParams: Params

    /** The filters say what the URL says. */
    predicate Synced()
      reads this
    {
      && statusFilter == ParseStatusParam(GetParam(searchParams, "status"))
      && seriesFilter == ParseSeriesParam(GetParam(searchParams, "series"))
      && accountFilter == EffectAccountFilter(GetParam(searchParams, "account"))
    }

    /** The lazy `useState` initialisers. */
    constructor(url: Params)
      ensures searchParams == url
      ensures statusFilter == ParseStatusParam(GetParam(url, "status"))
      ensures seriesFilter == ParseSeriesParam(GetParam(url, "series"))
      ensures accountFilter == InitialAccountFilter(GetParam(url, "account"))
    {
      searchParams := url;
      statusFilter := ParseStatusParam(GetParam(url, "status"));
      seriesFilter := ParseSeriesParam(GetParam(url, "series"));
      accountFilter := InitialAccountFilter(GetParam(url, "account"));
    }

    /** The effect that re-reads the filters whenever the URL changes. */
    method SyncFromParams()
      modifies this
      ensures searchParams == old(searchParams)
      ensures Synced()
    {
      var statusParam := GetParam(searchParams, "status");
      if statusParam == Some("paid") || statusParam == Some("pending") {
        statusFilter := if statusParam == Some("paid") then Paid else Pending;
      } else {
        statusFilter := AllStatuses;
      }
      var accountParam := GetParam(searchParams, "account");
      if accountParam.Some? && accountParam.value != "" {
        accountFilter := accountParam.value;
      } else {
        accountFilter := "all";
      }
      var seriesParam := GetParam(searchParams, "series");
      if seriesParam == Some("single") || seriesParam == Some("installment") || seriesParam == Some("monthly") {
        seriesFilter := OnlySeries(if seriesParam == Some("single") then Single
                                   else if seriesParam == Some("installment") then Installment else Monthly);
      } else {
        seriesFilter := AllSeries;
      }
    }

    /** `handleStatusFilterChange`: "all" deletes `status` from a copy of the
        URL parameters, any other value sets it; the other parameters keep
        their pairs, so the page stays in step with its URL. */
    method StatusFilterChange(value: StatusFilter)
      requires Synced()
      modifies this
      ensures Synced()
      ensures statusFilter == value
      ensures GetParam(searchParams, "status") == (if value == AllStatuses then None else Some(StatusText(value)))
      ensures Without(searchParams, "status") == Without(old(searchParams), "status")
      ensures seriesFilter == old(seriesFilter) && accountFilter == old(accountFilter)
    {
      statusFilter := value;
      var params := new SearchParams(searchParams);
      if value == AllStatuses {
        params.Delete("status");
        WithoutIdempotent(searchParams, "status");
      } else {
        params.Set("status", StatusText(value));
      }
      SameOthersSameGet(params.entries, searchParams, "status", "series");
      SameOthersSameGet(params.entries, searchParams, "status", "account");
      searchParams := params.entries;
    }

    /** `handleAccountFilterChange`; an account id is never empty, so the
        effect reads back the same filter. */
    method AccountFilterChange(value: string)
      requires Synced() && value != ""
      modifies this
      ensures Synced()
      ensures accountFilter == value
      ensures GetParam(searchParams, "account") == (if value == "all" then None else Some(value))
      ensures Without(searchParams, "account") == Without(old(searchParams), "account")
      ensures statusFilter == old(statusFilter) && seriesFilter == old(seriesFilter)
    {
      accountFilter := value;
      var params := new SearchParams(searchParams);
      if value == "all" {
        params.Delete("account");
        WithoutIdempotent(searchParams, "account");
      } else {
        params.Set("account", value);
      }
      SameOthersSameGet(params.entries, searchParams, "account", "status");
      SameOthersSameGet(params.entries, searchParams, "account", "series");
      searchParams := params.entries;
    }

    /** `handleSeriesFilterChange`. */
    method SeriesFilterChange(value: SeriesFilter)
      requires Synced()
      modifies this
      ensures Synced()
      ensures seriesFilter == value
      ensures GetParam(searchParams, "series") == (if value == AllSeries then None else Some(SeriesText(value.seriesType)))
      ensures Without(searchParams, "series") == Without(old(searchParams), "series")
      ensures statusFilter == old(statusFilter) && accountFilter == old(accountFilter)
    {
      seriesFilter := value;
      var params := new SearchParams(searchParams);
      if value == AllSeries {
        params.Delete("series");
        WithoutIdempotent(searchParams, "series");
      } else {
        params.Set("series", SeriesText(value.seriesType));
        assert ParseSeriesParam(Some(SeriesText(value.seriesType))) == value;
      }
      SameOthersSameGet(params.entries, searchParams, "series", "status");
      SameOthersSameGet(params.entries, searchParams, "series", "account");
      searchParams := params.entries;
    }
  }

  /** Writing a status filter into the URL and reading it back gives the same
      filter. */
  lemma StatusParamRoundTrip(entries: Params, value: StatusFilter)
    ensures ParseStatusParam(GetParam(if value == AllStatuses then Without(entries, "status")
                                      else SetParam(entries, "status", StatusText(value)), "status")) == value
  {
    if value != AllStatuses {
      SetParamSpec(entries, "status", StatusText(value));
    }
  }

  /** Writing a series filter into the URL and reading it back gives the same
      filter. */
  lemma SeriesParamRoundTrip(entries: Params, value: SeriesFilter)
    ensures ParseSeriesParam(GetParam(if value == AllSeries then Without(entries, "series")
                                      else SetParam(entries, "series", SeriesText(value.seriesType)), "series")) == value
  {
    if value != AllSeries {
      SetParamSpec(entries, "series", SeriesText(value.seriesType));
    }
  }

  // ---------------------------------------------------------------------------
  // Series scope of a delete or a status change
  // ---------------------------------------------------------------------------

  /** `'single' | 'series_from_here'`. */
  datatype ScopeMode = OnlyThis | SeriesFromHere

  datatype SeriesMeta = SeriesMeta(seriesId: string, seriesSequence: int)

  /** The `seriesMeta` of `handleDelete` and `handleConfirmToggle`: present only
      for "this and later" on a transaction with a (non-empty) series id, and
      then carrying that id and the sequence, 1 when missing. */
  function SeriesMetaFor(mode: ScopeMode, t: Transaction): (r: Option<SeriesMeta>)
    ensures r.Some? <==> mode == SeriesFromHere && t.seriesId.Some? && t.seriesId.value != ""
    ensures r.Some? ==> r.value.seriesId == t.seriesId.value
    ensures r.Some? ==> r.value.seriesSequence == t.seriesSequence.GetOr(1)
  {
    if mode == SeriesFromHere && t.seriesId.Some? && t.seriesId.value != "" then
      Some(SeriesMeta(t.seriesId.value, t.seriesSequence.GetOr(1)))
    else None
  }

  /** The "Esta e próximas" button is shown for a series transaction with a
      series id. */
  predicate OffersSeriesScope(t: Transaction)
  {
    IsSeriesType(t.seriesType) && t.seriesId.Some? && t.seriesId.value != ""
  }

  /** Whenever the "this and later" button is offered, choosing it sends the
      series metadata; a transaction outside a series never sends it. */
  lemma OfferedScopeSendsMeta(t: Transaction)
    ensures OffersSeriesScope(t) ==> SeriesMetaFor(SeriesFromHere, t).Some?
    ensures SeriesMetaFor(SeriesFromHere, t).Some? && IsSeriesType(t.seriesType) ==> OffersSeriesScope(t)
    ensures SeriesMetaFor(OnlyThis, t).None?
  {
  }

  /** The delete mutation's arguments. */
  datatype DeleteRequest = DeleteRequest(id: string, mode: ScopeMode, seriesMeta: Option<SeriesMeta>)

  /** `handleDelete`: nothing without a target. */
  function HandleDelete(deleteTarget: Option<Transaction>, mode: ScopeMode): (r: Option<DeleteRequest>)
    ensures r.None? <==> deleteTarget.None?
    ensures r.Some? ==> r.value.id == deleteTarget.value.id && r.value.mode == mode
                        && r.value.seriesMeta == SeriesMetaFor(mode, deleteTarget.value)
  {
    match deleteTarget
    case None => None
    case Some(t) => Some(DeleteRequest(t.id, mode, SeriesMetaFor(mode, t)))
  }

  /** The pending status change. */
  datatype ToggleTarget = ToggleTarget(transaction: Transaction, nextStatus: bool)

  /** `handleRequestStatusChange`: the requested status is always the
      opposite of the current one. */
  function RequestStatusChange(t: Transaction): (r: ToggleTarget)
    ensures r.transaction == t && r.nextStatus != t.isPaid
  {
    ToggleTarget(t, !t.isPaid)
  }

  /** The update mutation's arguments. */
  datatype ToggleRequest = ToggleRequest(id: string, isPaid: bool, applyMode: ScopeMode, seriesMeta: Option<SeriesMeta>)

  /** `handleConfirmToggle`. */
  function HandleConfirmToggle(toggleTarget: Option<ToggleTarget>, mode: ScopeMode): (r: Option<ToggleRequest>)
    ensures r.None? <==> toggleTarget.None?
    ensures r.Some? ==> r.value.id == toggleTarget.value.transaction.id
                        && r.value.isPaid == toggleTarget.value.nextStatus
                        && r.value.applyMode == mode
                        && r.value.seriesMeta == SeriesMetaFor(mode, toggleTarget.value.transaction)
  {
    match toggleTarget
    case None => None
    case Some(target) =>
      Some(ToggleRequest(target.transaction.id, target.nextStatus, mode, SeriesMetaFor(mode, target.transaction)))
  }

  /** Requesting and confirming a status change flips the row's paid flag. */
  lemma ConfirmedToggleFlips(t: Transaction, mode: ScopeMode)
    ensures HandleConfirmToggle(Some(RequestStatusChange(t)), mode).Some?
    ensures HandleConfirmToggle(Some(RequestStatusChange(t)), mode).value.isPaid == !t.isPaid
  {
  }

  // ---------------------------------------------------------------------------
  // Clone
  // ---------------------------------------------------------------------------

  /** `normalizeTransactionDate`: "" for "", otherwise the text before the
      first 'T' (all of it when there is none). */
  function NormalizeTransactionDate(date: string): (r: string)
    ensures 'T' !in r
    ensures r <= date
    ensures r == date || date[|r|] == 'T'
  {
    if date == "" then "" else BeforeFirst(date, 'T')
  }

  /** A date-time keeps its date part, and a plain date is left alone. */
  lemma NormalizeDateTime(date: string, time: string)
    requires 'T' !in date
    ensures NormalizeTransactionDate(date + "T" + time) == date
    ensures NormalizeTransactionDate(date) == date
    ensures NormalizeTransactionDate(NormalizeTransactionDate(date + "T" + time)) == date
  {
    BeforeFirstOfJoin(date, time, 'T');
  }

  /** The clone dialog's state. */
  datatype CloneState = CloneState(cloneTarget: Option<Transaction>, cloneDate: string, cloneIsPaid: bool)

  /** `resetCloneState`. */
  const ClosedClone: CloneState := CloneState(None, "", false)

  /** `handleRequestClone`: the copy defaults to the source's date, unpaid. */
  function RequestClone(t: Transaction): (r: CloneState)
    ensures r.cloneTarget == Some(t) && r.cloneDate == NormalizeTransactionDate(t.date) && !r.cloneIsPaid
  {
    CloneState(Some(t), NormalizeTransactionDate(t.date), false)
  }

  /** The clone mutation's arguments. */
  datatype CloneRequest = CloneRequest(sourceId: string, date: string, isPaid: bool)

  /** `handleConfirmClone`: nothing is sent without a target or a date. */
  function ConfirmClone(state: CloneState): (r: Option<CloneRequest>)
    ensures r.Some? <==> state.cloneTarget.Some? && state.cloneDate != ""
    ensures r.Some? ==> r.value == CloneRequest(state.cloneTarget.value.id, state.cloneDate, state.cloneIsPaid)
  {
    if state.cloneTarget.None? || state.cloneDate == "" then None
    else Some(CloneRequest(state.cloneTarget.value.id, state.cloneDate, state.cloneIsPaid))
  }

  /** Cloning a row dated `yyyy-MM-dd` (with or without a time) without
      touching the dialog sends an unpaid copy on the same day; a closed dialog
      sends nothing. */
  lemma CloneDefaults(t: Transaction, day: string, time: string)
    requires day != "" && 'T' !in day && (t.date == day || t.date == day + "T" + time)
    ensures ConfirmClone(RequestClone(t)) == Some(CloneRequest(t.id, day, false))
    ensures ConfirmClone(ClosedClone).None?
  {
    NormalizeDateTime(day, time);
  }
}
