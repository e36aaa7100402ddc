/** `src/pages/Dashboard.tsx`: the period selector and the date range it
    stands for, the custom-range popover's state machine, and the figures
    computed from the period's transactions. "Today" is a parameter, and
    dates are calendar days (the page truncates every date to the start of its
    day). */
module DashboardPage {
  import opened Wrappers
  import opened Calendar
  import opened Records

  /** `PeriodOption`. */
  datatype Period = Current | Last | All | Today | Custom

  /** `DateRange` of the day picker: either end may be unset. */
  datatype DateRange = DateRange(from: Option<Date>, to: Option<Date>)

  predicate Complete(r: DateRange) { r.from.Some? && r.to.Some? }

  /** The first and last day the transactions are fetched for; both unset
      means no date filter. */
  datatype Range = Range(start: Option<Date>, end: Option<Date>)

  /** The `useMemo` that turns the period into a range: today alone; this or
      the previous calendar month; the applied custom range when both of its
      ends are set; no range for "all" or an incomplete custom range. */
  function PeriodRange(period: Period, appliedRange: Option<DateRange>, today: Date): (r: Range)
    requires ValidDate(today)
    ensures r.start.Some? <==> r.end.Some?
    ensures r.start.None? <==> period == All || (period == Custom && !(appliedRange.Some? && Complete(appliedRange.value)))
    ensures period == Today ==> r == Range(Some(today), Some(today))
    ensures period == Current || period == Last ==>
              && ValidDate(r.start.value) && ValidDate(r.end.value)
              && MonthIndex(r.start.value) == MonthIndex(r.end.value)
              && MonthIndex(r.start.value) == MonthIndex(today) - (if period == Last then 1 else 0)
              && r.start.value.day == 1
              && r.end.value.day == DaysInMonth(r.end.value.year, r.end.value.month)
    ensures period == Custom && r.start.Some? ==> r == Range(appliedRange.value.from, appliedRange.value.to)
  {
    match period
    case Today => Range(Some(today), Some(today))
    case Current => Range(Some(StartOfMonth(today)), Some(EndOfMonth(today)))
    case Last =>
      var lastMonth := SubMonths(today, 1);
      Range(Some(StartOfMonth(lastMonth)), Some(EndOfMonth(lastMonth)))
    case Custom =>
      if appliedRange.Some? && Complete(appliedRange.value) then Range(appliedRange.value.from, appliedRange.value.to)
      else Range(None, None)
    case All => Range(None, None)
  }

  /** The current and the previous month's ranges meet: the previous month
      ends the day before the current one starts, in month terms. */
  lemma LastMonthPrecedesCurrent(today: Date)
    requires ValidDate(today)
    ensures MonthIndex(PeriodRange(Last, None, today).end.value) + 1
         == MonthIndex(PeriodRange(Current, None, today).start.value)
  {
  }

  // ---------------------------------------------------------------------------
  // Figures
  // ---------------------------------------------------------------------------

  datatype Stats = Stats(income: int, expense: int, balance: int)

  /** The sum of the amounts of the transactions of one kind. */
  function SumOfKind(transactions: seq<Transaction>, kind: TransactionKind): int
  {
    if transactions == [] then 0
    else
      var last := transactions[|transactions| - 1];
      SumOfKind(transactions[..|transactions| - 1], kind) + (if last.kind == kind then last.amountCents else 0)
  }

  /** `stats`: zero without data; otherwise income and expense totals and
      their difference. */
  function ComputeStats(transactions: Option<seq<Transaction>>): (r: Stats)
    ensures r.balance == r.income - r.expense
    ensures transactions.None? ==> r == Stats(0, 0, 0)
    ensures transactions.Some? ==> r.income == SumOfKind(transactions.value, Income)
                                   && r.expense == SumOfKind(transactions.value, Expense)
  {
    match transactions
    case None => Stats(0, 0, 0)
    case Some(ts) =>
      var income := SumOfKind(ts, Income);
      var expense := SumOfKind(ts, Expense);
      Stats(income, expense, income - expense)
  }

  lemma {:induction false} SumOfKindAppend(a: seq<Transaction>, b: seq<Transaction>, kind: TransactionKind)
    ensures SumOfKind(a + b, kind) == SumOfKind(a, kind) + SumOfKind(b, kind)
  {
    if b == [] {
      assert a + b == a;
    } else {
      assert (a + b)[..|a + b| - 1] == a + b[..|b| - 1];
      SumOfKindAppend(a, b[..|b| - 1], kind);
    }
  }

  /** The figures of two batches of transactions add up, and the empty list
      gives zeros: the dashboard totals are a sum over the rows. */
  lemma StatsAdditive(a: seq<Transaction>, b: seq<Transaction>)
    ensures ComputeStats(Some([])) == Stats(0, 0, 0)
    ensures var (sa, sb, s) := (ComputeStats(Some(a)), ComputeStats(Some(b)), ComputeStats(Some(a + b)));
            s == Stats(sa.income + sb.income, sa.expense + sb.expense, sa.balance + sb.balance)
  {
    SumOfKindAppend(a, b, Income);
    SumOfKindAppend(a, b, Expense);
  }

  /** A single row moves the balance by its amount, up for an income and down
      for an expense. */
  lemma OneRowBalance(t: Transaction)
    ensures ComputeStats(Some([t])).balance == (if t.kind == Income then t.amountCents else -t.amountCents)
  {
    assert [t][..0] == [];
    assert SumOfKind([t], Income) == (if t.kind == Income then t.amountCents else 0);
    assert SumOfKind([t], Expense) == (if t.kind == Expense then t.amountCents else 0);
  }

  /** The unpaid transactions, in order. */
  function Unpaid(transactions: seq<Transaction>): (r: seq<Transaction>)
    ensures |r| <= |transactions|
    ensures forall t :: t in r <==> t in transactions && !t.isPaid
  {
    if transactions == [] then []
    else
      var rest := Unpaid(transactions[..|transactions| - 1]);
      var last := transactions[|transactions| - 1];
      assert forall t :: t in transactions <==> t in transactions[..|transactions| - 1] || t == last;
      if !last.isPaid then rest + [last] else rest
  }

  /** `filter((t) => !t.is_paid)` keeps the order and every unpaid row: two
      lists filtered together are filtered in turn, and one row is kept
      exactly when it is unpaid. */
  lemma {:induction false} UnpaidAppend(a: seq<Transaction>, b: seq<Transaction>)
    ensures Unpaid(a + b) == Unpaid(a) + Unpaid(b)
  {
    if b == [] {
      assert a + b == a;
    } else {
      var front, last := b[..|b| - 1], b[|b| - 1];
      UnpaidAppend(a, front);
      assert b == front + [last];
      assert a + b == (a + front) + [last];
      UnpaidSnoc(a + front, last);
      UnpaidSnoc(front, last);
    }
  }

  /** Unpaid of a list with one more row at its end. */
  lemma UnpaidSnoc(front: seq<Transaction>, last: Transaction)
    ensures Unpaid(front + [last]) == Unpaid(front) + (if last.isPaid then [] else [last])
  {
    var s := front + [last];
    assert s[..|s| - 1] == front;
  }

  lemma UnpaidOne(t: Transaction)
    ensures Unpaid([t]) == if t.isPaid then [] else [t]
  {
    assert [t][..0] == [];
  }

  /** `pendingCount`: the number of unpaid transactions; zero exactly when
      nothing is pending. */
  function PendingCount(transactions: Option<seq<Transaction>>): (n: nat)
    ensures transactions.None? ==> n == 0
    ensures transactions.Some? ==> n == |Unpaid(transactions.value)| && n <= |transactions.value|
    ensures transactions.Some? ==> (n == 0 <==> forall t :: t in transactions.value ==> t.isPaid)
  {
    match transactions
    case None => 0
    case Some(ts) =>
      var pending := Unpaid(ts);
      assert pending != [] ==> pending[0] in pending;
      |pending|
  }

  /** One more transaction raises the pending count by one exactly when it is
      unpaid. */
  lemma OneMorePending(transactions: seq<Transaction>, t: Transaction)
    ensures PendingCount(Some(transactions + [t])) == PendingCount(Some(transactions)) + (if t.isPaid then 0 else 1)
  {
    UnpaidAppend(transactions, [t]);
    UnpaidOne(t);
  }

  /** `recentTransactions`: the first five rows (fewer when there are fewer),
      in the order fetched. */
  function RecentTransactions(transactions: Option<seq<Transaction>>): (r: seq<Transaction>)
    ensures transactions.None? ==> r == []
    ensures transactions.Some? ==> |r| == Min(5, |transactions.value|) && r <= transactions.value
  {
    match transactions
    case None => []
    case Some(ts) => if |ts| <= 5 then ts else ts[..5]
  }

  // ---------------------------------------------------------------------------
  // The period state machine
  // ---------------------------------------------------------------------------

  class PeriodState {
    var period: Period
    var customRange: Option<DateRange>
    var appliedRange: Option<DateRange>
    var isCustomOpen: bool
    var customHasOpened: bool
    var previousPeriod: Period

    /** An applied range always has both ends, and only the custom period has
        one. */
    predicate Valid()
      reads this
    {
      && (appliedRange.Some? ==> Complete(appliedRange.value))
      && (period != Custom ==> appliedRange.None?)
    }

    /** The period to fall back on is the custom one only when a custom range
        is applied. */
    predicate Settled()
      reads this
    {
      previousPeriod == Custom ==> appliedRange.Some?
    }

    /** The initial state: this month, nothing custom. */
    constructor()
      ensures Valid() && Settled()
      ensures period == Current && previousPeriod == Current
      ensures appliedRange.None? && customRange.None? && !isCustomOpen && !customHasOpened
    {
      period := Current;
      customRange := None;
      appliedRange := None;
      isCustomOpen := false;
      customHasOpened := false;
      previousPeriod := Current;
    }

    /** `handleApplyCustomRange`: with an end missing only an error toast is
        shown and nothing changes; otherwise the picked range is applied and
        becomes the period to fall back on. */
    method ApplyCustomRange()
      requires Valid()
      modifies this
      ensures Valid()
      ensures old(customRange).None? || !Complete(old(customRange).value) ==>
                && period == old(period) && customRange == old(customRange) && appliedRange == old(appliedRange)
                && isCustomOpen == old(isCustomOpen) && customHasOpened == old(customHasOpened)
                && previousPeriod == old(previousPeriod)
      ensures old(customRange).Some? && Complete(old(customRange).value) ==>
                && appliedRange == old(customRange) && period == Custom && previousPeriod == Custom
                && !isCustomOpen && !customHasOpened && customRange == old(customRange)
      ensures old(Settled()) ==> Settled()
    {
      if customRange.None? || !Complete(customRange.value) {
        return;
      }
      appliedRange := customRange;
      period := Custom;
      previousPeriod := Custom;
      isCustomOpen := false;
      customHasOpened := false;
    }

    /** `handleCancelCustomRange`: the picker goes back to the applied range,
        and without one the period falls back to the previous one. */
    method CancelCustomRange()
      requires Valid()
      modifies this
      ensures Valid()
      ensures !isCustomOpen && !customHasOpened
      ensures customRange == old(appliedRange) && appliedRange == old(appliedRange)
      ensures period == (if old(appliedRange).None? then old(previousPeriod) else old(period))
      ensures previousPeriod == old(previousPeriod)
      ensures old(Settled()) ==> Settled() && (period == Custom ==> appliedRange.Some?)
    {
      isCustomOpen := false;
      customRange := appliedRange;
      if appliedRange.None? || !Complete(appliedRange.value) {
        period := previousPeriod;
      }
      customHasOpened := false;
    }

    /** The popover's `onOpenChange`: opening marks it as opened; closing an
        opened popover is a cancel, closing one never opened only closes it. */
    method PopoverOpenChange(open: bool)
      requires Valid()
      modifies this
      ensures Valid()
      ensures isCustomOpen == open
      ensures open ==> customHasOpened && period == old(period) && appliedRange == old(appliedRange)
                       && customRange == old(customRange) && previousPeriod == old(previousPeriod)
      ensures !open && !old(customHasOpened) ==>
                period == old(period) && appliedRange == old(appliedRange) && customRange == old(customRange)
                && previousPeriod == old(previousPeriod) && customHasOpened == old(customHasOpened)
      ensures !open && old(customHasOpened) ==>
                && customRange == old(appliedRange) && appliedRange == old(appliedRange)
                && period == (if old(appliedRange).None? then old(previousPeriod) else old(period))
                && !customHasOpened && previousPeriod == old(previousPeriod)
      ensures old(Settled()) ==> Settled()
    {
      isCustomOpen := open;
      if open {
        customHasOpened := true;
        return;
      }
      if !customHasOpened {
        return;
      }
      customRange := appliedRange;
      if appliedRange.None? || !Complete(appliedRange.value) {
        period := previousPeriod;
      }
      customHasOpened := false;
    }

    /** `handleResetFilters`: back to all transactions, nothing custom. */
    method ResetFilters()
      modifies this
      ensures Valid() && Settled()
      ensures period == All && previousPeriod == All
      ensures appliedRange.None? && customRange.None? && !isCustomOpen && !customHasOpened
    {
      period := All;
      appliedRange := None;
      customRange := None;
      previousPeriod := All;
      isCustomOpen := false;
      customHasOpened := false;
    }

    /** `handlePeriodChange`: choosing "custom" remembers the period it came
        from and opens the picker on the applied range (today to today when
        none); any other choice becomes both the period and the fallback and
        clears both ranges. The select reports only a changed value. */
    method PeriodChange(value: Period, today: Date)
      requires Valid() && value != period
      modifies this
      ensures Valid()
      ensures value == Custom ==>
                && period == Custom && previousPeriod == old(period)
                && customRange == Some(old(appliedRange).GetOr(DateRange(Some(today), Some(today))))
                && appliedRange == old(appliedRange) && isCustomOpen && !customHasOpened
      ensures value != Custom ==>
                && period == value && previousPeriod == value
                && appliedRange.None? && customRange.None?
                && isCustomOpen == old(isCustomOpen) && customHasOpened == old(customHasOpened)
      ensures old(Settled()) ==> Settled()
    {
      if value == Custom {
        previousPeriod := period;
        period := Custom;
        customRange := Some(appliedRange.GetOr(DateRange(Some(today), Some(today))));
        isCustomOpen := true;
        customHasOpened := false;
        return;
      }
      period := value;
      previousPeriod := value;
      appliedRange := None;
      customRange := None;
    }
  }
}
