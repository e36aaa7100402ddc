/** `src/hooks/useCreditCardInstallments.ts`: which rows the summary query
    fetches, and the loop that turns them into one summary per credit-card
    account. */
module CreditCardInstallments {
  import opened Wrappers
  import opened Text
  import opened Series
  import opened Records

  /** `CreditCardInstallmentRecord`: the columns the query selects. */
  datatype InstallmentRecord = InstallmentRecord(
    accountId: string,
    amountCents: int,
    date: string,
    isPaid: bool,
    seriesType: RecurrenceType)

  /** `CreditCardInstallmentsSummary`. */
  datatype Summary = Summary(accountId: string, futureAmountCents: int, remainingInstallments: int)

  // ---------------------------------------------------------------------------
  // The query
  // ---------------------------------------------------------------------------

  /** The query's filter: an unpaid expense of one of the accounts, dated after
      the cutoff when a (non-empty) cutoff is given. Dates are `yyyy-MM-dd`,
      whose text order is the calendar order. */
  predicate IsFetched(row: Transaction, accountIds: seq<string>, cutoffDate: Option<string>)
  {
    && row.accountId.Some? && row.accountId.value in accountIds
    && row.kind == Expense
    && !row.isPaid
    && (cutoffDate.Some? && cutoffDate.value != "" ==> StrLt(cutoffDate.value, row.date))
  }

  function Project(row: Transaction): InstallmentRecord
    requires row.accountId.Some?
  {
    InstallmentRecord(row.accountId.value, row.amountCents, row.date, row.isPaid, row.seriesType)
  }

  /** The rows the query returns, in table order, with the selected columns. */
  function Fetch(rows: seq<Transaction>, accountIds: seq<string>, cutoffDate: Option<string>): (records: seq<InstallmentRecord>)
    ensures |records| <= |rows|
    ensures forall r :: r in records ==> r.accountId in accountIds && !r.isPaid
    ensures forall row :: row in rows && IsFetched(row, accountIds, cutoffDate) ==> Project(row) in records
    ensures forall r :: r in records ==> exists row :: row in rows && IsFetched(row, accountIds, cutoffDate) && Project(row) == r
  {
    if rows == [] then []
    else
      var rest := Fetch(rows[..|rows| - 1], accountIds, cutoffDate);
      var last := rows[|rows| - 1];
      assert forall row :: row in rows ==> row in rows[..|rows| - 1] || row == last;
      if IsFetched(last, accountIds, cutoffDate) then rest + [Project(last)] else rest
  }

  // ---------------------------------------------------------------------------
  // The aggregation (the specification)
  // ---------------------------------------------------------------------------

  /** The total amount of an account's records. */
  function AmountFor(records: seq<InstallmentRecord>, accountId: string): int
  {
    if records == [] then 0
    else
      var last := records[|records| - 1];
      AmountFor(records[..|records| - 1], accountId) + (if last.accountId == accountId then last.amountCents else 0)
  }

  /** How many of an account's records are installments. */
  function InstallmentCountFor(records: seq<InstallmentRecord>, accountId: string): nat
  {
    if records == [] then 0
    else
      var last := records[|records| - 1];
      InstallmentCountFor(records[..|records| - 1], accountId)
        + (if last.accountId == accountId && last.seriesType == Installment then 1 else 0)
  }

  /** How many records an account has. */
  function RecordCountFor(records: seq<InstallmentRecord>, accountId: string): nat
  {
    if records == [] then 0
    else
      RecordCountFor(records[..|records| - 1], accountId) + (if records[|records| - 1].accountId == accountId then 1 else 0)
  }

  /** The summary the loop leaves for one account. */
  function SummaryFor(records: seq<InstallmentRecord>, accountId: string): Summary
  {
    Summary(accountId, AmountFor(records, accountId), InstallmentCountFor(records, accountId))
  }

  function AccountsOf(records: seq<InstallmentRecord>): set<string>
  {
    set i | 0 <= i < |records| :: records[i].accountId
  }

  // ---------------------------------------------------------------------------
  // The aggregation (the loops of queryFn)
  // ---------------------------------------------------------------------------

  /** The `forEach` over the fetched records followed by the `map` over
      `accountIds`: one summary per requested account, in the requested order,
      holding the total amount of that account's records and the number of
      them that are installments (zero for both when it has none). */
  method Summarize(records: seq<InstallmentRecord>, accountIds: seq<string>) returns (result: seq<Summary>)
    ensures |result| == |accountIds|
    ensures forall i :: 0 <= i < |accountIds| ==> result[i] == SummaryFor(records, accountIds[i])
  {
    var aggregated: map<string, Summary> := map[];
    var i := 0;
    while i < |records|
      invariant 0 <= i <= |records|
      invariant aggregated.Keys == AccountsOf(records[..i])
      invariant forall id :: id in aggregated ==> aggregated[id] == SummaryFor(records[..i], id)
    {
      var transaction := records[i];
      if transaction.accountId !in aggregated {
        AbsentAccount(records[..i], transaction.accountId);
      }
      var current := if transaction.accountId in aggregated then aggregated[transaction.accountId]
                     else Summary(transaction.accountId, 0, 0);
      current := current.(futureAmountCents := current.futureAmountCents + transaction.amountCents);
      if transaction.seriesType == Installment {
        current := current.(remainingInstallments := current.remainingInstallments + 1);
      }
      aggregated := aggregated[transaction.accountId := current];
      assert records[..i + 1][..i] == records[..i];
      i := i + 1;
    }
    assert records[..i] == records;

    result := [];
    var k := 0;
    while k < |accountIds|
      invariant 0 <= k <= |accountIds|
      invariant |result| == k
      invariant forall j :: 0 <= j < k ==> result[j] == SummaryFor(records, accountIds[j])
    {
      var accountId := accountIds[k];
      var summary := if accountId in aggregated then aggregated[accountId] else Summary(accountId, 0, 0);
      if accountId !in aggregated {
        AbsentAccount(records, accountId);
      }
      result := result + [summary];
      k := k + 1;
    }
  }

  /** An account without records has the all-zero summary. */
  lemma {:induction false} AbsentAccount(records: seq<InstallmentRecord>, accountId: string)
    requires accountId !in AccountsOf(records)
    ensures SummaryFor(records, accountId) == Summary(accountId, 0, 0)
    ensures RecordCountFor(records, accountId) == 0
  {
    if records != [] {
      var init := records[..|records| - 1];
      assert AccountsOf(init) <= AccountsOf(records) by {
        forall id | id in AccountsOf(init) ensures id in AccountsOf(records) {
          var i :| 0 <= i < |init| && init[i].accountId == id;
          assert records[i] == init[i];
        }
      }
      assert records[|records| - 1].accountId in AccountsOf(records);
      AbsentAccount(init, accountId);
    }
  }

  /** Only installments are counted, so the count never exceeds the number of
      the account's records; monthly and single records add to the amount
      only. */
  lemma {:induction false} InstallmentsAtMostRecords(records: seq<InstallmentRecord>, accountId: string)
    ensures InstallmentCountFor(records, accountId) <= RecordCountFor(records, accountId)
  {
    if records != [] {
      InstallmentsAtMostRecords(records[..|records| - 1], accountId);
    }
  }

  /** When every record of an account is an installment, the count is the
      number of its records. */
  lemma {:induction false} AllInstallmentsCounted(records: seq<InstallmentRecord>, accountId: string)
    requires forall r :: r in records && r.accountId == accountId ==> r.seriesType == Installment
    ensures InstallmentCountFor(records, accountId) == RecordCountFor(records, accountId)
  {
    if records != [] {
      assert records[|records| - 1] in records;
      AllInstallmentsCounted(records[..|records| - 1], accountId);
    }
  }

  /** The query keeps the table's order and every matching row: fetching two
      stretches of the table fetches each in turn, and a single row is
      fetched exactly when it matches. */
  lemma {:induction false} FetchAppend(a: seq<Transaction>, b: seq<Transaction>, accountIds: seq<string>, cutoffDate: Option<string>)
    ensures Fetch(a + b, accountIds, cutoffDate) == Fetch(a, accountIds, cutoffDate) + Fetch(b, accountIds, cutoffDate)
  {
    if b == [] {
      assert a + b == a;
    } else {
      var front := b[..|b| - 1];
      FetchAppend(a, front, accountIds, cutoffDate);
      assert (a + b)[..|a + b| - 1] == a + front;
      assert (a + b)[|a + b| - 1] == b[|b| - 1];
    }
  }

  lemma FetchOne(row: Transaction, accountIds: seq<string>, cutoffDate: Option<string>)
    ensures Fetch([row], accountIds, cutoffDate)
         == if IsFetched(row, accountIds, cutoffDate) then [Project(row)] else []
  {
    assert [row][..0] == [];
  }

  /** A row the query does not fetch (another account, an income, a paid row,
      or one dated on or before the cutoff), wherever it sits in the table,
      changes nothing fetched, hence no summary. */
  lemma UnfetchedRowIrrelevant(before: seq<Transaction>, row: Transaction, after: seq<Transaction>,
                               accountIds: seq<string>, cutoffDate: Option<string>)
    requires !IsFetched(row, accountIds, cutoffDate)
    ensures Fetch(before + [row] + after, accountIds, cutoffDate) == Fetch(before + after, accountIds, cutoffDate)
  {
    FetchAppend(before + [row], after, accountIds, cutoffDate);
    FetchAppend(before, [row], accountIds, cutoffDate);
    FetchOne(row, accountIds, cutoffDate);
    FetchAppend(before, after, accountIds, cutoffDate);
    assert Fetch(before + [row], accountIds, cutoffDate) == Fetch(before, accountIds, cutoffDate);
  }

  /** The `queryFn` with `enabled`: no query runs without accounts; otherwise
      the fetched rows are summarised per account. */
  method InstallmentsSummary(rows: seq<Transaction>, accountIds: seq<string>, cutoffDate: Option<string>)
    returns (result: Option<seq<Summary>>)
    ensures result.None? <==> accountIds == []
    ensures result.Some? ==>
              && |result.value| == |accountIds|
              && forall i :: 0 <= i < |accountIds| ==>
                   result.value[i] == SummaryFor(Fetch(rows, accountIds, cutoffDate), accountIds[i])
  {
    if |accountIds| == 0 {
      return None;
    }
    var summaries := Summarize(Fetch(rows, accountIds, cutoffDate), accountIds);
    return Some(summaries);
  }

  // ---------------------------------------------------------------------------
  // The query key
  // ---------------------------------------------------------------------------

  predicate SortedStrings(s: seq<string>)
  {
    forall i :: 0 <= i < |s| - 1 ==> StrLe(s[i], s[i + 1])
  }

  function Insert(x: string, s: seq<string>): (r: seq<string>)
    requires SortedStrings(s)
    ensures SortedStrings(r)
    ensures multiset(r) == multiset(s) + multiset{x}
    ensures r != [] && (r[0] == x || (s != [] && r[0] == s[0]))
  {
    if s == [] || StrLe(x, s[0]) then [x] + s
    else
      StrLeTotal(x, s[0]);
      var tail := Insert(x, s[1..]);
      assert s == [s[0]] + s[1..];
      [s[0]] + tail
  }

  /** `accountIds.slice().sort()`: a sorted copy with the same elements; the
      caller's sequence is a value and is left as it was. */
  function SortedCopy(ids: seq<string>): (r: seq<string>)
    ensures SortedStrings(r)
    ensures multiset(r) == multiset(ids)
  {
    if ids == [] then []
    else
      assert ids == ids[..|ids| - 1] + [ids[|ids| - 1]];
      Insert(ids[|ids| - 1], SortedCopy(ids[..|ids| - 1]))
  }

  /** The cache key: the sorted ids and the cutoff (`?? null`). */
  datatype QueryKey = QueryKey(sortedAccountIds: seq<string>, cutoffDate: Option<string>)

  function InstallmentsQueryKey(accountIds: seq<string>, cutoffDate: Option<string>): QueryKey
  {
    QueryKey(SortedCopy(accountIds), cutoffDate)
  }

  /** The key does not depend on the order the ids are passed in. */
  lemma QueryKeyIgnoresOrder(a: seq<string>, b: seq<string>, cutoffDate: Option<string>)
    requires multiset(a) == multiset(b)
    ensures InstallmentsQueryKey(a, cutoffDate) == InstallmentsQueryKey(b, cutoffDate)
  {
    SortedUnique(SortedCopy(a), SortedCopy(b));
  }

  /** Two sorted sequences with the same elements are equal. */
  lemma {:induction false} SortedUnique(a: seq<string>, b: seq<string>)
    requires SortedStrings(a) && SortedStrings(b) && multiset(a) == multiset(b)
    ensures a == b
  {
    if a != [] {
      assert b != [] by { assert |multiset(b)| == |multiset(a)| == |a|; }
      var x, y := a[0], b[0];
      assert y in multiset(a) && x in multiset(b) by {
        assert b[0] in b && a[0] in a;
      }
      SortedFirstIsLeast(a, y);
      SortedFirstIsLeast(b, x);
      StrLeAntisymmetric(x, y);
      var ta, tb := a[1..], b[1..];
      assert a == [x] + ta && b == [x] + tb;
      assert multiset(ta) == multiset(tb) by {
        assert multiset(a) == multiset{x} + multiset(ta);
        assert multiset(b) == multiset{x} + multiset(tb);
        MultisetCancel(x, multiset(ta), multiset(tb));
      }
      assert SortedStrings(ta) && SortedStrings(tb) by {
        forall i | 0 <= i < |ta| - 1 ensures StrLe(ta[i], ta[i + 1]) { assert ta[i] == a[i + 1] && ta[i + 1] == a[i + 2]; }
        forall i | 0 <= i < |tb| - 1 ensures StrLe(tb[i], tb[i + 1]) { assert tb[i] == b[i + 1] && tb[i + 1] == b[i + 2]; }
      }
      SortedUnique(ta, tb);
    } else {
      assert |b| == |multiset(b)| == 0;
    }
  }

  lemma MultisetCancel(x: string, m1: multiset<string>, m2: multiset<string>)
    requires multiset{x} + m1 == multiset{x} + m2
    ensures m1 == m2
  {
    forall e ensures m1[e] == m2[e] {
      assert (multiset{x} + m1)[e] == (multiset{x} + m2)[e];
    }
  }

  /** The first element of a sorted sequence is below every element. */
  lemma {:induction false} SortedFirstIsLeast(s: seq<string>, x: string)
    requires SortedStrings(s) && x in multiset(s)
    ensures StrLe(s[0], x)
  {
    if s[0] == x {
      StrLeReflexive(x);
    } else {
      assert s == [s[0]] + s[1..];
      assert x in multiset(s[1..]);
      SortedFirstIsLeast(s[1..], x);
      StrLeTransitive(s[0], s[1], x);
    }
  }
}
