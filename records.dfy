/** The transaction row the pages read. The declared `Transaction` interface of
    `src/hooks/useTransactions.tsx` omits the account and series columns, but
    the rows are fetched with `select('*')` and the pages read those columns,
    so the row here carries them. Dates are `yyyy-MM-dd` text. */
module Records {
  import opened Wrappers
  import opened Series

  datatype TransactionKind = Income | Expense

  datatype Transaction = Transaction(
    id: string,
    kind: TransactionKind,
    amountCents: int,
    date: string,
    description: string,
    categoryId: Option<string>,
    paymentMethod: Option<string>,
    notes: Option<string>,
    isPaid: bool,
    accountId: Option<string>,
    seriesType: RecurrenceType,
    seriesId: Option<string>,
    seriesSequence: Option<int>,
    seriesTotal: Option<int>)
}
