# finanflow rules, modelled in Dafny

finanflow is a personal-finance web app (React on top of Supabase). Users record
income and expense transactions, including installment and monthly series.
They keep accounts and credit cards, see a dashboard for a period, send
community feedback, and browse an audit log. Most of the app is UI and database
plumbing. This project models the small rules inside it and proves what they
promise:

- **Series helpers.** Splitting a total into installments. Monthly dates with
  day clamping. Series labels.
- **Credit-card exposure.** The outstanding limit and balance hints of the
  accounts card. The per-account installment summary.
- **The transactions page.** URL filter parameters, as a `URLSearchParams`
  object updated in place. The series-scope decision. Date normalisation.
  Clone and toggle requests.
- **The dashboard.** The aggregates and the period/custom-range state machine,
  as a class.
- **Money text and payloads.** The money-text sanitiser. The account and
  transaction form payloads. Key pruning of the account update hook.
- **Lookup tables.** Account-type labels and payment-method chips.
- **Audit logs.** Meta extraction, the diff view and the row labels. The
  audit-log filter builder, as a class.
- **Community feedback.** The validator, the summary loop and the staff draft
  maps.

Each source file has its own module. Four helper modules support them:

- `Wrappers`: `Option` and `Result`.
- `Text`: decimal digits, lexicographic order, JavaScript `trim`, and the
  `replace` steps.
- `Calendar`: proleptic Gregorian dates, date-fns `addMonths`, and
  `yyyy-MM-dd` text.
- `JsonValues`: JSON values, with objects as ordered key/value lists.

`Records` holds the transaction row.

Code that changes state step by step is modelled imperatively:

- `SearchParams` and `FilterState` on the transactions page;
- `PeriodState` on the dashboard;
- `TransactionForm` on the form page;
- `LogsFilters` on the audit-log page;
- the `forEach` aggregation of the credit-card installment hook;
- the `reduce` over payment methods;
- the feedback summary;
- the update-payload pruning.

Everything else is functions and lemmas.

Some things in the app have no model here:

- **Outside systems.** The database, the network, the clock and the user's
  time zone. "Today" and the time-zone offset are parameters.
- **`parseBRLToCents`.** It uses floating point, so it is the parameter
  `parse: string -> int`.

## Model

| member | source | states |
|---|---|---|
| Series.CalculateInstallments | src/lib/transactions.ts:7-18 | fails with the thrown message exactly when quantity < 2; otherwise quantity parts, non-increasing and differing by at most one, summing to a non-negative total |
| Series.JsRemainder | src/lib/transactions.ts:13 | JavaScript's truncating `%`: equals the Euclidean remainder for a non-negative dividend and carries the dividend's sign otherwise |
| Series.SumOfParts | src/lib/transactions.ts:14-17 | the parts add up to n times the base plus one cent per index below the (clamped) remainder |
| Series.InstallmentShape | src/lib/transactions.ts:12-17 | for a non-negative total, part i is total/quantity plus one exactly when i < total % quantity |
| Series.NegativeTotalSum | src/lib/transactions.ts:12-17 | a negative total that does not divide evenly is not split exactly: the parts add up to less than the total |
| Series.ThreeInstallmentsOfTenThousand | src/lib/transactions.ts:7-18 | 10000 in three parts is [3334, 3333, 3333] |
| Series.GenerateMonthlyDates | src/lib/transactions.ts:20-33 | max(occurrences, 0) dates; date k is a valid date in calendar month start+k, its day is min(start day, length of that month), its time of day is the start's |
| Series.FirstOccurrenceIsStart | src/lib/transactions.ts:23-30 | occurrence 0 is the start itself |
| Series.ConsecutiveMonths | src/lib/transactions.ts:23-24 | consecutive occurrences fall in consecutive calendar months |
| Series.DayRecoversAfterShortMonth | src/lib/transactions.ts:21-28 | whenever the target month is long enough, the day is the start day, whatever shorter months came before |
| Series.ThirtyFirstOfJanuary2024 | src/lib/transactions.ts:20-33 | 31 Jan 2024 gives 31 Jan, 29 Feb, 31 Mar, while chaining one-month steps would give 29 Mar |
| Series.IsSeriesType | src/lib/transactions.ts:43-45 | true exactly for installment and monthly, false exactly for a single transaction |
| Series.SeriesLabelRoundTrip | src/lib/transactions.ts:47-63 | reading a label back gives the kind and the sequence/total shown, with defaults 1/0 for installments and 1/12 for monthly series |
| Series.FormatSeriesLabel | src/lib/transactions.ts:47-63 | the badge text of a transaction's series; SeriesLabelRoundTrip and SingleLabelExactlyForNonSeries pin it |
| Series.SingleLabelExactlyForNonSeries | src/lib/transactions.ts:47-63 | the label is "Única" exactly when the type is not a series type |
| Series.FractionRoundTrip | src/lib/transactions.ts:54-60 | the "s/t" text of two integers reads back as those integers |
| Calendar.AddMonths | src/lib/transactions.ts:23-28 | date-fns `addMonths`: the month index moves by n and the day is clamped to the target month, giving a valid date |
| Calendar.FormatDayRoundTrip | src/pages/TransactionForm.tsx:126 | a valid date written as 'yyyy-MM-dd' parses back to itself |
| Calendar.ParseDayRoundTrip | src/pages/TransactionForm.tsx:93 | a text that parses as a day is exactly the 'yyyy-MM-dd' text of the parsed date |
| Calendar.LocalDayOfUtcMidnight | src/pages/TransactionForm.tsx:93 | the local day of a UTC midnight is the same day exactly when the offset is not negative, and exactly the previous calendar day when it is negative |
| CreditCardInstallments.Fetch | src/hooks/useCreditCardInstallments.ts:36-45 | every fetched record comes from a row of a listed account that is an unpaid expense dated after the cutoff (if any), and every such row is fetched, projected to the selected columns |
| CreditCardInstallments.Summarize | src/hooks/useCreditCardInstallments.ts:51-78 | one summary per requested account id, in input order; each is the amount total, installment count and zero default of that account's records |
| CreditCardInstallments.InstallmentsSummary | src/hooks/useCreditCardInstallments.ts:34-78 | no query without accounts; otherwise the per-account summaries of the fetched rows |
| CreditCardInstallments.AbsentAccount | src/hooks/useCreditCardInstallments.ts:70-77 | an account without records gets amount 0 and 0 installments |
| CreditCardInstallments.SummaryFor | src/hooks/useCreditCardInstallments.ts:51-78 | one account's summary: the amount and installment count of its records; Summarize is proved to produce it per id, and AbsentAccount, InstallmentsAtMostRecords and AllInstallmentsCounted state its values |
| CreditCardInstallments.InstallmentsAtMostRecords | src/hooks/useCreditCardInstallments.ts:62-64 | only installments are counted, so the count never exceeds the account's record count |
| CreditCardInstallments.AllInstallmentsCounted | src/hooks/useCreditCardInstallments.ts:62-64 | when every record of an account is an installment the count is the record count |
| CreditCardInstallments.UnfetchedRowIrrelevant | src/hooks/useCreditCardInstallments.ts:36-45 | a row the filter rejects, wherever it sits in the table, changes nothing fetched |
| CreditCardInstallments.FetchAppend | src/hooks/useCreditCardInstallments.ts:36-45 | the query keeps table order and multiplicity: fetching two stretches of the table together fetches each in turn |
| CreditCardInstallments.FetchOne | src/hooks/useCreditCardInstallments.ts:36-45 | one row is fetched, projected, exactly when it matches the filter |
| CreditCardInstallments.IsFetched | src/hooks/useCreditCardInstallments.ts:36-45 | the query's filter: a listed account, an expense, unpaid, and after the cutoff when there is one; FetchOne and FetchAppend tie Fetch to it |
| CreditCardInstallments.SortedCopy | src/hooks/useCreditCardInstallments.ts:31 | the key's id list is sorted and a permutation of the ids |
| CreditCardInstallments.QueryKeyIgnoresOrder | src/hooks/useCreditCardInstallments.ts:29-33 | two id lists with the same elements give the same cache key |
| CreditCardInstallments.SortedUnique | src/hooks/useCreditCardInstallments.ts:31 | two sorted lists with the same elements are equal |
| AccountsCard.OutstandingForCreditCard | src/components/accounts/AccountsCard.tsx:28-41 | null exactly when there is no limit; otherwise the limit minus the unpaid expenses of this account |
| AccountsCard.IrrelevantTransaction | src/components/accounts/AccountsCard.tsx:31-34 | a paid, income or other-account transaction does not change the outstanding value |
| AccountsCard.UnpaidExpenseTotal | src/components/accounts/AccountsCard.tsx:29-36 | the unpaid expenses of one account; IrrelevantTransaction and NewExpenseLowersOutstanding pin which rows count and by how much |
| AccountsCard.NewExpenseLowersOutstanding | src/components/accounts/AccountsCard.tsx:29-40 | a new unpaid expense of the account lowers the outstanding value by its amount |
| AccountsCard.ComputeBalanceHint | src/components/accounts/AccountsCard.tsx:43-55 | the four hints, each exactly under its condition: limit not informed, available limit clamped at zero, estimated balance, balance not informed |
| AccountsCard.CreditCardAccounts | src/components/accounts/AccountsCard.tsx:78-79 | exactly the credit-card accounts, never more than the input |
| AccountsCard.CreditCardAccountsAppend | src/components/accounts/AccountsCard.tsx:78 | the filter keeps order and multiplicity: two lists filtered together are filtered in turn, and one account is kept exactly when it is a credit card |
| AccountsCard.TotalsOverCreditCards | src/components/accounts/AccountsCard.tsx:78-86 | the limit total and the available total are the reductions over the filtered credit-card accounts |
| AccountsCard.CreditCardAvailableTotal | src/components/accounts/AccountsCard.tsx:83-86 | never negative |
| AccountsCard.AvailableAtMostLimit | src/components/accounts/AccountsCard.tsx:79-86 | with non-negative amounts the available total never exceeds the limit total |
| AccountsCard.TotalsPartitionAccounts | src/components/accounts/AccountsCard.tsx:78-90 | the limit total and the other-balances total together cover every account's figure once |
| AccountsCard.CreditCardLimitTotal | src/components/accounts/AccountsCard.tsx:78-82 | the sum of the credit cards' limits, `?? 0`; TotalsOverCreditCards shows it is the reduction over CreditCardAccounts |
| AccountsCard.OtherBalancesTotal | src/components/accounts/AccountsCard.tsx:88-90 | the sum of the other accounts' balances, `?? 0`; TotalsPartitionAccounts shows it and the limit total together count every account once |
| AccountsCard.DisplayedOtherBalances | src/components/accounts/AccountsCard.tsx:121 | the shown total is the other-balances total (lines 88-90) clamped at zero |
| AccountsCard.ActiveCount | src/components/accounts/AccountsCard.tsx:104 | at most the number of accounts |
| AccountsCard.ActiveCountAppend | src/components/accounts/AccountsCard.tsx:104 | the count of active accounts: two lists count together what they count apart, and one account counts exactly when it is active |
| TransactionsPage.GetParam | src/pages/Transactions.tsx:53-62 | the value of the first pair with the name, and none exactly when no pair has it |
| TransactionsPage.SetParamSpec | src/pages/Transactions.tsx:113-144 | after `set` the key reads the new value and every other entry is as before |
| TransactionsPage.GetThroughWithout | src/pages/Transactions.tsx:113-144 | deleting one key leaves every other key's value |
| TransactionsPage.SetParam | src/pages/Transactions.tsx:113-121 | `URLSearchParams.set`; SetParamSpec states that the key reads the new value and every other entry stays in order |
| TransactionsPage.Without | src/pages/Transactions.tsx:113-121 | `URLSearchParams.delete`: exactly the pairs under other names; GetThroughWithout and WithoutIdempotent pin it |
| TransactionsPage.SearchParams.Get | src/pages/Transactions.tsx:53-66 | the URL parameter as GetParam reads it: the first pair's value, none when absent |
| TransactionsPage.WithoutIdempotent | src/pages/Transactions.tsx:116 | deleting a key twice is deleting it once |
| TransactionsPage.SearchParams.Delete | src/pages/Transactions.tsx:116 | the key is gone and nothing else changes |
| TransactionsPage.SearchParams.Set | src/pages/Transactions.tsx:118 | the key reads the new value and nothing else changes |
| TransactionsPage.ParseStatusParam | src/pages/Transactions.tsx:53-56 | paid and pending exactly for those texts, all otherwise |
| TransactionsPage.ParseSeriesParam | src/pages/Transactions.tsx:57-62 | a series type exactly for its own text, all otherwise |
| TransactionsPage.EffectAccountFilter | src/pages/Transactions.tsx:97-104 | the parameter's value, or "all" |
| TransactionsPage.AccountReadingsAgree | src/pages/Transactions.tsx:97-104 | the initial state (lines 63-66) and the effect read the account parameter alike unless it is the empty text |
| TransactionsPage.InitialAccountFilter | src/pages/Transactions.tsx:63-66 | the initial account filter, `?? 'all'`; AccountReadingsAgree compares it with the effect's reading |
| TransactionsPage.FilterState.constructor | src/pages/Transactions.tsx:53-66 | the initial filters are read from the URL |
| TransactionsPage.FilterState.SyncFromParams | src/pages/Transactions.tsx:90-111 | the filters match the URL afterwards |
| TransactionsPage.FilterState.StatusFilterChange | src/pages/Transactions.tsx:113-122 | the filter takes the value; "all" deletes the key, any other value sets it; other parameters and filters are untouched |
| TransactionsPage.FilterState.AccountFilterChange | src/pages/Transactions.tsx:124-133 | the same for the account filter |
| TransactionsPage.FilterState.SeriesFilterChange | src/pages/Transactions.tsx:135-144 | the same for the series filter |
| TransactionsPage.StatusParamRoundTrip | src/pages/Transactions.tsx:113-122 | a status written to the URL reads back as the same status |
| TransactionsPage.SeriesParamRoundTrip | src/pages/Transactions.tsx:135-144 | a series filter written to the URL reads back as the same filter |
| TransactionsPage.SeriesMetaFor | src/pages/Transactions.tsx:146-165 | meta exactly for "this and later" with a non-empty series id, carrying that id and the sequence defaulting to 1 |
| TransactionsPage.OfferedScopeSendsMeta | src/pages/Transactions.tsx:572 | when the "this and later" option is offered (here and at line 670), choosing it sends series meta; "only this" never does |
| TransactionsPage.OffersSeriesScope | src/pages/Transactions.tsx:572 | the condition for the "this and later" button; OfferedScopeSendsMeta ties it to the series meta |
| TransactionsPage.HandleDelete | src/pages/Transactions.tsx:146-165 | a request exactly when there is a target, for its id and the chosen scope |
| TransactionsPage.RequestStatusChange | src/pages/Transactions.tsx:167-172 | the requested status is the opposite of the current one |
| TransactionsPage.HandleConfirmToggle | src/pages/Transactions.tsx:215-235 | a request exactly when there is a target, for its id |
| TransactionsPage.ConfirmedToggleFlips | src/pages/Transactions.tsx:167-172 | confirming a requested toggle flips the paid flag |
| TransactionsPage.NormalizeTransactionDate | src/pages/Transactions.tsx:174-178 | a prefix of the text with no 'T', ending at the first 'T' or the end |
| TransactionsPage.NormalizeDateTime | src/pages/Transactions.tsx:174-178 | a date with a time part gives the date, a bare date itself, and normalising is idempotent |
| TransactionsPage.RequestClone | src/pages/Transactions.tsx:180-184 | the clone defaults to the normalised date and unpaid |
| TransactionsPage.ConfirmClone | src/pages/Transactions.tsx:192-207 | a request exactly with a target and a non-empty date, carrying the chosen date and paid flag |
| TransactionsPage.CloneDefaults | src/pages/Transactions.tsx:180-207 | confirming straight away clones to the source's day, unpaid; a closed dialog sends nothing |
| DashboardPage.PeriodRange | src/pages/Dashboard.tsx:60-97 | today gives today to today; current and last give the first to the last day of this or the previous month; all gives no range; custom gives the applied range only when it has both ends |
| DashboardPage.LastMonthPrecedesCurrent | src/pages/Dashboard.tsx:70-82 | the last-month range ends in the month before today's |
| DashboardPage.ComputeStats | src/pages/Dashboard.tsx:171-187 | income and expense are the sums over their kinds, balance is their difference, and no data gives zeros |
| DashboardPage.StatsAdditive | src/pages/Dashboard.tsx:171-187 | the stats of two lists joined are the sums of their stats |
| DashboardPage.SumOfKind | src/pages/Dashboard.tsx:174-180 | the sum of one kind's amounts; StatsAdditive and OneRowBalance pin it |
| DashboardPage.OneRowBalance | src/pages/Dashboard.tsx:171-187 | one row moves the balance by its amount, signed by its kind |
| DashboardPage.PendingCount | src/pages/Dashboard.tsx:189-192 | zero without data; otherwise the number of unpaid transactions, zero exactly when every transaction is paid |
| DashboardPage.OneMorePending | src/pages/Dashboard.tsx:189-192 | one more transaction raises the pending count by one exactly when it is unpaid |
| DashboardPage.Unpaid | src/pages/Dashboard.tsx:190 | exactly the unpaid transactions, never more than the input |
| DashboardPage.UnpaidAppend | src/pages/Dashboard.tsx:190 | the filter keeps order and multiplicity: two lists filtered together are filtered in turn |
| DashboardPage.UnpaidOne | src/pages/Dashboard.tsx:190 | one transaction is kept exactly when it is unpaid |
| DashboardPage.RecentTransactions | src/pages/Dashboard.tsx:195 | the prefix of length min(5, n) |
| DashboardPage.PeriodState.constructor | src/pages/Dashboard.tsx:52-57 | the current month, nothing applied, popover closed |
| DashboardPage.PeriodState.ApplyCustomRange | src/pages/Dashboard.tsx:119-129 | an incomplete range changes nothing; a complete one is applied and the popover closes |
| DashboardPage.PeriodState.CancelCustomRange | src/pages/Dashboard.tsx:131-138 | the draft returns to the applied range, and with none the period returns to the previous one |
| DashboardPage.PeriodState.PopoverOpenChange | src/pages/Dashboard.tsx:239-255 | opening marks the popover opened; closing an opened popover behaves as cancel; closing one never opened only closes it |
| DashboardPage.PeriodState.ResetFilters | src/pages/Dashboard.tsx:140-147 | period and previous period become all, ranges cleared |
| DashboardPage.PeriodState.PeriodChange | src/pages/Dashboard.tsx:149-168 | custom remembers the period it came from as the fallback and opens the picker on the applied range (today to today without one); any other period becomes both the period and the fallback and clears both ranges |
| AccountLib.AccountTypeLabelRoundTrip | src/lib/account.ts:3-17 | every type has a non-empty label, and reading the label back gives the type |
| AccountLib.AccountTypeLabel | src/lib/account.ts:3-17 | the label of each type; AccountTypeLabelRoundTrip and AccountTypeLabelInjective pin it |
| AccountLib.IsCreditCard | src/lib/account.ts:19-21 | the credit-card test; IsCreditCardByLabel ties it to the "Cartão de crédito" label |
| AccountLib.AccountTypeLabelInjective | src/lib/account.ts:4-12 | no two types share a label |
| AccountLib.IsCreditCardByLabel | src/lib/account.ts:19-21 | the credit-card test holds exactly for the type labelled "Cartão de crédito" |
| PaymentMethods.Values | src/components/payment/PaymentMethodChips.tsx:24-30 | exactly the option values |
| PaymentMethods.BuildAccountTypesMap | src/components/payment/PaymentMethodChips.tsx:24-30 | one key per option value, each mapped to what the reduce's last write under that key leaves |
| PaymentMethods.TypesForDistinct | src/components/payment/PaymentMethodChips.tsx:24-30 | with distinct values each key maps to its own option's types, or [] |
| PaymentMethods.ShippedOptionsDistinct | src/components/payment/PaymentMethodChips.tsx:12-22 | the shipped options have distinct values, so no entry is overwritten |
| PaymentMethods.EveryAccountTypeReachable | src/components/payment/PaymentMethodChips.tsx:13-21 | every account type appears under the payment method named after it |
| PaymentMethods.TransferMethods | src/components/payment/PaymentMethodChips.tsx:19-21 | "Transferência" admits transfer and bank accounts, so bank accounts are reachable from two methods |
| PaymentMethods.TypeAt | src/components/payment/PaymentMethodChips.tsx:13-21 | the type whose label is an option's value, among that option's types |
| PaymentMethods.AtMostOneActive | src/components/payment/PaymentMethodChips.tsx:46 | among distinct options at most one chip is active, and only when something is selected |
| PaymentMethods.IsActive | src/components/payment/PaymentMethodChips.tsx:46 | a chip is highlighted when its value is the selected one; AtMostOneActive pins it |
| AccountsHook.GetErrorMessage | src/hooks/useAccounts.tsx:6-23 | the text the thrown value carries, or "" exactly when it carries none |
| AccountsHook.ToastMessage | src/hooks/useAccounts.tsx:116-119 | the carried text or the fallback, never empty with a non-empty fallback |
| AccountsHook.ToastShowsCarriedText | src/hooks/useAccounts.tsx:116-119 | a non-empty carried text is what the toast shows |
| AccountsHook.CreateAccountPayload | src/hooks/useAccounts.tsx:90-101 | fails before building exactly without a user; otherwise the user's id, limit and balance defaulting to null and active to true |
| AccountsHook.UpdateAccountPayload | src/hooks/useAccounts.tsx:127-142 | the id is taken out; undefined limit, balance and active flag are dropped, explicit nulls kept, every other field passes through |
| AccountsHook.Lookup | src/hooks/useAccounts.tsx:130-141 | a missing key reads as undefined |
| AccountsPage.SanitizeKeepsDigitsAndCommas | src/pages/Accounts.tsx:102-108 | the sanitiser keeps exactly the digits and commas, in order |
| AccountsPage.SanitizeCurrencyInput | src/pages/Accounts.tsx:102-108 | the four-step replace chain; equals KeepDigitsAndCommas, see SanitizeKeepsDigitsAndCommas and SanitizeIdempotent |
| AccountsPage.SanitizeIdempotent | src/pages/Accounts.tsx:102-108 | sanitising twice is sanitising once |
| AccountsPage.FormatToInput | src/pages/Accounts.tsx:97-100 | the empty field exactly for no amount |
| AccountsPage.FormattedAmountSurvivesSanitiser | src/pages/Accounts.tsx:97-108 | a non-negative amount shown for editing passes the sanitiser unchanged, with one comma |
| AccountsPage.ComputeCreditCardSummary | src/pages/Accounts.tsx:151-160 | zeros without data; otherwise the active credit cards and the same limit total the accounts card shows |
| AccountsPage.NonCreditCardIgnored | src/pages/Accounts.tsx:151-160 | an account that is not a credit card changes neither figure |
| AccountsPage.AmountOf | src/pages/Accounts.tsx:166-167 | null exactly for a missing or empty text, otherwise the parsed cents |
| AccountsPage.Submit | src/pages/Accounts.tsx:162-182 | create exactly when not editing; empty amounts are explicit nulls; the update carries the id and every form field |
| AccountsPage.SubmitEdit | src/pages/Accounts.tsx:162-182 | clearing the limit of an edited account sends an explicit null through the update hook |
| AccountsPage.EmptyAmountsCreateNulls | src/pages/Accounts.tsx:166-167 | a new account with empty amounts is stored without limit or balance |
| TransactionFormPage.DefaultForm | src/pages/TransactionForm.tsx:69-81 | an unpaid expense on today, with no category and empty texts |
| TransactionFormPage.FindById | src/pages/TransactionForm.tsx:89 | the first transaction with the id, or none exactly when no transaction has it |
| TransactionFormPage.PrefillAsWritten | src/pages/TransactionForm.tsx:86-102 | the form as written: the day is the local day of the stored day's UTC midnight |
| TransactionFormPage.Prefill | src/pages/TransactionForm.tsx:86-102 | the form with the stored day itself; a missing category becomes "none" |
| TransactionFormPage.FilteredCategories | src/pages/TransactionForm.tsx:104-106 | exactly the categories of the selected kind, none before they load |
| TransactionFormPage.KindFilterMembers | src/pages/TransactionForm.tsx:104-106 | the filter keeps exactly the categories of the kind |
| TransactionFormPage.KindFilterAppend | src/pages/TransactionForm.tsx:104-106 | the filter keeps order and multiplicity: two lists filtered together are filtered in turn |
| TransactionFormPage.KindFilterOne | src/pages/TransactionForm.tsx:104-106 | one category is kept exactly when it has the kind |
| TransactionFormPage.KindFilter | src/pages/TransactionForm.tsx:104-106 | the `filter` by kind, never longer than its input; KindFilterMembers, KindFilterAppend and KindFilterOne pin it |
| TransactionFormPage.ConsistentCategory | src/pages/TransactionForm.tsx:108-120 | the category resets to "none" exactly when it is set, not "none", and no loaded category of the kind has it |
| TransactionFormPage.ChosenCategoryIsOffered | src/pages/TransactionForm.tsx:104-120 | after the reset the chosen category is "none" or among the offered ones |
| TransactionFormPage.OrNull | src/pages/TransactionForm.tsx:129-130 | null exactly for a missing or empty text |
| TransactionFormPage.BuildPayload | src/pages/TransactionForm.tsx:122-132 | "none" becomes a null category, empty texts become null, the date is the 'yyyy-MM-dd' text of the day |
| TransactionFormPage.Submit | src/pages/TransactionForm.tsx:134-138 | an update carrying the route id exactly when there is a non-empty id, otherwise a create |
| TransactionFormPage.UnchangedEditKeepsRow | src/pages/TransactionForm.tsx:86-138 | saving an unchanged edit writes the row's own values back, for a row with no empty category, payment method or notes text (`|| null` turns those into null) and an amount that the amount parser reads back from its own text |
| TransactionFormPage.UnchangedEditAsWrittenMovesDate | src/pages/TransactionForm.tsx:93-126 | as written, west of UTC an unchanged edit saves the previous day |
| TransactionFormPage.BrasiliaEditExample | src/pages/TransactionForm.tsx:93-126 | at UTC-3, 2024-03-15 is saved as 2024-03-14 as written and kept as 2024-03-15 when corrected |
| TransactionFormPage.TransactionForm.constructor | src/pages/TransactionForm.tsx:69-81 | the form starts with the defaults |
| TransactionFormPage.TransactionForm.PrefillEffect | src/pages/TransactionForm.tsx:86-102 | with a route id and loaded rows, the row with that id replaces the form values as written, its date the local day of the stored day's UTC midnight (the corrected prefill when the offset is not negative); otherwise the values are unchanged |
| TransactionFormPage.TransactionForm.AmountChange | src/pages/TransactionForm.tsx:202-207 | the amount becomes the sanitised text, which holds only digits and commas |
| TransactionFormPage.TransactionForm.CategoryEffect | src/pages/TransactionForm.tsx:108-120 | the category becomes the consistent one and nothing else changes |
| CommunityPage.TypeOf | src/pages/Community.tsx:55 | a feedback type exactly for "suggestion" or "issue" |
| CommunityPage.IssuesOf | src/pages/Community.tsx:54-66 | each rule violation is listed exactly when it happens |
| CommunityPage.ValidateFeedback | src/pages/Community.tsx:54-66 | success exactly when the type is known, the title has 3 to 120 and the description 10 to 2000 characters; failure lists the violations |
| CommunityPage.ResetAfterSubmit | src/pages/Community.tsx:182-192 | the type is kept and the texts are emptied |
| CommunityPage.ResetFormNeedsNewTexts | src/pages/Community.tsx:182-192 | the reset form fails validation exactly on the two texts |
| CommunityPage.FeedbackSummary | src/pages/Community.tsx:164-180 | zeros without data; total is the item count, issues the issue count, and total = issues + suggestions |
| CommunityPage.OneMoreItem | src/pages/Community.tsx:168-179 | one more item raises the issue count by one exactly when it is an issue |
| CommunityPage.CountIssues | src/pages/Community.tsx:168-179 | the number of issue items, at most the item count; OneMoreItem pins it |
| CommunityPage.DisplayedStatus | src/pages/Community.tsx:568 | the draft status, or the stored one |
| CommunityPage.DisplayedResponse | src/pages/Community.tsx:569 | the draft response, or the stored one, or "" |
| CommunityPage.DraftStatus | src/pages/Community.tsx:596-597 | only this item's status draft is set |
| CommunityPage.DraftResponse | src/pages/Community.tsx:622-626 | only this item's response draft is set |
| CommunityPage.Discard | src/pages/Community.tsx:637-646 | only this item's key is removed |
| CommunityPage.SaveRequest | src/pages/Community.tsx:653-673 | the draft status or the stored one; the draft response or the stored one or null |
| CommunityPage.SaveMatchesDisplay | src/pages/Community.tsx:653-657 | what is saved is what is displayed (lines 568-569), an empty stored response aside |
| CommunityPage.DraftsAreIndependent | src/pages/Community.tsx:596-646 | drafting for one item changes neither what another item shows nor what it would save |
| CommunityPage.DiscardRestoresStored | src/pages/Community.tsx:637-646 | after drafting and discarding, the item shows and would save its stored values |
| CommunityPage.SaveSendsDrafts | src/pages/Community.tsx:653-673 | saving after drafting sends the drafted values |
| JsonValues.Lookup | src/hooks/useAuditLogs.tsx:37-48 | the value of the first entry under the key, or none exactly when the key is absent |
| JsonValues.LookupDistinct | src/hooks/useAuditLogs.tsx:37-48 | on an object with distinct keys the lookup reads the one entry under the key, wherever it sits |
| AuditLogs.MetaValue | src/hooks/useAuditLogs.tsx:37-48 | the meta value under the key when meta is an object having it, null otherwise |
| AuditLogs.MapAuditLog | src/hooks/useAuditLogs.tsx:35-56 | every record field kept; actor name, owner name and owner id taken from the meta |
| AuditLogs.NullMetaGivesNulls | src/hooks/useAuditLogs.tsx:36 | null meta (or meta that is not an object) gives three nulls |
| AuditLogs.ActorFromMeta | src/hooks/useAuditLogs.tsx:37-40 | the first actor_name entry of the meta is the actor name |
| AuditLogs.LookupPastPrefix | src/hooks/useAuditLogs.tsx:37-48 | entries before the first one under a key do not affect its lookup |
| LogDiff.FormatValue | src/components/audit/LogDiff.tsx:29-43 | null as "—", strings unchanged, booleans as "true"/"false", numbers in decimal, arrays and objects serialised |
| LogDiff.VisibleFields | src/components/audit/LogDiff.tsx:51-53 | exactly the entries whose key is not hidden, never more than the input |
| LogDiff.VisibleFieldsAppend | src/components/audit/LogDiff.tsx:51-53 | the filter keeps order and multiplicity: two lists filtered together are filtered in turn |
| LogDiff.VisibleFieldsOne | src/components/audit/LogDiff.tsx:51-53 | one entry is kept exactly when its key is not hidden |
| LogDiff.NoVisibleFields | src/components/audit/LogDiff.tsx:51-55 | an object whose keys are all hidden has no visible field |
| LogDiff.DiffEntries | src/components/audit/LogDiff.tsx:102-108 | exactly the changes of the visible entries holding an object with both from and to; none names a hidden key |
| LogDiff.DiffEntriesAppend | src/components/audit/LogDiff.tsx:102-108 | the filter keeps the order of `changes`: two lists filtered together are filtered in turn |
| LogDiff.DiffEntriesOne | src/components/audit/LogDiff.tsx:102-108 | one entry gives a change exactly when it is a change entry |
| LogDiff.VisibleFieldsDistinct | src/components/audit/LogDiff.tsx:51-53 | on an object with distinct keys, as every JavaScript object has, the visible fields list each key once |
| LogDiff.DiffEntriesDistinct | src/components/audit/LogDiff.tsx:102-108 | on an object with distinct keys the diff names each field once |
| LogDiff.ObjectUnder | src/components/audit/LogDiff.tsx:50 | the object under a key, none when it is missing or not an object |
| LogDiff.IsObject | src/components/audit/LogDiff.tsx:25-27 | `isObject`: a non-null, non-array object; ObjectUnder uses it |
| LogDiff.LogDiffView | src/components/audit/LogDiff.tsx:45-144 | nothing for non-objects; the visible after object first, then the visible before object, then the from/to diff; an empty after or before view and an update without changes render nothing |
| LogDiff.HiddenFieldsNeverShown | src/components/audit/LogDiff.tsx:12-23 | no branch (lines 51-53, 77-79, 103-104) shows a hidden key |
| LogDiff.ShownViewsAreNonEmpty | src/components/audit/LogDiff.tsx:55-112 | a recorded or removed view has at least one field, and an empty change list is never shown for an update |
| LogDiff.AfterTakesPrecedence | src/components/audit/LogDiff.tsx:50-74 | whenever `changes` holds an object under after, the view is that of the after object alone, whatever else `changes` holds; an after object whose keys are all hidden shows nothing |
| LogRow.ActorLabelOf | src/components/audit/LogRow.tsx:35-37 | the meta actor name, else "Você" for the current user, else the user id, else "Sistema" |
| LogRow.OtherUsersShowTheirId | src/components/audit/LogRow.tsx:37 | another user without a name shows their id |
| LogRow.MetaActorWins | src/components/audit/LogRow.tsx:35-37 | any non-null actor name in the meta is the label, whoever is signed in; without meta or user the label is "Sistema" |
| LogRow.ActionLabel | src/components/audit/LogRow.tsx:16-23 | "Criado", "Atualizado" and "Removido", each exactly for its action |
| LogRow.EntityLabel | src/components/audit/LogRow.tsx:25-29 | "Transação", "Categoria" and "Conta", each exactly for its entity |
| LogRow.MessageOf | src/components/audit/LogRow.tsx:58 | the message, or "Ação registrada sem descrição" when there is none |
| LogRow.OwnerSuffix | src/components/audit/LogRow.tsx:62 | the owner name exactly when it is truthy |
| LogsPage.ChoiceFilter | src/pages/Logs.tsx:60-61 | no filter exactly for "all", otherwise the value |
| LogsPage.TrimmedFilter | src/pages/Logs.tsx:62-63 | no filter exactly for blank text, otherwise the trimmed text |
| LogsPage.LogsFilters.Filters | src/pages/Logs.tsx:58-67 | entity, action, user only for staff, trimmed search, and day bounds from T00:00:00Z to T23:59:59Z |
| LogsPage.LogsFilters.constructor | src/pages/Logs.tsx:43-48 | both selects start on "all" and every text starts empty |
| LogsPage.LogsFilters.StaffEffect | src/pages/Logs.tsx:52-56 | a non-staff user's id text is emptied, staff keep theirs, the other fields and the filters are unchanged |
| LogsPage.LogsFilters.ClearFilters | src/pages/Logs.tsx:71-80 | every field is reset, the user id only for staff, and no filter is left |
| LogsPage.SurroundingSpacesIgnored | src/pages/Logs.tsx:62-63 | surrounding spaces change no filter |
| LogsPage.DayBoundsBracketDay | src/pages/Logs.tsx:64-65 | the start and end bounds of a picked day take in every UTC timestamp of that day to the second, and no timestamp of an earlier or later day |

## Left out

- Supabase queries and mutations, react-query caching and invalidation, toasts and authentication are outside this model. Only the payloads, filters and summaries built around them are modelled.
- `parseBRLToCents` (src/lib/currency.ts:21-28) uses `parseFloat` and floating-point multiplication, so it is the parameter `parse`. `formatCentsToBRL` and `formatDate` rely on `Intl` and are not part of this model.
- AccountsPage.FormatToInput renders integer cents exactly with two decimals and a decimal comma. It does not model the floating-point `toFixed` of `cents / 100`, which agrees for amounts below 2^52 cents. The edit prefill of the transaction form is treated the same way.
- date-fns display formats ('PPP', "dd/MM/yyyy HH:mm"), daylight-saving behaviour of `setHours` and the current instant are not modelled. "Today" and the time-zone offset are parameters, and dates are year/month/day integers.
- `generateSeriesId` (src/lib/transactions.ts:35-41) uses `crypto` randomness and is not modelled.
- Expanding one transaction into stored series rows, and "this and later" updates or deletes, are not modelled; only the caller-side series meta is.
- CommunityPage.ValidateFeedback counts characters, while zod counts UTF-16 code units. The two differ for characters outside the Basic Multilingual Plane.
- LogDiff.FormatValue: JSON values hold integers only. Fractional numbers, `Date` objects and the exact `JSON.stringify` text of arrays and objects are not modelled.
- LogRow.OwnerSuffix and AuditLogs.MapAuditLog: the `as string` casts on meta values do not convert anything at run time, so non-string meta values pass through unchanged as JSON values.
- TransactionFormPage.ConsistentCategory omits the check for an unset selected type. The form's kind always has a value, so that check never fires.
- Text.StrLe orders texts by character, while JavaScript's `<` and default `sort` compare UTF-16 code units. The orders differ only between characters above U+FFFF and those from U+E000 to U+FFFF, which account ids and `yyyy-MM-dd` dates do not contain.
- TransactionFormPage.BuildPayload and TransactionFormPage.Submit require the picked date's year to lie from 0 to 9999, because the model writes `yyyy` as exactly four digits; `format` pads other years differently and the model does not cover them.
- TransactionFormPage.TransactionForm.PrefillEffect requires every loaded row to hold a 'yyyy-MM-dd' date with a four-digit year, as the database's date column does. The browser's time-zone offset, which `new Date` consults, is a parameter in minutes, strictly between -1440 and 1440.
- DashboardPage.PeriodState.PeriodChange requires a value different from the current period, because the select component reports only a changed value.
- Categories, the header, routing, the not-found and password pages, and all JSX rendering are not part of this model.

## Findings

| source | as written | input that shows it | evidently intended | confidence | as-written member | corrected member |
|---|---|---|---|---|---|---|
| src/pages/TransactionForm.tsx:93 | the edit form reads the stored 'yyyy-MM-dd' date with `new Date(text)`, which is UTC midnight. It is then saved with `format(date, 'yyyy-MM-dd')` in local time, so west of UTC an unchanged edit saves the previous day | a transaction dated 2024-03-15, edited and saved unchanged at UTC-3 (offset -180 minutes), is stored as 2024-03-14 | the form shows and saves the stored day itself | not executed | TransactionFormPage.PrefillAsWritten (with TransactionFormPage.UnchangedEditAsWrittenMovesDate and TransactionFormPage.BrasiliaEditExample) | TransactionFormPage.Prefill (with TransactionFormPage.UnchangedEditKeepsRow) |
