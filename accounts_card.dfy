/** `src/components/accounts/AccountsCard.tsx`: the credit-card exposure of an
    account, the hint shown under each account, and the three totals at the
    top of the card. Amounts are integer cents; the `formatCentsToBRL`
    rendering is not part of this model. */
module AccountsCard {
  import opened Wrappers
  import opened AccountsHook
  import opened AccountLib
  import opened Records

  /** The transactions that count against an account's limit. */
  predicate CountsAgainst(t: Transaction, account: Account)
  {
    t.accountId == Some(account.id) && t.kind == Expense && !t.isPaid
  }

  /** The sum of the amounts of the unpaid expenses of `account`. */
  function UnpaidExpenseTotal(account: Account, transactions: seq<Transaction>): int
  {
    if transactions == [] then 0
    else
      var last := transactions[|transactions| - 1];
      UnpaidExpenseTotal(account, transactions[..|transactions| - 1])
        + (if CountsAgainst(last, account) then last.amountCents else 0)
  }

  /** `computeOutstandingForCreditCard`: the limit minus every unpaid expense
      charged to the account (possibly negative), or `null` without a limit. */
  function OutstandingForCreditCard(account: Account, transactions: seq<Transaction>): (r: Option<int>)
    ensures r.None? <==> account.limitCents.None?
    ensures r.Some? ==> r.value + UnpaidExpenseTotal(account, transactions) == account.limitCents.value
  {
    var totalExpenses := UnpaidExpenseTotal(account, transactions);
    if account.limitCents.None? then None else Some(account.limitCents.value - totalExpenses)
  }

  /** A transaction that is paid, an income, or charged to another account
      never changes the outstanding value, wherever it appears. */
  lemma {:induction false} IrrelevantTransaction(account: Account, before: seq<Transaction>, t: Transaction, after: seq<Transaction>)
    requires !CountsAgainst(t, account)
    ensures OutstandingForCreditCard(account, before + [t] + after) == OutstandingForCreditCard(account, before + after)
  {
    UnpaidTotalIgnores(account, before, t, after);
  }

  lemma {:induction false} UnpaidTotalIgnores(account: Account, before: seq<Transaction>, t: Transaction, after: seq<Transaction>)
    requires !CountsAgainst(t, account)
    ensures UnpaidExpenseTotal(account, before + [t] + after) == UnpaidExpenseTotal(account, before + after)
  {
    if after == [] {
      assert before + [t] + after == before + [t];
      assert (before + [t])[..|before|] == before;
      assert before + after == before;
    } else {
      var init := after[..|after| - 1];
      var last := after[|after| - 1];
      assert (before + [t] + after)[..|before| + 1 + |init|] == before + [t] + init;
      assert (before + after)[..|before| + |init|] == before + init;
      UnpaidTotalIgnores(account, before, t, init);
    }
  }

  /** Adding one more unpaid expense of the account lowers the outstanding
      value by exactly its amount. */
  lemma NewExpenseLowersOutstanding(account: Account, transactions: seq<Transaction>, t: Transaction)
    requires account.limitCents.Some? && CountsAgainst(t, account)
    ensures OutstandingForCreditCard(account, transactions + [t]).value
         == OutstandingForCreditCard(account, transactions).value - t.amountCents
  {
    assert (transactions + [t])[..|transactions|] == transactions;
  }

  // ---------------------------------------------------------------------------
  // computeBalanceHint
  // ---------------------------------------------------------------------------

  /** The hint under an account, before currency formatting. */
  datatype BalanceHint =
    | LimitNotInformed                        // "Limite não informado"
    | AvailableLimit(availableCents: int)     // "Limite disponível: …"
    | EstimatedBalance(balanceCents: int)     // "Saldo estimado: …"
    | BalanceNotInformed                      // "Saldo não informado"

  /** `computeBalanceHint`: a credit card shows its available limit (the
      outstanding value, never below zero) or that its limit is missing; any
      other account shows its balance or that the balance is missing. */
  function ComputeBalanceHint(account: Account, transactions: seq<Transaction>): (r: BalanceHint)
    ensures r == LimitNotInformed <==> IsCreditCard(account.accountType) && account.limitCents.None?
    ensures r.AvailableLimit? <==> IsCreditCard(account.accountType) && account.limitCents.Some?
    ensures r.AvailableLimit? ==>
              && r.availableCents >= 0
              && r.availableCents >= OutstandingForCreditCard(account, transactions).value
              && (r.availableCents == 0 || r.availableCents == OutstandingForCreditCard(account, transactions).value)
    ensures r.EstimatedBalance? <==> !IsCreditCard(account.accountType) && account.balanceCents.Some?
    ensures r.EstimatedBalance? ==> r.balanceCents == account.balanceCents.value
    ensures r == BalanceNotInformed <==> !IsCreditCard(account.accountType) && account.balanceCents.None?
  {
    if account.accountType == CreditCard then
      var remaining := OutstandingForCreditCard(account, transactions);
      if remaining.None? then LimitNotInformed
      else AvailableLimit(if remaining.value >= 0 then remaining.value else 0)
    else if account.balanceCents.Some? then EstimatedBalance(account.balanceCents.value)
    else BalanceNotInformed
  }

  // ---------------------------------------------------------------------------
  // The card totals
  // ---------------------------------------------------------------------------

  /** `creditCardAccounts`: the credit-card accounts, in order. */
  function CreditCardAccounts(accounts: seq<Account>): (r: seq<Account>)
    ensures forall a :: a in r <==> a in accounts && IsCreditCard(a.accountType)
    ensures |r| <= |accounts|
  {
    if accounts == [] then []
    else
      var rest := CreditCardAccounts(accounts[..|accounts| - 1]);
      var last := accounts[|accounts| - 1];
      assert forall a :: a in accounts <==> a in accounts[..|accounts| - 1] || a == last;
      if IsCreditCard(last.accountType) then rest + [last] else rest
  }

  /** `filter` keeps the order and every credit card: two lists filtered
      together are filtered in turn, and one account is kept exactly when it is
      a credit card. */
  lemma {:induction false} CreditCardAccountsAppend(a: seq<Account>, b: seq<Account>)
    ensures CreditCardAccounts(a + b) == CreditCardAccounts(a) + CreditCardAccounts(b)
    ensures |b| == 1 ==> CreditCardAccounts(b) == if IsCreditCard(b[0].accountType) then b else []
  {
    if b == [] {
      assert a + b == a;
    } else {
      var front := b[..|b| - 1];
      CreditCardAccountsAppend(a, front);
      assert (a + b)[..|a + b| - 1] == a + front;
      assert (a + b)[|a + b| - 1] == b[|b| - 1];
      if |b| == 1 {
        assert front == [];
      }
    }
  }

  /** The `reduce` of `creditCardLimitTotal` over a list of cards. */
  function LimitSum(cards: seq<Account>): int
  {
    if cards == [] then 0
    else LimitSum(cards[..|cards| - 1]) + cards[|cards| - 1].limitCents.GetOr(0)
  }

  /** The `reduce` of `creditCardAvailableTotal` over a list of cards. */
  function AvailableSum(cards: seq<Account>, transactions: seq<Transaction>): int
  {
    if cards == [] then 0
    else
      var remaining := OutstandingForCreditCard(cards[|cards| - 1], transactions).GetOr(0);
      AvailableSum(cards[..|cards| - 1], transactions) + (if remaining >= 0 then remaining else 0)
  }

  /** Both credit-card totals are reductions over `creditCardAccounts`, as the
      card computes them: filtering first and summing second gives the same
      figures as summing the credit cards in place. */
  lemma {:induction false} TotalsOverCreditCards(accounts: seq<Account>, transactions: seq<Transaction>)
    ensures CreditCardLimitTotal(accounts) == LimitSum(CreditCardAccounts(accounts))
    ensures CreditCardAvailableTotal(accounts, transactions) == AvailableSum(CreditCardAccounts(accounts), transactions)
  {
    if accounts != [] {
      var front := accounts[..|accounts| - 1];
      var last := accounts[|accounts| - 1];
      TotalsOverCreditCards(front, transactions);
      if IsCreditCard(last.accountType) {
        var cards := CreditCardAccounts(front) + [last];
        assert cards[..|cards| - 1] == CreditCardAccounts(front);
      }
    }
  }

  /** `creditCardLimitTotal`: the limits of the credit cards, a missing limit
      counting as zero. */
  function CreditCardLimitTotal(accounts: seq<Account>): int
  {
    if accounts == [] then 0
    else
      var last := accounts[|accounts| - 1];
      CreditCardLimitTotal(accounts[..|accounts| - 1])
        + (if IsCreditCard(last.accountType) then last.limitCents.GetOr(0) else 0)
  }

  /** `creditCardAvailableTotal`: over the credit cards, the outstanding value
      (`?? 0`) clamped at zero; so the total is never negative. */
  function CreditCardAvailableTotal(accounts: seq<Account>, transactions: seq<Transaction>): (r: int)
    ensures r >= 0
  {
    if accounts == [] then 0
    else
      var last := accounts[|accounts| - 1];
      var remaining := OutstandingForCreditCard(last, transactions).GetOr(0);
      CreditCardAvailableTotal(accounts[..|accounts| - 1], transactions)
        + (if IsCreditCard(last.accountType) then (if remaining >= 0 then remaining else 0) else 0)
  }

  /** `otherBalancesTotal`: the balances of the accounts that are not credit
      cards, a missing balance counting as zero. */
  function OtherBalancesTotal(accounts: seq<Account>): int
  {
    if accounts == [] then 0
    else
      var last := accounts[|accounts| - 1];
      OtherBalancesTotal(accounts[..|accounts| - 1])
        + (if !IsCreditCard(last.accountType) then last.balanceCents.GetOr(0) else 0)
  }

  /** The "Saldos estimados" figure: the other balances, shown as zero when
      they add up to less. */
  function DisplayedOtherBalances(accounts: seq<Account>): (r: int)
    ensures r >= 0 && r >= OtherBalancesTotal(accounts)
    ensures r == 0 || r == OtherBalancesTotal(accounts)
  {
    var total := OtherBalancesTotal(accounts);
    if total >= 0 then total else 0
  }

  /** "Contas ativas": the number of active accounts. */
  function ActiveCount(accounts: seq<Account>): (n: nat)
    ensures n <= |accounts|
  {
    if accounts == [] then 0
    else ActiveCount(accounts[..|accounts| - 1]) + (if accounts[|accounts| - 1].isActive then 1 else 0)
  }

  /** `accounts.filter(isActive).length`: two lists count together what they
      count apart, and one account counts exactly when it is active. */
  lemma {:induction false} ActiveCountAppend(a: seq<Account>, b: seq<Account>)
    ensures ActiveCount(a + b) == ActiveCount(a) + ActiveCount(b)
    ensures |b| == 1 ==> ActiveCount(b) == if b[0].isActive then 1 else 0
  {
    if b == [] {
      assert a + b == a;
    } else {
      var front := b[..|b| - 1];
      ActiveCountAppend(a, front);
      assert (a + b)[..|a + b| - 1] == a + front;
      assert (a + b)[|a + b| - 1] == b[|b| - 1];
      if |b| == 1 {
        assert front == [];
      }
    }
  }

  /** Every account is either a credit card or not: the credit-card limits and
      the other balances together cover each account's figure exactly once. */
  lemma {:induction false} TotalsPartitionAccounts(accounts: seq<Account>)
    ensures CreditCardLimitTotal(accounts) + OtherBalancesTotal(accounts)
         == SumOfFigures(accounts)
  {
    if accounts != [] {
      TotalsPartitionAccounts(accounts[..|accounts| - 1]);
    }
  }

  /** Each account's headline figure: its limit when a credit card, otherwise
      its balance, a missing one counting as zero. */
  function SumOfFigures(accounts: seq<Account>): int
  {
    if accounts == [] then 0
    else
      var last := accounts[|accounts| - 1];
      SumOfFigures(accounts[..|accounts| - 1])
        + (if IsCreditCard(last.accountType) then last.limitCents.GetOr(0) else last.balanceCents.GetOr(0))
  }

  /** When limits are non-negative and no unpaid expense is negative, the
      available total does not exceed the limit total. */
  lemma {:induction false} AvailableAtMostLimit(accounts: seq<Account>, transactions: seq<Transaction>)
    requires forall a :: a in accounts ==> a.limitCents.GetOr(0) >= 0
    requires forall t :: t in transactions ==> t.amountCents >= 0
    ensures CreditCardAvailableTotal(accounts, transactions) <= CreditCardLimitTotal(accounts)
  {
    if accounts != [] {
      var last := accounts[|accounts| - 1];
      assert last in accounts;
      UnpaidTotalNonNegative(last, transactions);
      AvailableAtMostLimit(accounts[..|accounts| - 1], transactions);
    }
  }

  lemma {:induction false} UnpaidTotalNonNegative(account: Account, transactions: seq<Transaction>)
    requires forall t :: t in transactions ==> t.amountCents >= 0
    ensures UnpaidExpenseTotal(account, transactions) >= 0
  {
    if transactions != [] {
      assert transactions[|transactions| - 1] in transactions;
      UnpaidTotalNonNegative(account, transactions[..|transactions| - 1]);
    }
  }
}
