/** `src/lib/account.ts`: the display label of each account type, and the
    credit-card test. */
module AccountLib {
  import opened Wrappers
  import opened AccountsHook

  /** `ACCOUNT_TYPE_LABELS[type]`; the table has an entry for every type, so
      the `?? type` fallback of `getAccountTypeLabel` never applies. */
  function AccountTypeLabel(t: AccountType): string
  {
    match t
    case CreditCard => "Cartão de crédito"
    case DebitCard => "Cartão de débito"
    case Cash => "Dinheiro"
    case Pix => "Pix"
    case Boleto => "Boleto"
    case FoodVoucher => "Alimentação"
    case Transfer => "Transferência"
    case Ewallet => "Carteira digital"
    case BankAccount => "Conta bancária"
  }

  /** The reverse lookup: the account type shown under a label, if any. */
  function AccountTypeOfLabel(shown: string): Option<AccountType>
  {
    if shown == "Cartão de crédito" then Some(CreditCard)
    else if shown == "Cartão de débito" then Some(DebitCard)
    else if shown == "Dinheiro" then Some(Cash)
    else if shown == "Pix" then Some(Pix)
    else if shown == "Boleto" then Some(Boleto)
    else if shown == "Alimentação" then Some(FoodVoucher)
    else if shown == "Transferência" then Some(Transfer)
    else if shown == "Carteira digital" then Some(Ewallet)
    else if shown == "Conta bancária" then Some(BankAccount)
    else None
  }

  /** Every type has a non-empty label, and the label determines the type. */
  lemma AccountTypeLabelRoundTrip(t: AccountType)
    ensures AccountTypeLabel(t) != ""
    ensures AccountTypeOfLabel(AccountTypeLabel(t)) == Some(t)
  {
    match t
    case CreditCard =>
    case DebitCard =>
    case Cash =>
    case Pix =>
    case Boleto =>
    case FoodVoucher =>
    case Transfer =>
    case Ewallet =>
    case BankAccount =>
  }

  /** No two account types share a label. */
  lemma AccountTypeLabelInjective(a: AccountType, b: AccountType)
    ensures AccountTypeLabel(a) == AccountTypeLabel(b) ==> a == b
  {
    AccountTypeLabelRoundTrip(a);
    AccountTypeLabelRoundTrip(b);
  }

  /** `isCreditCard`. */
  predicate IsCreditCard(t: AccountType)
  {
    t == CreditCard
  }

  /** Only the credit-card type is shown as "Cartão de crédito". */
  lemma IsCreditCardByLabel(t: AccountType)
    ensures IsCreditCard(t) <==> AccountTypeLabel(t) == "Cartão de crédito"
  {
    AccountTypeLabelInjective(t, CreditCard);
  }
}
