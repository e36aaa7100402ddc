/** `src/pages/Accounts.tsx`: the currency text sanitiser, the amount shown
    when editing, the credit-card summary, and the payload the account dialog
    submits. */
module AccountsPage {
  import opened Wrappers
  import opened Text
  import opened AccountsHook
  import opened AccountLib
  import AccountsCard

  // ---------------------------------------------------------------------------
  // sanitizeCurrencyInput
  // ---------------------------------------------------------------------------

  /** `sanitizeCurrencyInput`: keep digits and commas; turn the first comma
      into a dot; drop the last of several dots; turn the first dot back into
      a comma. */
  function SanitizeCurrencyInput(value: string): string
  {
    var cleaned := KeepDigitsAndCommas(value);
    var dotted := ReplaceFirst(cleaned, ',', '.');
    var collapsed := DropLastOfSeveralDots(dotted);
    ReplaceFirst(collapsed, '.', ',')
  }

  /** In effect the sanitiser only keeps the digits and commas, in order:
      after the first step there is no dot, so the comma turned into a dot is
      the only one, the dot-collapsing step has nothing to do, and the dot is
      turned back into the same comma. */
  lemma SanitizeKeepsDigitsAndCommas(value: string)
    ensures SanitizeCurrencyInput(value) == KeepDigitsAndCommas(value)
    ensures forall i :: 0 <= i < |SanitizeCurrencyInput(value)| ==> IsDigitOrComma(SanitizeCurrencyInput(value)[i])
  {
    var cleaned := KeepDigitsAndCommas(value);
    KeepDigitsAndCommasHasNoDot(value);
    ReplaceFirstBack(cleaned, ',', '.');
  }

  /** Sanitising twice is sanitising once. */
  lemma SanitizeIdempotent(value: string)
    ensures SanitizeCurrencyInput(SanitizeCurrencyInput(value)) == SanitizeCurrencyInput(value)
  {
    SanitizeKeepsDigitsAndCommas(value);
    SanitizeKeepsDigitsAndCommas(SanitizeCurrencyInput(value));
    KeepDigitsAndCommasFixed(KeepDigitsAndCommas(value));
  }

  // ---------------------------------------------------------------------------
  // formatToInput
  // ---------------------------------------------------------------------------

  /** `formatToInput`: no amount shows as an empty field; an amount in cents
      shows with two decimals and a decimal comma. */
  function FormatToInput(value: Option<int>): (r: string)
    ensures r == "" <==> value.None?
  {
    match value
    case None => ""
    case Some(cents) => CentsText(cents)
  }

  /** A non-negative amount shown for editing passes the sanitiser unchanged,
      keeping its single decimal comma. */
  lemma FormattedAmountSurvivesSanitiser(cents: int)
    requires cents >= 0
    ensures SanitizeCurrencyInput(FormatToInput(Some(cents))) == FormatToInput(Some(cents))
    ensures Occurrences(FormatToInput(Some(cents)), ',') == 1
  {
    CentsTextDigitsAndComma(cents);
    SanitizeKeepsDigitsAndCommas(CentsText(cents));
    KeepDigitsAndCommasFixed(CentsText(cents));
  }

  // ---------------------------------------------------------------------------
  // creditCardSummary
  // ---------------------------------------------------------------------------

  datatype CreditCardSummary = CreditCardSummary(active: nat, totalLimit: int)

  function ActiveCreditCards(accounts: seq<Account>): (n: nat)
    ensures n <= |accounts|
  {
    if accounts == [] then 0
    else
      var last := accounts[|accounts| - 1];
      ActiveCreditCards(accounts[..|accounts| - 1]) + (if IsCreditCard(last.accountType) && last.isActive then 1 else 0)
  }

  /** `creditCardSummary`: zero before the accounts load; otherwise the number
      of active credit cards and the sum of the credit cards' limits (a
      missing limit counting as zero), the same limit total the accounts card
      shows. */
  function ComputeCreditCardSummary(accounts: Option<seq<Account>>): (r: CreditCardSummary)
    ensures accounts.None? ==> r == CreditCardSummary(0, 0)
    ensures accounts.Some? ==> r.totalLimit == AccountsCard.CreditCardLimitTotal(accounts.value)
    ensures accounts.Some? ==> r.active == ActiveCreditCards(accounts.value) && r.active <= |accounts.value|
  {
    match accounts
    case None => CreditCardSummary(0, 0)
    case Some(list) => CreditCardSummaryOf(list)
  }

  function CreditCardSummaryOf(accounts: seq<Account>): (r: CreditCardSummary)
    ensures r.totalLimit == AccountsCard.CreditCardLimitTotal(accounts)
    ensures r.active == ActiveCreditCards(accounts)
  {
    if accounts == [] then CreditCardSummary(0, 0)
    else
      var rest := CreditCardSummaryOf(accounts[..|accounts| - 1]);
      var last := accounts[|accounts| - 1];
      if IsCreditCard(last.accountType) then
        CreditCardSummary(rest.active + (if last.isActive then 1 else 0), rest.totalLimit + last.limitCents.GetOr(0))
      else rest
  }

  /** An account that is not a credit card changes neither figure. */
  lemma NonCreditCardIgnored(accounts: seq<Account>, a: Account)
    requires !IsCreditCard(a.accountType)
    ensures ComputeCreditCardSummary(Some(accounts + [a])) == ComputeCreditCardSummary(Some(accounts))
  {
    assert (accounts + [a])[..|accounts|] == accounts;
  }

  // ---------------------------------------------------------------------------
  // onSubmit
  // ---------------------------------------------------------------------------

  /** `AccountFormData`; the amount fields are optional text. */
  datatype AccountForm = AccountForm(
    name: string,
    accountType: AccountType,
    limit: Option<string>,
    balance: Option<string>,
    isActive: bool)

  /** An amount field in the payload: `null` for an empty or missing text,
      otherwise the parsed cents. */
  function AmountOf(text: Option<string>, parse: string -> int): (r: Option<int>)
    ensures r.None? <==> text.None? || text.value == ""
    ensures r.Some? ==> r.value == parse(text.value)
  {
    if text.Some? && text.value != "" then Some(parse(text.value)) else None
  }

  /** What the dialog sends: a new account, or an update of the account being
      edited. */
  datatype Submission =
    | CreateAccount(input: AccountInput)
    | UpdateAccount(fields: map<string, PropertyValue>)

  function FieldOf(amount: Option<int>): PropertyValue
  {
    match amount
    case None => NullValue
    case Some(cents) => NumberValue(cents)
  }

  /** `onSubmit`, with `parseBRLToCents` as the parameter `parse`: editing
      sends `{ id, ...payload }` to the update, otherwise the payload is
      created; in both, an empty limit or balance is an explicit `null`. */
  function Submit(values: AccountForm, editing: Option<Account>, parse: string -> int): (r: Submission)
    ensures r.CreateAccount? <==> editing.None?
    ensures r.CreateAccount? ==>
              && r.input.name == values.name && r.input.accountType == values.accountType
              && r.input.isActive == Value(values.isActive)
              && (r.input.limitCents == Null <==> AmountOf(values.limit, parse).None?)
              && (r.input.limitCents.Value? <==> AmountOf(values.limit, parse).Some?)
              && (r.input.limitCents.Value? ==> r.input.limitCents.value == parse(values.limit.value))
              && (r.input.balanceCents == Null <==> AmountOf(values.balance, parse).None?)
              && (r.input.balanceCents.Value? <==> AmountOf(values.balance, parse).Some?)
              && (r.input.balanceCents.Value? ==> r.input.balanceCents.value == parse(values.balance.value))
    ensures r.UpdateAccount? ==>
              && r.fields.Keys == {"id", "name", "type", "limit_cents", "balance_cents", "is_active"}
              && r.fields["id"] == TextValue(editing.value.id)
              && r.fields["name"] == TextValue(values.name)
              && r.fields["type"] == TextValue(AccountTypeName(values.accountType))
              && r.fields["limit_cents"] == FieldOf(AmountOf(values.limit, parse))
              && r.fields["balance_cents"] == FieldOf(AmountOf(values.balance, parse))
              && r.fields["is_active"] == BooleanValue(values.isActive)
  {
    var limitCents := AmountOf(values.limit, parse);
    var balanceCents := AmountOf(values.balance, parse);
    match editing
    case Some(account) =>
      UpdateAccount(map[
        "id" := TextValue(account.id),
        "name" := TextValue(values.name),
        "type" := TextValue(AccountTypeName(values.accountType)),
        "limit_cents" := FieldOf(limitCents),
        "balance_cents" := FieldOf(balanceCents),
        "is_active" := BooleanValue(values.isActive)])
    case None =>
      CreateAccount(AccountInput(
        values.name,
        values.accountType,
        match limitCents case None => Null case Some(c) => Value(c),
        match balanceCents case None => Null case Some(c) => Value(c),
        Value(values.isActive)))
  }

  /** Clearing the limit of an account being edited clears it in the
      database: the update hook keeps the explicit `null` and sends every
      field but the id. */
  method SubmitEdit(values: AccountForm, account: Account, parse: string -> int)
    returns (id: string, payload: map<string, PropertyValue>)
    requires values.limit.None? || values.limit.value == ""
    ensures id == account.id
    ensures "limit_cents" in payload && payload["limit_cents"] == NullValue
    ensures payload.Keys == {"name", "type", "limit_cents", "balance_cents", "is_active"}
  {
    var submission := Submit(values, Some(account), parse);
    id, payload := UpdateAccountPayload(submission.fields);
  }

  /** A new account created with empty amount fields is stored without limit
      or balance. */
  lemma EmptyAmountsCreateNulls(values: AccountForm, parse: string -> int, user: string)
    requires values.limit.None? || values.limit.value == ""
    requires values.balance.None? || values.balance.value == ""
    ensures var payload := CreateAccountPayload(Submit(values, None, parse).input, Some(user));
            payload.Success? && payload.value.limitCents.None? && payload.value.balanceCents.None?
            && payload.value.isActive == values.isActive
  {
  }
}
