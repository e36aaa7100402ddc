/** The account rules of `src/hooks/useAccounts.tsx`: the account types, the
    error text shown in a toast, the payload a new account is inserted with, and
    the payload an update sends. The Supabase queries themselves are not part of
    this model. */
module AccountsHook {
  import opened Wrappers

  /** `AccountType`: the nine kinds of account. */
  datatype AccountType =
    | CreditCard | DebitCard | Cash | Pix | Boleto | FoodVoucher | Transfer | Ewallet | BankAccount

  /** The database text of an account type. */
  function AccountTypeName(t: AccountType): string
  {
    match t
    case CreditCard => "credit_card"
    case DebitCard => "debit_card"
    case Cash => "cash"
    case Pix => "pix"
    case Boleto => "boleto"
    case FoodVoucher => "food_voucher"
    case Transfer => "transfer"
    case Ewallet => "ewallet"
    case BankAccount => "bank_account"
  }

  /** An `Account` row; `created_at` and `user_id` are not used by the rules modelled. */
  datatype Account = Account(
    id: string,
    name: string,
    accountType: AccountType,
    limitCents: Option<int>,
    balanceCents: Option<int>,
    isActive: bool)

  // ---------------------------------------------------------------------------
  // getErrorMessage
  // ---------------------------------------------------------------------------

  /** A `message` property of a thrown plain object. */
  datatype MessageProperty = NoMessage | StringMessage(text: string) | NonStringMessage

  /** What a mutation can throw: an `Error`, another object (possibly with a
      `message`), a string, `null`, or any other value. */
  datatype Thrown =
    | ErrorInstance(message: string)
    | PlainObject(property: MessageProperty)
    | ThrownString(text: string)
    | ThrownNull
    | ThrownOther

  /** The texts a thrown value carries. */
  predicate Carries(thrown: Thrown, text: string)
  {
    thrown == ErrorInstance(text) || thrown == PlainObject(StringMessage(text)) || thrown == ThrownString(text)
  }

  /** `getErrorMessage`: the text the thrown value carries, or "" when it
      carries none. */
  function GetErrorMessage(thrown: Thrown): (r: string)
    ensures Carries(thrown, r) || (r == "" && forall text :: !Carries(thrown, text))
  {
    match thrown
    case ErrorInstance(message) => message
    case PlainObject(StringMessage(message)) => message
    case PlainObject(_) => ""
    case ThrownString(text) => text
    case ThrownNull => ""
    case ThrownOther => ""
  }

  /** The `onError` toast: the error's own text, or `fallback` when that is empty. */
  function ToastMessage(thrown: Thrown, fallback: string): (r: string)
    ensures fallback != "" ==> r != ""
    ensures r == fallback || Carries(thrown, r)
  {
    var message := GetErrorMessage(thrown);
    if message != "" then message else fallback
  }

  const CreateFallback: string := "Erro ao criar conta"
  const UpdateFallback: string := "Erro ao atualizar conta"
  const DeleteFallback: string := "Erro ao excluir conta"

  /** A thrown value that carries a non-empty text is shown as that text; the
      fallback appears only when nothing readable was thrown. */
  lemma ToastShowsCarriedText(thrown: Thrown, text: string, fallback: string)
    requires Carries(thrown, text) && text != ""
    ensures ToastMessage(thrown, fallback) == text
  {
  }

  // ---------------------------------------------------------------------------
  // useCreateAccount
  // ---------------------------------------------------------------------------

  /** An optional input field: left out (`undefined`), `null`, or a value. */
  datatype Field<+T> = Undefined | Null | Value(value: T) {
    /** `field ?? fallback`. */
    function OrElse(fallback: Option<T>): Option<T> {
      match this
      case Value(v) => Some(v)
      case _ => fallback
    }
  }

  /** `AccountInput`. */
  datatype AccountInput = AccountInput(
    name: string,
    accountType: AccountType,
    limitCents: Field<int>,
    balanceCents: Field<int>,
    isActive: Field<bool>)

  /** The row inserted for a new account. */
  datatype CreatePayload = CreatePayload(
    name: string,
    accountType: AccountType,
    limitCents: Option<int>,
    balanceCents: Option<int>,
    isActive: bool,
    userId: string)

  const NotAuthenticated: string := "Usuário não autenticado"

  /** The `mutationFn` of `useCreateAccount` up to the insert: it throws when no
      user is signed in; otherwise the payload keeps the input's name, type and
      given amounts, turns a missing or null amount into `null`, makes the
      account active unless told otherwise, and belongs to the current user. */
  function CreateAccountPayload(account: AccountInput, user: Option<string>): (r: Result<CreatePayload, string>)
    ensures r.Failure? <==> user.None?
    ensures r.Failure? ==> r.error == NotAuthenticated
    ensures r.Success? ==>
              && r.value.userId == user.value
              && r.value.name == account.name
              && r.value.accountType == account.accountType
              && (r.value.limitCents.Some? <==> account.limitCents.Value?)
              && (account.limitCents.Value? ==> r.value.limitCents.value == account.limitCents.value)
              && (r.value.balanceCents.Some? <==> account.balanceCents.Value?)
              && (account.balanceCents.Value? ==> r.value.balanceCents.value == account.balanceCents.value)
              && (r.value.isActive <==> !account.isActive.Value? || account.isActive.value)
  {
    match user
    case None => Failure(NotAuthenticated)
    case Some(userId) =>
      Success(CreatePayload(
        account.name,
        account.accountType,
        account.limitCents.OrElse(None),
        account.balanceCents.OrElse(None),
        account.isActive.OrElse(Some(true)).value,
        userId))
  }

  // ---------------------------------------------------------------------------
  // useUpdateAccount
  // ---------------------------------------------------------------------------

  /** A property value of the update object; `Undefined` is a key that is
      present but holds `undefined`. */
  datatype PropertyValue = UndefinedValue | NullValue | NumberValue(n: int) | BooleanValue(b: bool) | TextValue(s: string)

  /** The keys dropped from the update when they hold `undefined`. */
  const PrunedKeys: set<string> := {"limit_cents", "balance_cents", "is_active"}

  /** The `mutationFn` of `useUpdateAccount` up to the update call: the `id`
      selects the row and is not sent; every other property is copied, except
      that `limit_cents`, `balance_cents` and `is_active` are deleted when they
      hold `undefined`, while an explicit `null` is kept so the column is
      cleared. */
  method UpdateAccountPayload(input: map<string, PropertyValue>) returns (id: string, payload: map<string, PropertyValue>)
    requires "id" in input && input["id"].TextValue?
    ensures id == input["id"].s
    ensures "id" !in payload
    ensures forall key :: key in payload <==>
              key in input && key != "id" && !(key in PrunedKeys && input[key] == UndefinedValue)
    ensures forall key :: key in payload ==> payload[key] == input[key]
  {
    id := input["id"].s;
    payload := map key | key in input && key != "id" :: input[key];
    if Lookup(payload, "limit_cents") == UndefinedValue {
      payload := payload - {"limit_cents"};
    }
    if Lookup(payload, "balance_cents") == UndefinedValue {
      payload := payload - {"balance_cents"};
    }
    if Lookup(payload, "is_active") == UndefinedValue {
      payload := payload - {"is_active"};
    }
  }

  /** Reading a property: a missing key reads as `undefined`. */
  function Lookup(obj: map<string, PropertyValue>, key: string): (v: PropertyValue)
    ensures key !in obj ==> v == UndefinedValue
  {
    if key in obj then obj[key] else UndefinedValue
  }
}
