/** `src/components/payment/PaymentMethodChips.tsx`: the payment-method
    options, the dictionary from each option to the account types it may be
    paid from, and which chip is highlighted. */
module PaymentMethods {
  import opened Wrappers
  import opened AccountsHook
  import opened AccountLib

  /** `PaymentMethodOption`; `accountTypes` may be left out. */
  datatype PaymentMethodOption = PaymentMethodOption(caption: string, value: string, accountTypes: Option<seq<AccountType>>)

  /** `PAYMENT_METHOD_OPTIONS`. */
  const PaymentMethodOptions: seq<PaymentMethodOption> := [
    PaymentMethodOption("Cartão de crédito", "Cartão de crédito", Some([CreditCard])),
    PaymentMethodOption("Cartão de débito", "Cartão de débito", Some([DebitCard])),
    PaymentMethodOption("Dinheiro", "Dinheiro", Some([Cash])),
    PaymentMethodOption("Pix", "Pix", Some([Pix])),
    PaymentMethodOption("Boleto", "Boleto", Some([Boleto])),
    PaymentMethodOption("Alimentação", "Alimentação", Some([FoodVoucher])),
    PaymentMethodOption("Transferência", "Transferência", Some([Transfer, BankAccount])),
    PaymentMethodOption("Carteira digital", "Carteira digital", Some([Ewallet])),
    PaymentMethodOption("Conta bancária", "Conta bancária", Some([BankAccount]))
  ]

  /** The option values. */
  function Values(options: seq<PaymentMethodOption>): (r: set<string>)
    ensures forall i :: 0 <= i < |options| ==> options[i].value in r
    ensures forall v :: v in r ==> exists i :: 0 <= i < |options| && options[i].value == v
  {
    set i | 0 <= i < |options| :: options[i].value
  }

  /** The entry the reduce leaves under `key`: the account types of the LAST
      option with that value (`[]` when it has none), since a later write to
      the same key replaces an earlier one. */
  function TypesFor(options: seq<PaymentMethodOption>, key: string): Option<seq<AccountType>>
  {
    if options == [] then None
    else if options[|options| - 1].value == key then Some(options[|options| - 1].accountTypes.GetOr([]))
    else TypesFor(options[..|options| - 1], key)
  }

  /** The `reduce` that builds `PAYMENT_METHOD_ACCOUNT_TYPES`: one key per
      option value, holding that option's account types. */
  method BuildAccountTypesMap(options: seq<PaymentMethodOption>) returns (acc: map<string, seq<AccountType>>)
    ensures acc.Keys == Values(options)
    ensures forall key :: key in acc ==> TypesFor(options, key) == Some(acc[key])
  {
    acc := map[];
    var i := 0;
    while i < |options|
      invariant 0 <= i <= |options|
      invariant acc.Keys == Values(options[..i])
      invariant forall key :: key in acc ==> TypesFor(options[..i], key) == Some(acc[key])
    {
      var option := options[i];
      acc := acc[option.value := option.accountTypes.GetOr([])];
      assert options[..i + 1][..i] == options[..i];
      i := i + 1;
    }
    assert options[..i] == options;
  }

  /** Option values are pairwise distinct. */
  predicate DistinctValues(options: seq<PaymentMethodOption>)
  {
    forall i, j :: 0 <= i < j < |options| ==> options[i].value != options[j].value
  }

  /** With distinct values no entry is overwritten: each option's own types
      are found under its value. */
  lemma {:induction false} TypesForDistinct(options: seq<PaymentMethodOption>, i: int)
    requires DistinctValues(options) && 0 <= i < |options|
    ensures TypesFor(options, options[i].value) == Some(options[i].accountTypes.GetOr([]))
  {
    if i < |options| - 1 {
      TypesForDistinct(options[..|options| - 1], i);
    }
  }

  /** The shipped options have distinct values, so the dictionary maps every
      option's value to exactly that option's account types. */
  lemma ShippedOptionsDistinct()
    ensures DistinctValues(PaymentMethodOptions)
    ensures forall i :: 0 <= i < |PaymentMethodOptions| ==>
              TypesFor(PaymentMethodOptions, PaymentMethodOptions[i].value)
              == Some(PaymentMethodOptions[i].accountTypes.GetOr([]))
  {
    forall i, j | 0 <= i < j < |PaymentMethodOptions|
      ensures PaymentMethodOptions[i].value != PaymentMethodOptions[j].value
    {
      AccountTypeLabelInjective(TypeAt(i), TypeAt(j));
    }
    forall i | 0 <= i < |PaymentMethodOptions|
      ensures TypesFor(PaymentMethodOptions, PaymentMethodOptions[i].value)
              == Some(PaymentMethodOptions[i].accountTypes.GetOr([]))
    {
      TypesForDistinct(PaymentMethodOptions, i);
    }
  }

  /** The account type whose label is option `i`'s value. */
  function TypeAt(i: int): (t: AccountType)
    requires 0 <= i < |PaymentMethodOptions|
    ensures PaymentMethodOptions[i].value == AccountTypeLabel(t)
    ensures t in PaymentMethodOptions[i].accountTypes.value
  {
    [CreditCard, DebitCard, Cash, Pix, Boleto, FoodVoucher, Transfer, Ewallet, BankAccount][i]
  }

  /** Each option is named after the account type it is primarily paid from,
      and every one of the nine account types is reachable from some option. */
  lemma EveryAccountTypeReachable(t: AccountType)
    ensures exists i :: 0 <= i < |PaymentMethodOptions| && PaymentMethodOptions[i].value == AccountTypeLabel(t)
                        && t in PaymentMethodOptions[i].accountTypes.GetOr([])
  {
    var i := match t
      case CreditCard => 0 case DebitCard => 1 case Cash => 2 case Pix => 3 case Boleto => 4
      case FoodVoucher => 5 case Transfer => 6 case Ewallet => 7 case BankAccount => 8;
    assert TypeAt(i) == t;
  }

  /** "Transferência" admits transfer and bank accounts, so a bank account is
      reachable from two payment methods. */
  lemma TransferMethods()
    ensures TypesFor(PaymentMethodOptions, "Transferência") == Some([Transfer, BankAccount])
    ensures TypesFor(PaymentMethodOptions, "Conta bancária") == Some([BankAccount])
  {
    ShippedOptionsDistinct();
    assert PaymentMethodOptions[6].value == "Transferência";
    assert PaymentMethodOptions[8].value == "Conta bancária";
  }

  /** A chip is highlighted when its value is the selected one. */
  predicate IsActive(option: PaymentMethodOption, selected: Option<string>)
  {
    selected == Some(option.value)
  }

  /** Among options with distinct values at most one chip is highlighted, and
      none when nothing is selected. */
  lemma AtMostOneActive(options: seq<PaymentMethodOption>, selected: Option<string>, i: int, j: int)
    requires DistinctValues(options) && 0 <= i < |options| && 0 <= j < |options|
    requires IsActive(options[i], selected) && IsActive(options[j], selected)
    ensures i == j && selected.Some?
  {
  }
}
