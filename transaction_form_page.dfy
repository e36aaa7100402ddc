/** `src/pages/TransactionForm.tsx`: the form that creates a transaction or
    edits the one named in the route. The form state is the
    `TransactionForm` class; what it submits is computed by `Submit`.
    `parseBRLToCents` is the parameter `parse`. */
module TransactionFormPage {
  import opened Wrappers
  import opened Text
  import opened Calendar
  import opened Records
  import AccountsPage

  /** A category of the user: its id and the kind of transaction it files. */
  datatype Category = Category(id: string, kind: TransactionKind)

  /** `TransactionFormData`, as the form holds it once the schema has applied
      its defaults. */
  datatype FormData = FormData(
    kind: TransactionKind,
    amount: string,
    date: Date,
    description: string,
    categoryId: string,
    paymentMethod: Option<string>,
    notes: Option<string>,
    isPaid: bool)

  /** The category value that stands for "no category". */
  const NoCategory: string := "none"

  /** The form's `defaultValues`; `today` is `new Date()`. */
  function DefaultForm(today: Date): (r: FormData)
    ensures r.kind == Expense && r.amount == "" && r.date == today && r.categoryId == NoCategory
    ensures !r.isPaid && r.paymentMethod == Some("") && r.notes == Some("")
  {
    FormData(Expense, "", today, "", NoCategory, Some(""), Some(""), false)
  }

  // ---------------------------------------------------------------------------
  // Loading the transaction being edited
  // ---------------------------------------------------------------------------

  /** `transactions.find((t) => t.id === id)`: the first row with the id. */
  function FindById(transactions: seq<Transaction>, id: string): (r: Option<Transaction>)
    ensures r.None? <==> forall t :: t in transactions ==> t.id != id
    ensures r.Some? ==> r.value in transactions && r.value.id == id
    ensures r.Some? ==> exists i :: 0 <= i < |transactions| && transactions[i] == r.value
                                    && forall j :: 0 <= j < i ==> transactions[j].id != id
  {
    if transactions == [] then None
    else if transactions[0].id == id then
      assert transactions[0] == transactions[0];
      Some(transactions[0])
    else
      var r := FindById(transactions[1..], id);
      assert forall t :: t in transactions ==> t == transactions[0] || t in transactions[1..];
      if r.Some? then
        var i :| 0 <= i < |transactions[1..]| && transactions[1..][i] == r.value
                 && forall j :: 0 <= j < i ==> transactions[1..][j].id != id;
        assert transactions[i + 1] == r.value;
        assert forall j :: 0 <= j < i + 1 ==> transactions[j].id != id by {
          forall j | 0 <= j < i + 1 ensures transactions[j].id != id {
            if j > 0 { assert transactions[j] == transactions[1..][j - 1]; }
          }
        }
        r
      else r
  }

  /** `x || fallback` for an optional text: the fallback replaces a missing or
      empty text. */
  function OrElse(s: Option<string>, fallback: string): (r: string)
    ensures r == fallback <==> s.None? || s.value == "" || s.value == fallback
    ensures r != fallback ==> s == Some(r)
  {
    if s.Some? && s.value != "" then s.value else fallback
  }

  /** The form values `form.reset` loads for `t`, given the day the date
      picker shows. */
  function PrefillWithDay(t: Transaction, day: Date): FormData
  {
    FormData(
      t.kind,
      CentsText(t.amountCents),
      day,
      t.description,
      OrElse(t.categoryId, NoCategory),
      Some(OrElse(t.paymentMethod, "")),
      Some(OrElse(t.notes, "")),
      t.isPaid)
  }

  /** Rows read from the database carry a `yyyy-MM-dd` date. */
  predicate StoredDate(t: Transaction)
  {
    ParseDay(t.date).Some?
  }

  /** The prefill as written: `new Date(transaction.date)` reads the text as
      midnight UTC, and the date picker and `format` work on the local day,
      which west of Greenwich is the day before. */
  function PrefillAsWritten(t: Transaction, offsetMinutes: int): (r: FormData)
    requires StoredDate(t) && -1440 < offsetMinutes < 1440
    ensures r.date == LocalDayOfUtcMidnight(ParseDay(t.date).value, offsetMinutes)
    ensures r == PrefillWithDay(t, r.date)
  {
    PrefillWithDay(t, LocalDayOfUtcMidnight(ParseDay(t.date).value, offsetMinutes))
  }

  /** The prefill with the stored day read as a local calendar day. */
  function Prefill(t: Transaction): (r: FormData)
    requires StoredDate(t)
    ensures r.date == ParseDay(t.date).value && FormatDay(r.date) == t.date
    ensures r.amount == CentsText(t.amountCents)
    ensures r.categoryId == NoCategory <==> t.categoryId.None? || t.categoryId.value in {"", NoCategory}
    ensures r.categoryId != NoCategory ==> t.categoryId == Some(r.categoryId)
    ensures r.kind == t.kind && r.description == t.description && r.isPaid == t.isPaid
  {
    ParseDayRoundTrip(t.date);
    PrefillWithDay(t, ParseDay(t.date).value)
  }

  // ---------------------------------------------------------------------------
  // Categories
  // ---------------------------------------------------------------------------

  /** `filteredCategories`: the categories of the selected kind, in order;
      nothing before the categories load. */
  function FilteredCategories(categories: Option<seq<Category>>, kind: TransactionKind): (r: Option<seq<Category>>)
    ensures r.None? <==> categories.None?
    ensures r.Some? ==> forall c :: c in r.value <==> c in categories.value && c.kind == kind
  {
    match categories
    case None => None
    case Some(list) => KindFilterMembers(list, kind); Some(KindFilter(list, kind))
  }

  function KindFilter(list: seq<Category>, kind: TransactionKind): (r: seq<Category>)
    ensures |r| <= |list|
  {
    if list == [] then []
    else (if list[0].kind == kind then [list[0]] else []) + KindFilter(list[1..], kind)
  }

  /** Exactly the categories of the kind are kept. */
  lemma {:induction false} KindFilterMembers(list: seq<Category>, kind: TransactionKind)
    ensures forall c :: c in KindFilter(list, kind) <==> c in list && c.kind == kind
  {
    if list != [] {
      KindFilterMembers(list[1..], kind);
      assert forall c :: c in list <==> c == list[0] || c in list[1..];
    }
  }

  /** `filter` keeps the order and every category of the kind: two lists
      filtered together are filtered in turn, and one category is kept exactly
      when it has the kind. */
  lemma {:induction false} KindFilterAppend(a: seq<Category>, b: seq<Category>, kind: TransactionKind)
    ensures KindFilter(a + b, kind) == KindFilter(a, kind) + KindFilter(b, kind)
  {
    if a == [] {
      assert a + b == b;
    } else {
      var tail := a[1..];
      var kept := if a[0].kind == kind then [a[0]] else [];
      KindFilterAppend(tail, b, kind);
      assert (a + b)[1..] == tail + b && (a + b)[0] == a[0];
      calc {
        KindFilter(a + b, kind);
        kept + KindFilter(tail + b, kind);
        kept + (KindFilter(tail, kind) + KindFilter(b, kind));
        (kept + KindFilter(tail, kind)) + KindFilter(b, kind);
        KindFilter(a, kind) + KindFilter(b, kind);
      }
    }
  }

  lemma KindFilterOne(c: Category, kind: TransactionKind)
    ensures KindFilter([c], kind) == if c.kind == kind then [c] else []
  {
    assert [c][1..] == [];
  }

  /** The category-consistency effect: once the categories load, a chosen
      category that is not one of the selected kind is reset to "none". */
  function ConsistentCategory(categories: Option<seq<Category>>, kind: TransactionKind, current: string): (r: string)
    ensures r == current || r == NoCategory
    ensures r != current <==>
              && categories.Some? && current != "" && current != NoCategory
              && forall c :: c in categories.value ==> !(c.id == current && c.kind == kind)
  {
    if categories.None? then current
    else if current == "" || current == NoCategory then current
    else if exists c :: c in categories.value && c.id == current && c.kind == kind then current
    else NoCategory
  }

  /** After the effect, a chosen category is one the category select offers. */
  lemma ChosenCategoryIsOffered(categories: seq<Category>, kind: TransactionKind, current: string)
    requires current != ""
    ensures var r := ConsistentCategory(Some(categories), kind, current);
            r == NoCategory || exists c :: c in FilteredCategories(Some(categories), kind).value && c.id == r
  {
  }

  // ---------------------------------------------------------------------------
  // Submitting
  // ---------------------------------------------------------------------------

  /** The `transactionData` sent to the database. */
  datatype TransactionPayload = TransactionPayload(
    kind: TransactionKind,
    amountCents: int,
    date: string,
    description: string,
    categoryId: Option<string>,
    paymentMethod: Option<string>,
    notes: Option<string>,
    isPaid: bool)

  /** `x || null` for an optional text. */
  function OrNull(s: Option<string>): (r: Option<string>)
    ensures r.None? <==> s.None? || s.value == ""
    ensures r.Some? ==> r == s
  {
    if s.Some? && s.value != "" then s else None
  }

  /** The payload built from the form: the amount parsed, the day formatted,
      "none" for no category, and empty optional texts as `null`. */
  function BuildPayload(data: FormData, parse: string -> int): (r: TransactionPayload)
    requires ValidDate(data.date) && FourDigitYear(data.date)
    ensures ParseDay(r.date) == Some(data.date)
    ensures r.amountCents == parse(data.amount)
    ensures r.categoryId.None? <==> data.categoryId == NoCategory
    ensures r.categoryId.Some? ==> r.categoryId.value == data.categoryId
    ensures r.paymentMethod == OrNull(data.paymentMethod) && r.notes == OrNull(data.notes)
    ensures r.kind == data.kind && r.description == data.description && r.isPaid == data.isPaid
  {
    FormatDayRoundTrip(data.date);
    TransactionPayload(
      data.kind,
      parse(data.amount),
      FormatDay(data.date),
      data.description,
      if data.categoryId == NoCategory then None else Some(data.categoryId),
      OrNull(data.paymentMethod),
      OrNull(data.notes),
      data.isPaid)
  }

  /** What the submit does. */
  datatype Submission =
    | CreateTransaction(payload: TransactionPayload)
    | UpdateTransaction(id: string, payload: TransactionPayload)

  /** `onSubmit`: with an id in the route (`isEditing = !!id`) the row is
      updated, otherwise a new one is created. */
  function Submit(routeId: Option<string>, data: FormData, parse: string -> int): (r: Submission)
    requires ValidDate(data.date) && FourDigitYear(data.date)
    ensures r.UpdateTransaction? <==> routeId.Some? && routeId.value != ""
    ensures r.UpdateTransaction? ==> r.id == routeId.value
    ensures r.payload == BuildPayload(data, parse)
  {
    var payload := BuildPayload(data, parse);
    if routeId.Some? && routeId.value != "" then UpdateTransaction(routeId.value, payload)
    else CreateTransaction(payload)
  }

  /** The payload that stores `t` again unchanged. */
  function PayloadOf(t: Transaction): TransactionPayload
  {
    TransactionPayload(t.kind, t.amountCents, t.date, t.description, t.categoryId, t.paymentMethod, t.notes, t.isPaid)
  }

  /** A row whose optional texts are missing or meaningful (never empty, and
      no category literally named "none"). */
  predicate NoEmptyTexts(t: Transaction)
  {
    && t.categoryId != Some("") && t.categoryId != Some(NoCategory)
    && t.paymentMethod != Some("") && t.notes != Some("")
  }

  /** Opening a transaction for editing and saving it untouched writes the
      same row back, when the amount's text parses back to its cents. */
  lemma UnchangedEditKeepsRow(t: Transaction, parse: string -> int)
    requires StoredDate(t) && NoEmptyTexts(t)
    requires parse(CentsText(t.amountCents)) == t.amountCents
    requires t.id != ""
    ensures Submit(Some(t.id), Prefill(t), parse) == UpdateTransaction(t.id, PayloadOf(t))
  {
    var data := Prefill(t);
    var p := BuildPayload(data, parse);
    ParseDayRoundTrip(t.date);
    FormatDayRoundTrip(data.date);
    assert p.date == t.date;
  }

  /** As written, west of Greenwich an untouched edit moves the transaction
      to the day before. */
  lemma UnchangedEditAsWrittenMovesDate(t: Transaction, parse: string -> int, offsetMinutes: int)
    requires StoredDate(t) && -1440 < offsetMinutes < 0
    requires ParseDay(t.date).value.year >= 1
    ensures var data := PrefillAsWritten(t, offsetMinutes);
            FourDigitYear(data.date) && ParseDay(BuildPayload(data, parse).date) == Some(PreviousDay(ParseDay(t.date).value))
            && BuildPayload(data, parse).date != t.date
  {
    var d := ParseDay(t.date).value;
    var data := PrefillAsWritten(t, offsetMinutes);
    assert data.date == PreviousDay(d);
    ParseDayRoundTrip(t.date);
    FormatDayInjective(data.date, d);
  }

  /** The day 2024-03-15, opened for editing in Brasília (UTC-3) and saved
      untouched, is stored as 2024-03-14. */
  lemma BrasiliaEditExample(t: Transaction, parse: string -> int)
    requires t.date == "2024-03-15"
    ensures StoredDate(t)
    ensures BuildPayload(PrefillAsWritten(t, -180), parse).date == "2024-03-14"
    ensures BuildPayload(Prefill(t), parse).date == "2024-03-15"
  {
    assert t.date[0..2] == "20" && t.date[2..4] == "24" && t.date[5..7] == "03" && t.date[8..10] == "15";
    assert ParseDay(t.date) == Some(Date(2024, 3, 15));
    assert PrefillAsWritten(t, -180).date == Date(2024, 3, 14);
    assert FormatDay(Date(2024, 3, 14)) == "2024-03-14";
  }

  // ---------------------------------------------------------------------------
  // The form state
  // ---------------------------------------------------------------------------

  /** The react-hook-form state of the page. */
  class TransactionForm {
    var values: FormData

    /** `useForm` with the default values. */
    constructor (today: Date)
      ensures values == DefaultForm(today)
    {
      values := DefaultForm(today);
    }

    /** The prefill effect, as written: when editing and the transactions have
        loaded, the row with the route's id, if any, replaces the form values,
        its date read as midnight UTC and shown in the local time zone
        `offsetMinutes` ahead of UTC. East of Greenwich, and at UTC itself,
        this is the corrected prefill. */
    method PrefillEffect(routeId: Option<string>, transactions: Option<seq<Transaction>>, offsetMinutes: int)
      requires transactions.Some? ==> forall t :: t in transactions.value ==> StoredDate(t)
      requires -1440 < offsetMinutes < 1440
      modifies this
      ensures routeId.Some? && routeId.value != "" && transactions.Some?
              && FindById(transactions.value, routeId.value).Some?
              ==> && values == PrefillAsWritten(FindById(transactions.value, routeId.value).value, offsetMinutes)
                  && (offsetMinutes >= 0 ==> values == Prefill(FindById(transactions.value, routeId.value).value))
      ensures routeId.None? || routeId.value == "" || transactions.None?
              || FindById(transactions.value, routeId.value).None?
              ==> values == old(values)
    {
      if routeId.Some? && routeId.value != "" && transactions.Some? {
        var found := FindById(transactions.value, routeId.value);
        if found.Some? {
          values := PrefillAsWritten(found.value, offsetMinutes);
        }
      }
    }

    /** The amount input's `onChange`: the typed text is stored sanitised. */
    method AmountChange(typed: string)
      modifies this
      ensures values == old(values).(amount := AccountsPage.SanitizeCurrencyInput(typed))
      ensures forall i :: 0 <= i < |values.amount| ==> IsDigitOrComma(values.amount[i])
    {
      AccountsPage.SanitizeKeepsDigitsAndCommas(typed);
      values := values.(amount := AccountsPage.SanitizeCurrencyInput(typed));
    }

    /** The category-consistency effect. */
    method CategoryEffect(categories: Option<seq<Category>>)
      modifies this
      ensures values == old(values).(categoryId := ConsistentCategory(categories, old(values).kind, old(values).categoryId))
    {
      var current := values.categoryId;
      if categories.None? || current == "" || current == NoCategory {
        return;
      }
      var matches := exists c :: c in categories.value && c.id == current && c.kind == values.kind;
      if !matches {
        values := values.(categoryId := NoCategory);
      }
    }
  }
}
