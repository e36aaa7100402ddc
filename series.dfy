/** The series helpers of `src/lib/transactions.ts`: splitting a total into
    installments, laying out monthly occurrence dates, and classifying and
    labelling a series. */
module Series {
  import opened Wrappers
  import opened Text
  import opened Calendar

  /** `RecurrenceType`: how a transaction repeats. */
  datatype RecurrenceType = Single | Installment | Monthly

  /** `MONTHLY_OCCURRENCES`: a monthly series covers twelve months. */
  const MonthlyOccurrences: nat := 12

  /** The message thrown for fewer than two installments. */
  const QuantityError: string := "Quantidade de parcelas deve ser maior ou igual a 2."

  // ---------------------------------------------------------------------------
  // calculateInstallments
  // ---------------------------------------------------------------------------

  function Sum(s: seq<int>): int
  {
    if s == [] then 0 else Sum(s[..|s| - 1]) + s[|s| - 1]
  }

  /** JavaScript's `%`: truncating, so the remainder has the sign of the dividend. */
  function JsRemainder(a: int, b: int): (r: int)
    requires b > 0
    ensures a >= 0 ==> r == a % b
    ensures a < 0 ==> r == (if a % b == 0 then 0 else a % b - b)
  {
    if a >= 0 then a % b
    else
      var m := (-a) % b;
      assert -a == b * ((-a) / b) + m;
      if m == 0 then
        ModOfMultiple(a, b, -((-a) / b));
        0
      else
        ModUnique(a, b, -((-a) / b) - 1, b - m);
        -m
  }

  /** `a % b` is the remainder of any Euclidean decomposition of `a`. */
  lemma ModUnique(a: int, b: int, q: int, m: int)
    requires b > 0 && 0 <= m < b && a == b * q + m
    ensures a % b == m
  {
    var d := q - a / b;
    assert b * d == a % b - m;
    MultipleBound(b, d);
  }

  /** A non-zero multiple of `b` is at least `b` away from zero. */
  lemma MultipleBound(b: int, d: int)
    requires b > 0
    ensures d >= 1 ==> b * d >= b
    ensures d <= -1 ==> b * d <= -b
  {
    if d >= 1 {
      assert b * d == b * (d - 1) + b;
    } else if d <= -1 {
      assert b * d == b * (d + 1) - b;
    }
  }

  lemma ModOfMultiple(a: int, b: int, q: int)
    requires b > 0 && a == b * q
    ensures a % b == 0
  {
    ModUnique(a, b, q, 0);
  }

  /** `Array.from({ length: n }, (_, index) => base + (index < remainder ? 1 : 0))`. */
  function Parts(base: int, remainder: int, n: nat): (parts: seq<int>)
    ensures |parts| == n
  {
    seq(n, index => base + (if index < remainder then 1 else 0))
  }

  /** `calculateInstallments(totalCents, quantity)`: throws below two parts,
      otherwise `quantity` parts of `Math.floor(totalCents / quantity)` cents,
      the first `totalCents % quantity` of them one cent larger. */
  function CalculateInstallments(totalCents: int, quantity: int): (r: Result<seq<int>, string>)
    ensures r.Failure? <==> quantity < 2
    ensures r.Failure? ==> r.error == QuantityError
    ensures r.Success? ==> |r.value| == quantity
    ensures r.Success? && totalCents >= 0 ==> Sum(r.value) == totalCents
    ensures r.Success? ==> forall i, j :: 0 <= i < j < |r.value| ==> r.value[j] <= r.value[i] <= r.value[j] + 1
  {
    if quantity < 2 then Failure(QuantityError)
    else
      // Math.floor: Dafny's division rounds down when the divisor is positive.
      var base := totalCents / quantity;
      var remainder := JsRemainder(totalCents, quantity);
      var parts := Parts(base, remainder, quantity);
      SumOfParts(base, remainder, quantity);
      assert totalCents >= 0 ==> totalCents == quantity * base + remainder;
      Success(parts)
  }

  /** The parts add up to `n * base` plus one cent for each index below the
      remainder. */
  lemma {:induction false} SumOfParts(base: int, remainder: int, n: nat)
    ensures Sum(Parts(base, remainder, n)) == n * base + Min(Max(remainder, 0), n)
  {
    if n > 0 {
      var s := Parts(base, remainder, n);
      assert s[..n - 1] == Parts(base, remainder, n - 1);
      SumOfParts(base, remainder, n - 1);
      assert n * base == (n - 1) * base + base;
    }
  }

  /** For a non-negative total, part `i` is the quotient, plus one cent exactly
      for the first `totalCents % quantity` parts; so exactly that many parts
      carry the extra cent. */
  lemma InstallmentShape(totalCents: int, quantity: int, i: int)
    requires totalCents >= 0 && quantity >= 2 && 0 <= i < quantity
    ensures CalculateInstallments(totalCents, quantity).Success?
    ensures CalculateInstallments(totalCents, quantity).value[i]
         == totalCents / quantity + (if i < totalCents % quantity then 1 else 0)
  {
  }

  /** A negative total is not split exactly: JavaScript's `%` yields a
      non-positive remainder, so no part gets an extra cent and the parts add up
      to `quantity * Math.floor(totalCents / quantity)`, which falls short of
      the total unless `quantity` divides it. */
  lemma {:induction false} NegativeTotalSum(totalCents: int, quantity: int)
    requires totalCents < 0 && quantity >= 2
    ensures CalculateInstallments(totalCents, quantity).Success?
    ensures Sum(CalculateInstallments(totalCents, quantity).value) == quantity * (totalCents / quantity)
    ensures totalCents % quantity != 0 ==> Sum(CalculateInstallments(totalCents, quantity).value) < totalCents
  {
    var base := totalCents / quantity;
    SumOfParts(base, JsRemainder(totalCents, quantity), quantity);
    assert totalCents == quantity * base + totalCents % quantity;
  }

  /** The worked example: 100.00 in three installments. */
  lemma ThreeInstallmentsOfTenThousand()
    ensures CalculateInstallments(10000, 3) == Success([3334, 3333, 3333])
  {
    assert Parts(3333, 1, 3) == [3334, 3333, 3333];
  }

  // ---------------------------------------------------------------------------
  // generateMonthlyDates
  // ---------------------------------------------------------------------------

  /** `generateMonthlyDates(start, occurrences)`: occurrence `index` is
      `addMonths(start, index)` with its day set to the smaller of the start's
      day and the last day of that month, and its time set to the start's time.
      A negative length yields no dates, as `Array.from` does. */
  function GenerateMonthlyDates(start: DateTime, occurrences: int): (r: seq<DateTime>)
    requires ValidDate(start.date)
    ensures |r| == Max(occurrences, 0)
    ensures forall k :: 0 <= k < |r| ==>
              && ValidDate(r[k].date)
              && MonthIndex(r[k].date) == MonthIndex(start.date) + k
              && r[k].date.day == Min(start.date.day, DaysInMonth(r[k].date.year, r[k].date.month))
    ensures forall k :: 0 <= k < |r| ==> r[k].time == start.time
  {
    var day := start.date.day;
    seq(Max(occurrences, 0), index requires 0 <= index =>
      var candidate := AddMonths(start.date, index);
      // lastDayOfMonth(candidate).getDate()
      var normalizedLastDay := DaysInMonth(candidate.year, candidate.month);
      var target := Min(day, normalizedLastDay);
      DateTime(candidate.(day := target), start.time))
  }

  /** The first occurrence is the start itself. */
  lemma FirstOccurrenceIsStart(start: DateTime, occurrences: int)
    requires ValidDate(start.date) && occurrences > 0
    ensures GenerateMonthlyDates(start, occurrences)[0] == start
  {
    var first := GenerateMonthlyDates(start, occurrences)[0];
    MonthIndexInjective(first.date, start.date);
  }

  /** Consecutive occurrences fall in consecutive calendar months. */
  lemma ConsecutiveMonths(start: DateTime, occurrences: int, k: nat)
    requires ValidDate(start.date) && k + 1 < occurrences
    ensures var r := GenerateMonthlyDates(start, occurrences);
            MonthIndex(r[k + 1].date) == MonthIndex(r[k].date) + 1
  {
  }

  /** Each day is measured from the start, not from the previous occurrence:
      whenever a month is long enough, the start's own day comes back, however
      short the months in between were. */
  lemma DayRecoversAfterShortMonth(start: DateTime, occurrences: int, k: nat)
    requires ValidDate(start.date) && k < occurrences
    requires start.date.day <= DaysInMonth(GenerateMonthlyDates(start, occurrences)[k].date.year,
                                           GenerateMonthlyDates(start, occurrences)[k].date.month)
    ensures GenerateMonthlyDates(start, occurrences)[k].date.day == start.date.day
  {
  }

  /** The worked example: from 31 January 2024 (a leap year), three monthly
      dates are 31 January, 29 February and 31 March, at the start's time;
      stepping one month at a time from the previous date would have given
      29 March instead. */
  lemma ThirtyFirstOfJanuary2024(time: TimeOfDay)
    ensures GenerateMonthlyDates(DateTime(Date(2024, 1, 31), time), 3)
         == [DateTime(Date(2024, 1, 31), time), DateTime(Date(2024, 2, 29), time), DateTime(Date(2024, 3, 31), time)]
    ensures AddMonths(AddMonths(Date(2024, 1, 31), 1), 1) == Date(2024, 3, 29)
  {
  }

  // ---------------------------------------------------------------------------
  // isSeriesType and formatSeriesLabel
  // ---------------------------------------------------------------------------

  /** `isSeriesType`: every recurrence but a single transaction forms a series. */
  function IsSeriesType(seriesType: RecurrenceType): (r: bool)
    ensures r <==> seriesType == Installment || seriesType == Monthly
  {
    seriesType != Single
  }

  /** `formatSeriesLabel`: "Parcelada s/t" (defaults 1 and 0), "Mensal s/t"
      (defaults 1 and `MONTHLY_OCCURRENCES`) or "Única". */
  function FormatSeriesLabel(seriesType: RecurrenceType, sequence: Option<int>, total: Option<int>): string
  {
    match seriesType
    case Installment => "Parcelada " + IntToString(sequence.GetOr(1)) + "/" + IntToString(total.GetOr(0))
    case Monthly => "Mensal " + IntToString(sequence.GetOr(1)) + "/" + IntToString(total.GetOr(MonthlyOccurrences))
    case Single => "Única"
  }

  /** What a series label says. */
  datatype LabelParts = SingleLabel | SeriesLabel(kind: RecurrenceType, sequence: int, total: int)

  /** Reads "s/t" as two integers. */
  function ParseFraction(s: string): Option<(int, int)>
  {
    var num := BeforeFirst(s, '/');
    if |num| == |s| then None
    else match (ParseInt(num), ParseInt(s[|num| + 1..]))
      case (Some(a), Some(b)) => Some((a, b))
      case _ => None
  }

  /** Reads a series label back into the kind, sequence and total it shows. */
  function ParseSeriesLabel(shown: string): Option<LabelParts>
  {
    if shown == "Única" then Some(SingleLabel)
    else if |shown| >= 10 && shown[..10] == "Parcelada " then
      match ParseFraction(shown[10..])
      case Some((a, b)) => Some(SeriesLabel(Installment, a, b))
      case None => None
    else if |shown| >= 7 && shown[..7] == "Mensal " then
      match ParseFraction(shown[7..])
      case Some((a, b)) => Some(SeriesLabel(Monthly, a, b))
      case None => None
    else None
  }

  lemma FractionRoundTrip(a: int, b: int)
    ensures ParseFraction(IntToString(a) + "/" + IntToString(b)) == Some((a, b))
  {
    var x, y := IntToString(a), IntToString(b);
    var s := x + "/" + y;
    BeforeFirstOfJoin(x, y, '/');
    assert s[|x| + 1..] == y;
    IntToStringRoundTrip(a);
    IntToStringRoundTrip(b);
  }

  /** A prefix followed by a fraction reads back as that fraction. */
  lemma PrefixedFraction(prefix: string, a: int, b: int)
    ensures var shown := prefix + IntToString(a) + "/" + IntToString(b);
            shown[..|prefix|] == prefix && ParseFraction(shown[|prefix|..]) == Some((a, b))
  {
    var rest := IntToString(a) + "/" + IntToString(b);
    assert prefix + IntToString(a) + "/" + IntToString(b) == prefix + rest;
    FractionRoundTrip(a, b);
  }

  /** "Parcelada " followed by a fraction reads as an installment label. */
  lemma ParseInstallmentLabel(shown: string, a: int, b: int)
    requires |shown| >= 10 && shown[..10] == "Parcelada " && ParseFraction(shown[10..]) == Some((a, b))
    ensures ParseSeriesLabel(shown) == Some(SeriesLabel(Installment, a, b))
  {
    assert shown != "Única" by { assert shown[0] == 'P'; }
  }

  /** "Mensal " followed by a fraction reads as a monthly label. */
  lemma ParseMonthlyLabel(shown: string, a: int, b: int)
    requires |shown| >= 7 && shown[..7] == "Mensal " && ParseFraction(shown[7..]) == Some((a, b))
    ensures ParseSeriesLabel(shown) == Some(SeriesLabel(Monthly, a, b))
  {
    assert shown != "Única" by { assert shown[0] == 'M'; }
    assert |shown| < 10 || shown[..10] != "Parcelada " by { assert shown[0] == 'M'; }
  }

  /** A label determines the kind of series and the sequence and total it
      displays, the defaults filled in; a single transaction reads "Única". */
  lemma SeriesLabelRoundTrip(seriesType: RecurrenceType, sequence: Option<int>, total: Option<int>)
    ensures ParseSeriesLabel(FormatSeriesLabel(seriesType, sequence, total))
         == match seriesType
            case Single => Some(SingleLabel)
            case Installment => Some(SeriesLabel(Installment, sequence.GetOr(1), total.GetOr(0)))
            case Monthly => Some(SeriesLabel(Monthly, sequence.GetOr(1), total.GetOr(MonthlyOccurrences)))
  {
    match seriesType
    case Single =>
    case Installment =>
      var a, b := sequence.GetOr(1), total.GetOr(0);
      PrefixedFraction("Parcelada ", a, b);
      ParseInstallmentLabel("Parcelada " + IntToString(a) + "/" + IntToString(b), a, b);
    case Monthly =>
      var a, b := sequence.GetOr(1), total.GetOr(MonthlyOccurrences);
      PrefixedFraction("Mensal ", a, b);
      ParseMonthlyLabel("Mensal " + IntToString(a) + "/" + IntToString(b), a, b);
  }

  /** "Única" is shown exactly for transactions that are not part of a series. */
  lemma SingleLabelExactlyForNonSeries(seriesType: RecurrenceType, sequence: Option<int>, total: Option<int>)
    ensures FormatSeriesLabel(seriesType, sequence, total) == "Única" <==> !IsSeriesType(seriesType)
  {
    SeriesLabelRoundTrip(seriesType, sequence, total);
  }
}
