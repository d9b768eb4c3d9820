/** The summaries of `core/views.py`: the month window of `monthly_summary` and
    `cards_summary`, income and expense totals, the per-day split, the
    per-category totals, the budget snapshot and its clamped percentage. */
module Reports {
  import opened Text
  import opened Calendar
  import opened Ledger
  import opened Listing
  import opened Amounts

  // ---------- Month window ----------

  /** The half-open window `[start, nextStart)` of one calendar month. */
  datatype Window = Window(start: Date, nextStart: Date)

  /** `y, m = map(int, month_str.split('-'))`: exactly two pieces, each an `int()`. */
  function MonthFields(s: string): (r: Option<(int, int)>)
    ensures r.Some? <==> |Split(s, '-')| == 2 && ParseInt(Split(s, '-')[0]).Some? && ParseInt(Split(s, '-')[1]).Some?
  {
    var parts := Split(s, '-');
    if |parts| != 2 then None
    else match (ParseInt(parts[0]), ParseInt(parts[1]))
      case (Some(y), Some(m)) => Some((y, m))
      case _ => None
  }

  /** Whether `date(y, m, 1)` and `date(y + m // 12, m % 12 + 1, 1)` are both
      constructed without raising. */
  predicate HasWindow(y: int, m: int) {
    MIN_YEAR <= y <= MAX_YEAR && 1 <= m <= 12 && !(y == MAX_YEAR && m == 12)
  }

  /** The month window, or `None` where the source's `try` block gives up: no
      month given, not two integers, or a date the calendar refuses. */
  function MonthWindow(monthStr: string): (r: Option<Window>)
    ensures r.None? <==> monthStr == [] || MonthFields(monthStr).None?
                         || !HasWindow(MonthFields(monthStr).value.0, MonthFields(monthStr).value.1)
    ensures r.Some? ==>
      var (y, m) := MonthFields(monthStr).value;
      && r.value.start == Date(y, m, 1)
      && r.value.nextStart == (if m == 12 then Date(y + 1, 1, 1) else Date(y, m + 1, 1))
      && ValidDate(r.value.start) && ValidDate(r.value.nextStart)
      && Before(r.value.start, r.value.nextStart)
  {
    if monthStr == [] then None
    else match MonthFields(monthStr)
      case None => None
      case Some((y, m)) =>
        if !(MIN_YEAR <= y <= MAX_YEAR && 1 <= m <= 12) then None
        else
          var next := Date(y + m / 12, m % 12 + 1, 1);
          assert next == if m == 12 then Date(y + 1, 1, 1) else Date(y, m + 1, 1);
          if ValidDate(next) then Some(Window(Date(y, m, 1), next)) else None
  }

  /** `start <= d < next_start`. */
  predicate InWindow(d: Date, w: Window) {
    AtOrBefore(w.start, d) && Before(d, w.nextStart)
  }

  /** The half-open window holds exactly the dates of its calendar month. */
  lemma WindowIsCalendarMonth(monthStr: string, d: Date)
    requires MonthWindow(monthStr).Some? && ValidDate(d)
    ensures var w := MonthWindow(monthStr).value;
      InWindow(d, w) <==> d.year == w.start.year && d.month == w.start.month
  {
  }

  /** `"YYYY-MM"` names its month, December included; only 9999-12 has no window. */
  lemma MonthTextWindow(y: nat, m: nat)
    requires 1 <= y <= 9999 && 1 <= m <= 12
    ensures var s := PadDigits(y, 4) + "-" + PadDigits(m, 2);
      && MonthFields(s) == Some((y, m))
      && (HasWindow(y, m) ==> MonthWindow(s).Some? && MonthWindow(s).value.start == Date(y, m, 1))
      && (!HasWindow(y, m) ==> MonthWindow(s).None?)
  {
    assert Pow10(2) == 100 && Pow10(4) == 10000;
    var ys, ms := PadDigits(y, 4), PadDigits(m, 2);
    PadDigitsFits(y, 4);
    PadDigitsFits(m, 2);
    assert '-' !in ys by { assert forall i :: 0 <= i < |ys| ==> IsDigit(ys[i]); }
    assert '-' !in ms by { assert forall i :: 0 <= i < |ms| ==> IsDigit(ms[i]); }
    SplitTwo(ys, ms, '-');
    assert ys + "-" + ms == ys + ['-'] + ms;
    ParseIntDigits(ys);
    ParseIntDigits(ms);
  }

  /** A month outside 1..12, or a text that is not two integers, gives no window. */
  lemma MalformedMonthNoWindow(s: string)
    requires MonthFields(s).None? || !(1 <= MonthFields(s).value.1 <= 12)
    ensures MonthWindow(s).None?
  {
  }

  // ---------- Totals ----------

  /** The sum of `part` over the transactions (an SQL `Sum` over the rows). */
  function Total(txs: seq<Transaction>, part: Transaction -> int): int {
    if txs == [] then 0 else part(txs[0]) + Total(txs[1..], part)
  }

  function Amount(t: Transaction): int { t.amount }

  /** The income side of one transaction: its amount if positive, else 0. */
  function IncomePart(t: Transaction): int { if t.amount > 0 then t.amount else 0 }

  /** The expense side of one transaction: the magnitude of a negative amount, else 0. */
  function ExpensePart(t: Transaction): int { if t.amount < 0 then -t.amount else 0 }

  predicate IsIncome(t: Transaction) { t.amount > 0 }
  predicate IsExpense(t: Transaction) { t.amount < 0 }

  /** `qs.filter(amount__gt=0).aggregate(Sum('amount')) or 0`. */
  function Income(txs: seq<Transaction>): int {
    Total(Where(txs, IsIncome), Amount)
  }

  /** `-(qs.filter(amount__lt=0).aggregate(Sum('amount')) or 0)`. */
  function Expense(txs: seq<Transaction>): int {
    -Total(Where(txs, IsExpense), Amount)
  }

  lemma {:induction false} TotalAppend(a: seq<Transaction>, b: seq<Transaction>, part: Transaction -> int)
    ensures Total(a + b, part) == Total(a, part) + Total(b, part)
    decreases |a|
  {
    if a == [] {
      assert a + b == b;
    } else {
      assert (a + b)[0] == a[0] && (a + b)[1..] == a[1..] + b;
      TotalAppend(a[1..], b, part);
    }
  }

  /** Filtering to the positive amounts and summing them is summing the income sides. */
  lemma {:induction false} IncomeIsIncomeParts(txs: seq<Transaction>)
    ensures Income(txs) == Total(txs, IncomePart)
  {
    if txs != [] {
      var head := if IsIncome(txs[0]) then [txs[0]] else [];
      assert Where(txs, IsIncome) == head + Where(txs[1..], IsIncome);
      TotalAppend(head, Where(txs[1..], IsIncome), Amount);
      IncomeIsIncomeParts(txs[1..]);
    }
  }

  /** Filtering to the negative amounts and negating their sum is summing the expense sides. */
  lemma {:induction false} ExpenseIsExpenseParts(txs: seq<Transaction>)
    ensures Expense(txs) == Total(txs, ExpensePart)
  {
    if txs != [] {
      var head := if IsExpense(txs[0]) then [txs[0]] else [];
      assert Where(txs, IsExpense) == head + Where(txs[1..], IsExpense);
      TotalAppend(head, Where(txs[1..], IsExpense), Amount);
      ExpenseIsExpenseParts(txs[1..]);
    }
  }

  lemma {:induction false} PartsSplitAmounts(txs: seq<Transaction>)
    ensures Total(txs, IncomePart) - Total(txs, ExpensePart) == Total(txs, Amount)
    ensures Total(txs, IncomePart) >= 0 && Total(txs, ExpensePart) >= 0
  {
    if txs != [] {
      PartsSplitAmounts(txs[1..]);
    }
  }

  /** Income and expense are magnitudes, and income minus expense is the net of
      all amounts: nothing is counted twice or dropped. */
  lemma TotalsIdentity(txs: seq<Transaction>)
    ensures Income(txs) >= 0 && Expense(txs) >= 0
    ensures Income(txs) - Expense(txs) == Total(txs, Amount)
  {
    IncomeIsIncomeParts(txs);
    ExpenseIsExpenseParts(txs);
    PartsSplitAmounts(txs);
  }

  /** With no positive amount there is no income, and the expense is the whole outflow. */
  lemma {:induction false} OnlyExpenses(txs: seq<Transaction>)
    requires forall i :: 0 <= i < |txs| ==> txs[i].amount <= 0
    ensures Income(txs) == 0 && Expense(txs) == -Total(txs, Amount)
  {
    assert Total(txs, IncomePart) == 0 by {
      NoIncomeParts(txs);
    }
    TotalsIdentity(txs);
    IncomeIsIncomeParts(txs);
  }

  lemma {:induction false} NoIncomeParts(txs: seq<Transaction>)
    requires forall i :: 0 <= i < |txs| ==> txs[i].amount <= 0
    ensures Total(txs, IncomePart) == 0
  {
    if txs != [] {
      assert forall i :: 0 <= i < |txs[1..]| ==> txs[1..][i] == txs[i + 1];
      NoIncomeParts(txs[1..]);
    }
  }

  // ---------- Grouping (`values(...).annotate(Sum(...))`) ----------

  /** The rows whose grouping key is `k`. */
  function Group<K(==)>(txs: seq<Transaction>, key: Transaction -> K, k: K): (r: seq<Transaction>)
    ensures forall t :: t in r <==> t in txs && key(t) == k
  {
    Where(txs, t => key(t) == k)
  }

  /** The per-group sums of `part`, added up over the keys `ks`. */
  function SumGroups<K(==)>(ks: seq<K>, txs: seq<Transaction>, key: Transaction -> K, part: Transaction -> int): int {
    if ks == [] then 0 else Total(Group(txs, key, ks[0]), part) + SumGroups(ks[1..], txs, key, part)
  }

  predicate Distinct<K(==)>(ks: seq<K>) {
    forall i, j :: 0 <= i < j < |ks| ==> ks[i] != ks[j]
  }

  lemma TotalGroupStep<K>(txs: seq<Transaction>, key: Transaction -> K, k: K, part: Transaction -> int)
    requires txs != []
    ensures Total(Group(txs, key, k), part)
      == (if key(txs[0]) == k then part(txs[0]) else 0) + Total(Group(txs[1..], key, k), part)
  {
    var head := if key(txs[0]) == k then [txs[0]] else [];
    assert Group(txs, key, k) == head + Group(txs[1..], key, k);
    TotalAppend(head, Group(txs[1..], key, k), part);
  }

  lemma {:induction false} SumGroupsStep<K>(ks: seq<K>, txs: seq<Transaction>, key: Transaction -> K, part: Transaction -> int)
    requires txs != [] && Distinct(ks)
    ensures SumGroups(ks, txs, key, part)
      == (if key(txs[0]) in ks then part(txs[0]) else 0) + SumGroups(ks, txs[1..], key, part)
  {
    if ks != [] {
      TotalGroupStep(txs, key, ks[0], part);
      assert Distinct(ks[1..]) by {
        forall i, j | 0 <= i < j < |ks[1..]| ensures ks[1..][i] != ks[1..][j] {
          assert ks[1..][i] == ks[i + 1] && ks[1..][j] == ks[j + 1];
        }
      }
      SumGroupsStep(ks[1..], txs, key, part);
      if key(txs[0]) == ks[0] {
        assert key(txs[0]) !in ks[1..] by {
          forall j | 0 <= j < |ks[1..]| ensures ks[1..][j] != ks[0] {
            assert ks[1..][j] == ks[j + 1];
          }
        }
      }
      assert key(txs[0]) in ks <==> key(txs[0]) == ks[0] || key(txs[0]) in ks[1..];
    }
  }

  lemma {:induction false} SumGroupsEmpty<K>(ks: seq<K>, key: Transaction -> K, part: Transaction -> int)
    ensures SumGroups(ks, [], key, part) == 0
  {
    if ks != [] {
      SumGroupsEmpty(ks[1..], key, part);
    }
  }

  /** Grouping by distinct keys that cover every row loses and duplicates nothing:
      the group sums add up to the overall sum. */
  lemma {:induction false} GroupsCover<K>(ks: seq<K>, txs: seq<Transaction>, key: Transaction -> K, part: Transaction -> int)
    requires Distinct(ks)
    requires forall i :: 0 <= i < |txs| ==> key(txs[i]) in ks
    ensures SumGroups(ks, txs, key, part) == Total(txs, part)
    decreases |txs|
  {
    if txs == [] {
      SumGroupsEmpty(ks, key, part);
    } else {
      SumGroupsStep(ks, txs, key, part);
      var rest := txs[1..];
      forall i | 0 <= i < |rest| ensures key(rest[i]) in ks {
        assert rest[i] == txs[i + 1];
      }
      GroupsCover(ks, rest, key, part);
    }
  }

  // ---------- Daily series ----------

  predicate Ascending(ds: seq<Date>) {
    forall i, j :: 0 <= i < j < |ds| ==> Before(ds[i], ds[j])
  }

  function InsertDate(d: Date, ds: seq<Date>): (r: seq<Date>)
    requires Ascending(ds)
    ensures Ascending(r)
    ensures forall x :: x in r <==> x == d || x in ds
  {
    if ds == [] then [d]
    else if d == ds[0] then ds
    else if Before(d, ds[0]) then
      var r := [d] + ds;
      forall i, j | 0 <= i < j < |r| ensures Before(r[i], r[j]) {
        if i == 0 && j > 1 {
          BeforeStrictTotal(d, ds[0], ds[j - 1]);
        }
      }
      r
    else
      BeforeStrictTotal(d, ds[0], d);
      var rest := InsertDate(d, ds[1..]);
      assert forall x :: x in ds[1..] ==> Before(ds[0], x) by {
        forall x | x in ds[1..] ensures Before(ds[0], x) {
          var j :| 0 <= j < |ds[1..]| && ds[1..][j] == x;
          assert ds[j + 1] == x;
        }
      }
      var r := [ds[0]] + rest;
      forall i, j | 0 <= i < j < |r| ensures Before(r[i], r[j]) {
        if i == 0 {
          assert r[j] in rest;
        } else {
          assert r[i] == rest[i - 1] && r[j] == rest[j - 1];
        }
      }
      assert forall x :: x in ds <==> x == ds[0] || x in ds[1..] by {
        assert ds == [ds[0]] + ds[1..];
      }
      r
  }

  function DateOf(t: Transaction): Date { t.date }

  /** The distinct dates of the rows, earliest first: the groups of
      `values('date') ... order_by('date')`. */
  function DistinctDates(txs: seq<Transaction>): (ds: seq<Date>)
    ensures Ascending(ds)
    ensures forall x :: x in ds ==> exists i :: 0 <= i < |txs| && txs[i].date == x
    ensures forall i :: 0 <= i < |txs| ==> txs[i].date in ds
  {
    if txs == [] then []
    else
      var rest := DistinctDates(txs[1..]);
      var ds := InsertDate(txs[0].date, rest);
      forall x | x in ds ensures exists i :: 0 <= i < |txs| && txs[i].date == x {
        if x != txs[0].date {
          var i :| 0 <= i < |txs[1..]| && txs[1..][i].date == x;
          assert txs[i + 1].date == x;
        }
      }
      forall i | 0 <= i < |txs| ensures txs[i].date in ds {
        if i > 0 {
          assert txs[1..][i - 1] == txs[i];
        }
      }
      ds
  }

  lemma AscendingDistinct(ds: seq<Date>)
    requires Ascending(ds)
    ensures Distinct(ds)
  {
    forall i, j | 0 <= i < j < |ds| ensures ds[i] != ds[j] {
      BeforeStrictTotal(ds[i], ds[j], ds[j]);
    }
  }

  /** One entry of the daily series: the day of month and that day's income and
      expense, both as non-negative magnitudes. */
  datatype DailyPoint = DailyPoint(day: string, income: int, expense: int)

  /** The rows dated `d`. */
  function OnDay(txs: seq<Transaction>, d: Date): seq<Transaction> {
    Group(txs, DateOf, d)
  }

  function Points(ds: seq<Date>, txs: seq<Transaction>): (r: seq<DailyPoint>)
    requires forall i :: 0 <= i < |ds| ==> ValidDate(ds[i])
    ensures |r| == |ds|
  {
    if ds == [] then []
    else [DailyPoint(DayLabel(ds[0]), Income(OnDay(txs, ds[0])), Expense(OnDay(txs, ds[0])))] + Points(ds[1..], txs)
  }

  lemma DatesValid(txs: seq<Transaction>)
    requires ValidDates(txs)
    ensures forall i :: 0 <= i < |DistinctDates(txs)| ==> ValidDate(DistinctDates(txs)[i])
  {
    var ds := DistinctDates(txs);
    forall i | 0 <= i < |ds| ensures ValidDate(ds[i]) {
      assert ds[i] in ds;
    }
  }

  /** The daily series: one entry per distinct date, in date order. */
  function Daily(txs: seq<Transaction>): (r: seq<DailyPoint>)
    requires ValidDates(txs)
    ensures |r| == |DistinctDates(txs)|
  {
    DatesValid(txs);
    Points(DistinctDates(txs), txs)
  }

  lemma {:induction false} PointsAt(ds: seq<Date>, txs: seq<Transaction>, i: nat)
    requires forall j :: 0 <= j < |ds| ==> ValidDate(ds[j])
    requires i < |ds|
    ensures Points(ds, txs)[i] == DailyPoint(DayLabel(ds[i]), Income(OnDay(txs, ds[i])), Expense(OnDay(txs, ds[i])))
  {
    if i > 0 {
      PointsAt(ds[1..], txs, i - 1);
    }
  }

  /** Entry `i` of the daily series belongs to the `i`-th distinct date: its label
      is that date's two-digit day, and its income and expense are that day's
      positive sum and the magnitude of its negative sum, kept apart. */
  lemma DailyEntry(txs: seq<Transaction>, i: nat)
    requires ValidDates(txs) && i < |Daily(txs)|
    ensures var d := DistinctDates(txs)[i];
      && ValidDate(d)
      && Daily(txs)[i] == DailyPoint(DayLabel(d), Income(OnDay(txs, d)), Expense(OnDay(txs, d)))
      && Daily(txs)[i].income >= 0 && Daily(txs)[i].expense >= 0
  {
    DatesValid(txs);
    var d := DistinctDates(txs)[i];
    PointsAt(DistinctDates(txs), txs, i);
    TotalsIdentity(OnDay(txs, d));
  }

  /** Within the daily series, an entry's date is later than every earlier entry's. */
  lemma DailyInDateOrder(txs: seq<Transaction>, i: nat, j: nat)
    requires i < j < |DistinctDates(txs)|
    ensures Before(DistinctDates(txs)[i], DistinctDates(txs)[j])
  {
  }

  function IncomeSum(ps: seq<DailyPoint>): int {
    if ps == [] then 0 else ps[0].income + IncomeSum(ps[1..])
  }

  function ExpenseSum(ps: seq<DailyPoint>): int {
    if ps == [] then 0 else ps[0].expense + ExpenseSum(ps[1..])
  }

  lemma {:induction false} PointsIncomeSum(ds: seq<Date>, txs: seq<Transaction>)
    requires forall j :: 0 <= j < |ds| ==> ValidDate(ds[j])
    ensures IncomeSum(Points(ds, txs)) == SumGroups(ds, txs, DateOf, IncomePart)
  {
    if ds != [] {
      assert Points(ds, txs)[1..] == Points(ds[1..], txs);
      PointsIncomeSum(ds[1..], txs);
      IncomeIsIncomeParts(OnDay(txs, ds[0]));
    }
  }

  lemma {:induction false} PointsExpenseSum(ds: seq<Date>, txs: seq<Transaction>)
    requires forall j :: 0 <= j < |ds| ==> ValidDate(ds[j])
    ensures ExpenseSum(Points(ds, txs)) == SumGroups(ds, txs, DateOf, ExpensePart)
  {
    if ds != [] {
      assert Points(ds, txs)[1..] == Points(ds[1..], txs);
      PointsExpenseSum(ds[1..], txs);
      ExpenseIsExpenseParts(OnDay(txs, ds[0]));
    }
  }

  /** The daily incomes add up to the month's income and the daily expenses to its
      expense. */
  lemma DailySumsToTotals(txs: seq<Transaction>)
    requires ValidDates(txs)
    ensures IncomeSum(Daily(txs)) == Income(txs)
    ensures ExpenseSum(Daily(txs)) == Expense(txs)
  {
    var ds := DistinctDates(txs);
    DatesValid(txs);
    AscendingDistinct(ds);
    PointsIncomeSum(ds, txs);
    PointsExpenseSum(ds, txs);
    GroupsCover(ds, txs, DateOf, IncomePart);
    GroupsCover(ds, txs, DateOf, ExpensePart);
    IncomeIsIncomeParts(txs);
    ExpenseIsExpenseParts(txs);
  }

  // ---------- By category ----------

  /** `values('category__name', 'category__color')`: rows group by the category's
      name and colour (both `None` without a category), not by its id. */
  datatype GroupKey = GroupKey(name: Option<string>, color: Option<string>)

  function CategoryKey(t: Transaction): GroupKey {
    if t.category.Some? then GroupKey(Some(t.category.value.name), Some(t.category.value.color))
    else GroupKey(None, None)
  }

  /** The distinct keys of the rows, each once, in the order of each key's last
      appearance (`DistinctKeysAppendRow`). */
  function DistinctKeys<K(==)>(txs: seq<Transaction>, key: Transaction -> K): seq<K> {
    if txs == [] then []
    else
      var rest, k := DistinctKeys(txs[1..], key), key(txs[0]);
      if k in rest then rest else [k] + rest
  }

  /** `s` with every occurrence of `k` taken out, the rest in order. */
  function DropKey<K(==,!new)>(s: seq<K>, k: K): (r: seq<K>)
    ensures forall x :: x in r <==> x in s && x != k
  {
    if s == [] then []
    else
      assert forall x :: x in s <==> x == s[0] || x in s[1..];
      (if s[0] == k then [] else [s[0]]) + DropKey(s[1..], k)
  }

  /** Last-appearance order: a row appended at the end moves its key behind every
      other key, and the other keys keep their order. */
  lemma {:induction false} DistinctKeysAppendRow<K(!new)>(txs: seq<Transaction>, t: Transaction, key: Transaction -> K)
    ensures DistinctKeys(txs + [t], key) == DropKey(DistinctKeys(txs, key), key(t)) + [key(t)]
  {
    var kt := key(t);
    if txs == [] {
      assert txs + [t] == [t];
    } else {
      var r, k := DistinctKeys(txs[1..], key), key(txs[0]);
      assert (txs + [t])[0] == txs[0] && (txs + [t])[1..] == txs[1..] + [t];
      DistinctKeysAppendRow(txs[1..], t, key);
      if k != kt && k !in r {
        assert ([k] + r)[0] == k && ([k] + r)[1..] == r;
        assert DropKey([k] + r, kt) == [k] + DropKey(r, kt);
      } else if k == kt && k !in r {
        assert ([k] + r)[0] == k && ([k] + r)[1..] == r;
        assert DropKey([k] + r, kt) == DropKey(r, kt);
      }
    }
  }

  /** Every row's key is listed exactly once, and only the rows' keys are. */
  lemma DistinctKeysFacts<K>(txs: seq<Transaction>, key: Transaction -> K)
    ensures var r := DistinctKeys(txs, key);
      && Distinct(r)
      && (forall i :: 0 <= i < |txs| ==> key(txs[i]) in r)
      && (forall x :: x in r ==> exists i :: 0 <= i < |txs| && key(txs[i]) == x)
  {
    DistinctKeysDistinct(txs, key);
    DistinctKeysCover(txs, key);
    DistinctKeysFrom(txs, key);
  }

  lemma {:induction false} DistinctKeysDistinct<K>(txs: seq<Transaction>, key: Transaction -> K)
    ensures Distinct(DistinctKeys(txs, key))
  {
    if txs != [] {
      var rest, k := DistinctKeys(txs[1..], key), key(txs[0]);
      DistinctKeysDistinct(txs[1..], key);
      if k !in rest {
        var r := [k] + rest;
        forall i, j | 0 <= i < j < |r| ensures r[i] != r[j] {
          if i > 0 {
            assert r[i] == rest[i - 1] && r[j] == rest[j - 1];
          } else {
            assert r[j] in rest;
          }
        }
      }
    }
  }

  lemma {:induction false} DistinctKeysCover<K>(txs: seq<Transaction>, key: Transaction -> K)
    ensures forall i :: 0 <= i < |txs| ==> key(txs[i]) in DistinctKeys(txs, key)
  {
    if txs != [] {
      DistinctKeysCover(txs[1..], key);
      forall i | 0 < i < |txs| ensures key(txs[i]) in DistinctKeys(txs[1..], key) {
        assert txs[1..][i - 1] == txs[i];
      }
    }
  }

  lemma {:induction false} DistinctKeysFrom<K>(txs: seq<Transaction>, key: Transaction -> K)
    ensures forall x :: x in DistinctKeys(txs, key) ==> exists i :: 0 <= i < |txs| && key(txs[i]) == x
  {
    if txs != [] {
      var rest := DistinctKeys(txs[1..], key);
      DistinctKeysFrom(txs[1..], key);
      forall x | x in DistinctKeys(txs, key) ensures exists i :: 0 <= i < |txs| && key(txs[i]) == x {
        if x == key(txs[0]) {
          assert key(txs[0]) == x;
        } else {
          assert x in rest;
          var i :| 0 <= i < |txs[1..]| && key(txs[1..][i]) == x;
          assert txs[i + 1] == txs[1..][i];
        }
      }
    }
  }

  /** One entry of `by_category`: the group's key and the net sum of its amounts. */
  datatype CategoryTotal = CategoryTotal(key: GroupKey, total: int)

  function GroupTotals(ks: seq<GroupKey>, txs: seq<Transaction>): (r: seq<CategoryTotal>)
    ensures |r| == |ks|
  {
    if ks == [] then []
    else [CategoryTotal(ks[0], Total(Group(txs, CategoryKey, ks[0]), Amount))] + GroupTotals(ks[1..], txs)
  }

  /** `by_category`: one entry per (name, colour) present in the rows. The database
      returns the groups in no specified order; this model lists them by each
      key's last appearance. */
  function ByCategory(txs: seq<Transaction>): (r: seq<CategoryTotal>)
    ensures |r| == |DistinctKeys(txs, CategoryKey)|
  {
    GroupTotals(DistinctKeys(txs, CategoryKey), txs)
  }

  function CategorySum(cs: seq<CategoryTotal>): int {
    if cs == [] then 0 else cs[0].total + CategorySum(cs[1..])
  }

  lemma {:induction false} GroupTotalsAt(ks: seq<GroupKey>, txs: seq<Transaction>, i: nat)
    requires i < |ks|
    ensures GroupTotals(ks, txs)[i] == CategoryTotal(ks[i], Total(Group(txs, CategoryKey, ks[i]), Amount))
  {
    if i > 0 {
      GroupTotalsAt(ks[1..], txs, i - 1);
    }
  }

  lemma {:induction false} GroupTotalsSum(ks: seq<GroupKey>, txs: seq<Transaction>)
    ensures CategorySum(GroupTotals(ks, txs)) == SumGroups(ks, txs, CategoryKey, Amount)
  {
    if ks != [] {
      assert GroupTotals(ks, txs)[1..] == GroupTotals(ks[1..], txs);
      GroupTotalsSum(ks[1..], txs);
    }
  }

  /** Every category group present in the rows appears exactly once, each entry is
      the net sum of its group's rows, and the entries add up to income minus
      expense. */
  lemma ByCategoryFacts(txs: seq<Transaction>, i: nat)
    requires i < |ByCategory(txs)|
    ensures var k := ByCategory(txs)[i].key;
      && ByCategory(txs)[i].total == Total(Group(txs, CategoryKey, k), Amount)
      && (exists j :: 0 <= j < |txs| && CategoryKey(txs[j]) == k)
      && forall i' :: 0 <= i' < |ByCategory(txs)| && i' != i ==> ByCategory(txs)[i'].key != k
    ensures CategorySum(ByCategory(txs)) == Income(txs) - Expense(txs)
  {
    ByCategoryEntry(txs, i);
    ByCategorySum(txs);
  }

  lemma ByCategoryEntry(txs: seq<Transaction>, i: nat)
    requires i < |ByCategory(txs)|
    ensures var k := ByCategory(txs)[i].key;
      && ByCategory(txs)[i].total == Total(Group(txs, CategoryKey, k), Amount)
      && (exists j :: 0 <= j < |txs| && CategoryKey(txs[j]) == k)
      && forall i' :: 0 <= i' < |ByCategory(txs)| && i' != i ==> ByCategory(txs)[i'].key != k
  {
    var ks := DistinctKeys(txs, CategoryKey);
    DistinctKeysFacts(txs, CategoryKey);
    GroupTotalsAt(ks, txs, i);
    assert ks[i] in ks;
    forall i' | 0 <= i' < |ks| && i' != i ensures ByCategory(txs)[i'].key != ks[i] {
      GroupTotalsAt(ks, txs, i');
    }
  }

  lemma ByCategorySum(txs: seq<Transaction>)
    ensures CategorySum(ByCategory(txs)) == Income(txs) - Expense(txs)
  {
    var ks := DistinctKeys(txs, CategoryKey);
    DistinctKeysFacts(txs, CategoryKey);
    GroupTotalsSum(ks, txs);
    GroupsCover(ks, txs, CategoryKey, Amount);
    TotalsIdentity(txs);
  }

  // ---------- Budget ----------

  function MinById(bs: seq<Ledger.Budget>): (r: Ledger.Budget)
    requires bs != []
    ensures r in bs && forall b :: b in bs ==> r.id <= b.id
  {
    if |bs| == 1 then bs[0]
    else
      var m := MinById(bs[1..]);
      assert forall b :: b in bs ==> b == bs[0] || b in bs[1..];
      if bs[0].id <= m.id then bs[0] else m
  }

  /** `Budget.objects.filter(owner=user, month__gte=start, month__lt=next_start).first()`:
      the model has no `ordering`, so `first()` takes the smallest id. */
  function FirstBudget(budgets: seq<Ledger.Budget>, user: UserId, w: Window): (r: Option<Ledger.Budget>)
    ensures r.Some? ==> r.value in budgets && r.value.owner == user && InWindow(r.value.month, w)
    ensures r.Some? ==> forall b :: b in budgets && b.owner == user && InWindow(b.month, w) ==> r.value.id <= b.id
    ensures r.None? <==> forall b :: b in budgets ==> !(b.owner == user && InWindow(b.month, w))
  {
    var matching := Where(budgets, (b: Ledger.Budget) => b.owner == user && InWindow(b.month, w));
    if matching == [] then None else Some(MinById(matching))
  }

  /** Python's `round` of the exact ratio `n / d`: the nearest integer, ties to the
      even one. */
  function RoundHalfEven(n: int, d: int): (r: int)
    requires d > 0
    ensures 2 * Abs(n - r * d) <= d
    ensures 2 * Abs(n - r * d) == d ==> r % 2 == 0
  {
    var q, rem := n / d, n % d;
    assert n - q * d == rem && n - (q + 1) * d == rem - d;
    if 2 * rem < d then q
    else if 2 * rem > d then q + 1
    else if q % 2 == 0 then q
    else q + 1
  }

  /** `int(min(100, round(used / limit * 100))) if limit > 0 else 0`, on the exact ratio. */
  function BudgetPct(used: int, limit: int): (pct: int)
    ensures limit <= 0 ==> pct == 0
    ensures used >= 0 ==> 0 <= pct <= 100
    ensures limit > 0 && used >= limit ==> pct == 100
    ensures limit > 0 && 0 <= used < limit ==> 2 * Abs(100 * used - pct * limit) <= limit
  {
    if limit > 0 then
      var r := RoundHalfEven(100 * used, limit);
      RoundedPctBounds(used, limit, r);
      if r < 100 then r else 100
    else 0
  }

  lemma RoundedPctBounds(used: int, limit: int, r: int)
    requires limit > 0 && 2 * Abs(100 * used - r * limit) <= limit
    ensures used >= 0 ==> r >= 0
    ensures used >= limit ==> r >= 100
    ensures used < limit ==> r <= 100
  {
    if used >= 0 && r < 0 {
      MulMono(r, -1, limit);
      MulMono(0, used, 100);
    }
    if used >= limit && r < 100 {
      MulMono(r, 99, limit);
      MulMono(limit, used, 100);
    }
    if used < limit && r > 100 {
      MulMono(101, r, limit);
      MulMono(used, limit - 1, 100);
    }
  }

  lemma MulMono(a: int, b: int, c: int)
    requires a <= b && c >= 0
    ensures a * c <= b * c
  {
  }

  /** Over budget clamps to 100, and a half-way ratio rounds to even. */
  lemma PctExamples()
    ensures BudgetPct(15000, 10000) == 100
    ensures BudgetPct(5000, 20000) == 25
    ensures BudgetPct(1, 8) == 12
    ensures BudgetPct(3, 8) == 38
    ensures BudgetPct(500, 0) == 0
  {
    assert RoundHalfEven(500000, 20000) == 25;
    assert RoundHalfEven(100, 8) == 12;
    assert RoundHalfEven(300, 8) == 38;
  }

  // ---------- The two summaries ----------

  /** The month filter: the rows in the window, or all rows without one. */
  function InMonth(txs: seq<Transaction>, w: Option<Window>): (r: seq<Transaction>)
    ensures forall t :: t in r <==> t in txs && (w.Some? ==> InWindow(t.date, w.value))
    ensures ValidDates(txs) ==> ValidDates(r)
  {
    if w.None? then txs
    else
      var r := Where(txs, (t: Transaction) => InWindow(t.date, w.value));
      assert ValidDates(txs) ==> ValidDates(r) by {
        if ValidDates(txs) {
          forall i | 0 <= i < |r| ensures ValidDate(r[i].date) {
            assert r[i] in txs;
          }
        }
      }
      r
  }

  datatype Snapshot = Snapshot(limit: int, used: int)

  datatype MonthlySummary = MonthlySummary(
    income: int,
    expense: int,
    byCategory: seq<CategoryTotal>,
    daily: seq<DailyPoint>,
    budget: Option<Snapshot>)

  /** `monthly_summary`: the listed rows (owner scope and list filters), narrowed to
      the month's window when the month parses; the budget snapshot only with a
      window and a budget in it. */
  function MonthlySummaryOf(table: seq<Transaction>, budgets: seq<Ledger.Budget>, user: UserId,
                            params: ListParams, monthStr: string): (r: Result<MonthlySummary, QueryError>)
    requires ValidDates(table)
    ensures r.Err? <==> ListTransactions(table, user, params).Err?
    ensures r.Ok? ==> r.value.income >= 0 && r.value.expense >= 0
    ensures r.Ok? && r.value.budget.Some? ==>
      && MonthWindow(monthStr).Some?
      && FirstBudget(budgets, user, MonthWindow(monthStr).value).Some?
      && r.value.budget.value.used == r.value.expense
    ensures r.Ok? && MonthWindow(monthStr).None? ==>
      r.value.budget.None? && r.value.income == Income(ListTransactions(table, user, params).value)
  {
    match ListTransactions(table, user, params)
    case Err(e) => Err(e)
    case Ok(listed) =>
      ListedValidDates(table, user, params);
      var w := MonthWindow(monthStr);
      var txs := InMonth(listed, w);
      TotalsIdentity(txs);
      var b := if w.Some? then FirstBudget(budgets, user, w.value) else None;
      var expense := Expense(txs);
      Ok(MonthlySummary(Income(txs), expense, ByCategory(txs), Daily(txs),
                        if b.Some? then Some(Snapshot(b.value.totalLimit, expense)) else None))
  }

  /** The parts of the monthly summary agree: the daily series and the category
      totals are built from the same month's rows as the totals and add up to them. */
  lemma MonthlySummaryConsistent(table: seq<Transaction>, budgets: seq<Ledger.Budget>, user: UserId,
                                 params: ListParams, monthStr: string)
    requires ValidDates(table)
    requires MonthlySummaryOf(table, budgets, user, params, monthStr).Ok?
    ensures var s := MonthlySummaryOf(table, budgets, user, params, monthStr).value;
      && IncomeSum(s.daily) == s.income
      && ExpenseSum(s.daily) == s.expense
      && CategorySum(s.byCategory) == s.income - s.expense
  {
    var listed := ListTransactions(table, user, params).value;
    ListedValidDates(table, user, params);
    var txs := InMonth(listed, MonthWindow(monthStr));
    DailySumsToTotals(txs);
    ByCategorySum(txs);
  }

  /** What the monthly summary holds: the listed rows, cut to the requested month
      when it parses, give its income, expense, category breakdown and daily series,
      and the budget snapshot is present exactly when the month parses and the user
      has a budget dated in it, carrying that budget's limit and the month's expense. */
  lemma MonthlySummaryContents(table: seq<Transaction>, budgets: seq<Ledger.Budget>, user: UserId,
                               params: ListParams, monthStr: string)
    requires ValidDates(table)
    requires ListTransactions(table, user, params).Ok?
    ensures ValidDates(InMonth(ListTransactions(table, user, params).value, MonthWindow(monthStr)))
    ensures
      var txs := InMonth(ListTransactions(table, user, params).value, MonthWindow(monthStr));
      var r := MonthlySummaryOf(table, budgets, user, params, monthStr);
      && r.Ok?
      && r.value.income == Income(txs) && r.value.expense == Expense(txs)
      && r.value.byCategory == ByCategory(txs) && r.value.daily == Daily(txs)
      && (r.value.budget.Some? <==>
            MonthWindow(monthStr).Some? && FirstBudget(budgets, user, MonthWindow(monthStr).value).Some?)
      && (r.value.budget.Some? ==>
            r.value.budget.value == Snapshot(FirstBudget(budgets, user, MonthWindow(monthStr).value).value.totalLimit, Expense(txs)))
  {
    ListedValidDates(table, user, params);
  }

  datatype CardBudget = CardBudget(limit: int, used: int, pct: int)

  datatype CardsSummary = CardsSummary(balance: int, income: int, expense: int, budget: Option<CardBudget>)

  function TxOwner(t: Transaction): UserId { t.owner }
  function AccountOwner(a: Account): UserId { a.owner }

  function BalanceTotal(accounts: seq<Account>): int {
    if accounts == [] then 0 else accounts[0].balance + BalanceTotal(accounts[1..])
  }

  /** `cards_summary`: the user's balances, the month's totals over all the user's
      transactions (no list filters), and the budget with its percentage. */
  function CardsSummaryOf(accounts: seq<Account>, table: seq<Transaction>, budgets: seq<Ledger.Budget>,
                          user: UserId, monthStr: string): (r: CardsSummary)
    ensures r.income >= 0 && r.expense >= 0
    ensures r.budget.Some? ==>
      && MonthWindow(monthStr).Some?
      && FirstBudget(budgets, user, MonthWindow(monthStr).value).Some?
      && r.budget.value.used == r.expense
      && 0 <= r.budget.value.pct <= 100
      && (r.budget.value.limit > 0 && r.expense >= r.budget.value.limit ==> r.budget.value.pct == 100)
      && (r.budget.value.limit <= 0 ==> r.budget.value.pct == 0)
    ensures MonthWindow(monthStr).None? ==>
      r.budget.None? && r.income == Income(OwnedBy(table, TxOwner, user))
  {
    var w := MonthWindow(monthStr);
    var txs := InMonth(OwnedBy(table, TxOwner, user), w);
    TotalsIdentity(txs);
    var expense := Expense(txs);
    var b := if w.Some? then FirstBudget(budgets, user, w.value) else None;
    var budget := if b.Some? then Some(CardBudget(b.value.totalLimit, expense, BudgetPct(expense, b.value.totalLimit))) else None;
    CardsSummary(BalanceTotal(OwnedBy(accounts, AccountOwner, user)), Income(txs), expense, budget)
  }

  /** What the cards summary holds: the balance of the user's accounts, and the
      income and expense of the user's rows cut to the requested month when it
      parses; the budget card is present exactly when the month parses and the
      user has a budget dated in it, and carries that budget's limit, the month's
      expense and the percentage of one in the other. */
  lemma CardsSummaryContents(accounts: seq<Account>, table: seq<Transaction>, budgets: seq<Ledger.Budget>,
                             user: UserId, monthStr: string)
    ensures
      var txs := InMonth(OwnedBy(table, TxOwner, user), MonthWindow(monthStr));
      var r := CardsSummaryOf(accounts, table, budgets, user, monthStr);
      && r.balance == BalanceTotal(OwnedBy(accounts, AccountOwner, user))
      && r.income == Income(txs) && r.expense == Expense(txs)
      && (r.budget.Some? <==>
            MonthWindow(monthStr).Some? && FirstBudget(budgets, user, MonthWindow(monthStr).value).Some?)
      && (r.budget.Some? ==>
            var limit := FirstBudget(budgets, user, MonthWindow(monthStr).value).value.totalLimit;
            r.budget.value == CardBudget(limit, Expense(txs), BudgetPct(Expense(txs), limit)))
  {
  }
}
