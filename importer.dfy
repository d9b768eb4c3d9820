/** The `import_csv` management command (`core/management/commands/import_csv.py`):
    each CSV record is normalised, parsed and defaulted into a plan, the plan's
    account and category are fetched or created, and a transaction is inserted
    unless the run is a dry run. The tables are maps keyed the way the command
    looks records up: accounts by (owner, name), categories by (owner, name, type). */
module Importer {
  import opened Text
  import opened Calendar
  import opened DateParsing
  import opened Amounts
  import opened Ledger

  // ---------- Tables ----------

  datatype CategoryType = Income | Expense

  datatype AccountKey = AccountKey(owner: UserId, name: string)
  datatype CategoryKey = CategoryKey(owner: UserId, name: string, kind: CategoryType)

  /** An account as `get_or_create` makes it: the given currency, an empty
      institution and a zero balance (in cents). */
  datatype AccountRecord = AccountRecord(currency: string, institution: string, balance: int)

  datatype CategoryRecord = CategoryRecord(icon: string, color: string)

  const DEFAULT_COLOR: string := "#4f46e5"

  datatype TransactionRecord = TransactionRecord(
    owner: UserId,
    account: AccountKey,
    category: CategoryKey,
    date: Date,
    amount: Decimal,
    description: string)

  datatype Tables = Tables(
    accounts: map<AccountKey, AccountRecord>,
    categories: map<CategoryKey, CategoryRecord>,
    transactions: seq<TransactionRecord>)

  /** `Account.objects.get_or_create(owner, name, defaults={"currency": currency})`:
      an existing account is returned untouched; otherwise one is created with
      the default currency. */
  function AccountGetOrCreate(accounts: map<AccountKey, AccountRecord>, key: AccountKey, currency: string)
    : (r: map<AccountKey, AccountRecord>)
    ensures key in r
    ensures r.Keys == accounts.Keys + {key}
    ensures forall k :: k in accounts ==> r[k] == accounts[k]
    ensures key !in accounts ==> r[key].currency == currency && r[key].balance == 0
  {
    if key in accounts then accounts else accounts[key := AccountRecord(currency, "", 0)]
  }

  /** `Category.objects.get_or_create(owner, name, type)`: a new category gets an
      empty icon and the default colour. */
  function CategoryGetOrCreate(categories: map<CategoryKey, CategoryRecord>, key: CategoryKey)
    : (r: map<CategoryKey, CategoryRecord>)
    ensures key in r
    ensures r.Keys == categories.Keys + {key}
    ensures forall k :: k in categories ==> r[k] == categories[k]
    ensures key !in categories ==> r[key] == CategoryRecord("", DEFAULT_COLOR)
  {
    if key in categories then categories else categories[key := CategoryRecord("", DEFAULT_COLOR)]
  }

  /** Get-or-create is idempotent: a second call with the same key (whatever the
      currency default) changes nothing, and the table never grows by more than one. */
  lemma GetOrCreateIdempotent(accounts: map<AccountKey, AccountRecord>, categories: map<CategoryKey, CategoryRecord>,
                              ak: AccountKey, ck: CategoryKey, currency: string, otherCurrency: string)
    ensures var once := AccountGetOrCreate(accounts, ak, currency);
      AccountGetOrCreate(once, ak, otherCurrency) == once && once[ak].currency == (if ak in accounts then accounts[ak].currency else currency)
    ensures var once := CategoryGetOrCreate(categories, ck);
      CategoryGetOrCreate(once, ck) == once
    ensures |AccountGetOrCreate(accounts, ak, currency).Keys| <= |accounts.Keys| + 1
    ensures ak in accounts ==> |AccountGetOrCreate(accounts, ak, currency).Keys| == |accounts.Keys|
  {
    var once := AccountGetOrCreate(accounts, ak, currency);
    if ak in accounts {
      assert accounts.Keys + {ak} == accounts.Keys;
    }
  }

  // ---------- One record ----------

  /** The lookup key of a column name: `strip()` then `lower()`. */
  function NormalizeKey(h: string): string {
    Lower(Strip(h))
  }

  /** `DictReader` fills a short record's missing cells with `None`, which `(v or "")` turns into `""`. */
  function CellAt(cells: seq<string>, j: nat): string {
    if j < |cells| then cells[j] else ""
  }

  /** The last position holding the column name `fieldnames[j]`: `dict(zip(...))`
      keeps the last value of a repeated name. */
  function LastIndexOf(fieldnames: seq<string>, j: nat): (r: nat)
    requires j < |fieldnames|
    ensures j <= r < |fieldnames| && fieldnames[r] == fieldnames[j]
    ensures forall k :: r < k < |fieldnames| ==> fieldnames[k] != fieldnames[j]
    decreases |fieldnames| - j
  {
    if exists k :: j < k < |fieldnames| && fieldnames[k] == fieldnames[j] then
      var k :| j < k < |fieldnames| && fieldnames[k] == fieldnames[j];
      var r := LastIndexOf(fieldnames, k);
      r
    else j
  }

  /** The normalised record over the first `n` column names: a repeated name is
      entered once, at its first position, with its last value; two names that
      normalise to the same key leave the later one's value. */
  function RowFrom(fieldnames: seq<string>, cells: seq<string>, n: nat): map<string, string>
    requires n <= |fieldnames|
  {
    if n == 0 then map[]
    else
      var m := RowFrom(fieldnames, cells, n - 1);
      var j := n - 1;
      if fieldnames[j] in fieldnames[..j] then m
      else m[NormalizeKey(fieldnames[j]) := Strip(CellAt(cells, LastIndexOf(fieldnames, j)))]
  }

  lemma {:induction false} RowFromKeys(fieldnames: seq<string>, cells: seq<string>, n: nat)
    requires n <= |fieldnames|
    ensures RowFrom(fieldnames, cells, n).Keys == set j | 0 <= j < n :: NormalizeKey(fieldnames[j])
  {
    if n > 0 {
      RowFromKeys(fieldnames, cells, n - 1);
      var j := n - 1;
      if fieldnames[j] in fieldnames[..j] {
        var i :| 0 <= i < j && fieldnames[..j][i] == fieldnames[j];
        assert NormalizeKey(fieldnames[j]) == NormalizeKey(fieldnames[i]);
      }
    }
  }

  /** `{(k or "").strip().lower(): (v or "").strip() for k, v in row.items()}`. */
  function NormalizedRow(fieldnames: seq<string>, cells: seq<string>): map<string, string> {
    RowFrom(fieldnames, cells, |fieldnames|)
  }

  /** The record's keys are exactly the normalised column names, so every column
      the header check saw can be looked up. */
  lemma NormalizedRowKeys(fieldnames: seq<string>, cells: seq<string>)
    ensures NormalizedRow(fieldnames, cells).Keys == HeaderSet(fieldnames)
  {
    RowFromKeys(fieldnames, cells, |fieldnames|);
  }

  /** No column but `j` normalises to column `j`'s key. */
  predicate UniqueKeyAt(fieldnames: seq<string>, j: nat)
    requires j < |fieldnames|
  {
    forall i :: 0 <= i < |fieldnames| && i != j ==> NormalizeKey(fieldnames[i]) != NormalizeKey(fieldnames[j])
  }

  lemma UniqueKeyOther(fieldnames: seq<string>, j: nat, i: nat)
    requires j < |fieldnames| && UniqueKeyAt(fieldnames, j) && i < |fieldnames| && i != j
    ensures NormalizeKey(fieldnames[i]) != NormalizeKey(fieldnames[j])
  {
  }

  /** Where no other column normalises to the same key as column `j`, the record
      holds column `j`'s cell, stripped, under that key ("" for a missing cell). */
  lemma RowValue(fieldnames: seq<string>, cells: seq<string>, j: nat)
    requires j < |fieldnames|
    requires UniqueKeyAt(fieldnames, j)
    ensures NormalizeKey(fieldnames[j]) in NormalizedRow(fieldnames, cells)
    ensures NormalizedRow(fieldnames, cells)[NormalizeKey(fieldnames[j])] == Strip(CellAt(cells, j))
  {
    FirstOfItsName(fieldnames, j);
    LastOfItsName(fieldnames, j);
    RowFromNew(fieldnames, cells, j);
    UniqueKeyAfter(fieldnames, j, |fieldnames|);
    RowFromValue(fieldnames, cells, j, |fieldnames|);
  }

  /** No column from `j + 1` up to `n` shares column `j`'s key. */
  predicate KeyFreeAfter(fieldnames: seq<string>, j: nat, n: nat)
    requires j < n <= |fieldnames|
    decreases n
  {
    n == j + 1 || (NormalizeKey(fieldnames[n - 1]) != NormalizeKey(fieldnames[j]) && KeyFreeAfter(fieldnames, j, n - 1))
  }

  lemma {:induction false} UniqueKeyAfter(fieldnames: seq<string>, j: nat, n: nat)
    requires j < n <= |fieldnames| && UniqueKeyAt(fieldnames, j)
    ensures KeyFreeAfter(fieldnames, j, n)
    decreases n
  {
    if n > j + 1 {
      UniqueKeyOther(fieldnames, j, n - 1);
      UniqueKeyAfter(fieldnames, j, n - 1);
    }
  }

  /** Once column `j` has entered its key, later columns with other keys leave it. */
  lemma {:induction false} RowFromValue(fieldnames: seq<string>, cells: seq<string>, j: nat, n: nat)
    requires j < n <= |fieldnames|
    requires NormalizeKey(fieldnames[j]) in RowFrom(fieldnames, cells, j + 1)
    requires RowFrom(fieldnames, cells, j + 1)[NormalizeKey(fieldnames[j])] == Strip(CellAt(cells, j))
    requires KeyFreeAfter(fieldnames, j, n)
    ensures NormalizeKey(fieldnames[j]) in RowFrom(fieldnames, cells, n)
    ensures RowFrom(fieldnames, cells, n)[NormalizeKey(fieldnames[j])] == Strip(CellAt(cells, j))
    decreases n
  {
    if n > j + 1 {
      RowFromValue(fieldnames, cells, j, n - 1);
      RowFromOther(fieldnames, cells, n, NormalizeKey(fieldnames[j]));
    }
  }

  lemma FirstOfItsName(fieldnames: seq<string>, j: nat)
    requires j < |fieldnames|
    requires UniqueKeyAt(fieldnames, j)
    ensures fieldnames[j] !in fieldnames[..j]
  {
    forall i | 0 <= i < j ensures fieldnames[..j][i] != fieldnames[j] {
      UniqueKeyOther(fieldnames, j, i);
    }
  }

  lemma LastOfItsName(fieldnames: seq<string>, j: nat)
    requires j < |fieldnames|
    requires UniqueKeyAt(fieldnames, j)
    ensures LastIndexOf(fieldnames, j) == j
  {
    var last := LastIndexOf(fieldnames, j);
    if last != j {
      UniqueKeyOther(fieldnames, j, last);
    }
  }

  /** Column `j`'s first appearance enters its key with the value of its last appearance. */
  lemma RowFromNew(fieldnames: seq<string>, cells: seq<string>, j: nat)
    requires j < |fieldnames| && fieldnames[j] !in fieldnames[..j]
    ensures RowFrom(fieldnames, cells, j + 1)
      == RowFrom(fieldnames, cells, j)[NormalizeKey(fieldnames[j]) := Strip(CellAt(cells, LastIndexOf(fieldnames, j)))]
  {
  }

  /** A column whose key differs from `key` leaves the value under `key` alone. */
  lemma RowFromOther(fieldnames: seq<string>, cells: seq<string>, n: nat, key: string)
    requires 0 < n <= |fieldnames| && NormalizeKey(fieldnames[n - 1]) != key
    requires key in RowFrom(fieldnames, cells, n - 1)
    ensures key in RowFrom(fieldnames, cells, n)
    ensures RowFrom(fieldnames, cells, n)[key] == RowFrom(fieldnames, cells, n - 1)[key]
  {
  }

  /** `row.get(key)` with an absent key or an empty value both read as `""`. */
  function Get(row: map<string, string>, key: string): string {
    if key in row then row[key] else ""
  }

  /** Why a record was skipped. `ExtraCells`: the record has more cells than
      there are columns, so `DictReader` files the surplus as a list under the key
      `None`, and `.strip()` on that list raises. */
  datatype RowError = ExtraCells | BadDate(date: string) | BadAmount(amount: string)

  /** What one record asks for once parsed and defaulted. */
  datatype RowPlan = RowPlan(
    date: Date,
    amount: Decimal,
    description: string,
    category: string,
    kind: CategoryType,
    account: string,
    currency: string)

  /** `type_col in ("INCOME", "EXPENSE")` wins; otherwise the sign of the amount. */
  function KindOf(typeCol: string, amount: Decimal): (k: CategoryType)
    ensures Upper(typeCol) == "INCOME" ==> k == Income
    ensures Upper(typeCol) == "EXPENSE" ==> k == Expense
    ensures Upper(typeCol) != "INCOME" && Upper(typeCol) != "EXPENSE" ==> (k == Income <==> IsPositive(amount))
  {
    var t := Upper(typeCol);
    if t == "INCOME" then Income
    else if t == "EXPENSE" then Expense
    else if IsPositive(amount) then Income else Expense
  }

  /** An empty value falls back to the default. */
  function OrDefault(value: string, default: string): (r: string)
    ensures value != [] ==> r == value
    ensures value == [] ==> r == default
  {
    if value != [] then value else default
  }

  /** The body of the `try` block up to the lookups: normalise, parse the date
      and the amount (in that order), apply the defaults, decide the category type. */
  function PlanRow(fieldnames: seq<string>, cells: seq<string>): Result<RowPlan, RowError>
  {
    if |cells| > |fieldnames| then Err(ExtraCells)
    else
      var row := NormalizedRow(fieldnames, cells);
      match ParseDate(Get(row, "date"))
      case None => Err(BadDate(Get(row, "date")))
      case Some(d) =>
        match ParseAmount(Get(row, "amount"))
        case None => Err(BadAmount(Get(row, "amount")))
        case Some(amt) =>
          Ok(RowPlan(
            d, amt, Get(row, "description"),
            OrDefault(Get(row, "category"), if IsPositive(amt) then "Income" else "Uncategorized"),
            KindOf(Get(row, "type"), amt),
            OrDefault(Get(row, "account"), "Wallet"),
            OrDefault(Get(row, "currency"), "USD")))
  }

  /** A record is skipped exactly when it has surplus cells or its date or
      amount does not parse; otherwise every field is the column's value or
      its default. */
  lemma PlanRowMeaning(fieldnames: seq<string>, cells: seq<string>)
    ensures var r, row := PlanRow(fieldnames, cells), NormalizedRow(fieldnames, cells);
      r.Err? <==>
        |cells| > |fieldnames| || ParseDate(Get(row, "date")).None? || ParseAmount(Get(row, "amount")).None?
    ensures var r := PlanRow(fieldnames, cells);
      r.Ok? ==> r.value.category != [] && r.value.account != [] && r.value.currency != []
    ensures var r, row := PlanRow(fieldnames, cells), NormalizedRow(fieldnames, cells);
      r.Ok? ==>
      && Some(r.value.date) == ParseDate(Get(row, "date"))
      && Some(r.value.amount) == ParseAmount(Get(row, "amount"))
      && r.value.description == Get(row, "description")
      && r.value.account == OrDefault(Get(row, "account"), "Wallet")
      && r.value.currency == OrDefault(Get(row, "currency"), "USD")
      && r.value.category == OrDefault(Get(row, "category"), if IsPositive(r.value.amount) then "Income" else "Uncategorized")
      && r.value.kind == KindOf(Get(row, "type"), r.value.amount)
  {
  }

  /** With the type column absent or not INCOME/EXPENSE, an amount of zero makes
      an EXPENSE category, and a blank category name becomes "Uncategorized". */
  lemma ZeroAmountIsExpense(typeCol: string, places: nat)
    requires Upper(typeCol) != "INCOME" && Upper(typeCol) != "EXPENSE"
    ensures KindOf(typeCol, Decimal(0, places)) == Expense
    ensures OrDefault("", if IsPositive(Decimal(0, places)) then "Income" else "Uncategorized") == "Uncategorized"
  {
  }

  /** The type column is read without regard to ASCII case. */
  lemma TypeColumnIgnoresCase(amount: Decimal)
    ensures KindOf("income", amount) == Income && KindOf("Expense", amount) == Expense
  {
    LowerIncome();
    MixedExpense();
  }

  lemma LowerIncome()
    ensures Upper("income") == "INCOME"
  {
    var t := "income";
    assert Upper(t) == [Upper(t)[0]] + Upper(t[1..]);
  }

  lemma MixedExpense()
    ensures Upper("Expense") == "EXPENSE"
  {
  }

  // ---------- The whole run ----------

  /** The three counters of `handle`. */
  datatype Report = Report(created: nat, skipped: nat, errors: nat)

  datatype Progress = Progress(tables: Tables, report: Report)

  function AccountKeyOf(user: UserId, p: RowPlan): AccountKey { AccountKey(user, p.account) }
  function CategoryKeyOf(user: UserId, p: RowPlan): CategoryKey { CategoryKey(user, p.category, p.kind) }

  function RecordOf(user: UserId, p: RowPlan): TransactionRecord {
    TransactionRecord(user, AccountKeyOf(user, p), CategoryKeyOf(user, p), p.date, p.amount, p.description)
  }

  /** One iteration of the loop: a failed record only bumps `errors` and
      `skipped_count`; a planned one gets or creates its account and category
      and, unless dry, inserts its transaction. */
  function Step(s: Progress, user: UserId, dry: bool, fieldnames: seq<string>, cells: seq<string>): (r: Progress)
    ensures PlanRow(fieldnames, cells).Err? ==> r.tables == s.tables
    ensures r.report.created + r.report.errors == s.report.created + s.report.errors + 1
    ensures r.tables.accounts.Keys >= s.tables.accounts.Keys && r.tables.categories.Keys >= s.tables.categories.Keys
  {
    match PlanRow(fieldnames, cells)
    case Err(_) =>
      Progress(s.tables, Report(s.report.created, s.report.skipped + 1, s.report.errors + 1))
    case Ok(p) =>
      var accounts := AccountGetOrCreate(s.tables.accounts, AccountKeyOf(user, p), p.currency);
      var categories := CategoryGetOrCreate(s.tables.categories, CategoryKeyOf(user, p));
      var transactions := if dry then s.tables.transactions else s.tables.transactions + [RecordOf(user, p)];
      Progress(Tables(accounts, categories, transactions), Report(s.report.created + 1, s.report.skipped, s.report.errors))
  }

  /** The loop over the records, as a left fold. */
  function Run(s: Progress, user: UserId, dry: bool, fieldnames: seq<string>, rows: seq<seq<string>>): Progress
    decreases |rows|
  {
    if rows == [] then s
    else Step(Run(s, user, dry, fieldnames, rows[..|rows| - 1]), user, dry, fieldnames, rows[|rows| - 1])
  }

  /** Why the command stops before reading any record. */
  datatype ImportError = UnknownUser(username: string) | MissingColumns(missing: set<string>)

  const REQUIRED: set<string> := {"date", "amount"}

  /** The column names once stripped and lower-cased. */
  function HeaderSet(fieldnames: seq<string>): set<string> {
    set j | 0 <= j < |fieldnames| :: NormalizeKey(fieldnames[j])
  }

  /** `handle`: look the user up, check the columns, then run the loop from
      zero counters. */
  function ImportSpec(users: map<string, UserId>, tables: Tables, username: string,
                      fieldnames: seq<string>, rows: seq<seq<string>>, dry: bool): (r: Result<Progress, ImportError>)
    ensures r.Err? <==> username !in users || !(REQUIRED <= HeaderSet(fieldnames))
  {
    if username !in users then Err(UnknownUser(username))
    else if !(REQUIRED <= HeaderSet(fieldnames)) then Err(MissingColumns(REQUIRED - HeaderSet(fieldnames)))
    else Ok(Run(Progress(tables, Report(0, 0, 0)), users[username], dry, fieldnames, rows))
  }

  // ---------- Properties of the run ----------

  /** The records that plan successfully. */
  function Planned(fieldnames: seq<string>, rows: seq<seq<string>>): (r: seq<RowPlan>)
    ensures |r| <= |rows|
  {
    if rows == [] then []
    else
      var last := rows[|rows| - 1];
      Planned(fieldnames, rows[..|rows| - 1])
        + match PlanRow(fieldnames, last) case Ok(p) => [p] case Err(_) => []
  }

  function Records(user: UserId, plans: seq<RowPlan>): (r: seq<TransactionRecord>)
    ensures |r| == |plans|
  {
    if plans == [] then [] else Records(user, plans[..|plans| - 1]) + [RecordOf(user, plans[|plans| - 1])]
  }

  /** Every record bumps exactly one of `created` and `errors`; `skipped` always
      equals `errors`; `created` counts the records that plan successfully, and
      the transactions are those records' transactions, in file order (none in a
      dry run). */
  lemma RunCounts(s: Progress, user: UserId, dry: bool, fieldnames: seq<string>, rows: seq<seq<string>>)
    requires s.report.skipped == s.report.errors
    ensures var r := Run(s, user, dry, fieldnames, rows);
      && r.report.created + r.report.errors == s.report.created + s.report.errors + |rows|
      && r.report.skipped == r.report.errors
      && r.report.created == s.report.created + |Planned(fieldnames, rows)|
      && r.tables.transactions == s.tables.transactions + (if dry then [] else Records(user, Planned(fieldnames, rows)))
  {
    RunReport(s, user, dry, fieldnames, rows);
    RunTransactions(s, user, dry, fieldnames, rows);
  }

  lemma {:induction false} RunReport(s: Progress, user: UserId, dry: bool, fieldnames: seq<string>, rows: seq<seq<string>>)
    requires s.report.skipped == s.report.errors
    ensures var r := Run(s, user, dry, fieldnames, rows);
      && r.report.created + r.report.errors == s.report.created + s.report.errors + |rows|
      && r.report.skipped == r.report.errors
      && r.report.created == s.report.created + |Planned(fieldnames, rows)|
    decreases |rows|
  {
    if rows != [] {
      var init, last := rows[..|rows| - 1], rows[|rows| - 1];
      RunReport(s, user, dry, fieldnames, init);
      var before := Run(s, user, dry, fieldnames, init);
      RunLast(s, user, dry, fieldnames, rows);
      PlannedLast(fieldnames, rows);
      var plan := PlanRow(fieldnames, last);
      if plan.Ok? {
        StepOk(before, user, dry, fieldnames, last, plan.value);
      } else {
        StepErr(before, user, dry, fieldnames, last);
      }
    }
  }

  lemma {:induction false} RunTransactions(s: Progress, user: UserId, dry: bool, fieldnames: seq<string>, rows: seq<seq<string>>)
    ensures Run(s, user, dry, fieldnames, rows).tables.transactions
      == s.tables.transactions + (if dry then [] else Records(user, Planned(fieldnames, rows)))
    decreases |rows|
  {
    if rows != [] {
      var init, last := rows[..|rows| - 1], rows[|rows| - 1];
      RunTransactions(s, user, dry, fieldnames, init);
      var before := Run(s, user, dry, fieldnames, init);
      RunLast(s, user, dry, fieldnames, rows);
      PlannedLast(fieldnames, rows);
      var plan := PlanRow(fieldnames, last);
      if plan.Ok? {
        StepOk(before, user, dry, fieldnames, last, plan.value);
        RecordsLast(user, Planned(fieldnames, init), plan.value);
      } else {
        assert Planned(fieldnames, init) + [] == Planned(fieldnames, init);
        StepErr(before, user, dry, fieldnames, last);
      }
    }
  }

  lemma RecordsLast(user: UserId, ps0: seq<RowPlan>, p: RowPlan)
    ensures Records(user, ps0 + [p]) == Records(user, ps0) + [RecordOf(user, p)]
  {
    assert (ps0 + [p])[..|ps0|] == ps0;
  }

  /** A run only ever adds accounts and categories; the ones already there keep
      their currency, balance, icon and colour. */
  lemma {:induction false} RunKeepsExisting(s: Progress, user: UserId, dry: bool, fieldnames: seq<string>, rows: seq<seq<string>>)
    ensures var r := Run(s, user, dry, fieldnames, rows);
      && (forall k :: k in s.tables.accounts ==> k in r.tables.accounts && r.tables.accounts[k] == s.tables.accounts[k])
      && (forall k :: k in s.tables.categories ==> k in r.tables.categories && r.tables.categories[k] == s.tables.categories[k])
    decreases |rows|
  {
    if rows != [] {
      RunKeepsExisting(s, user, dry, fieldnames, rows[..|rows| - 1]);
    }
  }

  /** The account and category keys the planned records look up. */
  function AccountKeys(user: UserId, plans: seq<RowPlan>): set<AccountKey> {
    set i | 0 <= i < |plans| :: AccountKeyOf(user, plans[i])
  }

  function CategoryKeys(user: UserId, plans: seq<RowPlan>): set<CategoryKey> {
    set i | 0 <= i < |plans| :: CategoryKeyOf(user, plans[i])
  }

  /** After a run, the accounts are the old ones plus one per new (owner, name)
      looked up, and likewise for categories. */
  lemma RunKeys(s: Progress, user: UserId, dry: bool, fieldnames: seq<string>, rows: seq<seq<string>>)
    ensures var r := Run(s, user, dry, fieldnames, rows);
      && r.tables.accounts.Keys == s.tables.accounts.Keys + AccountKeys(user, Planned(fieldnames, rows))
      && r.tables.categories.Keys == s.tables.categories.Keys + CategoryKeys(user, Planned(fieldnames, rows))
  {
    RunAccountKeys(s, user, dry, fieldnames, rows);
    RunCategoryKeys(s, user, dry, fieldnames, rows);
  }

  lemma {:induction false} RunAccountKeys(s: Progress, user: UserId, dry: bool, fieldnames: seq<string>, rows: seq<seq<string>>)
    ensures Run(s, user, dry, fieldnames, rows).tables.accounts.Keys
      == s.tables.accounts.Keys + AccountKeys(user, Planned(fieldnames, rows))
    decreases |rows|
  {
    if rows != [] {
      var init, last := rows[..|rows| - 1], rows[|rows| - 1];
      RunAccountKeys(s, user, dry, fieldnames, init);
      var before := Run(s, user, dry, fieldnames, init);
      RunLast(s, user, dry, fieldnames, rows);
      PlannedLast(fieldnames, rows);
      var plan := PlanRow(fieldnames, last);
      if plan.Ok? {
        KeysAppend(user, Planned(fieldnames, init), plan.value);
        StepKeys(before, user, dry, fieldnames, last);
      } else {
        assert Planned(fieldnames, init) + [] == Planned(fieldnames, init);
        StepErr(before, user, dry, fieldnames, last);
      }
    }
  }

  lemma {:induction false} RunCategoryKeys(s: Progress, user: UserId, dry: bool, fieldnames: seq<string>, rows: seq<seq<string>>)
    ensures Run(s, user, dry, fieldnames, rows).tables.categories.Keys
      == s.tables.categories.Keys + CategoryKeys(user, Planned(fieldnames, rows))
    decreases |rows|
  {
    if rows != [] {
      var init, last := rows[..|rows| - 1], rows[|rows| - 1];
      RunCategoryKeys(s, user, dry, fieldnames, init);
      var before := Run(s, user, dry, fieldnames, init);
      RunLast(s, user, dry, fieldnames, rows);
      PlannedLast(fieldnames, rows);
      var plan := PlanRow(fieldnames, last);
      if plan.Ok? {
        KeysAppend(user, Planned(fieldnames, init), plan.value);
        StepKeys(before, user, dry, fieldnames, last);
      } else {
        assert Planned(fieldnames, init) + [] == Planned(fieldnames, init);
        StepErr(before, user, dry, fieldnames, last);
      }
    }
  }

  lemma PlannedLast(fieldnames: seq<string>, rows: seq<seq<string>>)
    requires rows != []
    ensures var plan := PlanRow(fieldnames, rows[|rows| - 1]);
      Planned(fieldnames, rows) == Planned(fieldnames, rows[..|rows| - 1]) + (if plan.Ok? then [plan.value] else [])
  {
  }

  lemma StepKeys(s: Progress, user: UserId, dry: bool, fieldnames: seq<string>, cells: seq<string>)
    requires PlanRow(fieldnames, cells).Ok?
    ensures var p, r := PlanRow(fieldnames, cells).value, Step(s, user, dry, fieldnames, cells);
      && r.tables.accounts.Keys == s.tables.accounts.Keys + {AccountKeyOf(user, p)}
      && r.tables.categories.Keys == s.tables.categories.Keys + {CategoryKeyOf(user, p)}
  {
    StepOk(s, user, dry, fieldnames, cells, PlanRow(fieldnames, cells).value);
  }

  /** The last record is the last step of the fold. */
  lemma RunLast(s: Progress, user: UserId, dry: bool, fieldnames: seq<string>, rows: seq<seq<string>>)
    requires rows != []
    ensures Run(s, user, dry, fieldnames, rows)
      == Step(Run(s, user, dry, fieldnames, rows[..|rows| - 1]), user, dry, fieldnames, rows[|rows| - 1])
  {
  }

  /** A step over a record that plans as `p`. */
  lemma StepOk(s: Progress, user: UserId, dry: bool, fieldnames: seq<string>, cells: seq<string>, p: RowPlan)
    requires PlanRow(fieldnames, cells) == Ok(p)
    ensures var r := Step(s, user, dry, fieldnames, cells);
      && r.tables.accounts == AccountGetOrCreate(s.tables.accounts, AccountKeyOf(user, p), p.currency)
      && r.tables.categories == CategoryGetOrCreate(s.tables.categories, CategoryKeyOf(user, p))
      && r.tables.transactions == (if dry then s.tables.transactions else s.tables.transactions + [RecordOf(user, p)])
      && r.report == Report(s.report.created + 1, s.report.skipped, s.report.errors)
  {
  }

  /** A step over a record that fails to plan. */
  lemma StepErr(s: Progress, user: UserId, dry: bool, fieldnames: seq<string>, cells: seq<string>)
    requires PlanRow(fieldnames, cells).Err?
    ensures Step(s, user, dry, fieldnames, cells)
      == Progress(s.tables, Report(s.report.created, s.report.skipped + 1, s.report.errors + 1))
  {
  }

  lemma KeysAppend(user: UserId, ps0: seq<RowPlan>, p: RowPlan)
    ensures AccountKeys(user, ps0 + [p]) == AccountKeys(user, ps0) + {AccountKeyOf(user, p)}
    ensures CategoryKeys(user, ps0 + [p]) == CategoryKeys(user, ps0) + {CategoryKeyOf(user, p)}
  {
    var ps := ps0 + [p];
    assert forall i :: 0 <= i < |ps0| ==> ps[i] == ps0[i];
    assert ps[|ps0|] == p;
    forall k | k in AccountKeys(user, ps) ensures k in AccountKeys(user, ps0) + {AccountKeyOf(user, p)} {
      var i :| 0 <= i < |ps| && k == AccountKeyOf(user, ps[i]);
      if i < |ps0| { assert k == AccountKeyOf(user, ps0[i]); }
    }
    forall k | k in CategoryKeys(user, ps) ensures k in CategoryKeys(user, ps0) + {CategoryKeyOf(user, p)} {
      var i :| 0 <= i < |ps| && k == CategoryKeyOf(user, ps[i]);
      if i < |ps0| { assert k == CategoryKeyOf(user, ps0[i]); }
    }
  }

  /** Where every key a run looks up already exists, the run leaves the account
      and category tables as they are. */
  lemma {:induction false} RunOverExisting(s: Progress, user: UserId, dry: bool, fieldnames: seq<string>, rows: seq<seq<string>>)
    requires AccountKeys(user, Planned(fieldnames, rows)) <= s.tables.accounts.Keys
    requires CategoryKeys(user, Planned(fieldnames, rows)) <= s.tables.categories.Keys
    ensures Run(s, user, dry, fieldnames, rows).tables.accounts == s.tables.accounts
    ensures Run(s, user, dry, fieldnames, rows).tables.categories == s.tables.categories
    decreases |rows|
  {
    if rows != [] {
      var init, last := rows[..|rows| - 1], rows[|rows| - 1];
      var ps0 := Planned(fieldnames, init);
      RunLast(s, user, dry, fieldnames, rows);
      match PlanRow(fieldnames, last)
      case Err(_) =>
        assert Planned(fieldnames, rows) == ps0;
        RunOverExisting(s, user, dry, fieldnames, init);
        StepErr(Run(s, user, dry, fieldnames, init), user, dry, fieldnames, last);
      case Ok(p) =>
        assert Planned(fieldnames, rows) == ps0 + [p];
        KeysAppend(user, ps0, p);
        RunOverExisting(s, user, dry, fieldnames, init);
        StepOk(Run(s, user, dry, fieldnames, init), user, dry, fieldnames, last, p);
    }
  }

  /** Importing the same file twice creates its accounts and categories once: the
      second run finds them all and leaves both tables exactly as the first left
      them (only the transactions are inserted again). */
  lemma ReimportSameAccountsAndCategories(s: Progress, user: UserId, dry: bool, fieldnames: seq<string>, rows: seq<seq<string>>)
    ensures var once := Run(s, user, dry, fieldnames, rows);
      var twice := Run(once, user, dry, fieldnames, rows);
      twice.tables.accounts == once.tables.accounts && twice.tables.categories == once.tables.categories
  {
    var once := Run(s, user, dry, fieldnames, rows);
    RunKeys(s, user, dry, fieldnames, rows);
    RunOverExisting(once, user, dry, fieldnames, rows);
  }

  /** A dry run inserts no transaction, yet it does get or create the accounts and
      categories the records name, exactly as a real run does. */
  lemma DryRunTables(users: map<string, UserId>, tables: Tables, username: string,
                     fieldnames: seq<string>, rows: seq<seq<string>>)
    requires ImportSpec(users, tables, username, fieldnames, rows, true).Ok?
    ensures var dryRun := ImportSpec(users, tables, username, fieldnames, rows, true).value;
      var realRun := ImportSpec(users, tables, username, fieldnames, rows, false).value;
      && dryRun.tables.transactions == tables.transactions
      && dryRun.tables.accounts == realRun.tables.accounts
      && dryRun.tables.categories == realRun.tables.categories
      && dryRun.report == realRun.report
  {
    var start := Progress(tables, Report(0, 0, 0));
    var user := users[username];
    RunCounts(start, user, true, fieldnames, rows);
    RunCounts(start, user, false, fieldnames, rows);
    DryMatchesReal(start, user, fieldnames, rows);
  }

  lemma {:induction false} DryMatchesReal(s: Progress, user: UserId, fieldnames: seq<string>, rows: seq<seq<string>>)
    ensures var d, r := Run(s, user, true, fieldnames, rows), Run(s, user, false, fieldnames, rows);
      d.tables.accounts == r.tables.accounts && d.tables.categories == r.tables.categories && d.report == r.report
    decreases |rows|
  {
    if rows != [] {
      var init, last := rows[..|rows| - 1], rows[|rows| - 1];
      DryMatchesReal(s, user, fieldnames, init);
      var d0, r0 := Run(s, user, true, fieldnames, init), Run(s, user, false, fieldnames, init);
      assert Run(s, user, true, fieldnames, rows) == Step(d0, user, true, fieldnames, last);
      assert Run(s, user, false, fieldnames, rows) == Step(r0, user, false, fieldnames, last);
      StepIgnoresTransactions(d0, r0, user, fieldnames, last);
    }
  }

  lemma StepIgnoresTransactions(d: Progress, r: Progress, user: UserId, fieldnames: seq<string>, cells: seq<string>)
    requires d.tables.accounts == r.tables.accounts && d.tables.categories == r.tables.categories && d.report == r.report
    ensures var d', r' := Step(d, user, true, fieldnames, cells), Step(r, user, false, fieldnames, cells);
      d'.tables.accounts == r'.tables.accounts && d'.tables.categories == r'.tables.categories && d'.report == r'.report
  {
  }

  /** A record that fails to parse leaves every table as it was. */
  lemma FailedRecordChangesNoTable(s: Progress, user: UserId, dry: bool, fieldnames: seq<string>,
                                   rows: seq<seq<string>>, bad: seq<string>)
    requires PlanRow(fieldnames, bad).Err?
    ensures Run(s, user, dry, fieldnames, rows + [bad]).tables == Run(s, user, dry, fieldnames, rows).tables
  {
    assert (rows + [bad])[..|rows + [bad]| - 1] == rows;
  }

  /** The command refuses a file without a `date` or `amount` column before
      reading any record, whatever its records. */
  lemma MissingColumnAborts(users: map<string, UserId>, tables: Tables, username: string,
                            fieldnames: seq<string>, rows: seq<seq<string>>, dry: bool)
    requires username in users
    requires forall j :: 0 <= j < |fieldnames| ==> NormalizeKey(fieldnames[j]) != "amount"
    ensures ImportSpec(users, tables, username, fieldnames, rows, dry) == Err(MissingColumns(REQUIRED - HeaderSet(fieldnames)))
    ensures "amount" in REQUIRED - HeaderSet(fieldnames)
  {
  }

  // ---------- The store ----------

  /** The database tables the command reads and writes, updated in place. */
  class Store {
    var users: map<string, UserId>
    var accounts: map<AccountKey, AccountRecord>
    var categories: map<CategoryKey, CategoryRecord>
    var transactions: seq<TransactionRecord>

    constructor (users: map<string, UserId>)
      ensures this.users == users && accounts == map[] && categories == map[] && transactions == []
    {
      this.users := users;
      accounts := map[];
      categories := map[];
      transactions := [];
    }

    function State(): Tables
      reads this
    {
      Tables(accounts, categories, transactions)
    }

    method GetOrCreateAccount(key: AccountKey, currency: string) returns (account: AccountRecord, created: bool)
      modifies this
      ensures accounts == AccountGetOrCreate(old(accounts), key, currency)
      ensures account == accounts[key] && (created <==> key !in old(accounts))
      ensures users == old(users) && categories == old(categories) && transactions == old(transactions)
    {
      if key in accounts {
        account, created := accounts[key], false;
      } else {
        account, created := AccountRecord(currency, "", 0), true;
        accounts := accounts[key := account];
      }
    }

    method GetOrCreateCategory(key: CategoryKey) returns (category: CategoryRecord, created: bool)
      modifies this
      ensures categories == CategoryGetOrCreate(old(categories), key)
      ensures category == categories[key] && (created <==> key !in old(categories))
      ensures users == old(users) && accounts == old(accounts) && transactions == old(transactions)
    {
      if key in categories {
        category, created := categories[key], false;
      } else {
        category, created := CategoryRecord("", DEFAULT_COLOR), true;
        categories := categories[key := category];
      }
    }

    method CreateTransaction(t: TransactionRecord)
      modifies this
      ensures transactions == old(transactions) + [t]
      ensures users == old(users) && accounts == old(accounts) && categories == old(categories)
    {
      transactions := transactions + [t];
    }

    /** One pass of the loop body: plan the record, then get or create its
        account and category and (unless a dry run) create its transaction. */
    method ImportRow(user: UserId, fieldnames: seq<string>, cells: seq<string>, dry: bool, report: Report)
      returns (next: Report)
      modifies this
      ensures users == old(users)
      ensures Progress(State(), next) == Step(Progress(old(State()), report), user, dry, fieldnames, cells)
    {
      ghost var s := Progress(State(), report);
      var plan := PlanRow(fieldnames, cells);
      if plan.Err? {
        StepErr(s, user, dry, fieldnames, cells);
        next := Report(report.created, report.skipped + 1, report.errors + 1);
      } else {
        var p := plan.value;
        StepOk(s, user, dry, fieldnames, cells, p);
        var _, _ := GetOrCreateAccount(AccountKeyOf(user, p), p.currency);
        var _, _ := GetOrCreateCategory(CategoryKeyOf(user, p));
        if !dry {
          CreateTransaction(RecordOf(user, p));
        }
        next := Report(report.created + 1, report.skipped, report.errors);
      }
    }

    /** The loop over the records, from zero counters. */
    method ImportRows(user: UserId, fieldnames: seq<string>, rows: seq<seq<string>>, dry: bool)
      returns (report: Report)
      modifies this
      ensures users == old(users)
      ensures Progress(State(), report) == Run(Progress(old(State()), Report(0, 0, 0)), user, dry, fieldnames, rows)
    {
      ghost var start := Progress(State(), Report(0, 0, 0));
      report := Report(0, 0, 0);
      var i := 0;
      while i < |rows|
        invariant 0 <= i <= |rows|
        invariant users == old(users)
        invariant Run(start, user, dry, fieldnames, rows[..i]) == Progress(State(), report)
      {
        assert rows[..i + 1][..i] == rows[..i] && rows[..i + 1][i] == rows[i];
        RunLast(start, user, dry, fieldnames, rows[..i + 1]);
        report := ImportRow(user, fieldnames, rows[i], dry, report);
        i := i + 1;
      }
      assert rows[..|rows|] == rows;
    }

    /** `handle`: the report, or the error that stops the command before any
        record is read (and so before any write). */
    method Import(username: string, fieldnames: seq<string>, rows: seq<seq<string>>, dry: bool)
      returns (r: Result<Report, ImportError>)
      modifies this
      ensures users == old(users)
      ensures var spec := ImportSpec(old(users), old(State()), username, fieldnames, rows, dry);
        && (r.Err? <==> spec.Err?)
        && (r.Err? ==> r.error == spec.error && State() == old(State()))
        && (r.Ok? ==> r.value == spec.value.report && State() == spec.value.tables)
    {
      if username !in users {
        return Err(UnknownUser(username));
      }
      var headers := HeaderSet(fieldnames);
      if !(REQUIRED <= headers) {
        return Err(MissingColumns(REQUIRED - headers));
      }
      var report := ImportRows(users[username], fieldnames, rows, dry);
      return Ok(report);
    }
  }
}
