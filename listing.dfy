/** The transaction list endpoint of `core/views.py`: owner scoping, the
    default order, the `start`/`end`/`category` filters, and the CSV export
    of the filtered list. */
module Listing {
  import opened Text
  import opened Calendar
  import opened DateParsing
  import opened Amounts
  import opened Ledger

  // ---------- Owner scoping (BaseOwnedViewSet) ----------

  /** `get_queryset`: only the records `user` owns, in the table's order. */
  function OwnedBy<T(!new)>(rows: seq<T>, ownerOf: T -> UserId, user: UserId): (r: seq<T>)
    ensures forall x :: x in r <==> x in rows && ownerOf(x) == user
  {
    Where(rows, x => ownerOf(x) == user)
  }

  /** `perform_create`: the new record is saved with the requesting user as owner;
      every other field is what the client sent. */
  function Stamped(t: Transaction, user: UserId): (r: Transaction)
    ensures r.owner == user && r.(owner := t.owner) == t
  {
    t.(owner := user)
  }

  /** A record created through the API is visible to its creator and to nobody else. */
  lemma StampedVisibleToCreatorOnly(table: seq<Transaction>, t: Transaction, user: UserId, other: UserId)
    requires other != user
    ensures Stamped(t, user) in OwnedBy(table + [Stamped(t, user)], (x: Transaction) => x.owner, user)
    ensures Stamped(t, user) !in OwnedBy(table + [Stamped(t, user)], (x: Transaction) => x.owner, other)
  {
    var s := Stamped(t, user);
    assert s in table + [s];
  }

  // ---------- Default order ('-date', '-id') ----------

  /** `a` is listed strictly before `b`: a later date, or the same date and a larger id. */
  predicate ListedBefore(a: Transaction, b: Transaction) {
    Before(b.date, a.date) || (a.date == b.date && a.id > b.id)
  }

  predicate NewestFirst(s: seq<Transaction>) {
    forall i, j :: 0 <= i < j < |s| ==> !ListedBefore(s[j], s[i])
  }

  /** `ListedBefore` is a strict weak order: its negation is transitive and it is asymmetric. */
  lemma ListedBeforeOrder(a: Transaction, b: Transaction, c: Transaction)
    ensures !ListedBefore(a, a)
    ensures ListedBefore(a, b) ==> !ListedBefore(b, a)
    ensures !ListedBefore(a, b) && !ListedBefore(b, c) ==> !ListedBefore(a, c)
  {
    BeforeStrictTotal(a.date, b.date, c.date);
    BeforeStrictTotal(b.date, c.date, a.date);
    BeforeStrictTotal(c.date, a.date, b.date);
  }

  function Insert(t: Transaction, s: seq<Transaction>): (r: seq<Transaction>)
    requires NewestFirst(s)
    ensures NewestFirst(r)
    ensures multiset(r) == multiset(s) + multiset{t}
    ensures forall x :: x in r ==> x == t || x in s
  {
    if s == [] then [t]
    else if ListedBefore(s[0], t) then
      var rest := Insert(t, s[1..]);
      assert s == [s[0]] + s[1..];
      forall x | x in rest ensures !ListedBefore(x, s[0]) {
        if x == t {
          ListedBeforeOrder(s[0], t, t);
        } else {
          var j :| 0 <= j < |s[1..]| && s[1..][j] == x;
          assert s[j + 1] == x;
        }
      }
      [s[0]] + rest
    else
      var r := [t] + s;
      forall j | 0 < j < |r| ensures !ListedBefore(r[j], r[0]) {
        if j > 1 {
          assert !ListedBefore(s[j - 1], s[0]);
          ListedBeforeOrder(s[j - 1], s[0], t);
        }
      }
      r
  }

  /** The queryset's order `('-date', '-id')`: newest date first, larger id first on a tie. */
  function SortNewestFirst(s: seq<Transaction>): (r: seq<Transaction>)
    ensures NewestFirst(r)
    ensures multiset(r) == multiset(s)
  {
    if s == [] then []
    else
      assert s == [s[0]] + s[1..];
      Insert(s[0], SortNewestFirst(s[1..]))
  }

  // ---------- Query filters (TransactionViewSet.get_queryset) ----------

  /** The raw query parameters; an absent parameter is `""` (both are falsy). */
  datatype ListParams = ListParams(start: string, end: string, category: string)

  /** A `start` or `end` value that a `DateField` lookup refuses: the request fails. */
  datatype QueryError = InvalidDate(text: string)

  /** A date bound: absent, a `YYYY-MM-DD` date, or an error. */
  function Bound(s: string): (r: Result<Option<Date>, QueryError>)
    ensures s == [] ==> r == Ok(None)
    ensures s != [] && r.Ok? ==> r.value.Some? && ValidDate(r.value.value) && ParseWith(YMD_DASH, s) == r.value
    ensures r.Err? <==> s != [] && ParseWith(YMD_DASH, s).None?
  {
    if s == [] then Ok(None)
    else match ParseWith(YMD_DASH, s)
      case Some(d) => Ok(Some(d))
      case None => Err(InvalidDate(s))
  }

  /** The `category` filter: an all-digit value is a category id, anything else a
      name compared without regard to ASCII case. */
  predicate CategoryMatches(t: Transaction, category: string) {
    if category == [] then true
    else if AllDigits(category) then t.category.Some? && t.category.value.id == DigitsValue(category)
    else t.category.Some? && Lower(t.category.value.name) == Lower(category)
  }

  /** Whether `t` survives the owner scope and the three filters; bounds are inclusive. */
  predicate Selected(t: Transaction, user: UserId, lo: Option<Date>, hi: Option<Date>, category: string) {
    && t.owner == user
    && (lo.Some? ==> AtOrBefore(lo.value, t.date))
    && (hi.Some? ==> AtOrBefore(t.date, hi.value))
    && CategoryMatches(t, category)
  }

  /** The list endpoint's queryset, in its default order. */
  function ListTransactions(table: seq<Transaction>, user: UserId, params: ListParams): (r: Result<seq<Transaction>, QueryError>)
    ensures r.Err? <==> Bound(params.start).Err? || Bound(params.end).Err?
    ensures r.Ok? ==> NewestFirst(r.value) && multiset(r.value) <= multiset(table)
  {
    match Bound(params.start)
    case Err(e) => Err(e)
    case Ok(lo) =>
      match Bound(params.end)
      case Err(e) => Err(e)
      case Ok(hi) =>
        var kept := Where(table, t => Selected(t, user, lo, hi, params.category));
        Ok(SortNewestFirst(kept))
  }

  /** A transaction is listed exactly when the user owns it and it passes every
      given filter; in particular nobody sees another user's transactions. */
  lemma ListedIff(table: seq<Transaction>, user: UserId, params: ListParams, t: Transaction)
    requires ListTransactions(table, user, params).Ok?
    ensures var lo, hi := Bound(params.start).value, Bound(params.end).value;
      t in ListTransactions(table, user, params).value <==> t in table && Selected(t, user, lo, hi, params.category)
    ensures t in ListTransactions(table, user, params).value ==> t.owner == user
  {
    var lo, hi := Bound(params.start).value, Bound(params.end).value;
    var kept := Where(table, t => Selected(t, user, lo, hi, params.category));
    assert t in multiset(kept) <==> t in multiset(SortNewestFirst(kept));
  }

  /** Both bounds are inclusive: a transaction dated on `start` or on `end` is kept. */
  lemma BoundsInclusive(d: Date, t: Transaction, user: UserId)
    requires t.owner == user && t.date == d
    ensures Selected(t, user, Some(d), Some(d), "")
  {
  }

  /** An all-digit category value selects by id; `"Rent"` and `"rent"` select the same rows. */
  lemma CategoryFilterExamples(t: Transaction)
    requires t.category == Some(CategoryRef(7, "Rent", "#4f46e5"))
    ensures CategoryMatches(t, "7")
    ensures CategoryMatches(t, "rent") && CategoryMatches(t, "RENT")
    ensures !CategoryMatches(t, "8")
  {
    assert DigitsValue("7") == 7 && DigitsValue("8") == 8;
    assert Lower("Rent") == "rent" && Lower("rent") == "rent" && Lower("RENT") == "rent";
  }

  /** A transaction without a category never passes a category filter. */
  lemma UncategorisedNeverMatches(t: Transaction, category: string)
    requires t.category.None? && category != []
    ensures !CategoryMatches(t, category)
  {
  }

  // ---------- Export ----------

  const EXPORT_HEADER: seq<string> := ["date", "amount", "description", "category", "account"]

  /** The download's file name: both bounds in it only when both are given. */
  function ExportFilename(start: string, end: string): (r: string)
    ensures start != [] && end != [] ==> |r| == 13 + |start| + 4 + |end| + 4
    ensures start != [] && end != [] ==>
      r[..13] == "transactions_" && r[13..13 + |start|] == start
      && r[13 + |start|..13 + |start| + 4] == "_to_"
      && r[|r| - 4 - |end|..|r| - 4] == end && r[|r| - 4..] == ".csv"
    ensures start == [] || end == [] ==> r == "transactions.csv"
  {
    if start != [] && end != [] then
      var r := "transactions_" + start + "_to_" + end + ".csv";
      assert r[..13] == "transactions_" && r[13..13 + |start|] == start;
      assert r[13 + |start|..13 + |start| + 4] == "_to_";
      assert r[|r| - 4 - |end|..|r| - 4] == end && r[|r| - 4..] == ".csv";
      r
    else "transactions.csv"
  }

  /** One exported line: ISO date, the two-place amount, description, category
      name (`""` without one), account name. */
  function ExportRow(t: Transaction): (row: seq<string>)
    requires ValidDate(t.date)
    ensures |row| == |EXPORT_HEADER|
    ensures row[0] == IsoFormat(t.date) && row[1] == FormatCents(t.amount) && row[2] == t.description
    ensures row[3] == (if t.category.Some? then t.category.value.name else "")
    ensures row[4] == t.account
  {
    [IsoFormat(t.date), FormatCents(t.amount), t.description,
     if t.category.Some? then t.category.value.name else "", t.account]
  }

  /** The exported date and amount read back through the importer's parsers as
      the stored date and amount. */
  lemma ExportRowReimports(t: Transaction)
    requires ValidDate(t.date)
    ensures ParseDate(ExportRow(t)[0]) == Some(t.date)
    ensures ParseAmount(ExportRow(t)[1]) == Some(Decimal(t.amount, 2))
  {
    ParseIsoFormat(t.date);
    ParseFormatCents(t.amount);
  }

  /** Every listed transaction comes from the table, so its date is a calendar date. */
  lemma ListedValidDates(table: seq<Transaction>, user: UserId, params: ListParams)
    requires ValidDates(table) && ListTransactions(table, user, params).Ok?
    ensures ValidDates(ListTransactions(table, user, params).value)
  {
    var txs := ListTransactions(table, user, params).value;
    forall i | 0 <= i < |txs| ensures ValidDate(txs[i].date) {
      assert txs[i] in multiset(txs);
      assert txs[i] in multiset(table);
    }
  }

  datatype CsvExport = CsvExport(filename: string, lines: seq<seq<string>>)

  /** The loop of `export`: the header, then one line per transaction, in order. */
  method WriteLines(txs: seq<Transaction>) returns (lines: seq<seq<string>>)
    requires ValidDates(txs)
    ensures |lines| == |txs| + 1 && lines[0] == EXPORT_HEADER
    ensures forall i :: 0 <= i < |txs| ==> lines[i + 1] == ExportRow(txs[i])
  {
    lines := [EXPORT_HEADER];
    var i := 0;
    while i < |txs|
      invariant 0 <= i <= |txs|
      invariant |lines| == i + 1 && lines[0] == EXPORT_HEADER
      invariant forall k :: 0 <= k < i ==> lines[k + 1] == ExportRow(txs[k])
    {
      lines := lines + [ExportRow(txs[i])];
      i := i + 1;
    }
  }

  /** `export`: the download name and the lines written for the filtered list. */
  method Export(table: seq<Transaction>, user: UserId, params: ListParams) returns (r: Result<CsvExport, QueryError>)
    requires ValidDates(table)
    ensures r.Err? <==> ListTransactions(table, user, params).Err?
    ensures r.Ok? ==>
      var txs := ListTransactions(table, user, params).value;
      && ValidDates(txs)
      && r.value.filename == ExportFilename(params.start, params.end)
      && |r.value.lines| == |txs| + 1
      && r.value.lines[0] == EXPORT_HEADER
      && forall i :: 0 <= i < |txs| ==> r.value.lines[i + 1] == ExportRow(txs[i])
  {
    var listed := ListTransactions(table, user, params);
    if listed.Err? {
      return Err(listed.error);
    }
    ListedValidDates(table, user, params);
    var lines := WriteLines(listed.value);
    return Ok(CsvExport(ExportFilename(params.start, params.end), lines));
  }
}
