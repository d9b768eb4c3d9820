# Personal finance tracker: import, reports and budgets in Dafny

This project models the logic of a small Django REST personal-finance
application:

- **The CSV import command** (`import_csv`):
  - `parse_date` tries five `strptime` formats in a fixed order.
  - `parse_amount` removes commas and reads an exact decimal.
  - The row loop of `handle` normalises the header names and cells of each
    row, applies the defaults and infers the category type.
  - The loop gets or creates the account and the category, then inserts the
    transaction unless it is a dry run, and keeps the created, skipped and
    error counters.
- **The transaction API views**:
  - owner scoping and owner stamping;
  - the newest-first default order;
  - the `start`, `end` and `category` list filters;
  - the CSV export;
  - the `YYYY-MM` month window of `monthly_summary` and `cards_summary`;
  - the income and expense totals, the per-category totals and the per-day
    income/expense series;
  - the budget lookup and the clamped budget percentage.
- **The budget serializer**: `create` and `update`, which overwrite the
  supplied fields and replace the item list.

Amounts on the read side are whole cents, because every amount column has
two decimal places. The importer keeps the exact `Decimal` it parsed, as a
coefficient and a number of places.

Modules:

- `Text`:
  - the whitespace set of Python's `str.strip`;
  - ASCII case mapping;
  - comma removal;
  - digit strings;
  - `int()`;
  - `str.split`.
- `Calendar`: dates, leap years, date order, ISO text and the `%d` day label.
- `DateParsing`: the five formats, `strptime` for one format, and the first-match `parse_date`.
- `Amounts`:
  - the `Decimal` value;
  - `parse_amount`;
  - the text a two-place amount is written as.
- `Ledger`: the stored records the views read, and the `.filter` fold.
- `Listing`:
  - owner scope and stamping;
  - default order;
  - query filters;
  - the export rows, and a `method` that writes them.
- `Reports`: month window, totals, grouping, daily series, by-category totals, budget percentage, and the two summaries.
- `Importer`:
  - get-or-create over the account and category tables;
  - row normalisation and the per-row plan;
  - the loop as a left fold;
  - a `Store` class whose `Import` method runs the loop and is proved equal to the fold.
- `Budgets`:
  - the item table;
  - a `Budget` class with mutable `month` and `totalLimit`;
  - a `Database` class holding the budget set and the item sequence. It keeps owner-month pairs unique, and its `Create` and `Update` methods fail as the unique constraint does. Otherwise they are proved against functions on the item sequence.

## Model

| member | source | states |
|---|---|---|
| Text.Strip | core/management/commands/import_csv.py:17 | the stripped text has no leading or trailing whitespace; `Text.StripPadded` and `Text.StripSlice` state what it keeps |
| Text.StripPadded | core/management/commands/import_csv.py:17 | text padded on either side with whitespace strips back to itself, when it has no whitespace at its own ends |
| Text.StripSlice | core/management/commands/import_csv.py:17 | the stripped text is a contiguous slice of the input with only whitespace cut before and after it |
| Text.Lower | core/management/commands/import_csv.py:70 | `lower()` keeps the length; `Text.LowerChars` states each character |
| Text.LowerChars | core/management/commands/import_csv.py:70 | lower-casing maps each ASCII capital to its small letter, keeps every other character, and leaves no ASCII capital |
| Text.Upper | core/management/commands/import_csv.py:89 | `upper()` keeps the length; `Text.UpperChars` states each character |
| Text.UpperChars | core/management/commands/import_csv.py:89 | upper-casing maps each ASCII small letter to its capital, keeps every other character, and leaves no ASCII small letter |
| Text.StripUnspaced | core/management/commands/import_csv.py:17 | text with no whitespace at either end is left unchanged by stripping |
| Text.StripIdempotent | core/management/commands/import_csv.py:79-80 | stripping twice, as the row normalisation and `parse_date` do, equals stripping once |
| Text.RemoveCommas | core/management/commands/import_csv.py:26 | the result holds no comma and is no longer than the input |
| Text.RemoveCommasAppend | core/management/commands/import_csv.py:26 | removing commas distributes over concatenation |
| Text.RemoveCommasJoin | core/management/commands/import_csv.py:26 | a single thousands comma between two comma-free parts disappears |
| Text.NatDigitsValue | core/views.py:145-146 | the decimal digits written for n read back as n |
| Text.PadDigitsValue | core/views.py:100 | zero-padding does not change the value of a digit string |
| Text.PadDigitsFits | core/views.py:100 | a number below 10^w is written with exactly w digits that read back as the number |
| Text.ParseInt | core/views.py:79 | `int()` succeeds only on text that is non-empty after stripping; `Text.ParseIntSigned` and `Text.ParseIntOnlySigned` state its value and its domain |
| Text.ParseIntDigits | core/views.py:79 | `int()` reads an ASCII digit string as its decimal value |
| Text.ParseIntSigned | core/views.py:79 | `int()` on an optional `+` or `-` followed by ASCII digits, with any whitespace around, is the digits' value, negated for `-` |
| Text.ParseIntOnlySigned | core/views.py:79 | `int()` succeeds only when the stripped text is an optional sign followed by at least one ASCII digit |
| Text.Split | core/views.py:79 | `split('-')` gives at least one part, and no part holds the separator; `Text.SplitJoin` and `Text.SplitCount` complete it |
| Text.SplitTwo | core/views.py:79 | text with exactly one separator splits into its two sides |
| Text.SplitJoin | core/views.py:79 | joining the parts with the separator gives back the input |
| Text.SplitCount | core/views.py:79 | there is one part more than the input has separators |
| Calendar.DaysInMonth | core/views.py:80 | months have 28 to 31 days, and 29 exactly for February of a leap year |
| Calendar.ValidDate | core/models.py:38 | a `DateField` holds a year from 1 to 9999, a month from 1 to 12 and a day within `Calendar.DaysInMonth`; every parser above ensures it of what it yields |
| Calendar.BeforeStrictTotal | core/models.py:43 | date order is irreflexive, transitive, total and asymmetric |
| Calendar.FirstOfMonth | core/models.py:47 | the first day of a date's month keeps its year and month |
| Calendar.IsoFormat | core/views.py:145 | a date is written as ten characters `YYYY-MM-DD` whose digit fields read back as the year, month and day |
| Calendar.DayLabel | core/views.py:100 | `strftime('%d')` is two digits that read back as the day |
| DateParsing.Fields | core/management/commands/import_csv.py:20 | a layout matches only text of its exact length with its separator at both positions |
| DateParsing.ParseWith | core/management/commands/import_csv.py:20 | one `strptime` succeeds only with a calendar date |
| DateParsing.FieldsOfPieces | core/management/commands/import_csv.py:20 | three digit fields of the expected widths joined by the separator read as their values |
| DateParsing.FieldsRender | core/management/commands/import_csv.py:20 | a rendered date's fields read back as its year, month and day in format order |
| DateParsing.ParseRender | core/management/commands/import_csv.py:8-14 | each of the five formats parses what it renders |
| DateParsing.FirstMatch | core/management/commands/import_csv.py:18-22 | the first-match search returns only calendar dates |
| DateParsing.ParseDate | core/management/commands/import_csv.py:16-23 | `parse_date` yields only calendar dates; `DateParsing.ParseDatePadded` states that surrounding whitespace is ignored |
| DateParsing.ParseDatePadded | core/management/commands/import_csv.py:16-17 | whitespace before and after the text does not change what `parse_date` returns |
| DateParsing.FirstMatchIsFirst | core/management/commands/import_csv.py:18-22 | when format i is the first that parses, its result is returned |
| DateParsing.FirstMatchFails | core/management/commands/import_csv.py:18-23 | the search fails exactly when every format fails |
| DateParsing.FirstMatchFrom | core/management/commands/import_csv.py:18-22 | every success comes from some format i, and all formats before i fail |
| DateParsing.RenderShape | core/management/commands/import_csv.py:8-14 | a rendered date has the layout's length, its separators at the two positions and digits elsewhere |
| DateParsing.SameLayout | core/management/commands/import_csv.py:10-11 | formats with the same widths and separator split text identically |
| DateParsing.WrongSeparator | core/management/commands/import_csv.py:20-22 | text with another character at the first separator position fails that format |
| DateParsing.ParseDateChain | core/management/commands/import_csv.py:16-23 | `parse_date` strips the text, then tries the five formats in their listed order |
| DateParsing.StripRendered | core/management/commands/import_csv.py:17 | a rendered date is unchanged by stripping |
| DateParsing.DayFirstWins | core/management/commands/import_csv.py:10 | any `DD/MM/YYYY` text parses as that date |
| DateParsing.MonthFirstReadDayFirst | core/management/commands/import_csv.py:10-11 | `MM/DD/YYYY` text with day at most 12 is read day-first, so day and month swap |
| DateParsing.MonthFirstFallback | core/management/commands/import_csv.py:11 | `MM/DD/YYYY` text with day above 12 falls through to the month-first format and parses correctly |
| DateParsing.DayFirstDashRoundTrip | core/management/commands/import_csv.py:12 | any `DD-MM-YYYY` text parses as that date |
| DateParsing.YearFirstSlashRoundTrip | core/management/commands/import_csv.py:13 | any `YYYY/MM/DD` text parses as that date |
| DateParsing.ParseIsoFormat | core/management/commands/import_csv.py:9 | an ISO date string parses as that date |
| DateParsing.AmbiguousExample | core/management/commands/import_csv.py:8-22 | 08/13/2025 gives 13 August 2025, and 01/02/2025 gives 1 February 2025 |
| DateParsing.ImpossibleDateExample | core/management/commands/import_csv.py:16-23 | `2025-02-30` fails every format |
| DateParsing.NoThirtiethOfFebruary | core/management/commands/import_csv.py:20 | `%Y-%m-%d` rejects the 30th of February |
| Amounts.PositiveMeansValuePositive | core/management/commands/import_csv.py:84 | `amt > 0` holds exactly when the coefficient is positive |
| Amounts.IsPositive | core/management/commands/import_csv.py:84 | `amt > 0`; `Amounts.PositiveMeansValuePositive` states it holds exactly for a positive value |
| Amounts.IndexOf | core/management/commands/import_csv.py:28 | the index found holds the character and is its first occurrence; no index means the character is absent |
| Amounts.ParseUnsigned | core/management/commands/import_csv.py:28 | an unsigned decimal literal reads as a non-negative coefficient; its value is stated by `Amounts.ParseUnsignedDigits` and `Amounts.ParseUnsignedPoint`, its domain by `Amounts.ParseUnsignedForm` |
| Amounts.ParseDecimal | core/management/commands/import_csv.py:28 | `Decimal()` rejects blank text; `Amounts.ParseDecimalPadded` states its value and `Amounts.ParseDecimalOnly` its domain |
| Amounts.ParseAmount | core/management/commands/import_csv.py:25-30 | `parse_amount` fails on text that is empty after stripping and removing commas; `Amounts.ParseAmountPadded` and `Amounts.ParseAmountInteger` state whitespace-insensitivity and the value of integers |
| Amounts.ParseUnsignedPoint | core/management/commands/import_csv.py:28 | `w.f` reads as the digits of `w` then `f`, with as many places as `f` has digits; either side may be empty, so `.5` reads as 5 at one place and `5.` as 5 at none |
| Amounts.ParseUnsignedDigits | core/management/commands/import_csv.py:28 | a literal without a point reads as its digits' value with no places |
| Amounts.ParseUnsignedForm | core/management/commands/import_csv.py:28 | an unsigned literal is accepted only if it is digits, or digits, one point and digits with at least one digit in all |
| Amounts.ParseDecimalTextSigned | core/management/commands/import_csv.py:28 | a `+` or no sign keeps the unsigned value and a `-` negates it |
| Amounts.ParseDecimalPadded | core/management/commands/import_csv.py:28 | `Decimal()` of an optional sign and an unsigned literal, with whitespace around, is that literal's value, negated for `-` |
| Amounts.ParseDecimalOnly | core/management/commands/import_csv.py:28 | `Decimal()` succeeds only on an optional sign followed by an accepted unsigned literal, after stripping |
| Amounts.ParseAmountPadded | core/management/commands/import_csv.py:25-26 | whitespace before and after the text does not change what `parse_amount` returns |
| Amounts.ParseAmountInteger | core/management/commands/import_csv.py:25-28 | `parse_amount` of an optional sign and ASCII digits, with whitespace around, is that integer with no places |
| Amounts.ParseAmountPlain | core/management/commands/import_csv.py:26-28 | for text with no comma and no surrounding whitespace, `parse_amount` is `Decimal()` |
| Amounts.ParseDecimalSigned | core/management/commands/import_csv.py:28 | a leading minus negates the coefficient, and its absence leaves it |
| Amounts.CentsDigits | core/views.py:146 | the whole part and two-digit fraction of a cent count read back as the count |
| Amounts.ParseCentsText | core/views.py:146 | the unsigned two-place text of n cents reads as n with two places |
| Amounts.FormatCentsShape | core/views.py:146 | a two-place amount is written without whitespace or commas |
| Amounts.ParseFormatCents | core/views.py:146 | every exported amount parses back through `parse_amount` to the same cents |
| Amounts.FormatCents | core/views.py:146 | how an amount of cents is written to the export; `Amounts.FormatCentsShape` and `Amounts.ParseFormatCents` state its shape and that it reads back |
| Amounts.IndexOfFirst | core/management/commands/import_csv.py:28 | a first occurrence at k is what the search finds |
| Amounts.ExampleCommas | core/management/commands/import_csv.py:26 | `1,234.56` strips to itself and loses its comma |
| Amounts.ThousandsExample | core/management/commands/import_csv.py:25-30 | `1,234.56` parses as 1234.56 |
| Amounts.InvalidAmountExamples | core/management/commands/import_csv.py:27-30 | empty, blank and non-numeric text fail to parse |
| Ledger.Where | core/views.py:55 | a filter keeps exactly the accepted elements, never more often than they occur |
| Ledger.WhereAppend | core/views.py:55 | filtering keeps order: the kept part of a concatenation is the kept part of the front followed by that of the back |
| Ledger.WhereCount | core/views.py:55 | each accepted element is kept exactly as often as it occurs, and every other element not at all |
| Ledger.WhereValidDates | core/models.py:38 | filtering keeps every date a calendar date |
| Listing.OwnedBy | core/views.py:28-29 | the owner scope keeps exactly the caller's rows |
| Listing.Stamped | core/views.py:25-26 | a create stamps the caller as owner and changes nothing else |
| Listing.StampedVisibleToCreatorOnly | core/views.py:25-29 | a stamped row is visible to its creator and to no other user |
| Listing.ListedBeforeOrder | core/models.py:43 | the `-date, -id` order is irreflexive and asymmetric, and not-listed-before is transitive |
| Listing.NewestFirst | core/models.py:43 | the `-date, -id` ordering of a list; `Listing.Insert` and `Listing.SortNewestFirst` keep it |
| Listing.Insert | core/views.py:44 | insertion into a newest-first list keeps it newest-first and adds exactly the new row |
| Listing.SortNewestFirst | core/views.py:44 | the default ordering is a newest-first permutation |
| Listing.Bound | core/views.py:54-57 | an absent bound is no bound, a valid ISO date is that date, and any other text is an error |
| Listing.ListTransactions | core/views.py:48-63 | the listing fails exactly on a bad bound; otherwise it is newest-first and drawn from the table |
| Listing.ListedIff | core/views.py:48-63 | a row is listed exactly when it is in the table, belongs to the caller, lies within the inclusive bounds and matches the category |
| Listing.BoundsInclusive | core/views.py:55-57 | `start` and `end` equal to the row's date both keep it |
| Listing.CategoryMatches | core/views.py:58-62 | an all-digit filter compares the category id and any other text the name without case; `Listing.CategoryFilterExamples` and `Listing.UncategorisedNeverMatches` state its cases |
| Listing.Selected | core/views.py:54-62 | the owner, date-bound and category filters together; `Listing.ListedIff` states that the listing keeps exactly the rows it selects |
| Listing.CategoryFilterExamples | core/views.py:58-62 | `7` matches category id 7, `rent` and `RENT` match the name Rent, and `8` does not match |
| Listing.UncategorisedNeverMatches | core/views.py:58-62 | a row whose category was deleted never matches a non-empty category filter |
| Listing.ExportFilename | core/views.py:129-133 | `transactions_`, the start bound, `_to_`, the end bound and `.csv` when both bounds are given, otherwise `transactions.csv` |
| Listing.ExportRow | core/views.py:143-150 | one field per header column: the ISO date, the two-place amount, the description, the category name (empty when absent) and the account |
| Listing.ExportRowReimports | core/views.py:143-146 | the exported date and amount parse back through the importer's parsers to the stored values |
| Listing.ListedValidDates | core/views.py:48-63 | listing keeps every date a calendar date |
| Listing.WriteLines | core/views.py:141-150 | the header, then one row per transaction in order |
| Listing.Export | core/views.py:121-151 | the export fails exactly when the listing does; otherwise it has the filename, the header and one row per listed transaction |
| Reports.MonthFields | core/views.py:79 | a month string reads as two integers exactly when it splits into two parts that `int()` accepts |
| Reports.MonthWindow | core/views.py:77-84 | the window exists exactly for two integers naming a month whose next month is representable; then it is [1st of month, 1st of next month), where December rolls to January, and start < next start |
| Reports.WindowIsCalendarMonth | core/views.py:82 | the half-open window holds exactly the dates of that calendar month |
| Reports.InWindow | core/views.py:82 | `date__gte=start, date__lt=next_start`; `Reports.WindowIsCalendarMonth` states it holds exactly for the dates of the month |
| Reports.MonthTextWindow | core/views.py:176-178 | `YYYY-MM` gives the window starting on the 1st, except December 9999, which gives none |
| Reports.MalformedMonthNoWindow | core/views.py:174-180 | a malformed month string or an out-of-range month gives no window |
| Reports.TotalAppend | core/views.py:87 | a sum over a concatenation is the sum of the two sums |
| Reports.Total | core/views.py:87-88 | the `Sum` aggregate of one part of each row, 0 for no rows; `Reports.TotalAppend` states it is additive |
| Reports.Income | core/views.py:87 | `amount__gt=0` summed; `Reports.IncomeIsIncomeParts` states it is the sum of the positive parts |
| Reports.Expense | core/views.py:88 | minus the `amount__lt=0` sum; `Reports.ExpenseIsExpenseParts` states it is the sum of the negative magnitudes |
| Reports.IncomeIsIncomeParts | core/views.py:87 | income is the sum of the positive parts |
| Reports.ExpenseIsExpenseParts | core/views.py:88 | expense is the sum of the magnitudes of the negative parts |
| Reports.PartsSplitAmounts | core/views.py:87-88 | positive parts minus negative parts is the net sum, and both are non-negative |
| Reports.TotalsIdentity | core/views.py:190-191 | income and expense are non-negative, and income minus expense is the net sum |
| Reports.OnlyExpenses | core/views.py:87-88 | without income rows, income is 0 and expense is minus the net sum |
| Reports.NoIncomeParts | core/views.py:87 | no positive amount means no positive part |
| Reports.Group | core/views.py:91 | a group holds exactly the rows with that key |
| Reports.TotalGroupStep | core/views.py:91 | a group total is built one row at a time |
| Reports.SumGroupsStep | core/views.py:91 | a sum over distinct group keys is built one row at a time |
| Reports.SumGroupsEmpty | core/views.py:91 | no rows give zero group totals |
| Reports.GroupsCover | core/views.py:91 | group totals over distinct keys that cover every row add up to the grand total |
| Reports.InsertDate | core/views.py:97 | insertion keeps a date list strictly ascending and adds exactly the new date |
| Reports.DistinctDates | core/views.py:94-97 | the days of the series are strictly ascending and are exactly the transactions' dates |
| Reports.AscendingDistinct | core/views.py:97 | a strictly ascending list has no repeats |
| Reports.Points | core/views.py:99-103 | one point per day |
| Reports.DatesValid | core/views.py:94 | the series days are calendar dates |
| Reports.Daily | core/views.py:94-103 | one entry per distinct date |
| Reports.PointsAt | core/views.py:99-103 | point i is that day's label, its positive sum and the magnitude of its negative sum |
| Reports.DailyEntry | core/views.py:94-103 | each entry carries the two-digit day, the day's income and the day's expense, both non-negative and never netted |
| Reports.DailyInDateOrder | core/views.py:97 | entries are in strictly ascending date order |
| Reports.PointsIncomeSum | core/views.py:95 | daily incomes add up to the grouped positive parts |
| Reports.PointsExpenseSum | core/views.py:96 | daily expenses add up to the grouped negative magnitudes |
| Reports.DailySumsToTotals | core/views.py:87-103 | daily incomes add up to total income, and daily expenses to total expense |
| Reports.DistinctKeysFacts | core/views.py:91 | the grouping keys are distinct, each row's key is among them, and each is some row's key |
| Reports.DistinctKeys | core/views.py:91 | the `values(...)` grouping keys, each listed at its last appearance; `Reports.DistinctKeysFacts` states they are distinct, cover every row and come from rows, and `Reports.DistinctKeysAppendRow` pins their order |
| Reports.DistinctKeysAppendRow | core/views.py:91 | appending a row moves its key behind all other keys and leaves the others in their order, so keys are listed by last appearance |
| Reports.DistinctKeysDistinct | core/views.py:91 | grouping keys are pairwise distinct |
| Reports.DistinctKeysCover | core/views.py:91 | every row's (name, color) key has a group |
| Reports.DistinctKeysFrom | core/views.py:91 | every group comes from some row |
| Reports.GroupTotals | core/views.py:91 | one total per key |
| Reports.ByCategory | core/views.py:91 | one entry per distinct (name, color) pair |
| Reports.GroupTotalsAt | core/views.py:91 | entry i is key i with its group's sum |
| Reports.GroupTotalsSum | core/views.py:91 | the entries add up to the sum over the grouped rows |
| Reports.ByCategoryFacts | core/views.py:91 | each entry's total is its group's net sum, its key occurs in the data and no other entry has it, and all entries add up to income minus expense |
| Reports.ByCategoryEntry | core/views.py:91 | each entry is its group's net sum under a key that occurs in the data and only once in the result |
| Reports.ByCategorySum | core/views.py:91 | the by-category totals add up to income minus expense |
| Reports.MinById | core/views.py:108 | the lowest-id budget is among the candidates and no candidate has a lower id |
| Reports.FirstBudget | core/views.py:108-109 | `.first()` is the caller's lowest-id budget whose month lies in the window, and none exists exactly when no such budget does |
| Reports.RoundHalfEven | core/views.py:199 | Python's `round` picks the nearest integer, and the even one on a tie |
| Reports.BudgetPct | core/views.py:199 | 0 for a non-positive limit; otherwise within 0..100, 100 once used reaches the limit, and otherwise within half a point of 100·used/limit |
| Reports.RoundedPctBounds | core/views.py:199 | rounding 100·used/limit lands at 100 or above once used reaches the limit, at or below 100 before that, and at 0 or above for non-negative use |
| Reports.PctExamples | core/views.py:199 | 150/100 gives 100, 50/200 gives 25, 1/8 gives 12 (a tie, rounded to even), 3/8 gives 38, and a zero limit gives 0 |
| Reports.InMonth | core/views.py:82 | the month filter keeps exactly the rows in the window, or every row without a window |
| Reports.MonthlySummaryOf | core/views.py:66-118 | the summary fails exactly when the listing does; income and expense are non-negative; a snapshot exists only for a window with a budget, and its `used` is the expense; without a window there is no snapshot and income is over the whole listing |
| Reports.MonthlySummaryConsistent | core/views.py:87-103 | the daily series adds up to the income and expense totals, and the by-category totals to their difference |
| Reports.MonthlySummaryContents | core/views.py:72-118 | a successful summary holds the income, expense, category totals and daily series of the listed rows cut to the month (all of them when the month does not parse); the snapshot exists exactly when the month parses and the user has a budget dated in it, and holds that budget's limit and the month's expense |
| Reports.CardsSummaryOf | core/views.py:162-207 | income and expense are non-negative; a budget card exists only for a window with a budget, with `used` equal to the expense and `pct` in 0..100, 100 once over the limit and 0 without a positive limit; without a window the income is over all of the caller's rows |
| Reports.CardsSummaryContents | core/views.py:171-207 | the balance is the sum over the user's accounts; income and expense are over the user's rows cut to the month (all of them when the month does not parse); the card exists exactly when the month parses and the user has a budget dated in it, and holds that budget's limit, the month's expense and the clamped percentage |
| Reports.BalanceTotal | core/views.py:182-184 | the `Sum('balance')` aggregate or 0; `Reports.CardsSummaryContents` states the card's balance is it over the user's accounts |
| Importer.AccountGetOrCreate | core/management/commands/import_csv.py:96-99 | the key is present afterwards, no other key is added, existing rows are untouched, and a new account gets the currency and a zero balance |
| Importer.CategoryGetOrCreate | core/management/commands/import_csv.py:100-102 | the key is present afterwards, no other key is added, existing rows are untouched, and a new category gets the default color |
| Importer.GetOrCreateIdempotent | core/management/commands/import_csv.py:96-102 | a second get-or-create of the same key changes nothing, the currency default applies only on creation, and an existing key does not grow the table |
| Importer.LastIndexOf | core/management/commands/import_csv.py:79 | the last header with the same raw name as header j |
| Importer.RowFromKeys | core/management/commands/import_csv.py:79 | the normalised row's keys are the stripped, lower-cased header names |
| Importer.RowFrom | core/management/commands/import_csv.py:79 | the dict comprehension over the first n columns; `Importer.RowFromKeys` and `Importer.RowFromValue` state its keys and values |
| Importer.NormalizedRowKeys | core/management/commands/import_csv.py:70-79 | the row's keys are the same set that the required-column comparison uses |
| Importer.NormalizedRow | core/management/commands/import_csv.py:79 | the normalised row; `Importer.NormalizedRowKeys` and `Importer.RowValue` state its keys and each unique column's value |
| Importer.HeaderSet | core/management/commands/import_csv.py:70 | the stripped, lower-cased header names; `Importer.MissingColumnAborts` and `Importer.ImportSpec` state the required-column check on it |
| Importer.UniqueKeyOther | core/management/commands/import_csv.py:79 | a header whose normalised name is unique differs from every other header after normalising |
| Importer.RowValue | core/management/commands/import_csv.py:79 | a column whose normalised name is unique maps to its stripped cell |
| Importer.UniqueKeyAfter | core/management/commands/import_csv.py:79 | no later header normalises to a unique header's key |
| Importer.RowFromValue | core/management/commands/import_csv.py:79 | later columns with other keys leave a column's value in place |
| Importer.FirstOfItsName | core/management/commands/import_csv.py:79 | a unique header has no earlier duplicate |
| Importer.LastOfItsName | core/management/commands/import_csv.py:79 | a unique header has no later duplicate |
| Importer.RowFromNew | core/management/commands/import_csv.py:79 | a new raw name enters the row with its last duplicate's stripped cell |
| Importer.RowFromOther | core/management/commands/import_csv.py:79 | a column under another key does not change a key's value |
| Importer.KindOf | core/management/commands/import_csv.py:89-93 | a case-insensitive INCOME or EXPENSE in the type column wins; otherwise INCOME exactly when the amount is positive |
| Importer.OrDefault | core/management/commands/import_csv.py:84-86 | `value or default` |
| Importer.PlanRowMeaning | core/management/commands/import_csv.py:79-93 | a row fails exactly when it has cells beyond the header or its date or amount fails to parse; otherwise it carries the parsed date and amount, the description, and the defaulted account `Wallet`, currency `USD` and category `Income`/`Uncategorized`, all non-empty, with the inferred type |
| Importer.PlanRow | core/management/commands/import_csv.py:79-93 | the parse and defaulting of one row; `Importer.PlanRowMeaning` states its error cases and every field of its plan |
| Importer.ZeroAmountIsExpense | core/management/commands/import_csv.py:84-93 | an amount of zero without a type is EXPENSE and falls into `Uncategorized` |
| Importer.TypeColumnIgnoresCase | core/management/commands/import_csv.py:89-91 | `income` gives INCOME and `Expense` gives EXPENSE, whatever the amount |
| Importer.Step | core/management/commands/import_csv.py:77-122 | a failed row leaves the tables alone; every row adds exactly one to created or errors; tables only gain keys |
| Importer.ImportSpec | core/management/commands/import_csv.py:55-74 | the import aborts exactly when the user is unknown or the header lacks `date` or `amount` |
| Importer.Planned | core/management/commands/import_csv.py:76-81 | no more planned rows than rows |
| Importer.Records | core/management/commands/import_csv.py:109-116 | one transaction per planned row |
| Importer.RecordOf | core/management/commands/import_csv.py:109-116 | the fields `Transaction.objects.create` receives; `Importer.RunTransactions` states the table gains exactly these records |
| Importer.RunCounts | core/management/commands/import_csv.py:104-121 | created plus errors grows by the row count, skipped equals errors, created counts the rows that parse, and the inserted transactions are those rows' records, or none on a dry run |
| Importer.Run | core/management/commands/import_csv.py:76-122 | the row loop as a fold; `Importer.RunCounts`, `Importer.RunTransactions` and `Importer.RunKeys` state its counters and tables |
| Importer.RunReport | core/management/commands/import_csv.py:106-121 | the counter half of the loop's accounting |
| Importer.RunTransactions | core/management/commands/import_csv.py:104-117 | the transaction table gains exactly the planned records, or nothing on a dry run |
| Importer.RecordsLast | core/management/commands/import_csv.py:109-116 | records of the plans extended by one are those of the prefix plus one |
| Importer.RunKeepsExisting | core/management/commands/import_csv.py:96-102 | existing accounts and categories are never modified |
| Importer.RunKeys | core/management/commands/import_csv.py:96-102 | the tables end with the old keys plus exactly the keys of the rows that parse |
| Importer.RunAccountKeys | core/management/commands/import_csv.py:96-99 | the account keys end as the old keys plus the planned `(owner, name)` keys |
| Importer.RunCategoryKeys | core/management/commands/import_csv.py:100-102 | the category keys end as the old keys plus the planned `(owner, name, type)` keys |
| Importer.PlannedLast | core/management/commands/import_csv.py:76-81 | planning the rows plus one more extends the plan by that row's plan when it parses |
| Importer.StepKeys | core/management/commands/import_csv.py:96-102 | a row that parses adds exactly its two keys |
| Importer.RunLast | core/management/commands/import_csv.py:76 | the run over the rows is the run over all but the last, followed by one step |
| Importer.StepOk | core/management/commands/import_csv.py:96-117 | a row that parses gets or creates both records, inserts its transaction unless dry, and counts as created |
| Importer.StepErr | core/management/commands/import_csv.py:119-121 | a row that fails changes no table and counts as an error and a skip |
| Importer.KeysAppend | core/management/commands/import_csv.py:96-102 | the keys of a longer plan add the new plan's keys |
| Importer.RunOverExisting | core/management/commands/import_csv.py:96-102 | when every key already exists, the account and category tables are left exactly as they were |
| Importer.ReimportSameAccountsAndCategories | core/management/commands/import_csv.py:96-102 | importing the same file again creates no account or category |
| Importer.DryRunTables | core/management/commands/import_csv.py:104-107 | a dry run inserts no transaction, yet leaves the same accounts, categories and counters as a real run |
| Importer.DryMatchesReal | core/management/commands/import_csv.py:104-117 | dry and real runs agree on accounts, categories and counters |
| Importer.StepIgnoresTransactions | core/management/commands/import_csv.py:96-107 | a step's effect on accounts, categories and counters does not depend on the transaction table or on the dry flag |
| Importer.FailedRecordChangesNoTable | core/management/commands/import_csv.py:80-81 | a row whose date or amount fails changes no table |
| Importer.MissingColumnAborts | core/management/commands/import_csv.py:72-74 | a header without `amount` aborts with the missing columns, `amount` among them |
| Importer.Store.constructor | core/models.py:10-43 | the store starts with the given users and empty tables |
| Importer.Store.GetOrCreateAccount | core/management/commands/import_csv.py:96-99 | the account table becomes the get-or-create of the old one, and `created` is true exactly for a new key |
| Importer.Store.GetOrCreateCategory | core/management/commands/import_csv.py:100-102 | the category table becomes the get-or-create of the old one, and `created` is true exactly for a new key |
| Importer.Store.CreateTransaction | core/management/commands/import_csv.py:109-116 | the transaction is appended and nothing else changes |
| Importer.Store.ImportRow | core/management/commands/import_csv.py:77-122 | one iteration moves the tables and counters exactly as one step of the fold |
| Importer.Store.ImportRows | core/management/commands/import_csv.py:64-122 | the loop leaves the tables and counters exactly as the fold from zero counters |
| Importer.Store.Import | core/management/commands/import_csv.py:49-122 | the command errors exactly when `ImportSpec` does, with the same error and untouched tables; otherwise it reports the fold's counters and leaves the fold's tables |
| Budgets.ItemsOf | core/serializers.py:48 | exactly the rows of one budget |
| Budgets.Without | core/serializers.py:48 | exactly the rows of the other budgets |
| Budgets.NewItems | core/serializers.py:38-39 | one item per input |
| Budgets.Inputs | core/serializers.py:26 | one input per item |
| Budgets.NewItemsAt | core/serializers.py:38-39 | item k has the next id plus k, the budget, and input k's category and limit |
| Budgets.NewItemsRoundTrip | core/serializers.py:38-39 | the created items carry exactly the supplied inputs in order, all under the budget |
| Budgets.NewItemsInputs | core/serializers.py:38-39 | the created items read back as the inputs |
| Budgets.NewItemsAllOf | core/serializers.py:38-39 | every created item belongs to the budget |
| Budgets.ItemsOfAppend | core/serializers.py:39 | appending rows appends their items |
| Budgets.ItemsOfWithout | core/serializers.py:48 | deleting a budget's items removes all of them and keeps every other budget's |
| Budgets.WithoutKeepsOthers | core/serializers.py:48 | deleting one budget's items keeps every other budget's items, in order |
| Budgets.ItemsOfSingle | core/serializers.py:39 | a single row is a budget's item exactly when it names that budget |
| Budgets.ItemsOfAbsent | core/serializers.py:37 | a budget with no rows has no items |
| Budgets.MonthAfter | core/serializers.py:44-45 | an unsupplied month keeps its value, and a changed month is one of the supplied values |
| Budgets.MonthLastWins | core/serializers.py:44-45 | the month written last is the one that stays |
| Budgets.TotalLimitAfter | core/serializers.py:44-45 | an unsupplied total limit keeps its value, and a changed limit is one of the supplied values |
| Budgets.TotalLimitLastWins | core/serializers.py:44-45 | the total limit written last is the one that stays |
| Budgets.AddKeepsUnique | core/models.py:49-50 | a new budget with the next id and an owner-month pair nobody holds keeps ids distinct and owner-month pairs unique |
| Budgets.UniqueMonths | core/models.py:49-50 | `unique_together = ('owner', 'month')` with distinct ids; `Budgets.AddKeepsUnique` and the `Database` methods keep it |
| Budgets.Taken | core/models.py:50 | another budget of the owner holds the month; `Budgets.Database.Create` and `Budgets.Database.SaveFields` fail exactly when it holds |
| Budgets.WithoutIncreasing | core/serializers.py:48 | deleting a budget's items keeps item ids increasing along the table |
| Budgets.Budget.constructor | core/models.py:45-48 | a budget holds its id, owner, month and total limit |
| Budgets.Budget.Assign | core/serializers.py:44-45 | each supplied field is written in turn: the month and limit become the last supplied values, or keep theirs |
| Budgets.Database.constructor | core/models.py:45-55 | empty budget and item tables |
| Budgets.Database.CreateItem | core/serializers.py:39 | one new item with the next id, appended |
| Budgets.Database.CreateItems | core/serializers.py:38-39 | the new items are appended in input order with consecutive ids |
| Budgets.Database.DeleteItemsOf | core/serializers.py:48 | the table loses exactly that budget's items |
| Budgets.Database.ReplaceItems | core/serializers.py:47-50 | the budget's items become exactly the inputs, in order, with new ids; no other budget's items change |
| Budgets.Database.SaveFields | core/serializers.py:44-46 | the save fails exactly when another budget of the owner already holds the resulting month, and then the row keeps its old values; otherwise the last supplied values are written; owner-month pairs stay unique |
| Budgets.Database.Create | core/serializers.py:35-40 | fails, writing nothing, exactly when the owner already has a budget for that month; otherwise a fresh budget with the given fields whose items are exactly the inputs in order, and no other budget's items change; ids stay distinct and owner-month pairs unique |
| Budgets.Database.Update | core/serializers.py:42-51 | fails before touching the items, leaving the row as it was, exactly when the resulting month is held by another budget of the owner; otherwise the last supplied value of each field is written and the others keep theirs, an empty item list leaves the items alone, and a non-empty one becomes exactly the budget's items with new ids; other budgets' items do not change; owner-month pairs stay unique |
| Budgets.AddedItems | core/serializers.py:37-39 | items added for a budget that had none are exactly the inputs, and no other budget's items change |
| Budgets.ReplacedItems | core/serializers.py:48-50 | after delete and recreate, the budget's items are exactly the inputs, and no other budget's items change |
| Budgets.NewItemsElsewhere | core/serializers.py:49-50 | the created items belong to no other budget |

## Left out

- The `dashboard` and `me` views, authentication, permissions, pagination and routing are not part of this model.
- Floats: the views convert totals to `float` for JSON. The model keeps exact cents, and computes `used/limit` by exact rational rounding, half to even as Python's `round` does.
- Reports.BudgetPct: does not model the float error of `(used / limit) * 100`. A float tie that lands just off .5 may round differently from the exact ratio.
- The order of `by_category`: the database returns groups in no defined order. The model lists them by each key's last appearance.
- File and CSV I/O:
  - opening the file and the `utf-8-sig` BOM;
  - `csv.DictReader` quoting, blank-line skipping and the delimiter option;
  - `csv.writer` quoting and the BOM written by `export`.

  The model takes rows as header names plus cell lists, and the export as lists of fields.
- Console output: the `[DRY]`, per-line error and summary messages are not modelled.
- `strptime` leniencies: one-digit day and month fields, and non-ASCII digits, are not accepted by the model. Each field has its fixed width (2, 2 or 4 ASCII digits).
- `Decimal` literals beyond an optional sign, ASCII digits and one decimal point (exponents, `NaN`, `Infinity`, underscores, non-ASCII digits) are not accepted by the model.
- Text.ParseInt: does not accept underscores or non-ASCII digits, which Python's `int()` allows.
- Listing.CategoryMatches: `str.isdigit` is modelled for ASCII digits only, and the case-insensitive name match folds ASCII letters only.
- Text.Lower: ASCII only; Python's `lower()` also maps non-ASCII letters.
- Text.Upper: ASCII only; Python's `upper()` also maps non-ASCII letters.
- Listing.Bound: Django also accepts some other date spellings for a `DateField` lookup. The model accepts only `YYYY-MM-DD`, and reports any other text as an error.
- Concurrency: the get-or-create race between simultaneous imports. Also, `Account.objects.get_or_create` raising `MultipleObjectsReturned` when duplicate accounts exist, since `Account` has no uniqueness constraint. The model keys accounts by `(owner, name)`, so it cannot hold duplicates.
- Column sizes: `max_length` limits and the 12-digit precision limit of the decimal columns are not modelled. Over-long values fail at the database in the source.
- The importer keeps the parsed `Decimal` exactly. The quantisation to two places on save is not modelled.
- A failed budget save: the model returns `null` from `Create` and `false` from `Update`. The `IntegrityError` and the error response it becomes are not modelled. The save fails before any item is written, so the model writes nothing in that case.
- Serializer validation: `owner` is read-only and stamped by `perform_create`. Unknown category ids and field type checks are left to DRF and are not modelled. Neither is the `category_name` read-only field.
- `seed_demo`, settings and URL routing are not part of this model.
