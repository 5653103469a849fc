# Budget engine and transaction ledger: a Dafny model

This project models the computational core of a personal-finance web service:

- the **budget engine** (`budgets/`): how a budget's spend, remainder, percentage used,
  status tier, days remaining and daily allowance are derived from the ledger; how
  budget input is validated; and the summary, category, recommendation, category-stats
  and mark-alert-read views;
- the **transaction ledger** (`transactions/`): the profile-balance side effect of saving
  a transaction, which the serializer's create applies a second time, and the summary,
  recent and time-series views.

Money is an integer number of cents. Percentages, daily allowances and averages are
exact rationals (`real`), and they are rounded (`Decimals.RoundHalfEven`) where the
source applies Python's `round` to a `Decimal`. The database becomes sequences:
`seq<Transaction>` for the ledger and `seq<Budget>` for budgets. Queries become filters,
sums and groupings over those sequences (`Aggregates`). The clock is a parameter `now`.

Dates follow Python's proleptic Gregorian ordinals (`Calendar`). These cover leap years,
month lengths, weekdays, the `%Y-W%W-%w` week parsing of `strptime`, and the truncations
to day, week and month.

Where the source mutates state, the model is imperative:

- `TransactionModels.Store` is a class holding the profile balances, the transaction
  table and the next primary key. Its `Save` and `Create` methods, and
  `TransactionSerializers.Create`, update it in place.
- `BudgetViews.AlertBoard` holds the alerts, and `MarkRead` flips one flag in place.
- The accumulation loops of `budget_summary`, `budget_recommendations` and
  `category_stats` are `while` loops. Each is proved equal to a specification function,
  and the lemmas beside each function state what the view promises.

Following the code rather than the documented reading:

- **Week window.** A weekly budget's range is `date__range=[week_start, week_end]` where
  both ends are `date` values. On a datetime column, Django compares against midnight of
  each bound. The window therefore runs from Monday 00:00 to Sunday 00:00 inclusive. A
  Sunday purchase even one microsecond after midnight is not counted, contrary to the reading
  "[week_start, week_start + 6]". `BudgetModels.WeeklyWindowMeaning` states the window
  as the code has it. The same holds for the end of the recommendations window: nothing
  after midnight today is included.
- **Time resolution.** A transaction's time is a date plus the microseconds since its
  midnight, the resolution of a datetime column, so the window edges above and the
  time-series cut `date__gte=now - timedelta(days)` compare to the microsecond.
- **Year range.** `date__year=year` turns the year into `datetime` bounds when the query
  runs, and that raises ValueError for a year outside 1..9999. `get_spent_amount` (and
  everything built on it) and `category_stats` fail that way. The week is parsed first,
  so its errors come first. Adding six days to the last parsable Monday of 9999 raises
  OverflowError.
- **Default year and month.** The views always pass an integer year and month. Because
  `get_spent_amount` uses `year or now.year`, a year or month of 0 falls back to the
  current one. `category_stats` filters its transactions with the literal year and month.

## Model

| member | source | states |
|---|---|---|
| Decimals.RoundHalfEven | budgets/serializers.py:45 | the result is the nearest integer to x, and a tie goes to the even neighbour (Python `round` on a Decimal) |
| Decimals.RoundingIsUnique | budgets/views.py:201-202 | at most one integer is the half-even rounding of a value |
| Decimals.RoundingMonotone | budgets/views.py:201-202 | rounding half-even preserves the order of its arguments |
| Decimals.RoundingBounds | budgets/views.py:120 | rounding a value that lies between two integers gives an integer between them |
| Calendar.DaysInMonth | budgets/models.py:113 | `calendar.monthrange(y, m)[1]` lies in 28..31, and February has 29 days exactly in Gregorian leap years |
| Calendar.WeekStartShape | budgets/models.py:63 | a week parsed by `%Y-W%W-%w` starts on a Monday; week w ≥ 1 starts 7(w−1) days after the year's first Monday; week 0 starts on the Monday on or before 1 January |
| Calendar.WeekStartErrors | budgets/models.py:63 | parsing fails, always with ValueError, exactly for a year that is not four digits, a week outside 0..53, or a Monday after 9999-12-31; week 0 always leaves room for its Sunday |
| Calendar.TruncWeek | transactions/views.py:84 | TruncWeek gives the Monday of the row's week, at most six days before it |
| Calendar.FirstMonday | budgets/models.py:63 | the year's first Monday is within seven days after 1 January |
| Calendar.MaxOrdinalIsLastDate | budgets/views.py:165 | the largest ordinal a Python date holds is that of 9999-12-31 |
| Sorting.SortBy | budgets/views.py:182 | the sort is a permutation of its input |
| Sorting.SortByCorrect | transactions/views.py:72 | for a total preorder, the sort is ordered, a permutation of the input and of the same length |
| Aggregates.Where | budgets/models.py:51-56 | a filter keeps exactly the rows that satisfy the predicate, and never more rows than it had |
| Aggregates.WhereCounts | budgets/models.py:51-56 | a filter keeps every row that satisfies the predicate as many times as it occurs, and no other row |
| Aggregates.WherePartition | transactions/views.py:40-48 | a filter and its complement split the rows: their totals add up to the total of all rows |
| Aggregates.Find | budgets/views.py:178-182 | the lookup of a group by its key within a `values('category').annotate(...)` grouping (also budgets/views.py:230-234 and transactions/views.py:50-60): it returns the group with that key, or reports that no group has it |
| Aggregates.AddToEffect | budgets/views.py:230-234 | adding a row to the groups adds its amount and one row to its key's group and to nothing else, and keeps the keys distinct |
| Aggregates.GroupByCorrect | budgets/views.py:230-234 | `values(key).annotate(Sum, Count)`: its group keys are distinct; each group holds the sum and count of its key's rows and has at least one row; the group totals sum to the total of all rows |
| Aggregates.GroupMember | budgets/views.py:178-182 | every grouped row carries the total and the count of its key |
| Aggregates.GroupKeys | transactions/views.py:50-60 | a key has a group exactly when some row carries it |
| Aggregates.KeyCountPositive | budgets/views.py:230-234 | a key's count is positive exactly when some row carries it |
| Aggregates.DistinctKeysPermutation | budgets/views.py:182 | reordering groups keeps their keys distinct |
| TransactionModels.Store.Save | transactions/models.py:23-34 | save raises before anything is written when the owner has no profile; otherwise it adds the amount to the owner's balance for income, subtracts it for expense and leaves it alone for any other type, changes no other profile, and inserts or overwrites the row by primary key |
| TransactionModels.Store.Create | transactions/models.py:23-34 | `objects.create` appends a row with a fresh key and applies one save adjustment to the owner's balance |
| TransactionModels.ResavedMovesByMultiple | transactions/models.py:23-34 | n saves of one row move the balance by n × amount (income), by −n × amount (expense), or not at all (any other type) |
| TransactionModels.UpsertKeepsKeys | transactions/models.py:34 | saving keeps primary keys unique; the saved row is present; every other row is kept |
| TransactionModels.IndexOfId | transactions/models.py:34 | a key lookup finds the row with that key, or reports that none exists |
| TransactionSerializers.Create | transactions/serializers.py:34-56 | create owns the row by the request user and ignores any supplied user; the date defaults to now; it returns the created row; it moves the owner's balance by +2 × amount for income, −2 × amount for expense and −amount for any other type; with no profile, it fails and changes nothing |
| TransactionViews.UserTransactions | transactions/views.py:20-26 | the queryset holds exactly the requesting user's rows |
| TransactionViews.OfKind | transactions/views.py:40-48 | the summary's filters keep exactly the user's rows of one type |
| TransactionViews.SummaryMeaning | transactions/views.py:40-67 | each type's total is the sum of that type's rows, 0 when there are none; its per-category groups have distinct categories; each group holds its category's sum; the groups add up to the type's total |
| TransactionViews.NewerFirstIsTotalPreorder | transactions/views.py:72 | newest-date-first is a total preorder |
| TransactionViews.RecentMeaning | transactions/views.py:69-74 | recent returns min(5, n) of the user's n rows, sorted newest first, drawn from the user's rows; every row left out is no newer than the last one returned |
| TransactionViews.PrefixFacts | transactions/views.py:72 | a prefix of a newest-first list is newest first, and every later row is no newer than its last |
| TransactionViews.Lookback | transactions/views.py:80-91 | `week` gives weekly buckets over 84 days; `day` gives daily buckets over 30 days; anything else gives monthly buckets over 360 days |
| TransactionViews.SeriesRows | transactions/views.py:94-100 | a series keeps exactly the user's rows of its type at or after now minus the lookback |
| TransactionViews.SeriesMeaning | transactions/views.py:96-116 | a series has strictly ascending buckets, one for each bucket holding a row; each bucket totals exactly its rows; the buckets add up to the total of the series rows |
| TransactionViews.BucketMeaning | transactions/views.py:83-91 | a week bucket is the Monday of the row's week; a day bucket is its day; a month bucket is the first of its month |
| TransactionViews.SortKeepsTotals | transactions/views.py:105 | ordering the buckets keeps the sum of their totals |
| TransactionViews.InsertAddsTotal | transactions/views.py:105 | inserting a bucket into an ordered list adds its total to the sum |
| BudgetModels.SpentAmount | budgets/models.py:41-72 | spent sums exactly the rows with the budget's user, exact category, type expense and target year, plus the target month (monthly) or the parsed week (weekly with a week); it fails with ValueError for a target year outside 1..9999 (the `date__year` bounds), and for a weekly budget with a week exactly when the week's bounds fail, with their error |
| BudgetModels.WeekRangeErrors | budgets/models.py:63-65 | the week's bounds fail with ValueError exactly when strptime rejects the year or week or the Monday is past 9999-12-31, and with OverflowError exactly when the Monday is representable but the Sunday six days later is not; otherwise they run from the Monday's midnight to the Sunday's |
| BudgetModels.LastWeeksOf9999 | budgets/models.py:63-64 | week 52 of 9999 parses to Monday 9999-12-27 and then overflows adding six days; week 53 does not parse |
| BudgetModels.SpentOfRow | budgets/models.py:51-56 | a single row contributes its amount exactly when it passes the filter |
| BudgetModels.SpentSplit | budgets/models.py:70-72 | spent over two concatenated ledgers is the sum of the two spends |
| BudgetModels.SpentNoMatch | budgets/models.py:70-72 | no matching row gives 0, never an absent value |
| BudgetModels.SpentNonNegative | budgets/models.py:70-72 | non-negative amounts give a non-negative spend |
| BudgetModels.SpentIgnoresOtherFields | budgets/models.py:51-56 | spent depends only on the budget's user and category within a window, not on its amount or active flag |
| BudgetModels.WeeklyWithoutWeekIsYearSum | budgets/models.py:58-68 | a weekly budget asked without a week sums the whole target year, as a yearly budget does |
| BudgetModels.WeeklyWindowMeaning | budgets/models.py:60-65 | with a week, a weekly budget counts target-year expenses from Monday 00:00 to the following Sunday 00:00 inclusive |
| BudgetModels.MonthlyWindowMeaning | budgets/models.py:47-59 | for a target year in 1..9999, a monthly budget counts exactly the target year and month, each falling back to now's when 0 |
| BudgetModels.RemainingAmount | budgets/models.py:74-77 | remaining + spent == amount exactly, and remaining may be negative |
| BudgetModels.Percentage | budgets/models.py:79-84 | the percentage is 0 for a zero amount; it never exceeds 100; it equals 100 exactly when spent ≥ amount; below that it is 100·spent/amount; it is ≥ 0 for non-negative inputs |
| BudgetModels.RatioFacts | budgets/models.py:84 | the uncapped ratio 100·spent/amount reaches 100 exactly when spent ≥ amount |
| BudgetModels.PercentAtLeast | budgets/models.py:90-95 | a percentage 100·spent/amount reaches c exactly when 100·spent ≥ c·amount |
| BudgetModels.PercentageUsed | budgets/models.py:79-84 | get_percentage_used is defined exactly when spent is; it is at most 100 and non-negative for a positive amount and non-negative spend |
| BudgetModels.StatusInCents | budgets/models.py:86-97 | on the unrounded percentage: over iff spent ≥ amount; warning iff 80% ≤ spent < 100%; caution iff 60% ≤ spent < 80%; good below 60% |
| BudgetModels.StatusMonotone | budgets/models.py:86-97 | more spending never gives a better status |
| BudgetModels.GetStatus | budgets/models.py:86-97 | get_status is the tier of get_percentage_used, and good for a zero amount |
| BudgetModels.IsOverBudget | budgets/models.py:99-101 | is_over_budget holds iff spent > amount and then implies status over; spent == amount gives over but not is_over_budget |
| BudgetModels.ZeroAmountDisagrees | budgets/models.py:82-83 | a zero amount with positive spend reads as status good and yet as over budget |
| BudgetModels.DaysRemaining | budgets/models.py:103-117 | is None unless monthly; fails for a month outside 1..12; for another month it is that month's length; for the current month it is last day − today + 1 ≥ 1 |
| BudgetModels.DailyBudgetRemaining | budgets/models.py:119-130 | is None unless monthly; for a monthly budget it fails exactly when the target year is outside 1..9999 (ValueError, from the remaining amount computed first) or the month is illegal; it is 0 when no day is left or remaining ≤ 0; otherwise remaining/days, which is positive |
| BudgetSerializers.ValidateAmount | budgets/serializers.py:74-79 | accepts exactly 0 < value ≤ 1,000,000.00, with the source's two messages |
| BudgetSerializers.LeadFrom | budgets/serializers.py:84 | skips exactly the run of whitespace from a position, stopping at the end or at a non-whitespace character |
| BudgetSerializers.TrailTo | budgets/serializers.py:84 | backs up over exactly the run of whitespace before a position, stopping at the start or after a non-whitespace character |
| BudgetSerializers.Strip | budgets/serializers.py:82-84 | `str.strip` removes exactly the leading and trailing Python whitespace and keeps the middle; the result is empty exactly when the input is empty or all whitespace |
| BudgetSerializers.StripIdempotent | budgets/serializers.py:84 | stripping twice is stripping once |
| BudgetSerializers.ValidateCategory | budgets/serializers.py:81-84 | rejects empty or whitespace-only input with "Category is required", and otherwise returns the stripped value |
| BudgetSerializers.ValidateCategoryIdempotent | budgets/serializers.py:81-84 | validating an accepted category again gives the same value |
| BudgetSerializers.AnyClash | budgets/serializers.py:93-97 | the existence check holds exactly when some other budget of the user has the same category and period |
| BudgetSerializers.Validate | budgets/serializers.py:86-102 | validate rejects exactly when another budget of the user has the same category and period (the instance excluded on update), with the source's message on `category`; otherwise it returns the data unchanged |
| BudgetSerializers.ValidateIgnoresActive | budgets/serializers.py:93 | the duplicate check gives the same answer whatever the other budgets' active flags |
| BudgetSerializers.ValidateDefaultsToMonthly | budgets/serializers.py:90 | with no period given, the check is the one for monthly |
| BudgetSerializers.Create | budgets/serializers.py:104-106 | the created budget is owned by the requesting user and carries the validated fields, monthly and active by default |
| BudgetSerializers.ValidatedCreateKeepsUnique | budgets/serializers.py:86-106 | creating after a passing validate keeps (user, category, period) unique |
| BudgetSerializers.UpdateMeaning | budgets/views.py:38 | an update changes exactly the fields the request carries, keeps the id and owner, leaves an omitted period as it was, and repeating it changes nothing more |
| BudgetSerializers.UpdateWithoutPeriodBreaksUnique | budgets/serializers.py:89-97 | a PATCH that renames a weekly budget onto another weekly budget's category without a period passes validate and then duplicates (user, category, weekly) |
| BudgetSerializers.UpdateWithoutCategoryBreaksUnique | budgets/serializers.py:89-97 | a PATCH that sends only a period passes validate (the lookup by a missing category matches nothing) and then duplicates (user, category, period) |
| BudgetSerializers.ValidateUpdate | budgets/serializers.py:86-102 | the corrected update check rejects exactly when another budget has the owner, category and period the row will hold after the update |
| BudgetSerializers.ValidateUpdateAgrees | budgets/serializers.py:86-102 | when the request carries both category and period, the corrected check and validate as written give the same answer |
| BudgetSerializers.ValidatedUpdateKeepsUnique | budgets/serializers.py:86-102 | an update that passes the corrected check keeps (user, category, period) unique, whichever fields the request omits |
| BudgetSerializers.SerializedPercentage | budgets/serializers.py:40-45 | the serialized percentage is the half-even rounding to tenths of get_percentage_used, between 0 and 100 |
| BudgetSerializers.DisplayedEightyCanBeCaution | budgets/serializers.py:40-52 | a budget of $100.00 with $79.99 spent displays 80.0% and has status caution |
| BudgetSerializers.SerializedDaily | budgets/serializers.py:67-72 | a daily allowance of 0 serializes as None, like the non-monthly None; any other value is kept |
| BudgetViews.Selected | budgets/views.py:68 | the summary covers exactly the user's active budgets of the requested period |
| BudgetViews.SelectedCounts | budgets/views.py:68-116 | each of the user's active budgets of the requested period is selected exactly as often as it occurs, and no other budget is, so `total_budgets` and the average's divisor count the matching budgets |
| BudgetViews.TallyMeaning | budgets/views.py:87-111 | the loop fails exactly when some budget's spend fails; otherwise over + warning + on track == number of budgets, with caution counted as warning; remaining total == amount total − spent total; each counter counts its statuses |
| BudgetViews.TallyPercentBounds | budgets/views.py:98-104 | the percentage sum lies between 0 and 100 × the number of budgets |
| BudgetViews.Accumulate | budgets/views.py:87-111 | the accumulation loop computes the tally of the selected budgets in order |
| BudgetViews.BudgetSummary | budgets/views.py:57-131 | the view answers as its specification does |
| BudgetViews.SummaryWhenEmpty | budgets/views.py:70-84 | with no active budget for the period, every total and count is 0 |
| BudgetViews.SummaryCounts | budgets/views.py:106-116 | the three counters partition total_budgets, and total_remaining == total_budget_amount − total_spent |
| BudgetViews.SummaryAverage | budgets/views.py:113-120 | average_percentage_used is the mean of the percentages, rounded half-even to tenths; it lies within [0, 100] when every amount is non-negative |
| BudgetViews.MeanBounds | budgets/views.py:113 | a mean of values in [0, 100] lies in [0, 100] |
| BudgetViews.ExpenseCategories | budgets/views.py:141-144 | exactly the categories of the user's expense rows, with repetitions, in ledger order (before `distinct()` and `order_by`) |
| BudgetViews.NonBlank | budgets/views.py:147 | keeps exactly the categories that are not empty or whitespace only |
| BudgetViews.BudgetCategoriesMeaning | budgets/views.py:136-153 | budget_categories lists each non-blank expense category of the user once, in order; with none, it is the fixed nine-item default list |
| BudgetViews.StrLeIsTotalPreorder | budgets/views.py:144 | the category order is a total preorder |
| BudgetViews.SortedCategories | budgets/views.py:144 | after `distinct()` and `order_by('category')` the categories are strictly increasing in code-point order, so each appears once, and they are exactly the user's expense categories |
| BudgetViews.ByTotalDescendingIsTotalPreorder | budgets/views.py:182 | largest-total-first is a total preorder |
| BudgetViews.RankedGroupsMeaning | budgets/views.py:178-182 | the grouped rows are largest total first and have distinct categories; each holds its category's sum and count (≥ 1); there is a group exactly for each category present |
| BudgetViews.ConfidenceOf | budgets/views.py:197 | high iff count ≥ 10, medium iff 5 ≤ count < 10, low iff count < 5 |
| BudgetViews.RecommendFor | budgets/views.py:185-207 | average = total/months and recommended = total·1.1/months, each rounded half-even to cents; fields copied; zero months raises (DivisionByZero, or InvalidOperation for 0/0) |
| BudgetViews.RecommendedCoversAverage | budgets/views.py:191-202 | for non-negative spend over positive months, the recommendation is never below the average |
| BudgetViews.RecommendAll | budgets/views.py:184-207 | one recommendation per group, in order, or the first error, which occurs only for zero months |
| BudgetViews.RecommendEach | budgets/views.py:184-207 | the loop computes RecommendAll |
| BudgetViews.Recommendations | budgets/views.py:156-210 | the view answers as its specification does |
| BudgetViews.RecommendationsOn | budgets/views.py:160-210 | once today's ordinal is known, the view's body answers as its specification does |
| BudgetViews.RankedRecommendations | budgets/views.py:178-207 | over matching rows, recommending fails exactly for zero months; otherwise it gives one recommendation per category present, largest total first, with that category's total and count |
| BudgetViews.RecommendedGroups | budgets/views.py:184-207 | each recommendation carries its group's figures, and a category is recommended exactly when it has rows |
| BudgetViews.RecommendationsCases | budgets/views.py:160-175 | with the lookback start in range, no matching expense gives an empty list; otherwise the ranked recommendations of the matching rows |
| BudgetViews.NegativeMonthsRecommendNothing | budgets/views.py:165-175 | a negative month count puts the start after the end, so the list is empty |
| BudgetViews.BudgetFor | budgets/views.py:237-246 | the budgets dict maps a category to the last active monthly budget of the user with it, and to nothing when there is none |
| BudgetViews.StatFor | budgets/views.py:244-258 | has_budget holds iff an active monthly budget with that exact category exists; then amount and status are present; the average × count is the total |
| BudgetViews.StatsFor | budgets/views.py:243-260 | one stat per group, in order |
| BudgetViews.CategoryStatsOf | budgets/views.py:218-226 | the answer fails, with ValueError, exactly when the literal year is outside 1..9999, 0 included |
| BudgetViews.CategoryStats | budgets/views.py:213-263 | the view builds the stats the specification gives |
| BudgetViews.StatsLoop | budgets/views.py:243-260 | the loop appends one stat per spend group, in order |
| BudgetViews.StatOf | budgets/views.py:244-258 | one group's stat joins the budget of its category when there is one |
| BudgetViews.RankedMember | budgets/views.py:225-234 | each ranked group's total and count are those of the rows in its category, with at least one row |
| BudgetViews.SpentIsGroupTotal | budgets/views.py:222-258 | a monthly budget's spend over the month equals its category's group total |
| BudgetViews.StatStatusAgrees | budgets/views.py:256-258 | for a year in 1..9999 and a non-zero month, the budget status shown is the tier of the category's spend against the budget amount |
| BudgetViews.CategoryStatsOrder | budgets/views.py:234 | a successful answer lists its stats largest total first, categories distinct |
| BudgetViews.CategoryStatsFigures | budgets/views.py:222-252 | each stat's total and count are those of the month's expenses in its category |
| BudgetViews.FindOwned | budgets/views.py:282-285 | the lookup finds the alert with that id whose budget belongs to the caller, or reports none |
| BudgetViews.MarkedReadMeaning | budgets/views.py:281-293 | marking read sets is_read on exactly the caller's alert with that id and changes nothing else; otherwise it is not found |
| BudgetViews.MarkedReadIdempotent | budgets/views.py:281-293 | marking the same alert read twice is marking it once |
| BudgetViews.AlertBoard.MarkRead | budgets/views.py:277-293 | the in-place update sets the flag and reports success, or reports not found and leaves the board unchanged |

## Findings

| source | as written | input that shows it | evidently intended | confidence | as-written member | corrected member |
|---|---|---|---|---|---|---|
| budgets/serializers.py:89-90 | on an update, the duplicate check uses the request's category and period (a missing period read as monthly, a missing category matching nothing), while the update keeps the instance's values for omitted fields, so the saved row can duplicate another and the database's unique_together constraint answers with an IntegrityError instead of a validation error | PATCH budget 2 (user 7, "Rent", weekly) with only `category="Food"` while budget 1 is (user 7, "Food", weekly); or PATCH budget 2 (user 7, "Food", monthly) with only `period="weekly"` | check the category and period the row will hold after the update | high, not executed | BudgetSerializers.UpdateWithoutPeriodBreaksUnique, BudgetSerializers.UpdateWithoutCategoryBreaksUnique | BudgetSerializers.ValidateUpdate, BudgetSerializers.ValidatedUpdateKeepsUnique |

## Left out

- The database, HTTP and serializers' response framing: querysets are sequences, views return values, and a not-found answer becomes `Err(NotFound)`.
- Clocks: `timezone.now` and `datetime.now` are the parameter `now`. Time zones are not modelled; all times are UTC.
- `float(...)` conversions in the serializer getters: the model keeps the exact Decimal values.
- Parsing query strings with `int(...)`: the model receives the year and month as integers. The week is never passed through `int`: the source puts the raw string into `f"{target_year}-W{week}-1"`. The model takes the week as the integer its canonical decimal string denotes. A missing week and an empty week string are both `None`.
- BudgetModels.SpentAmount: does not model the ValueError that `strptime` raises for a week string that is not canonical decimal (such as "007", " 5", "+5" or "abc"), because the week is an integer here. The model reads "007" as week 7, where the source fails.
- Calendar.WeekStartErrors: states the strptime failures for an integer week only; a non-numeric or non-canonical week string, which `%W` rejects with ValueError, cannot be expressed.
- `Decimal`'s 28-digit context: rationals stand in for it. Recommendations double-round as the source does, first in the division and then in `round`; the model rounds the exact quotient once.
- `max_digits=10` column limits and the model-field validators on `Budget.amount`: `ValidateAmount` states the bound the serializer enforces.
- BudgetSerializers.ValidateCategory: does not model the `CharField` that DRF generates for `Budget.category` (budgets/models.py:23), which runs before `validate_category`. That field rejects a category longer than 100 characters after trimming (`max_length=100`), and the model accepts and `Create` stores it. It rejects a blank category with "This field may not be blank." (`allow_blank=False` after `trim_whitespace`) before the method's "Category is required" is reached. It also rejects a category containing a null character.
- Response serializers' `DecimalField(max_digits=10, decimal_places=2)` (budgets/serializers.py:112-114, 150-152, 161-165), used by the summary, recommendations and category statistics responses, are not modelled. They quantize every money figure to cents on output, including `average_transaction`, which `CategoryStat.averageTransaction` keeps exact. They also raise InvalidOperation for a figure of 10^8 or more, such as a large summary `total_spent`. The model's figures are the exact values before serialization. The empty summary (budgets/views.py:70-84) is returned without the serializer.
- The description field, search and ordering filters, pagination and `created_at` ordering.
- Database collation: category ordering is by code point.
- Row order the database leaves unspecified: `values().annotate()` without `order_by` is modelled as first-appearance order of the keys, and ties under `order_by('-total')` and `order_by('-date')` keep that order (the sort is stable). The ordering lemmas hold for any tie order; which of two tied rows comes first, and so which rows `recent`'s `[:5]` keeps on a tie, is not modelled.
- Concurrent updates and lost-update races on the profile balance.
- Database constraint enforcement: the modelled tables do not reject a row that breaks unique_together (the database raises IntegrityError); `UniqueTogether` and the lemmas about it state whether an operation keeps it.
- get_username: a lookup of the owner's name in the users table, which is not part of this model. `TransactionSerializers.Create` states the owner of the row.
- perform_create (transactions/views.py:28-30) is folded into `TransactionSerializers.Create`, which takes the request user as its owner.
