/** budgets/models.py: a Budget and the values derived from it and the ledger. Each
    Budget method is a function of the budget, the ledger, the query parameters
    (year, month, week) and the current date and time `now`. */
module BudgetModels {
  import opened Outcomes
  import opened Calendar
  import opened TransactionModels

  datatype Period = Weekly | Monthly | Yearly

  function PeriodName(p: Period): string {
    match p
    case Weekly => "weekly"
    case Monthly => "monthly"
    case Yearly => "yearly"
  }

  datatype Status = Good | Caution | Warning | Over

  /** A budget row; amount is in cents. */
  datatype Budget = Budget(
    id: nat, user: UserId, category: string, amount: int, period: Period, isActive: bool)

  /** Meta.unique_together = ['user', 'category', 'period']: no two rows share the triple,
      whatever their is_active. */
  predicate UniqueTogether(bs: seq<Budget>) {
    forall i, j :: 0 <= i < j < |bs| ==>
      !(bs[i].user == bs[j].user && bs[i].category == bs[j].category && bs[i].period == bs[j].period)
  }

  /** The year, month and week arguments; 0 stands for an argument that is absent
      (`year or now.year` treats None and 0 alike), and week is the query string as a
      number, None when it is absent or empty. */
  datatype Query = Query(year: int, month: int, week: Option<int>)

  /** Python's `x or fallback` on an integer. */
  function Or(x: int, fallback: int): int {
    if x == 0 then fallback else x
  }

  /** An inclusive range of moments: date__range with two `date` bounds. */
  datatype Range = Range(lo: Moment, hi: Moment)

  /** The transaction dates a budget query admits: a year, optionally a month and
      optionally a range of moments. */
  datatype Window = Window(year: int, month: Option<int>, range: Option<Range>)

  /** date__year=year builds its bounds with datetime(year, 1, 1) when the query runs,
      which raises ValueError for a year outside MinYear..MaxYear. */
  function YearLookup(w: Window): Result<Window> {
    if MinYear <= w.year <= MaxYear then Ok(w) else Err(ValueError)
  }

  /** The bounds of a week: strptime's Monday, then week_start + timedelta(days=6),
      which raises OverflowError when that Sunday would fall after 9999-12-31. The
      ends are the midnights of the Monday and of the Sunday, because a `date`
      compared with a datetime column means midnight of that date. */
  function WeekRange(year: int, week: int): Result<Range> {
    match WeekStart(year, week)
    case Err(e) => Err(e)
    case Ok(start) =>
      if start + 6 > MaxOrdinal then Err(OverflowError)
      else Ok(Range(Midnight(start), Midnight(start + 6)))
  }

  /** Week 52 of 9999 parses (its Monday is 9999-12-27), but its Sunday cannot be
      represented, so the addition of six days overflows; week 53 does not parse. */
  lemma LastWeeksOf9999()
    ensures WeekStart(9999, 52) == Ok(Ordinal(9999, 12, 27))
    ensures WeekRange(9999, 52) == Err(OverflowError)
    ensures WeekRange(9999, 53) == Err(ValueError)
  {
    MaxOrdinalIsLastDate();
  }

  /** The failures of a week's bounds: ValueError exactly when strptime rejects the
      year or the week or the Monday is past 9999-12-31; OverflowError exactly when the
      Monday is representable and the Sunday is not, which week 0 never is. */
  lemma WeekRangeErrors(year: int, week: int)
    ensures WeekRange(year, week) == Err(ValueError) <==>
      !(1000 <= year <= 9999 && 0 <= week <= 53) || (week >= 1 && FirstMonday(year) + 7 * (week - 1) > MaxOrdinal)
    ensures WeekRange(year, week) == Err(OverflowError) <==>
      && 1000 <= year <= 9999 && 1 <= week <= 53
      && FirstMonday(year) + 7 * (week - 1) <= MaxOrdinal < FirstMonday(year) + 7 * (week - 1) + 6
    ensures WeekRange(year, week).Ok? ==>
      var start := WeekStart(year, week).value;
      && Weekday(start) == Monday
      && WeekRange(year, week).value == Range(Midnight(start), Midnight(start + 6))
  {
    WeekStartErrors(year, week);
    if WeekStart(year, week).Ok? {
      WeekStartShape(year, week);
    }
  }

  /** The date filter get_spent_amount builds. The year filter always applies; monthly
      adds the month; weekly adds the week's range only when a week is given (the `and
      week` guard), otherwise it stays a whole-year filter like yearly. The week is
      resolved before the query runs, so its errors come first. */
  function ResolveWindow(p: Period, q: Query, now: DateTime): Result<Window> {
    var year := Or(q.year, now.date.year);
    var month := Or(q.month, now.date.month);
    match p
    case Monthly => YearLookup(Window(year, Some(month), None))
    case Weekly =>
      if q.week.Some? then
        match WeekRange(year, q.week.value)
        case Ok(range) => YearLookup(Window(year, None, Some(range)))
        case Err(e) => Err(e)
      else YearLookup(Window(year, None, None))
    case Yearly => YearLookup(Window(year, None, None))
  }

  predicate InWindow(w: Window, t: DateTime) {
    && t.date.year == w.year
    && (w.month.None? || t.date.month == w.month.value)
    && (w.range.None? || (MomentLe(w.range.value.lo, MomentOf(t)) && MomentLe(MomentOf(t), w.range.value.hi)))
  }

  /** The filter of get_spent_amount: the budget's user, exactly its category, type
      expense, and a date in the window. */
  predicate Counts(b: Budget, w: Window, t: Transaction) {
    t.user == b.user && t.category == b.category && t.kind == Expense && InWindow(w, t.date)
  }

  /** Sum('amount') over the rows that Counts admits, 0 when there are none. */
  function Spent(b: Budget, ledger: seq<Transaction>, w: Window): int {
    if |ledger| == 0 then 0
    else
      var t := ledger[|ledger| - 1];
      Spent(b, ledger[..|ledger| - 1], w) + (if Counts(b, w, t) then t.amount else 0)
  }

  /** Spent is determined row by row: a single row contributes its amount exactly when
      it passes the filter, and the spend of a concatenation is the sum of the spends. */
  lemma {:induction false} SpentSplit(b: Budget, l1: seq<Transaction>, l2: seq<Transaction>, w: Window)
    ensures Spent(b, l1 + l2, w) == Spent(b, l1, w) + Spent(b, l2, w)
    decreases |l2|
  {
    if |l2| == 0 {
      assert l1 + l2 == l1;
    } else {
      assert (l1 + l2)[..|l1 + l2| - 1] == l1 + l2[..|l2| - 1];
      assert (l1 + l2)[|l1 + l2| - 1] == l2[|l2| - 1];
      SpentSplit(b, l1, l2[..|l2| - 1], w);
    }
  }

  lemma SpentOfRow(b: Budget, t: Transaction, w: Window)
    ensures Spent(b, [t], w) == if Counts(b, w, t) then t.amount else 0
  {
    assert [t][..0] == [];
  }

  /** No matching row gives 0, never a missing value. */
  lemma {:induction false} SpentNoMatch(b: Budget, ledger: seq<Transaction>, w: Window)
    requires forall t :: t in ledger ==> !Counts(b, w, t)
    ensures Spent(b, ledger, w) == 0
  {
    if |ledger| > 0 {
      assert ledger[|ledger| - 1] in ledger;
      SpentNoMatch(b, ledger[..|ledger| - 1], w);
    }
  }

  lemma {:induction false} SpentNonNegative(b: Budget, ledger: seq<Transaction>, w: Window)
    requires forall t :: t in ledger ==> t.amount >= 0
    ensures Spent(b, ledger, w) >= 0
  {
    if |ledger| > 0 {
      assert ledger[|ledger| - 1] in ledger;
      SpentNonNegative(b, ledger[..|ledger| - 1], w);
    }
  }

  /** Spent looks only at the budget's user and category: neither the period nor the
      amount nor is_active affects it. */
  lemma {:induction false} SpentIgnoresOtherFields(b: Budget, b': Budget, ledger: seq<Transaction>, w: Window)
    requires b.user == b'.user && b.category == b'.category
    ensures Spent(b, ledger, w) == Spent(b', ledger, w)
  {
    if |ledger| > 0 {
      SpentIgnoresOtherFields(b, b', ledger[..|ledger| - 1], w);
    }
  }

  /** get_spent_amount(year, month, week). */
  function SpentAmount(b: Budget, ledger: seq<Transaction>, q: Query, now: DateTime): (r: Result<int>)
    ensures r.Err? <==>
      || !(MinYear <= Or(q.year, now.date.year) <= MaxYear)
      || (b.period == Weekly && q.week.Some? && WeekRange(Or(q.year, now.date.year), q.week.value).Err?)
    ensures r.Err? && b.period == Weekly && q.week.Some? && WeekRange(Or(q.year, now.date.year), q.week.value).Err? ==>
      r.error == WeekRange(Or(q.year, now.date.year), q.week.value).error
    ensures r.Err? && !(b.period == Weekly && q.week.Some?) ==> r.error == ValueError
    ensures r.Ok? ==> ResolveWindow(b.period, q, now).Ok? && r.value == Spent(b, ledger, ResolveWindow(b.period, q, now).value)
  {
    match ResolveWindow(b.period, q, now)
    case Ok(w) => Ok(Spent(b, ledger, w))
    case Err(e) => Err(e)
  }

  /** A weekly budget asked without a week sums the whole target year, as a yearly one does. */
  lemma WeeklyWithoutWeekIsYearSum(b: Budget, ledger: seq<Transaction>, q: Query, now: DateTime)
    requires b.period == Weekly && q.week.None?
    ensures SpentAmount(b, ledger, q, now) == SpentAmount(b.(period := Yearly), ledger, q, now)
  {
    var w := Window(Or(q.year, now.date.year), None, None);
    SpentIgnoresOtherFields(b, b.(period := Yearly), ledger, w);
  }

  /** With a week, a weekly budget counts the target year's expenses from Monday 00:00
      through Sunday 00:00:00.000000 of that week; a Sunday expense even one microsecond
      after midnight is not counted. */
  lemma WeeklyWindowMeaning(b: Budget, q: Query, now: DateTime, t: Transaction)
    requires b.period == Weekly && q.week.Some?
    requires WeekRange(Or(q.year, now.date.year), q.week.value).Ok?
    ensures var start := WeekStart(Or(q.year, now.date.year), q.week.value).value;
      Counts(b, ResolveWindow(b.period, q, now).value, t) <==>
        && t.user == b.user && t.category == b.category && t.kind == Expense
        && t.date.date.year == Or(q.year, now.date.year)
        && start <= DayOrdinal(t.date.date) <= start + 6
        && (DayOrdinal(t.date.date) == start + 6 ==> t.date.micro <= 0)
        && (DayOrdinal(t.date.date) == start ==> t.date.micro >= 0)
  {
  }

  /** The monthly filter admits exactly the target year and month. */
  lemma MonthlyWindowMeaning(b: Budget, q: Query, now: DateTime, t: Transaction)
    requires b.period == Monthly && MinYear <= Or(q.year, now.date.year) <= MaxYear
    ensures Counts(b, ResolveWindow(b.period, q, now).value, t) <==>
      && t.user == b.user && t.category == b.category && t.kind == Expense
      && t.date.date.year == Or(q.year, now.date.year)
      && t.date.date.month == Or(q.month, now.date.month)
  {
  }

  /** get_remaining_amount: the budget amount minus the spend, negative when overspent. */
  function RemainingAmount(b: Budget, ledger: seq<Transaction>, q: Query, now: DateTime): (r: Result<int>)
    ensures r.Ok? <==> SpentAmount(b, ledger, q, now).Ok?
    ensures r.Ok? ==> r.value + SpentAmount(b, ledger, q, now).value == b.amount
  {
    match SpentAmount(b, ledger, q, now)
    case Ok(spent) => Ok(b.amount - spent)
    case Err(e) => Err(e)
  }

  lemma RatioFacts(amount: int, spent: int)
    requires amount > 0
    ensures var ratio := (spent as real) / (amount as real) * 100.0;
      && ratio * (amount as real) == 100.0 * (spent as real)
      && (ratio < 100.0 <==> spent < amount)
      && (spent >= 0 ==> ratio >= 0.0)
  {
    var a, s := amount as real, spent as real;
    var q := s / a;
    assert q * a == s;
    var ratio := q * 100.0;
    assert ratio * a == 100.0 * (q * a);
    if spent < amount {
      assert (ratio - 100.0) * a == 100.0 * (s - a) < 0.0;
    } else {
      assert (ratio - 100.0) * a == 100.0 * (s - a) >= 0.0;
    }
    if spent >= 0 {
      assert q >= 0.0;
    }
  }

  /** The percentage of the amount that the spend uses: 0 for a zero amount, otherwise
      spent / amount * 100 capped at 100 (min(100, ...)). */
  function Percentage(amount: int, spent: int): (p: real)
    ensures p <= 100.0
    ensures amount == 0 ==> p == 0.0
    ensures amount > 0 ==> (p == 100.0 <==> spent >= amount)
    ensures amount > 0 && spent < amount ==> p * (amount as real) == 100.0 * (spent as real)
    ensures amount > 0 && spent >= 0 ==> p >= 0.0
  {
    if amount == 0 then 0.0
    else
      var ratio := (spent as real) / (amount as real) * 100.0;
      if amount > 0 then RatioFacts(amount, spent); (if ratio < 100.0 then ratio else 100.0)
      else if ratio < 100.0 then ratio else 100.0
  }

  /** get_status on the unrounded percentage, thresholds inclusive. */
  function StatusOf(p: real): Status {
    if p >= 100.0 then Over
    else if p >= 80.0 then Warning
    else if p >= 60.0 then Caution
    else Good
  }

  function Rank(s: Status): nat {
    match s
    case Good => 0
    case Caution => 1
    case Warning => 2
    case Over => 3
  }

  /** For p = 100 * spent / amount, p reaches c percent exactly when 100 * spent reaches
      c * amount. */
  lemma PercentAtLeast(p: real, amount: int, spent: int, c: int)
    requires amount > 0
    requires p * (amount as real) == 100.0 * (spent as real)
    ensures p >= c as real <==> 100 * spent >= c * amount
  {
    var a := amount as real;
    assert (c * amount) as real == (c as real) * a;
    if p >= c as real {
      assert (p - c as real) * a >= 0.0;
    } else {
      assert (c as real - p) * a > 0.0;
    }
  }

  /** The tiers in cents for a positive amount: over from 100% of the amount, warning
      from 80%, caution from 60%, good below. */
  lemma StatusInCents(amount: int, spent: int)
    requires amount > 0
    ensures StatusOf(Percentage(amount, spent)) == Over <==> spent >= amount
    ensures StatusOf(Percentage(amount, spent)) == Warning <==> 5 * spent >= 4 * amount && spent < amount
    ensures StatusOf(Percentage(amount, spent)) == Caution <==> 5 * spent >= 3 * amount && 5 * spent < 4 * amount
    ensures StatusOf(Percentage(amount, spent)) == Good <==> 5 * spent < 3 * amount
  {
    var p := Percentage(amount, spent);
    if spent < amount {
      PercentAtLeast(p, amount, spent, 80);
      PercentAtLeast(p, amount, spent, 60);
    }
  }

  /** More spending never gives a better status. */
  lemma StatusMonotone(amount: int, spent1: int, spent2: int)
    requires amount > 0 && spent1 <= spent2
    ensures Rank(StatusOf(Percentage(amount, spent1))) <= Rank(StatusOf(Percentage(amount, spent2)))
  {
    StatusInCents(amount, spent1);
    StatusInCents(amount, spent2);
  }

  /** get_percentage_used. */
  function PercentageUsed(b: Budget, ledger: seq<Transaction>, q: Query, now: DateTime): (r: Result<real>)
    ensures r.Ok? <==> SpentAmount(b, ledger, q, now).Ok?
    ensures r.Ok? ==> r.value <= 100.0
    ensures r.Ok? && b.amount > 0 && SpentAmount(b, ledger, q, now).value >= 0 ==> r.value >= 0.0
    ensures r.Ok? && b.amount > 0 ==>
      (r.value == 100.0 <==> SpentAmount(b, ledger, q, now).value >= b.amount)
  {
    match SpentAmount(b, ledger, q, now)
    case Ok(spent) => Ok(Percentage(b.amount, spent))
    case Err(e) => Err(e)
  }

  /** get_status. */
  function GetStatus(b: Budget, ledger: seq<Transaction>, q: Query, now: DateTime): (r: Result<Status>)
    ensures r.Ok? <==> SpentAmount(b, ledger, q, now).Ok?
    ensures r.Ok? && b.amount > 0 ==>
      var spent := SpentAmount(b, ledger, q, now).value;
      && (r.value == Over <==> spent >= b.amount)
      && (r.value == Warning <==> 5 * spent >= 4 * b.amount && spent < b.amount)
      && (r.value == Caution <==> 5 * spent >= 3 * b.amount && 5 * spent < 4 * b.amount)
      && (r.value == Good <==> 5 * spent < 3 * b.amount)
    ensures r.Ok? && b.amount == 0 ==> r.value == Good
  {
    match PercentageUsed(b, ledger, q, now)
    case Ok(p) =>
      if b.amount > 0 then StatusInCents(b.amount, SpentAmount(b, ledger, q, now).value); Ok(StatusOf(p))
      else Ok(StatusOf(p))
    case Err(e) => Err(e)
  }

  /** is_over_budget: remaining below zero, that is spent above amount; for a positive
      amount it implies status over, while spending exactly the amount is over without
      being over budget. */
  function IsOverBudget(b: Budget, ledger: seq<Transaction>, q: Query, now: DateTime): (r: Result<bool>)
    ensures r.Ok? <==> SpentAmount(b, ledger, q, now).Ok?
    ensures r.Ok? ==> (r.value <==> SpentAmount(b, ledger, q, now).value > b.amount)
    ensures r.Ok? && r.value && b.amount > 0 ==> GetStatus(b, ledger, q, now) == Ok(Over)
    ensures r.Ok? && SpentAmount(b, ledger, q, now).value == b.amount > 0 ==>
      !r.value && GetStatus(b, ledger, q, now) == Ok(Over)
  {
    match RemainingAmount(b, ledger, q, now)
    case Ok(remaining) => Ok(remaining < 0)
    case Err(e) => Err(e)
  }

  /** A zero amount reads as 0% used and status good even when money was spent, while
      is_over_budget holds: the two disagree. */
  lemma ZeroAmountDisagrees(b: Budget, ledger: seq<Transaction>, q: Query, now: DateTime)
    requires b.amount == 0 && SpentAmount(b, ledger, q, now).Ok? && SpentAmount(b, ledger, q, now).value > 0
    ensures GetStatus(b, ledger, q, now) == Ok(Good)
    ensures IsOverBudget(b, ledger, q, now) == Ok(true)
  {
  }

  function Max(a: int, b: int): int {
    if a >= b then a else b
  }

  /** get_days_remaining(year, month): None unless monthly; the days left in the target
      month counting today when it is the current month, the whole month otherwise
      (a month that is not the current one starts at day 1). */
  function DaysRemaining(b: Budget, q: Query, now: DateTime): (r: Result<Option<int>>)
    ensures b.period != Monthly ==> r == Ok(None)
    ensures b.period == Monthly ==> (r.Err? <==> !(1 <= Or(q.month, now.date.month) <= 12))
    ensures r.Ok? && b.period == Monthly ==> r.value.Some? && r.value.value >= 0
    ensures r.Ok? && b.period == Monthly ==>
      var year, month := Or(q.year, now.date.year), Or(q.month, now.date.month);
      && ((year, month) != (now.date.year, now.date.month) ==>
            r.value.value == DaysInMonth(year, month) && 28 <= r.value.value <= 31)
      && ((year, month) == (now.date.year, now.date.month) && ValidDate(now.date) ==>
            r.value.value == DaysInMonth(year, month) - now.date.day + 1 >= 1)
  {
    if b.period != Monthly then Ok(None)
    else
      var year := Or(q.year, now.date.year);
      var month := Or(q.month, now.date.month);
      if !(1 <= month <= 12) then Err(IllegalMonth)
      else
        var lastDay := DaysInMonth(year, month);
        var currentDay := if year == now.date.year && month == now.date.month then now.date.day else 1;
        Ok(Some(Max(0, lastDay - currentDay + 1)))
  }

  /** get_daily_budget_remaining(year, month): None unless monthly; 0 when no day or no
      money is left; otherwise the remaining amount spread over the remaining days. */
  function DailyBudgetRemaining(b: Budget, ledger: seq<Transaction>, q: Query, now: DateTime): (r: Result<Option<real>>)
    ensures b.period != Monthly ==> r == Ok(None)
    ensures b.period == Monthly ==>
      (r.Err? <==> !(MinYear <= Or(q.year, now.date.year) <= MaxYear) || DaysRemaining(b, q, now).Err?)
    ensures b.period == Monthly && !(MinYear <= Or(q.year, now.date.year) <= MaxYear) ==> r == Err(ValueError)
    ensures r.Ok? && b.period == Monthly ==>
      var remaining := RemainingAmount(b, ledger, Query(q.year, q.month, None), now).value;
      var days := DaysRemaining(b, q, now).value.value;
      && r.value.Some?
      && r.value.value >= 0.0
      && (r.value.value > 0.0 <==> remaining > 0 && days > 0)
      && (remaining > 0 && days > 0 ==> r.value.value * (days as real) == remaining as real)
  {
    if b.period != Monthly then Ok(None)
    else
      match RemainingAmount(b, ledger, Query(q.year, q.month, None), now)
      case Err(e) => Err(e)
      case Ok(remaining) =>
        match DaysRemaining(b, q, now)
        case Err(e) => Err(e)
        case Ok(days) =>
          if days.value <= 0 then Ok(Some(0.0))
          else if remaining > 0 then Ok(Some((remaining as real) / (days.value as real)))
          else Ok(Some(0.0))
  }
}
