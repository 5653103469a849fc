/** budgets/views.py: the summary, category, recommendation and statistics views over a
    user's budgets and ledger, and marking an alert read. */
module BudgetViews {
  import opened Outcomes
  import opened Calendar
  import opened TransactionModels
  import opened Aggregates
  import opened BudgetModels
  import opened BudgetSerializers
  import opened Decimals
  import opened Sorting

  // ---------------------------------------------------------------- budget_summary

  /** Budget.objects.filter(user=user, is_active=True, period=period); the period comes
      from the query string, and a name that is no period selects nothing. */
  function Selected(budgets: seq<Budget>, user: UserId, period: string): (r: seq<Budget>)
    ensures forall b :: b in r <==> b in budgets && b.user == user && b.isActive && PeriodName(b.period) == period
  {
    if |budgets| == 0 then []
    else
      var b := budgets[0];
      assert forall x :: x in budgets <==> x == b || x in budgets[1..];
      (if b.user == user && b.isActive && PeriodName(b.period) == period then [b] else [])
      + Selected(budgets[1..], user, period)
  }

  /** The summary counts each of the user's active budgets of the period as often as it
      occurs among the budgets, and no other budget: total_budgets and the divisor of
      the average percentage are the number of matching budgets. */
  lemma {:induction false} SelectedCounts(budgets: seq<Budget>, user: UserId, period: string)
    ensures forall b :: multiset(Selected(budgets, user, period))[b] ==
                        if b.user == user && b.isActive && PeriodName(b.period) == period then multiset(budgets)[b] else 0
  {
    if |budgets| > 0 {
      var head, tail := budgets[0], budgets[1..];
      SelectedCounts(tail, user, period);
      assert budgets == [head] + tail;
      assert multiset(budgets) == multiset{head} + multiset(tail);
      if head.user == user && head.isActive && PeriodName(head.period) == period {
        assert multiset(Selected(budgets, user, period)) == multiset{head} + multiset(Selected(tail, user, period));
      } else {
        assert Selected(budgets, user, period) == Selected(tail, user, period);
      }
    }
  }

  /** The loop's accumulators: amount, spent and remaining totals, the sum of the
      unrounded percentages, and the three counters. */
  datatype Tally = Tally(
    amount: int, spent: int, remaining: int, percentSum: real, over: nat, warning: nat, onTrack: nat)

  /** One pass of the loop body: over, warning-or-caution, or on track. */
  function Step(acc: Tally, b: Budget, ledger: seq<Transaction>, q: Query, now: DateTime): Result<Tally> {
    match SpentAmount(b, ledger, q, now)
    case Err(e) => Err(e)
    case Ok(spent) =>
      var status := GetStatus(b, ledger, q, now).value;
      Ok(Tally(
        acc.amount + b.amount,
        acc.spent + spent,
        acc.remaining + RemainingAmount(b, ledger, q, now).value,
        acc.percentSum + PercentageUsed(b, ledger, q, now).value,
        acc.over + (if status == Over then 1 else 0),
        acc.warning + (if status == Warning || status == Caution then 1 else 0),
        acc.onTrack + (if status == Good then 1 else 0)))
  }

  /** The accumulators after the loop has visited bs in order, or the first error. */
  function TallyOf(bs: seq<Budget>, ledger: seq<Transaction>, q: Query, now: DateTime): Result<Tally> {
    if |bs| == 0 then Ok(Tally(0, 0, 0, 0.0, 0, 0, 0))
    else
      match TallyOf(bs[..|bs| - 1], ledger, q, now)
      case Err(e) => Err(e)
      case Ok(acc) => Step(acc, bs[|bs| - 1], ledger, q, now)
  }

  /** The number of budgets of bs whose status is one of those in s. */
  function CountStatus(bs: seq<Budget>, ledger: seq<Transaction>, q: Query, now: DateTime, s: set<Status>): nat {
    if |bs| == 0 then 0
    else
      var st := GetStatus(bs[|bs| - 1], ledger, q, now);
      CountStatus(bs[..|bs| - 1], ledger, q, now, s) + (if st.Ok? && st.value in s then 1 else 0)
  }

  /** Every budget's spend can be computed for the query. */
  predicate AllSpendable(bs: seq<Budget>, ledger: seq<Transaction>, q: Query, now: DateTime) {
    forall i :: 0 <= i < |bs| ==> SpentAmount(bs[i], ledger, q, now).Ok?
  }

  /** The loop succeeds exactly when every budget's spend can be computed; then every
      budget lands in exactly one counter, each counter counts the budgets with its
      statuses, and the remaining total is the amount total less the spent total. */
  lemma {:induction false} TallyMeaning(bs: seq<Budget>, ledger: seq<Transaction>, q: Query, now: DateTime)
    ensures TallyOf(bs, ledger, q, now).Ok? <==> AllSpendable(bs, ledger, q, now)
    ensures TallyOf(bs, ledger, q, now).Ok? ==>
      var t := TallyOf(bs, ledger, q, now).value;
      && t.over + t.warning + t.onTrack == |bs|
      && t.remaining == t.amount - t.spent
      && t.over == CountStatus(bs, ledger, q, now, {Over})
      && t.warning == CountStatus(bs, ledger, q, now, {Warning, Caution})
      && t.onTrack == CountStatus(bs, ledger, q, now, {Good})
  {
    if |bs| > 0 {
      var init := bs[..|bs| - 1];
      TallyMeaning(init, ledger, q, now);
      assert forall i :: 0 <= i < |init| ==> init[i] == bs[i];
    }
  }

  /** With non-negative amounts and expenses every percentage lies in [0, 100], so their
      sum lies in [0, 100 * |bs|]. */
  lemma {:induction false} TallyPercentBounds(bs: seq<Budget>, ledger: seq<Transaction>, q: Query, now: DateTime)
    requires forall b :: b in bs ==> b.amount >= 0
    requires forall t :: t in ledger ==> t.amount >= 0
    requires TallyOf(bs, ledger, q, now).Ok?
    ensures 0.0 <= TallyOf(bs, ledger, q, now).value.percentSum <= 100.0 * (|bs| as real)
  {
    if |bs| > 0 {
      var init := bs[..|bs| - 1];
      var b := bs[|bs| - 1];
      assert forall x :: x in init ==> x in bs;
      assert b in bs;
      TallyPercentBounds(init, ledger, q, now);
      SpentNonNegative(b, ledger, ResolveWindow(b.period, q, now).value);
    }
  }

  /** The summary response; money in cents, the average percentage in tenths. */
  datatype Summary = Summary(
    totalBudgets: nat, totalAmount: int, totalSpent: int, totalRemaining: int,
    averageTenths: int, overLimit: nat, atWarning: nat, onTrack: nat,
    period: string, year: int, month: Option<int>, week: Option<int>)

  /** Python's `x if period == name else None`. */
  function ShownFor<T>(period: string, name: string, x: T): Option<T> {
    if period == name then Some(x) else None
  }

  /** The response budget_summary builds: the empty response when no budget is
      selected, otherwise the accumulated totals with the mean percentage rounded to one
      decimal place. */
  function SummaryOf(
    budgets: seq<Budget>, ledger: seq<Transaction>, user: UserId,
    year: int, month: int, week: Option<int>, period: string, now: DateTime): Result<Summary>
  {
    var sel := Selected(budgets, user, period);
    var shownMonth := ShownFor(period, "monthly", month);
    var shownWeek := if period == "weekly" then week else None;
    if |sel| == 0 then Ok(Summary(0, 0, 0, 0, 0, 0, 0, 0, period, year, shownMonth, shownWeek))
    else
      match TallyOf(sel, ledger, Query(year, month, week), now)
      case Err(e) => Err(e)
      case Ok(t) => Ok(SummaryFrom(|sel|, t, period, year, shownMonth, shownWeek))
  }

  /** The response for n selected budgets whose loop ended with the totals t: the mean
      percentage is rounded half-even to tenths. */
  function SummaryFrom(n: nat, t: Tally, period: string, year: int, shownMonth: Option<int>, shownWeek: Option<int>): Summary
    requires n > 0
  {
    Summary(n, t.amount, t.spent, t.remaining, RoundHalfEven(10.0 * (t.percentSum / (n as real))),
            t.over, t.warning, t.onTrack, period, year, shownMonth, shownWeek)
  }

  /** With no selected budget the summary is all zeros. */
  lemma SummaryWhenEmpty(
    budgets: seq<Budget>, ledger: seq<Transaction>, user: UserId,
    year: int, month: int, week: Option<int>, period: string, now: DateTime)
    requires Selected(budgets, user, period) == []
    ensures
      var r := SummaryOf(budgets, ledger, user, year, month, week, period, now);
      && r.Ok? && r.value.totalBudgets == 0 && r.value.totalAmount == 0
      && r.value.totalSpent == 0 && r.value.totalRemaining == 0 && r.value.averageTenths == 0
      && r.value.overLimit == 0 && r.value.atWarning == 0 && r.value.onTrack == 0
  {
  }

  /** The summary fails exactly when some selected budget's spend cannot be computed;
      the three counters partition the selected budgets, caution counted as warning; and
      the remaining total is the amount total less the spent total. */
  lemma SummaryCounts(
    budgets: seq<Budget>, ledger: seq<Transaction>, user: UserId,
    year: int, month: int, week: Option<int>, period: string, now: DateTime)
    ensures
      var r := SummaryOf(budgets, ledger, user, year, month, week, period, now);
      var sel := Selected(budgets, user, period);
      var q := Query(year, month, week);
      && (r.Ok? <==> AllSpendable(sel, ledger, q, now))
      && (r.Ok? ==>
            && r.value.totalBudgets == |sel|
            && r.value.overLimit + r.value.atWarning + r.value.onTrack == r.value.totalBudgets
            && r.value.totalRemaining == r.value.totalAmount - r.value.totalSpent
            && r.value.overLimit == CountStatus(sel, ledger, q, now, {Over})
            && r.value.atWarning == CountStatus(sel, ledger, q, now, {Warning, Caution})
            && r.value.onTrack == CountStatus(sel, ledger, q, now, {Good}))
  {
    var sel := Selected(budgets, user, period);
    var q := Query(year, month, week);
    TallyMeaning(sel, ledger, q, now);
    if |sel| == 0 {
      assert CountStatus(sel, ledger, q, now, {Over}) == 0;
      assert CountStatus(sel, ledger, q, now, {Warning, Caution}) == 0;
      assert CountStatus(sel, ledger, q, now, {Good}) == 0;
    }
  }

  /** The average is the mean of the unrounded percentages rounded half-even to one
      place, and lies in [0, 100] when amounts and expenses are not negative. */
  lemma SummaryAverage(
    budgets: seq<Budget>, ledger: seq<Transaction>, user: UserId,
    year: int, month: int, week: Option<int>, period: string, now: DateTime)
    requires SummaryOf(budgets, ledger, user, year, month, week, period, now).Ok?
    ensures
      var r := SummaryOf(budgets, ledger, user, year, month, week, period, now);
      var sel := Selected(budgets, user, period);
      var q := Query(year, month, week);
      && (|sel| > 0 ==>
            IsHalfEvenRounding(10.0 * (TallyOf(sel, ledger, q, now).value.percentSum / (|sel| as real)), r.value.averageTenths))
      && ((forall b :: b in budgets ==> b.amount >= 0) && (forall t :: t in ledger ==> t.amount >= 0) ==>
            0 <= r.value.averageTenths <= 1000)
  {
    var sel := Selected(budgets, user, period);
    var q := Query(year, month, week);
    if |sel| > 0 {
      var t := TallyOf(sel, ledger, q, now).value;
      var n := |sel| as real;
      var average := t.percentSum / n;
      if (forall b :: b in budgets ==> b.amount >= 0) && (forall x :: x in ledger ==> x.amount >= 0) {
        assert forall b :: b in sel ==> b.amount >= 0;
        TallyPercentBounds(sel, ledger, q, now);
        MeanBounds(t.percentSum, n);
        RoundingBounds(10.0 * average, 0, 1000);
      }
    }
  }

  /** A mean of values in [0, 100] scaled to tenths lies in [0, 1000]. */
  lemma MeanBounds(sum: real, n: real)
    requires n >= 1.0 && 0.0 <= sum <= 100.0 * n
    ensures 0.0 <= 10.0 * (sum / n) <= 1000.0
  {
    assert (sum / n) * n == sum;
  }

  /** budget_summary: the empty response, or the loop's totals over the selected
      budgets with the rounded mean percentage. */
  method BudgetSummary(
    budgets: seq<Budget>, ledger: seq<Transaction>, user: UserId,
    year: int, month: int, week: Option<int>, period: string, now: DateTime)
    returns (r: Result<Summary>)
    ensures r == SummaryOf(budgets, ledger, user, year, month, week, period, now)
  {
    var sel := Selected(budgets, user, period);
    var shownMonth := ShownFor(period, "monthly", month);
    var shownWeek := if period == "weekly" then week else None;
    if |sel| == 0 {
      return Ok(Summary(0, 0, 0, 0, 0, 0, 0, 0, period, year, shownMonth, shownWeek));
    }
    var tally := Accumulate(sel, ledger, Query(year, month, week), now);
    if tally.Err? {
      return Err(tally.error);
    }
    r := Ok(SummaryFrom(|sel|, tally.value, period, year, shownMonth, shownWeek));
  }

  /** The loop of budget_summary: per budget, add its amount, spend, remaining amount
      and percentage to the totals and bump one of the three counters. */
  method Accumulate(sel: seq<Budget>, ledger: seq<Transaction>, q: Query, now: DateTime) returns (r: Result<Tally>)
    ensures r == TallyOf(sel, ledger, q, now)
  {
    var totalAmount, totalSpent, totalRemaining := 0, 0, 0;
    var percentSum := 0.0;
    var over: nat, warning: nat, onTrack: nat := 0, 0, 0;
    var i := 0;
    while i < |sel|
      invariant 0 <= i <= |sel|
      invariant TallyOf(sel[..i], ledger, q, now)
        == Ok(Tally(totalAmount, totalSpent, totalRemaining, percentSum, over, warning, onTrack))
    {
      var b := sel[i];
      ghost var acc := Tally(totalAmount, totalSpent, totalRemaining, percentSum, over, warning, onTrack);
      TallyStep(sel, i, ledger, q, now);
      var spent := SpentAmount(b, ledger, q, now);
      if spent.Err? {
        TallyErrorSticks(sel, i + 1, ledger, q, now);
        return Err(spent.error);
      }
      var status := GetStatus(b, ledger, q, now).value;
      totalAmount := totalAmount + b.amount;
      totalSpent := totalSpent + spent.value;
      totalRemaining := totalRemaining + RemainingAmount(b, ledger, q, now).value;
      percentSum := percentSum + PercentageUsed(b, ledger, q, now).value;
      if status == Over {
        over := over + 1;
      } else if status == Warning || status == Caution {
        warning := warning + 1;
      } else {
        onTrack := onTrack + 1;
      }
      StepOk(acc, b, ledger, q, now);
      assert TallyOf(sel[..i + 1], ledger, q, now)
        == Ok(Tally(totalAmount, totalSpent, totalRemaining, percentSum, over, warning, onTrack));
      i := i + 1;
    }
    assert sel[..i] == sel;
    r := Ok(Tally(totalAmount, totalSpent, totalRemaining, percentSum, over, warning, onTrack));
  }

  /** The loop body for a budget whose spend can be computed. */
  lemma StepOk(acc: Tally, b: Budget, ledger: seq<Transaction>, q: Query, now: DateTime)
    requires SpentAmount(b, ledger, q, now).Ok?
    ensures
      var status := GetStatus(b, ledger, q, now).value;
      Step(acc, b, ledger, q, now) == Ok(Tally(
        acc.amount + b.amount,
        acc.spent + SpentAmount(b, ledger, q, now).value,
        acc.remaining + RemainingAmount(b, ledger, q, now).value,
        acc.percentSum + PercentageUsed(b, ledger, q, now).value,
        acc.over + (if status == Over then 1 else 0),
        acc.warning + (if status == Warning || status == Caution then 1 else 0),
        acc.onTrack + (if status == Good then 1 else 0)))
  {
  }

  lemma TallyStep(bs: seq<Budget>, i: nat, ledger: seq<Transaction>, q: Query, now: DateTime)
    requires i < |bs|
    ensures TallyOf(bs[..i], ledger, q, now).Err? ==>
      TallyOf(bs[..i + 1], ledger, q, now) == TallyOf(bs[..i], ledger, q, now)
    ensures TallyOf(bs[..i], ledger, q, now).Ok? ==>
      TallyOf(bs[..i + 1], ledger, q, now) == Step(TallyOf(bs[..i], ledger, q, now).value, bs[i], ledger, q, now)
  {
    assert bs[..i + 1][..i] == bs[..i];
  }

  /** Once a prefix fails, the whole loop fails with the same error. */
  lemma {:induction false} TallyErrorSticks(bs: seq<Budget>, k: nat, ledger: seq<Transaction>, q: Query, now: DateTime)
    requires k <= |bs| && TallyOf(bs[..k], ledger, q, now).Err?
    ensures TallyOf(bs, ledger, q, now) == TallyOf(bs[..k], ledger, q, now)
    decreases |bs| - k
  {
    if k < |bs| {
      assert bs[..k + 1][..k] == bs[..k];
      TallyErrorSticks(bs, k + 1, ledger, q, now);
    } else {
      assert bs[..k] == bs;
    }
  }

  // ---------------------------------------------------------------- budget_categories

  /** Code-point lexicographic order on strings. */
  predicate StrLe(a: string, b: string) {
    if |a| == 0 then true
    else if |b| == 0 then false
    else if a[0] != b[0] then a[0] < b[0]
    else StrLe(a[1..], b[1..])
  }

  lemma {:induction false} StrLeTotal(a: string, b: string)
    ensures StrLe(a, b) || StrLe(b, a)
  {
    if |a| > 0 && |b| > 0 && a[0] == b[0] {
      StrLeTotal(a[1..], b[1..]);
    }
  }

  lemma {:induction false} StrLeTransitive(a: string, b: string, c: string)
    requires StrLe(a, b) && StrLe(b, c)
    ensures StrLe(a, c)
  {
    if |a| > 0 && |b| > 0 && |c| > 0 && a[0] == b[0] && b[0] == c[0] {
      StrLeTransitive(a[1..], b[1..], c[1..]);
    }
  }

  lemma {:induction false} StrLeAntisymmetric(a: string, b: string)
    requires StrLe(a, b) && StrLe(b, a)
    ensures a == b
  {
    if |a| > 0 && |b| > 0 {
      StrLeAntisymmetric(a[1..], b[1..]);
      assert a == [a[0]] + a[1..] && b == [b[0]] + b[1..];
    }
  }

  lemma StrLeIsTotalPreorder()
    ensures TotalPreorder(StrLe)
  {
    forall a, b ensures StrLe(a, b) || StrLe(b, a) {
      StrLeTotal(a, b);
    }
    forall a, b, c | StrLe(a, b) && StrLe(b, c) ensures StrLe(a, c) {
      StrLeTransitive(a, b, c);
    }
  }

  /** The categories of the user's expense rows, in ledger order with repetitions. */
  function ExpenseCategories(ledger: seq<Transaction>, user: UserId): (r: seq<string>)
    ensures forall c :: c in r <==> exists t :: t in ledger && t.user == user && t.kind == Expense && t.category == c
  {
    if |ledger| == 0 then []
    else
      var t := ledger[0];
      assert forall x :: x in ledger <==> x == t || x in ledger[1..];
      (if t.user == user && t.kind == Expense then [t.category] else []) + ExpenseCategories(ledger[1..], user)
  }

  /** .distinct(): the first occurrence of every value. */
  function Distinct(s: seq<string>): (r: seq<string>)
    ensures forall x :: x in r <==> x in s
    ensures forall i, j :: 0 <= i < j < |r| ==> r[i] != r[j]
  {
    if |s| == 0 then []
    else
      var rest := Distinct(s[..|s| - 1]);
      assert forall x :: x in s <==> x == s[|s| - 1] || x in s[..|s| - 1];
      if s[|s| - 1] in rest then rest else rest + [s[|s| - 1]]
  }

  /** [cat for cat in categories if cat and cat.strip()]. */
  function NonBlank(s: seq<string>): (r: seq<string>)
    ensures forall x :: x in r <==> x in s && !Blank(x)
    ensures SortedBy(s, StrLe) ==> SortedBy(r, StrLe)
    ensures (forall i, j :: 0 <= i < j < |s| ==> s[i] != s[j]) ==> forall i, j :: 0 <= i < j < |r| ==> r[i] != r[j]
  {
    if |s| == 0 then []
    else
      var rest := NonBlank(s[1..]);
      assert forall x :: x in s <==> x == s[0] || x in s[1..];
      if Blank(s[0]) then rest
      else
        var r := [s[0]] + rest;
        assert forall k :: 0 < k < |r| ==> r[k] in s[1..];
        assert SortedBy(s, StrLe) ==> SortedBy(r, StrLe) by {
          if SortedBy(s, StrLe) {
            forall i, j | 0 <= i < j < |r| ensures StrLe(r[i], r[j]) {
              if i == 0 {
                var m :| 0 <= m < |s[1..]| && s[1..][m] == r[j];
                assert s[m + 1] == r[j];
              }
            }
          }
        }
        r
  }

  const DefaultCategories: seq<string> :=
    ["Food", "Dining", "Travel", "Entertainment", "Transportation", "Shopping", "Bills", "Healthcare", "Other"]

  /** budget_categories: the distinct categories of the user's expenses in ascending
      order with the blank ones dropped, or the default list when none remain. */
  function BudgetCategories(ledger: seq<Transaction>, user: UserId): seq<string> {
    var found := NonBlank(SortBy(Distinct(ExpenseCategories(ledger, user)), StrLe));
    if |found| == 0 then DefaultCategories else found
  }

  /** The listed categories are exactly the user's non-blank expense categories, each
      once and ascending; with none of them the nine defaults are listed. */
  lemma BudgetCategoriesMeaning(ledger: seq<Transaction>, user: UserId)
    ensures
      var r := BudgetCategories(ledger, user);
      var used := exists t :: t in ledger && t.user == user && t.kind == Expense && !Blank(t.category);
      && (!used ==> r == DefaultCategories)
      && (used ==>
            && (forall c :: c in r <==> exists t :: t in ledger && t.user == user && t.kind == Expense && t.category == c && !Blank(c))
            && (forall i, j :: 0 <= i < j < |r| ==> StrLe(r[i], r[j]) && r[i] != r[j]))
  {
    var sorted := SortBy(Distinct(ExpenseCategories(ledger, user)), StrLe);
    SortedCategories(ledger, user);
    var found := NonBlank(sorted);
    assert forall c :: c in found <==> exists t :: t in ledger && t.user == user && t.kind == Expense && t.category == c && !Blank(c);
    if |found| > 0 {
      assert found[0] in found;
    }
    if exists t :: t in ledger && t.user == user && t.kind == Expense && !Blank(t.category) {
      var t :| t in ledger && t.user == user && t.kind == Expense && !Blank(t.category);
      assert t.category in found;
    }
  }

  /** Sorting the distinct expense categories keeps them distinct and keeps their set. */
  lemma SortedCategories(ledger: seq<Transaction>, user: UserId)
    ensures
      var sorted := SortBy(Distinct(ExpenseCategories(ledger, user)), StrLe);
      && SortedBy(sorted, StrLe)
      && (forall i, j :: 0 <= i < j < |sorted| ==> sorted[i] != sorted[j])
      && (forall c :: c in sorted <==> exists t :: t in ledger && t.user == user && t.kind == Expense && t.category == c)
  {
    var d := Distinct(ExpenseCategories(ledger, user));
    var sorted := SortBy(d, StrLe);
    StrLeIsTotalPreorder();
    SortByCorrect(d, StrLe);
    DistinctPermutation(d, sorted);
    forall x ensures x in sorted <==> x in d {
      assert x in sorted <==> x in multiset(sorted);
      assert x in d <==> x in multiset(d);
    }
  }

  /** A permutation of a sequence without repetitions has none either. */
  lemma DistinctPermutation(a: seq<string>, b: seq<string>)
    requires forall i, j :: 0 <= i < j < |a| ==> a[i] != a[j]
    requires multiset(a) == multiset(b)
    ensures forall i, j :: 0 <= i < j < |b| ==> b[i] != b[j]
  {
    forall i, j | 0 <= i < j < |b| ensures b[i] != b[j] {
      if b[i] == b[j] {
        assert b == b[..j] + b[j..];
        assert multiset(b) == multiset(b[..j]) + multiset(b[j..]);
        assert b[i] in b[..j];
        assert b[j] == b[j..][0];
        DistinctCountsOnce(a, b[i]);
      }
    }
  }

  lemma DistinctCountsOnce(s: seq<string>, x: string)
    requires forall i, j :: 0 <= i < j < |s| ==> s[i] != s[j]
    ensures multiset(s)[x] <= 1
  {
    if |s| > 0 {
      DistinctCountsOnce(s[1..], x);
      assert s == [s[0]] + s[1..];
      if s[0] == x {
        assert x !in s[1..];
      }
    }
  }

  // ---------------------------------------------------------------- spend groups

  /** order_by('-total_spent'). */
  predicate ByTotalDescending(a: Group<string>, b: Group<string>) {
    a.total >= b.total
  }

  lemma ByTotalDescendingIsTotalPreorder()
    ensures TotalPreorder(ByTotalDescending)
  {
  }

  /** values('category').annotate(Sum, Count).order_by('-total_spent') over the rows. */
  function RankedGroups(rows: seq<Transaction>): seq<Group<string>> {
    SortBy(GroupBy(rows, Category), ByTotalDescending)
  }

  predicate HasKey(gs: seq<Group<string>>, c: string) {
    exists g :: g in gs && g.key == c
  }

  predicate HasCategory(rows: seq<Transaction>, c: string) {
    exists t :: t in rows && t.category == c
  }

  /** The ranked groups are one per category present in the rows, each with that
      category's total and row count, in descending order of total. */
  lemma RankedGroupsMeaning(rows: seq<Transaction>)
    ensures var gs := RankedGroups(rows);
      && SortedBy(gs, ByTotalDescending)
      && DistinctKeys(gs)
      && (forall g :: g in gs ==>
            g.total == KeyTotal(rows, Category, g.key) && g.count == KeyCount(rows, Category, g.key) && g.count >= 1)
      && (forall c :: HasKey(gs, c) <==> HasCategory(rows, c))
  {
    var grouped := GroupBy(rows, Category);
    var gs := RankedGroups(rows);
    ByTotalDescendingIsTotalPreorder();
    SortByCorrect(grouped, ByTotalDescending);
    GroupByCorrect(rows, Category);
    DistinctKeysPermutation(grouped, gs);
    forall g | g in gs
      ensures g.total == KeyTotal(rows, Category, g.key) && g.count == KeyCount(rows, Category, g.key) && g.count >= 1
    {
      assert g in multiset(grouped);
      GroupMember(rows, Category, g);
    }
    forall c ensures HasKey(gs, c) <==> HasCategory(rows, c) {
      GroupKeys(rows, Category, c);
      if exists g :: g in grouped && g.key == c {
        var g :| g in grouped && g.key == c;
        assert g in multiset(gs);
      }
      if exists g :: g in gs && g.key == c {
        var g :| g in gs && g.key == c;
        assert g in multiset(grouped);
      }
    }
  }

  // ---------------------------------------------------------------- budget_recommendations

  datatype Confidence = Low | Medium | High

  /** A recommendation; money in cents. */
  datatype Recommendation = Recommendation(
    category: string, recommendedAmount: int, averageSpending: int, totalSpent: int,
    confidence: Confidence, monthsAnalyzed: int, transactionCount: nat)

  function ConfidenceOf(count: nat): (c: Confidence)
    ensures c == High <==> count >= 10
    ensures c == Medium <==> 5 <= count < 10
    ensures c == Low <==> count < 5
  {
    if count >= 10 then High else if count >= 5 then Medium else Low
  }

  /** One category's recommendation: the monthly average and the average plus 10%, each
      rounded half-even to cents. Dividing by zero months raises. */
  function RecommendFor(g: Group<string>, months: int): (r: Result<Recommendation>)
    ensures months == 0 ==> r == Err(if g.total == 0 then InvalidOperation else DivisionByZero)
    ensures months != 0 ==>
      && r.Ok?
      && IsHalfEvenRounding((g.total as real) / (months as real), r.value.averageSpending)
      && IsHalfEvenRounding((g.total as real) * 11.0 / (10.0 * (months as real)), r.value.recommendedAmount)
      && r.value.category == g.key && r.value.totalSpent == g.total
      && r.value.transactionCount == g.count && r.value.monthsAnalyzed == months
      && r.value.confidence == ConfidenceOf(g.count)
  {
    if months == 0 then Err(if g.total == 0 then InvalidOperation else DivisionByZero)
    else
      var average := (g.total as real) / (months as real);
      assert average * 1.1 == (g.total as real) * 11.0 / (10.0 * (months as real));
      Ok(Recommendation(g.key, RoundHalfEven(average * 1.1), RoundHalfEven(average), g.total,
                        ConfidenceOf(g.count), months, g.count))
  }

  /** For a positive spend over a positive number of months the buffered amount is never
      below the average. */
  lemma RecommendedCoversAverage(g: Group<string>, months: int)
    requires months > 0 && g.total >= 0
    ensures RecommendFor(g, months).value.recommendedAmount >= RecommendFor(g, months).value.averageSpending
  {
    var average := (g.total as real) / (months as real);
    assert average >= 0.0;
    RoundingMonotone(average, average * 1.1);
  }

  /** The expense rows the recommendations look at: the user's, with a category, from
      midnight `months * 30` days before today up to midnight today. */
  predicate InLookback(t: Transaction, user: UserId, startDay: int, endDay: int) {
    && t.user == user && t.kind == Expense && t.category != ""
    && MomentLe(Midnight(startDay), MomentOf(t.date)) && MomentLe(MomentOf(t.date), Midnight(endDay))
  }

  function LookbackRows(ledger: seq<Transaction>, user: UserId, startDay: int, endDay: int): seq<Transaction> {
    Where(ledger, t => InLookback(t, user, startDay, endDay))
  }

  /** Recommendations for the groups in order, or the first error. */
  function RecommendAll(gs: seq<Group<string>>, months: int): (r: Result<seq<Recommendation>>)
    ensures r.Ok? ==> |r.value| == |gs| && forall i :: 0 <= i < |gs| ==> RecommendFor(gs[i], months) == Ok(r.value[i])
    ensures r.Ok? <==> months != 0 || |gs| == 0
  {
    if |gs| == 0 then Ok([])
    else
      match RecommendAll(gs[..|gs| - 1], months)
      case Err(e) => Err(e)
      case Ok(init) =>
        match RecommendFor(gs[|gs| - 1], months)
        case Err(e) => Err(e)
        case Ok(x) => Ok(init + [x])
  }

  /** What budget_recommendations answers on the day with ordinal `today`. */
  function RecommendationsOf(ledger: seq<Transaction>, user: UserId, months: int, today: int): Result<seq<Recommendation>> {
    var endDay := today;
    var startDay := endDay - months * 30;
    if !(1 <= startDay <= MaxOrdinal) then Err(OverflowError)
    else
      var rows := LookbackRows(ledger, user, startDay, endDay);
      if |rows| == 0 then Ok([])
      else RecommendAll(RankedGroups(rows), months)
  }

  /** budget_recommendations: group the selected rows by category, largest total first,
      and append one recommendation per group. */
  method Recommendations(ledger: seq<Transaction>, user: UserId, months: int, now: DateTime)
    returns (r: Result<seq<Recommendation>>)
    ensures r == RecommendationsOf(ledger, user, months, DayOrdinal(now.date))
  {
    r := RecommendationsOn(ledger, user, months, DayOrdinal(now.date));
  }

  /** The body of budget_recommendations once today's date is known, as its ordinal. */
  method RecommendationsOn(ledger: seq<Transaction>, user: UserId, months: int, today: int)
    returns (r: Result<seq<Recommendation>>)
    ensures r == RecommendationsOf(ledger, user, months, today)
  {
    var endDay := today;
    var startDay := endDay - months * 30;
    if !(1 <= startDay <= MaxOrdinal) {
      return Err(OverflowError);
    }
    var rows := LookbackRows(ledger, user, startDay, endDay);
    if |rows| == 0 {
      return Ok([]);
    }
    r := RecommendEach(RankedGroups(rows), months);
  }

  /** The loop of budget_recommendations over the ranked groups. */
  method RecommendEach(stats: seq<Group<string>>, months: int) returns (r: Result<seq<Recommendation>>)
    ensures r == RecommendAll(stats, months)
  {
    var recommendations: seq<Recommendation> := [];
    var i := 0;
    while i < |stats|
      invariant 0 <= i <= |stats|
      invariant RecommendAll(stats[..i], months) == Ok(recommendations)
    {
      assert stats[..i + 1][..i] == stats[..i];
      var rec := RecommendFor(stats[i], months);
      if rec.Err? {
        RecommendErrorSticks(stats, i + 1, months);
        return Err(rec.error);
      }
      recommendations := recommendations + [rec.value];
      i := i + 1;
    }
    assert stats[..i] == stats;
    r := Ok(recommendations);
  }

  lemma {:induction false} RecommendErrorSticks(gs: seq<Group<string>>, k: nat, months: int)
    requires k <= |gs| && RecommendAll(gs[..k], months).Err?
    ensures RecommendAll(gs, months) == RecommendAll(gs[..k], months)
    decreases |gs| - k
  {
    if k < |gs| {
      assert gs[..k + 1][..k] == gs[..k];
      RecommendErrorSticks(gs, k + 1, months);
    } else {
      assert gs[..k] == gs;
    }
  }

  /** Over a non-empty set of rows, recommending fails exactly for zero months; when it
      succeeds it yields one recommendation per category present, largest total first,
      each carrying that category's total and row count. */
  lemma {:induction false} RankedRecommendations(rows: seq<Transaction>, months: int)
    requires |rows| > 0
    ensures RecommendAll(RankedGroups(rows), months).Ok? <==> months != 0
    ensures RecommendAll(RankedGroups(rows), months).Ok? ==>
      var r := RecommendAll(RankedGroups(rows), months).value;
      && (forall i, j :: 0 <= i < j < |r| ==> r[i].totalSpent >= r[j].totalSpent && r[i].category != r[j].category)
      && (forall x :: x in r ==>
            && x.totalSpent == KeyTotal(rows, Category, x.category)
            && x.transactionCount == KeyCount(rows, Category, x.category) && x.transactionCount >= 1
            && x.monthsAnalyzed == months)
      && (forall c :: Recommended(r, c) <==> HasCategory(rows, c))
  {
    RankedGroupsMeaning(rows);
    var gs := RankedGroups(rows);
    assert rows[0] in rows;
    assert HasKey(gs, rows[0].category);
    var rr := RecommendAll(gs, months);
    if rr.Ok? {
      RecommendedGroups(rows, months, rr.value);
    }
  }

  /** The successful case of RankedRecommendations, one recommendation per ranked group. */
  lemma RecommendedGroups(rows: seq<Transaction>, months: int, r: seq<Recommendation>)
    requires RecommendAll(RankedGroups(rows), months) == Ok(r)
    ensures forall i, j :: 0 <= i < j < |r| ==> r[i].totalSpent >= r[j].totalSpent && r[i].category != r[j].category
    ensures forall x :: x in r ==>
      && x.totalSpent == KeyTotal(rows, Category, x.category)
      && x.transactionCount == KeyCount(rows, Category, x.category) && x.transactionCount >= 1
      && x.monthsAnalyzed == months
    ensures forall c :: Recommended(r, c) <==> HasCategory(rows, c)
  {
    var gs := RankedGroups(rows);
    forall i | 0 <= i < |r|
      ensures r[i].category == gs[i].key && r[i].totalSpent == gs[i].total
      ensures r[i].transactionCount == gs[i].count && r[i].monthsAnalyzed == months
    {
      assert RecommendFor(gs[i], months) == Ok(r[i]);
    }
    CopiedFigures(rows, months, gs, r);
  }

  /** Recommendations that copy the category, total, count and months of the ranked
      groups one to one carry the figures of their category's rows. */
  lemma CopiedFigures(rows: seq<Transaction>, months: int, gs: seq<Group<string>>, r: seq<Recommendation>)
    requires gs == RankedGroups(rows) && |r| == |gs|
    requires forall i :: 0 <= i < |r| ==>
      && r[i].category == gs[i].key && r[i].totalSpent == gs[i].total
      && r[i].transactionCount == gs[i].count && r[i].monthsAnalyzed == months
    ensures forall i, j :: 0 <= i < j < |r| ==> r[i].totalSpent >= r[j].totalSpent && r[i].category != r[j].category
    ensures forall x :: x in r ==>
      && x.totalSpent == KeyTotal(rows, Category, x.category)
      && x.transactionCount == KeyCount(rows, Category, x.category) && x.transactionCount >= 1
      && x.monthsAnalyzed == months
    ensures forall c :: Recommended(r, c) <==> HasCategory(rows, c)
  {
    RankedGroupsMeaning(rows);
    forall x | x in r
      ensures x.totalSpent == KeyTotal(rows, Category, x.category)
        && x.transactionCount == KeyCount(rows, Category, x.category) && x.transactionCount >= 1
        && x.monthsAnalyzed == months
    {
      var i :| 0 <= i < |r| && r[i] == x;
      assert gs[i] in gs;
    }
    forall c ensures Recommended(r, c) <==> HasKey(gs, c) {
      if Recommended(r, c) {
        var x :| x in r && x.category == c;
        var i :| 0 <= i < |r| && r[i] == x;
        assert gs[i] in gs;
      }
      if HasKey(gs, c) {
        var g :| g in gs && g.key == c;
        var i :| 0 <= i < |gs| && gs[i] == g;
        assert r[i] in r;
      }
    }
  }

  predicate Recommended(r: seq<Recommendation>, c: string) {
    exists x :: x in r && x.category == c
  }

  /** budget_recommendations answers [] when no expense matches; otherwise its answer is
      that of RankedRecommendations over the matching rows. */
  lemma RecommendationsCases(ledger: seq<Transaction>, user: UserId, months: int, today: int)
    requires 1 <= today - months * 30 <= MaxOrdinal
    ensures
      var rows := LookbackRows(ledger, user, today - months * 30, today);
      && (|rows| == 0 ==> RecommendationsOf(ledger, user, months, today) == Ok([]))
      && (|rows| > 0 ==> RecommendationsOf(ledger, user, months, today) == RecommendAll(RankedGroups(rows), months))
  {
  }

  /** A negative number of months puts the start after the end, so nothing matches. */
  lemma NegativeMonthsRecommendNothing(ledger: seq<Transaction>, user: UserId, months: int, today: int)
    requires months < 0 && 1 <= today - months * 30 <= MaxOrdinal
    ensures RecommendationsOf(ledger, user, months, today) == Ok([])
  {
    var endDay := today;
    var startDay := endDay - months * 30;
    assert forall t :: !InLookback(t, user, startDay, endDay);
    NothingKept(ledger, t => InLookback(t, user, startDay, endDay));
  }

  lemma NothingKept(ts: seq<Transaction>, keep: Transaction -> bool)
    requires forall t :: !keep(t)
    ensures Where(ts, keep) == []
  {
  }

  // ---------------------------------------------------------------- category_stats

  /** The rows category_stats looks at: the user's expenses with a category, dated in
      the given year and month (taken as given, with no fallback). */
  predicate InMonth(t: Transaction, user: UserId, year: int, month: int) {
    t.user == user && t.kind == Expense && t.category != "" && t.date.date.year == year && t.date.date.month == month
  }

  function MonthRows(ledger: seq<Transaction>, user: UserId, year: int, month: int): seq<Transaction> {
    Where(ledger, t => InMonth(t, user, year, month))
  }

  predicate ActiveMonthly(b: Budget, user: UserId, c: string) {
    b.user == user && b.isActive && b.period == Monthly && b.category == c
  }

  /** {b.category: b for b in ...}.get(c): of the user's active monthly budgets with
      that category, the last one. */
  function BudgetFor(budgets: seq<Budget>, user: UserId, c: string): (r: Option<Budget>)
    ensures r.Some? ==> r.value in budgets && ActiveMonthly(r.value, user, c)
    ensures r.None? <==> forall b :: b in budgets ==> !ActiveMonthly(b, user, c)
  {
    if |budgets| == 0 then None
    else
      var last := budgets[|budgets| - 1];
      assert forall b :: b in budgets <==> b in budgets[..|budgets| - 1] || b == last;
      if ActiveMonthly(last, user, c) then Some(last) else BudgetFor(budgets[..|budgets| - 1], user, c)
  }

  /** The budget columns of a statistic, present only when the category has a budget. */
  datatype BudgetInfo = BudgetInfo(amount: int, status: Status)

  datatype CategoryStat = CategoryStat(
    category: string, totalSpent: int, transactionCount: nat, averageTransaction: real,
    budget: Option<BudgetInfo>)

  /** One statistic: the group's figures, and the matching budget's amount and its
      status for the year and month (a budget instance is always truthy). */
  function StatFor(g: Group<string>, budgets: seq<Budget>, ledger: seq<Transaction>,
                   user: UserId, year: int, month: int, now: DateTime): (x: CategoryStat)
    requires g.count >= 1 && MinYear <= year <= MaxYear
    ensures x.category == g.key && x.totalSpent == g.total && x.transactionCount == g.count
    ensures IsMean(x.averageTransaction, g.total, g.count)
    ensures x.budget.Some? <==> exists b :: b in budgets && ActiveMonthly(b, user, g.key)
    ensures x.budget.Some? ==> x.budget.value.amount == BudgetFor(budgets, user, g.key).value.amount
  {
    MeanTimesCount(g.total, g.count);
    var info := match BudgetFor(budgets, user, g.key)
      case None => None
      case Some(b) => Some(BudgetInfo(b.amount, GetStatus(b, ledger, Query(year, month, None), now).value));
    CategoryStat(g.key, g.total, g.count, (g.total as real) / (g.count as real), info)
  }

  /** avg is the mean of count amounts summing to total: Avg('amount'). */
  predicate IsMean(avg: real, total: int, count: nat) {
    avg * (count as real) == total as real
  }

  lemma MeanTimesCount(total: int, count: nat)
    requires count >= 1
    ensures IsMean((total as real) / (count as real), total, count)
  {
  }

  function StatsFor(gs: seq<Group<string>>, budgets: seq<Budget>, ledger: seq<Transaction>,
                    user: UserId, year: int, month: int, now: DateTime): (r: seq<CategoryStat>)
    requires forall g :: g in gs ==> g.count >= 1
    requires MinYear <= year <= MaxYear
    ensures |r| == |gs| && forall i :: 0 <= i < |gs| ==> r[i] == StatFor(gs[i], budgets, ledger, user, year, month, now)
  {
    if |gs| == 0 then []
    else StatsFor(gs[..|gs| - 1], budgets, ledger, user, year, month, now)
         + [StatFor(gs[|gs| - 1], budgets, ledger, user, year, month, now)]
  }

  lemma RankedCountsPositive(rows: seq<Transaction>)
    ensures forall g :: g in RankedGroups(rows) ==> g.count >= 1
  {
    RankedGroupsMeaning(rows);
  }

  /** What category_stats answers. The year is used as given, so a year outside
      MinYear..MaxYear (0 included) makes the date__year filter raise ValueError when
      the loop first reads the groups. */
  function CategoryStatsOf(ledger: seq<Transaction>, budgets: seq<Budget>, user: UserId,
                           year: int, month: int, now: DateTime): (r: Result<seq<CategoryStat>>)
    ensures r.Err? <==> !(MinYear <= year <= MaxYear)
    ensures r.Err? ==> r.error == ValueError
  {
    if !(MinYear <= year <= MaxYear) then Err(ValueError)
    else
      var gs := RankedGroups(MonthRows(ledger, user, year, month));
      RankedCountsPositive(MonthRows(ledger, user, year, month));
      Ok(StatsFor(gs, budgets, ledger, user, year, month, now))
  }

  /** category_stats: one statistic per spend group, largest total first, each joined
      with the budget of its category when there is one. */
  method CategoryStats(ledger: seq<Transaction>, budgets: seq<Budget>, user: UserId,
                       year: int, month: int, now: DateTime)
    returns (r: Result<seq<CategoryStat>>)
    ensures r == CategoryStatsOf(ledger, budgets, user, year, month, now)
  {
    if !(MinYear <= year <= MaxYear) {
      return Err(ValueError);
    }
    var spending := RankedGroups(MonthRows(ledger, user, year, month));
    RankedCountsPositive(MonthRows(ledger, user, year, month));
    var stats := StatsLoop(spending, budgets, ledger, user, year, month, now);
    r := Ok(stats);
  }

  /** The loop of category_stats over the ranked spend groups. */
  method StatsLoop(spending: seq<Group<string>>, budgets: seq<Budget>, ledger: seq<Transaction>,
                   user: UserId, year: int, month: int, now: DateTime)
    returns (stats: seq<CategoryStat>)
    requires forall g :: g in spending ==> g.count >= 1
    requires MinYear <= year <= MaxYear
    ensures stats == StatsFor(spending, budgets, ledger, user, year, month, now)
  {
    stats := [];
    var i := 0;
    while i < |spending|
      invariant 0 <= i <= |spending|
      invariant stats == StatsFor(spending[..i], budgets, ledger, user, year, month, now)
    {
      assert spending[..i + 1][..i] == spending[..i];
      assert spending[i] in spending;
      var stat := StatOf(spending[i], budgets, ledger, user, year, month, now);
      stats := stats + [stat];
      i := i + 1;
    }
    assert spending[..i] == spending;
  }

  /** The loop body of category_stats for one spend group. */
  method StatOf(g: Group<string>, budgets: seq<Budget>, ledger: seq<Transaction>,
                user: UserId, year: int, month: int, now: DateTime) returns (stat: CategoryStat)
    requires g.count >= 1 && MinYear <= year <= MaxYear
    ensures stat == StatFor(g, budgets, ledger, user, year, month, now)
  {
    var budget := BudgetFor(budgets, user, g.key);
    var info: Option<BudgetInfo> := None;
    if budget.Some? {
      var b := budget.value;
      info := Some(BudgetInfo(b.amount, GetStatus(b, ledger, Query(year, month, None), now).value));
    }
    stat := CategoryStat(g.key, g.total, g.count, (g.total as real) / (g.count as real), info);
  }

  /** The spend of a budget over a window is its category's total among the rows a
      filter keeps, when the filter and the budget's agree on rows of that category. */
  lemma {:induction false} SpentIsGroupTotal(b: Budget, ledger: seq<Transaction>, w: Window, keep: Transaction -> bool)
    requires forall t: Transaction :: t.category == b.category ==> (Counts(b, w, t) <==> keep(t))
    ensures Spent(b, ledger, w) == KeyTotal(Where(ledger, keep), Category, b.category)
  {
    if |ledger| > 0 {
      var init := ledger[..|ledger| - 1];
      var last := ledger[|ledger| - 1];
      SpentIsGroupTotal(b, init, w, keep);
      if keep(last) {
        var kept := Where(init, keep) + [last];
        assert kept[..|kept| - 1] == Where(init, keep);
      }
    }
  }

  /** For a year and month given explicitly, the status a statistic shows is the one
      its category total implies for the budget: the budget's own spend over the month
      is that total. */
  lemma StatStatusAgrees(g: Group<string>, budgets: seq<Budget>, ledger: seq<Transaction>,
                         user: UserId, year: int, month: int, now: DateTime)
    requires g in RankedGroups(MonthRows(ledger, user, year, month)) && g.count >= 1
    requires MinYear <= year <= MaxYear && month != 0
    ensures var x := StatFor(g, budgets, ledger, user, year, month, now);
      x.budget.Some? ==> x.budget.value.status == StatusOf(Percentage(x.budget.value.amount, x.totalSpent))
  {
    var rows := MonthRows(ledger, user, year, month);
    RankedGroupsMeaning(rows);
    var x := StatFor(g, budgets, ledger, user, year, month, now);
    if x.budget.Some? {
      var b := BudgetFor(budgets, user, g.key).value;
      var w := Window(year, Some(month), None);
      assert ResolveWindow(b.period, Query(year, month, None), now) == Ok(w);
      KeyCountPositive(rows, Category, g.key);
      assert g.key != "";
      SpentIsGroupTotal(b, ledger, w, t => InMonth(t, user, year, month));
    }
  }

  /** The statistics come in descending order of total, one per category. */
  lemma CategoryStatsOrder(ledger: seq<Transaction>, budgets: seq<Budget>, user: UserId,
                           year: int, month: int, now: DateTime)
    ensures
      var r := CategoryStatsOf(ledger, budgets, user, year, month, now);
      r.Ok? ==> forall i, j :: 0 <= i < j < |r.value| ==>
        r.value[i].totalSpent >= r.value[j].totalSpent && r.value[i].category != r.value[j].category
  {
    RankedGroupsMeaning(MonthRows(ledger, user, year, month));
  }

  /** Each statistic carries its category's total and count over the month's rows and
      the mean amount per row; it has budget columns exactly when the user has an active
      monthly budget of that category. */
  lemma CategoryStatsFigures(ledger: seq<Transaction>, budgets: seq<Budget>, user: UserId,
                             year: int, month: int, now: DateTime, i: nat)
    requires CategoryStatsOf(ledger, budgets, user, year, month, now).Ok?
    requires i < |CategoryStatsOf(ledger, budgets, user, year, month, now).value|
    ensures var x := CategoryStatsOf(ledger, budgets, user, year, month, now).value[i];
      && x.totalSpent == KeyTotal(MonthRows(ledger, user, year, month), Category, x.category)
      && x.transactionCount == KeyCount(MonthRows(ledger, user, year, month), Category, x.category) >= 1
    ensures var x := CategoryStatsOf(ledger, budgets, user, year, month, now).value[i];
      IsMean(x.averageTransaction, x.totalSpent, x.transactionCount)
    ensures var x := CategoryStatsOf(ledger, budgets, user, year, month, now).value[i];
      x.budget.Some? <==> exists b :: b in budgets && ActiveMonthly(b, user, x.category)
  {
    var rows := MonthRows(ledger, user, year, month);
    var gs := RankedGroups(rows);
    RankedCountsPositive(rows);
    var g := gs[i];
    RankedMember(rows, g);
    var stats := StatsFor(gs, budgets, ledger, user, year, month, now);
    assert CategoryStatsOf(ledger, budgets, user, year, month, now).value == stats;
    assert stats[i] == StatFor(g, budgets, ledger, user, year, month, now);
  }

  /** A ranked group holds its category's total and row count. */
  lemma RankedMember(rows: seq<Transaction>, g: Group<string>)
    requires g in RankedGroups(rows)
    ensures g.total == KeyTotal(rows, Category, g.key) && g.count == KeyCount(rows, Category, g.key) >= 1
  {
    assert g in multiset(RankedGroups(rows));
    GroupMember(rows, Category, g);
  }

  // ---------------------------------------------------------------- mark_alert_read

  datatype AlertKind = WarningAlert | OverAlert | WeeklySummary | MonthlySummary

  /** A BudgetAlert row; `budget` is the id of its budget. */
  datatype Alert = Alert(id: nat, budget: nat, kind: AlertKind, message: string, isRead: bool)

  /** The alert with this id belongs to a budget of the user. */
  predicate OwnedBy(a: Alert, owners: map<nat, UserId>, id: nat, user: UserId) {
    a.id == id && a.budget in owners && owners[a.budget] == user
  }

  function FindOwned(alerts: seq<Alert>, owners: map<nat, UserId>, id: nat, user: UserId): (r: Option<nat>)
    ensures r.Some? ==> r.value < |alerts| && OwnedBy(alerts[r.value], owners, id, user)
    ensures r.None? ==> forall i :: 0 <= i < |alerts| ==> !OwnedBy(alerts[i], owners, id, user)
  {
    if |alerts| == 0 then None
    else if OwnedBy(alerts[0], owners, id, user) then Some(0)
    else
      match FindOwned(alerts[1..], owners, id, user)
      case None => None
      case Some(k) => Some(k + 1)
  }

  /** The alerts after mark_alert_read: not found, or the owned alert with that id
      flagged read. */
  function MarkedRead(alerts: seq<Alert>, owners: map<nat, UserId>, id: nat, user: UserId): Result<seq<Alert>> {
    match FindOwned(alerts, owners, id, user)
    case None => Err(NotFound)
    case Some(i) => Ok(alerts[i := alerts[i].(isRead := true)])
  }

  predicate DistinctAlertIds(alerts: seq<Alert>) {
    forall i, j :: 0 <= i < j < |alerts| ==> alerts[i].id != alerts[j].id
  }

  /** Marking succeeds exactly when an alert with that id belongs to one of the user's
      budgets; then that alert, and only it, becomes read and keeps its other fields. */
  lemma MarkedReadMeaning(alerts: seq<Alert>, owners: map<nat, UserId>, id: nat, user: UserId)
    requires DistinctAlertIds(alerts)
    ensures MarkedRead(alerts, owners, id, user).Ok? <==>
      exists i :: 0 <= i < |alerts| && OwnedBy(alerts[i], owners, id, user)
    ensures MarkedRead(alerts, owners, id, user).Ok? ==>
      var a := MarkedRead(alerts, owners, id, user).value;
      && |a| == |alerts|
      && forall i :: 0 <= i < |alerts| ==>
           if alerts[i].id == id then a[i] == alerts[i].(isRead := true) else a[i] == alerts[i]
    ensures MarkedRead(alerts, owners, id, user).Ok? ==> DistinctAlertIds(MarkedRead(alerts, owners, id, user).value)
  {
  }

  /** Marking twice is marking once. */
  lemma MarkedReadIdempotent(alerts: seq<Alert>, owners: map<nat, UserId>, id: nat, user: UserId)
    requires MarkedRead(alerts, owners, id, user).Ok?
    ensures MarkedRead(MarkedRead(alerts, owners, id, user).value, owners, id, user)
         == MarkedRead(alerts, owners, id, user)
  {
    var i := FindOwned(alerts, owners, id, user).value;
    var a := alerts[i := alerts[i].(isRead := true)];
    FindOwnedIgnoresRead(alerts, owners, id, user, i);
    assert a[i := a[i].(isRead := true)] == a;
  }

  /** The lookup ignores is_read, so flagging an alert does not move it. */
  lemma {:induction false} FindOwnedIgnoresRead(alerts: seq<Alert>, owners: map<nat, UserId>, id: nat, user: UserId, k: nat)
    requires k < |alerts|
    ensures FindOwned(alerts[k := alerts[k].(isRead := true)], owners, id, user) == FindOwned(alerts, owners, id, user)
  {
    if |alerts| > 0 && k > 0 {
      assert alerts[k := alerts[k].(isRead := true)][1..] == alerts[1..][k - 1 := alerts[1..][k - 1].(isRead := true)];
      FindOwnedIgnoresRead(alerts[1..], owners, id, user, k - 1);
    }
  }

  /** The user's alerts and, per budget id, the budget's owner. */
  class AlertBoard {
    var alerts: seq<Alert>
    var owners: map<nat, UserId>

    ghost predicate Valid()
      reads this
    {
      DistinctAlertIds(alerts)
    }

    constructor (alerts0: seq<Alert>, owners0: map<nat, UserId>)
      requires DistinctAlertIds(alerts0)
      ensures Valid() && alerts == alerts0 && owners == owners0
    {
      alerts := alerts0;
      owners := owners0;
    }

    /** mark_alert_read: BudgetAlert.objects.get(id=id, budget__user=user), set is_read
        and save; not found leaves everything as it was. */
    method MarkRead(id: nat, user: UserId) returns (r: Result<()>)
      requires Valid()
      modifies this
      ensures Valid() && owners == old(owners)
      ensures MarkedRead(old(alerts), owners, id, user).Ok? ==>
        r == Ok(()) && alerts == MarkedRead(old(alerts), owners, id, user).value
      ensures MarkedRead(old(alerts), owners, id, user).Err? ==>
        r == Err(NotFound) && alerts == old(alerts)
    {
      MarkedReadMeaning(alerts, owners, id, user);
      var found := FindOwned(alerts, owners, id, user);
      if found.None? {
        return Err(NotFound);
      }
      var i := found.value;
      alerts := alerts[i := alerts[i].(isRead := true)];
      r := Ok(());
    }
  }
}
