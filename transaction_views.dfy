/** transactions/views.py: TransactionViewSet's queryset and its summary, recent and
    time_series actions, as aggregates over the ledger. */
module TransactionViews {
  import opened Outcomes
  import opened Calendar
  import opened TransactionModels
  import opened Aggregates
  import opened Sorting

  // ---------------------------------------------------------------- get_queryset

  /** get_queryset: the requesting user's rows, in ledger order. */
  function UserTransactions(ledger: seq<Transaction>, user: UserId): (r: seq<Transaction>)
    ensures forall t :: t in r <==> t in ledger && t.user == user
  {
    Where(ledger, (t: Transaction) => t.user == user)
  }

  // ---------------------------------------------------------------- summary

  /** The user's rows of one type. */
  function OfKind(ledger: seq<Transaction>, user: UserId, kind: Kind): (r: seq<Transaction>)
    ensures forall t :: t in r <==> t in ledger && t.user == user && t.kind == kind
  {
    Where(ledger, (t: Transaction) => t.user == user && t.kind == kind)
  }

  /** The summary response; `values('category').annotate(total=Sum('amount'))` groups
      come in order of first appearance (the query names no order), and the row count of
      each group goes unused. */
  datatype TransactionSummary = TransactionSummary(
    totalIncome: int, totalExpenses: int,
    expensesByCategory: seq<Group<string>>, incomeByCategory: seq<Group<string>>)

  function SummaryOf(ledger: seq<Transaction>, user: UserId): TransactionSummary {
    var income := OfKind(ledger, user, Income);
    var expenses := OfKind(ledger, user, Expense);
    TransactionSummary(Total(income), Total(expenses),
                       GroupBy(expenses, Category), GroupBy(income, Category))
  }

  /** The totals are the sums of the user's income and of their expense amounts, 0 when
      there are none; each type's per-category totals add up to that type's total, with
      one group per category present, holding that category's sum. */
  lemma SummaryMeaning(ledger: seq<Transaction>, user: UserId)
    ensures
      var s := SummaryOf(ledger, user);
      var income := OfKind(ledger, user, Income);
      var expenses := OfKind(ledger, user, Expense);
      && SumTotals(s.incomeByCategory) == s.totalIncome
      && SumTotals(s.expensesByCategory) == s.totalExpenses
      && DistinctKeys(s.incomeByCategory) && DistinctKeys(s.expensesByCategory)
      && (forall c :: TotalOf(s.incomeByCategory, c) == KeyTotal(income, Category, c))
      && (forall c :: TotalOf(s.expensesByCategory, c) == KeyTotal(expenses, Category, c))
      && (income == [] ==> s.totalIncome == 0 && s.incomeByCategory == [])
      && (expenses == [] ==> s.totalExpenses == 0 && s.expensesByCategory == [])
  {
    GroupByCorrect(OfKind(ledger, user, Income), Category);
    GroupByCorrect(OfKind(ledger, user, Expense), Category);
  }

  // ---------------------------------------------------------------- recent

  /** order_by('-date'): a newer or equal date first. */
  predicate NewerFirst(a: Transaction, b: Transaction) {
    MomentLe(MomentOf(b.date), MomentOf(a.date))
  }

  lemma NewerFirstIsTotalPreorder()
    ensures TotalPreorder(NewerFirst)
  {
  }

  const RecentCount: nat := 5

  /** recent: the user's rows newest first, cut to five. */
  function Recent(ledger: seq<Transaction>, user: UserId): seq<Transaction> {
    var sorted := SortBy(UserTransactions(ledger, user), NewerFirst);
    if |sorted| <= RecentCount then sorted else sorted[..RecentCount]
  }

  /** recent returns min(5, n) of the user's n rows, newest first, and every row left
      out is no newer than the oldest one returned. */
  lemma RecentMeaning(ledger: seq<Transaction>, user: UserId)
    ensures
      var rows := UserTransactions(ledger, user);
      var r := Recent(ledger, user);
      && |r| == (if |rows| <= RecentCount then |rows| else RecentCount)
      && multiset(r) <= multiset(rows)
      && (forall t :: t in r ==> t in ledger && t.user == user)
      && SortedBy(r, NewerFirst)
      && (forall t :: t in multiset(rows) - multiset(r) ==> NewerFirst(r[|r| - 1], t))
  {
    var rows := UserTransactions(ledger, user);
    var sorted := SortBy(rows, NewerFirst);
    SortedNewestFirst(rows);
    var k := if |sorted| <= RecentCount then |sorted| else RecentCount;
    PrefixFacts(sorted, k);
    var r := sorted[..k];
    assert Recent(ledger, user) == r;
    forall t | t in r ensures t in ledger && t.user == user {
      assert t in multiset(r);
      assert t in multiset(rows);
      assert t in rows;
    }
  }

  /** Sorting newest first orders the rows and keeps each of them. */
  lemma SortedNewestFirst(rows: seq<Transaction>)
    ensures SortedBy(SortBy(rows, NewerFirst), NewerFirst)
    ensures multiset(SortBy(rows, NewerFirst)) == multiset(rows)
    ensures |SortBy(rows, NewerFirst)| == |rows|
  {
    NewerFirstIsTotalPreorder();
    SortByCorrect(rows, NewerFirst);
  }

  /** A prefix of a newest-first sequence: sorted, a sub-multiset, and every row after
      it no newer than its last row. */
  lemma PrefixFacts(sorted: seq<Transaction>, k: nat)
    requires k <= |sorted| && SortedBy(sorted, NewerFirst)
    ensures SortedBy(sorted[..k], NewerFirst)
    ensures multiset(sorted[..k]) <= multiset(sorted)
    ensures k > 0 ==> forall t :: t in multiset(sorted) - multiset(sorted[..k]) ==> NewerFirst(sorted[k - 1], t)
  {
    assert sorted == sorted[..k] + sorted[k..];
    assert multiset(sorted) == multiset(sorted[..k]) + multiset(sorted[k..]);
    if k > 0 {
      forall t | t in multiset(sorted) - multiset(sorted[..k]) ensures NewerFirst(sorted[k - 1], t) {
        assert t in sorted[k..];
        var j :| 0 <= j < |sorted[k..]| && sorted[k..][j] == t;
        assert sorted[k + j] == t;
      }
    }
  }

  // ---------------------------------------------------------------- time_series

  datatype Bucketing = ByWeek | ByDay | ByMonth

  /** The period parameter chooses the bucket and the number of days looked back:
      week, 12 weeks by week; day, 30 days by day; anything else, 360 days by month. */
  function Lookback(period: string): (r: (Bucketing, int))
    ensures period == "week" ==> r == (ByWeek, 84)
    ensures period == "day" ==> r == (ByDay, 30)
    ensures period != "week" && period != "day" ==> r == (ByMonth, 360)
  {
    if period == "week" then (ByWeek, 7 * 12)
    else if period == "day" then (ByDay, 30)
    else (ByMonth, 30 * 12)
  }

  /** The bucket of a row, as the day ordinal the truncation lands on. */
  function Bucket(b: Bucketing, t: Transaction): int {
    match b
    case ByWeek => TruncWeek(t.date)
    case ByDay => TruncDay(t.date)
    case ByMonth => TruncMonth(t.date)
  }

  function BucketKey(b: Bucketing): Transaction -> int {
    t => Bucket(b, t)
  }

  /** The rows of one series: the user's rows of the type dated at or after the start. */
  function SeriesRows(ledger: seq<Transaction>, user: UserId, kind: Kind, start: Moment): (r: seq<Transaction>)
    ensures forall t :: t in r <==> t in ledger && t.user == user && t.kind == kind && MomentLe(start, MomentOf(t.date))
  {
    Where(ledger, (t: Transaction) => t.user == user && t.kind == kind && MomentLe(start, MomentOf(t.date)))
  }

  /** order_by('period'). */
  predicate KeyAscending(a: Group<int>, b: Group<int>) {
    a.key <= b.key
  }

  lemma KeyAscendingIsTotalPreorder()
    ensures TotalPreorder(KeyAscending)
  {
  }

  /** One series of time_series: per bucket the summed amount, buckets ascending. */
  function Series(ledger: seq<Transaction>, user: UserId, kind: Kind, period: string, now: DateTime): seq<Group<int>> {
    var (bucketing, days) := Lookback(period);
    SortBy(GroupBy(SeriesRows(ledger, user, kind, DaysBefore(now, days)), BucketKey(bucketing)), KeyAscending)
  }

  datatype TimeSeries = TimeSeries(incomeSeries: seq<Group<int>>, expenseSeries: seq<Group<int>>)

  function TimeSeriesOf(ledger: seq<Transaction>, user: UserId, period: string, now: DateTime): TimeSeries {
    TimeSeries(Series(ledger, user, Income, period, now), Series(ledger, user, Expense, period, now))
  }

  predicate HasBucket(gs: seq<Group<int>>, k: int) {
    exists g :: g in gs && g.key == k
  }

  predicate RowInBucket(rows: seq<Transaction>, key: Transaction -> int, k: int) {
    exists t :: t in rows && key(t) == k
  }

  /** A series has strictly ascending buckets, one per bucket holding a row of its type
      at or after the start, each with the sum of exactly those rows. */
  lemma SeriesMeaning(ledger: seq<Transaction>, user: UserId, kind: Kind, period: string, now: DateTime)
    ensures
      var (bucketing, days) := Lookback(period);
      var rows := SeriesRows(ledger, user, kind, DaysBefore(now, days));
      var s := Series(ledger, user, kind, period, now);
      && (forall i, j :: 0 <= i < j < |s| ==> s[i].key < s[j].key)
      && (forall g :: g in s ==> g.total == KeyTotal(rows, BucketKey(bucketing), g.key) && g.count >= 1)
      && (forall k :: HasBucket(s, k) <==> RowInBucket(rows, BucketKey(bucketing), k))
      && SumTotals(s) == Total(rows)
  {
    var (bucketing, days) := Lookback(period);
    var rows := SeriesRows(ledger, user, kind, DaysBefore(now, days));
    var key := BucketKey(bucketing);
    var grouped := GroupBy(rows, key);
    var s := SortBy(grouped, KeyAscending);
    KeyAscendingIsTotalPreorder();
    SortByCorrect(grouped, KeyAscending);
    GroupByCorrect(rows, key);
    DistinctKeysPermutation(grouped, s);
    forall g | g in s ensures g.total == KeyTotal(rows, key, g.key) && g.count >= 1 {
      assert g in multiset(grouped);
      GroupMember(rows, key, g);
    }
    forall k ensures HasBucket(s, k) <==> RowInBucket(rows, key, k) {
      GroupKeys(rows, key, k);
      if HasBucket(grouped, k) {
        var g :| g in grouped && g.key == k;
        assert g in multiset(s);
      }
      if HasBucket(s, k) {
        var g :| g in s && g.key == k;
        assert g in multiset(grouped);
      }
    }
    SortKeepsTotals(grouped, KeyAscending);
  }

  /** A week bucket starts on the Monday of its row's week, a day bucket is the row's
      day and a month bucket is the first of the row's month. */
  lemma BucketMeaning(t: Transaction)
    ensures Weekday(Bucket(ByWeek, t)) == Monday
    ensures Bucket(ByWeek, t) <= DayOrdinal(t.date.date) < Bucket(ByWeek, t) + 7
    ensures Bucket(ByDay, t) == DayOrdinal(t.date.date)
    ensures ValidDate(t.date.date) ==>
      Bucket(ByMonth, t) <= DayOrdinal(t.date.date) < Bucket(ByMonth, t) + DaysInMonth(t.date.date.year, t.date.date.month)
  {
  }

  /** Sorting the buckets keeps the sum of their totals. */
  lemma {:induction false} SortKeepsTotals(gs: seq<Group<int>>, le: (Group<int>, Group<int>) -> bool)
    ensures SumTotals(SortBy(gs, le)) == SumTotals(gs)
  {
    if |gs| > 0 {
      SortKeepsTotals(gs[1..], le);
      InsertAddsTotal(gs[0], SortBy(gs[1..], le), le);
    }
  }

  lemma {:induction false} InsertAddsTotal(x: Group<int>, gs: seq<Group<int>>, le: (Group<int>, Group<int>) -> bool)
    ensures SumTotals(Insert(x, gs, le)) == x.total + SumTotals(gs)
  {
    if |gs| == 0 {
    } else if le(x, gs[0]) {
      assert ([x] + gs)[1..] == gs;
    } else {
      InsertAddsTotal(x, gs[1..], le);
      assert ([gs[0]] + Insert(x, gs[1..], le))[1..] == Insert(x, gs[1..], le);
    }
  }
}
