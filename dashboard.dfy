/** The dashboard of src/pages/Dashboard.tsx: the month listing, the summary
    it computes from that listing (sales, profit, count and the first and last
    day of the month), the five most recent transactions it shows and the
    "see all" button it adds when there are more. */
module Dashboard {
  import opened Types
  import opened Utils
  import opened TransactionContext
  import opened Listing

  /** `filteredTransactions.reduce((sum, t) => sum + t.totalAmount, 0)`. */
  function TotalSales(s: seq<Transaction>): int {
    if s == [] then 0 else TotalSales(s[..|s| - 1]) + s[|s| - 1].totalAmount
  }

  /** `filteredTransactions.reduce((sum, t) => sum + t.profit, 0)`. */
  function TotalProfit(s: seq<Transaction>): int {
    if s == [] then 0 else TotalProfit(s[..|s| - 1]) + s[|s| - 1].profit
  }

  lemma {:induction false} SalesAndProfitOfConcat(a: seq<Transaction>, b: seq<Transaction>)
    ensures TotalSales(a + b) == TotalSales(a) + TotalSales(b)
    ensures TotalProfit(a + b) == TotalProfit(a) + TotalProfit(b)
    decreases |b|
  {
    if b != [] {
      var init := b[..|b| - 1];
      assert (a + b)[..|a + b| - 1] == a + init;
      SalesAndProfitOfConcat(a, init);
    } else {
      assert a + b == a;
    }
  }

  lemma SalesAndProfitOfOne(t: Transaction)
    ensures TotalSales([t]) == t.totalAmount && TotalProfit([t]) == t.profit
  {
    assert [t][..0] == [];
  }

  /** Taking a transaction out of a list takes its amounts out of the sums. */
  lemma SalesAndProfitOfSplice(before: seq<Transaction>, x: Transaction, after: seq<Transaction>)
    ensures TotalSales(before + [x] + after) == TotalSales(before + after) + x.totalAmount
    ensures TotalProfit(before + [x] + after) == TotalProfit(before + after) + x.profit
  {
    SalesAndProfitOfConcat(before + [x], after);
    SalesAndProfitOfConcat(before, [x]);
    SalesAndProfitOfOne(x);
    SalesAndProfitOfConcat(before, after);
  }

  lemma MultisetOfSplice(before: seq<Transaction>, x: Transaction, after: seq<Transaction>)
    ensures multiset(before + [x] + after) == multiset(before + after) + multiset{x}
  {
    assert multiset(before + [x] + after) == multiset(before) + multiset{x} + multiset(after);
  }

  lemma CancelOne(p: multiset<Transaction>, q: multiset<Transaction>, x: Transaction)
    requires p + multiset{x} == q + multiset{x}
    ensures p == q
  {
    assert p == (p + multiset{x}) - multiset{x};
    assert q == (q + multiset{x}) - multiset{x};
  }

  /** The last transaction of `a` sits at some index `k` of a permutation
      `b`, and the rest of `a` is a permutation of `b` without it. */
  lemma MatchLast(a: seq<Transaction>, b: seq<Transaction>) returns (k: nat)
    requires multiset(a) == multiset(b) && a != []
    ensures k < |b| && b[k] == a[|a| - 1]
    ensures b == b[..k] + [b[k]] + b[k + 1..]
    ensures multiset(a[..|a| - 1]) == multiset(b[..k] + b[k + 1..])
  {
    var init, x := a[..|a| - 1], a[|a| - 1];
    assert a == init + [x];
    assert x in multiset(b);
    k :| 0 <= k < |b| && b[k] == x;
    var before, after := b[..k], b[k + 1..];
    assert b == before + [x] + after;
    MultisetOfSplice(before, x, after);
    MultisetOfSplice(init, x, []);
    assert init + [x] + [] == a && init + [] == init;
    CancelOne(multiset(init), multiset(before + after), x);
  }

  /** The sums do not depend on the order: any two lists holding the same
      transactions have the same sales and the same profit. */
  lemma {:induction false} SalesAndProfitOfPermutation(a: seq<Transaction>, b: seq<Transaction>)
    requires multiset(a) == multiset(b)
    ensures TotalSales(a) == TotalSales(b) && TotalProfit(a) == TotalProfit(b)
    decreases |a|
  {
    if a == [] {
      assert |b| == |multiset(b)| == 0;
    } else {
      var k := MatchLast(a, b);
      SalesAndProfitOfPermutation(a[..|a| - 1], b[..k] + b[k + 1..]);
      SalesAndProfitOfSplice(b[..k], b[k], b[k + 1..]);
    }
  }

  /** Gregorian leap years, counted proleptically as `Date` does. */
  predicate IsLeapYear(year: int) {
    year % 4 == 0 && (year % 100 != 0 || year % 400 == 0)
  }

  function DaysInMonth(year: int, month0: Month0): int {
    if month0 == 1 then (if IsLeapYear(year) then 29 else 28)
    else if month0 == 3 || month0 == 5 || month0 == 8 || month0 == 10 then 30
    else 31
  }

  /** The year `new Date(year, month, day)` starts from: 0 to 99 mean 1900 to
      1999. */
  function JsFullYear(year: int): int {
    if 0 <= year <= 99 then 1900 + year else year
  }

  /** `new Date(year, month, day)` as a calendar day, for days 0 to 28: the
      month is carried into the year, and day 0 is the last day of the month
      before. */
  function MakeDay(year: int, month: int, day: int): (r: CalendarDay)
    requires 0 <= day <= 28
    ensures 1 <= r.day <= 31
    ensures r.day == if day > 0 then day else DaysInMonth(r.year, r.month0)
    ensures day > 0 ==> r.year * 12 + r.month0 == JsFullYear(year) * 12 + month
    ensures day == 0 ==> r.year * 12 + r.month0 == JsFullYear(year) * 12 + month - 1
  {
    var y := JsFullYear(year) + month / 12;
    var m: Month0 := month % 12;
    if day > 0 then CalendarDay(y, m, day)
    else if m == 0 then CalendarDay(y - 1, 11, 31)
    else CalendarDay(y, m - 1, DaysInMonth(y, m - 1))
  }

  /** `new Date(selectedYear, selectedMonth, 1)`. */
  function PeriodStart(year: int, month0: Month0): CalendarDay {
    MakeDay(year, month0, 1)
  }

  /** `new Date(selectedYear, selectedMonth + 1, 0)`. */
  function PeriodEnd(year: int, month0: Month0): CalendarDay {
    MakeDay(year, month0 + 1, 0)
  }

  /** The period runs from the first to the last day of the selected month,
      December included, whose end comes from the next year's January. */
  lemma PeriodBounds(year: int, month0: Month0)
    ensures PeriodStart(year, month0) == CalendarDay(JsFullYear(year), month0, 1)
    ensures PeriodEnd(year, month0) == CalendarDay(JsFullYear(year), month0, DaysInMonth(JsFullYear(year), month0))
    ensures 28 <= PeriodEnd(year, month0).day <= 31
  {
    if month0 == 11 {
      assert (month0 + 1) / 12 == 1 && (month0 + 1) % 12 == 0;
    } else {
      assert (month0 + 1) / 12 == 0 && (month0 + 1) % 12 == month0 + 1;
    }
  }

  /** February ends on the 29th exactly in leap years. */
  lemma FebruaryEnd(year: int)
    requires !(0 <= year <= 99)
    ensures PeriodEnd(year, 1).day == 29 <==> IsLeapYear(year)
  {
    PeriodBounds(year, 1);
  }

  lemma PeriodEndExamples()
    ensures PeriodEnd(2024, 1) == CalendarDay(2024, 1, 29)
    ensures PeriodEnd(2023, 1) == CalendarDay(2023, 1, 28)
    ensures PeriodEnd(1900, 1) == CalendarDay(1900, 1, 28)
    ensures PeriodEnd(2000, 1) == CalendarDay(2000, 1, 29)
    ensures PeriodEnd(2024, 11) == CalendarDay(2024, 11, 31)
    ensures PeriodEnd(2024, 3) == CalendarDay(2024, 3, 30)
  {
    PeriodBounds(2024, 1);
    PeriodBounds(2023, 1);
    PeriodBounds(1900, 1);
    PeriodBounds(2000, 1);
    PeriodBounds(2024, 11);
    PeriodBounds(2024, 3);
  }

  /** Outside years 0 to 99 the period lies in the year the listing filters
      on; inside them it lies 1900 years later. */
  lemma PeriodYearAgainstFilterYear(year: int, month0: Month0)
    ensures PeriodStart(year, month0).year == PeriodEnd(year, month0).year
    ensures PeriodStart(year, month0).year == year <==> !(0 <= year <= 99)
  {
    PeriodBounds(year, month0);
  }

  /** The `DashboardSummary` record. */
  datatype DashboardSummary = DashboardSummary(
    totalSales: int,
    totalProfit: int,
    transactionCount: nat,
    periodStart: CalendarDay,
    periodEnd: CalendarDay)

  /** How many transactions "Transaksi Terbaru" shows. */
  const RecentCount: nat := 5

  /** What the dashboard renders for one selected month. */
  datatype DashboardView = DashboardView(
    filtered: seq<Transaction>,
    summary: DashboardSummary,
    recent: seq<Transaction>,
    showSeeAll: bool)

  /** `filteredTransactions.slice(0, 5)`: the first five of a newest-first
      listing, or all of it when it is shorter, and none of the others is
      newer than any of them. */
  function MostRecent(filtered: seq<Transaction>): (r: seq<Transaction>)
    requires NewestFirst(filtered)
    ensures |r| == if |filtered| < RecentCount then |filtered| else RecentCount
    ensures r == filtered[..|r|]
    ensures forall i, j :: 0 <= i < |r| <= j < |filtered| ==> r[i].date.timestamp >= filtered[j].date.timestamp
  {
    filtered[..if |filtered| < RecentCount then |filtered| else RecentCount]
  }

  /** The `summary` of a month's listing. */
  function Summarize(filtered: seq<Transaction>, year: int, month0: Month0): (s: DashboardSummary)
    ensures s.totalSales == TotalSales(filtered) && s.totalProfit == TotalProfit(filtered)
    ensures s.transactionCount == |filtered|
    ensures s.periodStart == CalendarDay(JsFullYear(year), month0, 1)
    ensures s.periodEnd == CalendarDay(JsFullYear(year), month0, DaysInMonth(JsFullYear(year), month0))
  {
    PeriodBounds(year, month0);
    DashboardSummary(TotalSales(filtered), TotalProfit(filtered), |filtered|,
                     PeriodStart(year, month0), PeriodEnd(year, month0))
  }

  /** The listing, its `summary`, the recent transactions and the
      `filteredTransactions.length > 5` condition of the "see all" button. */
  function BuildDashboard(ts: seq<Transaction>, year: int, month0: Month0): (v: DashboardView)
    ensures NewestFirst(v.filtered)
    ensures multiset(v.filtered) == multiset(TransactionsByMonth(ts, year, month0))
    ensures v.summary.transactionCount == |TransactionsByMonth(ts, year, month0)|
    ensures v.summary.totalSales == TotalSales(TransactionsByMonth(ts, year, month0))
    ensures v.summary.totalProfit == TotalProfit(TransactionsByMonth(ts, year, month0))
    ensures v.summary.periodStart == CalendarDay(JsFullYear(year), month0, 1)
    ensures v.summary.periodEnd == CalendarDay(JsFullYear(year), month0, DaysInMonth(JsFullYear(year), month0))
    ensures v.recent == MostRecent(v.filtered)
    ensures v.showSeeAll <==> |v.recent| < |v.filtered|
    ensures forall t :: t in v.recent ==> t in ts && InMonth(t, year, month0)
  {
    var filtered := FilteredTransactions(ts, year, month0);
    SalesAndProfitOfPermutation(filtered, TransactionsByMonth(ts, year, month0));
    var recent := MostRecent(filtered);
    assert forall t :: t in recent ==> t in filtered;
    DashboardView(filtered, Summarize(filtered, year, month0), recent, |filtered| > RecentCount)
  }

  /** The count on the dashboard is the count the next id of that month is
      numbered after. */
  lemma CountIsNextSequence(ts: seq<Transaction>, date: Date)
    ensures BuildDashboard(ts, date.year, date.month0).summary.transactionCount == NextTransactionCount(ts, date)
  {
  }

  /** Adding a transaction dated in the selected month puts it in the listing
      and raises the count by one and the sums by its own totals. */
  lemma AddShowsOnDashboard(ts: seq<Transaction>, draft: TransactionDraft)
    ensures var t := NewTransaction(ts, draft);
            var before := BuildDashboard(ts, draft.date.year, draft.date.month0).summary;
            var after := BuildDashboard(ts + [t], draft.date.year, draft.date.month0);
            && t in after.filtered
            && after.summary.transactionCount == before.transactionCount + 1
            && after.summary.totalSales == before.totalSales + CalculateTransactionTotals(draft.items).totalAmount
            && after.summary.totalProfit == before.totalProfit + CalculateTransactionTotals(draft.items).profit
  {
    var t := NewTransaction(ts, draft);
    var y, m := draft.date.year, draft.date.month0;
    TransactionsByMonthOfConcat(ts, [t], y, m);
    assert TransactionsByMonth([t], y, m) == [t] by {
      assert [t][..0] == [];
    }
    SalesAndProfitOfConcat(TransactionsByMonth(ts, y, m), [t]);
    SalesAndProfitOfOne(t);
    TransactionsByMonthMembers(ts + [t], y, m);
    assert t in multiset(BuildDashboard(ts + [t], y, m).filtered);
  }

  /** A transaction dated in another month leaves the selected month's
      summary as it was. */
  lemma AddElsewhereLeavesSummary(ts: seq<Transaction>, draft: TransactionDraft, year: int, month0: Month0)
    requires draft.date.year != year || draft.date.month0 != month0
    ensures BuildDashboard(ts + [NewTransaction(ts, draft)], year, month0).summary
         == BuildDashboard(ts, year, month0).summary
  {
    var t := NewTransaction(ts, draft);
    TransactionsByMonthOfConcat(ts, [t], year, month0);
    assert TransactionsByMonth([t], year, month0) == [] by {
      assert [t][..0] == [];
    }
    assert TransactionsByMonth(ts, year, month0) + [] == TransactionsByMonth(ts, year, month0);
  }

  /** After `deleteTransaction(id)` no transaction with that id is listed. */
  lemma DeleteHidesFromDashboard(ts: seq<Transaction>, id: string, year: int, month0: Month0)
    ensures forall t :: t in BuildDashboard(RemoveTransactions(ts, id), year, month0).filtered ==> t.id != id
  {
    RemoveTransactionsMembers(ts, id);
  }
}
