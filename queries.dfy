/** Read-side building blocks shared by the list, analytics and budget endpoints: a
    MongoDB `find` is a filter over a snapshot of the collection, taken in the order the
    query sorts by, and `reduce((sum, t) => sum + t.amount, 0)` is `SumAmounts`. */
module Queries {
  import opened Inputs
  import opened Calendar
  import opened Models

  // ---------------------------------------------------------------- filter and sum

  /** The rows satisfying `p`, in their original order. */
  function Where(rows: seq<Transaction>, p: Transaction -> bool): (r: seq<Transaction>)
    ensures |r| <= |rows|
    ensures forall t :: t in r <==> t in rows && p(t)
  {
    if rows == [] then []
    else
      var last := rows[|rows| - 1];
      Where(rows[..|rows| - 1], p) + (if p(last) then [last] else [])
  }

  /** The sum of the amounts, accumulated from the first row to the last. */
  function SumAmounts(rows: seq<Transaction>): int {
    if rows == [] then 0 else SumAmounts(rows[..|rows| - 1]) + rows[|rows| - 1].amount
  }

  lemma {:induction false} WhereAppend(a: seq<Transaction>, b: seq<Transaction>, p: Transaction -> bool)
    ensures Where(a + b, p) == Where(a, p) + Where(b, p)
    decreases |b|
  {
    if b == [] {
      assert a + b == a;
    } else {
      var last := b[|b| - 1];
      assert (a + b)[..|a + b| - 1] == a + b[..|b| - 1];
      WhereAppend(a, b[..|b| - 1], p);
    }
  }

  lemma {:induction false} SumAmountsAppend(a: seq<Transaction>, b: seq<Transaction>)
    ensures SumAmounts(a + b) == SumAmounts(a) + SumAmounts(b)
    decreases |b|
  {
    if b == [] {
      assert a + b == a;
    } else {
      assert (a + b)[..|a + b| - 1] == a + b[..|b| - 1];
      SumAmountsAppend(a, b[..|b| - 1]);
    }
  }

  /** Stored amounts are never negative, so neither is any sum of them. */
  lemma {:induction false} SumAmountsNonNegative(rows: seq<Transaction>)
    requires forall i | 0 <= i < |rows| :: rows[i].amount >= 0
    ensures SumAmounts(rows) >= 0
  {
    if rows != [] {
      SumAmountsNonNegative(rows[..|rows| - 1]);
    }
  }

  // ---------------------------------------------------------------- totals by type

  /** `filter((t) => t.type === kind)`. */
  function OfKind(rows: seq<Transaction>, kind: TxType): seq<Transaction> {
    Where(rows, (t: Transaction) => t.kind == kind)
  }

  /** `filter` by type, then `reduce` over the amounts. */
  function KindTotal(rows: seq<Transaction>, kind: TxType): int {
    SumAmounts(OfKind(rows, kind))
  }

  /** One more row adds its amount to the total of its own type only. */
  lemma KindTotalSnoc(rows: seq<Transaction>, t: Transaction, kind: TxType)
    ensures KindTotal(rows + [t], kind) == KindTotal(rows, kind) + (if t.kind == kind then t.amount else 0)
  {
    var s := rows + [t];
    assert s[..|s| - 1] == rows;
    var before := OfKind(rows, kind);
    if t.kind == kind {
      assert OfKind(s, kind) == before + [t];
      assert (before + [t])[..|before|] == before;
    } else {
      assert OfKind(s, kind) == before;
    }
  }

  /** Every row is either income or expense, so the two totals add up to the sum of
      all amounts. */
  lemma {:induction false} KindTotalsPartition(rows: seq<Transaction>)
    ensures KindTotal(rows, Income) + KindTotal(rows, Expense) == SumAmounts(rows)
    decreases |rows|
  {
    if rows != [] {
      var init := rows[..|rows| - 1];
      var last := rows[|rows| - 1];
      assert rows == init + [last];
      KindTotalsPartition(init);
      KindTotalSnoc(init, last, Income);
      KindTotalSnoc(init, last, Expense);
    }
  }

  /** The three figures both analytics endpoints report. */
  datatype Totals = Totals(totalIncome: int, totalExpense: int, netSavings: int)

  function TotalsOf(rows: seq<Transaction>): (r: Totals)
    ensures r.netSavings == r.totalIncome - r.totalExpense
    ensures r.totalIncome + r.totalExpense == SumAmounts(rows)
  {
    KindTotalsPartition(rows);
    var income := KindTotal(rows, Income);
    var expense := KindTotal(rows, Expense);
    Totals(income, expense, income - expense)
  }

  /** With amounts that are never negative, both totals are non-negative and net savings
      never exceed total income. */
  lemma TotalsBounds(rows: seq<Transaction>)
    requires forall i | 0 <= i < |rows| :: rows[i].amount >= 0
    ensures TotalsOf(rows).totalIncome >= 0 && TotalsOf(rows).totalExpense >= 0
    ensures TotalsOf(rows).netSavings <= TotalsOf(rows).totalIncome
  {
    forall kind: TxType
      ensures KindTotal(rows, kind) >= 0
    {
      var picked := OfKind(rows, kind);
      forall i | 0 <= i < |picked|
        ensures picked[i].amount >= 0
      {
        assert picked[i] in rows;
      }
      SumAmountsNonNegative(picked);
    }
  }

  // ---------------------------------------------------------------- date ranges

  /** A `{ $gte: start, $lte: end }` condition on the date: both bounds inclusive. */
  datatype Window = Window(start: Instant, end: Instant)

  predicate InWindow(t: Instant, w: Window) {
    AtOrBefore(w.start, t) && AtOrBefore(t, w.end)
  }

  /** `Transaction.find({ userId, date: window })`. */
  function Select(rows: seq<Transaction>, userId: UserId, w: Window): (r: seq<Transaction>)
    ensures forall t :: t in r <==> t in rows && t.userId == userId && InWindow(t.date, w)
  {
    Where(rows, (t: Transaction) => t.userId == userId && InWindow(t.date, w))
  }

  lemma SelectSnoc(rows: seq<Transaction>, t: Transaction, userId: UserId, w: Window)
    ensures Select(rows + [t], userId, w)
            == Select(rows, userId, w) + (if t.userId == userId && InWindow(t.date, w) then [t] else [])
  {
    assert (rows + [t])[..|rows|] == rows;
  }

  /** `new Date(year, month - 1, 1)` to `new Date(year, month, 0, 23, 59, 59)`: a
      calendar month as the budget projection and the month view compute it, in the
      year `new Date` reads `year` as. */
  function CalendarMonth(year: int, month: int): (w: Window)
    requires 1 <= month <= 12
    ensures w.start == Moment(FullYear(year), month, 1, 0)
    ensures w.end == Moment(FullYear(year), month, DaysInMonth(FullYear(year), month), LastSecondMs)
  {
    FirstOfMonth(year, month);
    DayZeroIsLastDay(year, month, LastSecondMs);
    Window(MakeDate(year, month - 1, 1, 0), MakeDate(year, month, 0, LastSecondMs))
  }

  /** The window stops at 23:59:59.000 of the last day: the final 999 milliseconds of
      the month are outside it, though they belong to the month. */
  lemma CalendarMonthMissesLastMoments(year: int, month: int, ms: int)
    requires 1 <= month <= 12
    requires LastSecondMs < ms < MsPerDay
    ensures var y := FullYear(year);
            && ValidMoment(Moment(y, month, DaysInMonth(y, month), ms))
            && !InWindow(Moment(y, month, DaysInMonth(y, month), ms), CalendarMonth(year, month))
  {
    var w := CalendarMonth(year, month);
    var y := FullYear(year);
    var t: Instant := Moment(y, month, DaysInMonth(y, month), ms);
    EpochOrder(t, w.end);
  }

  /** Every instant of the month up to 23:59:59.000 on its last day is inside the window,
      and no instant of another month is; for a two-digit year that month lies in the
      1900s. */
  lemma CalendarMonthContains(year: int, month: int, t: Instant)
    requires 1 <= month <= 12
    ensures InWindow(t, CalendarMonth(year, month)) <==>
              && t.year == FullYear(year) && t.month == month
              && (t.day < DaysInMonth(t.year, month) || t.ms <= LastSecondMs)
  {
    var w := CalendarMonth(year, month);
    EpochOrder(w.start, t);
    EpochOrder(t, w.end);
    DayNumberOrder(w.start, t);
    DayNumberOrder(t, w.end);
  }

  /** A month window built from a two-digit year misses every date of that year. */
  lemma TwoDigitMonthMissesItsYear(t: Instant)
    requires TwoDigitYear(t.year)
    ensures !InWindow(t, CalendarMonth(t.year, t.month))
  {
    CalendarMonthContains(t.year, t.month, t);
  }

  // ---------------------------------------------------------------- the transaction list

  /** The optional query-string filters of the transaction list. A filter that is
      absent or empty is `None`. */
  datatype ListQuery = ListQuery(
    accountId: Option<AccountId>,
    kind: Option<string>,
    startDate: Option<Instant>,
    endDate: Option<Instant>)

  predicate MatchesQuery(t: Transaction, userId: UserId, q: ListQuery) {
    && t.userId == userId
    && (q.accountId.Some? ==> t.accountId == q.accountId.value)
    && (q.kind.Some? ==> TxTypeName(t.kind) == q.kind.value)
    && (q.startDate.Some? ==> AtOrBefore(q.startDate.value, t.date))
    && (q.endDate.Some? ==> AtOrBefore(t.date, q.endDate.value))
  }

  function Matching(rows: seq<Transaction>, userId: UserId, q: ListQuery): (r: seq<Transaction>)
    ensures forall t :: t in r <==> t in rows && MatchesQuery(t, userId, q)
  {
    Where(rows, (t: Transaction) => MatchesQuery(t, userId, q))
  }

  /** `Math.min(Math.max(parseInt(limit, 10) || 50, 1), 200)` with `limit` defaulting to
      50: a missing, unparsable or zero limit means 50, anything else is clamped into
      1 through 200. */
  function ClampLimit(limit: Option<Numeric>): (n: int)
    ensures 1 <= n <= 200
    ensures limit.None? || limit == Some(NotANumber) || limit == Some(Finite(0)) ==> n == 50
    ensures limit.Some? && limit.value.Finite? && 1 <= limit.value.v <= 200 ==> n == limit.value.v
    ensures limit.Some? && limit.value.Finite? && limit.value.v > 200 ==> n == 200
    ensures limit.Some? && limit.value.Finite? && limit.value.v < 0 ==> n == 1
  {
    var parsed := limit.GetOr(Finite(50));
    var wanted := if parsed.Finite? && parsed.v != 0 then parsed.v else 50;
    if wanted < 1 then 1 else if wanted > 200 then 200 else wanted
  }

  /** `getTransactions`: the user's transactions that pass every given filter, in query
      order, cut to the clamped limit. */
  function ListTransactions(rows: seq<Transaction>, userId: UserId, q: ListQuery, limit: Option<Numeric>)
    : (r: seq<Transaction>)
    ensures |r| <= ClampLimit(limit) && |r| <= |Matching(rows, userId, q)|
    ensures r == Matching(rows, userId, q)[..|r|]
    ensures |r| == ClampLimit(limit) || r == Matching(rows, userId, q)
    ensures forall t | t in r :: t in rows && MatchesQuery(t, userId, q)
  {
    var matching := Matching(rows, userId, q);
    var n := ClampLimit(limit);
    if |matching| <= n then matching else matching[..n]
  }

  /** When no more rows match than the limit allows, every matching row is listed. */
  lemma ListIsCompleteUnderLimit(rows: seq<Transaction>, userId: UserId, q: ListQuery, limit: Option<Numeric>,
                                 t: Transaction)
    requires |Matching(rows, userId, q)| <= ClampLimit(limit)
    requires t in rows && MatchesQuery(t, userId, q)
    ensures t in ListTransactions(rows, userId, q, limit)
  {
  }
}
