/** The analytics controller: a period report (window, totals, per-day trends and an
    expense breakdown by category) and a calendar-aligned snapshot (today, week, month
    or year). Both only read; the transactions they see are a snapshot of the collection
    in the order the query sorts by. */
module Analytics {
  import opened Inputs
  import opened Calendar
  import opened Models
  import opened Queries

  // ---------------------------------------------------------------- the default window

  /** Where the default window of each `period` starts, for a window ending at `end`.
      The yearly and monthly starts are built with `new Date(year, ...)`, which reads a
      two-digit year as one of the 1900s. */
  predicate IsPeriodStart(period: string, end: Instant, start: Instant) {
    if period == "daily" then start == Moment(end.year, end.month, end.day, 0)
    else if period == "weekly" then start.ms == end.ms && DayNumber(start) == DayNumber(end) - 7
    else if period == "yearly" then start == Moment(FullYear(end.year), 1, 1, 0)
    else start == Moment(FullYear(end.year), end.month, 1, 0)
  }

  /** The periods whose start is moved back from a copy of the end date. */
  predicate MovesEndBack(period: string) {
    period == "daily" || period == "weekly"
  }

  /** An instant is fixed by its calendar day number and its time of day. */
  lemma InstantFromDayNumber(a: Instant, b: Instant)
    requires DayNumber(a) == DayNumber(b) && a.ms == b.ms
    ensures a == b
  {
    DayNumberOrder(a, b);
  }

  /** The default start is well defined: each period names exactly one instant. */
  lemma PeriodStartUnique(period: string, end: Instant, s1: Instant, s2: Instant)
    requires IsPeriodStart(period, end, s1) && IsPeriodStart(period, end, s2)
    ensures s1 == s2
  {
    if period == "weekly" {
      InstantFromDayNumber(s1, s2);
    }
  }

  lemma DailyStart(end: Instant)
    ensures IsPeriodStart("daily", end, SetTime(end, 0)) && AtOrBefore(SetTime(end, 0), end)
  {
    CalendarOrder(SetTime(end, 0), end);
  }

  lemma WeeklyStart(end: Instant)
    ensures IsPeriodStart("weekly", end, SetDate(end, end.day - 7)) && AtOrBefore(SetDate(end, end.day - 7), end)
  {
    EpochOrder(SetDate(end, end.day - 7), end);
  }

  /** A start in the year `new Date` reads `end.year` as, on a day of that year no later
      than `end`'s, comes no later than `end` exactly when that year is `end`'s own. */
  lemma StartInReadYear(end: Instant, start: Instant)
    requires start.year == FullYear(end.year) && start.ms == 0
    requires start.month < end.month || (start.month == end.month && start.day <= end.day)
    ensures AtOrBefore(start, end) <==> !TwoDigitYear(end.year)
  {
    if TwoDigitYear(end.year) {
      DayNumberOrder(end, start);
      EpochOrder(start, end);
    } else {
      CalendarOrder(start, end);
    }
  }

  lemma YearlyStart(end: Instant)
    ensures ValidMoment(Moment(FullYear(end.year), 1, 1, 0))
    ensures IsPeriodStart("yearly", end, Moment(FullYear(end.year), 1, 1, 0))
    ensures AtOrBefore(Moment(FullYear(end.year), 1, 1, 0), end) <==> !TwoDigitYear(end.year)
  {
    StartInReadYear(end, Moment(FullYear(end.year), 1, 1, 0));
  }

  lemma MonthlyStart(period: string, end: Instant)
    requires !MovesEndBack(period) && period != "yearly"
    ensures ValidMoment(Moment(FullYear(end.year), end.month, 1, 0))
    ensures IsPeriodStart(period, end, Moment(FullYear(end.year), end.month, 1, 0))
    ensures AtOrBefore(Moment(FullYear(end.year), end.month, 1, 0), end) <==> !TwoDigitYear(end.year)
  {
    StartInReadYear(end, Moment(FullYear(end.year), end.month, 1, 0));
  }

  /** The `switch (period)` of the report: a copy of `end` moved back by `setHours` or
      `setDate`, or a fresh `new Date(year, month, 1)`. Any period other than the four
      named ones falls back to the monthly start. The start lies after `end` exactly
      when it was built from a two-digit year. */
  method PeriodStart(period: string, end: Instant) returns (start: Instant)
    ensures IsPeriodStart(period, end, start)
    ensures AtOrBefore(start, end) <==> MovesEndBack(period) || !TwoDigitYear(end.year)
  {
    if period == "daily" {
      start := end;
      start := SetTime(start, 0);
      DailyStart(end);
    } else if period == "weekly" {
      start := end;
      start := SetDate(start, start.day - 7);
      WeeklyStart(end);
    } else if period == "yearly" {
      start := MakeDate(end.year, 0, 1, 0);
      FirstOfYear(end.year);
      YearlyStart(end);
    } else {
      start := MakeDate(end.year, end.month - 1, 1, 0);
      FirstOfMonth(end.year, end.month);
      MonthlyStart(period, end);
    }
  }

  /** The date filter of the report. Bounds given in the query are used verbatim; a
      missing end is `now`, and a missing start is the period's default start for the
      resolved end (the period itself defaults to "monthly"). */
  method ResolveWindow(period: Option<string>, startDate: Option<Instant>, endDate: Option<Instant>, now: Instant)
    returns (w: Window)
    ensures startDate.Some? ==> w.start == startDate.value
    ensures w.end == endDate.GetOr(now)
    ensures startDate.None? ==> IsPeriodStart(period.GetOr("monthly"), w.end, w.start)
    ensures startDate.None? ==>
              (AtOrBefore(w.start, w.end) <==> MovesEndBack(period.GetOr("monthly")) || !TwoDigitYear(w.end.year))
  {
    if startDate.None? || endDate.None? {
      var end := if endDate.Some? then endDate.value else now;
      var start := PeriodStart(period.GetOr("monthly"), end);
      w := Window(if startDate.Some? then startDate.value else start, if endDate.Some? then endDate.value else end);
    } else {
      w := Window(startDate.value, endDate.value);
    }
  }

  // ---------------------------------------------------------------- grouping

  /** One `{ date, amount }` or `{ category, amount }` entry of a chart series. */
  datatype Bucket<K> = Bucket(key: K, amount: int)

  predicate DistinctKeys<K(==,!new)>(b: seq<Bucket<K>>) {
    forall i, j | 0 <= i < j < |b| :: b[i].key != b[j].key
  }

  function BucketSum<K>(b: seq<Bucket<K>>): int {
    if b == [] then 0 else BucketSum(b[..|b| - 1]) + b[|b| - 1].amount
  }

  /** Where key `k` sits among the buckets, if anywhere. */
  function Find<K(==,!new)>(b: seq<Bucket<K>>, k: K): (r: Option<nat>)
    ensures r.Some? ==> r.value < |b| && b[r.value].key == k
    ensures r.None? <==> forall i | 0 <= i < |b| :: b[i].key != k
  {
    if b == [] then None
    else if b[|b| - 1].key == k then Some(|b| - 1)
    else Find(b[..|b| - 1], k)
  }

  lemma {:induction false} BucketSumUpdate<K>(b: seq<Bucket<K>>, i: nat, x: Bucket<K>)
    requires i < |b|
    ensures BucketSum(b[i := x]) == BucketSum(b) - b[i].amount + x.amount
    decreases |b|
  {
    var n := |b| - 1;
    if i < n {
      assert b[i := x][..n] == b[..n][i := x];
      BucketSumUpdate(b[..n], i, x);
    } else {
      assert b[i := x][..n] == b[..n];
    }
  }

  /** `series[k] = (series[k] || 0) + amount` on a JavaScript object used as a
      dictionary: an existing key keeps its place and grows by `amount`; a new key is
      added last, which is where `Object.entries` lists it as long as no key is an array
      index such as "2024" (the ISO day keys of the trends never are), and as long as
      the key is not an inherited name such as "__proto__" or "toString". */
  function Bump<K(==,!new)>(b: seq<Bucket<K>>, k: K, amount: int): (r: seq<Bucket<K>>)
    ensures DistinctKeys(b) ==> DistinctKeys(r)
    ensures Find(b, k).Some? ==>
              var i := Find(b, k).value;
              |r| == |b| && r[i] == Bucket(k, b[i].amount + amount)
              && forall j | 0 <= j < |b| && j != i :: r[j] == b[j]
    ensures Find(b, k).None? ==> r == b + [Bucket(k, amount)]
    ensures forall k' :: Find(r, k').Some? <==> Find(b, k').Some? || k' == k
    ensures BucketSum(r) == BucketSum(b) + amount
  {
    match Find(b, k)
    case Some(i) =>
      BucketSumUpdate(b, i, Bucket(k, b[i].amount + amount));
      b[i := Bucket(k, b[i].amount + amount)]
    case None =>
      assert (b + [Bucket(k, amount)])[..|b|] == b;
      b + [Bucket(k, amount)]
  }

  /** The sum of the amounts of the rows of type `kind` whose key is `k`. */
  function GroupTotal<K(==,!new)>(rows: seq<Transaction>, kind: TxType, keyOf: Transaction -> K, k: K): int {
    if rows == [] then 0
    else
      var last := rows[|rows| - 1];
      GroupTotal(rows[..|rows| - 1], kind, keyOf, k) + (if last.kind == kind && keyOf(last) == k then last.amount else 0)
  }

  /** Some row of type `kind` has key `k`. */
  predicate HasKey<K(==,!new)>(rows: seq<Transaction>, kind: TxType, keyOf: Transaction -> K, k: K) {
    if rows == [] then false
    else
      var last := rows[|rows| - 1];
      HasKey(rows[..|rows| - 1], kind, keyOf, k) || (last.kind == kind && keyOf(last) == k)
  }

  lemma {:induction false} HasKeyMeans<K(!new)>(rows: seq<Transaction>, kind: TxType, keyOf: Transaction -> K, k: K)
    ensures HasKey(rows, kind, keyOf, k) <==> exists j | 0 <= j < |rows| :: rows[j].kind == kind && keyOf(rows[j]) == k
    decreases |rows|
  {
    if rows != [] {
      var init := rows[..|rows| - 1];
      HasKeyMeans(init, kind, keyOf, k);
      if exists j | 0 <= j < |init| :: init[j].kind == kind && keyOf(init[j]) == k {
        var j :| 0 <= j < |init| && init[j].kind == kind && keyOf(init[j]) == k;
        assert rows[j] == init[j];
      }
      if exists j | 0 <= j < |rows| :: rows[j].kind == kind && keyOf(rows[j]) == k {
        var j :| 0 <= j < |rows| && rows[j].kind == kind && keyOf(rows[j]) == k;
        if j < |init| {
          assert init[j] == rows[j];
        }
      }
    }
  }

  lemma {:induction false} GroupTotalWithoutKey<K(!new)>(rows: seq<Transaction>, kind: TxType, keyOf: Transaction -> K,
                                                       k: K)
    requires !HasKey(rows, kind, keyOf, k)
    ensures GroupTotal(rows, kind, keyOf, k) == 0
    decreases |rows|
  {
    if rows != [] {
      GroupTotalWithoutKey(rows[..|rows| - 1], kind, keyOf, k);
    }
  }

  /** `b` is the series that grouping `rows` of type `kind` by `keyOf` must produce: one
      entry per key that occurs, each key once, each entry holding its group's total;
      the entries add up to the type's total. */
  ghost predicate Tallies<K(!new)>(b: seq<Bucket<K>>, rows: seq<Transaction>, kind: TxType, keyOf: Transaction -> K) {
    && DistinctKeys(b)
    && (forall i | 0 <= i < |b| :: b[i].amount == GroupTotal(rows, kind, keyOf, b[i].key))
    && (forall k :: Find(b, k).Some? <==> HasKey(rows, kind, keyOf, k))
    && BucketSum(b) == KindTotal(rows, kind)
  }

  lemma GroupTotalSnoc<K(!new)>(rows: seq<Transaction>, t: Transaction, kind: TxType, keyOf: Transaction -> K, k: K)
    ensures GroupTotal(rows + [t], kind, keyOf, k)
            == GroupTotal(rows, kind, keyOf, k) + (if t.kind == kind && keyOf(t) == k then t.amount else 0)
  {
    assert (rows + [t])[..|rows|] == rows;
  }

  lemma HasKeySnoc<K(!new)>(rows: seq<Transaction>, t: Transaction, kind: TxType, keyOf: Transaction -> K, k: K)
    ensures HasKey(rows + [t], kind, keyOf, k) <==> HasKey(rows, kind, keyOf, k) || (t.kind == kind && keyOf(t) == k)
  {
    assert (rows + [t])[..|rows|] == rows;
  }

  /** A row of another type leaves the series as it is. */
  lemma TallySkip<K(!new)>(b: seq<Bucket<K>>, rows: seq<Transaction>, i: nat, kind: TxType, keyOf: Transaction -> K)
    requires i < |rows|
    requires Tallies(b, rows[..i], kind, keyOf)
    requires rows[i].kind != kind
    ensures Tallies(b, rows[..i + 1], kind, keyOf)
  {
    var t := rows[i];
    assert rows[..i + 1] == rows[..i] + [t];
    forall j | 0 <= j < |b|
      ensures b[j].amount == GroupTotal(rows[..i] + [t], kind, keyOf, b[j].key)
    {
      GroupTotalSnoc(rows[..i], t, kind, keyOf, b[j].key);
    }
    forall k
      ensures Find(b, k).Some? <==> HasKey(rows[..i] + [t], kind, keyOf, k)
    {
      HasKeySnoc(rows[..i], t, kind, keyOf, k);
    }
    KindTotalSnoc(rows[..i], t, kind);
  }

  /** A row of this type is added to the entry of its key, which is created if new. */
  lemma TallyAddRow<K(!new)>(b: seq<Bucket<K>>, rows: seq<Transaction>, t: Transaction, kind: TxType,
                             keyOf: Transaction -> K, key: K)
    requires Tallies(b, rows, kind, keyOf)
    requires t.kind == kind && key == keyOf(t)
    ensures Tallies(Bump(b, key, t.amount), rows + [t], kind, keyOf)
  {
    var b' := Bump(b, key, t.amount);
    if Find(b, key).None? {
      GroupTotalWithoutKey(rows, kind, keyOf, key);
    }
    forall j | 0 <= j < |b'|
      ensures b'[j].amount == GroupTotal(rows + [t], kind, keyOf, b'[j].key)
    {
      GroupTotalSnoc(rows, t, kind, keyOf, b'[j].key);
      if j < |b| && (Find(b, key).None? || j != Find(b, key).value) {
        assert b'[j] == b[j] && b[j].key != key;
      }
    }
    forall k
      ensures Find(b', k).Some? <==> HasKey(rows + [t], kind, keyOf, k)
    {
      HasKeySnoc(rows, t, kind, keyOf, k);
    }
    KindTotalSnoc(rows, t, kind);
  }

  /** The loop's view of `TallyAddRow`: row `i` extends the prefix before it. */
  lemma TallyAdd<K(!new)>(b: seq<Bucket<K>>, rows: seq<Transaction>, i: nat, kind: TxType, keyOf: Transaction -> K,
                          key: K)
    requires i < |rows|
    requires Tallies(b, rows[..i], kind, keyOf)
    requires rows[i].kind == kind && key == keyOf(rows[i])
    ensures Tallies(Bump(b, key, rows[i].amount), rows[..i + 1], kind, keyOf)
  {
    assert rows[..i + 1] == rows[..i] + [rows[i]];
    TallyAddRow(b, rows[..i], rows[i], kind, keyOf, key);
  }

  /** `transaction.date.toISOString().split('T')[0]` as a key of the row. */
  function ByDay<K>(dayKey: Instant -> K): Transaction -> K {
    (t: Transaction) => dayKey(t.date)
  }

  function CategoryOf(t: Transaction): string {
    t.category
  }

  /** The trend loop: one pass that adds each income row to the income series and every
      other row to the expense series, both keyed by day. */
  method Trends<K(==,!new)>(rows: seq<Transaction>, dayKey: Instant -> K)
    returns (income: seq<Bucket<K>>, expense: seq<Bucket<K>>)
    ensures Tallies(income, rows, Income, ByDay(dayKey))
    ensures Tallies(expense, rows, Expense, ByDay(dayKey))
  {
    income, expense := [], [];
    var i := 0;
    while i < |rows|
      invariant 0 <= i <= |rows|
      invariant Tallies(income, rows[..i], Income, ByDay(dayKey))
      invariant Tallies(expense, rows[..i], Expense, ByDay(dayKey))
    {
      var t := rows[i];
      var key := dayKey(t.date);
      assert ByDay(dayKey)(t) == key;
      if t.kind == Income {
        TallyAdd(income, rows, i, Income, ByDay(dayKey), key);
        TallySkip(expense, rows, i, Expense, ByDay(dayKey));
        income := Bump(income, key, t.amount);
      } else {
        TallySkip(income, rows, i, Income, ByDay(dayKey));
        TallyAdd(expense, rows, i, Expense, ByDay(dayKey), key);
        expense := Bump(expense, key, t.amount);
      }
      i := i + 1;
    }
    assert rows[..i] == rows;
  }

  /** The category loop: expense rows only, keyed by category. */
  method CategoryBreakdown(rows: seq<Transaction>) returns (categories: seq<Bucket<string>>)
    ensures Tallies(categories, rows, Expense, CategoryOf)
  {
    categories := [];
    var i := 0;
    while i < |rows|
      invariant 0 <= i <= |rows|
      invariant Tallies(categories, rows[..i], Expense, CategoryOf)
    {
      var t := rows[i];
      if t.kind == Expense {
        TallyAdd(categories, rows, i, Expense, CategoryOf, t.category);
        categories := Bump(categories, t.category, t.amount);
      } else {
        TallySkip(categories, rows, i, Expense, CategoryOf);
      }
      i := i + 1;
    }
    assert rows[..i] == rows;
  }

  /** The category loop as written, on a plain object `{}`: `obj["__proto__"] = v` goes
      to the prototype setter, which ignores a value that is not an object, so expenses
      filed under "__proto__" never get an entry. */
  function CategoriesAsWritten(rows: seq<Transaction>): (b: seq<Bucket<string>>)
    ensures forall i | 0 <= i < |b| :: b[i].key != "__proto__"
  {
    if rows == [] then []
    else
      var b := CategoriesAsWritten(rows[..|rows| - 1]);
      var t := rows[|rows| - 1];
      if t.kind == Expense && t.category != "__proto__" then Bump(b, t.category, t.amount) else b
  }

  /** One expense of 50 filed under "__proto__": the breakdown as written is empty, so it
      no longer adds up to the expense total of 50. */
  lemma ProtoCategoryDropped()
    ensures var t := Transaction(0, 0, 50, Expense, "__proto__", Moment(2024, 1, 1, 0), "");
            && CategoriesAsWritten([t]) == []
            && TotalsOf([t]).totalExpense == 50
            && BucketSum(CategoriesAsWritten([t])) != TotalsOf([t]).totalExpense
  {
    var t := Transaction(0, 0, 50, Expense, "__proto__", Moment(2024, 1, 1, 0), "");
    assert [t][..0] == [];
    KindTotalSnoc([], t, Expense);
    KindTotalSnoc([], t, Income);
    assert [] + [t] == [t];
  }

  // ---------------------------------------------------------------- the period report

  /** The report; `window` is the date filter that was applied, not part of the reply. */
  datatype Report<K> = Report(
    totals: Totals,
    incomeTrend: seq<Bucket<K>>,
    expenseTrend: seq<Bucket<K>>,
    categories: seq<Bucket<string>>,
    period: string,
    window: Window)

  method GetAnalytics<K(==,!new)>(rows: seq<Transaction>, userId: UserId, period: Option<string>,
                             startDate: Option<Instant>, endDate: Option<Instant>, now: Instant,
                             dayKey: Instant -> K)
    returns (r: Report<K>)
    ensures r.period == period.GetOr("monthly")
    ensures startDate.Some? ==> r.window.start == startDate.value
    ensures r.window.end == endDate.GetOr(now)
    ensures startDate.None? ==> IsPeriodStart(r.period, r.window.end, r.window.start)
    ensures var picked := Select(rows, userId, r.window);
            && r.totals == TotalsOf(picked)
            && Tallies(r.incomeTrend, picked, Income, ByDay(dayKey))
            && Tallies(r.expenseTrend, picked, Expense, ByDay(dayKey))
            && Tallies(r.categories, picked, Expense, CategoryOf)
  {
    var w := ResolveWindow(period, startDate, endDate, now);
    var picked := Select(rows, userId, w);
    var income, expense := Trends(picked, dayKey);
    var categories := CategoryBreakdown(picked);
    r := Report(TotalsOf(picked), income, expense, categories, period.GetOr("monthly"), w);
  }

  /** The expense trend and the category breakdown split the same total two ways. */
  lemma BreakdownsAgree<K(!new)>(r: Report<K>, picked: seq<Transaction>, dayKey: Instant -> K)
    requires r.totals == TotalsOf(picked)
    requires Tallies(r.expenseTrend, picked, Expense, ByDay(dayKey))
    requires Tallies(r.categories, picked, Expense, CategoryOf)
    requires Tallies(r.incomeTrend, picked, Income, ByDay(dayKey))
    ensures BucketSum(r.expenseTrend) == BucketSum(r.categories) == r.totals.totalExpense
    ensures BucketSum(r.incomeTrend) == r.totals.totalIncome
    ensures BucketSum(r.incomeTrend) - BucketSum(r.categories) == r.totals.netSavings
  {
  }

  // ---------------------------------------------------------------- the date view

  /** The window of each view for the selected date, as a calendar states it. The month
      and year windows are built with `new Date(year, ...)`, so a two-digit year puts
      them in the 1900s. */
  predicate IsViewWindow(view: string, d: Instant, w: Window) {
    if view == "today" then
      w == Window(Moment(d.year, d.month, d.day, 0), Moment(d.year, d.month, d.day, EndOfDayMs))
    else if view == "week" then
      && Weekday(w.start) == 0 && w.start.ms == 0
      && DayNumber(w.start) <= DayNumber(d) < DayNumber(w.start) + 7
      && DayNumber(w.end) == DayNumber(w.start) + 6 && w.end.ms == EndOfDayMs
    else if view == "month" then
      w == CalendarMonth(d.year, d.month)
    else
      w == CalendarYear(d.year)
  }

  predicate IsView(view: string) {
    view == "today" || view == "week" || view == "month" || view == "year"
  }

  /** `new Date(year, 0, 1)` to `new Date(year, 11, 31, 23, 59, 59)`. */
  function CalendarYear(year: int): (w: Window)
    ensures w.start == Moment(FullYear(year), 1, 1, 0)
    ensures w.end == Moment(FullYear(year), 12, 31, LastSecondMs)
  {
    FirstOfYear(year);
    LastOfYear(year, LastSecondMs);
    Window(MakeDate(year, 0, 1, 0), MakeDate(year, 11, 31, LastSecondMs))
  }

  /** A year window holds the instants of the year `new Date` reads `year` as, except
      the last 999 milliseconds of December 31. */
  lemma CalendarYearContains(year: int, t: Instant)
    ensures InWindow(t, CalendarYear(year)) <==>
              t.year == FullYear(year) && (t.month < 12 || t.day < 31 || t.ms <= LastSecondMs)
  {
    var w := CalendarYear(year);
    EpochOrder(w.start, t);
    EpochOrder(t, w.end);
    DayNumberOrder(w.start, t);
    DayNumberOrder(t, w.end);
  }

  lemma TodayWindow(d: Instant)
    ensures var w := Window(SetTime(d, 0), SetTime(d, EndOfDayMs));
            IsViewWindow("today", d, w) && InWindow(d, w)
  {
    CalendarOrder(SetTime(d, 0), d);
    CalendarOrder(d, SetTime(d, EndOfDayMs));
  }

  lemma WeekWindow(d: Instant, start: Instant, end: Instant)
    requires start == SetTime(SetDate(d, d.day - Weekday(d)), 0)
    requires end == SetTime(SetDate(start, start.day + 6), EndOfDayMs)
    ensures IsViewWindow("week", d, Window(start, end)) && InWindow(d, Window(start, end))
  {
    WeekStartIsSunday(d, start);
    EpochOrder(start, d);
    EpochOrder(d, end);
  }

  /** The month view holds the selected date unless its year has two digits or it falls
      in the last 999 milliseconds of the month. */
  lemma MonthWindow(d: Instant)
    ensures IsViewWindow("month", d, CalendarMonth(d.year, d.month))
    ensures InWindow(d, CalendarMonth(d.year, d.month)) <==>
              !TwoDigitYear(d.year) && (d.day < DaysInMonth(d.year, d.month) || d.ms <= LastSecondMs)
  {
    CalendarMonthContains(d.year, d.month, d);
  }

  /** The year view holds the selected date unless its year has two digits or it falls
      in the last 999 milliseconds of the year. */
  lemma YearWindow(d: Instant)
    ensures IsViewWindow("year", d, CalendarYear(d.year))
    ensures InWindow(d, CalendarYear(d.year)) <==>
              !TwoDigitYear(d.year) && (d.month < 12 || d.day < 31 || d.ms <= LastSecondMs)
  {
    CalendarYearContains(d.year, d);
  }

  /** The `switch (view)` of the snapshot. Today and week copy the date and move the
      copies with `setDate` and `setHours`; month and year build fresh dates. */
  method ViewWindow(view: string, d: Instant) returns (r: Option<Window>)
    ensures r.Some? <==> IsView(view)
    ensures r.Some? ==> IsViewWindow(view, d, r.value)
    ensures r.Some? && (view == "today" || view == "week") ==> InWindow(d, r.value)
    ensures r.Some? && view == "month" ==>
              (InWindow(d, r.value) <==>
                 !TwoDigitYear(d.year) && (d.day < DaysInMonth(d.year, d.month) || d.ms <= LastSecondMs))
    ensures r.Some? && view == "year" ==>
              (InWindow(d, r.value) <==> !TwoDigitYear(d.year) && (d.month < 12 || d.day < 31 || d.ms <= LastSecondMs))
  {
    if view == "today" {
      var start := d;
      start := SetTime(start, 0);
      var end := d;
      end := SetTime(end, EndOfDayMs);
      TodayWindow(d);
      r := Some(Window(start, end));
    } else if view == "week" {
      var start := d;
      start := SetDate(start, start.day - Weekday(start));
      start := SetTime(start, 0);
      var end := start;
      end := SetDate(end, end.day + 6);
      end := SetTime(end, EndOfDayMs);
      WeekWindow(d, start, end);
      r := Some(Window(start, end));
    } else if view == "month" {
      MonthWindow(d);
      r := Some(CalendarMonth(d.year, d.month));
    } else if view == "year" {
      YearWindow(d);
      r := Some(Window(MakeDate(d.year, 0, 1, 0), MakeDate(d.year, 11, 31, LastSecondMs)));
    } else {
      r := None;
    }
  }

  /** The snapshot reply: the view, its window, the user's transactions in it and their
      totals. */
  datatype DateView = DateView(view: string, window: Window, transactions: seq<Transaction>, totals: Totals)

  /** `getDateBasedView`. A view or date that is missing or empty is `None`. */
  method GetDateBasedView(rows: seq<Transaction>, userId: UserId, view: Option<string>, date: Option<Instant>)
    returns (r: Result<DateView>)
    ensures view.None? || date.None? ==> r == Err(MissingFields)
    ensures view.Some? && date.Some? && !IsView(view.value) ==> r == Err(InvalidView)
    ensures r.Ok? <==> view.Some? && date.Some? && IsView(view.value)
    ensures r.Ok? ==>
              && r.value.view == view.value
              && IsViewWindow(view.value, date.value, r.value.window)
              && r.value.transactions == Select(rows, userId, r.value.window)
              && r.value.totals == TotalsOf(r.value.transactions)
  {
    if view.None? || date.None? {
      return Err(MissingFields);
    }
    var w := ViewWindow(view.value, date.value);
    if w.None? {
      return Err(InvalidView);
    }
    var picked := Select(rows, userId, w.value);
    r := Ok(DateView(view.value, w.value, picked, TotalsOf(picked)));
  }
}
