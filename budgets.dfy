/** The budget controller: a store of monthly spending limits, one per user, category
    and month, and the projection that sets each limit against what was spent. */
module Budgets {
  import opened Inputs
  import opened Text
  import opened Calendar
  import opened Models
  import opened Queries
  import opened Analytics

  // ---------------------------------------------------------------- the projection

  /** An expense row counts toward budget `b` when it is the owner's, has exactly the
      budget's category and falls in the budget's month window. */
  predicate CountsToward(t: Transaction, b: Budget)
    requires 1 <= b.month <= 12
  {
    && t.userId == b.userId
    && t.category == b.category
    && t.kind == Expense
    && InWindow(t.date, CalendarMonth(b.year, b.month))
  }

  /** `Transaction.find({ userId, category, type: 'expense', date })` reduced to the sum
      of its amounts. */
  function Spent(rows: seq<Transaction>, b: Budget): int
    requires 1 <= b.month <= 12
  {
    SumAmounts(Where(rows, (t: Transaction) => CountsToward(t, b)))
  }

  /** A budget together with the three computed fields of the reply. */
  datatype BudgetView = BudgetView(budget: Budget, spent: int, remaining: int, exceeded: bool)

  /** `remaining = amount - spent` and `exceeded = spent > amount`. */
  function Project(rows: seq<Transaction>, b: Budget): (v: BudgetView)
    requires 1 <= b.month <= 12
    ensures v.budget == b && v.spent == Spent(rows, b)
    ensures v.spent + v.remaining == b.amount
    ensures v.exceeded <==> v.remaining < 0
  {
    var spent := Spent(rows, b);
    BudgetView(b, spent, b.amount - spent, spent > b.amount)
  }

  /** One more row raises what was spent by its amount exactly when it counts toward the
      budget. */
  lemma SpentSnoc(rows: seq<Transaction>, t: Transaction, b: Budget)
    requires 1 <= b.month <= 12
    ensures Spent(rows + [t], b) == Spent(rows, b) + (if CountsToward(t, b) then t.amount else 0)
  {
    var p := (t: Transaction) => CountsToward(t, b);
    WhereAppend(rows, [t], p);
    assert Where([t], p) == Where([], p) + (if p(t) then [t] else []);
    SumAmountsAppend(Where(rows, p), Where([t], p));
    if p(t) {
      assert SumAmounts([t]) == SumAmounts([]) + t.amount;
    }
  }

  /** What a budget shows as spent is what the analytics report shows for the same
      category, over the owner's transactions in the budget's month. */
  lemma {:induction false} SpentIsCategoryTotal(rows: seq<Transaction>, b: Budget)
    requires 1 <= b.month <= 12
    ensures Spent(rows, b) == GroupTotal(Select(rows, b.userId, CalendarMonth(b.year, b.month)), Expense, CategoryOf,
                                         b.category)
    decreases |rows|
  {
    if rows != [] {
      var init, t := rows[..|rows| - 1], rows[|rows| - 1];
      SplitLast(rows);
      SpentIsCategoryTotal(init, b);
      SpentIsCategoryTotalStep(init, t, b);
    }
  }

  /** A non-empty sequence is its prefix followed by its last element. */
  lemma SplitLast<T>(s: seq<T>)
    requires s != []
    ensures s == s[..|s| - 1] + [s[|s| - 1]]
  {
  }

  /** The inductive step of SpentIsCategoryTotal: one more row keeps the two sums equal. */
  lemma SpentIsCategoryTotalStep(init: seq<Transaction>, t: Transaction, b: Budget)
    requires 1 <= b.month <= 12
    requires Spent(init, b) == GroupTotal(Select(init, b.userId, CalendarMonth(b.year, b.month)), Expense, CategoryOf,
                                          b.category)
    ensures Spent(init + [t], b) == GroupTotal(Select(init + [t], b.userId, CalendarMonth(b.year, b.month)), Expense,
                                               CategoryOf, b.category)
  {
    var w := CalendarMonth(b.year, b.month);
    SpentSnoc(init, t, b);
    SelectSnoc(init, t, b.userId, w);
    var before := Select(init, b.userId, w);
    if t.userId == b.userId && InWindow(t.date, w) {
      assert Select(init + [t], b.userId, w) == before + [t];
      GroupTotalSnoc(before, t, Expense, CategoryOf, b.category);
    } else {
      assert Select(init + [t], b.userId, w) == before;
    }
  }

  /** With amounts that are never negative, nothing spent is negative and an untouched
      budget has its whole amount remaining. */
  lemma SpentNonNegative(rows: seq<Transaction>, b: Budget)
    requires 1 <= b.month <= 12
    requires forall i | 0 <= i < |rows| :: rows[i].amount >= 0
    ensures Spent(rows, b) >= 0
    ensures Project(rows, b).remaining <= b.amount
  {
    var picked := Where(rows, (t: Transaction) => CountsToward(t, b));
    forall i | 0 <= i < |picked|
      ensures picked[i].amount >= 0
    {
      assert picked[i] in rows;
    }
    SumAmountsNonNegative(picked);
  }

  // ---------------------------------------------------------------- the store

  /** A replacement with the same index key keeps the index unique. */
  lemma ReplaceKeepsUnique(store: map<BudgetId, Budget>, id: BudgetId, b: Budget)
    requires UniqueBudgets(store)
    requires id in store && SameBudgetKey(store[id], b)
    ensures UniqueBudgets(store[id := b])
  {
  }

  class BudgetStore {
    var budgets: map<BudgetId, Budget>
    var nextId: nat

    /** Every stored budget conforms, ids below `nextId` are the ones handed out, and the
        unique index holds. */
    ghost predicate Valid()
      reads this
    {
      && UniqueBudgets(budgets)
      && forall id | id in budgets :: ValidBudget(budgets[id]) && id < nextId
    }

    constructor ()
      ensures Valid() && budgets == map[]
    {
      budgets, nextId := map[], 0;
    }

    predicate Owns(id: BudgetId, userId: UserId)
      reads this
    {
      id in budgets && budgets[id].userId == userId
    }

    /** `Budget.findOne({ userId, category, month, year })` found something. */
    predicate HasKey(userId: UserId, category: string, month: int, year: int)
      reads this
    {
      exists id | id in budgets :: SameBudgetKey(budgets[id], Budget(userId, category, 0, month, year))
    }

    /** `createBudget`. Missing fields, then unusable numbers, then an existing budget for
        the same user, trimmed category, month and year are refused in that order; a
        category that trims to nothing fails the schema. */
    method CreateBudget(userId: UserId, category: Field<string>, amount: Field<Numeric>, month: Field<Numeric>,
                        year: Field<Numeric>)
      returns (r: Result<BudgetId>)
      requires Valid()
      modifies this
      ensures Valid()
      ensures r.Err? ==> budgets == old(budgets)
      ensures !Truthy(category) || IsNullish(amount) || !TruthyNumber(month) || !TruthyNumber(year) ==>
                r == Err(MissingFields)
      ensures Truthy(category) && !IsNullish(amount) && TruthyNumber(month) && TruthyNumber(year) ==>
                var fine := ValidNum(amount.value) && month.value.Finite? && 1 <= month.value.v <= 12
                            && year.value.Finite?;
                && (!fine ==> r == Err(InvalidAmount))
                && (fine && old(HasKey(userId, Trim(category.value), month.value.v, year.value.v)) ==>
                      r == Err(Duplicate))
                && (fine && !old(HasKey(userId, Trim(category.value), month.value.v, year.value.v)) ==>
                      if Trim(category.value) == "" then r == Err(SchemaViolation)
                      else
                        && r.Ok? && r.value !in old(budgets)
                        && budgets == old(budgets)[r.value := Budget(userId, Trim(category.value), amount.value.v,
                                                                     month.value.v, year.value.v)])
    {
      if !Truthy(category) || IsNullish(amount) || !TruthyNumber(month) || !TruthyNumber(year) {
        return Err(MissingFields);
      }
      var amountNum, monthNum, yearNum := amount.value, month.value, year.value;
      if !(amountNum.Finite? && amountNum.v >= 0) || !monthNum.Finite? || monthNum.v < 1 || monthNum.v > 12
         || !yearNum.Finite? {
        return Err(InvalidAmount);
      }
      var trimmed := Trim(category.value);
      if exists id | id in budgets :: SameBudgetKey(budgets[id], Budget(userId, trimmed, 0, monthNum.v, yearNum.v)) {
        return Err(Duplicate);
      }
      var budget := MakeBudget(userId, category.value, amountNum.v, monthNum.v, yearNum.v);
      if !ValidBudget(budget) {
        return Err(SchemaViolation);
      }
      var id := nextId;
      InsertKeepsUnique(budgets, id, budget);
      budgets, nextId := budgets[id := budget], id + 1;
      r := Ok(id);
    }

    /** `getBudgets`: the user's budgets, narrowed to a month and a year when given, each
        with its projection. A filter that does not parse as an integer is a cast error. */
    function GetBudgets(userId: UserId, month: Option<Numeric>, year: Option<Numeric>, rows: seq<Transaction>)
      : (r: Result<map<BudgetId, BudgetView>>)
      reads this
      requires Valid()
      ensures r.Err? <==> month == Some(NotANumber) || year == Some(NotANumber)
      ensures r.Ok? ==> forall id :: id in r.value <==>
                          && Owns(id, userId)
                          && (month.Some? ==> budgets[id].month == month.value.v)
                          && (year.Some? ==> budgets[id].year == year.value.v)
      ensures r.Ok? ==> forall id | id in r.value :: id in budgets && r.value[id] == Project(rows, budgets[id])
    {
      if month == Some(NotANumber) || year == Some(NotANumber) then Err(SchemaViolation)
      else
        Ok(map id | id in budgets && budgets[id].userId == userId
                    && (month.Some? ==> budgets[id].month == month.value.v)
                    && (year.Some? ==> budgets[id].year == year.value.v)
             :: Project(rows, budgets[id]))
    }

    /** `updateBudget`: only the amount can change, and only when supplied; the value is
        stored as given, so a missing, unparsable or negative one fails the schema. */
    method UpdateBudget(id: BudgetId, userId: UserId, amount: Field<Numeric>) returns (r: Result<Budget>)
      requires Valid()
      modifies this
      ensures Valid()
      ensures r.Err? ==> budgets == old(budgets)
      ensures !old(Owns(id, userId)) ==> r == Err(NotFound)
      ensures r.Ok? <==> old(Owns(id, userId)) && (amount.Undefined? || ValidNum(ToNum(amount)))
      ensures r.Ok? ==>
                && r.value == old(budgets)[id].(amount := if amount.Undefined? then old(budgets)[id].amount
                                                          else ToNum(amount).v)
                && budgets == old(budgets)[id := r.value]
    {
      if !Owns(id, userId) {
        return Err(NotFound);
      }
      var budget := budgets[id];
      if !amount.Undefined? {
        var n := ToNum(amount);
        if !n.Finite? {
          return Err(SchemaViolation);
        }
        budget := budget.(amount := n.v);
      }
      if !ValidBudget(budget) {
        return Err(SchemaViolation);
      }
      ReplaceKeepsUnique(budgets, id, budget);
      budgets := budgets[id := budget];
      r := Ok(budget);
    }

    /** `deleteBudget`: removes exactly the owned budget. */
    method DeleteBudget(id: BudgetId, userId: UserId) returns (r: Result<()>)
      requires Valid()
      modifies this
      ensures Valid()
      ensures r.Ok? <==> old(Owns(id, userId))
      ensures r.Err? ==> r.error == NotFound && budgets == old(budgets)
      ensures r.Ok? ==> budgets == old(budgets) - {id}
    {
      if !Owns(id, userId) {
        return Err(NotFound);
      }
      budgets := budgets - {id};
      r := Ok(());
    }
  }
}
