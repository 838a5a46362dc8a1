/** The four Mongoose schemas of the backend: record shapes, enumerations, the `trim`
    setters, `min`/`max` bounds and the unique budget index. A record "conforms" when
    `save()` would accept it. */
module Models {
  import opened Inputs
  import opened Text
  import opened Calendar

  type UserId = nat
  type AccountId = nat
  type TransactionId = nat
  type BudgetId = nat
  type DebtId = nat

  // ---------------------------------------------------------------- transactions

  datatype TxType = Income | Expense

  /** The stored spelling of a transaction type. */
  function TxTypeName(k: TxType): string {
    match k
    case Income => "income"
    case Expense => "expense"
  }

  /** The signed amount a transaction adds to its account's balance. */
  function Effect(kind: TxType, amount: int): int {
    if kind == Income then amount else -amount
  }

  datatype Transaction = Transaction(
    userId: UserId,
    accountId: AccountId,
    amount: int,
    kind: TxType,
    category: string,
    date: Instant,
    note: string)

  /** What `save()` accepts, and what the `trim` setters leave: category and note with
      no surrounding whitespace. */
  predicate ValidTransaction(t: Transaction) {
    && t.amount >= 0
    && t.category != ""
    && IsTrimmed(t.category) && IsTrimmed(t.note)
  }

  /** `new Transaction({...})`: the trim setters applied to category and note; the
      record conforms exactly when the amount is not negative and the category does
      not trim to the empty string. */
  function MakeTransaction(userId: UserId, accountId: AccountId, amount: int, kind: TxType,
                           category: string, date: Instant, note: string): (t: Transaction)
    ensures t.userId == userId && t.accountId == accountId && t.amount == amount && t.kind == kind
    ensures t.category == Trim(category) && t.note == Trim(note) && t.date == date
    ensures IsTrimmed(t.category) && IsTrimmed(t.note)
    ensures ValidTransaction(t) <==> amount >= 0 && Trim(category) != ""
  {
    TrimSpec(category);
    TrimSpec(note);
    Transaction(userId, accountId, amount, kind, Trim(category), date, Trim(note))
  }

  /** Saving a stored transaction again changes nothing: the setters find nothing to trim. */
  lemma ResaveTransaction(t: Transaction)
    requires ValidTransaction(t)
    ensures MakeTransaction(t.userId, t.accountId, t.amount, t.kind, t.category, t.date, t.note) == t
  {
    TrimOfTrimmed(t.category);
    TrimOfTrimmed(t.note);
  }

  // ---------------------------------------------------------------- accounts

  datatype AccountType = BankAccount | CreditCard | DebitCard | CashWallet

  function AccountTypeName(k: AccountType): string {
    match k
    case BankAccount => "Bank Account"
    case CreditCard => "Credit Card"
    case DebitCard => "Debit Card"
    case CashWallet => "Cash Wallet"
  }

  /** The `enum` check of the account type: exactly the four names are accepted. */
  function ParseAccountType(s: string): (r: Option<AccountType>)
    ensures r.Some? <==> s in {"Bank Account", "Credit Card", "Debit Card", "Cash Wallet"}
    ensures r.Some? ==> AccountTypeName(r.value) == s
  {
    if s == "Bank Account" then Some(BankAccount)
    else if s == "Credit Card" then Some(CreditCard)
    else if s == "Debit Card" then Some(DebitCard)
    else if s == "Cash Wallet" then Some(CashWallet)
    else None
  }

  lemma AccountTypeRoundTrip(k: AccountType)
    ensures ParseAccountType(AccountTypeName(k)) == Some(k)
  {
  }

  datatype Account = Account(userId: UserId, name: string, kind: AccountType, balance: int)

  predicate ValidAccount(a: Account) {
    a.name != "" && IsTrimmed(a.name)
  }

  /** `new Account({...})`: the name is trimmed and must not trim to nothing; the
      balance is stored as given. */
  function MakeAccount(userId: UserId, name: string, kind: AccountType, balance: int): (a: Account)
    ensures a.userId == userId && a.kind == kind && a.balance == balance
    ensures a.name == Trim(name) && IsTrimmed(a.name)
    ensures ValidAccount(a) <==> Trim(name) != ""
  {
    TrimSpec(name);
    Account(userId, Trim(name), kind, balance)
  }

  /** Saving a stored account again changes nothing. */
  lemma ResaveAccount(a: Account)
    requires ValidAccount(a)
    ensures MakeAccount(a.userId, a.name, a.kind, a.balance) == a
  {
    TrimOfTrimmed(a.name);
  }

  // ---------------------------------------------------------------- budgets

  datatype Budget = Budget(userId: UserId, category: string, amount: int, month: int, year: int)

  predicate ValidBudget(b: Budget) {
    && b.category != "" && IsTrimmed(b.category)
    && b.amount >= 0
    && 1 <= b.month <= 12
  }

  /** `new Budget({...})`: the category is trimmed; the record conforms exactly when the
      category does not trim to nothing, the amount is not negative and the month is
      1 through 12. */
  function MakeBudget(userId: UserId, category: string, amount: int, month: int, year: int): (b: Budget)
    ensures b.userId == userId && b.amount == amount && b.month == month && b.year == year
    ensures b.category == Trim(category) && IsTrimmed(b.category)
    ensures ValidBudget(b) <==> Trim(category) != "" && amount >= 0 && 1 <= month <= 12
  {
    TrimSpec(category);
    Budget(userId, Trim(category), amount, month, year)
  }

  /** Saving a stored budget again changes nothing. */
  lemma ResaveBudget(b: Budget)
    requires ValidBudget(b)
    ensures MakeBudget(b.userId, b.category, b.amount, b.month, b.year) == b
  {
    TrimOfTrimmed(b.category);
  }

  /** The fields of the unique index `{userId, category, month, year}`. */
  predicate SameBudgetKey(a: Budget, b: Budget) {
    a.userId == b.userId && a.category == b.category && a.month == b.month && a.year == b.year
  }

  predicate UniqueBudgets(store: map<BudgetId, Budget>) {
    forall i, j | i in store && j in store && SameBudgetKey(store[i], store[j]) :: i == j
  }

  /** Inserting a budget whose key no stored budget has keeps the index unique. */
  lemma InsertKeepsUnique(store: map<BudgetId, Budget>, id: BudgetId, b: Budget)
    requires UniqueBudgets(store)
    requires id !in store
    requires forall j | j in store :: !SameBudgetKey(store[j], b)
    ensures UniqueBudgets(store[id := b])
  {
  }

  // ---------------------------------------------------------------- debts

  datatype DebtType = Give | Take

  function DebtTypeName(k: DebtType): string {
    match k
    case Give => "give"
    case Take => "take"
  }

  /** The `enum` check of the debt type: exactly "give" and "take" are accepted. */
  function ParseDebtType(s: string): (r: Option<DebtType>)
    ensures r.Some? <==> s == "give" || s == "take"
    ensures r.Some? ==> DebtTypeName(r.value) == s
  {
    if s == "give" then Some(Give)
    else if s == "take" then Some(Take)
    else None
  }

  datatype Debt = Debt(
    userId: UserId,
    personName: string,
    amount: int,
    kind: DebtType,
    dueDate: Option<Instant>,
    notes: string)

  predicate ValidDebt(d: Debt) {
    && d.personName != ""
    && d.amount >= 0
    && IsTrimmed(d.personName) && IsTrimmed(d.notes)
  }

  /** `new Debt({...})`: person name and notes are trimmed; the record conforms exactly
      when the name does not trim to nothing and the amount is not negative. */
  function MakeDebt(userId: UserId, personName: string, amount: int, kind: DebtType,
                    dueDate: Option<Instant>, notes: string): (d: Debt)
    ensures d.userId == userId && d.amount == amount && d.kind == kind && d.dueDate == dueDate
    ensures d.personName == Trim(personName) && d.notes == Trim(notes)
    ensures IsTrimmed(d.personName) && IsTrimmed(d.notes)
    ensures ValidDebt(d) <==> Trim(personName) != "" && amount >= 0
  {
    TrimSpec(personName);
    TrimSpec(notes);
    Debt(userId, Trim(personName), amount, kind, dueDate, Trim(notes))
  }

  /** Saving a stored debt again changes nothing. */
  lemma ResaveDebt(d: Debt)
    requires ValidDebt(d)
    ensures MakeDebt(d.userId, d.personName, d.amount, d.kind, d.dueDate, d.notes) == d
  {
    TrimOfTrimmed(d.personName);
    TrimOfTrimmed(d.notes);
  }
}
