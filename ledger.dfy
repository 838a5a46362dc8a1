/** The account and transaction controllers: the only code that writes account
    balances. Every request of a user is one atomic step on the two stores; balances are
    kept by applying and reverting signed deltas, never by re-summing, and the ledger
    invariant (`Balanced`) says that this incremental bookkeeping always agrees with the
    sum over the transactions currently stored. */
module Ledger {
  import opened Inputs
  import opened Text
  import opened Calendar
  import opened Models

  // ---------------------------------------------------------------- the ledger sum

  /** What transaction `t` adds to the balance of account `a`. */
  function Contribution(t: Transaction, a: AccountId): int {
    if t.accountId == a then Effect(t.kind, t.amount) else 0
  }

  /** The sum of the contributions to account `a` of the transactions `m` holds under `ids`. */
  ghost function NetOver(m: map<TransactionId, Transaction>, ids: set<TransactionId>, a: AccountId): int
    requires ids <= m.Keys
    decreases ids
  {
    if ids == {} then 0
    else
      var id :| id in ids;
      Contribution(m[id], a) + NetOver(m, ids - {id}, a)
  }

  /** The net effect on account `a` of every transaction in the store: +amount for each
      income and -amount for each expense pointing at `a`. */
  ghost function NetEffect(m: map<TransactionId, Transaction>, a: AccountId): int {
    NetOver(m, m.Keys, a)
  }

  /** The sum does not depend on the order in which transactions are taken. */
  lemma {:induction false} NetOverPick(m: map<TransactionId, Transaction>, ids: set<TransactionId>,
                                        id: TransactionId, a: AccountId)
    requires ids <= m.Keys && id in ids
    ensures NetOver(m, ids, a) == Contribution(m[id], a) + NetOver(m, ids - {id}, a)
    decreases ids
  {
    var x :| x in ids && NetOver(m, ids, a) == Contribution(m[x], a) + NetOver(m, ids - {x}, a);
    if x != id {
      assert ids - {x} - {id} == ids - {id} - {x};
      NetOverPick(m, ids - {x}, id, a);
      NetOverPick(m, ids - {id}, x, a);
    }
  }

  /** The sum only depends on the transactions under `ids`. */
  lemma {:induction false} NetOverFrame(m1: map<TransactionId, Transaction>, m2: map<TransactionId, Transaction>,
                                         ids: set<TransactionId>, a: AccountId)
    requires ids <= m1.Keys && ids <= m2.Keys
    requires forall i | i in ids :: m1[i] == m2[i]
    ensures NetOver(m1, ids, a) == NetOver(m2, ids, a)
    decreases ids
  {
    if ids != {} {
      var x :| x in ids;
      NetOverPick(m1, ids, x, a);
      NetOverPick(m2, ids, x, a);
      NetOverFrame(m1, m2, ids - {x}, a);
    }
  }

  /** Storing a new transaction adds exactly its contribution. */
  lemma {:induction false} NetEffectInsert(m: map<TransactionId, Transaction>, id: TransactionId,
                                            t: Transaction, a: AccountId)
    requires id !in m
    ensures NetEffect(m[id := t], a) == NetEffect(m, a) + Contribution(t, a)
  {
    var m' := m[id := t];
    NetOverPick(m', m'.Keys, id, a);
    assert m'.Keys - {id} == m.Keys;
    NetOverFrame(m', m, m.Keys, a);
  }

  /** Replacing a stored transaction swaps its old contribution for its new one. */
  lemma {:induction false} NetEffectReplace(m: map<TransactionId, Transaction>, id: TransactionId,
                                             t: Transaction, a: AccountId)
    requires id in m
    ensures NetEffect(m[id := t], a) == NetEffect(m, a) - Contribution(m[id], a) + Contribution(t, a)
  {
    var m' := m[id := t];
    assert m'.Keys == m.Keys;
    NetOverPick(m', m.Keys, id, a);
    NetOverPick(m, m.Keys, id, a);
    NetOverFrame(m', m, m.Keys - {id}, a);
  }

  /** Removing a stored transaction takes away exactly its contribution. */
  lemma {:induction false} NetEffectRemove(m: map<TransactionId, Transaction>, id: TransactionId, a: AccountId)
    requires id in m
    ensures NetEffect(m - {id}, a) == NetEffect(m, a) - Contribution(m[id], a)
  {
    NetOverPick(m, m.Keys, id, a);
    assert (m - {id}).Keys == m.Keys - {id};
    NetOverFrame(m - {id}, m, m.Keys - {id}, a);
  }

  lemma {:induction false} NetOverUnreferenced(m: map<TransactionId, Transaction>, ids: set<TransactionId>, a: AccountId)
    requires ids <= m.Keys
    requires forall i | i in ids :: m[i].accountId != a
    ensures NetOver(m, ids, a) == 0
    decreases ids
  {
    if ids != {} {
      var x :| x in ids;
      NetOverPick(m, ids, x, a);
      NetOverUnreferenced(m, ids - {x}, a);
    }
  }

  /** An account no transaction points at has a net effect of zero. */
  lemma NetEffectUnreferenced(m: map<TransactionId, Transaction>, a: AccountId)
    requires forall i | i in m :: m[i].accountId != a
    ensures NetEffect(m, a) == 0
  {
    NetOverUnreferenced(m, m.Keys, a);
  }

  // ---------------------------------------------------------------- request helpers

  /** Line 12 of the create handler: `!accountId || amount == null || !type || !category`. */
  predicate MissingTransactionFields(accountId: Option<AccountId>, amount: Field<Numeric>,
                                     kind: Option<TxType>, category: Field<string>) {
    accountId.None? || IsNullish(amount) || kind.None? || !Truthy(category)
  }

  /** The note of a new transaction: `note != null ? String(note).trim() : ''` before the setter. */
  function NoteOrEmpty(note: Field<string>): string {
    if note.Given? then note.value else ""
  }

  /** The amount an update stores: the old one when the field is absent, else `toNum`. */
  function UpdatedAmount(amount: Field<Numeric>, t: Transaction): (n: Numeric)
    ensures amount.Undefined? ==> n == Finite(t.amount)
    ensures amount.Null? ==> n == NotANumber
  {
    if amount.Undefined? then Finite(t.amount) else ToNum(amount)
  }

  /** True when an update supplies a category that trims to nothing (rejected at save). */
  predicate BlankCategory(category: Field<string>) {
    category.Given? && Trim(category.value) == ""
  }

  /** The record an update writes back: every field the request leaves out keeps its old
      value (an absent account id or an empty type included); a supplied category or note
      is trimmed; an explicit `null` note is stored as the text "null", as `String(null)`
      gives. Only called once the amount has passed `validNum`. */
  function PatchTransaction(t: Transaction, amount: Field<Numeric>, kind: Option<TxType>, category: Field<string>,
                            date: Option<Instant>, note: Field<string>, accountId: Option<AccountId>): (u: Transaction)
    requires ValidNum(UpdatedAmount(amount, t))
    ensures u.userId == t.userId
    ensures u.accountId == accountId.GetOr(t.accountId) && u.kind == kind.GetOr(t.kind)
    ensures amount.Undefined? ==> u.amount == t.amount
    ensures amount.Given? ==> u.amount == ToNum(amount).v
    ensures IsNullish(category) ==> u.category == t.category
    ensures category.Given? ==> u.category == Trim(category.value)
    ensures date.None? ==> u.date == t.date
    ensures date.Some? ==> u.date == date.value
    ensures note.Undefined? ==> u.note == t.note
    ensures note.Null? ==> u.note == "null"
    ensures note.Given? ==> u.note == Trim(note.value)
    ensures ValidTransaction(t) ==> (ValidTransaction(u) <==> u.amount >= 0 && !BlankCategory(category))
  {
    var category' := if category.Given? then (TrimSpec(category.value); Trim(category.value)) else t.category;
    var note' := match note
      case Undefined => t.note
      case Null => "null"
      case Given(s) => (TrimSpec(s); Trim(s));
    Transaction(t.userId, accountId.GetOr(t.accountId), UpdatedAmount(amount, t).v, kind.GetOr(t.kind),
                category', date.GetOr(t.date), note')
  }

  /** The balance `Number(balance)` gives a new account: the number when it is finite,
      otherwise 0 (`null` converts to 0 as well). */
  function OpeningBalance(balance: Field<Numeric>): (b: int)
    ensures (balance.Given? && balance.value.Finite?) ==> b == balance.value.v
    ensures !(balance.Given? && balance.value.Finite?) ==> b == 0
  {
    if balance.Given? && balance.value.Finite? then balance.value.v else 0
  }

  datatype Created = Created(id: TransactionId, balance: int)

  // ---------------------------------------------------------------- the ledger invariant

  /** `accounts` with `delta` added to the balance of account `a`. */
  function Shift(accounts: map<AccountId, Account>, a: AccountId, delta: int): (r: map<AccountId, Account>)
    requires a in accounts
    ensures r.Keys == accounts.Keys
    ensures r[a].balance == accounts[a].balance + delta
    ensures r[a].userId == accounts[a].userId && r[a].name == accounts[a].name && r[a].kind == accounts[a].kind
    ensures forall b | b in accounts && b != a :: r[b] == accounts[b]
  {
    accounts[a := accounts[a].(balance := accounts[a].balance + delta)]
  }

  /** Writing a new balance into an account is shifting it by the difference. */
  lemma ShiftUpdate(accounts: map<AccountId, Account>, a: AccountId, balance: int, delta: int)
    requires a in accounts && balance == accounts[a].balance + delta
    ensures accounts[a := accounts[a].(balance := balance)] == Shift(accounts, a, delta)
  {
  }

  /** Two shifts of the same account are one shift by the sum. */
  lemma ShiftShiftSame(accounts: map<AccountId, Account>, a: AccountId, d1: int, d2: int)
    requires a in accounts
    ensures Shift(Shift(accounts, a, d1), a, d2) == Shift(accounts, a, d1 + d2)
  {
  }

  /** Every stored id was issued by its counter. */
  ghost predicate IdsIssued(accounts: map<AccountId, Account>, transactions: map<TransactionId, Transaction>,
                            initial: map<AccountId, int>, nextAccountId: nat, nextTransactionId: nat)
  {
    && initial.Keys == accounts.Keys
    && (forall a | a in accounts :: a < nextAccountId)
    && (forall i | i in transactions :: i < nextTransactionId)
  }

  /** Every transaction points at an existing account of the same user. */
  ghost predicate ReferencesResolve(accounts: map<AccountId, Account>, transactions: map<TransactionId, Transaction>) {
    forall i | i in transactions ::
      && transactions[i].accountId in accounts
      && accounts[transactions[i].accountId].userId == transactions[i].userId
  }

  /** Each balance is the initial balance plus the net effect of the transactions
      currently pointing at the account. */
  ghost predicate Balanced(accounts: map<AccountId, Account>, transactions: map<TransactionId, Transaction>,
                           initial: map<AccountId, int>)
  {
    forall a | a in accounts :: a in initial && accounts[a].balance == initial[a] + NetEffect(transactions, a)
  }

  ghost predicate LedgerInvariant(accounts: map<AccountId, Account>, transactions: map<TransactionId, Transaction>,
                                  initial: map<AccountId, int>, nextAccountId: nat, nextTransactionId: nat)
  {
    && IdsIssued(accounts, transactions, initial, nextAccountId, nextTransactionId)
    && ReferencesResolve(accounts, transactions)
    && Balanced(accounts, transactions, initial)
    && AccountsConform(accounts)
    && TransactionsConform(transactions)
  }

  /** Storing a conforming transaction of the account's owner under a fresh id, and
      adding its signed amount to the balance, keeps the invariant. */
  lemma InsertTransactionKeeps(accounts: map<AccountId, Account>, transactions: map<TransactionId, Transaction>,
                               initial: map<AccountId, int>, nextAccountId: nat, nextTransactionId: nat,
                               t: Transaction,
                               accounts': map<AccountId, Account>, transactions': map<TransactionId, Transaction>)
    requires LedgerInvariant(accounts, transactions, initial, nextAccountId, nextTransactionId)
    requires ValidTransaction(t) && t.accountId in accounts && accounts[t.accountId].userId == t.userId
    requires accounts' == Shift(accounts, t.accountId, Effect(t.kind, t.amount))
    requires transactions' == transactions[nextTransactionId := t]
    ensures nextTransactionId !in transactions
    ensures LedgerInvariant(accounts', transactions', initial, nextAccountId, nextTransactionId + 1)
  {
    ShiftKeepsShape(accounts, transactions, initial, nextAccountId, nextTransactionId, t.accountId, Effect(t.kind, t.amount));
    StoreKeepsShape(accounts', transactions, initial, nextAccountId, nextTransactionId + 1, nextTransactionId, t);
    forall a | a in accounts'
      ensures accounts'[a].balance == initial[a] + NetEffect(transactions', a)
    {
      NetEffectInsert(transactions, nextTransactionId, t, a);
    }
  }

  /** Reverting a stored record's effect and applying its replacement's keeps every
      balance equal to its initial balance plus its net effect. */
  lemma ReplaceTransactionBalanced(accounts: map<AccountId, Account>, transactions: map<TransactionId, Transaction>,
                                   initial: map<AccountId, int>, id: TransactionId, u: Transaction)
    requires Balanced(accounts, transactions, initial)
    requires id in transactions && transactions[id].accountId in accounts && u.accountId in accounts
    ensures Balanced(Shift(Shift(accounts, transactions[id].accountId, -Effect(transactions[id].kind, transactions[id].amount)),
                           u.accountId, Effect(u.kind, u.amount)),
                     transactions[id := u], initial)
  {
    var t := transactions[id];
    var accounts' := Shift(Shift(accounts, t.accountId, -Effect(t.kind, t.amount)), u.accountId, Effect(u.kind, u.amount));
    var transactions' := transactions[id := u];
    forall a | a in accounts'
      ensures a in initial && accounts'[a].balance == initial[a] + NetEffect(transactions', a)
    {
      NetEffectReplace(transactions, id, u, a);
    }
  }

  /** Replacing a stored transaction, reverting the old record's effect and applying the
      new one's, keeps the invariant, whether or not the account changes. */
  lemma ReplaceTransactionKeeps(accounts: map<AccountId, Account>, transactions: map<TransactionId, Transaction>,
                                initial: map<AccountId, int>, nextAccountId: nat, nextTransactionId: nat,
                                id: TransactionId, u: Transaction,
                                accounts': map<AccountId, Account>, transactions': map<TransactionId, Transaction>)
    requires LedgerInvariant(accounts, transactions, initial, nextAccountId, nextTransactionId)
    requires id in transactions && ValidTransaction(u) && u.userId == transactions[id].userId
    requires u.accountId in accounts && accounts[u.accountId].userId == u.userId
    requires transactions[id].accountId in accounts
    requires accounts' == Shift(Shift(accounts, transactions[id].accountId,
                                      -Effect(transactions[id].kind, transactions[id].amount)),
                                u.accountId, Effect(u.kind, u.amount))
    requires transactions' == transactions[id := u]
    ensures LedgerInvariant(accounts', transactions', initial, nextAccountId, nextTransactionId)
  {
    ReplaceTransactionBalanced(accounts, transactions, initial, id, u);
    StoreKeepsShape(accounts, transactions, initial, nextAccountId, nextTransactionId, id, u);
    ShiftKeepsShape(accounts, transactions[id := u], initial, nextAccountId, nextTransactionId,
                    transactions[id].accountId, -Effect(transactions[id].kind, transactions[id].amount));
    ShiftKeepsShape(Shift(accounts, transactions[id].accountId, -Effect(transactions[id].kind, transactions[id].amount)),
                    transactions[id := u], initial, nextAccountId, nextTransactionId, u.accountId, Effect(u.kind, u.amount));
  }

  /** Removing a stored transaction and reverting its effect keeps the invariant. */
  lemma RemoveTransactionKeeps(accounts: map<AccountId, Account>, transactions: map<TransactionId, Transaction>,
                               initial: map<AccountId, int>, nextAccountId: nat, nextTransactionId: nat,
                               id: TransactionId,
                               accounts': map<AccountId, Account>, transactions': map<TransactionId, Transaction>)
    requires LedgerInvariant(accounts, transactions, initial, nextAccountId, nextTransactionId)
    requires id in transactions && transactions[id].accountId in accounts
    requires accounts' == Shift(accounts, transactions[id].accountId, -Effect(transactions[id].kind, transactions[id].amount))
    requires transactions' == transactions - {id}
    ensures LedgerInvariant(accounts', transactions', initial, nextAccountId, nextTransactionId)
  {
    ShiftConforms(accounts, transactions[id].accountId, -Effect(transactions[id].kind, transactions[id].amount));
    RemoveConforms(transactions, id);
    forall a | a in accounts'
      ensures accounts'[a].balance == initial[a] + NetEffect(transactions', a)
    {
      NetEffectRemove(transactions, id, a);
    }
  }

  /** Opening a conforming account under a fresh id, with its balance as the initial
      balance, keeps the invariant: no transaction points at it yet. */
  lemma AddAccountKeeps(accounts: map<AccountId, Account>, transactions: map<TransactionId, Transaction>,
                        initial: map<AccountId, int>, nextAccountId: nat, nextTransactionId: nat,
                        account: Account, accounts': map<AccountId, Account>, initial': map<AccountId, int>)
    requires LedgerInvariant(accounts, transactions, initial, nextAccountId, nextTransactionId)
    requires ValidAccount(account)
    requires accounts' == accounts[nextAccountId := account] && initial' == initial[nextAccountId := account.balance]
    ensures nextAccountId !in accounts
    ensures LedgerInvariant(accounts', transactions, initial', nextAccountId + 1, nextTransactionId)
  {
    NetEffectUnreferenced(transactions, nextAccountId);
  }

  /** Rewriting an account's name or type, keeping owner and balance, keeps the invariant. */
  lemma ReplaceAccountKeeps(accounts: map<AccountId, Account>, transactions: map<TransactionId, Transaction>,
                            initial: map<AccountId, int>, nextAccountId: nat, nextTransactionId: nat,
                            id: AccountId, account: Account, accounts': map<AccountId, Account>)
    requires LedgerInvariant(accounts, transactions, initial, nextAccountId, nextTransactionId)
    requires id in accounts && ValidAccount(account)
    requires account.userId == accounts[id].userId && account.balance == accounts[id].balance
    requires accounts' == accounts[id := account]
    ensures LedgerInvariant(accounts', transactions, initial, nextAccountId, nextTransactionId)
  {
  }

  /** Removing an account no transaction points at keeps the invariant. */
  lemma RemoveAccountKeeps(accounts: map<AccountId, Account>, transactions: map<TransactionId, Transaction>,
                           initial: map<AccountId, int>, nextAccountId: nat, nextTransactionId: nat,
                           id: AccountId, accounts': map<AccountId, Account>, initial': map<AccountId, int>)
    requires LedgerInvariant(accounts, transactions, initial, nextAccountId, nextTransactionId)
    requires forall i | i in transactions :: transactions[i].accountId != id
    requires accounts' == accounts - {id} && initial' == initial - {id}
    ensures LedgerInvariant(accounts', transactions, initial', nextAccountId, nextTransactionId)
  {
  }

  // ---------------------------------------------------------------- schema conformance

  /** Every stored account passes its schema. */
  ghost predicate AccountsConform(accounts: map<AccountId, Account>) {
    forall a | a in accounts :: ValidAccount(accounts[a])
  }

  /** Every stored transaction passes its schema. */
  ghost predicate TransactionsConform(transactions: map<TransactionId, Transaction>) {
    forall i | i in transactions :: ValidTransaction(transactions[i])
  }

  /** Storing a conforming transaction leaves every transaction conforming. */
  lemma StoreConforms(transactions: map<TransactionId, Transaction>, id: TransactionId, t: Transaction)
    requires TransactionsConform(transactions) && ValidTransaction(t)
    ensures TransactionsConform(transactions[id := t])
  {
  }

  /** Removing a transaction leaves the rest conforming. */
  lemma RemoveConforms(transactions: map<TransactionId, Transaction>, id: TransactionId)
    requires TransactionsConform(transactions)
    ensures TransactionsConform(transactions - {id})
  {
  }

  /** Shifting a balance keeps the ids, the references and the account schema. */
  lemma ShiftKeepsShape(accounts: map<AccountId, Account>, transactions: map<TransactionId, Transaction>,
                        initial: map<AccountId, int>, nextAccountId: nat, nextTransactionId: nat,
                        a: AccountId, delta: int)
    requires IdsIssued(accounts, transactions, initial, nextAccountId, nextTransactionId)
    requires ReferencesResolve(accounts, transactions) && AccountsConform(accounts) && a in accounts
    ensures IdsIssued(Shift(accounts, a, delta), transactions, initial, nextAccountId, nextTransactionId)
    ensures ReferencesResolve(Shift(accounts, a, delta), transactions)
    ensures AccountsConform(Shift(accounts, a, delta))
  {
  }

  /** Storing a conforming record of the account's owner under an issued id keeps the
      ids, the references and the transaction schema. */
  lemma StoreKeepsShape(accounts: map<AccountId, Account>, transactions: map<TransactionId, Transaction>,
                        initial: map<AccountId, int>, nextAccountId: nat, nextTransactionId: nat,
                        id: TransactionId, t: Transaction)
    requires IdsIssued(accounts, transactions, initial, nextAccountId, nextTransactionId)
    requires ReferencesResolve(accounts, transactions) && TransactionsConform(transactions)
    requires id < nextTransactionId && ValidTransaction(t)
    requires t.accountId in accounts && accounts[t.accountId].userId == t.userId
    ensures IdsIssued(accounts, transactions[id := t], initial, nextAccountId, nextTransactionId)
    ensures ReferencesResolve(accounts, transactions[id := t])
    ensures TransactionsConform(transactions[id := t])
  {
  }

  lemma ShiftConforms(accounts: map<AccountId, Account>, a: AccountId, delta: int)
    requires AccountsConform(accounts) && a in accounts
    ensures AccountsConform(Shift(accounts, a, delta))
  {
  }

  // ---------------------------------------------------------------- the stores

  // ---------------------------------------------------------------- the update handler as written

  /** The two stores after `updateTransaction` as the handler orders its writes: both
      balance changes are saved first, and the rewritten transaction is saved last, where a
      category that trims to nothing makes the save fail and the transaction stays as it
      was. `UpdateTransaction` below checks the record before it moves any balance. */
  function UpdateAsWritten(accounts: map<AccountId, Account>, transactions: map<TransactionId, Transaction>,
                           id: TransactionId, u: Transaction)
    : (r: (map<AccountId, Account>, map<TransactionId, Transaction>))
    requires id in transactions && transactions[id].accountId in accounts && u.accountId in accounts
    ensures r.0.Keys == accounts.Keys
    ensures forall a | a in accounts ::
              r.0[a].balance == accounts[a].balance
                                - (if a == transactions[id].accountId then Effect(transactions[id].kind, transactions[id].amount) else 0)
                                + (if a == u.accountId then Effect(u.kind, u.amount) else 0)
    ensures ValidTransaction(u) ==> r.1 == transactions[id := u]
    ensures !ValidTransaction(u) ==> r.1 == transactions
    ensures TransactionsConform(transactions) ==> TransactionsConform(r.1)
  {
    var t := transactions[id];
    var moved := Shift(Shift(accounts, t.accountId, -Effect(t.kind, t.amount)), u.accountId, Effect(u.kind, u.amount));
    (moved, if ValidTransaction(u) then transactions[id := u] else transactions)
  }

  /** A balanced ledger of one cash wallet holding one income of 10, updated to an amount
      of 20 with a blank category: as written, the wallet shows 20 while the stored
      transaction still says 10, so the ledger is no longer balanced. */
  lemma UpdateAsWrittenUnbalances()
    ensures var t := Transaction(0, 0, 10, Income, "Salary", Moment(2024, 1, 1, 0), "");
            var accounts := map[0 := Account(0, "Wallet", CashWallet, 10)];
            var transactions := map[0 := t];
            var u := PatchTransaction(t, Given(Finite(20)), None, Given(" "), None, Undefined, None);
            var after := UpdateAsWritten(accounts, transactions, 0, u);
            && Balanced(accounts, transactions, map[0 := 0])
            && !Balanced(after.0, after.1, map[0 := 0])
  {
    var t := Transaction(0, 0, 10, Income, "Salary", Moment(2024, 1, 1, 0), "");
    var transactions := map[0 := t];
    var empty: map<TransactionId, Transaction> := map[];
    assert empty.Keys == {};
    NetEffectInsert(empty, 0, t, 0);
    assert empty[0 := t] == transactions;
    TrimEmptyIffAllSpace(" ");
    var u := PatchTransaction(t, Given(Finite(20)), None, Given(" "), None, Undefined, None);
    assert !ValidTransaction(u);
  }

  class LedgerStore {
    var accounts: map<AccountId, Account>
    var transactions: map<TransactionId, Transaction>
    var nextAccountId: nat
    var nextTransactionId: nat
    /** The balance each stored account was created with. */
    ghost var initialBalance: map<AccountId, int>

    /** The ledger invariant on the current state. */
    ghost predicate Valid()
      reads this
    {
      LedgerInvariant(accounts, transactions, initialBalance, nextAccountId, nextTransactionId)
    }

    predicate OwnsAccount(id: AccountId, userId: UserId)
      reads this
    {
      id in accounts && accounts[id].userId == userId
    }

    predicate OwnsTransaction(id: TransactionId, userId: UserId)
      reads this
    {
      id in transactions && transactions[id].userId == userId
    }

    /** `Transaction.countDocuments({ accountId })`, for any user, is not zero. */
    predicate IsReferenced(id: AccountId)
      reads this
    {
      exists i | i in transactions :: transactions[i].accountId == id
    }

    constructor ()
      ensures Valid()
      ensures accounts == map[] && transactions == map[]
    {
      accounts, transactions := map[], map[];
      nextAccountId, nextTransactionId := 0, 0;
      initialBalance := map[];
    }

    /** `Account.findOne({ _id: id, userId })`: an unknown id and another user's account
        are both not found. */
    function GetAccountById(id: AccountId, userId: UserId): (r: Option<Account>)
      reads this
      ensures r.Some? <==> OwnsAccount(id, userId)
      ensures r.Some? ==> r.value == accounts[id]
    {
      if OwnsAccount(id, userId) then Some(accounts[id]) else None
    }

    /** `Transaction.findOne({ _id: id, userId })`. */
    function GetTransactionById(id: TransactionId, userId: UserId): (r: Option<Transaction>)
      reads this
      ensures r.Some? <==> OwnsTransaction(id, userId)
      ensures r.Some? ==> r.value == transactions[id]
    {
      if OwnsTransaction(id, userId) then Some(transactions[id]) else None
    }

    /** The writes of a create: stores a conforming transaction under a fresh id and
        adds its signed amount to its account's balance. */
    method Post(t: Transaction) returns (id: TransactionId, balance: int)
      requires Valid()
      requires ValidTransaction(t) && OwnsAccount(t.accountId, t.userId)
      modifies this
      ensures Valid()
      ensures id !in old(transactions) && transactions == old(transactions)[id := t]
      ensures accounts == Shift(old(accounts), t.accountId, Effect(t.kind, t.amount))
      ensures balance == accounts[t.accountId].balance
    {
      id := nextTransactionId;
      accounts, transactions, nextTransactionId :=
        Shift(accounts, t.accountId, Effect(t.kind, t.amount)), transactions[id := t], id + 1;
      InsertTransactionKeeps(old(accounts), old(transactions), initialBalance, nextAccountId, id, t,
                             accounts, transactions);
      balance := accounts[t.accountId].balance;
    }

    /** The writes of an update: reverts the effect of the stored record, applies the new
        record's, and stores the new record. When both records name the same account the
        handler makes one combined write of that balance; `ShiftShiftSame` shows it equals
        the two shifts stated here. */
    method Repost(id: TransactionId, u: Transaction)
      requires Valid()
      requires id in transactions && ValidTransaction(u) && u.userId == transactions[id].userId
      requires OwnsAccount(u.accountId, u.userId)
      modifies this
      ensures Valid()
      ensures old(transactions)[id].accountId in old(accounts)
      ensures transactions == old(transactions)[id := u]
      ensures accounts == Shift(Shift(old(accounts), old(transactions)[id].accountId,
                                      -Effect(old(transactions)[id].kind, old(transactions)[id].amount)),
                                u.accountId, Effect(u.kind, u.amount))
    {
      var accounts' := Shift(Shift(accounts, transactions[id].accountId,
                                   -Effect(transactions[id].kind, transactions[id].amount)),
                             u.accountId, Effect(u.kind, u.amount));
      var transactions' := transactions[id := u];
      ReplaceTransactionKeeps(accounts, transactions, initialBalance, nextAccountId, nextTransactionId,
                              id, u, accounts', transactions');
      accounts, transactions := accounts', transactions';
    }

    /** The writes of a delete: reverts the effect of the stored record and removes it. */
    method Unpost(id: TransactionId)
      requires Valid()
      requires id in transactions
      modifies this
      ensures Valid()
      ensures old(transactions)[id].accountId in old(accounts)
      ensures transactions == old(transactions) - {id}
      ensures accounts == Shift(old(accounts), old(transactions)[id].accountId,
                                -Effect(old(transactions)[id].kind, old(transactions)[id].amount))
    {
      accounts, transactions :=
        Shift(accounts, transactions[id].accountId, -Effect(transactions[id].kind, transactions[id].amount)),
        transactions - {id};
      RemoveTransactionKeeps(old(accounts), old(transactions), initialBalance, nextAccountId, nextTransactionId, id,
                             accounts, transactions);
    }

    /** The write of an account create: stores a conforming account under a fresh id and
        remembers its balance as the account's opening balance. */
    method Open(account: Account) returns (id: AccountId)
      requires Valid()
      requires ValidAccount(account)
      modifies this
      ensures Valid()
      ensures transactions == old(transactions)
      ensures id !in old(accounts) && accounts == old(accounts)[id := account]
      ensures initialBalance == old(initialBalance)[id := account.balance]
    {
      id := nextAccountId;
      accounts, initialBalance, nextAccountId := accounts[id := account], initialBalance[id := account.balance], id + 1;
      AddAccountKeeps(old(accounts), transactions, old(initialBalance), id, nextTransactionId, account,
                      accounts, initialBalance);
    }

    /** Records a transaction and adds its signed amount to its account. Every check
        happens before anything is written. */
    method CreateTransaction(userId: UserId, accountId: Option<AccountId>, amount: Field<Numeric>,
                             kind: Option<TxType>, category: Field<string>, date: Option<Instant>,
                             note: Field<string>, now: Instant)
      returns (r: Result<Created>)
      requires Valid()
      modifies this
      ensures Valid()
      ensures MissingTransactionFields(accountId, amount, kind, category) ==> r == Err(MissingFields)
      ensures (!MissingTransactionFields(accountId, amount, kind, category) && !ValidNum(ToNum(amount))) ==>
                r == Err(InvalidAmount)
      ensures (!MissingTransactionFields(accountId, amount, kind, category) && ValidNum(ToNum(amount)) &&
               !old(OwnsAccount(accountId.value, userId))) ==> r == Err(NotFound)
      ensures (!MissingTransactionFields(accountId, amount, kind, category) && ValidNum(ToNum(amount)) &&
               old(OwnsAccount(accountId.value, userId)) && BlankCategory(category)) ==> r == Err(SchemaViolation)
      ensures r.Ok? <==> !MissingTransactionFields(accountId, amount, kind, category) && ValidNum(ToNum(amount)) &&
                         old(OwnsAccount(accountId.value, userId)) && !BlankCategory(category)
      ensures r.Err? ==> accounts == old(accounts) && transactions == old(transactions)
      ensures r.Ok? ==>
                var t := MakeTransaction(userId, accountId.value, ToNum(amount).v, kind.value, category.value,
                                         date.GetOr(now), NoteOrEmpty(note));
                && r.value.id !in old(transactions)
                && transactions == old(transactions)[r.value.id := t]
                && accounts == Shift(old(accounts), accountId.value, Effect(t.kind, t.amount))
                && r.value.balance == accounts[accountId.value].balance
    {
      if accountId.None? || IsNullish(amount) || kind.None? || !Truthy(category) {
        return Err(MissingFields);
      }
      var amountNum := ToNum(amount);
      if !ValidNum(amountNum) {
        return Err(InvalidAmount);
      }
      var found := GetAccountById(accountId.value, userId);
      if found.None? {
        return Err(NotFound);
      }
      var t := MakeTransaction(userId, accountId.value, amountNum.v, kind.value, category.value,
                               date.GetOr(now), NoteOrEmpty(note));
      if !ValidTransaction(t) {
        return Err(SchemaViolation);
      }
      var id, balance := Post(t);
      r := Ok(Created(id, balance));
    }

    /** Rewrites a transaction and moves its effect from the old record to the new one. */
    method UpdateTransaction(id: TransactionId, userId: UserId, amount: Field<Numeric>, kind: Option<TxType>,
                             category: Field<string>, date: Option<Instant>, note: Field<string>,
                             accountId: Option<AccountId>)
      returns (r: Result<int>)
      requires Valid()
      modifies this
      ensures Valid()
      ensures r.Err? ==> accounts == old(accounts) && transactions == old(transactions)
      ensures !old(OwnsTransaction(id, userId)) ==> r == Err(NotFound)
      ensures old(OwnsTransaction(id, userId)) ==>
                var t := old(transactions)[id];
                var target := accountId.GetOr(t.accountId);
                var n := UpdatedAmount(amount, t);
                && (!old(OwnsAccount(target, userId)) ==> r == Err(NotFound))
                && (old(OwnsAccount(target, userId)) && !ValidNum(n) ==> r == Err(InvalidAmount))
                && (old(OwnsAccount(target, userId)) && ValidNum(n) && BlankCategory(category) ==>
                      r == Err(SchemaViolation))
                && (old(OwnsAccount(target, userId)) && ValidNum(n) && !BlankCategory(category) ==>
                      var u := PatchTransaction(t, amount, kind, category, date, note, accountId);
                      && t.accountId in old(accounts)
                      && transactions == old(transactions)[id := u]
                      && accounts == Shift(Shift(old(accounts), t.accountId, -Effect(t.kind, t.amount)),
                                           u.accountId, Effect(u.kind, u.amount))
                      && r == Ok(accounts[target].balance))
    {
      var found := GetTransactionById(id, userId);
      if found.None? {
        return Err(NotFound);
      }
      var newAccountId := accountId.GetOr(transactions[id].accountId);
      var oldAccount := GetAccountById(transactions[id].accountId, userId);
      var newAccount := GetAccountById(newAccountId, userId);
      if oldAccount.None? || newAccount.None? {
        return Err(NotFound);
      }
      if !ValidNum(UpdatedAmount(amount, transactions[id])) {
        return Err(InvalidAmount);
      }
      var u := PatchTransaction(transactions[id], amount, kind, category, date, note, accountId);
      if !ValidTransaction(u) {
        return Err(SchemaViolation);
      }
      Repost(id, u);
      r := Ok(accounts[newAccountId].balance);
    }

    /** Reverts a transaction's effect on its account and removes the record. */
    method DeleteTransaction(id: TransactionId, userId: UserId) returns (r: Result<()>)
      requires Valid()
      modifies this
      ensures Valid()
      ensures r.Err? <==> !old(OwnsTransaction(id, userId))
      ensures r.Err? ==> r.error == NotFound && accounts == old(accounts) && transactions == old(transactions)
      ensures r.Ok? ==>
                var t := old(transactions)[id];
                && t.accountId in old(accounts)
                && transactions == old(transactions) - {id}
                && accounts == Shift(old(accounts), t.accountId, -Effect(t.kind, t.amount))
    {
      var found := GetTransactionById(id, userId);
      if found.None? {
        return Err(NotFound);
      }
      Unpost(id);
      r := Ok(());
    }


    /** Opens an account for the user with the given (or a zero) balance. */
    method CreateAccount(userId: UserId, name: Field<string>, kind: Field<string>, balance: Field<Numeric>)
      returns (r: Result<AccountId>)
      requires Valid()
      modifies this
      ensures Valid()
      ensures transactions == old(transactions)
      ensures r.Err? ==> accounts == old(accounts)
      ensures !Truthy(name) || !Truthy(kind) ==> r == Err(MissingFields)
      ensures (Truthy(name) && Truthy(kind) && (ParseAccountType(kind.value).None? || Trim(name.value) == "")) ==>
                r == Err(SchemaViolation)
      ensures r.Ok? <==> Truthy(name) && Truthy(kind) && ParseAccountType(kind.value).Some? && Trim(name.value) != ""
      ensures r.Ok? ==>
                && r.value !in old(accounts)
                && accounts == old(accounts)[r.value :=
                     MakeAccount(userId, name.value, ParseAccountType(kind.value).value, OpeningBalance(balance))]
                && initialBalance[r.value] == OpeningBalance(balance)
    {
      if !Truthy(name) || !Truthy(kind) {
        return Err(MissingFields);
      }
      var parsed := ParseAccountType(kind.value);
      if parsed.None? {
        return Err(SchemaViolation);
      }
      var account := MakeAccount(userId, name.value, parsed.value, OpeningBalance(balance));
      if !ValidAccount(account) {
        return Err(SchemaViolation);
      }
      var id := Open(account);
      r := Ok(id);
    }

    /** Renames an account or changes its type; the balance is never touched. */
    method UpdateAccount(id: AccountId, userId: UserId, name: Field<string>, kind: Field<string>)
      returns (r: Result<Account>)
      requires Valid()
      modifies this
      ensures Valid()
      ensures transactions == old(transactions)
      ensures r.Err? ==> accounts == old(accounts)
      ensures !old(OwnsAccount(id, userId)) ==> r == Err(NotFound)
      ensures r.Ok? <==> && old(OwnsAccount(id, userId))
                         && (Truthy(kind) ==> ParseAccountType(kind.value).Some?)
                         && (Truthy(name) ==> Trim(name.value) != "")
      ensures r.Ok? ==>
                var before := old(accounts)[id];
                && accounts == old(accounts)[id := r.value]
                && r.value.balance == before.balance
                && r.value.userId == before.userId
                && r.value.name == (if Truthy(name) then Trim(name.value) else before.name)
                && r.value.kind == (if Truthy(kind) then ParseAccountType(kind.value).value else before.kind)
    {
      var found := GetAccountById(id, userId);
      if found.None? {
        return Err(NotFound);
      }
      var account := found.value;
      if Truthy(name) {
        TrimSpec(name.value);
        account := account.(name := Trim(name.value));
      }
      if Truthy(kind) {
        var parsed := ParseAccountType(kind.value);
        if parsed.None? {
          return Err(SchemaViolation);
        }
        account := account.(kind := parsed.value);
      }
      if !ValidAccount(account) {
        return Err(SchemaViolation);
      }
      accounts := accounts[id := account];
      ReplaceAccountKeeps(old(accounts), transactions, initialBalance, nextAccountId, nextTransactionId, id, account,
                          accounts);
      r := Ok(account);
    }

    /** Closes an account, refused while any transaction still points at it. */
    method DeleteAccount(id: AccountId, userId: UserId) returns (r: Result<()>)
      requires Valid()
      modifies this
      ensures Valid()
      ensures transactions == old(transactions)
      ensures !old(OwnsAccount(id, userId)) ==> r == Err(NotFound)
      ensures old(OwnsAccount(id, userId)) && old(IsReferenced(id)) ==> r == Err(HasTransactions)
      ensures r.Ok? <==> old(OwnsAccount(id, userId)) && !old(IsReferenced(id))
      ensures r.Err? ==> accounts == old(accounts)
      ensures r.Ok? ==> accounts == old(accounts) - {id}
    {
      var found := GetAccountById(id, userId);
      if found.None? {
        return Err(NotFound);
      }
      if exists i | i in transactions :: transactions[i].accountId == id {
        return Err(HasTransactions);
      }
      accounts, initialBalance := accounts - {id}, initialBalance - {id};
      RemoveAccountKeeps(old(accounts), transactions, old(initialBalance), nextAccountId, nextTransactionId, id,
                         accounts, initialBalance);
      r := Ok(());
    }
  }
}
