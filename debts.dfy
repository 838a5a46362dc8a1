/** The debt controller: money lent to ("give") or borrowed from ("take") a named
    person, kept per user. */
module Debts {
  import opened Inputs
  import opened Text
  import opened Calendar
  import opened Models

  // ---------------------------------------------------------------- the update patch

  /** The person name after `if (personName) debt.personName = personName`, trim setter applied. */
  function AssignedName(d: Debt, personName: Field<string>): string {
    if Truthy(personName) then Trim(personName.value) else d.personName
  }

  /** The amount after `if (amount !== undefined) debt.amount = amount`; `None` when the
      assigned value is `null` or does not cast to a number. */
  function AssignedAmount(d: Debt, amount: Field<Numeric>): Option<int> {
    match amount
    case Undefined => Some(d.amount)
    case Null => None
    case Given(n) => if n.Finite? then Some(n.v) else None
  }

  /** The type after `if (type) debt.type = type`; `None` outside the enumeration. */
  function AssignedKind(d: Debt, kind: Field<string>): Option<DebtType> {
    if Truthy(kind) then ParseDebtType(kind.value) else Some(d.kind)
  }

  /** The due date after `if (dueDate !== undefined) debt.dueDate = dueDate ? new Date(dueDate) : null`. */
  function AssignedDueDate(d: Debt, dueDate: Field<Instant>): Option<Instant> {
    match dueDate
    case Undefined => d.dueDate
    case Null => None
    case Given(t) => Some(t)
  }

  /** The notes after `if (notes !== undefined) debt.notes = notes`, trim setter applied. */
  function AssignedNotes(d: Debt, notes: Field<string>): string {
    match notes
    case Undefined => d.notes
    case Null => ""
    case Given(s) => Trim(s)
  }

  /** The document once every supplied field is assigned, when the amount and the type cast. */
  function Assigned(d: Debt, personName: Field<string>, amount: Field<Numeric>, kind: Field<string>,
                    dueDate: Field<Instant>, notes: Field<string>): Debt
    requires AssignedAmount(d, amount).Some? && AssignedKind(d, kind).Some?
  {
    Debt(d.userId, AssignedName(d, personName), AssignedAmount(d, amount).value, AssignedKind(d, kind).value,
         AssignedDueDate(d, dueDate), AssignedNotes(d, notes))
  }

  /** The debt after `updateDebt` has assigned the supplied fields and `save()` has
      validated it. A truthy person name or type replaces the stored one, any supplied
      amount, due date or note replaces the stored one, and the trim setters apply to the
      strings. A `null` or unparsable amount, a type outside the enumeration or a record
      that no longer conforms is a schema error. A falsy due date clears it. */
  function PatchDebt(d: Debt, personName: Field<string>, amount: Field<Numeric>, kind: Field<string>,
                     dueDate: Field<Instant>, notes: Field<string>): (r: Result<Debt>)
    ensures r.Err? ==> r.error == SchemaViolation
    ensures r.Ok? ==> ValidDebt(r.value) && r.value.userId == d.userId
  {
    if AssignedAmount(d, amount).None? || AssignedKind(d, kind).None? then Err(SchemaViolation)
    else
      var patched := Assigned(d, personName, amount, kind, dueDate, notes);
      if ValidDebt(patched) then Ok(patched) else Err(SchemaViolation)
  }

  /** When the amount and the type cast, the patch is the assigned document if it conforms. */
  lemma PatchDebtCasts(d: Debt, personName: Field<string>, amount: Field<Numeric>, kind: Field<string>,
                       dueDate: Field<Instant>, notes: Field<string>)
    requires AssignedAmount(d, amount).Some? && AssignedKind(d, kind).Some?
    ensures var p := Assigned(d, personName, amount, kind, dueDate, notes);
            PatchDebt(d, personName, amount, kind, dueDate, notes) == if ValidDebt(p) then Ok(p) else Err(SchemaViolation)
  {
  }

  /** A `null` or unparsable amount or a type outside the enumeration fails the patch. */
  lemma PatchDebtCastFails(d: Debt, personName: Field<string>, amount: Field<Numeric>, kind: Field<string>,
                           dueDate: Field<Instant>, notes: Field<string>)
    requires AssignedAmount(d, amount).None? || AssignedKind(d, kind).None?
    ensures PatchDebt(d, personName, amount, kind, dueDate, notes) == Err(SchemaViolation)
  {
  }

  /** What a successful patch stores, field by field: a truthy name replaces the stored
      one, trimmed; a supplied amount replaces it; a truthy type replaces it; a supplied
      due date replaces it and a falsy one clears it; supplied notes replace them, trimmed.
      A `null` or unparsable amount and a type outside the enumeration are refused. */
  lemma PatchDebtFields(d: Debt, personName: Field<string>, amount: Field<Numeric>, kind: Field<string>,
                        dueDate: Field<Instant>, notes: Field<string>)
    ensures var r := PatchDebt(d, personName, amount, kind, dueDate, notes);
            && (r.Ok? ==> r.value.personName == (if Truthy(personName) then Trim(personName.value) else d.personName))
            && (r.Ok? ==> r.value.amount == (if amount.Given? && amount.value.Finite? then amount.value.v else d.amount))
            && (r.Ok? ==> DebtTypeName(r.value.kind) == (if Truthy(kind) then kind.value else DebtTypeName(d.kind)))
            && (r.Ok? ==> r.value.dueDate == (if dueDate.Given? then Some(dueDate.value)
                                              else if dueDate.Null? then None else d.dueDate))
            && (r.Ok? ==> r.value.notes == (if notes.Given? then Trim(notes.value)
                                            else if notes.Null? then "" else d.notes))
            && (amount.Null? || amount == Given(NotANumber) ==> r.Err?)
            && (Truthy(kind) && ParseDebtType(kind.value).None? ==> r.Err?)
  {
  }

  /** The body of `updateDebt` between the lookup and the save: each supplied field is
      assigned to the document in turn, then `save()` validates it. A `null` or
      unparsable amount and a type outside the enumeration end the update with the schema
      error that `save()` would report for them. */
  method AssignFields(stored: Debt, personName: Field<string>, amount: Field<Numeric>, kind: Field<string>,
                      dueDate: Field<Instant>, notes: Field<string>)
    returns (r: Result<Debt>)
    ensures r == PatchDebt(stored, personName, amount, kind, dueDate, notes)
  {
    var debt := stored;
    if Truthy(personName) {
      debt := debt.(personName := Trim(personName.value));
    }
    match amount {
      case Undefined =>
      case Null =>
        PatchDebtCastFails(stored, personName, amount, kind, dueDate, notes);
        return Err(SchemaViolation);
      case Given(n) =>
        if n.NotANumber? {
          PatchDebtCastFails(stored, personName, amount, kind, dueDate, notes);
          return Err(SchemaViolation);
        }
        debt := debt.(amount := n.v);
    }
    assert debt == stored.(personName := AssignedName(stored, personName),
                           amount := AssignedAmount(stored, amount).value);
    if Truthy(kind) {
      var parsed := ParseDebtType(kind.value);
      if parsed.None? {
        PatchDebtCastFails(stored, personName, amount, kind, dueDate, notes);
        return Err(SchemaViolation);
      }
      debt := debt.(kind := parsed.value);
    }
    assert debt == stored.(personName := AssignedName(stored, personName),
                           amount := AssignedAmount(stored, amount).value,
                           kind := AssignedKind(stored, kind).value);
    PatchDebtCasts(stored, personName, amount, kind, dueDate, notes);
    match dueDate {
      case Undefined =>
      case Null => debt := debt.(dueDate := None);
      case Given(t) => debt := debt.(dueDate := Some(t));
    }
    assert debt == stored.(personName := AssignedName(stored, personName),
                           amount := AssignedAmount(stored, amount).value,
                           kind := AssignedKind(stored, kind).value,
                           dueDate := AssignedDueDate(stored, dueDate));
    match notes {
      case Undefined =>
      case Null => debt := debt.(notes := "");
      case Given(s) => debt := debt.(notes := Trim(s));
    }
    assert debt == Assigned(stored, personName, amount, kind, dueDate, notes);
    r := if ValidDebt(debt) then Ok(debt) else Err(SchemaViolation);
  }

  /** An empty patch leaves a conforming debt as it is. */
  lemma EmptyPatchKeepsDebt(d: Debt)
    requires ValidDebt(d)
    ensures PatchDebt(d, Undefined, Undefined, Undefined, Undefined, Undefined) == Ok(d)
  {
  }

  /** Assigning the same name or notes again leaves the trimmed value as it is. */
  lemma ReassignStrings(d: Debt, personName: Field<string>, notes: Field<string>)
    ensures AssignedName(d.(personName := AssignedName(d, personName)), personName) == AssignedName(d, personName)
    ensures AssignedNotes(d.(notes := AssignedNotes(d, notes)), notes) == AssignedNotes(d, notes)
  {
    if Truthy(personName) {
      TrimIdempotent(personName.value);
    }
    if notes.Given? {
      TrimIdempotent(notes.value);
    }
  }

  /** Sending the same update twice stores the same debt as sending it once. */
  lemma PatchDebtIdempotent(d: Debt, personName: Field<string>, amount: Field<Numeric>, kind: Field<string>,
                            dueDate: Field<Instant>, notes: Field<string>)
    requires PatchDebt(d, personName, amount, kind, dueDate, notes).Ok?
    ensures var once := PatchDebt(d, personName, amount, kind, dueDate, notes).value;
            PatchDebt(once, personName, amount, kind, dueDate, notes) == Ok(once)
  {
    var once := PatchDebt(d, personName, amount, kind, dueDate, notes).value;
    var name, notes' := AssignedName(d, personName), AssignedNotes(d, notes);
    assert once == Debt(d.userId, name, AssignedAmount(d, amount).value, AssignedKind(d, kind).value,
                        AssignedDueDate(d, dueDate), notes');
    ReassignStrings(d, personName, notes);
    assert AssignedName(once, personName) == name;
    assert AssignedNotes(once, notes) == notes';
    assert AssignedAmount(once, amount) == Some(once.amount);
    assert AssignedKind(once, kind) == Some(once.kind);
  }

  /** A patch succeeds exactly when every supplied field is acceptable: a truthy name
      that does not trim to nothing, a finite amount that is not negative, a known type. */
  lemma PatchDebtSucceeds(d: Debt, personName: Field<string>, amount: Field<Numeric>, kind: Field<string>,
                          dueDate: Field<Instant>, notes: Field<string>)
    requires ValidDebt(d)
    ensures PatchDebt(d, personName, amount, kind, dueDate, notes).Ok? <==>
              && (Truthy(personName) ==> Trim(personName.value) != "")
              && (amount.Undefined? || (amount.Given? && ValidNum(amount.value)))
              && (Truthy(kind) ==> ParseDebtType(kind.value).Some?)
  {
    if AssignedAmount(d, amount).Some? && AssignedKind(d, kind).Some? {
      var p := Assigned(d, personName, amount, kind, dueDate, notes);
      if Truthy(personName) {
        TrimSpec(personName.value);
      }
      if notes.Given? {
        TrimSpec(notes.value);
      }
      assert IsTrimmed(p.personName) && IsTrimmed(p.notes);
      assert p.personName != "" <==> Truthy(personName) ==> Trim(personName.value) != "";
    }
  }

  // ---------------------------------------------------------------- the store

  /** Every stored debt conforms and ids below `nextId` are the ones handed out. */
  predicate Conforming(debts: map<DebtId, Debt>, nextId: nat) {
    forall id | id in debts :: ValidDebt(debts[id]) && id < nextId
  }

  /** Storing a conforming debt under a fresh or an existing id keeps the store conforming. */
  lemma StoreConforms(debts: map<DebtId, Debt>, nextId: nat, id: DebtId, d: Debt)
    requires Conforming(debts, nextId) && ValidDebt(d) && id < nextId
    ensures Conforming(debts[id := d], nextId)
  {
  }

  class DebtStore {
    var debts: map<DebtId, Debt>
    var nextId: nat

    ghost predicate Valid()
      reads this
    {
      Conforming(debts, nextId)
    }

    constructor ()
      ensures Valid() && debts == map[]
    {
      debts, nextId := map[], 0;
    }

    predicate Owns(id: DebtId, userId: UserId)
      reads this
    {
      id in debts && debts[id].userId == userId
    }

    /** `getDebtById`: the debt when it exists and belongs to the user. */
    function GetDebtById(id: DebtId, userId: UserId): (r: Result<Debt>)
      reads this
      ensures r.Ok? <==> Owns(id, userId)
      ensures r.Err? ==> r.error == NotFound
      ensures r.Ok? ==> r.value == debts[id] && r.value.userId == userId
    {
      if Owns(id, userId) then Ok(debts[id]) else Err(NotFound)
    }

    /** `getDebts`: the user's debts, narrowed to one type when a non-empty type is given.
        A type outside the enumeration matches nothing. */
    function GetDebts(userId: UserId, kind: Option<string>): (r: map<DebtId, Debt>)
      reads this
      ensures forall id :: id in r <==>
                Owns(id, userId) && (kind.Some? && kind.value != "" ==> DebtTypeName(debts[id].kind) == kind.value)
      ensures forall id | id in r :: id in debts && r[id] == debts[id]
    {
      map id | id in debts && debts[id].userId == userId
                 && (kind.Some? && kind.value != "" ==> DebtTypeName(debts[id].kind) == kind.value)
        :: debts[id]
    }

    /** `createDebt`. A missing name, amount or type is refused first, then an amount that
        is not a finite non-negative number; a type outside the enumeration or a name that
        trims to nothing fails the schema. A falsy due date is left unset and falsy notes
        become the empty string. */
    method CreateDebt(userId: UserId, personName: Field<string>, amount: Field<Numeric>, kind: Field<string>,
                      dueDate: Option<Instant>, notes: Field<string>)
      returns (r: Result<DebtId>)
      requires Valid()
      modifies this
      ensures Valid()
      ensures r.Err? ==> debts == old(debts)
      ensures !Truthy(personName) || IsNullish(amount) || !Truthy(kind) ==> r == Err(MissingFields)
      ensures Truthy(personName) && !IsNullish(amount) && Truthy(kind) ==>
                && (!ValidNum(amount.value) ==> r == Err(InvalidAmount))
                && (ValidNum(amount.value) && (ParseDebtType(kind.value).None? || Trim(personName.value) == "") ==>
                      r == Err(SchemaViolation))
                && (ValidNum(amount.value) && ParseDebtType(kind.value).Some? && Trim(personName.value) != "" ==>
                      var d := Debt(userId, Trim(personName.value), amount.value.v, ParseDebtType(kind.value).value,
                                    dueDate, if Truthy(notes) then Trim(notes.value) else "");
                      && r.Ok? && r.value !in old(debts) && debts == old(debts)[r.value := d]
                      && GetDebtById(r.value, userId) == Ok(d))
    {
      if !Truthy(personName) || IsNullish(amount) || !Truthy(kind) {
        return Err(MissingFields);
      }
      var amountNum := amount.value;
      if !amountNum.Finite? || amountNum.v < 0 {
        return Err(InvalidAmount);
      }
      var debtType := ParseDebtType(kind.value);
      if debtType.None? {
        return Err(SchemaViolation);
      }
      // The controller trims the name before the schema's setter trims it again; by
      // TrimIdempotent the second trim changes nothing, so it is applied once here.
      var debt := MakeDebt(userId, personName.value, amountNum.v, debtType.value, dueDate,
                           if Truthy(notes) then notes.value else "");
      if !ValidDebt(debt) {
        return Err(SchemaViolation);
      }
      var id := Insert(debt);
      r := Ok(id);
    }

    /** `debt.save()` of a new document: the debt is stored under a fresh id. */
    method Insert(debt: Debt) returns (id: DebtId)
      requires Valid() && ValidDebt(debt)
      modifies this
      ensures Valid()
      ensures id !in old(debts) && debts == old(debts)[id := debt]
    {
      id := nextId;
      StoreConforms(debts, nextId + 1, id, debt);
      debts, nextId := debts[id := debt], id + 1;
    }

    /** `debt.save()` of an existing document. */
    method Replace(id: DebtId, debt: Debt)
      requires Valid() && id in debts && ValidDebt(debt)
      modifies this
      ensures Valid()
      ensures debts == old(debts)[id := debt]
    {
      StoreConforms(debts, nextId, id, debt);
      debts := debts[id := debt];
    }

    /** `updateDebt`: the owned debt with the supplied fields assigned, stored only when
        the result conforms. */
    method UpdateDebt(id: DebtId, userId: UserId, personName: Field<string>, amount: Field<Numeric>,
                      kind: Field<string>, dueDate: Field<Instant>, notes: Field<string>)
      returns (r: Result<Debt>)
      requires Valid()
      modifies this
      ensures Valid()
      ensures r.Err? ==> debts == old(debts)
      ensures !old(Owns(id, userId)) ==> r == Err(NotFound)
      ensures old(Owns(id, userId)) ==> r == PatchDebt(old(debts)[id], personName, amount, kind, dueDate, notes)
      ensures r.Ok? ==> debts == old(debts)[id := r.value]
    {
      if !Owns(id, userId) {
        return Err(NotFound);
      }
      r := AssignFields(debts[id], personName, amount, kind, dueDate, notes);
      if r.Ok? {
        Replace(id, r.value);
      }
    }

    /** `deleteDebt`: removes exactly the owned debt. */
    method DeleteDebt(id: DebtId, userId: UserId) returns (r: Result<()>)
      requires Valid()
      modifies this
      ensures Valid()
      ensures r.Ok? <==> old(Owns(id, userId))
      ensures r.Err? ==> r.error == NotFound && debts == old(debts)
      ensures r.Ok? ==> debts == old(debts) - {id}
    {
      if !Owns(id, userId) {
        return Err(NotFound);
      }
      debts := debts - {id};
      r := Ok(());
    }
  }

  /** Without a type filter the user's debts are exactly those lent plus those borrowed,
      and no debt is both. */
  lemma DebtsSplitByType(store: DebtStore, userId: UserId)
    ensures var lent, borrowed := store.GetDebts(userId, Some("give")), store.GetDebts(userId, Some("take"));
            && lent.Keys !! borrowed.Keys
            && store.GetDebts(userId, None) == lent + borrowed
  {
    var all, lent, borrowed := store.GetDebts(userId, None), store.GetDebts(userId, Some("give")),
                              store.GetDebts(userId, Some("take"));
    forall id | id in all
      ensures id in lent + borrowed && (lent + borrowed)[id] == all[id]
    {
      if store.debts[id].kind == Give {
        assert id in lent;
      } else {
        assert id in borrowed;
      }
    }
  }

  /** A type filter outside the enumeration finds nothing. */
  lemma UnknownTypeFindsNothing(store: DebtStore, userId: UserId, kind: string)
    requires kind != "" && ParseDebtType(kind).None?
    ensures store.GetDebts(userId, Some(kind)) == map[]
  {
  }
}
