/** transactions/models.py: the Transaction row, the per-user UserProfile balance and
    the balance side effect of Transaction.save. The Transaction and UserProfile tables
    are fields of one Store object; saving updates them in place. */
module TransactionModels {
  import opened Outcomes
  import opened Calendar

  type UserId = nat

  /** transaction_type: the serializer only admits income and expense, but the column
      is free text and save() has a branch for neither. */
  datatype Kind = Income | Expense | OtherKind(name: string)

  /** A ledger row; amount is in cents and date is the transaction's date and time. */
  datatype Transaction = Transaction(
    id: nat, user: UserId, kind: Kind, amount: int, category: string, date: DateTime)

  /** The owner's balance after one save() of t: income adds, expense subtracts,
      any other type leaves it alone (an elif with no else). */
  function SaveAdjusted(balance: int, t: Transaction): int {
    match t.kind
    case Income => balance + t.amount
    case Expense => balance - t.amount
    case OtherKind(_) => balance
  }

  /** The balance after saving the same transaction n times. */
  function Resaved(balance: int, t: Transaction, n: nat): int {
    if n == 0 then balance else SaveAdjusted(Resaved(balance, t, n - 1), t)
  }

  /** Every save applies the adjustment again and nothing reverses an earlier one:
      n saves move the balance by n times the amount. */
  lemma {:induction false} ResavedMovesByMultiple(balance: int, t: Transaction, n: nat)
    ensures t.kind == Income ==> Resaved(balance, t, n) == balance + n * t.amount
    ensures t.kind == Expense ==> Resaved(balance, t, n) == balance - n * t.amount
    ensures t.kind.OtherKind? ==> Resaved(balance, t, n) == balance
  {
    if n > 0 {
      ResavedMovesByMultiple(balance, t, n - 1);
      assert n * t.amount == (n - 1) * t.amount + t.amount;
    }
  }

  /** The position of the row with primary key id, if any. */
  function IndexOfId(ledger: seq<Transaction>, id: nat): (r: Option<nat>)
    ensures r.Some? ==> r.value < |ledger| && ledger[r.value].id == id
    ensures r.None? ==> forall i :: 0 <= i < |ledger| ==> ledger[i].id != id
  {
    if |ledger| == 0 then None
    else if ledger[|ledger| - 1].id == id then Some(|ledger| - 1)
    else IndexOfId(ledger[..|ledger| - 1], id)
  }

  /** The table after Model.save(): an existing primary key is updated in place,
      a new one is inserted. */
  function Upsert(ledger: seq<Transaction>, t: Transaction): seq<Transaction> {
    match IndexOfId(ledger, t.id)
    case Some(i) => ledger[i := t]
    case None => ledger + [t]
  }

  predicate DistinctIds(ledger: seq<Transaction>) {
    forall i, j :: 0 <= i < j < |ledger| ==> ledger[i].id != ledger[j].id
  }

  /** Saving keeps primary keys unique and leaves exactly one row with t's key, holding t. */
  lemma UpsertKeepsKeys(ledger: seq<Transaction>, t: Transaction)
    requires DistinctIds(ledger)
    ensures DistinctIds(Upsert(ledger, t))
    ensures t in Upsert(ledger, t)
    ensures forall x :: x in Upsert(ledger, t) && x.id != t.id ==> x in ledger
    ensures forall x :: x in ledger && x.id != t.id ==> x in Upsert(ledger, t)
  {
    var r := Upsert(ledger, t);
    match IndexOfId(ledger, t.id)
    case Some(i) =>
      assert r[i] == t;
      forall x | x in ledger && x.id != t.id ensures x in r {
        var j :| 0 <= j < |ledger| && ledger[j] == x;
        assert r[j] == x;
      }
    case None =>
      assert r[|ledger|] == t;
  }

  lemma UpsertIdsBelow(ledger: seq<Transaction>, t: Transaction, bound: nat)
    requires forall i :: 0 <= i < |ledger| ==> ledger[i].id < bound
    requires t.id < bound
    ensures forall i :: 0 <= i < |Upsert(ledger, t)| ==> Upsert(ledger, t)[i].id < bound
  {
  }

  /** Saving keeps the primary keys unique and below a bound that exceeds t's key. */
  lemma UpsertKeepsValid(ledger: seq<Transaction>, t: Transaction, bound: nat)
    requires DistinctIds(ledger)
    requires forall i :: 0 <= i < |ledger| ==> ledger[i].id < bound
    requires t.id < bound
    ensures DistinctIds(Upsert(ledger, t))
    ensures forall i :: 0 <= i < |Upsert(ledger, t)| ==> Upsert(ledger, t)[i].id < bound
  {
    UpsertKeepsKeys(ledger, t);
    UpsertIdsBelow(ledger, t, bound);
  }

  /** The UserProfile and Transaction tables. */
  class Store {
    var balances: map<UserId, int>
    var ledger: seq<Transaction>
    var nextId: nat

    ghost predicate Valid()
      reads this
    {
      && DistinctIds(ledger)
      && forall i :: 0 <= i < |ledger| ==> ledger[i].id < nextId
    }

    constructor (profiles: map<UserId, int>)
      ensures Valid()
      ensures balances == profiles && ledger == [] && nextId == 1
    {
      balances := profiles;
      ledger := [];
      nextId := 1;
    }

    /** Transaction.save(): adjust the owner's profile balance, then write the row.
        An owner without a profile raises before anything is written. */
    method Save(t: Transaction) returns (r: Result<()>)
      requires Valid()
      modifies this
      ensures Valid()
      ensures t.user !in old(balances) ==>
        r == Err(ProfileMissing) && balances == old(balances) && ledger == old(ledger) && nextId == old(nextId)
      ensures t.user in old(balances) ==>
        && r == Ok(())
        && balances == old(balances)[t.user := SaveAdjusted(old(balances)[t.user], t)]
        && ledger == Upsert(old(ledger), t)
        && nextId == (if t.id < old(nextId) then old(nextId) else t.id + 1)
    {
      if t.user !in balances {
        return Err(ProfileMissing);
      }
      var profileBalance := balances[t.user];
      match t.kind {
        case Income => profileBalance := profileBalance + t.amount;
        case Expense => profileBalance := profileBalance - t.amount;
        case OtherKind(_) =>
      }
      balances := balances[t.user := profileBalance];
      var bound := if t.id < nextId then nextId else t.id + 1;
      UpsertKeepsValid(ledger, t, bound);
      ledger := Upsert(ledger, t);
      nextId := bound;
      r := Ok(());
    }

    /** Transaction.objects.create(...): a row with a fresh primary key, saved once. */
    method Create(user: UserId, kind: Kind, amount: int, category: string, date: DateTime)
      returns (r: Result<Transaction>)
      requires Valid()
      modifies this
      ensures Valid()
      ensures user !in old(balances) ==>
        r == Err(ProfileMissing) && balances == old(balances) && ledger == old(ledger) && nextId == old(nextId)
      ensures user in old(balances) ==>
        && r == Ok(Transaction(old(nextId), user, kind, amount, category, date))
        && balances == old(balances)[user := SaveAdjusted(old(balances)[user], r.value)]
        && ledger == old(ledger) + [r.value]
        && nextId == old(nextId) + 1
    {
      var t := Transaction(nextId, user, kind, amount, category, date);
      assert IndexOfId(ledger, t.id).None?;
      var saved := Save(t);
      if saved.Err? {
        return Err(saved.error);
      }
      r := Ok(t);
    }
  }
}
