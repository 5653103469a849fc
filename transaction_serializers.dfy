/** transactions/serializers.py: TransactionSerializer.create. */
module TransactionSerializers {
  import opened Outcomes
  import opened Calendar
  import opened TransactionModels

  /** The validated fields of a create request. `user` is there when the caller of
      save() passed one (perform_create passes the request user); `date` is None when
      the request leaves the default, timezone.now. */
  datatype TransactionData = TransactionData(
    user: Option<UserId>, kind: Kind, amount: int, category: string, date: Option<DateTime>)

  /** create(validated_data): drop any `user` key, create the row owned by the request
      user (which runs Transaction.save), then read that user's profile, adjust its
      balance once more and save it; the created row is returned. */
  method Create(store: Store, data: TransactionData, requestUser: UserId, now: DateTime)
    returns (r: Result<Transaction>)
    requires store.Valid()
    modifies store
    ensures store.Valid()
    ensures requestUser !in old(store.balances) ==>
      && r == Err(ProfileMissing)
      && store.balances == old(store.balances) && store.ledger == old(store.ledger)
      && store.nextId == old(store.nextId)
    ensures requestUser in old(store.balances) ==>
      var t := Transaction(old(store.nextId), requestUser, data.kind, data.amount, data.category,
                           if data.date.Some? then data.date.value else now);
      && r == Ok(t)
      && store.ledger == old(store.ledger) + [t]
      && store.nextId == old(store.nextId) + 1
      // Transaction.save adjusts the balance once and create adjusts the saved balance
      // again: income counts twice, expense twice, and any other type once, as an expense
      && store.balances == old(store.balances)[requestUser := old(store.balances)[requestUser] + Moved(t)]
  {
    var date := if data.date.Some? then data.date.value else now;
    var created := store.Create(requestUser, data.kind, data.amount, data.category, date);
    if created.Err? {
      return Err(created.error);
    }
    var transaction := created.value;
    var balance := store.balances[requestUser];
    if transaction.kind == Income {
      balance := balance + transaction.amount;
    } else {
      balance := balance - transaction.amount;
    }
    store.balances := store.balances[requestUser := balance];
    r := Ok(transaction);
  }

  /** The change one create makes to the owner's balance. */
  function Moved(t: Transaction): int {
    match t.kind
    case Income => 2 * t.amount
    case Expense => -2 * t.amount
    case OtherKind(_) => -t.amount
  }
}
