/** The locks of module LockOrder cover what the handlers of module Ledger write. */
module LockCover {
  import opened Prelude
  import opened Ledger
  import opened LockOrder

  /** The ledger transaction that an event is, by what it finds; None when it ends before it locks anything. */
  function HandlerOf(b: Books, e: Event): Option<Handler> {
    match e
    case TransactionCreated(tx, source, _, _) => Some(if tx in b.reservations then RepeatedReserve(source) else ReserveInternal(tx, source))
    case PaymentApproved(tx) =>
      if tx in b.reservations then Some(Handler.Complete(tx, b.reservations[tx].source, b.reservations[tx].target)) else None
    case PaymentRejected(tx) => if tx in b.reservations then Some(ReleaseInternal(tx, b.reservations[tx].source)) else None
    case TransferRequested(id, source, _, _) => Some(if id in b.ops then KnownOperation(id) else Handler.InterbankReserve(id, source))
    case TransferAccepted(id) => OfOperation(b, id)
    case TransferRefused(id, _) => OfOperation(b, id)
    case DepositRequested(id, destination, _, _, _) =>
      Some(if id in b.ops then KnownOperation(id) else if destination.Some? then Handler.Credit(id, destination.value) else CreditNoAccount(id))
    case CancelRequested(id) => Some(if id in b.ops then KnownOperation(id) else CancelUnknown(id))
    case ReversalRequested(_, original) =>
      if original !in b.ops then None
      else Some(if b.ops[original].account.Some? then Handler.Reverse(original, b.ops[original].account.value) else KnownOperation(original))
    case Deactivated(_) => None
  }

  function OfOperation(b: Books, id: Id): Option<Handler> {
    if id !in b.ops then None
    else Some(if b.ops[id].account.Some? then DebitOrRelease(id, b.ops[id].account.value) else KnownOperation(id))
  }

  predicate Locked(h: Option<Handler>, r: Resource) {
    h.Some? && r in Locks(h.value)
  }

  /** No row is written that is not locked, and none is inserted whose key is not taken. */
  lemma WritesAreLocked(b: Books, e: Event, now: int, id: Id)
    requires !e.Deactivated?
    ensures var b', h := Handle(b, e, now).books, HandlerOf(b, e);
            && (id in b.accounts && id in b'.accounts && b'.accounts[id] != b.accounts[id] ==> Locked(h, AccountRow(id)))
            && (id in b.reservations && (id !in b'.reservations || b'.reservations[id] != b.reservations[id]) ==>
                  Locked(h, RecordRow(Reservations, id)))
            && (id !in b.reservations && id in b'.reservations ==> Locked(h, FreshRecord(Reservations, id)))
            && (id in b.ops && (id !in b'.ops || b'.ops[id] != b.ops[id]) ==> Locked(h, RecordRow(Operations, id)))
            && (id !in b.ops && id in b'.ops ==> Locked(h, FreshRecord(Operations, id)))
  {
    if e.PaymentApproved? && e.tx in b.reservations {
      CompletionLocks(e.tx, b.reservations[e.tx].source, b.reservations[e.tx].target);
    }
  }

  lemma AccountIsAmong(ids: seq<int>, id: int, first: Resource)
    requires id in ids
    ensures AccountRow(id) in [first] + Accounts(ids)
  {
    var k :| 0 <= k < |ids| && ids[k] == id;
    assert Accounts(ids)[k] == AccountRow(id);
    assert ([first] + Accounts(ids))[k + 1] == AccountRow(id);
  }

  lemma CompletionLocks(tx: Id, source: Id, target: Id)
    ensures var locks := Locks(Handler.Complete(tx, source, target));
            RecordRow(Reservations, tx) in locks && AccountRow(source) in locks && AccountRow(target) in locks
  {
    var ids := SortUnique([source, target]);
    assert source in [source, target] && target in [source, target];
    AccountIsAmong(ids, source, RecordRow(Reservations, tx));
    AccountIsAmong(ids, target, RecordRow(Reservations, tx));
    assert Locks(Handler.Complete(tx, source, target))[0] == RecordRow(Reservations, tx);
  }
}
