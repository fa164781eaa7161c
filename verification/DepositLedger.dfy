/**
 The operations of modules Deposit and Receiver are operations of the Account books: the handlers of
 module Ledger move them the same way and publish the same things.
 */
module DepositLedger {
  import opened Prelude
  import opened Ledger
  import opened LedgerInvariants
  import Deposit
  import Receiver

  function OutgoingStatus(b: Books, id: Id): Option<OpStatus> {
    if id in b.ops && b.ops[id].direction.Outgoing? then Some(b.ops[id].status) else None
  }

  /** The event is one of the four about transfer `id`. */
  predicate About(e: Event, id: Id) {
    (e.TransferRequested? || e.TransferAccepted? || e.TransferRefused?) && e.id == id
  }

  lemma ReservationMovesTheOperation(b: Books, id: Id, source: Id, amount: Option<int>, currency: Currency)
    requires Shaped(b) && (id in b.ops ==> b.ops[id].direction.Outgoing?)
    ensures var out := InterbankReserve(b, id, source, amount, currency);
            var after := OutgoingStatus(out.books, id);
            && after == Deposit.ReserveOp(OutgoingStatus(b, id), after == Some(OpReserved))
            && (out.reply.FundsReserved? <==> after == Some(OpReserved))
            && (out.reply.FundsRejected? <==> after == Some(OpRejected))
  {
  }

  lemma SettlementMovesTheOperation(b: Books, id: Id, reason: Option<Reason>)
    requires Shaped(b)
    ensures var before := OutgoingStatus(b, id);
            && OutgoingStatus(Debit(b, id).books, id) == Deposit.DebitOp(before)
            && (Debit(b, id).reply.TransferCompleted? <==> before == Some(OpReserved))
            && (Debit(b, id).reply.DebitConflict? <==> before.Some? && before != Some(OpReserved) && before != Some(OpDebited))
            && OutgoingStatus(InterbankRelease(b, id, reason).books, id) == Deposit.ReleaseOp(before)
            && (InterbankRelease(b, id, reason).reply.FundsReleased? <==> before == Some(OpReserved))
  {
  }

  /** Nothing else, internal or interbank, touches an outgoing operation. */
  lemma OtherEventsLeaveTheOperation(b: Books, e: Event, now: int, id: Id)
    requires OutgoingStatus(b, id).Some? && !About(e, id)
    ensures OutgoingStatus(Handle(b, e, now).books, id) == OutgoingStatus(b, id)
  {
  }

  // ------------------------------------------------------------- as receiver

  function IncomingStatus(b: Books, id: Id): Option<OpStatus> {
    if id in b.ops && b.ops[id].direction.Incoming? then Some(b.ops[id].status) else None
  }

  lemma CreditMovesTheOperation(b: Books, id: Id, destination: Option<Id>, amount: Option<int>, currency: Currency,
                                expiresAt: int, bank: Receiver.Bank)
    requires Shaped(b) && (id in b.ops ==> b.ops[id].direction.Incoming?)
    requires bank.op == IncomingStatus(b, id) && bank.expiresAt == expiresAt
    ensures var out := Credit(b, id, destination, amount, currency, Some(expiresAt), bank.now);
            var after := IncomingStatus(out.books, id);
            && after == Receiver.CreditOp(bank, after == Some(OpCredited))
            && (out.reply.DepositCredited? <==> Receiver.IsCredited(after))
            && (out.reply.DepositRejected? <==> !Receiver.IsCredited(after))
  {
  }

  lemma CancelMovesTheOperation(b: Books, id: Id)
    requires id in b.ops ==> b.ops[id].direction.Incoming?
    ensures var out := CancelDeposit(b, id);
            var after := IncomingStatus(out.books, id);
            && after == Receiver.CancelOp(IncomingStatus(b, id))
            && (out.reply == CancelResult(CancelDone) <==> Receiver.CancelVerdictOf(after).CancelDone?)
            && (out.reply == CancelResult(AlreadyAccepted) <==> Receiver.CancelVerdictOf(after).AlreadyAccepted?)
            && (out.reply.CancelResult? && out.reply.verdict.AlreadyRejected? <==> Receiver.CancelVerdictOf(after).AlreadyRejected?)
  {
  }

  /** Nothing but these two and a reversal, which keeps a credited deposit credited or refunded, touches it. */
  lemma OtherEventsKeepTheDeposit(b: Books, e: Event, now: int, id: Id)
    requires IncomingStatus(b, id).Some?
    ensures var after := IncomingStatus(Handle(b, e, now).books, id);
            || after == IncomingStatus(b, id)
            || (e.ReversalRequested? && e.original == id && IncomingStatus(b, id) == Some(OpCredited) && after == Some(OpRefunded))
  {
  }
}
