/** What each event does to the Account books and when, field by field and with the limits written out. */
module LedgerEffects {
  import opened Prelude
  import opened Ledger

  /** Only these accounts may differ, and only in balance and reserved money. */
  predicate OnlyMoneyMoves(b: Books, b': Books) {
    && b'.accounts.Keys == b.accounts.Keys
    && forall a :: a in b.accounts ==>
         b'.accounts[a] == b.accounts[a].(balance := b'.accounts[a].balance, reserved := b'.accounts[a].reserved)
  }

  function BalanceChange(b: Books, b': Books, a: Id): int
    requires a in b.accounts && a in b'.accounts
  {
    b'.accounts[a].balance - b.accounts[a].balance
  }

  function ReservedChange(b: Books, b': Books, a: Id): int
    requires a in b.accounts && a in b'.accounts
  {
    b'.accounts[a].reserved - b.accounts[a].reserved
  }

  predicate FeeIs(b: Books, account: Id, fee: int) {
    account in b.accounts && match b.accounts[account].feeAmount
                             case Some(charged) => fee == charged
                             case None => fee == 0
  }

  // ----------------------------------------------------- internal transfers

  /** A grant holds amount and fee on the source, records both with source and target, and announces the fee. */
  lemma GrantRecordsAmountAndFee(b: Books, tx: Id, source: Id, target: Id, amount: int)
    ensures var out := Reserve(b, tx, source, target, amount);
            if out.reply.FundsReserved? then
              && tx !in b.reservations && source in b.accounts && target in b.accounts
              && FeeIs(b, source, out.reply.fee)
              && OnlyMoneyMoves(b, out.books) && out.books.ops == b.ops
              && out.books.reservations == b.reservations[tx := Reservation(source, target, amount, out.reply.fee, Reserved)]
              && forall a :: a in b.accounts ==>
                   BalanceChange(b, out.books, a) == 0
                   && ReservedChange(b, out.books, a) == if a == source then amount + out.reply.fee else 0
            else out.books == b
  {
  }

  /** Of a refusal's two reasons, a missing or inactive account comes first; a known transfer is skipped. */
  lemma RefusedReservationsNameTheFault(b: Books, tx: Id, source: Id, target: Id, amount: int)
    ensures var reply := Reserve(b, tx, source, target, amount).reply;
            var both := source in b.accounts && target in b.accounts && b.accounts[source].active && b.accounts[target].active;
            && (reply == Skipped <==> tx in b.reservations)
            && (reply == FundsRejected(Some(AccountNotFoundOrInactive)) <==> tx !in b.reservations && !both)
            && (reply == FundsRejected(Some(InsufficientFunds)) <==>
                  && tx !in b.reservations && both
                  && b.accounts[source].balance < b.accounts[source].reserved + b.accounts[source].minBalance + amount
                                                  + if b.accounts[source].feeAmount.Some? then b.accounts[source].feeAmount.value else 0)
            && (reply.FundsReserved? || reply == Skipped || reply == FundsRejected(Some(AccountNotFoundOrInactive))
                || reply == FundsRejected(Some(InsufficientFunds)))
  {
  }

  function NotBelowZero(x: int): int {
    if x < 0 then 0 else x
  }

  /** A completion takes amount and fee from the source and gives the amount to the target, once. */
  lemma CompletionPays(b: Books, tx: Id)
    ensures var out := Complete(b, tx);
            && (out.reply == Skipped <==> tx !in b.reservations || b.reservations[tx].status == Completed)
            && (out.reply == Thrown <==>
                  && tx in b.reservations && b.reservations[tx].status != Completed
                  && (b.reservations[tx].source !in b.accounts || b.reservations[tx].target !in b.accounts))
            && (out.reply == Skipped || out.reply == Thrown ==> out.books == b)
            && (out.reply != Skipped && out.reply != Thrown ==>
                  var r := b.reservations[tx];
                  && out.reply == TransferCompleted(r.amount, r.fee)
                  && OnlyMoneyMoves(b, out.books) && out.books.ops == b.ops
                  && out.books.reservations == b.reservations[tx := Reservation(r.source, r.target, r.amount, r.fee, Completed)]
                  && forall a :: a in b.accounts ==>
                       && BalanceChange(b, out.books, a) == (if a == r.target then r.amount else 0) - (if a == r.source then r.amount + r.fee else 0)
                       && out.books.accounts[a].reserved == if a == r.source then NotBelowZero(b.accounts[a].reserved - r.amount - r.fee)
                                                            else b.accounts[a].reserved)
  {
  }

  /** A release frees amount and fee of the source, once, and moves no balance. */
  lemma ReleaseFrees(b: Books, tx: Id)
    ensures var out := Release(b, tx);
            && (out.reply == Skipped <==> tx !in b.reservations || b.reservations[tx].status == Released)
            && (out.reply == Thrown <==>
                  tx in b.reservations && b.reservations[tx].status != Released && b.reservations[tx].source !in b.accounts)
            && (out.reply == Skipped || out.reply == Thrown ==> out.books == b)
            && (out.reply != Skipped && out.reply != Thrown ==>
                  var r := b.reservations[tx];
                  && out.reply == FundsReleased(r.amount, r.fee)
                  && OnlyMoneyMoves(b, out.books) && out.books.ops == b.ops
                  && out.books.reservations == b.reservations[tx := Reservation(r.source, r.target, r.amount, r.fee, Released)]
                  && forall a :: a in b.accounts ==>
                       && BalanceChange(b, out.books, a) == 0
                       && out.books.accounts[a].reserved == if a == r.source then NotBelowZero(b.accounts[a].reserved - r.amount - r.fee)
                                                            else b.accounts[a].reserved)
  {
  }

  // ---------------------------------------------------- interbank, as sender

  /** A known operation is answered again from its record, and nothing changes. */
  lemma KnownOrdersAreRepeated(b: Books, id: Id, source: Id, amount: Option<int>, currency: Currency)
    requires id in b.ops
    ensures var out, op := InterbankReserve(b, id, source, amount, currency), b.ops[id];
            && out.books == b
            && (op.status.OpReserved? ==> out.reply == FundsReserved(op.fee))
            && (op.status.OpRejected? ==> out.reply == FundsRejected(op.reason))
            && (!op.status.OpReserved? && !op.status.OpRejected? ==> out.reply == Skipped)
  {
  }

  /** A new order that is granted holds amount and fee, and records and announces both. */
  lemma GrantedOrdersRecordAmountAndFee(b: Books, id: Id, source: Id, amount: Option<int>, currency: Currency)
    requires id !in b.ops
    ensures var out := InterbankReserve(b, id, source, amount, currency);
            out.reply.FundsReserved? ==>
              && amount.Some? && FeeIs(b, source, out.reply.fee)
              && OnlyMoneyMoves(b, out.books) && out.books.reservations == b.reservations
              && out.books.ops == b.ops[id := Op(Outgoing, Some(source), amount.value, out.reply.fee, OpReserved, None, None)]
              && forall a :: a in b.accounts ==>
                   BalanceChange(b, out.books, a) == 0
                   && ReservedChange(b, out.books, a) == if a == source then amount.value + out.reply.fee else 0
  {
  }

  /** A refused one is recorded with the first fault there is: amount, currency, limit, account, funds. */
  lemma RefusedOrdersNameTheFirstFault(b: Books, id: Id, source: Id, amount: Option<int>, currency: Currency)
    requires id !in b.ops
    ensures var out := InterbankReserve(b, id, source, amount, currency);
            var sum := if amount.Some? then amount.value else 0;
            var usable := source in b.accounts && b.accounts[source].active;
            var covered := usable && b.accounts[source].balance - b.accounts[source].reserved - b.accounts[source].minBalance
                                     >= sum + if b.accounts[source].feeAmount.Some? then b.accounts[source].feeAmount.value else 0;
            var because := (why: Reason) => out.reply == FundsRejected(Some(why));
            && (because(InvalidAmount) <==> sum < 1)
            && (because(CurrencyNotSupported) <==> sum >= 1 && currency.OtherCurrency?)
            && (because(AmountLimitExceeded) <==> sum > 1_000_000 && !currency.OtherCurrency?)
            && (because(AccountNotFoundOrInactive) <==> 1 <= sum <= 1_000_000 && !currency.OtherCurrency? && !usable)
            && (because(InsufficientFunds) <==> 1 <= sum <= 1_000_000 && !currency.OtherCurrency? && usable && !covered)
            && (out.reply.FundsReserved? <==> 1 <= sum <= 1_000_000 && !currency.OtherCurrency? && covered)
            && (!out.reply.FundsReserved? ==>
                  && out.reply.FundsRejected? && out.books.accounts == b.accounts && out.books.reservations == b.reservations
                  && out.books.ops == b.ops[id := Op(Outgoing, Some(source), sum, 0, OpRejected, out.reply.why, None)])
  {
  }

  /** A reserved order is debited in full, once; one that is neither reserved nor debited is a conflict. */
  lemma DebitPays(b: Books, id: Id)
    requires id in b.ops && b.ops[id].direction.Outgoing?
    ensures var out, op := Debit(b, id), b.ops[id];
            && (op.status.OpDebited? ==> out == Outcome(b, Skipped))
            && (!op.status.OpReserved? && !op.status.OpDebited? ==> out == Outcome(b, DebitConflict))
            && (op.status.OpReserved? && (op.account.None? || op.account.value !in b.accounts) ==> out == Outcome(b, Thrown))
            && (op.status.OpReserved? && op.account.Some? && op.account.value in b.accounts ==>
                  && out.reply == TransferCompleted(op.amount, op.fee)
                  && OnlyMoneyMoves(b, out.books) && out.books.reservations == b.reservations
                  && out.books.ops == b.ops[id := Op(Outgoing, op.account, op.amount, op.fee, OpDebited, op.reason, op.reversal)]
                  && forall a :: a in b.accounts ==>
                       && BalanceChange(b, out.books, a) == (if a == op.account.value then -op.amount - op.fee else 0)
                       && out.books.accounts[a].reserved
                          == if a == op.account.value then NotBelowZero(b.accounts[a].reserved - op.amount - op.fee) else b.accounts[a].reserved)
  {
  }

  /** A reserved order is released in full, once, with the reason of its release. */
  lemma RefusalFrees(b: Books, id: Id, reason: Option<Reason>)
    requires id in b.ops && b.ops[id].direction.Outgoing?
    ensures var out, op := InterbankRelease(b, id, reason), b.ops[id];
            && (!op.status.OpReserved? ==> out == Outcome(b, Skipped))
            && (op.status.OpReserved? && (op.account.None? || op.account.value !in b.accounts) ==> out == Outcome(b, Thrown))
            && (op.status.OpReserved? && op.account.Some? && op.account.value in b.accounts ==>
                  && out.reply == FundsReleased(op.amount, op.fee)
                  && OnlyMoneyMoves(b, out.books) && out.books.reservations == b.reservations
                  && out.books.ops == b.ops[id := Op(Outgoing, op.account, op.amount, op.fee, OpReleased, reason, op.reversal)]
                  && forall a :: a in b.accounts ==>
                       && BalanceChange(b, out.books, a) == 0
                       && out.books.accounts[a].reserved
                          == if a == op.account.value then NotBelowZero(b.accounts[a].reserved - op.amount - op.fee) else b.accounts[a].reserved)
  {
  }

  /** Neither touches what is not an outgoing operation. */
  lemma OnlyOrdersAreSettled(b: Books, id: Id, reason: Option<Reason>)
    requires id !in b.ops || !b.ops[id].direction.Outgoing?
    ensures Debit(b, id) == Outcome(b, Skipped) && InterbankRelease(b, id, reason) == Outcome(b, Skipped)
  {
  }

  // -------------------------------------------------- interbank, as receiver

  /** What a recorded deposit is announced as: credited, refunded later or not, or rejected with its reason. */
  lemma KnownDepositsAreRepeated(b: Books, id: Id, destination: Option<Id>, amount: Option<int>, currency: Currency,
                                 expiresAt: Option<int>, now: int)
    requires id in b.ops
    ensures var out, op := Credit(b, id, destination, amount, currency, expiresAt, now), b.ops[id];
            && out.books == b
            && (op.status.OpCredited? || op.status.OpRefunded? ==> out.reply == DepositCredited(op.amount))
            && (!op.status.OpCredited? && !op.status.OpRefunded? && op.reason.Some? ==> out.reply == DepositRejected(op.reason))
            && (!op.status.OpCredited? && !op.status.OpRefunded? && op.reason.None? ==> out.reply == DepositRejected(Some(ProcessingError)))
  {
  }

  /** A new deposit is credited in full, or recorded with the first fault there is: time, currency, account, amount, limit. */
  lemma RefusedDepositsNameTheFirstFault(b: Books, id: Id, destination: Option<Id>, amount: Option<int>, currency: Currency,
                                         expiresAt: Option<int>, now: int)
    requires id !in b.ops
    ensures var out := Credit(b, id, destination, amount, currency, expiresAt, now);
            var sum := if amount.Some? then amount.value else 0;
            var inTime := expiresAt.Some? && now < expiresAt.value;
            var known := destination.Some? && destination.value in b.accounts;
            var active := known && b.accounts[destination.value].active;
            var because := (why: Reason) => out.reply == DepositRejected(Some(why));
            && (because(Expired) <==> !inTime)
            && (because(CurrencyNotSupported) <==> inTime && currency.OtherCurrency?)
            && (because(AccountNotFound) <==> inTime && !currency.OtherCurrency? && !known)
            && (because(AccountInactive) <==> inTime && !currency.OtherCurrency? && known && !active)
            && (because(ProcessingError) <==> inTime && !currency.OtherCurrency? && active && sum < 1)
            && (because(AmountLimitExceeded) <==> inTime && !currency.OtherCurrency? && active && sum > 1_000_000)
            && (out.reply == DepositCredited(sum) <==> inTime && !currency.OtherCurrency? && active && 1 <= sum <= 1_000_000)
            && out.books.reservations == b.reservations
            && (out.reply.DepositRejected? ==>
                  && out.books.accounts == b.accounts
                  && out.books.ops == b.ops[id := Op(Incoming, destination, sum, 0, OpRejected, out.reply.why, None)])
            && (!out.reply.DepositRejected? ==>
                  && OnlyMoneyMoves(b, out.books)
                  && out.books.ops == b.ops[id := Op(Incoming, destination, sum, 0, OpCredited, None, None)]
                  && forall a :: a in b.accounts ==>
                       BalanceChange(b, out.books, a) == (if destination == Some(a) then sum else 0) && ReservedChange(b, out.books, a) == 0)
  {
  }

  /** A cancellation bars an unknown deposit, tells what became of a known one, and changes nothing else. */
  lemma CancellationIsExact(b: Books, id: Id)
    ensures var out := CancelDeposit(b, id);
            if id !in b.ops then
              && out.reply == CancelResult(CancelDone) && out.books.accounts == b.accounts && out.books.reservations == b.reservations
              && out.books.ops == b.ops[id := Op(Incoming, None, 0, 0, OpCancelled, Some(Cancelled), None)]
            else
              && out.books == b
              && (out.reply == CancelResult(AlreadyAccepted) <==> b.ops[id].status.OpCredited? || b.ops[id].status.OpRefunded?)
              && (out.reply == CancelResult(AlreadyRejected(b.ops[id].reason)) <==> b.ops[id].status.OpRejected?)
              && (out.reply == CancelResult(CancelDone) <==>
                    !b.ops[id].status.OpCredited? && !b.ops[id].status.OpRefunded? && !b.ops[id].status.OpRejected?)
  {
  }

  /** A reversal is granted exactly for a credited deposit whose account has the whole amount free, or again for the one it refunded. */
  lemma ReversalIsGrantedIff(b: Books, reversal: Id, original: Id)
    ensures var out := Reverse(b, reversal, original);
            var incoming := original in b.ops && b.ops[original].direction.Incoming?;
            var done := incoming && b.ops[original].status.OpRefunded? && b.ops[original].reversal == Some(reversal);
            var open := incoming && b.ops[original].status.OpCredited?;
            var free := open && b.ops[original].account.Some? && b.ops[original].account.value in b.accounts
                        && b.accounts[b.ops[original].account.value].balance
                           >= b.accounts[b.ops[original].account.value].reserved + b.ops[original].amount;
            && (out.reply.ReversalDebited? <==> done || free)
            && (out.reply == ReversalFailed(Some(OriginalNotCredited)) <==> !done && !open)
            && (out.reply == ReversalFailed(Some(InsufficientFunds)) <==> open && !free)
            && (out.reply.ReversalDebited? ==> out.reply.amount == b.ops[original].amount)
            && (!free ==> out.books == b)
            && (free ==>
                  var op := b.ops[original];
                  && OnlyMoneyMoves(b, out.books) && out.books.reservations == b.reservations
                  && out.books.ops == b.ops[original := Op(Incoming, op.account, op.amount, op.fee, OpRefunded, op.reason, Some(reversal))]
                  && forall a :: a in b.accounts ==>
                       && BalanceChange(b, out.books, a) == (if op.account == Some(a) then -op.amount else 0)
                       && ReservedChange(b, out.books, a) == 0)
  {
  }

  // ------------------------------------------------------------ idle accounts

  /** Exactly the active accounts below 50 quetzals are deactivated, and nothing else of them changes. */
  lemma DeactivationIsExact(b: Books, account: Id)
    ensures var b' := Deactivate(b, account).books;
            && b'.reservations == b.reservations && b'.ops == b.ops && b'.accounts.Keys == b.accounts.Keys
            && forall a :: a in b.accounts ==>
                 b'.accounts[a] == b.accounts[a].(active := b.accounts[a].active && !(a == account && b.accounts[a].balance < 5_000))
  {
  }
}
