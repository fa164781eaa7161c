/**
 The books of the Account service: balances, the internal reservations and the interbank
 operations that share `reserved`, and one function per event handler. Every handler is one
 database transaction, so it is one function from books to books. Money is whole cents.
 */
module Ledger {
  import opened Prelude

  /** A UUID, read as the number its digits spell: the two have the same order. */
  type Id = int

  const MIN_INTERBANK_AMOUNT := 1
  const MAX_INTERBANK_AMOUNT := 1_000_000

  datatype Account = Account(balance: int, reserved: int, minBalance: int, feeAmount: Option<int>, active: bool)
  {
    function Fee(): int {
      if feeAmount.Some? then feeAmount.value else 0
    }

    function Available(): int {
      balance - reserved - minBalance
    }
  }

  /** A payload may leave the currency out, which counts as GTQ. */
  datatype Currency = Unstated | Gtq | OtherCurrency

  datatype ReservationStatus = Reserved | Completed | Released
  datatype Reservation = Reservation(source: Id, target: Id, amount: int, fee: int, status: ReservationStatus)
  {
    function Hold(): int { amount + fee }
  }

  datatype Direction = Outgoing | Incoming
  datatype OpStatus = OpReserved | OpDebited | OpReleased | OpCredited | OpRejected | OpCancelled | OpRefunded
  datatype Reason =
    | AccountNotFoundOrInactive | InsufficientFunds | InvalidAmount
    | AccountNotFound | AccountInactive | AmountLimitExceeded | CurrencyNotSupported
    | Expired | Cancelled | ProcessingError
    | OriginalNotCredited | FromPartner(code: int)
  datatype Op = Op(
    direction: Direction, account: Option<Id>, amount: int, fee: int, status: OpStatus,
    reason: Option<Reason>, reversal: Option<Id>)
  {
    function Hold(): int { amount + fee }
  }

  datatype Books = Books(accounts: map<Id, Account>, reservations: map<Id, Reservation>, ops: map<Id, Op>)

  /** What a handler publishes (or answers) once its transaction has committed. */
  datatype Reply =
    | Skipped
    | Thrown
    | FundsReserved(fee: int)
    | FundsRejected(why: Option<Reason>)
    | TransferCompleted(amount: int, fee: int)
    | FundsReleased(amount: int, fee: int)
    | DebitConflict
    | DepositCredited(amount: int)
    | DepositRejected(why: Option<Reason>)
    | CancelResult(verdict: CancelVerdict)
    | ReversalDebited(amount: int)
    | ReversalFailed(why: Option<Reason>)

  datatype CancelVerdict = CancelDone | AlreadyAccepted | AlreadyRejected(why: Option<Reason>)

  datatype Outcome = Outcome(books: Books, reply: Reply)

  // ------------------------------------------------------------------ rules

  function Unsupported(currency: Currency): bool {
    currency.OtherCurrency?
  }

  function CheckOutgoing(amount: Option<int>, currency: Currency, source: Option<Account>): Option<Reason> {
    if amount.None? || amount.value < MIN_INTERBANK_AMOUNT then Some(InvalidAmount)
    else if Unsupported(currency) then Some(CurrencyNotSupported)
    else if amount.value > MAX_INTERBANK_AMOUNT then Some(AmountLimitExceeded)
    else if source.None? || !source.value.active then Some(AccountNotFoundOrInactive)
    else if source.value.Available() < amount.value + source.value.Fee() then Some(InsufficientFunds)
    else None
  }

  function CheckIncomingDeposit(now: int, expiresAt: Option<int>, amount: Option<int>, currency: Currency,
                                account: Option<Account>): Option<Reason> {
    if expiresAt.None? || now >= expiresAt.value then Some(Expired)
    else if Unsupported(currency) then Some(CurrencyNotSupported)
    else if account.None? then Some(AccountNotFound)
    else if !account.value.active then Some(AccountInactive)
    else if amount.None? || amount.value < MIN_INTERBANK_AMOUNT then Some(ProcessingError)
    else if amount.value > MAX_INTERBANK_AMOUNT then Some(AmountLimitExceeded)
    else None
  }

  function Find<V>(m: map<Id, V>, id: Id): Option<V> {
    if id in m then Some(m[id]) else None
  }

  function OrZero(amount: Option<int>): int {
    if amount.Some? then amount.value else 0
  }

  /** The code's Math.max(0, reserved - total). */
  function Unreserve(a: Account, total: int): Account {
    a.(reserved := Max(0, a.reserved - total))
  }

  // ----------------------------------------------------- internal transfers

  function Reserve(b: Books, tx: Id, source: Id, target: Id, amount: int): Outcome {
    if tx in b.reservations then Outcome(b, Skipped)
    else if source !in b.accounts || target !in b.accounts
            || !b.accounts[source].active || !b.accounts[target].active then
      Outcome(b, FundsRejected(Some(AccountNotFoundOrInactive)))
    else
      var s := b.accounts[source];
      var hold := amount + s.Fee();
      if s.Available() < hold then Outcome(b, FundsRejected(Some(InsufficientFunds)))
      else
        Outcome(b.(accounts := b.accounts[source := s.(reserved := s.reserved + hold)],
                   reservations := b.reservations[tx := Reservation(source, target, amount, s.Fee(), Reserved)]),
                FundsReserved(s.Fee()))
  }

  function Complete(b: Books, tx: Id): Outcome {
    if tx !in b.reservations || b.reservations[tx].status == Completed then Outcome(b, Skipped)
    else
      var r := b.reservations[tx];
      if r.source !in b.accounts || r.target !in b.accounts then Outcome(b, Thrown)
      else
        var s := b.accounts[r.source];
        var paid := b.accounts[r.source := Unreserve(s.(balance := s.balance - r.Hold()), r.Hold())];
        var t := paid[r.target];
        Outcome(b.(accounts := paid[r.target := t.(balance := t.balance + r.amount)],
                   reservations := b.reservations[tx := r.(status := Completed)]),
                TransferCompleted(r.amount, r.fee))
  }

  function Release(b: Books, tx: Id): Outcome {
    if tx !in b.reservations || b.reservations[tx].status == Released then Outcome(b, Skipped)
    else
      var r := b.reservations[tx];
      if r.source !in b.accounts then Outcome(b, Thrown)
      else
        Outcome(b.(accounts := b.accounts[r.source := Unreserve(b.accounts[r.source], r.Hold())],
                   reservations := b.reservations[tx := r.(status := Released)]),
                FundsReleased(r.amount, r.fee))
  }

  // ---------------------------------------------------- interbank, as sender

  function InterbankReserve(b: Books, id: Id, source: Id, amount: Option<int>, currency: Currency): Outcome {
    if id in b.ops then
      var op := b.ops[id];
      Outcome(b, if op.status == OpReserved then FundsReserved(op.fee)
                 else if op.status == OpRejected then FundsRejected(op.reason)
                 else Skipped)
    else
      var account := Find(b.accounts, source);
      var reason := CheckOutgoing(amount, currency, account);
      if reason.Some? || account.None? then
        Outcome(b.(ops := b.ops[id := Op(Outgoing, Some(source), OrZero(amount), 0, OpRejected, reason, None)]),
                FundsRejected(if reason.Some? then reason else Some(AccountNotFoundOrInactive)))
      else
        var s := account.value;
        Outcome(b.(accounts := b.accounts[source := s.(reserved := s.reserved + amount.value + s.Fee())],
                   ops := b.ops[id := Op(Outgoing, Some(source), amount.value, s.Fee(), OpReserved, None, None)]),
                FundsReserved(s.Fee()))
  }

  function Debit(b: Books, id: Id): Outcome {
    if id !in b.ops || b.ops[id].direction != Outgoing || b.ops[id].status == OpDebited then Outcome(b, Skipped)
    else
      var op := b.ops[id];
      if op.status != OpReserved then Outcome(b, DebitConflict)
      else if op.account.None? || op.account.value !in b.accounts then Outcome(b, Thrown)
      else
        var a := b.accounts[op.account.value];
        Outcome(b.(accounts := b.accounts[op.account.value := Unreserve(a.(balance := a.balance - op.Hold()), op.Hold())],
                   ops := b.ops[id := op.(status := OpDebited)]),
                TransferCompleted(op.amount, op.fee))
  }

  function InterbankRelease(b: Books, id: Id, reason: Option<Reason>): Outcome {
    if id !in b.ops || b.ops[id].direction != Outgoing || b.ops[id].status != OpReserved then Outcome(b, Skipped)
    else
      var op := b.ops[id];
      if op.account.None? || op.account.value !in b.accounts then Outcome(b, Thrown)
      else
        Outcome(b.(accounts := b.accounts[op.account.value := Unreserve(b.accounts[op.account.value], op.Hold())],
                   ops := b.ops[id := op.(status := OpReleased, reason := reason)]),
                FundsReleased(op.amount, op.fee))
  }

  // -------------------------------------------------- interbank, as receiver

  function DepositReply(op: Op): Reply {
    if op.status == OpCredited || op.status == OpRefunded then DepositCredited(op.amount)
    else DepositRejected(if op.reason.Some? then op.reason else Some(ProcessingError))
  }

  /** `destination` is the account number once parsed; None when it is not one of ours. */
  function Credit(b: Books, id: Id, destination: Option<Id>, amount: Option<int>, currency: Currency,
                  expiresAt: Option<int>, now: int): Outcome {
    if id in b.ops then Outcome(b, DepositReply(b.ops[id]))
    else
      var account := if destination.Some? then Find(b.accounts, destination.value) else None;
      var reason := CheckIncomingDeposit(now, expiresAt, amount, currency, account);
      var op := Op(Incoming, destination, OrZero(amount), 0,
                   if reason.Some? then OpRejected else OpCredited, reason, None);
      var recorded := b.(ops := b.ops[id := op]);
      if reason.None? && account.Some? then
        var a := account.value;
        Outcome(recorded.(accounts := b.accounts[destination.value := a.(balance := a.balance + OrZero(amount))]),
                DepositReply(op))
      else Outcome(recorded, DepositReply(op))
  }

  function CancelDeposit(b: Books, id: Id): Outcome {
    if id !in b.ops then
      Outcome(b.(ops := b.ops[id := Op(Incoming, None, 0, 0, OpCancelled, Some(Cancelled), None)]), CancelResult(CancelDone))
    else
      var op := b.ops[id];
      Outcome(b, CancelResult(if op.status == OpCredited || op.status == OpRefunded then AlreadyAccepted
                              else if op.status == OpRejected then AlreadyRejected(op.reason)
                              else CancelDone))
  }

  function Reverse(b: Books, reversal: Id, original: Id): Outcome {
    if original in b.ops && b.ops[original].direction == Incoming && b.ops[original].status == OpRefunded
       && b.ops[original].reversal == Some(reversal) then
      Outcome(b, ReversalDebited(b.ops[original].amount))
    else if original !in b.ops || b.ops[original].direction != Incoming || b.ops[original].status != OpCredited then
      Outcome(b, ReversalFailed(Some(OriginalNotCredited)))
    else
      var op := b.ops[original];
      if op.account.None? || op.account.value !in b.accounts
         || b.accounts[op.account.value].balance - b.accounts[op.account.value].reserved < op.amount then
        Outcome(b, ReversalFailed(Some(InsufficientFunds)))
      else
        var a := b.accounts[op.account.value];
        Outcome(b.(accounts := b.accounts[op.account.value := a.(balance := a.balance - op.amount)],
                   ops := b.ops[original := op.(status := OpRefunded, reversal := Some(reversal))]),
                ReversalDebited(op.amount))
  }

  // ------------------------------------------------------------ idle accounts

  const DEACTIVATION_BALANCE := 5_000

  /** The nightly job, on an account that has been idle long enough. Nothing makes an account active again. */
  function Deactivate(b: Books, account: Id): Outcome {
    if account in b.accounts && b.accounts[account].active && b.accounts[account].balance < DEACTIVATION_BALANCE then
      Outcome(b.(accounts := b.accounts[account := b.accounts[account].(active := false)]), Skipped)
    else Outcome(b, Skipped)
  }

  // ------------------------------------------------------------------- runs

  datatype Event =
    | TransactionCreated(tx: Id, source: Id, target: Id, amount: nat)
    | PaymentApproved(tx: Id)
    | PaymentRejected(tx: Id)
    | TransferRequested(id: Id, source: Id, requested: Option<int>, currency: Currency)
    | TransferAccepted(id: Id)
    | TransferRefused(id: Id, reason: Option<Reason>)
    | DepositRequested(id: Id, destination: Option<Id>, requested: Option<int>, currency: Currency, expiresAt: Option<int>)
    | CancelRequested(id: Id)
    | ReversalRequested(reversal: Id, original: Id)
    | Deactivated(account: Id)

  function Handle(b: Books, e: Event, now: int): Outcome {
    match e
    case TransactionCreated(tx, source, target, amount) => Reserve(b, tx, source, target, amount)
    case PaymentApproved(tx) => Complete(b, tx)
    case PaymentRejected(tx) => Release(b, tx)
    case TransferRequested(id, source, amount, currency) => InterbankReserve(b, id, source, amount, currency)
    case TransferAccepted(id) => Debit(b, id)
    case TransferRefused(id, reason) => InterbankRelease(b, id, reason)
    case DepositRequested(id, destination, amount, currency, expiresAt) =>
      Credit(b, id, destination, amount, currency, expiresAt, now)
    case CancelRequested(id) => CancelDeposit(b, id)
    case ReversalRequested(reversal, original) => Reverse(b, reversal, original)
    case Deactivated(account) => Deactivate(b, account)
  }
}
