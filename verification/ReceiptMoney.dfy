/**
 A received deposit with the money in it: the Account books of a whole bank, whatever else they serve, and the
 deposit of module Receiver, of which one operation of those books is a part.
 */
module ReceiptMoney {
  import opened Prelude
  import opened Ledger
  import opened LedgerInvariants
  import Verdicts
  import Receiver
  import DepositLedger
  import DepositMoney

  /** What the other bank asks us to credit; `destination` as in Ledger.Credit. */
  datatype Message = Message(id: Id, destination: Option<Id>, requested: Option<int>, currency: Currency, expiresAt: int)

  datatype State = State(system: Verdicts.System, bank: Receiver.Bank)

  datatype Step =
    | BankMoves(step: Receiver.Step)
    | CreditHandled(emitted: bool)
    | CancelHandled(handler: int)
    | ReversalHandled(reversal: Id)
    | SystemMoves(move: Verdicts.Step)

  /** Events about this id; those of a sent deposit cannot have it, as ids sent and received differ. */
  predicate AboutTheDeposit(step: Verdicts.Step, id: Id) {
    step.AccountHandles?
    && (|| DepositLedger.About(step.event, id)
        || ((step.event.DepositRequested? || step.event.CancelRequested?) && step.event.id == id)
        || (step.event.ReversalRequested? && step.event.original == id))
  }

  function Requested(m: Message): Event {
    DepositRequested(m.id, m.destination, m.requested, m.currency, Some(m.expiresAt))
  }

  function EventOf(s: State, m: Message, step: Step): Option<Event> {
    match step
    case CreditHandled(_) => if s.bank.outbox.requested then Some(Requested(m)) else None
    case CancelHandled(h) => if Receiver.Asks(s.bank, h) then Some(CancelRequested(m.id)) else None
    case ReversalHandled(reversal) => Some(ReversalRequested(reversal, m.id))
    case _ => None
  }

  /** The status of the operation once the event is handled. */
  function StatusAfter(s: State, m: Message, e: Event): Option<OpStatus> {
    DepositLedger.IncomingStatus(Handle(s.system.books, e, s.bank.now).books, m.id)
  }

  /** The step of the receiver that a joint step is; what the bank does besides takes no time. */
  function Shadow(s: State, m: Message, step: Step): Receiver.Step {
    match step
    case BankMoves(r) => if Receiver.OfAccount(s.bank, r) then Receiver.Passes(0) else r
    case CreditHandled(emitted) => Receiver.AccountCredits(StatusAfter(s, m, Requested(m)) == Some(OpCredited), emitted)
    case CancelHandled(h) => if Receiver.Asks(s.bank, h) then Receiver.CancelMoves(h) else Receiver.Passes(0)
    case ReversalHandled(reversal) =>
      if StatusAfter(s, m, ReversalRequested(reversal, m.id)) == Some(OpRefunded) then Receiver.AccountReverses else Receiver.Passes(0)
    case SystemMoves(_) => Receiver.Passes(0)
  }

  function Next(s: State, m: Message, posted: bool, step: Step): State {
    State(if EventOf(s, m, step).Some? then Verdicts.Next(s.system, Verdicts.AccountHandles(EventOf(s, m, step).value, s.bank.now))
          else if step.SystemMoves? && !AboutTheDeposit(step.move, m.id) then Verdicts.Next(s.system, step.move)
          else s.system,
          Receiver.Next(s.bank, posted, Shadow(s, m, step)))
  }

  // ---------------------------------------------------------------- invariant

  /** The receiver's operation is the one in the books, and it records the message. */
  predicate Tied(b: Books, bank: Receiver.Bank, m: Message) {
    && bank.expiresAt == m.expiresAt
    && (m.id in b.ops ==> b.ops[m.id].direction.Incoming?)
    && bank.op == DepositLedger.IncomingStatus(b, m.id)
    && (Receiver.IsCredited(bank.op) ==> b.ops[m.id].account == m.destination && Some(b.ops[m.id].amount) == m.requested)
  }

  ghost predicate Inv(s: State, m: Message, opening: map<Id, int>) {
    Verdicts.Inv(s.system, opening) && Receiver.Inv(s.bank) && Tied(s.system.books, s.bank, m)
  }

  /** What a deposit's event leaves in its record: the first one decides, later ones change nothing. */
  lemma CreditKeepsTheRecord(b: Books, m: Message, now: int)
    ensures var b' := Handle(b, Requested(m), now).books;
            && m.id in b'.ops
            && (m.id in b.ops ==> b'.ops[m.id] == b.ops[m.id])
            && (m.id !in b.ops ==>
                  && b'.ops[m.id].direction.Incoming?
                  && (b'.ops[m.id].status.OpCredited? ==> b'.ops[m.id].account == m.destination && Some(b'.ops[m.id].amount) == m.requested)
                  && (b'.ops[m.id].status.OpCredited? || b'.ops[m.id].status.OpRejected?))
  {
  }

  lemma CreditTies(s: State, m: Message, posted: bool, emitted: bool)
    requires Tied(s.system.books, s.bank, m) && Shaped(s.system.books) && s.bank.outbox.requested
    ensures var s' := Next(s, m, posted, CreditHandled(emitted)); Tied(s'.system.books, s'.bank, m)
  {
    var b := s.system.books;
    DepositLedger.CreditMovesTheOperation(b, m.id, m.destination, m.requested, m.currency, m.expiresAt, s.bank);
    CreditKeepsTheRecord(b, m, s.bank.now);
    Receiver.CreditMovesOperation(s.bank, posted, StatusAfter(s, m, Requested(m)) == Some(OpCredited), emitted);
  }

  lemma CancelTies(s: State, m: Message, posted: bool, handler: int)
    requires Tied(s.system.books, s.bank, m) && Receiver.Asks(s.bank, handler)
    ensures var s' := Next(s, m, posted, CancelHandled(handler)); Tied(s'.system.books, s'.bank, m)
  {
    DepositLedger.CancelMovesTheOperation(s.system.books, m.id);
  }

  lemma ReversalTies(s: State, m: Message, posted: bool, reversal: Id)
    requires Tied(s.system.books, s.bank, m)
    ensures var s' := Next(s, m, posted, ReversalHandled(reversal)); Tied(s'.system.books, s'.bank, m)
  {
    ReversalKeepsTheRecord(s.system.books, reversal, m.id);
  }

  lemma ReversalKeepsTheRecord(b: Books, reversal: Id, id: Id)
    ensures var b' := Reverse(b, reversal, id).books;
            && (id in b'.ops <==> id in b.ops)
            && (id in b.ops ==>
                  || b'.ops[id] == b.ops[id]
                  || (b.ops[id].direction.Incoming? && b.ops[id].status.OpCredited?
                      && b'.ops[id] == b.ops[id].(status := OpRefunded, reversal := Some(reversal))))
  {
  }

  lemma OthersKeepTheRecord(b: Books, step: Verdicts.Step, id: Id)
    requires step.AccountHandles? && !AboutTheDeposit(step, id)
    ensures var b' := Handle(b, step.event, step.now).books;
            (id in b'.ops <==> id in b.ops) && (id in b.ops ==> b'.ops[id] == b.ops[id])
  {
    if DepositLedger.IncomingStatus(b, id).Some? {
      DepositLedger.OtherEventsKeepTheDeposit(b, step.event, step.now, id);
    }
  }

  lemma OthersTie(s: State, m: Message, posted: bool, step: Step)
    requires Tied(s.system.books, s.bank, m) && EventOf(s, m, step).None?
    ensures var s' := Next(s, m, posted, step); Tied(s'.system.books, s'.bank, m)
  {
    if !step.CreditHandled? {
      Receiver.BankStepLeavesOperation(s.bank, posted, Shadow(s, m, step));
    }
    if step.SystemMoves? && step.move.AccountHandles? && !AboutTheDeposit(step.move, m.id) {
      OthersKeepTheRecord(s.system.books, step.move, m.id);
    }
  }

  lemma NextTies(s: State, m: Message, posted: bool, step: Step)
    requires Tied(s.system.books, s.bank, m) && Shaped(s.system.books)
    ensures var s' := Next(s, m, posted, step); Tied(s'.system.books, s'.bank, m)
  {
    if EventOf(s, m, step).None? {
      OthersTie(s, m, posted, step);
    } else {
      match step
      case CreditHandled(emitted) => CreditTies(s, m, posted, emitted);
      case CancelHandled(h) => CancelTies(s, m, posted, h);
      case ReversalHandled(reversal) => ReversalTies(s, m, posted, reversal);
    }
  }

  lemma NextKeeps(s: State, m: Message, posted: bool, opening: map<Id, int>, step: Step)
    requires Inv(s, m, opening)
    ensures Inv(Next(s, m, posted, step), m, opening)
  {
    NextTies(s, m, posted, step);
    Receiver.NextKeeps(s.bank, posted, Shadow(s, m, step));
    if EventOf(s, m, step).Some? {
      Verdicts.NextKeeps(s.system, opening, Verdicts.AccountHandles(EventOf(s, m, step).value, s.bank.now));
    } else if step.SystemMoves? {
      Verdicts.NextKeeps(s.system, opening, step.move);
    }
  }

  // ------------------------------------------------------------- main result

  /** The account has the amount on top of what all other records explain. */
  ghost predicate AccountStands(b: Books, opening: map<Id, int>, m: Message, account: Id, given: int) {
    && account in b.accounts && account in opening
    && b.accounts[account].balance == opening[account] + DepositMoney.ExplainedByOthers(b, m.id, account) + given
  }

  /** What the deposit gives the account: its amount while it is credited and not refunded. */
  function Given(bank: Receiver.Bank, m: Message, account: Id): int {
    if bank.op == Some(OpCredited) && m.destination == Some(account) && m.requested.Some? then m.requested.value else 0
  }

  /** Every account of the bank has exactly what the deposit gives it, and the deposit gives only to its destination. */
  lemma MoneyFollowsTheOperation(s: State, m: Message, opening: map<Id, int>, account: Id)
    requires Inv(s, m, opening) && account in s.system.books.accounts
    ensures AccountStands(s.system.books, opening, m, account, Given(s.bank, m, account))
  {
    var b := s.system.books;
    if m.id in b.ops {
      DepositMoney.OneRecordApart(b, opening, m.id, account);
    } else {
      assert b.ops - {m.id} == b.ops;
    }
  }
}
