/**
 A reversal between two banks that both run this software, with the Account books of both: theirs takes a
 deposit back from its customer and sends the refund, a deposit like any other, which ours receives.
 */
module ReversalMoney {
  import opened Prelude
  import opened Ledger
  import opened LedgerInvariants
  import Verdicts
  import Deposit
  import DepositSafety
  import DepositMoney
  import Receiver
  import ReceiptMoney
  import Refunds
  import TwoBanks
  import TwoBooks

  /** Their verdicts, and their reversals with their books; the refund on its way, and all of our bank. */
  datatype State = State(payments: Verdicts.Payments, theirs: Refunds.State, joint: TwoBanks.Joint<ReceiptMoney.State>)

  datatype Step =
    | TheyDecide(verdict: Verdicts.PaymentStep)
    | TheyReverse(step: Refunds.Step)
    | TheySend(send: Deposit.Step)
    | WeReceive(move: ReceiptMoney.Step)

  function TheirSystem(s: State): Verdicts.System {
    Verdicts.System(s.payments, s.theirs.books, false)
  }

  /** The refund under this reversal is stored, and it is what the message carries. */
  predicate IsTheRefund(s: State, reversal: Id, m: ReceiptMoney.Message) {
    reversal in s.theirs.refunds && m.requested == Some(s.theirs.refunds[reversal])
  }

  /** The refund's transfer row is stored with the refund; everything else of the two banks goes its own way. */
  ghost function Next(s: State, reversal: Id, m: ReceiptMoney.Message, cfg: Deposit.Config, step: Step): State {
    match step
    case TheyDecide(p) => s.(payments := Verdicts.Pay(s.payments, p))
    case TheyReverse(r) =>
      if r.AccountHandles? && !Verdicts.Deliverable(s.payments, r.event) then s else s.(theirs := Refunds.Next(s.theirs, r))
    case TheySend(d) =>
      if d.CreateRow? && !IsTheRefund(s, reversal, m) then s
      else s.(joint := TwoBanks.Next(TwoBooks.OtherBank(m), s.joint, cfg, TwoBanks.SenderMoves(d)))
    case WeReceive(move) => s.(joint := TwoBanks.Next(TwoBooks.OtherBank(m), s.joint, cfg, TwoBanks.BankMoves(move)))
  }

  ghost function Run(s: State, reversal: Id, m: ReceiptMoney.Message, cfg: Deposit.Config, steps: seq<Step>): State
    decreases |steps|
  {
    if steps == [] then s else Run(Next(s, reversal, m, cfg, steps[0]), reversal, m, cfg, steps[1..])
  }

  // ---------------------------------------------------------------- invariant

  ghost function World(s: State, m: ReceiptMoney.Message): Deposit.World {
    TwoBanks.World(TwoBooks.OtherBank(m), s.joint)
  }

  ghost predicate TheirsHold(s: State, theirOpening: map<Id, int>) {
    Verdicts.Inv(TheirSystem(s), theirOpening) && Refunds.Inv(s.theirs)
  }

  ghost predicate RefundHolds(s: State, reversal: Id, m: ReceiptMoney.Message, cfg: Deposit.Config, ourOpening: map<Id, int>) {
    && DepositSafety.Inv(World(s, m), cfg) && ReceiptMoney.Inv(s.joint.bank, m, ourOpening)
    && (s.joint.sender.ours.row.Some? ==> IsTheRefund(s, reversal, m))
  }

  lemma ReversingKeeps(s: State, theirOpening: map<Id, int>, step: Refunds.Step)
    requires TheirsHold(s, theirOpening)
    requires step.AccountHandles? ==> Verdicts.Deliverable(s.payments, step.event)
    ensures TheirsHold(s.(theirs := Refunds.Next(s.theirs, step)), theirOpening)
  {
    Refunds.NextKeeps(s.theirs, step);
    if step.AccountHandles? {
      Verdicts.NextKeeps(TheirSystem(s), theirOpening, Verdicts.AccountHandles(step.event, step.now));
      HandleKeepsSound(s.theirs.books, theirOpening, step.event, step.now);
    }
  }

  /** A stored refund is never changed. */
  lemma RefundStays(s: Refunds.State, step: Refunds.Step, reversal: Id)
    requires reversal in s.refunds
    ensures reversal in Refunds.Next(s, step).refunds && Refunds.Next(s, step).refunds[reversal] == s.refunds[reversal]
  {
  }

  /** Only CreateRow makes a row. */
  lemma RowsAreCreated(s: Deposit.State, cfg: Deposit.Config, step: Deposit.Step)
    requires !step.PartnerMoves? && !step.CreateRow? && s.ours.row.None?
    ensures Deposit.SideStep(s, cfg, step).ours.row.None?
  {
  }

  lemma SendingKeeps(s: State, reversal: Id, m: ReceiptMoney.Message, cfg: Deposit.Config, ourOpening: map<Id, int>, step: Deposit.Step)
    requires RefundHolds(s, reversal, m, cfg, ourOpening)
    ensures RefundHolds(Next(s, reversal, m, cfg, TheySend(step)), reversal, m, cfg, ourOpening)
  {
    TwoBooks.OtherBankIsLawful(m);
    TwoBanks.NextIsShadowed(TwoBooks.OtherBank(m), s.joint, cfg, TwoBanks.SenderMoves(step));
    DepositSafety.NextKeeps(World(s, m), cfg, if step.PartnerMoves? then Deposit.Wait(0) else step);
    if s.joint.sender.ours.row.None? && !step.PartnerMoves? && !step.CreateRow? {
      RowsAreCreated(s.joint.sender, cfg, step);
    }
  }

  lemma ReceivingKeeps(s: State, reversal: Id, m: ReceiptMoney.Message, cfg: Deposit.Config, ourOpening: map<Id, int>, move: ReceiptMoney.Step)
    requires RefundHolds(s, reversal, m, cfg, ourOpening)
    ensures RefundHolds(Next(s, reversal, m, cfg, WeReceive(move)), reversal, m, cfg, ourOpening)
  {
    var p := TwoBooks.OtherBank(m);
    TwoBooks.OtherBankIsLawful(m);
    TwoBanks.NextIsShadowed(p, s.joint, cfg, TwoBanks.BankMoves(move));
    DepositSafety.NextKeeps(World(s, m), cfg, TwoBanks.Shadow(p, s.joint, TwoBanks.BankMoves(move)));
    ReceiptMoney.NextKeeps(s.joint.bank, m, s.joint.sender.net.posted, ourOpening, move);
  }

  lemma NextKeeps(s: State, reversal: Id, m: ReceiptMoney.Message, cfg: Deposit.Config,
                  theirOpening: map<Id, int>, ourOpening: map<Id, int>, step: Step)
    requires TheirsHold(s, theirOpening) && RefundHolds(s, reversal, m, cfg, ourOpening)
    ensures TheirsHold(Next(s, reversal, m, cfg, step), theirOpening)
    ensures RefundHolds(Next(s, reversal, m, cfg, step), reversal, m, cfg, ourOpening)
  {
    match step
    case TheyDecide(p) => Verdicts.NextKeeps(TheirSystem(s), theirOpening, Verdicts.PaymentMoves(p));
    case TheyReverse(r) =>
      if !r.AccountHandles? || Verdicts.Deliverable(s.payments, r.event) {
        ReversingKeeps(s, theirOpening, r);
        if reversal in s.theirs.refunds {
          RefundStays(s.theirs, r, reversal);
        }
      }
    case TheySend(d) => SendingKeeps(s, reversal, m, cfg, ourOpening, d);
    case WeReceive(move) => ReceivingKeeps(s, reversal, m, cfg, ourOpening, move);
  }

  lemma {:induction false} RunKeeps(s: State, reversal: Id, m: ReceiptMoney.Message, cfg: Deposit.Config,
                                    theirOpening: map<Id, int>, ourOpening: map<Id, int>, steps: seq<Step>)
    requires TheirsHold(s, theirOpening) && RefundHolds(s, reversal, m, cfg, ourOpening)
    ensures TheirsHold(Run(s, reversal, m, cfg, steps), theirOpening)
    ensures RefundHolds(Run(s, reversal, m, cfg, steps), reversal, m, cfg, ourOpening)
    decreases |steps|
  {
    if steps == [] {
    } else {
      NextKeeps(s, reversal, m, cfg, theirOpening, ourOpening, steps[0]);
      RunKeeps(Next(s, reversal, m, cfg, steps[0]), reversal, m, cfg, theirOpening, ourOpening, steps[1..]);
    }
  }

  /** Two banks with fresh books, before the deposit that will be asked back. */
  ghost predicate Started(s: State, m: ReceiptMoney.Message, began: int, clock: int, valid: bool) {
    && Verdicts.Fresh(TheirSystem(s)) && s.theirs == Refunds.Start(s.theirs.books)
    && Verdicts.Fresh(s.joint.bank.system)
    && s.joint == TwoBanks.Opening(ReceiptMoney.State(s.joint.bank.system, Receiver.Opening(clock, valid, m.expiresAt)), began)
  }

  lemma TheyStart(s: State, m: ReceiptMoney.Message, began: int, clock: int, valid: bool)
    requires Started(s, m, began, clock, valid)
    ensures TheirsHold(s, Balances(s.theirs.books))
  {
    OpenedIsSound(s.theirs.books);
  }

  lemma SenderStarts(s: State, m: ReceiptMoney.Message, cfg: Deposit.Config, began: int, clock: int, valid: bool)
    requires Started(s, m, began, clock, valid)
    ensures DepositSafety.Inv(World(s, m), cfg)
  {
    var before := [Deposit.PartnerMoves(World(s, m).partner, None, None)];
    assert Deposit.Run(Deposit.Start(began), cfg, before) == Deposit.Run(Deposit.Next(Deposit.Start(began), cfg, before[0]), cfg, []);
    DepositSafety.Reachable(cfg, began, before);
  }

  lemma StartHolds(s: State, reversal: Id, m: ReceiptMoney.Message, cfg: Deposit.Config, began: int, clock: int, valid: bool)
    requires Started(s, m, began, clock, valid)
    ensures TheirsHold(s, Balances(s.theirs.books)) && RefundHolds(s, reversal, m, cfg, Balances(s.joint.bank.system.books))
  {
    TheyStart(s, m, began, clock, valid);
    SenderStarts(s, m, cfg, began, clock, valid);
    OpenedIsSound(s.joint.bank.system.books);
  }

  // -------------------------------------------------------------- main result

  /** The deposit was taken back there in full, under this reversal, and nothing of it is left on its account. */
  ghost predicate TakenBack(s: State, start: State, reversal: Id, amount: int) {
    && reversal in s.theirs.reversals
    && var original := s.theirs.reversals[reversal].original;
       && Refunds.RefundedUnder(s.theirs.books, original, reversal, amount)
       && s.theirs.books.ops[original].account.Some?
       && var account := s.theirs.books.ops[original].account.value;
          && account in s.theirs.books.accounts && account in start.theirs.books.accounts
          && s.theirs.books.accounts[account].balance
             == start.theirs.books.accounts[account].balance + DepositMoney.ExplainedByOthers(s.theirs.books, original, account)
  }

  lemma RefundsAreTakenBack(s: State, start: State, reversal: Id)
    requires TheirsHold(s, Balances(start.theirs.books)) && reversal in s.theirs.refunds
    ensures TakenBack(s, start, reversal, s.theirs.refunds[reversal])
  {
    var original := s.theirs.reversals[reversal].original;
    var b := s.theirs.books;
    assert ShapedOp(b, b.ops[original]);
    DepositMoney.OneRecordApart(b, Balances(start.theirs.books), original, b.ops[original].account.value);
  }

  /**
   A reversal returns what it takes. Whatever else the two banks do: if the refund was credited here, or its row says
   ACCEPTED there, exactly its amount was taken back there, under that reversal, from the account of the deposit;
   and each account here has that amount on top of what all other records explain exactly if it is the refund's
   destination and the refund is credited and not itself reversed.
   */
  lemma ReversalReturnsTheMoney(start: State, reversal: Id, m: ReceiptMoney.Message, cfg: Deposit.Config,
                                began: int, clock: int, valid: bool, steps: seq<Step>, account: Id)
    requires Started(start, m, began, clock, valid)
    requires account in Run(start, reversal, m, cfg, steps).joint.bank.system.books.accounts
    ensures var s := Run(start, reversal, m, cfg, steps);
            var row := s.joint.sender.ours.row;
            && (row.Some? && row.value.state.Accepted? ==> Receiver.IsCredited(s.joint.bank.bank.op))
            && (row.Some? && row.value.state.Rejected? ==> (Receiver.IsCredited(s.joint.bank.bank.op) <==> s.joint.misled))
            && (Receiver.IsCredited(s.joint.bank.bank.op) ==>
                  && m.requested.Some? && TakenBack(s, start, reversal, m.requested.value))
            && ReceiptMoney.AccountStands(s.joint.bank.system.books, Balances(start.joint.bank.system.books), m, account,
                                          ReceiptMoney.Given(s.joint.bank.bank, m, account))
  {
    StartHolds(start, reversal, m, cfg, began, clock, valid);
    RunKeeps(start, reversal, m, cfg, Balances(start.theirs.books), Balances(start.joint.bank.system.books), steps);
    var s := Run(start, reversal, m, cfg, steps);
    if reversal in s.theirs.refunds {
      RefundsAreTakenBack(s, start, reversal);
    }
    ReceiptMoney.MoneyFollowsTheOperation(s.joint.bank, m, Balances(start.joint.bank.system.books), account);
    assert World(s, m).partner.credited == Receiver.IsCredited(s.joint.bank.bank.op);
  }
}
