/** One deposit between two banks that both run this software, with the Account books of both. */
module TwoBooks {
  import opened Prelude
  import Ledger
  import LedgerInvariants
  import Verdicts
  import Deposit
  import DepositSafety
  import DepositMoney
  import Receiver
  import ReceiptMoney
  import TwoBanks

  /** Our Payment and Account; what they do for the deposit, the network, and all of the other bank. */
  datatype State = State(ours: Verdicts.System, joint: TwoBanks.Joint<ReceiptMoney.State>)

  datatype Step = WeMove(step: DepositMoney.Step) | TheyMove(move: ReceiptMoney.Step)

  ghost function OtherBank(m: ReceiptMoney.Message): TwoBanks.Partnership<ReceiptMoney.State, ReceiptMoney.Step> {
    TwoBanks.Partnership(
      (b: ReceiptMoney.State, posted: bool, s: ReceiptMoney.Step) => ReceiptMoney.Next(b, m, posted, s),
      (b: ReceiptMoney.State, posted: bool, s: ReceiptMoney.Step) => Receiver.Says(b.bank, posted, ReceiptMoney.Shadow(b, m, s)),
      (b: ReceiptMoney.State, s: ReceiptMoney.Step) => Receiver.Calls(b.bank, ReceiptMoney.Shadow(b, m, s)),
      (b: ReceiptMoney.State) => Receiver.View(b.bank),
      (b: ReceiptMoney.State) => Receiver.Inv(b.bank))
  }

  lemma OtherBankIsLawful(m: ReceiptMoney.Message)
    ensures TwoBanks.Lawful(OtherBank(m))
  {
    var p := OtherBank(m);
    forall b: ReceiptMoney.State, posted: bool, s: ReceiptMoney.Step | p.inv(b) ensures TwoBanks.LawfulAt(p, b, posted, s) {
      Receiver.NextKeeps(b.bank, posted, ReceiptMoney.Shadow(b, m, s));
      Receiver.NextIsLawful(b.bank, posted, ReceiptMoney.Shadow(b, m, s));
    }
  }

  ghost function Ours(s: State, m: ReceiptMoney.Message): DepositMoney.State {
    DepositMoney.State(s.ours, TwoBanks.World(OtherBank(m), s.joint))
  }

  ghost function Next(s: State, o: DepositMoney.Order, m: ReceiptMoney.Message, cfg: Deposit.Config, step: Step): State {
    match step
    case WeMove(step) =>
      if step.DepositMoves? && step.step.PartnerMoves? then s
      else
        State(DepositMoney.Next(Ours(s, m), o, cfg, step).system,
              TwoBanks.Next(OtherBank(m), s.joint, cfg, TwoBanks.SenderMoves(DepositMoney.Shadow(Ours(s, m), o, step))))
    case TheyMove(move) => s.(joint := TwoBanks.Next(OtherBank(m), s.joint, cfg, TwoBanks.BankMoves(move)))
  }

  ghost function Run(s: State, o: DepositMoney.Order, m: ReceiptMoney.Message, cfg: Deposit.Config, steps: seq<Step>): State
    decreases |steps|
  {
    if steps == [] then s else Run(Next(s, o, m, cfg, steps[0]), o, m, cfg, steps[1..])
  }

  /** The step of our bank alone, with some partner, that a step of both is. */
  ghost function Shadow(s: State, m: ReceiptMoney.Message, step: Step): DepositMoney.Step {
    match step
    case WeMove(step) => if step.DepositMoves? && step.step.PartnerMoves? then DepositMoney.DepositMoves(Deposit.Wait(0)) else step
    case TheyMove(move) => DepositMoney.DepositMoves(TwoBanks.Shadow(OtherBank(m), s.joint, TwoBanks.BankMoves(move)))
  }

  ghost function Shadows(s: State, o: DepositMoney.Order, m: ReceiptMoney.Message, cfg: Deposit.Config, steps: seq<Step>): seq<DepositMoney.Step>
    decreases |steps|
  {
    if steps == [] then [] else [Shadow(s, m, steps[0])] + Shadows(Next(s, o, m, cfg, steps[0]), o, m, cfg, steps[1..])
  }

  lemma NextIsShadowed(s: State, o: DepositMoney.Order, m: ReceiptMoney.Message, cfg: Deposit.Config, step: Step)
    requires Receiver.Inv(s.joint.bank.bank)
    ensures Ours(Next(s, o, m, cfg, step), m) == DepositMoney.Next(Ours(s, m), o, cfg, Shadow(s, m, step))
  {
    OtherBankIsLawful(m);
    match step
    case WeMove(step) =>
      TwoBanks.NextIsShadowed(OtherBank(m), s.joint, cfg, TwoBanks.SenderMoves(DepositMoney.Shadow(Ours(s, m), o, step)));
    case TheyMove(move) => TwoBanks.NextIsShadowed(OtherBank(m), s.joint, cfg, TwoBanks.BankMoves(move));
  }

  lemma NextKeepsTheirs(s: State, o: DepositMoney.Order, m: ReceiptMoney.Message, cfg: Deposit.Config, opening: map<Ledger.Id, int>, step: Step)
    requires ReceiptMoney.Inv(s.joint.bank, m, opening)
    ensures ReceiptMoney.Inv(Next(s, o, m, cfg, step).joint.bank, m, opening)
  {
    if step.TheyMove? {
      ReceiptMoney.NextKeeps(s.joint.bank, m, s.joint.sender.net.posted, opening, step.move);
    }
  }

  /** Every run of both banks is, for our bank, one of module DepositMoney, and keeps the other bank's invariant. */
  lemma {:induction false} RunIsShadowed(s: State, o: DepositMoney.Order, m: ReceiptMoney.Message, cfg: Deposit.Config,
                                         opening: map<Ledger.Id, int>, steps: seq<Step>)
    requires ReceiptMoney.Inv(s.joint.bank, m, opening)
    ensures Ours(Run(s, o, m, cfg, steps), m) == DepositMoney.Run(Ours(s, m), o, cfg, Shadows(s, o, m, cfg, steps))
    ensures ReceiptMoney.Inv(Run(s, o, m, cfg, steps).joint.bank, m, opening)
    decreases |steps|
  {
    if steps == [] {
    } else {
      var s' := Next(s, o, m, cfg, steps[0]);
      NextIsShadowed(s, o, m, cfg, steps[0]);
      NextKeepsTheirs(s, o, m, cfg, opening, steps[0]);
      RunIsShadowed(s', o, m, cfg, opening, steps[1..]);
      var shadows := Shadows(s, o, m, cfg, steps);
      assert shadows[0] == Shadow(s, m, steps[0]) && shadows[1..] == Shadows(s', o, m, cfg, steps[1..]);
    }
  }

  // -------------------------------------------------------------- main result

  /** Two banks with fresh books; the message carries the order's id and amount. */
  ghost predicate Started(s: State, o: DepositMoney.Order, m: ReceiptMoney.Message, began: int, clock: int, valid: bool) {
    && Verdicts.Fresh(s.ours) && Verdicts.Fresh(s.joint.bank.system)
    && s.joint == TwoBanks.Opening(ReceiptMoney.State(s.joint.bank.system, Receiver.Opening(clock, valid, m.expiresAt)), began)
    && m.id == o.id && m.requested == o.requested
  }

  ghost predicate Exempt(s: State, m: ReceiptMoney.Message) {
    DepositMoney.Exempt(Ours(s, m).world)
  }

  /** Amount and fee are gone from the customer's account, or nothing is, and nothing is held. */
  ghost predicate WeStand(start: State, s: State, o: DepositMoney.Order, left: bool) {
    && o.requested.Some? && o.source in start.ours.books.accounts
    && DepositMoney.AccountStands(s.ours.books, LedgerInvariants.Balances(start.ours.books), o,
                                  if left then o.requested.value + start.ours.books.accounts[o.source].Fee() else 0, 0)
  }

  /** The amount is on the account on top of everything else, or is not. */
  ghost predicate TheyStand(start: State, s: State, m: ReceiptMoney.Message, account: Ledger.Id) {
    ReceiptMoney.AccountStands(s.joint.bank.system.books, LedgerInvariants.Balances(start.joint.bank.system.books), m, account,
                               ReceiptMoney.Given(s.joint.bank.bank, m, account))
  }

  lemma StartIsSound(start: State, o: DepositMoney.Order, m: ReceiptMoney.Message, began: int, clock: int, valid: bool)
    requires Started(start, o, m, began, clock, valid)
    ensures ReceiptMoney.Inv(start.joint.bank, m, LedgerInvariants.Balances(start.joint.bank.system.books))
    ensures DepositMoney.Started(Ours(start, m), began)
  {
    LedgerInvariants.OpenedIsSound(start.joint.bank.system.books);
  }

  lemma OursStand(start: State, o: DepositMoney.Order, m: ReceiptMoney.Message, cfg: Deposit.Config, steps: seq<Step>, began: int)
    requires DepositMoney.Started(Ours(start, m), began) && !cfg.refund
    requires ReceiptMoney.Inv(start.joint.bank, m, LedgerInvariants.Balances(start.joint.bank.system.books))
    requires DepositSafety.Settled(Run(start, o, m, cfg, steps).joint.sender.ours)
    ensures var s := Run(start, o, m, cfg, steps);
            WeStand(start, s, o, Receiver.IsCredited(s.joint.bank.bank.op) && !Exempt(s, m))
  {
    RunIsShadowed(start, o, m, cfg, LedgerInvariants.Balances(start.joint.bank.system.books), steps);
    DepositMoney.MoneyFollowsTheCredit(Ours(start, m), o, cfg, began, Shadows(start, o, m, cfg, steps), []);
  }

  /**
   The money arrives exactly if it leaves. Of a settled deposit whose release was not exempt, either the customer's
   account is down by amount and fee and the other bank has credited the amount to the destination, from which
   only a reversal takes it back, or neither account shows anything of it. An exempt release leaves the
   customer's account as it was, whatever the other bank did.
   */
  lemma MoneyArrivesIffItLeaves(start: State, o: DepositMoney.Order, m: ReceiptMoney.Message, cfg: Deposit.Config,
                                began: int, clock: int, valid: bool, steps: seq<Step>, account: Ledger.Id)
    requires Started(start, o, m, began, clock, valid) && !cfg.refund
    requires DepositSafety.Settled(Run(start, o, m, cfg, steps).joint.sender.ours)
    requires account in Run(start, o, m, cfg, steps).joint.bank.system.books.accounts
    ensures var s := Run(start, o, m, cfg, steps);
            && WeStand(start, s, o, Receiver.IsCredited(s.joint.bank.bank.op) && !Exempt(s, m))
            && TheyStand(start, s, m, account)
  {
    StartIsSound(start, o, m, began, clock, valid);
    OursStand(start, o, m, cfg, steps, began);
    var opening := LedgerInvariants.Balances(start.joint.bank.system.books);
    RunIsShadowed(start, o, m, cfg, opening, steps);
    ReceiptMoney.MoneyFollowsTheOperation(Run(start, o, m, cfg, steps).joint.bank, m, opening, account);
  }
}
