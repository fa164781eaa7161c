/**
 An outbound deposit with the money in it: the Account books of a whole bank, whatever else they serve, and
 the deposit of module Deposit, of which one operation of those books is a part.
 */
module DepositMoney {
  import opened Prelude
  import MapSums
  import opened Ledger
  import opened LedgerInvariants
  import opened InterbankRules
  import Verdicts
  import Deposit
  import DepositLedger
  import DepositSafety
  import DepositLiveness

  /** What the customer asked for. */
  datatype Order = Order(id: Id, source: Id, requested: Option<int>, currency: Currency)

  datatype State = State(system: Verdicts.System, world: Deposit.World)

  datatype Step =
    | DepositMoves(step: Deposit.Step)
    | OrderHandled(emitted: bool)
    | AcceptanceHandled(emitted: bool)
    | RefusalHandled(reason: Option<Reason>, emitted: bool)
    | SystemMoves(move: Verdicts.Step)

  /** Account's three steps come with its books; every other step of the deposit is taken as it is. */
  predicate OfAccount(step: Deposit.Step) {
    step.ReserveFunds? || step.DebitFunds? || step.ReleaseFunds?
  }

  /** Events about this id; those of a received deposit cannot have it, as ids sent and received differ. */
  predicate AboutTheOrder(step: Verdicts.Step, id: Id) {
    step.AccountHandles?
    && (DepositLedger.About(step.event, id) || ((step.event.DepositRequested? || step.event.CancelRequested?) && step.event.id == id))
  }

  function Requested(o: Order): Event {
    TransferRequested(o.id, o.source, o.requested, o.currency)
  }

  /** The step of the deposit that a joint step is; what the bank does besides is an idle wait. */
  function Shadow(s: State, o: Order, step: Step): Deposit.Step {
    match step
    case DepositMoves(d) => if OfAccount(d) then Deposit.Wait(0) else d
    case OrderHandled(emitted) =>
      var after := Handle(s.system.books, Requested(o), 0).books;
      Deposit.ReserveFunds(DepositLedger.OutgoingStatus(after, o.id) == Some(OpReserved), emitted)
    case AcceptanceHandled(emitted) => if Accepted in s.world.side.ours.published then Deposit.DebitFunds(emitted) else Deposit.Wait(0)
    case RefusalHandled(_, emitted) => if RefusalIsPublished(s) then Deposit.ReleaseFunds(emitted) else Deposit.Wait(0)
    case SystemMoves(_) => Deposit.Wait(0)
  }

  predicate RefusalIsPublished(s: State) {
    Rejected in s.world.side.ours.published || Reversed in s.world.side.ours.published
  }

  /** Account's event in a joint step, if it handles one about the order. */
  function EventOf(s: State, o: Order, step: Step): Option<Event> {
    match step
    case OrderHandled(_) => Some(Requested(o))
    case AcceptanceHandled(_) => if Accepted in s.world.side.ours.published then Some(TransferAccepted(o.id)) else None
    case RefusalHandled(reason, _) => if RefusalIsPublished(s) then Some(TransferRefused(o.id, reason)) else None
    case _ => None
  }

  function Next(s: State, o: Order, cfg: Deposit.Config, step: Step): State {
    State(if EventOf(s, o, step).Some? then Verdicts.Next(s.system, Verdicts.AccountHandles(EventOf(s, o, step).value, 0))
          else if step.SystemMoves? && !AboutTheOrder(step.move, o.id) then Verdicts.Next(s.system, step.move)
          else s.system,
          Deposit.Next(s.world, cfg, Shadow(s, o, step)))
  }

  function Run(s: State, o: Order, cfg: Deposit.Config, steps: seq<Step>): State
    decreases |steps|
  {
    if steps == [] then s else Run(Next(s, o, cfg, steps[0]), o, cfg, steps[1..])
  }

  function Shadows(s: State, o: Order, cfg: Deposit.Config, steps: seq<Step>): seq<Deposit.Step>
    decreases |steps|
  {
    if steps == [] then [] else [Shadow(s, o, steps[0])] + Shadows(Next(s, o, cfg, steps[0]), o, cfg, steps[1..])
  }

  /** Every joint run is, of the deposit, a run of module Deposit. */
  lemma {:induction false} RunIsShadowed(s: State, o: Order, cfg: Deposit.Config, steps: seq<Step>)
    ensures Run(s, o, cfg, steps).world == Deposit.Run(s.world, cfg, Shadows(s, o, cfg, steps))
    decreases |steps|
  {
    if steps == [] {
    } else {
      RunIsShadowed(Next(s, o, cfg, steps[0]), o, cfg, steps[1..]);
      var shadows := Shadows(s, o, cfg, steps);
      assert shadows[0] == Shadow(s, o, steps[0]) && shadows[1..] == Shadows(Next(s, o, cfg, steps[0]), o, cfg, steps[1..]);
    }
  }

  // ---------------------------------------------------------------- invariant

  /** The deposit's operation is the one in the books, and it records the order. */
  predicate Tied(b: Books, world: Deposit.World, o: Order) {
    && (o.id in b.ops ==> b.ops[o.id].direction.Outgoing?)
    && world.side.ours.op == DepositLedger.OutgoingStatus(b, o.id)
    && (o.id in b.ops && !b.ops[o.id].status.OpRejected? ==>
          && b.ops[o.id].account == Some(o.source) && Some(b.ops[o.id].amount) == o.requested
          && o.source in b.accounts && b.ops[o.id].fee == b.accounts[o.source].Fee())
  }

  ghost predicate Inv(s: State, o: Order, cfg: Deposit.Config, opening: map<Id, int>) {
    Verdicts.Inv(s.system, opening) && DepositSafety.Inv(s.world, cfg) && Tied(s.system.books, s.world, o)
  }

  lemma RequestTies(s: State, o: Order, cfg: Deposit.Config, emitted: bool)
    requires Tied(s.system.books, s.world, o) && !cfg.refund && Shaped(s.system.books)
    ensures var s' := Next(s, o, cfg, OrderHandled(emitted)); Tied(s'.system.books, s'.world, o)
  {
    var b := s.system.books;
    DepositLedger.ReservationMovesTheOperation(b, o.id, o.source, o.requested, o.currency);
    if o.id !in b.ops {
      GrantedIffCovered(b, o.id, o.source, o.requested, o.currency);
    }
  }

  /** A settlement changes the status of the operation and nothing else of it. */
  lemma SettlementKeepsTheRecord(b: Books, e: Event, id: Id)
    requires (e.TransferAccepted? || e.TransferRefused?) && e.id == id
    ensures id in Handle(b, e, 0).books.ops <==> id in b.ops
    ensures id in b.ops ==>
              var op, op' := b.ops[id], Handle(b, e, 0).books.ops[id];
              op'.direction == op.direction && op'.account == op.account && op'.amount == op.amount && op'.fee == op.fee
              && (op'.status.OpRejected? <==> op.status.OpRejected?)
  {
  }

  lemma SettlementTies(s: State, o: Order, cfg: Deposit.Config, step: Step)
    requires Tied(s.system.books, s.world, o) && Shaped(s.system.books)
    requires (step.AcceptanceHandled? || step.RefusalHandled?) && EventOf(s, o, step).Some?
    ensures var s' := Next(s, o, cfg, step); Tied(s'.system.books, s'.world, o)
  {
    var b, e := s.system.books, EventOf(s, o, step).value;
    DepositLedger.SettlementMovesTheOperation(b, o.id, if e.TransferRefused? then e.reason else None);
    SettlementKeepsTheRecord(b, e, o.id);
    if o.source in b.accounts {
      FeesStay(b, e, 0, o.source);
    }
  }

  /** Nothing else touches the operation. */
  lemma OthersKeepTheRecord(b: Books, step: Verdicts.Step, id: Id)
    requires step.AccountHandles? && !AboutTheOrder(step, id)
    requires id in b.ops ==> b.ops[id].direction.Outgoing?
    ensures var b' := Handle(b, step.event, step.now).books;
            (id in b'.ops <==> id in b.ops) && (id in b.ops ==> b'.ops[id] == b.ops[id])
  {
    if DepositLedger.OutgoingStatus(b, id).Some? {
      DepositLedger.OtherEventsLeaveTheOperation(b, step.event, step.now, id);
    }
  }

  lemma DepositStepLeavesOperation(w: Deposit.World, cfg: Deposit.Config, step: Deposit.Step)
    requires !OfAccount(step)
    ensures Deposit.Next(w, cfg, step).side.ours.op == w.side.ours.op
  {
  }

  lemma OthersTie(s: State, o: Order, cfg: Deposit.Config, step: Step)
    requires Tied(s.system.books, s.world, o) && EventOf(s, o, step).None?
    ensures var s' := Next(s, o, cfg, step); Tied(s'.system.books, s'.world, o)
  {
    DepositStepLeavesOperation(s.world, cfg, Shadow(s, o, step));
    if step.SystemMoves? && step.move.AccountHandles? && !AboutTheOrder(step.move, o.id) {
      OthersKeepTheRecord(s.system.books, step.move, o.id);
      if o.source in s.system.books.accounts {
        FeesStay(s.system.books, step.move.event, step.move.now, o.source);
      }
    }
  }

  lemma NextTies(s: State, o: Order, cfg: Deposit.Config, step: Step)
    requires Tied(s.system.books, s.world, o) && Shaped(s.system.books) && !cfg.refund
    ensures var s' := Next(s, o, cfg, step); Tied(s'.system.books, s'.world, o)
  {
    if EventOf(s, o, step).None? {
      OthersTie(s, o, cfg, step);
    } else if step.OrderHandled? {
      RequestTies(s, o, cfg, step.emitted);
    } else {
      SettlementTies(s, o, cfg, step);
    }
  }

  lemma SystemKeeps(s: State, o: Order, cfg: Deposit.Config, opening: map<Id, int>, step: Step)
    requires Verdicts.Inv(s.system, opening)
    ensures Verdicts.Inv(Next(s, o, cfg, step).system, opening)
  {
    if EventOf(s, o, step).Some? {
      Verdicts.NextKeeps(s.system, opening, Verdicts.AccountHandles(EventOf(s, o, step).value, 0));
    } else if step.SystemMoves? {
      Verdicts.NextKeeps(s.system, opening, step.move);
    }
  }

  lemma {:induction false} RunKeeps(s: State, o: Order, cfg: Deposit.Config, opening: map<Id, int>, steps: seq<Step>)
    requires Inv(s, o, cfg, opening) && !cfg.refund
    ensures Inv(Run(s, o, cfg, steps), o, cfg, opening)
    decreases |steps|
  {
    if steps == [] {
    } else {
      SystemKeeps(s, o, cfg, opening, steps[0]);
      DepositSafety.NextKeeps(s.world, cfg, Shadow(s, o, steps[0]));
      NextTies(s, o, cfg, steps[0]);
      RunKeeps(Next(s, o, cfg, steps[0]), o, cfg, opening, steps[1..]);
    }
  }

  // -------------------------------------------------------------- main results

  /** What all other records of the books explain of a balance and hold of an account. */
  ghost function ExplainedByOthers(b: Books, id: Id, account: Id): int {
    MapSums.Sum(b.reservations, ReservationEffect(account)) + MapSums.Sum(b.ops - {id}, OpEffect(account))
  }

  ghost function HeldByOthers(b: Books, id: Id, account: Id): int {
    MapSums.Sum(b.reservations, ReservationHold(account)) + MapSums.Sum(b.ops - {id}, OpHold(account))
  }

  /** The one record apart from the others. */
  lemma OneRecordApart(b: Books, opening: map<Id, int>, id: Id, account: Id)
    requires ReservedIsHeld(b) && Conserved(b, opening) && id in b.ops && account in b.accounts
    ensures b.accounts[account].balance == opening[account] + ExplainedByOthers(b, id, account) + EffectOfOp(b.ops[id], account)
    ensures b.accounts[account].reserved == HeldByOthers(b, id, account) + HoldOfOp(b.ops[id], account)
  {
    MapSums.Pull(b.ops, OpEffect(account), id);
    MapSums.Pull(b.ops, OpHold(account), id);
  }

  /** Fresh books, no row, and a partner that has not heard of the deposit, though it may already be bound to refuse it. */
  ghost predicate Started(s: State, began: int) {
    && Verdicts.Fresh(s.system)
    && s.world.side == Deposit.Start(began).side && !s.world.misled && !s.world.partner.reached && !s.world.partner.credited
  }

  /** Any such beginning is reached in module Deposit. */
  lemma Begins(s: State, cfg: Deposit.Config, began: int) returns (before: seq<Deposit.Step>)
    requires Started(s, began)
    ensures s.world == Deposit.Run(Deposit.Start(began), cfg, before)
  {
    before := [Deposit.PartnerMoves(s.world.partner, None, None)];
    assert Deposit.Run(Deposit.Start(began), cfg, before) == Deposit.Run(Deposit.Next(Deposit.Start(began), cfg, before[0]), cfg, []);
  }

  /** The release was made without the partner's true word: after the margin, or on a refusal that was not true. */
  predicate Exempt(w: Deposit.World) {
    w.misled || (w.side.ours.row.Some? && w.side.ours.row.value.state.Reversed? && w.side.ours.row.value.reason == Some(TimeoutNoResponse))
  }

  /** The account without the deposit: its opening balance, what all other records explain, and what they hold. */
  ghost predicate AccountStands(b: Books, opening: map<Id, int>, o: Order, taken: int, held: int) {
    && o.source in b.accounts && o.source in opening
    && b.accounts[o.source].balance == opening[o.source] + ExplainedByOthers(b, o.id, o.source) - taken
    && b.accounts[o.source].reserved == HeldByOthers(b, o.id, o.source) + held
  }

  /**
   The money follows the credit. Of a settled deposit, the customer's balance is what it would be without it,
   less amount and fee exactly if the partner has credited it, now and in every continuation, and nothing of it
   is still held; save for a release that was exempt, which leaves the whole amount with the customer.
   */
  lemma MoneyFollowsTheCredit(start: State, o: Order, cfg: Deposit.Config, began: int, steps: seq<Step>, more: seq<Step>)
    requires Started(start, began) && !cfg.refund
    requires DepositSafety.Settled(Run(start, o, cfg, steps).world.side.ours)
    ensures var s, opening := Run(start, o, cfg, steps), Balances(start.system.books);
            && o.requested.Some? && o.source in start.system.books.accounts
            && var charge := o.requested.value + start.system.books.accounts[o.source].Fee();
               AccountStands(s.system.books, opening, o, if s.world.partner.credited && !Exempt(s.world) then charge else 0, 0)
    ensures var s := Run(start, o, cfg, steps);
            !Exempt(s.world) ==> Run(s, o, cfg, more).world.partner.credited == s.world.partner.credited
  {
    var s, opening := Run(start, o, cfg, steps), Balances(start.system.books);
    OpenedIsSound(start.system.books);
    var before := Begins(start, cfg, began);
    DepositSafety.Reachable(cfg, began, before);
    RunKeeps(start, o, cfg, opening, steps);
    RunIsShadowed(start, o, cfg, steps);
    RunIsShadowed(s, o, cfg, more);
    Deposit.RunSplits(Deposit.Start(began), cfg, before, Shadows(start, o, cfg, steps));
    var first, rest := before + Shadows(start, o, cfg, steps), Shadows(s, o, cfg, more);
    DepositSafety.DebitXorRelease(cfg, began, first, rest);
    DepositSafety.SettledWithThePartner(cfg, began, first, rest);
    DepositSafety.TwoBankAgreement(cfg, began, first, rest);
    DepositSafety.RunIsOnward(s.world, cfg, rest);
    OneRecordApart(s.system.books, opening, o.id, o.source);
    RunKeepsFees(start, o, cfg, steps, o.source);
  }

  lemma {:induction false} RunKeepsFees(s: State, o: Order, cfg: Deposit.Config, steps: seq<Step>, account: Id)
    ensures account in s.system.books.accounts <==> account in Run(s, o, cfg, steps).system.books.accounts
    ensures account in s.system.books.accounts ==>
              Run(s, o, cfg, steps).system.books.accounts[account].feeAmount == s.system.books.accounts[account].feeAmount
    decreases |steps|
  {
    if steps == [] {
    } else {
      NextKeepsFees(s, o, cfg, steps[0], account);
      RunKeepsFees(Next(s, o, cfg, steps[0]), o, cfg, steps[1..], account);
    }
  }

  lemma NextKeepsFees(s: State, o: Order, cfg: Deposit.Config, step: Step, account: Id)
    ensures var b, b' := s.system.books, Next(s, o, cfg, step).system.books;
            && (account in b.accounts <==> account in b'.accounts)
            && (account in b.accounts ==> b'.accounts[account].feeAmount == b.accounts[account].feeAmount)
  {
    if EventOf(s, o, step).Some? {
      FeesStay(s.system.books, EventOf(s, o, step).value, 0, account);
    } else if step.SystemMoves? && step.move.AccountHandles? {
      FeesStay(s.system.books, step.move.event, step.move.now, account);
    }
  }

  // ------------------------------------------------------------------ liveness

  /** The joint step that does what a step of the deposit does, once its operation is in the books. */
  function Lifted(step: Deposit.Step): Step {
    match step
    case ReserveFunds(_, emitted) => OrderHandled(emitted)
    case DebitFunds(emitted) => AcceptanceHandled(emitted)
    case ReleaseFunds(emitted) => RefusalHandled(None, emitted)
    case _ => DepositMoves(step)
  }

  lemma LiftedStep(s: State, o: Order, cfg: Deposit.Config, step: Deposit.Step)
    requires s.world.side.ours.op.Some?
    ensures Next(s, o, cfg, Lifted(step)).world == Deposit.Next(s.world, cfg, step)
    ensures Deposit.Next(s.world, cfg, step).side.ours.op.Some?
  {
    if !OfAccount(step) {
      DepositStepLeavesOperation(s.world, cfg, step);
    }
  }

  lemma {:induction false} LiftedRun(s: State, o: Order, cfg: Deposit.Config, steps: seq<Deposit.Step>) returns (lifted: seq<Step>)
    requires s.world.side.ours.op.Some?
    ensures Run(s, o, cfg, lifted).world == Deposit.Run(s.world, cfg, steps)
    decreases |steps|
  {
    if steps == [] {
      lifted := [];
    } else {
      LiftedStep(s, o, cfg, steps[0]);
      var rest := LiftedRun(Next(s, o, cfg, Lifted(steps[0])), o, cfg, steps[1..]);
      lifted := [Lifted(steps[0])] + rest;
      assert lifted[1..] == rest;
    }
  }

  /** From every reachable state with funds held, some continuation settles them, and the books show it. */
  lemma HeldMoneyCanBeSettled(start: State, o: Order, cfg: Deposit.Config, began: int, before: seq<Step>) returns (steps: seq<Step>)
    requires Started(start, began) && !cfg.refund
    requires DepositLiveness.Held(Run(start, o, cfg, before).world)
    ensures var s := Run(Run(start, o, cfg, before), o, cfg, steps);
            && DepositSafety.Settled(s.world.side.ours) && DepositSafety.Announced(s.world.side.ours)
            && o.id in s.system.books.ops && (s.system.books.ops[o.id].status.OpDebited? || s.system.books.ops[o.id].status.OpReleased?)
  {
    var s, opening := Run(start, o, cfg, before), Balances(start.system.books);
    var first := Begins(start, cfg, began);
    RunIsShadowed(start, o, cfg, before);
    Deposit.RunSplits(Deposit.Start(began), cfg, first, Shadows(start, o, cfg, before));
    var settling := DepositLiveness.HeldFundsCanBeSettled(cfg, began, first + Shadows(start, o, cfg, before));
    steps := LiftedRun(s, o, cfg, settling);
    OpenedIsSound(start.system.books);
    DepositSafety.Reachable(cfg, began, first);
    RunKeeps(start, o, cfg, opening, before);
    RunKeeps(s, o, cfg, opening, steps);
  }
}
