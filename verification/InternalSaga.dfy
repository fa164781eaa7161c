/**
 One internal transfer across the three services: Transaction's record, Account's books and Payment's verdict,
 with the request that Account handles again whenever it is delivered again before it was marked as processed.
 */
module InternalSaga {
  import opened Prelude
  import Runs
  import MapSums
  import opened Ledger
  import opened LedgerInvariants
  import Verdicts
  import Saga

  /** The transfer that is followed; `limit` is the largest amount that Payment approves. */
  datatype Transfer = Transfer(tx: Id, source: Id, target: Id, amount: nat, limit: int)
  {
    predicate Approvable() {
      0 < amount <= limit
    }

    function Created(): Event {
      TransactionCreated(tx, source, target, amount)
    }
  }

  /** What Account has announced about it. */
  datatype News = NewsReserved | NewsRejected | NewsCompleted | NewsReleased

  /**
   `requested`: Transaction has asked Account for the funds; `unverified`: it failed the transfer because the customer
   was not verified. `marked`: the request is among Account's processed events. `delivered` and `handled` count
   the deliveries of it that found it unmarked, before and after the handler's transaction.
   */
  datatype State = State(
    system: Verdicts.System, record: Saga.Record, news: set<News>, requested: bool, unverified: bool,
    marked: bool, delivered: nat, handled: nat)

  datatype Step =
    | TransferAsked(verified: bool, emitted: bool)  // the customer's transfer reaches Transaction, for the first time or again
    | RequestArrives
    | RequestHandled(emitted: bool)  // not emitted: the service dies after the commit
    | RequestMarked
    | RequestDies
    | SystemMoves(step: Verdicts.Step, emitted: bool)
    | Told(event: Saga.InternalEvent)

  function NewsOf(reply: Reply): set<News> {
    match reply
    case FundsReserved(_) => {NewsReserved}
    case FundsRejected(_) => {NewsRejected}
    case TransferCompleted(_, _) => {NewsCompleted}
    case FundsReleased(_, _) => {NewsReleased}
    case _ => {}
  }

  /** Payment decides on announced reservations only, and approves only amounts in its limits; the request has its own steps. */
  predicate Allowed(s: State, t: Transfer, step: Verdicts.Step) {
    match step
    case PaymentMoves(p) => p.Take? && p.tx == t.tx ==> NewsReserved in s.news && (p.verdict.Approved? ==> t.Approvable())
    case AccountHandles(e, _) => Verdicts.Deliverable(s.system.payments, e) && !(e.TransactionCreated? && e.tx == t.tx)
  }

  predicate IsVerdict(t: Transfer, step: Verdicts.Step) {
    step.AccountHandles? && (step.event == PaymentApproved(t.tx) || step.event == PaymentRejected(t.tx))
  }

  predicate CanBeTold(s: State, t: Transfer, e: Saga.InternalEvent) {
    match e
    case Reserved => NewsReserved in s.news
    case Refused(_) => NewsRejected in s.news
    case Declined(_) => (t.tx, Verdicts.Declined) in s.system.payments.published
    case Paid => NewsCompleted in s.news
    case Released => NewsReleased in s.news
  }

  function Next(s: State, t: Transfer, step: Step): State {
    match step
    case TransferAsked(verified, emitted) =>
      if !s.record.status.Pending? then s
      else if verified then s.(requested := s.requested || emitted)
      else s.(record := Saga.Deliver(s.record, Saga.Refused(None)), unverified := true)
    case RequestArrives => if s.marked || !s.requested then s else s.(delivered := s.delivered + 1)
    case RequestHandled(emitted) =>
      if s.delivered == 0 then s
      else
        var out := Handle(s.system.books, t.Created(), 0);
        s.(system := s.system.(books := out.books), news := s.news + (if emitted then NewsOf(out.reply) else {}),
           delivered := s.delivered - 1, handled := s.handled + (if emitted then 1 else 0))
    case RequestMarked => if s.handled == 0 then s else s.(marked := true, handled := s.handled - 1)
    case RequestDies => if s.delivered == 0 then s else s.(delivered := s.delivered - 1)
    case SystemMoves(step, emitted) =>
      if !Allowed(s, t, step) then s
      else
        s.(system := Verdicts.Next(s.system, step),
           news := s.news + (if emitted && IsVerdict(t, step) then NewsOf(Handle(s.system.books, step.event, step.now).reply) else {}))
    case Told(e) => if CanBeTold(s, t, e) then s.(record := Saga.Deliver(s.record, e)) else s
  }

  function Run(s: State, t: Transfer, steps: seq<Step>): State
    decreases |steps|
  {
    if steps == [] then s else Run(Next(s, t, steps[0]), t, steps[1..])
  }

  ghost predicate Started(s: State) {
    Verdicts.Fresh(s.system) && s.record == Saga.OPENED && s.news == {}
    && !s.requested && !s.unverified && !s.marked && s.delivered == 0 && s.handled == 0
  }

  // ---------------------------------------------------------------- invariant

  function StatusOf(s: State, t: Transfer): Option<ReservationStatus> {
    if t.tx in s.system.books.reservations then Some(s.system.books.reservations[t.tx].status) else None
  }

  /** Payment knows only of what was reserved and announced. */
  ghost predicate PaymentKnows(p: Verdicts.Payments, news: set<News>, tx: Id) {
    NewsReserved !in news ==>
      && tx !in p.rows
      && (forall w :: w in p.workers ==> p.workers[w].tx != tx)
      && (forall v :: v in p.published ==> v.0 != tx)
  }

  /** It never approves what exceeds its limits. */
  ghost predicate KeepsLimits(p: Verdicts.Payments, t: Transfer) {
    !t.Approvable() ==>
      && (t.tx in p.rows ==> p.rows[t.tx].Declined?)
      && (forall w :: w in p.workers && p.workers[w].tx == t.tx ==> p.workers[w].verdict.Declined?)
      && (t.tx, Verdicts.Approved) !in p.published
  }

  predicate NewsAreTrue(s: State, t: Transfer) {
    && (NewsReserved in s.news ==> StatusOf(s, t).Some?)
    && (NewsCompleted in s.news ==> StatusOf(s, t) == Some(Completed))
    && (NewsReleased in s.news ==> StatusOf(s, t) == Some(Released))
  }

  predicate RecordIsTrue(s: State) {
    && (s.record.status.Completed? ==> NewsCompleted in s.news)
    && (s.record.status.Compensated? ==> NewsReleased in s.news)
    && (s.record.status.Failed? ==> NewsRejected in s.news || s.unverified)
  }

  /** The three services agree about the transfer. */
  ghost predicate Agree(s: State, t: Transfer) {
    && PaymentKnows(s.system.payments, s.news, t.tx) && KeepsLimits(s.system.payments, t)
    && NewsAreTrue(s, t) && RecordIsTrue(s)
    && (t.tx in s.system.books.reservations ==>
          var r := s.system.books.reservations[t.tx];
          && r.source == t.source && r.target == t.target && r.amount == t.amount
          && t.source in s.system.books.accounts && r.fee == s.system.books.accounts[t.source].Fee())
  }

  ghost predicate Inv(s: State, t: Transfer, opening: map<Id, int>) {
    Verdicts.Inv(s.system, opening) && Agree(s, t)
  }

  /** A reservation moves only by its request and its verdicts, and never back. */
  lemma OthersLeaveTheReservation(b: Books, e: Event, now: int, tx: Id)
    requires !(e.TransactionCreated? && e.tx == tx) && e != PaymentApproved(tx) && e != PaymentRejected(tx)
    ensures tx in Handle(b, e, now).books.reservations <==> tx in b.reservations
    ensures tx in b.reservations ==> Handle(b, e, now).books.reservations[tx] == b.reservations[tx]
  {
  }

  lemma VerdictsMoveTheReservation(b: Books, tx: Id, approved: bool, now: int)
    ensures var out := Handle(b, if approved then PaymentApproved(tx) else PaymentRejected(tx), now);
            && (tx in out.books.reservations <==> tx in b.reservations)
            && (tx in b.reservations && !out.reply.Thrown? ==>
                  out.books.reservations[tx] == b.reservations[tx].(status := if approved then Completed else Released))
            && (NewsCompleted in NewsOf(out.reply) ==> approved && tx in b.reservations)
            && (NewsReleased in NewsOf(out.reply) ==> !approved && tx in b.reservations)
            && NewsReserved !in NewsOf(out.reply) && NewsRejected !in NewsOf(out.reply)
  {
  }

  lemma RequestMovesTheReservation(b: Books, t: Transfer)
    ensures var out := Handle(b, t.Created(), 0);
            && (t.tx in b.reservations ==> out == Outcome(b, Skipped))
            && (t.tx in out.books.reservations ==>
                  || t.tx in b.reservations
                  || (t.source in b.accounts
                      && out.books.reservations[t.tx] == Reservation(t.source, t.target, t.amount, b.accounts[t.source].Fee(), Ledger.Reserved)))
            && (NewsReserved in NewsOf(out.reply) <==> t.tx !in b.reservations && t.tx in out.books.reservations)
            && NewsCompleted !in NewsOf(out.reply) && NewsReleased !in NewsOf(out.reply)
  {
  }

  lemma RequestAgrees(s: State, t: Transfer, emitted: bool)
    requires Agree(s, t)
    ensures Agree(Next(s, t, RequestHandled(emitted)), t)
  {
    RequestMovesTheReservation(s.system.books, t);
    FeesStay(s.system.books, t.Created(), 0, t.source);
  }

  lemma VerdictAgrees(s: State, t: Transfer, step: Verdicts.Step, emitted: bool)
    requires Agree(s, t) && Allowed(s, t, step) && IsVerdict(t, step)
    requires SingleVerdict(s.system.books, step.event) && !Handle(s.system.books, step.event, step.now).reply.Thrown?
    ensures Agree(Next(s, t, SystemMoves(step, emitted)), t)
  {
    VerdictsMoveTheReservation(s.system.books, t.tx, step.event.PaymentApproved?, step.now);
    FeesStay(s.system.books, step.event, step.now, t.source);
  }

  lemma OtherEventAgrees(s: State, t: Transfer, step: Verdicts.Step, emitted: bool)
    requires Agree(s, t) && Allowed(s, t, step) && step.AccountHandles? && !IsVerdict(t, step)
    ensures Agree(Next(s, t, SystemMoves(step, emitted)), t)
  {
    OthersLeaveTheReservation(s.system.books, step.event, step.now, t.tx);
    FeesStay(s.system.books, step.event, step.now, t.source);
  }

  lemma PaymentAgrees(s: State, t: Transfer, step: Verdicts.Step, emitted: bool)
    requires Agree(s, t) && step.PaymentMoves? && Allowed(s, t, step)
    ensures Agree(Next(s, t, SystemMoves(step, emitted)), t)
  {
  }

  /** What Payment published does not contradict what Account did before. */
  lemma VerdictIsSingle(s: Verdicts.System, opening: map<Id, int>, e: Event, now: int)
    requires Verdicts.Inv(s, opening) && Verdicts.Deliverable(s.payments, e)
    ensures SingleVerdict(s.books, e) && !Handle(s.books, e, now).reply.Thrown?
  {
    HandleKeepsSound(s.books, opening, e, now);
  }

  lemma NextAgrees(s: State, t: Transfer, opening: map<Id, int>, step: Step)
    requires Inv(s, t, opening)
    ensures Agree(Next(s, t, step), t)
  {
    match step
    case RequestHandled(emitted) => RequestAgrees(s, t, emitted);
    case SystemMoves(move, emitted) =>
      if Allowed(s, t, move) {
        if IsVerdict(t, move) {
          VerdictIsSingle(s.system, opening, move.event, move.now);
          VerdictAgrees(s, t, move, emitted);
        } else if move.AccountHandles? {
          OtherEventAgrees(s, t, move, emitted);
        } else {
          PaymentAgrees(s, t, move, emitted);
        }
      }
    case _ =>
  }

  /** The steps of the other model that this one makes. */
  lemma NextKeeps(s: State, t: Transfer, opening: map<Id, int>, step: Step)
    requires Inv(s, t, opening)
    ensures Inv(Next(s, t, step), t, opening)
  {
    NextAgrees(s, t, opening, step);
    if step.RequestHandled? {
      Verdicts.NextKeeps(s.system, opening, Verdicts.AccountHandles(t.Created(), 0));
      VerdictIsSingle(s.system, opening, t.Created(), 0);
    } else if step.SystemMoves? {
      Verdicts.NextKeeps(s.system, opening, step.step);
    }
  }

  lemma {:induction false} RunKeeps(s: State, t: Transfer, opening: map<Id, int>, steps: seq<Step>)
    requires Inv(s, t, opening)
    ensures Inv(Run(s, t, steps), t, opening)
    decreases |steps|
  {
    if steps == [] {
    } else {
      NextKeeps(s, t, opening, steps[0]);
      RunKeeps(Next(s, t, steps[0]), t, opening, steps[1..]);
    }
  }

  lemma Reachable(start: State, t: Transfer, steps: seq<Step>)
    requires Started(start)
    ensures Inv(Run(start, t, steps), t, Balances(start.system.books))
  {
    OpenedIsSound(start.system.books);
    RunKeeps(start, t, Balances(start.system.books), steps);
  }

  /** The request comes again as long as it is not marked; each delivery is handled, and marked, at most once. */
  lemma RequestingIsExact(s: State, t: Transfer, emitted: bool)
    ensures Next(s, t, RequestArrives) == if s.requested && !s.marked then s.(delivered := s.delivered + 1) else s
    ensures s.delivered > 0 ==>
              var s' := Next(s, t, RequestHandled(emitted));
              && s'.delivered == s.delivered - 1 && s'.handled == s.handled + (if emitted then 1 else 0)
              && s'.system.books == Reserve(s.system.books, t.tx, t.source, t.target, t.amount).books
    ensures s.handled > 0 ==> Next(s, t, RequestMarked) == s.(marked := true, handled := s.handled - 1)
  {
  }

  // ------------------------------------------------------- what a status says

  predicate Moved(s: State, t: Transfer) {
    StatusOf(s, t) == Some(Completed)
  }

  /** COMPLETED means the money moved, COMPENSATED that its hold was released; FAILED that Account once refused or the customer was not verified. */
  lemma EndsAreTrue(start: State, t: Transfer, steps: seq<Step>)
    requires Started(start)
    ensures var s := Run(start, t, steps);
            && (s.record.status.Completed? ==> Moved(s, t))
            && (s.record.status.Compensated? ==> StatusOf(s, t) == Some(Released))
            && (s.record.status.Failed? ==> NewsRejected in s.news || s.unverified)
  {
    Reachable(start, t, steps);
  }

  // ------------------------------------------------------------- the money

  /** What all other records of the books explain of a balance, and hold of it. */
  ghost function ExplainedByOthers(b: Books, tx: Id, account: Id): int {
    MapSums.Sum(b.reservations - {tx}, ReservationEffect(account)) + MapSums.Sum(b.ops, OpEffect(account))
  }

  ghost function HeldByOthers(b: Books, tx: Id, account: Id): int {
    MapSums.Sum(b.reservations - {tx}, ReservationHold(account)) + MapSums.Sum(b.ops, OpHold(account))
  }

  lemma OneReservationApart(b: Books, opening: map<Id, int>, tx: Id, account: Id)
    requires ReservedIsHeld(b) && Conserved(b, opening) && account in b.accounts
    ensures b.accounts[account].balance == opening[account] + ExplainedByOthers(b, tx, account)
                                           + if tx in b.reservations then EffectOfReservation(b.reservations[tx], account) else 0
    ensures b.accounts[account].reserved == HeldByOthers(b, tx, account)
                                            + if tx in b.reservations then HoldOfReservation(b.reservations[tx], account) else 0
  {
    if tx in b.reservations {
      MapSums.Pull(b.reservations, ReservationEffect(account), tx);
      MapSums.Pull(b.reservations, ReservationHold(account), tx);
    } else {
      assert b.reservations - {tx} == b.reservations;
    }
  }

  /** Amount and fee, as the source charges. */
  function Charge(start: State, t: Transfer): int {
    t.amount + if t.source in start.system.books.accounts then start.system.books.accounts[t.source].Fee() else 0
  }

  /** What the transfer has brought to an account, or taken from it. */
  function Paid(s: State, start: State, t: Transfer, account: Id): int {
    if !Moved(s, t) then 0
    else (if account == t.target then t.amount else 0) - (if account == t.source then Charge(start, t) else 0)
  }

  function Holds(s: State, start: State, t: Transfer, account: Id): int {
    if StatusOf(s, t) == Some(Ledger.Reserved) && account == t.source then Charge(start, t) else 0
  }

  /**
   The money follows the reservation, and so a COMPLETED record: in every run, a transfer that moved has taken its amount
   and its account's fee from the source and given the amount to the target, one that is held holds amount and
   fee on the source, and any other shows on no account.
   */
  lemma MoneyFollowsTheTransfer(start: State, t: Transfer, steps: seq<Step>, account: Id)
    requires Started(start) && account in Run(start, t, steps).system.books.accounts
    ensures var s := Run(start, t, steps);
            var b := s.system.books;
            && account in start.system.books.accounts
            && (s.record.status.Completed? ==> Moved(s, t))
            && (StatusOf(s, t).Some? ==> t.source in start.system.books.accounts && t.source in b.accounts)
            && b.accounts[account].balance
               == start.system.books.accounts[account].balance + ExplainedByOthers(b, t.tx, account) + Paid(s, start, t, account)
            && b.accounts[account].reserved == HeldByOthers(b, t.tx, account) + Holds(s, start, t, account)
  {
    var s, opening := Run(start, t, steps), Balances(start.system.books);
    Reachable(start, t, steps);
    RunKeepsFees(start, t, steps, t.source);
    OneReservationApart(s.system.books, opening, t.tx, account);
  }

  lemma NextKeepsFees(s: State, t: Transfer, step: Step, account: Id)
    ensures var b, b' := s.system.books, Next(s, t, step).system.books;
            && (account in b'.accounts <==> account in b.accounts)
            && (account in b.accounts ==> b'.accounts[account].feeAmount == b.accounts[account].feeAmount)
  {
    FeesStay(s.system.books, t.Created(), 0, account);
    if step.SystemMoves? && step.step.AccountHandles? {
      FeesStay(s.system.books, step.step.event, step.step.now, account);
    }
  }

  lemma {:induction false} RunKeepsFees(s: State, t: Transfer, steps: seq<Step>, account: Id)
    ensures var b, b' := s.system.books, Run(s, t, steps).system.books;
            && (account in b'.accounts <==> account in b.accounts)
            && (account in b.accounts ==> b'.accounts[account].feeAmount == b.accounts[account].feeAmount)
    decreases |steps|
  {
    if steps == [] {
    } else {
      NextKeepsFees(s, t, steps[0], account);
      RunKeepsFees(Next(s, t, steps[0]), t, steps[1..], account);
    }
  }

  // ------------------------------------------------------- what can still happen

  /** Payment has announced this verdict on the reservation, or still can. */
  ghost predicate Open(s: State, t: Transfer, v: Verdicts.Verdict) {
    var p := s.system.payments;
    || (t.tx, v) in p.published
    || (exists w :: w in p.workers && p.workers[w] == Verdicts.Saved(t.tx, v))
    || (t.tx !in p.rows && NewsReserved in s.news && (v.Approved? ==> t.Approvable()))
  }

  function ClosedAs(v: Verdicts.Verdict): ReservationStatus {
    if v.Approved? then Completed else Released
  }

  /** The request can still get to its handler: it is on its way, may be delivered again, or may yet be made. */
  predicate Deliverable(s: State) {
    s.delivered > 0 || (!s.marked && (s.requested || s.record.status.Pending?))
  }

  predicate IsActive(b: Books, account: Id) {
    account in b.accounts && b.accounts[account].active
  }

  ghost predicate Movable(s: State, t: Transfer) {
    match StatusOf(s, t)
    case Some(status) => status == Completed || (status == Ledger.Reserved && Open(s, t, Verdicts.Approved))
    case None => Deliverable(s) && t.Approvable() && IsActive(s.system.books, t.source) && IsActive(s.system.books, t.target)
  }

  /** What Payment's own records keep, and Account's with them. */
  ghost predicate Obeys(s: State) {
    Verdicts.RowsDecide(s.system.payments) && Verdicts.ObeysRows(s.system.payments, s.system.books)
  }

  lemma PaymentStaysUnpayable(s: State, t: Transfer, step: Verdicts.PaymentStep, emitted: bool)
    requires Obeys(s) && Agree(s, t) && !Movable(s, t) && Allowed(s, t, Verdicts.PaymentMoves(step))
    ensures !Movable(Next(s, t, SystemMoves(Verdicts.PaymentMoves(step), emitted)), t)
  {
  }

  lemma VerdictLeavesImmovable(s: State, t: Transfer, step: Verdicts.Step, emitted: bool)
    requires Obeys(s) && Agree(s, t) && !Movable(s, t) && Allowed(s, t, step) && IsVerdict(t, step)
    requires !Handle(s.system.books, step.event, step.now).reply.Thrown?
    ensures !Movable(Next(s, t, SystemMoves(step, emitted)), t)
  {
    VerdictsMoveTheReservation(s.system.books, t.tx, step.event.PaymentApproved?, step.now);
  }

  /** An account that is not there, or not active, is not active after any event. */
  lemma NobodyIsReactivated(b: Books, e: Event, now: int, account: Id)
    ensures IsActive(Handle(b, e, now).books, account) ==> IsActive(b, account)
  {
  }

  lemma OtherEventLeavesImmovable(s: State, t: Transfer, step: Verdicts.Step, emitted: bool)
    requires Agree(s, t) && !Movable(s, t) && Allowed(s, t, step) && step.AccountHandles? && !IsVerdict(t, step)
    ensures !Movable(Next(s, t, SystemMoves(step, emitted)), t)
  {
    NobodyIsReactivated(s.system.books, step.event, step.now, t.source);
    NobodyIsReactivated(s.system.books, step.event, step.now, t.target);
    OthersLeaveTheReservation(s.system.books, step.event, step.now, t.tx);
  }

  lemma RequestLeavesImmovable(s: State, t: Transfer, emitted: bool)
    requires Agree(s, t) && !Movable(s, t)
    ensures !Movable(Next(s, t, RequestHandled(emitted)), t)
  {
    RequestMovesTheReservation(s.system.books, t);
    if t.tx !in s.system.books.reservations {
      HeldIffCovered(s.system.books, t.tx, t.source, t.target, t.amount);
    }
  }

  lemma TellingLeavesImmovable(s: State, t: Transfer, e: Saga.InternalEvent)
    requires !Movable(s, t)
    ensures !Movable(Next(s, t, Told(e)), t)
  {
    Saga.ThrowsOnlyWhenEarly(s.record, e);
  }

  lemma ImmovableStays(s: State, t: Transfer, opening: map<Id, int>, step: Step)
    requires Inv(s, t, opening) && !Movable(s, t)
    ensures !Movable(Next(s, t, step), t)
  {
    NextKeeps(s, t, opening, step);
    match step
    case RequestHandled(emitted) => RequestLeavesImmovable(s, t, emitted);
    case SystemMoves(move, emitted) =>
      if Allowed(s, t, move) {
        if move.PaymentMoves? {
          PaymentStaysUnpayable(s, t, move.step, emitted);
        } else if IsVerdict(t, move) {
          VerdictIsSingle(s.system, opening, move.event, move.now);
          VerdictLeavesImmovable(s, t, move, emitted);
        } else {
          OtherEventLeavesImmovable(s, t, move, emitted);
        }
      }
    case Told(e) => TellingLeavesImmovable(s, t, e);
    case _ =>
  }

  lemma {:induction false} ImmovableForEver(s: State, t: Transfer, opening: map<Id, int>, steps: seq<Step>)
    requires Inv(s, t, opening) && !Movable(s, t)
    ensures !Moved(Run(s, t, steps), t)
    decreases |steps|
  {
    if steps == [] {
    } else {
      NextKeeps(s, t, opening, steps[0]);
      ImmovableStays(s, t, opening, steps[0]);
      ImmovableForEver(Next(s, t, steps[0]), t, opening, steps[1..]);
    }
  }

  // ------------------------------------------------------------- and back

  ghost predicate Reaches(s: State, t: Transfer, s': State) {
    exists steps: seq<Step> :: Run(s, t, steps) == s'
  }

  lemma RunSplits(s: State, t: Transfer, first: seq<Step>, rest: seq<Step>)
    ensures Run(s, t, first + rest) == Run(Run(s, t, first), t, rest)
  {
    Runs.Split((s: State, steps: seq<Step>) => Run(s, t, steps), (s: State, step: Step) => Next(s, t, step), s, first, rest);
  }

  lemma Then(s: State, t: Transfer, opening: map<Id, int>, middle: State, step: Step) returns (s': State)
    requires Reaches(s, t, middle) && Inv(middle, t, opening)
    ensures s' == Next(middle, t, step) && Reaches(s, t, s') && Inv(s', t, opening)
  {
    s' := Next(middle, t, step);
    NextKeeps(middle, t, opening, step);
    var steps :| Run(s, t, steps) == middle;
    RunSplits(s, t, steps, [step]);
    assert Run(s', t, [step][1..]) == s';
  }

  /** The books change, but not for this transfer, nor which accounts are active and what they charge. */
  ghost predicate OnlyFunds(s: State, s': State, t: Transfer) {
    && s' == s.(system := s.system.(books := s'.system.books))
    && StatusOf(s', t) == StatusOf(s, t)
    && forall a :: a in s.system.books.accounts ==>
         && a in s'.system.books.accounts
         && s'.system.books.accounts[a].active == s.system.books.accounts[a].active
         && s'.system.books.accounts[a].feeAmount == s.system.books.accounts[a].feeAmount
  }

  lemma DepositFunds(s: State, t: Transfer, account: Id) returns (step: Verdicts.Step)
    requires account in s.system.books.accounts && s.system.books.accounts[account].active && !s.system.thrown
    ensures var s' := Next(s, t, SystemMoves(step, false));
            && OnlyFunds(s, s', t)
            && s'.system.books.accounts[account].Available() == s.system.books.accounts[account].Available() + MAX_INTERBANK_AMOUNT
  {
    var b := s.system.books;
    var id := MapSums.FreshKey(b.ops);
    var deposit := DepositRequested(id, Some(account), Some(MAX_INTERBANK_AMOUNT), Gtq, Some(1));
    CreditedIffAcceptable(b, id, Some(account), Some(MAX_INTERBANK_AMOUNT), Gtq, Some(1), 0);
    step := Verdicts.AccountHandles(deposit, 0);
  }

  /** Enough deposits from other banks cover any amount. */
  lemma {:induction false} Fund(s: State, t: Transfer, opening: map<Id, int>, middle: State, account: Id, need: int) returns (s': State)
    requires Reaches(s, t, middle) && Inv(middle, t, opening)
    requires account in middle.system.books.accounts && middle.system.books.accounts[account].active
    ensures Reaches(s, t, s') && Inv(s', t, opening) && OnlyFunds(middle, s', t)
    ensures s'.system.books.accounts[account].Available() >= need
    decreases need - middle.system.books.accounts[account].Available()
  {
    if middle.system.books.accounts[account].Available() >= need {
      s' := middle;
    } else {
      var step := DepositFunds(middle, t, account);
      var funded := Then(s, t, opening, middle, SystemMoves(step, false));
      s' := Fund(s, t, opening, funded, account, need);
    }
  }

  lemma PublishedCloses(s: State, t: Transfer, opening: map<Id, int>, middle: State, v: Verdicts.Verdict) returns (s': State)
    requires Reaches(s, t, middle) && Inv(middle, t, opening)
    requires StatusOf(middle, t) == Some(Ledger.Reserved) && (t.tx, v) in middle.system.payments.published
    ensures Reaches(s, t, s') && StatusOf(s', t) == Some(ClosedAs(v))
  {
    var e := if v.Approved? then PaymentApproved(t.tx) else PaymentRejected(t.tx);
    VerdictIsSingle(middle.system, opening, e, 0);
    VerdictsMoveTheReservation(middle.system.books, t.tx, v.Approved?, 0);
    s' := Then(s, t, opening, middle, SystemMoves(Verdicts.AccountHandles(e, 0), false));
  }

  lemma SavedCloses(s: State, t: Transfer, opening: map<Id, int>, middle: State, v: Verdicts.Verdict, w: int) returns (s': State)
    requires Reaches(s, t, middle) && Inv(middle, t, opening) && StatusOf(middle, t) == Some(Ledger.Reserved)
    requires w in middle.system.payments.workers && middle.system.payments.workers[w] == Verdicts.Saved(t.tx, v)
    ensures Reaches(s, t, s') && StatusOf(s', t) == Some(ClosedAs(v))
  {
    s' := Then(s, t, opening, middle, SystemMoves(Verdicts.PaymentMoves(Verdicts.Publish(w)), false));
    s' := PublishedCloses(s, t, opening, s', v);
  }

  lemma UndecidedCloses(s: State, t: Transfer, opening: map<Id, int>, middle: State, v: Verdicts.Verdict) returns (s': State)
    requires Reaches(s, t, middle) && Inv(middle, t, opening) && StatusOf(middle, t) == Some(Ledger.Reserved)
    requires t.tx !in middle.system.payments.rows && NewsReserved in middle.news && (v.Approved? ==> t.Approvable())
    ensures Reaches(s, t, s') && StatusOf(s', t) == Some(ClosedAs(v))
  {
    var w := MapSums.FreshKey(middle.system.payments.workers);
    s' := Then(s, t, opening, middle, SystemMoves(Verdicts.PaymentMoves(Verdicts.Take(w, t.tx, v)), false));
    s' := Then(s, t, opening, s', SystemMoves(Verdicts.PaymentMoves(Verdicts.Save(w)), false));
    s' := SavedCloses(s, t, opening, s', v, w);
  }

  lemma OpenCloses(s: State, t: Transfer, opening: map<Id, int>, middle: State, v: Verdicts.Verdict) returns (s': State)
    requires Reaches(s, t, middle) && Inv(middle, t, opening)
    requires StatusOf(middle, t) == Some(Ledger.Reserved) && Open(middle, t, v)
    ensures Reaches(s, t, s') && StatusOf(s', t) == Some(ClosedAs(v))
  {
    if t.tx !in middle.system.payments.rows && NewsReserved in middle.news && (v.Approved? ==> t.Approvable()) {
      s' := UndecidedCloses(s, t, opening, middle, v);
    } else if (t.tx, v) in middle.system.payments.published {
      s' := PublishedCloses(s, t, opening, middle, v);
    } else {
      var w :| w in middle.system.payments.workers && middle.system.payments.workers[w] == Verdicts.Saved(t.tx, v);
      s' := SavedCloses(s, t, opening, middle, v, w);
    }
  }

  lemma IsGranted(s: State, t: Transfer, opening: map<Id, int>, middle: State) returns (s': State)
    requires Reaches(s, t, middle) && Inv(middle, t, opening) && StatusOf(middle, t).None? && middle.delivered > 0
    requires var accounts := middle.system.books.accounts;
             && t.source in accounts && t.target in accounts && accounts[t.source].active && accounts[t.target].active
             && accounts[t.source].Available() >= t.amount + accounts[t.source].Fee()
    ensures Reaches(s, t, s') && Inv(s', t, opening) && StatusOf(s', t) == Some(Ledger.Reserved) && NewsReserved in s'.news
    ensures s'.system.payments == middle.system.payments
  {
    HeldIffCovered(middle.system.books, t.tx, t.source, t.target, t.amount);
    RequestMovesTheReservation(middle.system.books, t);
    s' := Then(s, t, opening, middle, RequestHandled(true));
  }

  lemma IsHeld(s: State, t: Transfer, opening: map<Id, int>, middle: State) returns (s': State)
    requires Reaches(s, t, middle) && Inv(middle, t, opening)
    requires StatusOf(middle, t).None? && middle.delivered > 0
    requires IsActive(middle.system.books, t.source) && IsActive(middle.system.books, t.target) && t.Approvable()
    ensures Reaches(s, t, s') && Inv(s', t, opening) && StatusOf(s', t) == Some(Ledger.Reserved) && Open(s', t, Verdicts.Approved)
  {
    s' := Fund(s, t, opening, middle, t.source, t.amount + middle.system.books.accounts[t.source].Fee());
    assert t.tx !in middle.system.payments.rows;
    s' := IsGranted(s, t, opening, s');
  }

  lemma MovableMoves(s: State, t: Transfer, opening: map<Id, int>) returns (steps: seq<Step>)
    requires Inv(s, t, opening) && Movable(s, t)
    ensures Moved(Run(s, t, steps), t)
  {
    assert Run(s, t, []) == s;
    var m := s;
    if StatusOf(s, t).None? {
      if m.delivered == 0 {
        if !m.requested {
          m := Then(s, t, opening, m, TransferAsked(true, true));
        }
        m := Then(s, t, opening, m, RequestArrives);
      }
      m := IsHeld(s, t, opening, m);
    }
    if !Moved(m, t) {
      m := OpenCloses(s, t, opening, m, Verdicts.Approved);
    }
    steps :| Run(s, t, steps) == m;
  }

  predicate MovesBy(s: State, t: Transfer, steps: seq<Step>) {
    Moved(Run(s, t, steps), t)
  }

  /**
   In every reachable state, whatever the record says, the transfer's money has moved or still can exactly if:
   it is held and its approval is published, stored by a living worker, or open, with an amount in Payment's limits;
   or it is not held, its amount is in the limits, both accounts are active, and the request can still be delivered.
   */
  lemma MovableIff(start: State, t: Transfer, before: seq<Step>)
    requires Started(start)
    ensures var s := Run(start, t, before);
            (exists steps: seq<Step> :: MovesBy(s, t, steps)) <==> Movable(s, t)
  {
    var s, opening := Run(start, t, before), Balances(start.system.books);
    Reachable(start, t, before);
    if Movable(s, t) {
      var steps := MovableMoves(s, t, opening);
      assert MovesBy(s, t, steps);
    } else {
      forall steps: seq<Step> ensures !MovesBy(s, t, steps) {
        ImmovableForEver(s, t, opening, steps);
      }
    }
  }

  // ------------------------------------------------------------ held for ever

  ghost predicate Stuck(s: State, t: Transfer) {
    StatusOf(s, t) == Some(Ledger.Reserved) && !Open(s, t, Verdicts.Approved) && !Open(s, t, Verdicts.Declined)
  }

  lemma PaymentLeavesStuck(s: State, t: Transfer, step: Verdicts.PaymentStep, emitted: bool)
    requires Agree(s, t) && Stuck(s, t)
    ensures Stuck(Next(s, t, SystemMoves(Verdicts.PaymentMoves(step), emitted)), t)
  {
  }

  lemma AccountLeavesStuck(s: State, t: Transfer, e: Event, now: int, emitted: bool)
    requires Stuck(s, t)
    ensures Stuck(Next(s, t, SystemMoves(Verdicts.AccountHandles(e, now), emitted)), t)
  {
    if Allowed(s, t, Verdicts.AccountHandles(e, now)) {
      OthersLeaveTheReservation(s.system.books, e, now, t.tx);
    }
  }

  lemma StuckStays(s: State, t: Transfer, step: Step)
    requires Agree(s, t) && Stuck(s, t)
    ensures Stuck(Next(s, t, step), t)
  {
    match step
    case RequestHandled(_) => RequestMovesTheReservation(s.system.books, t);
    case SystemMoves(PaymentMoves(p), emitted) => PaymentLeavesStuck(s, t, p, emitted);
    case SystemMoves(AccountHandles(e, now), emitted) => AccountLeavesStuck(s, t, e, now, emitted);
    case _ =>
  }

  lemma {:induction false} StuckForEver(s: State, t: Transfer, opening: map<Id, int>, steps: seq<Step>)
    requires Inv(s, t, opening) && Stuck(s, t)
    ensures Stuck(Run(s, t, steps), t)
    decreases |steps|
  {
    if steps == [] {
    } else {
      NextKeeps(s, t, opening, steps[0]);
      StuckStays(s, t, steps[0]);
      StuckForEver(Next(s, t, steps[0]), t, opening, steps[1..]);
    }
  }

  predicate FreedBy(s: State, t: Transfer, steps: seq<Step>) {
    StatusOf(Run(s, t, steps), t) != Some(Ledger.Reserved)
  }

  /**
   Held funds can still be paid out or freed exactly if a verdict on them is published, stored by a living worker, or
   still open because Account has announced the reservation and no verdict is stored.
   */
  lemma FreeableIff(start: State, t: Transfer, before: seq<Step>)
    requires Started(start) && StatusOf(Run(start, t, before), t) == Some(Ledger.Reserved)
    ensures var s := Run(start, t, before);
            (exists steps: seq<Step> :: FreedBy(s, t, steps)) <==> Open(s, t, Verdicts.Approved) || Open(s, t, Verdicts.Declined)
  {
    var s, opening := Run(start, t, before), Balances(start.system.books);
    Reachable(start, t, before);
    if Stuck(s, t) {
      forall steps: seq<Step> ensures !FreedBy(s, t, steps) {
        StuckForEver(s, t, opening, steps);
      }
    } else {
      assert Run(s, t, []) == s;
      var s' := OpenCloses(s, t, opening, s, if Open(s, t, Verdicts.Approved) then Verdicts.Approved else Verdicts.Declined);
      var steps :| Run(s, t, steps) == s';
      assert FreedBy(s, t, steps);
    }
  }

  /** And a hold gets stuck without any verdict when Account dies between reserving and announcing. */
  lemma AnUnannouncedHoldIsStuck(amount: nat, limit: int) returns (start: State, t: Transfer, steps: seq<Step>)
    ensures Started(start) && t.amount == amount && t.limit == limit && Stuck(Run(start, t, steps), t)
  {
    t := Transfer(1, 10, 20, amount, limit);
    var books := Books(map[10 := Account(amount, 0, 0, None, true), 20 := Account(0, 0, 0, None, true)], map[], map[]);
    start := State(Verdicts.System(Verdicts.Payments(map[], map[], {}), books, false), Saga.OPENED, {}, false, false, false, 0, 0);
    steps := [TransferAsked(true, true), RequestArrives, RequestHandled(false)];
    RunThree(start, t, steps);
  }

  lemma RunThree(s: State, t: Transfer, steps: seq<Step>)
    requires |steps| == 3
    ensures Run(s, t, steps) == Next(Next(Next(s, t, steps[0]), t, steps[1]), t, steps[2])
  {
    var s1 := Next(s, t, steps[0]);
    var s2 := Next(s1, t, steps[1]);
    assert steps[1..][1..] == [steps[2]];
    assert Run(s2, t, [steps[2]]) == Run(Next(s2, t, steps[2]), t, [steps[2]][1..]);
  }

  // ------------------------------------------------------ a FAILED transfer

  /** FAILED is final. */
  lemma {:induction false} FailedStays(s: State, t: Transfer, steps: seq<Step>)
    requires s.record.status.Failed?
    ensures Run(s, t, steps).record == s.record && (s.unverified ==> Run(s, t, steps).unverified)
    decreases |steps|
  {
    if steps == [] {
    } else {
      FailedStays(Next(s, t, steps[0]), t, steps[1..]);
    }
  }

  /** A transfer refused for want of funds, FAILED in Transaction, whose request is on its way once more. */
  lemma FailsAndComesAgain(amount: nat, limit: int) returns (start: State, t: Transfer, steps: seq<Step>)
    requires 0 < amount <= limit
    ensures Started(start) && t.amount == amount && t.limit == limit
    ensures var s := Run(start, t, steps);
            && s.record.status.Failed? && StatusOf(s, t).None? && Deliverable(s)
            && IsActive(s.system.books, t.source) && IsActive(s.system.books, t.target)
  {
    t := Transfer(1, 10, 20, amount, limit);
    var books := Books(map[10 := Account(0, 0, 0, None, true), 20 := Account(0, 0, 0, None, true)], map[], map[]);
    start := State(Verdicts.System(Verdicts.Payments(map[], map[], {}), books, false), Saga.OPENED, {}, false, false, false, 0, 0);
    var asking, telling := [TransferAsked(true, true), RequestArrives, RequestHandled(true)], [Told(Saga.Refused(None))];
    RunThree(start, t, asking);
    var handled := Run(start, t, asking);
    assert handled.news == {NewsRejected};
    steps := asking + telling;
    RunSplits(start, t, asking, telling);
    assert Run(handled, t, telling) == Run(Next(handled, t, telling[0]), t, []);
  }

  /** A transfer FAILED because the customer was no longer verified when it was asked for again, its request under way. */
  lemma IsAskedAndFails(amount: nat, limit: int) returns (start: State, t: Transfer, steps: seq<Step>)
    ensures Started(start) && t.amount == amount && t.limit == limit
    ensures var s := Run(start, t, steps);
            && s.record.status.Failed? && s.unverified && s.news == {} && StatusOf(s, t).None? && Deliverable(s)
            && IsActive(s.system.books, t.source) && IsActive(s.system.books, t.target)
  {
    t := Transfer(1, 10, 20, amount, limit);
    var books := Books(map[10 := Account(0, 0, 0, None, true), 20 := Account(0, 0, 0, None, true)], map[], map[]);
    start := State(Verdicts.System(Verdicts.Payments(map[], map[], {}), books, false), Saga.OPENED, {}, false, false, false, 0, 0);
    steps := [TransferAsked(true, true), TransferAsked(false, false), TransferAsked(false, false)];
    RunThree(start, t, steps);
  }

  lemma FailedCanStillMove(start: State, t: Transfer, first: seq<Step>) returns (steps: seq<Step>)
    requires Started(start) && Run(start, t, first).record.status.Failed? && Movable(Run(start, t, first), t)
    ensures var s := Run(start, t, steps);
            s.record.status.Failed? && Moved(s, t) && (Run(start, t, first).unverified ==> s.unverified)
  {
    var s := Run(start, t, first);
    MovableIff(start, t, first);
    var rest: seq<Step> :| MovesBy(s, t, rest);
    FailedStays(s, t, rest);
    RunSplits(start, t, first, rest);
    steps := first + rest;
  }

  /** So a FAILED internal transfer can move its money: refused, delivered again, granted and completed. */
  lemma AFailedTransferCanMove(amount: nat, limit: int) returns (start: State, t: Transfer, steps: seq<Step>)
    requires 0 < amount <= limit
    ensures Started(start) && t.amount == amount && t.limit == limit
    ensures Run(start, t, steps).record.status.Failed? && Moved(Run(start, t, steps), t)
  {
    start, t, steps := FailsAndComesAgain(amount, limit);
    steps := FailedCanStillMove(start, t, steps);
  }

  /** And so can one FAILED for want of verification, if its request was made before. */
  lemma AnUnverifiedTransferCanMove(amount: nat, limit: int) returns (start: State, t: Transfer, steps: seq<Step>)
    requires 0 < amount <= limit
    ensures Started(start) && t.amount == amount && t.limit == limit
    ensures var s := Run(start, t, steps); s.record.status.Failed? && s.unverified && Moved(s, t)
  {
    start, t, steps := IsAskedAndFails(amount, limit);
    steps := FailedCanStillMove(start, t, steps);
  }
}
