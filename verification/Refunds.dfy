/**
 Reversals of deposits we received: Payment's reversal rows and refund transfers, Account's books, and
 the events between them, repeated and reordered at will. A refund's id is derived from the id of its
 reversal, so refunds are keyed by reversal.
 */
module Refunds {
  import opened Prelude
  import Runs
  import MapSums
  import opened Ledger
  import opened InterbankRules

  datatype Deposit = Deposit(amount: int, state: InState)
  datatype ReversalState = RevProcessing | RevCompleted | RevFailed
  /** A handler of an announced debit that found its reversal PROCESSING, and one that has stored the refund. */
  datatype Refunding = AboutToInsert(reversal: Id) | AboutToClose(reversal: Id)
  datatype Reversal = Reversal(original: Id, amount: int, state: ReversalState)

  datatype State = State(
    deposits: map<Id, Deposit>, reversals: map<Id, Reversal>, refunds: map<Id, int>, books: Books,
    requestedDeposits: set<Id>, requestedReversals: set<Id>, debited: set<(Id, int)>, failed: set<Id>,
    handlers: map<int, Refunding>)

  datatype Step =
    | DepositArrives(id: Id, amount: int)
    | DepositPublished(id: Id)
    | DepositResolved(id: Id, state: InState)
    | ReversalArrives(reversal: Id, original: Id, amount: int)
    | ReversalPublished(reversal: Id)
    | AccountHandles(event: Event, now: int, emitted: bool)
    | DebitArrives(handler: int, reversal: Id, taken: int)
    | RefundInserted(handler: int)
    | ReversalClosed(handler: int)
    | HandlerDies(handler: int)
    | ReversalGivenUp(reversal: Id)

  predicate Credited(b: Books, id: Id) {
    id in b.ops && b.ops[id].direction.Incoming? && (b.ops[id].status.OpCredited? || b.ops[id].status.OpRefunded?)
  }

  /** Account only sees the deposits and reversals that Payment published, with the amounts of their rows. */
  predicate Deliverable(s: State, e: Event) {
    && (e.DepositRequested? ==> e.id in s.requestedDeposits && e.id in s.deposits && e.requested == Some(s.deposits[e.id].amount))
    && (e.ReversalRequested? ==> e.reversal in s.requestedReversals && e.reversal in s.reversals
                                 && e.original == s.reversals[e.reversal].original)
  }

  function Next(s: State, step: Step): State {
    match step
    case DepositArrives(id, amount) =>
      if id in s.deposits then s else s.(deposits := s.deposits[id := Deposit(amount, Processing)])
    case DepositPublished(id) =>
      if id in s.deposits then s.(requestedDeposits := s.requestedDeposits + {id}) else s
    case DepositResolved(id, state) =>
      if id in s.deposits && s.deposits[id].state.Processing? && (state.InAccepted? ==> Credited(s.books, id)) then
        s.(deposits := s.deposits[id := s.deposits[id].(state := state)])
      else s
    case ReversalArrives(reversal, original, amount) =>
      if reversal !in s.reversals && original in s.deposits && s.deposits[original].state.InAccepted?
         && s.deposits[original].amount == amount then
        s.(reversals := s.reversals[reversal := Reversal(original, s.deposits[original].amount, RevProcessing)])
      else s
    case ReversalPublished(reversal) =>
      if reversal in s.reversals then s.(requestedReversals := s.requestedReversals + {reversal}) else s
    case AccountHandles(e, now, emitted) =>
      if !Deliverable(s, e) then s
      else
        var out := Handle(s.books, e, now);
        s.(books := out.books,
           debited := s.debited + (if emitted && e.ReversalRequested? && out.reply.ReversalDebited?
                                   then {(e.reversal, out.reply.amount)} else {}),
           failed := s.failed + (if emitted && e.ReversalRequested? && out.reply.ReversalFailed? then {e.reversal} else {}))
    case DebitArrives(h, reversal, taken) =>
      if h !in s.handlers && (reversal, taken) in s.debited && reversal in s.reversals
         && s.reversals[reversal].state.RevProcessing? && s.reversals[reversal].original in s.deposits then
        s.(handlers := s.handlers[h := AboutToInsert(reversal)])
      else s
    case RefundInserted(h) =>
      if h !in s.handlers || !s.handlers[h].AboutToInsert? then s
      else
        var reversal := s.handlers[h].reversal;
        var inserted := s.(handlers := s.handlers[h := AboutToClose(reversal)]);
        if reversal in s.refunds || reversal !in s.reversals || s.reversals[reversal].original !in s.deposits then inserted
        else inserted.(refunds := s.refunds[reversal := s.deposits[s.reversals[reversal].original].amount])
    case ReversalClosed(h) =>  // whatever state the reversal is in by now
      if h !in s.handlers || !s.handlers[h].AboutToClose? then s
      else
        var reversal := s.handlers[h].reversal;
        var done := s.(handlers := s.handlers - {h});
        if reversal !in s.reversals then done
        else done.(reversals := s.reversals[reversal := s.reversals[reversal].(state := RevCompleted)])
    case HandlerDies(h) => s.(handlers := s.handlers - {h})
    case ReversalGivenUp(reversal) =>
      if reversal in s.reversals && s.reversals[reversal].state.RevProcessing? && reversal in s.failed then
        s.(reversals := s.reversals[reversal := s.reversals[reversal].(state := RevFailed)])
      else s
  }

  function Run(s: State, steps: seq<Step>): State
    decreases |steps|
  {
    if steps == [] then s else Run(Next(s, steps[0]), steps[1..])
  }

  function Start(b: Books): State {
    State(map[], map[], map[], b, {}, {}, {}, {}, map[])
  }

  // ---------------------------------------------------------------- invariant

  /** Account moved the deposit from credited to refunded under this reversal, for this amount. */
  predicate RefundedUnder(b: Books, original: Id, reversal: Id, amount: int) {
    && original in b.ops && b.ops[original].direction.Incoming? && b.ops[original].status.OpRefunded?
    && b.ops[original].reversal == Some(reversal) && b.ops[original].amount == amount
  }

  /** Account refunds only what Payment asked it to, under the reversal that asked. */
  ghost predicate BooksFollow(s: State) {
    && (forall id :: Credited(s.books, id) ==> id in s.deposits && s.books.ops[id].amount == s.deposits[id].amount)
    && (forall id :: Credited(s.books, id) && s.books.ops[id].status.OpRefunded? ==>
          && s.books.ops[id].reversal.Some?
          && s.books.ops[id].reversal.value in s.requestedReversals && s.books.ops[id].reversal.value in s.reversals
          && s.reversals[s.books.ops[id].reversal.value].original == id)
  }

  ghost predicate PaymentFollows(s: State) {
    && (forall r :: r in s.reversals ==> s.reversals[r].original in s.deposits)
    && (forall t :: t in s.debited ==> t.0 in s.reversals && RefundedUnder(s.books, s.reversals[t.0].original, t.0, t.1))
    && (forall r :: r in s.refunds ==> r in s.reversals && RefundedUnder(s.books, s.reversals[r].original, r, s.refunds[r]))
    && (forall h :: h in s.handlers && s.handlers[h].AboutToInsert? ==>
          var r := s.handlers[h].reversal;
          r in s.reversals && s.reversals[r].original in s.deposits
          && RefundedUnder(s.books, s.reversals[r].original, r, s.deposits[s.reversals[r].original].amount))
  }

  ghost predicate Inv(s: State) {
    BooksFollow(s) && PaymentFollows(s)
  }

  /** How the books of an incoming operation can move: created, or refunded once and for good. */
  lemma IncomingOpMoves(b: Books, e: Event, now: int, id: Id)
    requires Credited(Handle(b, e, now).books, id)
    ensures var op' := Handle(b, e, now).books.ops[id];
            || (id in b.ops && op' == b.ops[id])
            || (id !in b.ops && e.DepositRequested? && e.id == id && op'.amount == OrZero(e.requested))
            || (id in b.ops && b.ops[id].status.OpCredited? && e.ReversalRequested? && e.original == id
                && op' == b.ops[id].(status := OpRefunded, reversal := Some(e.reversal)))
  {
  }

  lemma RefundedStays(b: Books, e: Event, now: int, original: Id, reversal: Id, amount: int)
    requires RefundedUnder(b, original, reversal, amount)
    ensures RefundedUnder(Handle(b, e, now).books, original, reversal, amount)
  {
  }

  lemma DebitedMeansRefunded(b: Books, reversal: Id, original: Id)
    requires Ledger.Reverse(b, reversal, original).reply.ReversalDebited?
    ensures var out := Ledger.Reverse(b, reversal, original);
            RefundedUnder(out.books, original, reversal, out.reply.amount)
  {
  }

  lemma AccountKeepsBooks(s: State, e: Event, now: int, emitted: bool)
    requires Inv(s) && Deliverable(s, e)
    ensures BooksFollow(Next(s, AccountHandles(e, now, emitted)))
  {
    var s' := Next(s, AccountHandles(e, now, emitted));
    forall id | Credited(s'.books, id) ensures id in s'.deposits && s'.books.ops[id].amount == s'.deposits[id].amount {
      IncomingOpMoves(s.books, e, now, id);
      assert id in s.books.ops ==> Credited(s.books, id);
    }
    forall id | Credited(s'.books, id) && s'.books.ops[id].status.OpRefunded?
      ensures var under := s'.books.ops[id].reversal;
              under.Some? && under.value in s'.requestedReversals && under.value in s'.reversals && s'.reversals[under.value].original == id
    {
      IncomingOpMoves(s.books, e, now, id);
      if id !in s.books.ops {
        FreshDepositsAreNotRefunded(s.books, e, now, id);
      }
    }
  }

  lemma FreshDepositsAreNotRefunded(b: Books, e: Event, now: int, id: Id)
    requires id !in b.ops && id in Handle(b, e, now).books.ops
    ensures !Handle(b, e, now).books.ops[id].status.OpRefunded?
  {
  }

  lemma AccountKeepsPayment(s: State, e: Event, now: int, emitted: bool)
    requires Inv(s) && Deliverable(s, e)
    ensures PaymentFollows(Next(s, AccountHandles(e, now, emitted)))
  {
    var s' := Next(s, AccountHandles(e, now, emitted));
    forall t | t in s'.debited ensures t.0 in s'.reversals && RefundedUnder(s'.books, s'.reversals[t.0].original, t.0, t.1) {
      if t in s.debited {
        RefundedStays(s.books, e, now, s.reversals[t.0].original, t.0, t.1);
      } else {
        DebitedMeansRefunded(s.books, e.reversal, e.original);
      }
    }
    forall r | r in s'.refunds ensures r in s'.reversals && RefundedUnder(s'.books, s'.reversals[r].original, r, s'.refunds[r]) {
      RefundedStays(s.books, e, now, s.reversals[r].original, r, s.refunds[r]);
    }
    forall h | h in s'.handlers && s'.handlers[h].AboutToInsert?
      ensures var r := s'.handlers[h].reversal;
              RefundedUnder(s'.books, s'.reversals[r].original, r, s'.deposits[s'.reversals[r].original].amount)
    {
      var r := s.handlers[h].reversal;
      RefundedStays(s.books, e, now, s.reversals[r].original, r, s.deposits[s.reversals[r].original].amount);
    }
  }

  lemma NextKeeps(s: State, step: Step)
    requires Inv(s)
    ensures Inv(Next(s, step))
  {
    if step.AccountHandles? {
      if Deliverable(s, step.event) {
        AccountKeepsBooks(s, step.event, step.now, step.emitted);
        AccountKeepsPayment(s, step.event, step.now, step.emitted);
      }
    } else if step.DebitArrives? {
      DebitArrivesKeeps(s, step);
    } else if step.RefundInserted? {
      RefundInsertedKeeps(s, step);
    } else if step.DepositArrives? || step.DepositPublished? || step.DepositResolved? {
      DepositStepKeeps(s, step);
    } else {
      ReversalStepKeeps(s, step);
    }
  }

  lemma DebitArrivesKeeps(s: State, step: Step)
    requires Inv(s) && step.DebitArrives?
    ensures Inv(Next(s, step))
  {
    if Next(s, step) != s {
      assert RefundedUnder(s.books, s.reversals[step.reversal].original, step.reversal, step.taken);
      assert Credited(s.books, s.reversals[step.reversal].original);
    }
  }

  lemma RefundInsertedKeeps(s: State, step: Step)
    requires Inv(s) && step.RefundInserted?
    ensures Inv(Next(s, step))
  {
  }

  lemma DepositStepKeeps(s: State, step: Step)
    requires Inv(s) && (step.DepositArrives? || step.DepositPublished? || step.DepositResolved?)
    ensures Inv(Next(s, step))
  {
  }

  lemma ReversalStepKeeps(s: State, step: Step)
    requires Inv(s)
    requires step.ReversalArrives? || step.ReversalPublished? || step.ReversalClosed? || step.ReversalGivenUp? || step.HandlerDies?
    ensures Inv(Next(s, step))
  {
  }

  lemma {:induction false} RunKeeps(s: State, steps: seq<Step>)
    requires Inv(s)
    ensures Inv(Run(s, steps))
    decreases |steps|
  {
    if steps == [] {
    } else {
      NextKeeps(s, steps[0]);
      RunKeeps(Next(s, steps[0]), steps[1..]);
    }
  }

  // -------------------------------------------------------------- main results

  /** A refund exists only if Account took that amount back, under that very reversal. */
  lemma RefundsAreDebited(b: Books, steps: seq<Step>, reversal: Id)
    requires forall id :: !Credited(b, id)
    requires reversal in Run(Start(b), steps).refunds
    ensures var s := Run(Start(b), steps);
            && reversal in s.reversals
            && var original := s.reversals[reversal].original;
               && RefundedUnder(s.books, original, reversal, s.refunds[reversal])
               && original in s.deposits && s.deposits[original].amount == s.refunds[reversal]
  {
    RunKeeps(Start(b), steps);
    var s := Run(Start(b), steps);
    assert Credited(s.books, s.reversals[reversal].original);
  }

  /** Whatever reversal ids are used and however events repeat, a deposit is refunded at most once. */
  lemma AtMostOneRefund(b: Books, steps: seq<Step>, one: Id, other: Id)
    requires forall id :: !Credited(b, id)
    requires var s := Run(Start(b), steps);
             && one in s.refunds && other in s.refunds && one in s.reversals && other in s.reversals
             && s.reversals[one].original == s.reversals[other].original
    ensures one == other
  {
    RunKeeps(Start(b), steps);
  }

  // ------------------------------------------------- debits without a refund

  predicate InFlight(s: State, reversal: Id) {
    exists h :: h in s.handlers && s.handlers[h] == AboutToInsert(reversal)
  }

  predicate Refundable(s: State, reversal: Id) {
    || reversal in s.refunds
    || (reversal in s.reversals && s.reversals[reversal].state.RevProcessing?)
    || InFlight(s, reversal)
  }

  lemma LostStaysLost(s: State, step: Step, reversal: Id)
    requires reversal in s.reversals && !Refundable(s, reversal)
    ensures reversal in Next(s, step).reversals && !Refundable(Next(s, step), reversal)
  {
    var s' := Next(s, step);
    assert forall h :: h in s.handlers ==> s.handlers[h] != AboutToInsert(reversal);
    forall h | h in s'.handlers ensures s'.handlers[h] != AboutToInsert(reversal) {
    }
  }

  lemma {:induction false} LostForEver(s: State, steps: seq<Step>, reversal: Id)
    requires reversal in s.reversals && !Refundable(s, reversal)
    ensures reversal !in Run(s, steps).refunds
    decreases |steps|
  {
    if steps == [] {
    } else {
      LostStaysLost(s, steps[0], reversal);
      LostForEver(Next(s, steps[0]), steps[1..], reversal);
    }
  }

  lemma RunTwo(s: State, one: Step, two: Step)
    ensures Run(s, [one, two]) == Next(Next(s, one), two)
  {
    assert [one, two][1..] == [two] && [two][1..] == [];
    assert Run(Next(s, one), [two]) == Run(Next(Next(s, one), two), []);
  }

  lemma AnnouncedIsRefunded(s: State, reversal: Id, taken: int) returns (steps: seq<Step>)
    requires Inv(s) && reversal in s.reversals && s.reversals[reversal].state.RevProcessing? && (reversal, taken) in s.debited
    ensures reversal in Run(s, steps).refunds
  {
    var h := MapSums.FreshKey(s.handlers);
    steps := [DebitArrives(h, reversal, taken), RefundInserted(h)];
    RunTwo(s, steps[0], steps[1]);
  }

  /** A PROCESSING reversal that Account has debited is refunded, once it has been announced if it was not. */
  lemma ProcessingIsRefunded(s: State, reversal: Id, taken: int) returns (steps: seq<Step>)
    requires Inv(s) && reversal in s.reversals && s.reversals[reversal].state.RevProcessing?
    requires RefundedUnder(s.books, s.reversals[reversal].original, reversal, taken)
    ensures reversal in Run(s, steps).refunds
  {
    if (reversal, taken) in s.debited {
      steps := AnnouncedIsRefunded(s, reversal, taken);
    } else {
      var original := s.reversals[reversal].original;
      assert Credited(s.books, original);
      var again := AccountHandles(ReversalRequested(reversal, original), 0, true);
      NextKeeps(s, again);
      var rest := AnnouncedIsRefunded(Next(s, again), reversal, taken);
      steps := [again] + rest;
      assert steps[1..] == rest;
    }
  }

  /** A handler that nothing disturbs stores the refund, with the amount of the deposit, and completes the reversal. */
  lemma RefundingCompletes(s: State, handler: int)
    requires Inv(s) && handler in s.handlers && s.handlers[handler].AboutToInsert?
    ensures var s', reversal := Next(Next(s, RefundInserted(handler)), ReversalClosed(handler)), s.handlers[handler].reversal;
            && reversal in s'.refunds && s'.refunds[reversal] == s.deposits[s.reversals[reversal].original].amount
            && s'.reversals == s.reversals[reversal := Reversal(s.reversals[reversal].original, s.reversals[reversal].amount, RevCompleted)]
            && handler !in s'.handlers
  {
    var s1, reversal := Next(s, RefundInserted(handler)), s.handlers[handler].reversal;
    assert s1.reversals == s.reversals && s1.handlers[handler] == AboutToClose(reversal);
  }

  lemma InFlightIsRefunded(s: State, reversal: Id) returns (steps: seq<Step>)
    requires Inv(s) && InFlight(s, reversal)
    ensures reversal in Run(s, steps).refunds
  {
    var h :| h in s.handlers && s.handlers[h] == AboutToInsert(reversal);
    var insert := RefundInserted(h);
    steps := [insert];
    assert Run(s, steps) == Run(Next(s, insert), []);
  }

  /**
   In every reachable state in which Account has taken a deposit back, a refund can still be sent exactly if
   there is one, or the reversal is still PROCESSING, or a handler that saw it so is about to store the refund.
   */
  lemma RefundableIff(b: Books, before: seq<Step>, reversal: Id, taken: int)
    requires forall id :: !Credited(b, id)
    requires var s := Run(Start(b), before);
             reversal in s.reversals && RefundedUnder(s.books, s.reversals[reversal].original, reversal, taken)
    ensures var s := Run(Start(b), before);
            (exists steps: seq<Step> :: reversal in Run(s, steps).refunds) <==> Refundable(s, reversal)
  {
    var s := Run(Start(b), before);
    RunKeeps(Start(b), before);
    if !Refundable(s, reversal) {
      forall steps: seq<Step> ensures reversal !in Run(s, steps).refunds {
        LostForEver(s, steps, reversal);
      }
    } else if reversal in s.refunds {
      assert reversal in Run(s, []).refunds;
    } else if s.reversals[reversal].state.RevProcessing? {
      var steps := ProcessingIsRefunded(s, reversal, taken);
    } else {
      var steps := InFlightIsRefunded(s, reversal);
    }
  }

  lemma RunSplits(s: State, first: seq<Step>, rest: seq<Step>)
    ensures Run(s, first + rest) == Run(Run(s, first), rest)
  {
    Runs.Split((s: State, steps: seq<Step>) => Run(s, steps), (s: State, step: Step) => Next(s, step), s, first, rest);
  }

  /** One account with nothing in it. */
  function OneAccount(): Books {
    Books(map[10 := Account(0, 0, 0, None, true)], map[], map[])
  }

  lemma Then(steps: seq<Step>, step: Step) returns (longer: seq<Step>)
    ensures Run(Start(OneAccount()), longer) == Next(Run(Start(OneAccount()), steps), step)
  {
    longer := steps + [step];
    RunSplits(Start(OneAccount()), steps, [step]);
    var s := Next(Run(Start(OneAccount()), steps), step);
    assert Run(s, [step][1..]) == s;
  }

  /** The deposit 1 of 50 is credited to account 10, accepted, and asked back under reversal 2. */
  predicate AskedBack(s: State) {
    && s.reversals == map[2 := Reversal(1, 50, RevProcessing)] && s.requestedReversals == {2} && s.refunds == map[] && s.handlers == map[]
    && s.books.ops == map[1 := Op(Incoming, Some(10), 50, 0, OpCredited, None, None)]
    && s.books.accounts == map[10 := Account(50, 0, 0, None, true)]
  }

  lemma AcceptsDeposit() returns (steps: seq<Step>)
    ensures var s := Run(Start(OneAccount()), steps);
            && s.deposits == map[1 := Deposit(50, InAccepted)] && s.reversals == map[] && s.requestedReversals == {}
            && s.refunds == map[] && s.handlers == map[]
            && s.books.ops == map[1 := Op(Incoming, Some(10), 50, 0, OpCredited, None, None)]
            && s.books.accounts == map[10 := Account(50, 0, 0, None, true)]
  {
    steps := Then([], DepositArrives(1, 50));
    steps := Then(steps, DepositPublished(1));
    steps := Then(steps, AccountHandles(DepositRequested(1, Some(10), Some(50), Gtq, Some(100)), 0, true));
    steps := Then(steps, DepositResolved(1, InAccepted));
  }

  lemma AsksBack() returns (steps: seq<Step>)
    ensures AskedBack(Run(Start(OneAccount()), steps))
  {
    steps := AcceptsDeposit();
    steps := Then(steps, ReversalArrives(2, 1, 50));
    steps := Then(steps, ReversalPublished(2));
  }

  lemma HoldsEverything() returns (steps: seq<Step>)
    ensures var s := Run(Start(OneAccount()), steps);
            && s.reversals == map[2 := Reversal(1, 50, RevProcessing)] && s.requestedReversals == {2} && s.refunds == map[] && s.handlers == map[]
            && s.books.accounts == map[10 := Account(50, 50, 0, None, true)]
            && s.books.ops == map[1 := Op(Incoming, Some(10), 50, 0, OpCredited, None, None),
                                  7 := Op(Outgoing, Some(10), 50, 0, OpReserved, None, None)]
  {
    steps := AsksBack();
    steps := Then(steps, AccountHandles(TransferRequested(7, 10, Some(50), Gtq), 0, true));
  }

  lemma GivesUp() returns (steps: seq<Step>)
    ensures var s := Run(Start(OneAccount()), steps);
            && s.reversals == map[2 := Reversal(1, 50, RevFailed)] && s.requestedReversals == {2} && s.refunds == map[] && s.handlers == map[]
            && s.books.accounts == map[10 := Account(50, 50, 0, None, true)]
            && s.books.ops == map[1 := Op(Incoming, Some(10), 50, 0, OpCredited, None, None),
                                  7 := Op(Outgoing, Some(10), 50, 0, OpReserved, None, None)]
  {
    steps := HoldsEverything();
    steps := Then(steps, AccountHandles(ReversalRequested(2, 1), 0, true));
    steps := Then(steps, ReversalGivenUp(2));
  }

  /**
   It happens: while all funds are held the reversal fails and is given up; the hold is released, the request is
   delivered again, and Account debits the customer for a reversal that will never be refunded.
   */
  lemma ADebitCanGoUnrefunded() returns (steps: seq<Step>)
    ensures var s := Run(Start(OneAccount()), steps);
            2 in s.reversals && RefundedUnder(s.books, 1, 2, 50) && (2, 50) in s.debited && !Refundable(s, 2)
  {
    steps := GivesUp();
    steps := Then(steps, AccountHandles(TransferRefused(7, None), 0, true));
    steps := Then(steps, AccountHandles(ReversalRequested(2, 1), 0, true));
  }
}
