/** What an outbound deposit tells the Transaction service always adds up to one of the saga's histories. */
module DepositSaga {
  import opened Prelude
  import opened InterbankRules
  import Ledger
  import Deposit
  import DepositSafety
  import Saga

  /** The event has been published, by Account or from Payment's outbox. */
  predicate Emits(o: Deposit.Ours, e: Saga.Event) {
    match e
    case FundsReserved => Deposit.FundsReservedSent in o.accountEvents
    case FundsRejected(_) => Deposit.FundsRejectedSent in o.accountEvents
    case TransferSent => Sent in o.published
    case TransferTimeout => Timeout in o.published
    case TransferAccepted => Accepted in o.published
    case TransferRejected(_) => Rejected in o.published
    case TransferReversed(_) => Reversed in o.published
    case DebitDone => Deposit.CompletedSent in o.accountEvents
    case FundsReleased => Deposit.ReleasedSent in o.accountEvents
  }

  function HistoryOf(o: Deposit.Ours): Saga.History {
    if o.row.Some? && o.row.value.state.Rejected? then Saga.WasRejected
    else if o.row.Some? && o.row.value.state.Reversed? then Saga.WasReversed
    else Saga.WasAccepted
  }

  /** Once funds were reserved, everything published belongs to the one history of the row's final state. */
  lemma EventsFormAHistory(cfg: Deposit.Config, began: int, steps: seq<Deposit.Step>, e: Saga.Event)
    requires Emits(Deposit.Run(Deposit.Start(began), cfg, steps).side.ours, e)
    ensures var o := Deposit.Run(Deposit.Start(began), cfg, steps).side.ours;
            Saga.Belongs(e, HistoryOf(o)) || (e.FundsRejected? && o.op == Some(Ledger.OpRejected))
  {
    DepositSafety.Reachable(cfg, began, steps);
  }

  /**
   However the events of a run are delivered, once its settlement is among them the saga ends where the
   money did: COMPLETED if the customer was debited, publicly FAILED if the funds were released.
   */
  lemma SagaEndsWithTheMoney(cfg: Deposit.Config, began: int, steps: seq<Deposit.Step>, events: seq<Saga.Event>)
    requires var o := Deposit.Run(Deposit.Start(began), cfg, steps).side.ours;
             forall i :: 0 <= i < |events| ==> Emits(o, events[i])
    requires exists i :: 0 <= i < |events| && Saga.Settles(events[i])
    ensures var o := Deposit.Run(Deposit.Start(began), cfg, steps).side.ours;
            var r := Saga.TellAll(Saga.BEGINNING, events).record;
            && (o.op == Some(Ledger.OpDebited) <==> r.status == Saga.Completed)
            && (o.op == Some(Ledger.OpReleased) <==> Saga.ToPublic(r.status) == Saga.PublicFailed)
  {
    var o := Deposit.Run(Deposit.Start(began), cfg, steps).side.ours;
    DepositSafety.Reachable(cfg, began, steps);
    var k :| 0 <= k < |events| && Saga.Settles(events[k]);
    assert Emits(o, events[k]);
    forall i | 0 <= i < |events| ensures Saga.Belongs(events[i], HistoryOf(o)) {
      EventsFormAHistory(cfg, began, steps, events[i]);
    }
    Saga.Confluence(events, HistoryOf(o));
  }
}
