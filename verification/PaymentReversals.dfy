/**
 Payment's handlers of reversals of deposits we received, as they run: what is asked back, what is refused, and
 what is refunded to whom. Module Refunds lets everything happen between their steps.
 */
module PaymentReversals {
  import opened Prelude
  import opened Refunds

  /** A deposit we received, as far as reversals look at it. */
  datatype Received = Received(partner: int, origin: int, destination: int, amount: int, accepted: bool)

  datatype ReversalRow = ReversalRow(
    original: int, partner: int, amount: int, state: ReversalState, refund: Option<int>, reason: Option<int>, pendingEvent: bool)

  /** A refund is a deposit the other way. */
  datatype Refund = Refund(partner: int, origin: int, destination: int, amount: int)

  datatype Asked = Asked(reversal: int, original: int, amount: int)

  class ReversalTable {
    var deposits: map<int, Received>
    var reversals: map<int, ReversalRow>
    var refunds: map<int, Refund>  // by reversal
    var published: seq<Asked>

    constructor (deposits: map<int, Received>)
      ensures this.deposits == deposits && reversals == map[] && refunds == map[] && published == [] && Valid()
    {
      this.deposits, reversals, refunds, published := deposits, map[], map[], [];
    }

    /** Every refund goes back the way its deposit came, with the whole amount; every reversal is of a deposit, for its bank and amount. */
    ghost predicate Valid()
      reads this
    {
      && (forall id :: id in reversals ==>
            && reversals[id].original in deposits
            && reversals[id].partner == deposits[reversals[id].original].partner
            && reversals[id].amount == deposits[reversals[id].original].amount)
      && (forall id :: id in refunds ==> id in reversals && SentBack(refunds[id], deposits[reversals[id].original]))
    }

    predicate SentBack(refund: Refund, deposit: Received) {
      && refund.partner == deposit.partner && refund.amount == deposit.amount
      && refund.origin == deposit.destination && refund.destination == deposit.origin
    }

    /** POST of a reversal; the answer is the HTTP status. */
    method RequestReversal(caller: int, id: int, original: int, amount: int, wellFormed: bool, brokerWorks: bool) returns (code: int)
      requires Valid()
      modifies this
      ensures Valid() && deposits == old(deposits) && refunds == old(refunds)
      ensures code == 400 || code == 404 || code == 409 || code == 202
      ensures id in old(reversals) && wellFormed ==>
        (code == 202 <==> old(reversals)[id].partner == caller && old(reversals)[id].original == original)
        && (code == 409 <==> code != 202)
      ensures id !in old(reversals) && wellFormed ==>
        && (code == 404 <==> original !in deposits || deposits[original].partner != caller || !deposits[original].accepted)
        && (code == 400 <==> code != 404 && deposits[original].amount != amount)
        && code != 409
      ensures !wellFormed ==> code == 400
      ensures wellFormed && id !in old(reversals) && code == 202 ==>
        && id in reversals && reversals == old(reversals)[id := reversals[id]]
        && reversals[id] == ReversalRow(original, caller, amount, RevProcessing, None, None, !brokerWorks)
        && published == old(published) + (if brokerWorks then [Asked(id, original, amount)] else [])
      ensures !wellFormed || id in old(reversals) || code != 202 ==> reversals == old(reversals) && published == old(published)
    {
      if !wellFormed {
        return 400;
      }
      if id in reversals {
        return if reversals[id].partner != caller || reversals[id].original != original then 409 else 202;
      }
      if original !in deposits || deposits[original].partner != caller || !deposits[original].accepted {
        return 404;
      }
      if deposits[original].amount != amount {
        return 400;
      }
      reversals := reversals[id := ReversalRow(original, caller, deposits[original].amount, RevProcessing, None, None, true)];
      FlushReversal(id, brokerWorks);
      return 202;
    }

    /** Asks Account, while the reversal is PROCESSING and its request pending. */
    method FlushReversal(id: int, brokerWorks: bool)
      requires Valid()
      modifies this`reversals, this`published
      ensures Valid()
      ensures var asks := brokerWorks && id in old(reversals) && old(reversals)[id].pendingEvent && old(reversals)[id].state.RevProcessing?;
              && published == old(published)
                              + (if asks then [Asked(id, old(reversals)[id].original, old(reversals)[id].amount)] else [])
              && reversals == if asks then old(reversals)[id := old(reversals)[id].(pendingEvent := false)] else old(reversals)
    {
      if id !in reversals || !reversals[id].pendingEvent || !reversals[id].state.RevProcessing? || !brokerWorks {
        return;
      }
      published := published + [Asked(id, reversals[id].original, reversals[id].amount)];
      reversals := reversals[id := reversals[id].(pendingEvent := false)];
    }

    /** Account has taken the deposit back: the refund is stored, once, and the reversal completed. */
    method OnReversalDebited(id: int)
      requires Valid()
      modifies this`reversals, this`refunds
      ensures Valid()
      ensures var runs := id in old(reversals) && old(reversals)[id].state.RevProcessing?;
              && (!runs ==> reversals == old(reversals) && refunds == old(refunds))
              && (runs ==>
                    && reversals == old(reversals)[id := old(reversals)[id].(state := RevCompleted, refund := Some(id), pendingEvent := false)]
                    && id in refunds && SentBack(refunds[id], deposits[old(reversals)[id].original])
                    && refunds == if id in old(refunds) then old(refunds) else old(refunds)[id := refunds[id]])
    {
      if id !in reversals || !reversals[id].state.RevProcessing? {
        return;
      }
      var original := deposits[reversals[id].original];
      if id !in refunds {
        refunds := refunds[id := Refund(original.partner, original.destination, original.origin, original.amount)];
      }
      reversals := reversals[id := reversals[id].(state := RevCompleted, refund := Some(id), pendingEvent := false)];
    }

    /** Account could not: the reversal fails, unless it has ended already. */
    method OnReversalFailed(id: int, reason: int)
      requires Valid()
      modifies this`reversals
      ensures Valid()
      ensures reversals == if id in old(reversals) && old(reversals)[id].state.RevProcessing?
                           then old(reversals)[id := old(reversals)[id].(state := RevFailed, reason := Some(reason))] else old(reversals)
    {
      if id in reversals && reversals[id].state.RevProcessing? {
        reversals := reversals[id := reversals[id].(state := RevFailed, reason := Some(reason))];
      }
    }
  }
}
