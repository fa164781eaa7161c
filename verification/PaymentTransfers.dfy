/**
 Payment's outbound handlers as they run: the row read, the partner's answer, the conditional update.
 Each is proved to update the table as the function of the same name in module Outbound says.
 */
module PaymentTransfers {
  import opened Prelude
  import opened InterbankRules
  import opened Outbound

  datatype SendOutcome = WasSent | WillRetry | WasRejected

  datatype CallbackReply = NotFound | Unauthorized | Received

  /** The part of a transfer that never changes. */
  datatype Terms = Terms(partner: int, amount: int)

  /** What the partner is asked to give back; one request for each transfer, its id derived from the transfer's. */
  datatype ReversalRequest = ReversalRequest(original: int, partner: int, amount: int)

  predicate AsksBack(request: ReversalRequest, id: int, terms: Terms) {
    request.original == id && request.partner == terms.partner && request.amount == terms.amount
  }

  class TransferTable {
    const terms: map<int, Terms>
    var rows: map<int, OutRow>
    var reversals: map<int, ReversalRequest>
    var published: seq<(int, OutState)>

    constructor (terms: map<int, Terms>)
      ensures this.terms == terms && rows == map[] && reversals == map[] && published == []
    {
      this.terms, rows, reversals, published := terms, map[], map[], [];
    }

    /** `UPDATE ... WHERE id AND state IN (from)`: `patched` is the row with the changes applied. */
    method Transition(id: int, from: set<OutState>, patched: OutRow) returns (ok: bool)
      modifies this`rows
      ensures ok <==> id in old(rows) && old(rows)[id].state in from
      ensures rows == if ok then old(rows)[id := patched.(lockedUntil := None)] else old(rows)
    {
      ok := id in rows && rows[id].state in from;
      if ok {
        rows := rows[id := patched.(lockedUntil := None)];
      }
    }

    method FinalizeOut(id: int, from: set<OutState>, next: OutState, reason: Option<ReasonCode>) returns (ok: bool)
      modifies this`rows
      ensures ok <==> id in old(rows) && old(rows)[id].state in from
      ensures rows == if id in old(rows) then old(rows)[id := Finalize(old(rows)[id], from, next, reason)] else old(rows)
    {
      if id !in rows {
        return false;
      }
      var current := rows[id];
      ok := Transition(id, from, current.(state := next, reason := if reason.Some? then reason else current.reason,
                                          timeoutStep := None, pendingEvent := !current.isRefund));
    }

    method AfterSend(id: int, seen: OutRow, res: Http, now: int) returns (outcome: SendOutcome)
      requires id in rows && seen.isRefund == rows[id].isRefund
      modifies this`rows
      ensures rows == old(rows)[id := Outbound.AfterSend(old(rows)[id], seen, res, now)]
      ensures outcome.WillRetry? <==> res.NetworkError? || (res.Answer? && (res.status == 0 || res.status == 429 || res.status >= 500))
      ensures outcome.WasSent? <==> res.Answer? && (res.status == 200 || res.status == 202 || res.status == 409)
    {
      var row := rows[id];
      if res.NotConfigured? {
        var _ := FinalizeOut(id, {Pending}, Rejected, Some(ProcessingFailure));
        return WasRejected;
      }
      if res.NetworkError? || res.status >= 500 || res.status == 429 || res.status == 0 {
        rows := rows[id := row.(sendAttempts := seen.sendAttempts + 1,
                                nextAttemptAt := Some(now + BackoffMs(seen.sendAttempts, 2000, 60_000)), lockedUntil := None)];
        return WillRetry;
      }
      var sent := row.(state := Sent, sendAttempts := seen.sendAttempts + 1, pendingEvent := !seen.isRefund);
      if res.status == 202 || res.status == 409 {
        var _ := Transition(id, {Pending}, sent);
        return WasSent;
      }
      if res.status == 200 {
        if res.word.WAccepted? {
          var _ := FinalizeOut(id, {Pending, Sent}, Accepted, None);
        } else if res.word.WRejected? || res.word.WCancelled? {
          var _ := FinalizeOut(id, {Pending, Sent}, Rejected, Some(ReasonOf(res.code)));
        } else {
          var _ := Transition(id, {Pending}, sent);
        }
        return WasSent;
      }
      var _ := FinalizeOut(id, {Pending}, Rejected, Some(if res.status == 422 then MessageExpired else ProcessingFailure));
      return WasRejected;
    }

    method ResolveTimeout(id: int, seen: OutRow, res: Http, now: int, cfg: Settings)
      requires id in rows
      modifies this`rows
      ensures rows == old(rows)[id := Outbound.ResolveTimeout(old(rows)[id], seen, res, now, cfg)]
    {
      if MarginExpired(seen.expiresAt, now, cfg.marginSeconds) {
        var _ := FinalizeOut(id, {Timeout}, Reversed, Some(TimeoutNoResponse));
        return;
      }
      var cancelling := seen.timeoutStep == Some(Cancel);
      var resolution := if cancelling then ResolveCancel(res) else ResolveQuery(res);
      match resolution {
        case MustAccept =>
          var _ := FinalizeOut(id, {Timeout}, Accepted, None);
        case MustRelease =>
          var _ := FinalizeOut(id, {Timeout}, Reversed, Some(TimeoutConfirmed));
        case MustCancel =>
          rows := rows[id := ToCancelStep(rows[id], now)];
        case MustRetry =>
          var attempts := seen.stepAttempts + 1;
          if !cancelling && attempts >= cfg.queryAttempts {
            rows := rows[id := ToCancelStep(rows[id], now)];
          } else {
            rows := rows[id := rows[id].(stepAttempts := attempts,
                                         nextAttemptAt := Some(now + BackoffMs(attempts - 1, 2000, 30_000)), lockedUntil := None)];
          }
      }
    }

    /** Holds the row for half a minute, unless another worker does. */
    method Claim(id: int, now: int) returns (ok: bool)
      modifies this`rows
      ensures ok <==> id in old(rows) && (old(rows)[id].lockedUntil.None? || old(rows)[id].lockedUntil.value <= now)
      ensures rows == if ok then old(rows)[id := old(rows)[id].(lockedUntil := Some(now + 30_000))] else old(rows)
    {
      ok := id in rows && (rows[id].lockedUntil.None? || rows[id].lockedUntil.value <= now);
      if ok {
        rows := rows[id := rows[id].(lockedUntil := Some(now + HTTP_LOCK_MS))];
      }
    }

    /** Whether the broker is told of the state. */
    predicate IsAnnounced(row: OutRow) {
      !row.isRefund && (row.state.Sent? || row.state.Timeout? || row.state.Accepted? || row.state.Rejected? || row.state.Reversed?)
    }

    /**
     Read, publish, clear. `others` is what everybody else does to the row before it is cleared; a state change leaves
     its own event pending, and is not cleared away. Nothing happens when the broker is down.
     */
    method FlushRow(id: int, brokerWorks: bool, others: OutRow -> OutRow)
      requires forall row :: Climbs(row, others(row)) && (others(row).state != row.state ==> others(row).pendingEvent == !row.isRefund)
      modifies this`rows, this`published
      ensures id !in old(rows) || !old(rows)[id].pendingEvent || (!brokerWorks && IsAnnounced(old(rows)[id])) ==>
        rows == old(rows) && published == old(published)
      ensures id in old(rows) && old(rows)[id].pendingEvent && (brokerWorks || !IsAnnounced(old(rows)[id])) ==>
        && published == old(published) + (if IsAnnounced(old(rows)[id]) then [(id, old(rows)[id].state)] else [])
        && id in rows && rows == old(rows)[id := rows[id]]
        && var found := others(old(rows)[id]);
           rows[id] == found.(pendingEvent := found.pendingEvent && found.state != old(rows)[id].state)
      ensures id in old(rows) && old(rows)[id].pendingEvent ==>
        rows[id].pendingEvent || !IsAnnounced(rows[id]) || (id, rows[id].state) in published
    {
      if id !in rows || !rows[id].pendingEvent {
        return;
      }
      var row := rows[id];
      if HasEvent(row) {
        if !brokerWorks {
          return;
        }
        published := published + [(id, row.state)];
      }
      rows := rows[id := others(rows[id])];
      if rows[id].state == row.state {
        rows := rows[id := rows[id].(pendingEvent := false)];
      }
    }

    /** Every stored request asks a transfer's own partner for its own amount. */
    ghost predicate Valid()
      reads this
    {
      && rows.Keys <= terms.Keys
      && forall id :: id in reversals ==> id in terms && AsksBack(reversals[id], id, terms[id])
    }

    method CreateReversalRequest(id: int)
      requires Valid() && id in terms
      modifies this`reversals
      ensures Valid() && id in reversals && AsksBack(reversals[id], id, terms[id])
      ensures reversals == old(reversals)[id := reversals[id]]
      ensures id in old(reversals) ==> reversals == old(reversals)
    {
      if id !in reversals {
        reversals := reversals[id := ReversalRequest(id, terms[id].partner, terms[id].amount)];
      }
    }

    /**
     Up to three tries. `others` is what everybody else does to the row between the read of a try and its update:
     anything that climbs. A failed update means that the row is final, so a second failure is impossible.
     */
    method ReceiveResult(caller: int, id: int, verdict: Verdict, code: Option<int>, others: (nat, OutRow) -> OutRow)
      returns (reply: CallbackReply)
      requires Valid()
      requires forall n: nat, row :: Climbs(row, others(n, row))
      modifies this
      ensures reply == if id !in old(rows) then NotFound else if terms[id].partner != caller then Unauthorized else Received
      ensures !reply.Received? ==> rows == old(rows) && reversals == old(reversals)
      ensures reply.Received? ==>
        id in rows && rows == old(rows)[id := rows[id]] && Climbs(old(rows)[id], rows[id]) && Final(rows[id].state)
      ensures Valid()
      ensures reply.Received? && verdict.VAccepted? && !rows[id].state.Accepted? ==>
        && id in reversals && reversals[id].original == id && reversals[id].partner == caller && reversals[id].amount == terms[id].amount
        && (if id in old(reversals) then reversals == old(reversals) else reversals == old(reversals)[id := reversals[id]])
      ensures !(reply.Received? && verdict.VAccepted? && !rows[id].state.Accepted?) ==> reversals == old(reversals)
      ensures reply.Received? && (forall n: nat, row :: others(n, row) == row) ==>
        rows == old(rows)[id := ApplyCallback(old(rows)[id], verdict, code)]
    {
      for attempt := 0 to 3
        invariant id in old(rows) ==> id in rows
        invariant id in rows ==> rows == old(rows)[id := rows[id]] && id in old(rows) && Climbs(old(rows)[id], rows[id])
        invariant attempt > 0 ==> id in rows && Final(rows[id].state) && terms[id].partner == caller && attempt == 1
        invariant attempt == 0 ==> rows == old(rows)
        invariant attempt > 0 && (forall n: nat, row :: others(n, row) == row) ==> Final(old(rows)[id].state) && rows == old(rows)
        invariant reversals == old(reversals) && Valid()
      {
        if id !in rows {
          return NotFound;
        }
        if terms[id].partner != caller {
          return Unauthorized;
        }
        var decision := CallbackDecision(rows[id].state, verdict);
        if decision.Ignore? || decision.Conflict? {
          return Received;
        }
        if decision.LateAccepted? {
          CreateReversalRequest(id);
          return Received;
        }
        rows := rows[id := others(attempt, rows[id])];
        var ok: bool;
        if verdict.VAccepted? {
          ok := FinalizeOut(id, {Pending, Sent, Timeout}, Accepted, None);
        } else {
          ok := FinalizeOut(id, {Pending, Sent, Timeout}, Rejected, Some(ReasonOf(code)));
        }
        if ok {
          return Received;
        }
      }
    }
  }
}
