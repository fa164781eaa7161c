/**
 Payment's receiving handlers as they run: what they leave in the row and what they answer. But for the insert
 race of a POST, nothing else runs in between here; module Receiver lets everything happen between their steps.
 */
module PaymentDeposits {
  import opened Prelude
  import opened Ledger
  import opened InterbankRules
  import opened Receiver
  import Fingerprint

  /** `hash` is the canonical request; None for a row that a cancellation created. */
  datatype InRow = InRow(state: InState, partner: string, hash: Option<string>, callbackPending: bool, pendingEvent: bool)

  datatype Answer = Ok(code: int, word: Word) | Refused(code: int)

  /** The checks before any look-up: who calls, whether the body is valid, and whether it is what it claims to be. */
  predicate Admissible(caller: string, key: string, body: Fingerprint.Body, ownBank: string, clock: Fingerprint.Clock) {
    && Fingerprint.IsBankCode(caller) && Fingerprint.Valid(body, clock)
    && var r := Fingerprint.RequestOf(body, clock);
       r.id == key && r.destinationBank == ownBank && r.originBank == caller
  }

  /** A 200 whose body says the state. */
  predicate Tells(answer: Answer, state: InState) {
    && answer.Ok? && answer.code == 200
    && (answer.word.WProcessing? <==> state.Processing?)
    && (answer.word.WAccepted? <==> state.InAccepted?)
    && (answer.word.WRejected? <==> state.InRejected?)
    && (answer.word.WCancelled? <==> state.InCancelled?)
  }

  /** A 200 that says how a cancellation ended. */
  predicate TellsResult(answer: Answer, state: InState) {
    && answer.Ok? && answer.code == 200
    && (answer.word.WAlreadyAccepted? <==> state.InAccepted?)
    && (answer.word.WAlreadyRejected? <==> state.InRejected?)
    && (answer.word.WCancelled? <==> state.InCancelled? || state.Processing?)
  }

  /**
   A repetition of an id that has a row: a conflict for another bank, and for the same bank exactly if it differs in
   some field from the request, with body `stored`, that the row was made from; otherwise the row's state.
   */
  predicate Repeats(answer: Answer, row: InRow, caller: string, again: Fingerprint.Request, stored: Fingerprint.Body, clock: Fingerprint.Clock) {
    && (row.partner != caller ==> answer == Refused(409))
    && (row.partner == caller && row.hash.None? ==> Tells(answer, row.state))
    && (row.partner == caller && MadeFrom(row, stored, clock) ==>
          if Fingerprint.SameRequest(Fingerprint.RequestOf(stored, clock), again) then Tells(answer, row.state)
          else answer == Refused(409))
  }

  predicate MadeFrom(row: InRow, stored: Fingerprint.Body, clock: Fingerprint.Clock) {
    Fingerprint.Valid(stored, clock) && row.hash == Some(Fingerprint.Canonical(Fingerprint.RequestOf(stored, clock)))
  }

  /** The row with another state: nothing else changes but the callback, which becomes due with a result. */
  predicate Took(row: InRow, row': InRow, next: InState) {
    && row'.state == next && row'.partner == row.partner && row'.hash == row.hash && row'.pendingEvent == row.pendingEvent
    && (next.InAccepted? || next.InRejected? ==> row'.callbackPending)
    && (next.InCancelled? ==> row'.callbackPending == row.callbackPending)
  }

  class DepositTable {
    var rows: map<string, InRow>
    var requested: seq<string>  // the deposits that Account was asked to credit

    constructor ()
      ensures rows == map[] && requested == []
    {
      rows, requested := map[], [];
    }

    /** The conditional update of a row that must still be PROCESSING. */
    method Resolve(id: string, next: InState)
      requires id in rows && !next.Processing?
      modifies this`rows
      ensures id in rows && rows == old(rows)[id := rows[id]]
      ensures if old(rows)[id].state.Processing? then Took(old(rows)[id], rows[id], next) else rows[id] == old(rows)[id]
      ensures Some(rows[id].state) == Receiver.Resolve(Some(old(rows)[id].state), next)
    {
      var row := rows[id];
      if row.state.Processing? {
        rows := rows[id := if next.InCancelled? then row.(state := next) else row.(state := next, callbackPending := true)];
      }
    }

    /** The answer to an id that is already known. */
    method Repeated(row: InRow, caller: string, hash: string, ghost again: Fingerprint.Body, ghost stored: Fingerprint.Body,
                    ghost clock: Fingerprint.Clock) returns (answer: Answer)
      requires Fingerprint.Valid(again, clock) && hash == Fingerprint.Canonical(Fingerprint.RequestOf(again, clock))
      ensures Repeats(answer, row, caller, Fingerprint.RequestOf(again, clock), stored, clock)
    {
      if MadeFrom(row, stored, clock) {
        Fingerprint.FingerprintsTellRequestsApart(stored, again, clock);
      }
      if row.partner != caller || (row.hash.Some? && row.hash.value != hash) {
        return Refused(409);
      }
      return Ok(200, StateWord(row.state));
    }

    /**
     POST of a deposit. `other` is the row that another handler inserts, if any does, between this one's look-up
     and its insert; `now` is when this one checks the expiry, after its look-up. `stored` is any body that a row
     found on the way may have been made from.
     */
    method ReceiveTransfer(caller: string, key: string, body: Fingerprint.Body, ownBank: string, clock: Fingerprint.Clock,
                           now: int, other: Option<InRow>, ghost stored: Fingerprint.Body) returns (answer: Answer)
      modifies this`rows
      ensures !Admissible(caller, key, body, ownBank, clock) ==>
        && rows == old(rows)
        && (answer == Refused(401) <==>
              || !Fingerprint.IsBankCode(caller)
              || (Fingerprint.Valid(body, clock)
                  && var r := Fingerprint.RequestOf(body, clock); r.id == key && r.destinationBank == ownBank))
        && (answer == Refused(400) || answer == Refused(401))
      ensures Admissible(caller, key, body, ownBank, clock) ==>
        var r := Fingerprint.RequestOf(body, clock);
        var expired := now >= Fingerprint.Instant(body.fields, "expiresAt", clock).value;
        && (r.id in old(rows) ==> rows == old(rows) && Repeats(answer, old(rows)[r.id], caller, r, stored, clock))
        && (r.id !in old(rows) && other.Some? ==>
              && rows == old(rows)[r.id := other.value]
              && if expired then answer == Refused(422) else Repeats(answer, other.value, caller, r, stored, clock))
        && (r.id !in old(rows) && other.None? && expired ==> answer == Refused(422) && rows == old(rows))
        && (r.id !in old(rows) && other.None? && !expired ==>
              && answer == Ok(202, WProcessing) && r.id in rows && rows == old(rows)[r.id := rows[r.id]]
              && rows[r.id].state.Processing? && rows[r.id].partner == caller && MadeFrom(rows[r.id], body, clock)
              && rows[r.id].pendingEvent && !rows[r.id].callbackPending)
    {
      if !Fingerprint.IsBankCode(caller) {
        return Refused(401);
      }
      var errors := Fingerprint.ValidateTransferRequest(body, clock);
      if errors != [] {
        return Refused(400);
      }
      var r := Fingerprint.RequestOf(body, clock);
      if key != r.id || r.destinationBank != ownBank {
        return Refused(400);
      }
      if r.originBank != caller {
        return Refused(401);
      }
      var hash := Fingerprint.Canonical(r);
      if r.id in rows {
        answer := Repeated(rows[r.id], caller, hash, body, stored, clock);
        return;
      }
      if other.Some? {
        rows := rows[r.id := other.value];
      }
      if now >= Fingerprint.Instant(body.fields, "expiresAt", clock).value {
        return Refused(422);
      }
      if r.id in rows {  // the insert fails
        answer := Repeated(rows[r.id], caller, hash, body, stored, clock);
        return;
      }
      rows := rows[r.id := InRow(Processing, caller, Some(hash), false, true)];
      return Ok(202, WProcessing);
    }

    /**
     Read, publish, clear. `later` is the state that others have given the row by the time it is cleared; a PROCESSING
     row leaves it, and never comes back to it. Only a PROCESSING deposit is asked for.
     */
    method FlushRow(id: string, brokerWorks: bool, later: InState)
      requires id in rows && !rows[id].state.Processing? ==> later == rows[id].state
      modifies this`rows, this`requested
      ensures id !in old(rows) || !old(rows)[id].pendingEvent || (!brokerWorks && old(rows)[id].state.Processing?) ==>
        rows == old(rows) && requested == old(requested)
      ensures id in old(rows) && old(rows)[id].pendingEvent && (brokerWorks || !old(rows)[id].state.Processing?) ==>
        && requested == old(requested) + (if old(rows)[id].state.Processing? then [id] else [])
        && rows == old(rows)[id := old(rows)[id].(state := later, pendingEvent := later != old(rows)[id].state)]
      ensures id in old(rows) && old(rows)[id].pendingEvent && rows[id].state.Processing? ==> rows[id].pendingEvent || id in requested
    {
      if id !in rows || !rows[id].pendingEvent {
        return;
      }
      var state := rows[id].state;
      if state.Processing? {
        if !brokerWorks {
          return;
        }
        requested := requested + [id];
      }
      rows := rows[id := rows[id].(state := later)];
      if rows[id].state == state {
        rows := rows[id := rows[id].(pendingEvent := false)];
      }
    }

    /** GET of a deposit. */
    method GetTransfer(caller: string, id: string, isUuid: bool) returns (answer: Answer)
      ensures !Fingerprint.IsBankCode(caller) ==> answer == Refused(401)
      ensures Fingerprint.IsBankCode(caller) && !isUuid ==> answer == Refused(400)
      ensures Fingerprint.IsBankCode(caller) && isUuid ==>
        && (id !in rows ==> answer == Refused(404))
        && (id in rows && rows[id].partner != caller ==> answer == Refused(401))
        && (id in rows && rows[id].partner == caller ==> Tells(answer, rows[id].state))
    {
      if !Fingerprint.IsBankCode(caller) {
        return Refused(401);
      }
      if !isUuid {
        return Refused(400);
      }
      if id !in rows {
        return Refused(404);
      }
      if rows[id].partner != caller {
        return Refused(401);
      }
      return Ok(200, StateWord(rows[id].state));
    }

    /** `verdict` is Account's answer, None when it could not be reached. */
    method CancelTransfer(caller: string, id: string, verdict: Option<CancelVerdict>) returns (answer: Answer)
      modifies this`rows
      ensures id in rows && rows == old(rows)[id := rows[id]]
      ensures id !in old(rows) ==>
        && TellsResult(answer, InCancelled) && rows[id].state.InCancelled?
        && rows[id].partner == caller && rows[id].hash.None? && !rows[id].callbackPending && !rows[id].pendingEvent
      ensures id in old(rows) && old(rows)[id].partner != caller ==> answer == Refused(401) && rows == old(rows)
      ensures id in old(rows) && old(rows)[id].partner == caller && !old(rows)[id].state.Processing? ==>
        TellsResult(answer, old(rows)[id].state) && rows == old(rows)
      ensures id in old(rows) && old(rows)[id].partner == caller && old(rows)[id].state.Processing? && verdict.None? ==>
        answer == Refused(503) && rows == old(rows)
      ensures id in old(rows) && old(rows)[id].partner == caller && old(rows)[id].state.Processing? && verdict.Some? ==>
        && TellsResult(answer, rows[id].state) && Took(old(rows)[id], rows[id], rows[id].state)
        && (rows[id].state.InCancelled? <==> verdict.value.CancelDone?)
        && (rows[id].state.InAccepted? <==> verdict.value.AlreadyAccepted?)
        && (rows[id].state.InRejected? <==> verdict.value.AlreadyRejected?)
    {
      if id !in rows {
        rows := rows[id := InRow(InCancelled, caller, None, false, false)];
      }
      if rows[id].partner != caller {
        return Refused(401);
      }
      if rows[id].state.Processing? {
        if verdict.None? {
          return Refused(503);
        }
        match verdict.value {
          case CancelDone => Resolve(id, InCancelled);
          case AlreadyAccepted => Resolve(id, InAccepted);
          case AlreadyRejected(_) => Resolve(id, InRejected);
        }
      }
      return Ok(200, ResultWord(rows[id].state));
    }

    /** `lateCredit`: Account credited what is cancelled here; module Receiver shows it never happens. */
    method OnDepositResult(id: string, credited: bool) returns (lateCredit: bool)
      modifies this`rows
      ensures id !in old(rows) || !old(rows)[id].state.Processing? ==> rows == old(rows)
      ensures id in old(rows) && old(rows)[id].state.Processing? ==>
        && id in rows && rows == old(rows)[id := rows[id]]
        && Took(old(rows)[id], rows[id], rows[id].state) && rows[id].callbackPending
        && (rows[id].state.InAccepted? <==> credited) && (rows[id].state.InRejected? <==> !credited)
      ensures lateCredit <==> id in old(rows) && old(rows)[id].state.InCancelled? && credited
    {
      lateCredit := false;
      if id in rows {
        if rows[id].state.Processing? {
          Resolve(id, if credited then InAccepted else InRejected);
        } else if rows[id].state.InCancelled? && credited {
          lateCredit := true;
        }
      }
    }
  }
}
