/**
 One outbound transfer row of Payment. Its state changes only through the conditional update
 (`transition`), so every function takes the row as the database holds it; `seen` is the copy the
 caller read earlier, which may be out of date.
 */
module Outbound {
  import opened Prelude
  import opened InterbankRules

  datatype TimeoutStep = Query | Cancel

  datatype OutRow = OutRow(
    state: OutState, reason: Option<ReasonCode>, isRefund: bool, expiresAt: int, pendingEvent: bool,
    sendAttempts: nat, timeoutStep: Option<TimeoutStep>, stepAttempts: nat,
    nextAttemptAt: Option<int>, lockedUntil: Option<int>)

  datatype Settings = Settings(marginSeconds: int, queryAttempts: int)

  function NewRow(now: int, isRefund: bool): OutRow {
    OutRow(Pending, None, isRefund, now + TTL_MS, false, 0, None, 0, None, None)
  }

  /** The final states a row may take, guarded by the states it may come from. */
  function Finalize(row: OutRow, from: set<OutState>, next: OutState, reason: Option<ReasonCode>): OutRow {
    if row.state !in from then row
    else row.(state := next, reason := if reason.Some? then reason else row.reason,
              timeoutStep := None, pendingEvent := !row.isRefund, lockedUntil := None)
  }

  function MarkSent(row: OutRow, seen: OutRow): OutRow {
    if row.state != Pending then row
    else row.(state := Sent, sendAttempts := seen.sendAttempts + 1, pendingEvent := !seen.isRefund, lockedUntil := None)
  }

  function AfterSend(row: OutRow, seen: OutRow, res: Http, now: int): OutRow {
    if res.NotConfigured? then Finalize(row, {Pending}, Rejected, Some(ProcessingFailure))
    else if res.NetworkError? || res.status >= 500 || res.status == 429 || res.status == 0 then
      row.(sendAttempts := seen.sendAttempts + 1,
           nextAttemptAt := Some(now + BackoffMs(seen.sendAttempts, 2000, 60_000)), lockedUntil := None)
    else if res.status == 202 || res.status == 409 then MarkSent(row, seen)
    else if res.status == 200 then
      if res.word.WAccepted? then Finalize(row, {Pending, Sent}, Accepted, None)
      else if res.word.WRejected? || res.word.WCancelled? then Finalize(row, {Pending, Sent}, Rejected, Some(ReasonOf(res.code)))
      else MarkSent(row, seen)
    else Finalize(row, {Pending}, Rejected, Some(if res.status == 422 then MessageExpired else ProcessingFailure))
  }

  function Expire(row: OutRow, now: int): OutRow {
    if (row.state != Pending && row.state != Sent) || row.expiresAt >= now then row
    else row.(state := Timeout, timeoutStep := Some(Query), stepAttempts := 0, nextAttemptAt := Some(now),
              pendingEvent := !row.isRefund, lockedUntil := None)
  }

  function ToCancelStep(row: OutRow, now: int): OutRow {
    row.(timeoutStep := Some(Cancel), stepAttempts := 0, nextAttemptAt := Some(now), lockedUntil := None)
  }

  function ResolveTimeout(row: OutRow, seen: OutRow, res: Http, now: int, cfg: Settings): OutRow {
    if MarginExpired(seen.expiresAt, now, cfg.marginSeconds) then Finalize(row, {Timeout}, Reversed, Some(TimeoutNoResponse))
    else
      var cancelling := seen.timeoutStep == Some(Cancel);
      match if cancelling then ResolveCancel(res) else ResolveQuery(res)
      case MustAccept => Finalize(row, {Timeout}, Accepted, None)
      case MustRelease => Finalize(row, {Timeout}, Reversed, Some(TimeoutConfirmed))
      case MustCancel => ToCancelStep(row, now)
      case MustRetry =>
        var attempts := seen.stepAttempts + 1;
        if !cancelling && attempts >= cfg.queryAttempts then ToCancelStep(row, now)
        else row.(stepAttempts := attempts, nextAttemptAt := Some(now + BackoffMs(attempts - 1, 2000, 30_000)), lockedUntil := None)
  }

  function ApplyCallback(row: OutRow, verdict: Verdict, code: Option<int>): OutRow {
    if verdict.VAccepted? then Finalize(row, {Pending, Sent, Timeout}, Accepted, None)
    else Finalize(row, {Pending, Sent, Timeout}, Rejected, Some(ReasonOf(code)))
  }

  /** Whether the outbox has an event for the state: a refund, and a row still pending, have none. */
  predicate HasEvent(row: OutRow) {
    !row.isRefund && !row.state.Pending?
  }

  /** How a row may differ from what it was at any time before. */
  predicate Climbs(row: OutRow, row': OutRow) {
    && row'.isRefund == row.isRefund && row'.expiresAt == row.expiresAt
    && Rank(row.state) <= Rank(row'.state)
    && (Final(row.state) ==> row'.state == row.state && row'.reason == row.reason)
  }

  /** What every update of a row keeps, whichever and however stale the copy it was computed from. */
  predicate Moves(row: OutRow, row': OutRow) {
    && Climbs(row, row')
    && (row'.state == row.state ==> row'.pendingEvent == row.pendingEvent)
    && (row'.state != row.state ==> row'.pendingEvent == !row.isRefund)
  }

  /** States only climb, final ones are absorbing, and every change leaves its event pending. */
  lemma AfterSendMoves(row: OutRow, seen: OutRow, res: Http, now: int)
    requires seen.isRefund == row.isRefund
    ensures Moves(row, AfterSend(row, seen, res, now))
  {
  }

  lemma ResolveTimeoutMoves(row: OutRow, seen: OutRow, res: Http, now: int, cfg: Settings)
    ensures Moves(row, ResolveTimeout(row, seen, res, now, cfg))
  {
  }

  lemma ExpireMoves(row: OutRow, now: int)
    ensures Moves(row, Expire(row, now))
  {
  }

  lemma CallbackMoves(row: OutRow, verdict: Verdict, code: Option<int>)
    ensures Moves(row, ApplyCallback(row, verdict, code))
  {
  }
}
