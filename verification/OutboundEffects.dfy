/** What each update of an outbound row does with what it was told, field by field. */
module OutboundEffects {
  import opened Prelude
  import opened InterbankRules
  import opened Outbound
  import Deposit

  /** The delay doubles with every attempt, up to the cap; attempts before the first count as the first. */
  lemma BackoffDoubles(attempt: nat, baseMs: nat, capMs: nat)
    ensures BackoffMs(0, baseMs, capMs) == if baseMs < capMs then baseMs else capMs
    ensures var next := 2 * BackoffMs(attempt, baseMs, capMs);
            BackoffMs(attempt + 1, baseMs, capMs) == if next < capMs then next else capMs
    ensures BackoffMs(0 - (attempt as int), baseMs, capMs) == BackoffMs(0, baseMs, capMs)
  {
    assert Pow2(attempt + 1) == 2 * Pow2(attempt);
    assert baseMs * Pow2(attempt + 1) == 2 * (baseMs * Pow2(attempt));
  }

  /** A settled row: its reason, no step left, nobody's lock, and its event pending unless it is a refund. */
  predicate Finished(row: OutRow, row': OutRow, reason: Option<ReasonCode>) {
    && row'.reason == reason && row'.timeoutStep.None? && row'.lockedUntil.None? && row'.pendingEvent == !row.isRefund
    && row'.isRefund == row.isRefund && row'.expiresAt == row.expiresAt
    && row'.sendAttempts == row.sendAttempts && row'.stepAttempts == row.stepAttempts && row'.nextAttemptAt == row.nextAttemptAt
  }

  /** What a partner's code comes to. */
  predicate IsReason(reason: Option<ReasonCode>, code: Option<int>) {
    reason == Some(if code.Some? then PartnerCode(code.value) else ProcessingFailure)
  }

  // -------------------------------------------------------------------- sending

  predicate Unreached(res: Http) {
    res.NetworkError? || (res.Answer? && (res.status == 0 || res.status == 429 || res.status >= 500))
  }

  /** A row still PENDING follows the reply to its POST: every reply has exactly one effect. */
  lemma PendingFollowsTheReply(row: OutRow, seen: OutRow, res: Http, now: int)
    requires row.state.Pending? && seen.isRefund == row.isRefund
    ensures var row', claim := AfterSend(row, seen, res, now), Deposit.Meaning(Deposit.ToPost(res));
            && (row'.state.Accepted? <==> claim.SaysCredited?)
            && (row'.state.Rejected? <==> claim.SaysRefused? || res.NotConfigured?)
            && (row'.state.Pending? <==> Unreached(res))
            && (row'.state.Sent? <==> claim.SaysNothing? && !Unreached(res) && !res.NotConfigured?)
            && (row'.state.Accepted? ==> Finished(row, row', row.reason))
            && (row'.state.Rejected? ==>
                  Finished(row, row', if res.NotConfigured? then Some(ProcessingFailure)
                                      else if res.status == 422 then Some(MessageExpired)
                                      else if res.status == 200 && res.code.Some? then Some(PartnerCode(res.code.value))
                                      else Some(ProcessingFailure)))
            && (row'.state.Sent? ==>
                  row' == row.(state := Sent, sendAttempts := seen.sendAttempts + 1, pendingEvent := !row.isRefund, lockedUntil := None))
            && (row'.state.Pending? ==>
                  row' == row.(sendAttempts := seen.sendAttempts + 1, lockedUntil := None,
                               nextAttemptAt := Some(now + BackoffMs(seen.sendAttempts, 2000, 60_000))))
  {
  }

  /** A row that has moved on is moved by no more than a body that says how the deposit ended, and only while SENT. */
  lemma MovedOnRowsFollowTheBody(row: OutRow, seen: OutRow, res: Http, now: int)
    requires !row.state.Pending? && seen.isRefund == row.isRefund
    ensures var row', claim := AfterSend(row, seen, res, now), Deposit.Meaning(Deposit.ToPost(res));
            var told := row.state.Sent? && res.Answer? && res.status == 200;
            && (row'.state.Accepted? && !row.state.Accepted? <==> told && claim.SaysCredited?)
            && (row'.state.Rejected? && !row.state.Rejected? <==> told && claim.SaysRefused?)
            && (row'.state == row.state || row'.state.Accepted? || row'.state.Rejected?)
            && (row'.state.Rejected? && !row.state.Rejected? ==> IsReason(row'.reason, res.code))
            && (row'.state == row.state && !Unreached(res) ==> row' == row)
            && (Unreached(res) ==>
                  row' == row.(sendAttempts := seen.sendAttempts + 1, lockedUntil := None,
                               nextAttemptAt := Some(now + BackoffMs(seen.sendAttempts, 2000, 60_000))))
  {
  }

  // ------------------------------------------------------------------- time-outs

  /** Exactly the unfinished rows past expiresAt time out, to be queried at once. */
  lemma ExactlyTheExpiredTimeOut(row: OutRow, now: int)
    ensures var row' := Expire(row, now);
            if (row.state.Pending? || row.state.Sent?) && row.expiresAt < now then
              row' == row.(state := Timeout, timeoutStep := Some(Query), stepAttempts := 0, nextAttemptAt := Some(now),
                           pendingEvent := !row.isRefund, lockedUntil := None)
            else row' == row
  {
  }

  predicate PastMargin(row: OutRow, now: int, cfg: Settings) {
    now >= row.expiresAt + 1000 * cfg.marginSeconds
  }

  function AnswerTo(seen: OutRow, res: Http): Deposit.PartnerReply {
    if seen.timeoutStep == Some(Cancel) then Deposit.ToCancel(res) else Deposit.ToQuery(res)
  }

  /** A query that found the deposit undecided or unknown is followed by a cancellation at once. */
  predicate CallsForCancel(seen: OutRow, res: Http) {
    seen.timeoutStep != Some(Cancel) && res.Answer? && (res.status == 404 || (res.status == 200 && res.word.WProcessing?))
  }

  /** The attempts a query is allowed, counting this one, are used up. */
  predicate QueriesUsedUp(seen: OutRow, cfg: Settings) {
    seen.timeoutStep != Some(Cancel) && seen.stepAttempts + 1 >= cfg.queryAttempts
  }

  /**
   A row in TIMEOUT follows its partner's word: ACCEPTED exactly if the deposit was credited, REVERSED on
   confirmation exactly if it never will be; otherwise it stays and goes on to the cancellation, or tries again later.
   */
  lemma TimedOutFollowsTheAnswer(row: OutRow, seen: OutRow, res: Http, now: int, cfg: Settings)
    requires row.state.Timeout? && !PastMargin(seen, now, cfg)
    ensures var row', claim := ResolveTimeout(row, seen, res, now, cfg), Deposit.Meaning(AnswerTo(seen, res));
            && (row'.state.Accepted? <==> claim.SaysCredited?)
            && (row'.state.Reversed? <==> claim.SaysRefused?)
            && (row'.state.Timeout? <==> claim.SaysNothing?)
            && (row'.state.Accepted? ==> Finished(row, row', row.reason))
            && (row'.state.Reversed? ==> Finished(row, row', Some(TimeoutConfirmed)))
            && (row'.state.Timeout? ==>
                  if CallsForCancel(seen, res) || QueriesUsedUp(seen, cfg) then
                    row' == row.(timeoutStep := Some(Cancel), stepAttempts := 0, nextAttemptAt := Some(now), lockedUntil := None)
                  else
                    row' == row.(stepAttempts := seen.stepAttempts + 1, lockedUntil := None,
                                 nextAttemptAt := Some(now + BackoffMs(seen.stepAttempts, 2000, 30_000))))
  {
  }

  /** Past the margin it is released, whatever the partner would say. */
  lemma PastTheMarginItIsReleased(row: OutRow, seen: OutRow, res: Http, now: int, cfg: Settings)
    requires row.state.Timeout? && PastMargin(seen, now, cfg)
    ensures var row' := ResolveTimeout(row, seen, res, now, cfg);
            row'.state.Reversed? && Finished(row, row', Some(TimeoutNoResponse))
  {
  }

  /** A row that is no longer in TIMEOUT keeps its state and its reason, whatever comes of its query. */
  lemma OthersKeepTheirState(row: OutRow, seen: OutRow, res: Http, now: int, cfg: Settings)
    requires !row.state.Timeout?
    ensures var row' := ResolveTimeout(row, seen, res, now, cfg); row'.state == row.state && row'.reason == row.reason
  {
  }

  // ------------------------------------------------------------------- callbacks

  /** When a callback is applied, ignored, a contradiction, or too late. */
  lemma CallbackDecisionIsExact(state: OutState, verdict: Verdict)
    ensures var d, final := CallbackDecision(state, verdict), state.Accepted? || state.Rejected? || state.Reversed?;
            && (d == Apply <==> !final)
            && (d == Conflict <==> state.Accepted? && verdict.VRejected?)
            && (d == LateAccepted <==> (state.Rejected? || state.Reversed?) && verdict.VAccepted?)
            && (d == Ignore <==> final && (state.Accepted? <==> verdict.VAccepted?))
  {
  }

  /** A callback settles every unfinished row as it says, and no finished one. */
  lemma CallbackIsFollowed(row: OutRow, verdict: Verdict, code: Option<int>)
    ensures var row' := ApplyCallback(row, verdict, code);
            if row.state.Accepted? || row.state.Rejected? || row.state.Reversed? then row' == row
            else
              && (row'.state.Accepted? <==> verdict.VAccepted?) && (row'.state.Rejected? <==> verdict.VRejected?)
              && (verdict.VAccepted? ==> Finished(row, row', row.reason))
              && (verdict.VRejected? ==> IsReason(row'.reason, code) && Finished(row, row', row'.reason))
  {
  }

  /** A new row: nothing sent, nothing pending, three minutes to go. */
  lemma NewRowsHaveThreeMinutes(now: int, isRefund: bool)
    ensures var row := NewRow(now, isRefund);
            && row.state.Pending? && row.expiresAt == now + 180_000 && row.isRefund == isRefund && row.reason.None?
            && !row.pendingEvent && row.sendAttempts == 0 && row.nextAttemptAt.None? && row.lockedUntil.None?
  {
  }
}
