/** The pure rules of the interbank contract: states, callback decisions, timeout protocol, backoff. */
module InterbankRules {
  import opened Prelude

  const TTL_MS := 180_000
  const HTTP_LOCK_MS := 30_000

  datatype OutState = Pending | Sent | Accepted | Rejected | Timeout | Reversed
  datatype InState = Processing | InAccepted | InRejected | InCancelled

  datatype ReasonCode = TimeoutConfirmed | TimeoutNoResponse | MessageExpired | ProcessingFailure | PartnerCode(code: int)

  /** The `status` or `result` text of a reply's body; OtherWord when absent or unknown. */
  datatype Word = WAccepted | WRejected | WCancelled | WProcessing | WAlreadyAccepted | WAlreadyRejected | OtherWord

  datatype Http = NotConfigured | NetworkError | Answer(status: int, word: Word, code: Option<int>)

  /** The `status` of a received deposit. */
  function StateWord(state: InState): Word {
    match state
    case Processing => WProcessing
    case InAccepted => WAccepted
    case InRejected => WRejected
    case InCancelled => WCancelled
  }

  /** The `result` of a cancellation: CANCELLED unless the deposit is accepted or rejected. */
  function ResultWord(state: InState): Word {
    if state.InAccepted? then WAlreadyAccepted else if state.InRejected? then WAlreadyRejected else WCancelled
  }

  /** A partner's reason code, PROCESSING_ERROR when it gave none. */
  function ReasonOf(code: Option<int>): ReasonCode {
    if code.Some? then PartnerCode(code.value) else ProcessingFailure
  }

  predicate Final(state: OutState) {
    state.Accepted? || state.Rejected? || state.Reversed?
  }

  /** How far a transfer has got; the final states share the last rank. */
  function Rank(state: OutState): nat {
    match state
    case Pending => 0
    case Sent => 1
    case Timeout => 2
    case _ => 3
  }

  // ---------------------------------------------------------------- callbacks

  datatype Verdict = VAccepted | VRejected
  datatype Decision = Apply | Ignore | Conflict | LateAccepted

  function CallbackDecision(state: OutState, verdict: Verdict): Decision {
    if state.Pending? || state.Sent? || state.Timeout? then Apply
    else if state.Accepted? then (if verdict.VAccepted? then Ignore else Conflict)
    else if verdict.VAccepted? then LateAccepted
    else Ignore
  }

  // --------------------------------------------------------- timeout protocol

  datatype Resolution = MustAccept | MustRelease | MustCancel | MustRetry

  function ResolveQuery(res: Http): Resolution {
    if !res.Answer? then MustRetry
    else if res.status == 200 then
      match res.word
      case WAccepted => MustAccept
      case WRejected => MustRelease
      case WCancelled => MustRelease
      case WProcessing => MustCancel
      case _ => MustRetry
    else if res.status == 404 then MustCancel
    else MustRetry
  }

  function ResolveCancel(res: Http): Resolution {
    if !res.Answer? || res.status != 200 then MustRetry
    else
      match res.word
      case WCancelled => MustRelease
      case WAlreadyRejected => MustRelease
      case WAlreadyAccepted => MustAccept
      case _ => MustRetry
  }

  predicate MarginExpired(expiresAt: int, now: int, marginSeconds: int) {
    now >= expiresAt + marginSeconds * 1000
  }

  // ------------------------------------------------------------------ backoff

  function Pow2(n: nat): (r: nat)
    ensures r >= n + 1
  {
    if n == 0 then 1 else 2 * Pow2(n - 1)
  }

  function BackoffMs(attempt: int, baseMs: nat, capMs: nat): nat {
    Min(capMs, baseMs * Pow2(Max(0, attempt)))
  }

  lemma {:induction false} Pow2Grows(a: nat, b: nat)
    requires a <= b
    ensures Pow2(a) <= Pow2(b)
    decreases b - a
  {
    if a < b {
      Pow2Grows(a, b - 1);
    }
  }

  lemma TimesGrows(base: nat, x: nat, y: nat)
    requires x <= y
    ensures base * x <= base * y
  {
  }

  /** Waits never get shorter and never exceed the cap. */
  lemma BackoffGrows(a: int, b: int, baseMs: nat, capMs: nat)
    requires a <= b
    ensures BackoffMs(a, baseMs, capMs) <= BackoffMs(b, baseMs, capMs) <= capMs
  {
    Pow2Grows(Max(0, a), Max(0, b));
    TimesGrows(baseMs, Pow2(Max(0, a)), Pow2(Max(0, b)));
  }
}
