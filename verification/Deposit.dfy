/**
 One outbound deposit from end to end: the operation in our Account service, the row and the outbox
 in our Payment service, a network that loses, delays, repeats and reorders, and the partner bank,
 of which only `Lawful` is assumed: it credits at most what reached it, it never credits a deposit
 once it is bound to refuse it, and its replies are true, except that it may refuse a copy of a deposit
 with an error status after it has credited another. Each step is one database update, one message or one reply.
 */
module Deposit {
  import opened Prelude
  import Runs
  import opened Ledger
  import opened InterbankRules
  import opened Outbound

  // -------------------------------------------------------------- the partner

  /** `reached`: a copy of the deposit arrived; `refused`: the bank is bound never to credit it. */
  datatype Partner = Partner(reached: bool, credited: bool, refused: bool)

  /** Which request a reply answers. */
  datatype PartnerReply = ToPost(res: Http) | ToQuery(res: Http) | ToCancel(res: Http)

  datatype Claim = SaysCredited | SaysRefused | SaysNothing

  /** What a reply tells its reader about the money. */
  function Meaning(r: PartnerReply): Claim {
    if !r.res.Answer? then SaysNothing
    else
      match r
      case ToPost(res) =>
        if res.status == 200 then
          (if res.word.WAccepted? then SaysCredited
           else if res.word.WRejected? || res.word.WCancelled? then SaysRefused
           else SaysNothing)
        else if res.status == 202 || res.status == 409 || res.status == 429 || res.status == 0 || res.status >= 500 then SaysNothing
        else SaysRefused
      case ToQuery(res) =>
        if res.status != 200 then SaysNothing
        else if res.word.WAccepted? then SaysCredited
        else if res.word.WRejected? || res.word.WCancelled? then SaysRefused
        else SaysNothing
      case ToCancel(res) =>
        if res.status != 200 then SaysNothing
        else if res.word.WAlreadyAccepted? then SaysCredited
        else if res.word.WCancelled? || res.word.WAlreadyRejected? then SaysRefused
        else SaysNothing
  }

  predicate Truthful(p: Partner, claim: Claim) {
    && (claim.SaysCredited? ==> p.credited)
    && (claim.SaysRefused? ==> p.refused)
  }

  /** An error status in answer to the POST, as against a body that says REJECTED or CANCELLED. */
  predicate BareRefusal(r: PartnerReply) {
    r.ToPost? && r.res.Answer? && r.res.status != 200 && Meaning(r).SaysRefused?
  }

  /** A reply is true, or refuses one copy of a deposit of which another was credited. */
  predicate Justified(p: Partner, r: PartnerReply) {
    Truthful(p, Meaning(r)) || (BareRefusal(r) && p.credited)
  }

  function VerdictClaim(v: Verdict): Claim {
    if v.VAccepted? then SaysCredited else SaysRefused
  }

  /** All that is assumed of a partner's move: commitments last and exclude each other, words are justified. */
  predicate Lawful(p: Partner, p': Partner, posted: bool, reply: Option<PartnerReply>, verdict: Option<Verdict>) {
    && (p.reached ==> p'.reached) && (p.credited ==> p'.credited) && (p.refused ==> p'.refused)
    && (p'.reached && !p.reached ==> posted)
    && (p'.credited && !p.credited ==> p'.reached)
    && !(p'.credited && p'.refused)
    && (reply.Some? ==> Justified(p', reply.value))
    && (verdict.Some? ==> Truthful(p', VerdictClaim(verdict.value)))
  }

  // ------------------------------------------------------------------ our side

  /** A flusher that read a pending row, and one that has published (or found nothing to publish). */
  datatype Flusher = ReadRow(state: OutState) | Announced(state: OutState)

  /** The callback handler: about to read, about to apply, about to ask for a reversal, answered 200. */
  datatype Callback =
    | CbRead(attempt: nat, verdict: Verdict)
    | CbApply(attempt: nat, verdict: Verdict)
    | CbLate(verdict: Verdict)
    | CbAnswered(verdict: Verdict)

  datatype AccountEvent = FundsReservedSent | FundsRejectedSent | CompletedSent | ReleasedSent

  datatype Ours = Ours(
    op: Option<OpStatus>, accountEvents: set<AccountEvent>, conflict: bool,
    row: Option<OutRow>, published: set<OutState>, flushers: map<int, Flusher>,
    callbacks: map<int, Callback>, reversalRequested: bool, exhausted: bool)

  datatype Network = Network(posted: bool, replies: set<PartnerReply>, verdicts: set<Verdict>, acknowledged: bool)

  datatype State = State(ours: Ours, net: Network, now: int)

  /** `misled`: the row was rejected on a refusal that was not true. */
  datatype World = World(side: State, partner: Partner, misled: bool)

  /** `refund`: the row returns a reversed deposit, so no operation and no customer event belong to it. */
  datatype Config = Config(configured: bool, refund: bool, settings: Settings)

  function Start(now: int): World {
    World(State(Ours(None, {}, false, None, {}, map[], map[], false, false), Network(false, {}, {}, false), now),
          Partner(false, false, false), false)
  }

  // --------------------------------------------------------------------- steps

  datatype Step =
    | Wait(ms: nat)
    // Account; `emitted` is false when the service dies between its commit and its publication
    | ReserveFunds(granted: bool, emitted: bool)
    | DebitFunds(emitted: bool)
    | ReleaseFunds(emitted: bool)
    // Payment
    | CreateRow
    | Post
    | HandlePostReply(seen: OutRow, res: Http)
    | HandleTimeout(seen: OutRow, res: Http, tick: int)
    | ExpireRow(tick: int)
    | FlushRead(flusher: int)
    | FlushPublish(flusher: int)
    | FlushClear(flusher: int)
    | FlushFail(flusher: int)
    | CallbackArrives(handler: int, verdict: Verdict)
    | CallbackMoves(handler: int, code: Option<int>)
    | CallbackAcknowledged(handler: int)
    | CallbackCrashes(handler: int)
    // the partner
    | PartnerMoves(to: Partner, reply: Option<PartnerReply>, callback: Option<Verdict>)

  /** What the status of an outgoing operation becomes; module Ledger's handlers do exactly this. */
  function ReserveOp(op: Option<OpStatus>, granted: bool): Option<OpStatus> {
    if op.None? then Some(if granted then OpReserved else OpRejected) else op
  }

  function DebitOp(op: Option<OpStatus>): Option<OpStatus> {
    if op == Some(OpReserved) then Some(OpDebited) else op
  }

  function ReleaseOp(op: Option<OpStatus>): Option<OpStatus> {
    if op == Some(OpReserved) then Some(OpReleased) else op
  }

  function AccountStep(o: Ours, step: Step): Ours
    requires step.ReserveFunds? || step.DebitFunds? || step.ReleaseFunds?
  {
    match step
    case ReserveFunds(granted, emitted) =>
      var op := ReserveOp(o.op, granted);
      o.(op := op,
         accountEvents := o.accountEvents
           + (if emitted && op == Some(OpReserved) then {FundsReservedSent} else {})
           + (if emitted && op == Some(OpRejected) then {FundsRejectedSent} else {}))
    case DebitFunds(emitted) =>
      if Accepted !in o.published then o
      else o.(op := DebitOp(o.op),
              conflict := o.conflict || (o.op.Some? && o.op != Some(OpReserved) && o.op != Some(OpDebited)),
              accountEvents := o.accountEvents + (if emitted && o.op == Some(OpReserved) then {CompletedSent} else {}))
    case ReleaseFunds(emitted) =>
      if Rejected !in o.published && Reversed !in o.published then o
      else o.(op := ReleaseOp(o.op),
              accountEvents := o.accountEvents + (if emitted && o.op == Some(OpReserved) then {ReleasedSent} else {}))
  }

  function FlushStep(o: Ours, step: Step): Ours
    requires step.FlushRead? || step.FlushPublish? || step.FlushClear? || step.FlushFail?
  {
    var f := step.flusher;
    match step
    case FlushRead(_) =>
      if o.row.Some? && o.row.value.pendingEvent && f !in o.flushers then
        o.(flushers := o.flushers[f := ReadRow(o.row.value.state)])
      else o
    case FlushPublish(_) =>
      if o.row.None? || f !in o.flushers || !o.flushers[f].ReadRow? then o
      else
        var state := o.flushers[f].state;
        o.(flushers := o.flushers[f := Announced(state)],
           published := o.published + (if HasEvent(o.row.value.(state := state)) then {state} else {}))
    case FlushClear(_) =>
      if o.row.None? || f !in o.flushers || !o.flushers[f].Announced? then o
      else
        o.(flushers := o.flushers - {f},
           row := if o.row.value.state == o.flushers[f].state then Some(o.row.value.(pendingEvent := false)) else o.row)
    case FlushFail(_) => o.(flushers := o.flushers - {f})
  }

  /** Up to three rounds of: read the row, decide, apply with a conditional update. */
  function CallbackStep(o: Ours, handler: int, code: Option<int>): Ours {
    if handler !in o.callbacks then o
    else
      match o.callbacks[handler]
      case CbRead(attempt, verdict) =>
        if o.row.None? then o.(callbacks := o.callbacks - {handler})  // 404
        else if attempt >= 3 then o.(callbacks := o.callbacks[handler := CbAnswered(verdict)], exhausted := true)
        else
          o.(callbacks := o.callbacks[handler :=
               match CallbackDecision(o.row.value.state, verdict)
               case Apply => CbApply(attempt, verdict)
               case LateAccepted => CbLate(verdict)
               case _ => CbAnswered(verdict)])
      case CbApply(attempt, verdict) =>
        if o.row.None? then o
        else
          var applied := !Final(o.row.value.state);
          o.(row := Some(ApplyCallback(o.row.value, verdict, code)),
             callbacks := o.callbacks[handler := if applied then CbAnswered(verdict) else CbRead(attempt + 1, verdict)])
      case CbLate(verdict) =>
        o.(reversalRequested := true, callbacks := o.callbacks[handler := CbAnswered(verdict)])
      case CbAnswered(_) => o
  }

  /** A stale copy of the row can differ in everything but what no update changes. */
  predicate CopyOf(seen: OutRow, row: OutRow) {
    seen.isRefund == row.isRefund && seen.expiresAt == row.expiresAt
  }

  function RowStep(s: State, cfg: Config, step: Step): Option<OutRow>
    requires step.HandlePostReply? || step.HandleTimeout? || step.ExpireRow?
  {
    if s.ours.row.None? then None
    else
      var row := s.ours.row.value;
      match step
      case HandlePostReply(seen, res) =>
        if CopyOf(seen, row)
           && (if res.NotConfigured? then !cfg.configured else res.NetworkError? || ToPost(res) in s.net.replies) then
          Some(AfterSend(row, seen, res, s.now))
        else Some(row)
      case HandleTimeout(seen, res, tick) =>
        if CopyOf(seen, row) && tick <= s.now
           && (res.Answer? ==> (if seen.timeoutStep == Some(Cancel) then ToCancel(res) else ToQuery(res)) in s.net.replies) then
          Some(Outbound.ResolveTimeout(row, seen, res, tick, cfg.settings))
        else Some(row)
      case ExpireRow(tick) => Some(if tick <= s.now then Expire(row, tick) else row)
  }

  function SideStep(s: State, cfg: Config, step: Step): State
    requires !step.PartnerMoves?
  {
    match step
    case Wait(ms) => s.(now := s.now + ms)
    case ReserveFunds(_, _) => if cfg.refund then s else s.(ours := AccountStep(s.ours, step))
    case DebitFunds(_) => s.(ours := AccountStep(s.ours, step))
    case ReleaseFunds(_) => s.(ours := AccountStep(s.ours, step))
    case CreateRow =>
      if s.ours.row.None? && (cfg.refund || FundsReservedSent in s.ours.accountEvents) then
        s.(ours := s.ours.(row := Some(NewRow(s.now, cfg.refund))))
      else s
    case Post => if s.ours.row.Some? && cfg.configured then s.(net := s.net.(posted := true)) else s
    case HandlePostReply(_, _) => s.(ours := s.ours.(row := RowStep(s, cfg, step)))
    case HandleTimeout(_, _, _) => s.(ours := s.ours.(row := RowStep(s, cfg, step)))
    case ExpireRow(_) => s.(ours := s.ours.(row := RowStep(s, cfg, step)))
    case FlushRead(_) => s.(ours := FlushStep(s.ours, step))
    case FlushPublish(_) => s.(ours := FlushStep(s.ours, step))
    case FlushClear(_) => s.(ours := FlushStep(s.ours, step))
    case FlushFail(_) => s.(ours := FlushStep(s.ours, step))
    case CallbackArrives(h, verdict) =>
      if verdict in s.net.verdicts && h !in s.ours.callbacks then
        s.(ours := s.ours.(callbacks := s.ours.callbacks[h := CbRead(0, verdict)]))
      else s
    case CallbackMoves(h, code) => s.(ours := CallbackStep(s.ours, h, code))
    case CallbackAcknowledged(h) =>
      if h in s.ours.callbacks && s.ours.callbacks[h].CbAnswered? then
        s.(ours := s.ours.(callbacks := s.ours.callbacks - {h}),
           net := s.net.(acknowledged := s.net.acknowledged || s.ours.callbacks[h].verdict.VAccepted?))
      else s
    case CallbackCrashes(h) => s.(ours := s.ours.(callbacks := s.ours.callbacks - {h}))
  }

  function Heard(net: Network, reply: Option<PartnerReply>, verdict: Option<Verdict>): Network {
    net.(replies := net.replies + (if reply.Some? then {reply.value} else {}),
         verdicts := net.verdicts + (if verdict.Some? then {verdict.value} else {}))
  }

  /** The step takes a PENDING row to REJECTED on a refusal although the partner has credited the deposit. */
  predicate Misleads(w: World, cfg: Config, step: Step) {
    && step.HandlePostReply? && w.side.ours.row.Some? && w.side.ours.row.value.state.Pending?
    && SideStep(w.side, cfg, step).ours.row.value.state.Rejected?
    && !Truthful(w.partner, Meaning(ToPost(step.res)))
  }

  function Next(w: World, cfg: Config, step: Step): World {
    match step
    case PartnerMoves(to, reply, callback) =>
      if Lawful(w.partner, to, w.side.net.posted, reply, callback) then
        World(w.side.(net := Heard(w.side.net, reply, callback)), to, w.misled)
      else w
    case _ => World(SideStep(w.side, cfg, step), w.partner, w.misled || Misleads(w, cfg, step))
  }

  function Run(w: World, cfg: Config, steps: seq<Step>): World
    decreases |steps|
  {
    if steps == [] then w else Run(Next(w, cfg, steps[0]), cfg, steps[1..])
  }

  lemma RunSplits(w: World, cfg: Config, first: seq<Step>, rest: seq<Step>)
    ensures Run(w, cfg, first + rest) == Run(Run(w, cfg, first), cfg, rest)
  {
    Runs.Split((w: World, steps: seq<Step>) => Run(w, cfg, steps), (w: World, step: Step) => Next(w, cfg, step), w, first, rest);
  }
}
