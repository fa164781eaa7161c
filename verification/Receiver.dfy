/**
 Our bank as the receiver of one deposit: Payment's IN row and Account's operation on it, with the
 POST handlers, the outbox flushers, the deposit and result events and the HTTP cancellations all
 interleaved one look-up, check or update at a time. The request's content is fixed; both services read one clock.
 */
module Receiver {
  import opened Prelude
  import Runs
  import opened Ledger
  import opened InterbankRules
  import opened Deposit

  /** Where a cancellation handler stands between two database or HTTP operations. */
  datatype Cancelling =
    | CanRead                                 // about to look the row up
    | CanInsert                               // found none: about to store a cancelled one
    | CanReread                               // about to look up what is there now
    | CanAsk                                  // saw PROCESSING: about to ask Account
    | CanApply(verdict: CancelVerdict)        // has Account's verdict
    | CanAnswer                               // about to read the row it answers from

  /** POST handlers that found no row, those also past the expiry check, and those whose insert failed. */
  datatype Posts = Posts(looked: nat, admitted: nat, beaten: nat)

  /**
   The row's pending mark, flushers that read it with the row PROCESSING, flushers that have published since and
   are about to clear it, and whether any has.
   */
  datatype Outbox = Outbox(pending: bool, flushers: nat, announced: nat, requested: bool)

  /** Whether the sender is still to be told the result, and when there was one. */
  datatype Mark = NoCallback | Due | Delivered | GivenUp
  datatype Callback = Callback(mark: Mark, resolvedAt: int)

  const DAY_MS := 86_400_000

  datatype Bank = Bank(
    now: int, valid: bool, expiresAt: int,
    reached: bool, posts: Posts, row: Option<InState>, outbox: Outbox,
    op: Option<OpStatus>, creditedEvent: bool, rejectedEvent: bool,
    cancels: map<int, Cancelling>, callback: Callback,
    creditedAfterCancel: bool, answeredProcessing: bool)

  datatype Step =
    | Passes(ms: nat)
    | PostLooks
    | PostChecks
    | PostInserts
    | PostRereads
    | FlusherReads
    | FlusherPublishes
    | FlusherClears
    | FlusherFails
    | AccountCredits(approves: bool, emitted: bool)
    | AccountReverses
    | ResultArrives(credited: bool)
    | StatusAsked
    | CancelArrives(handler: int)
    | CancelMoves(handler: int)
    | CancelDies(handler: int)
    | CallsBack
    | CallbackEnds(accepted: bool)

  function Opening(now: int, valid: bool, expiresAt: int): Bank {
    Bank(now, valid, expiresAt, false, Posts(0, 0, 0), None, Outbox(false, 0, 0, false), None, false, false, map[], Callback(NoCallback, 0), false, false)
  }

  predicate IsCredited(op: Option<OpStatus>) {
    op == Some(OpCredited) || op == Some(OpRefunded)
  }

  predicate IsRefused(op: Option<OpStatus>) {
    op == Some(OpRejected) || op == Some(OpCancelled)
  }

  /** The conditional update of a row that must still be PROCESSING. */
  function Resolve(row: Option<InState>, next: InState): Option<InState> {
    if row == Some(Processing) then Some(next) else row
  }

  /** What becomes of the callback then: it is due as soon as there is a result to tell. */
  function CallbackAfter(callback: Callback, row: Option<InState>, next: InState, now: int): Callback {
    if row == Some(Processing) && (next.InAccepted? || next.InRejected?) then Callback(Due, now) else callback
  }

  function ResultOf(verdict: CancelVerdict): InState {
    match verdict
    case CancelDone => InCancelled
    case AlreadyAccepted => InAccepted
    case AlreadyRejected(_) => InRejected
  }

  function CreditOp(b: Bank, approves: bool): Option<OpStatus> {
    if b.op.Some? then b.op else Some(if approves && b.now < b.expiresAt then OpCredited else OpRejected)
  }

  function CancelOp(op: Option<OpStatus>): Option<OpStatus> {
    if op.None? then Some(OpCancelled) else op
  }

  function CancelVerdictOf(op: Option<OpStatus>): CancelVerdict {
    if IsCredited(op) then AlreadyAccepted else if op == Some(OpRejected) then AlreadyRejected(None) else CancelDone
  }

  /** What one operation of a cancellation handler does to the row and to Account's operation. */
  function CancelEffect(b: Bank, c: Cancelling): Bank {
    match c
    case CanInsert => if b.row.None? then b.(row := Some(InCancelled)) else b
    case CanAsk => b.(op := CancelOp(b.op))
    case CanApply(verdict) =>
      b.(row := Resolve(b.row, ResultOf(verdict)), callback := CallbackAfter(b.callback, b.row, ResultOf(verdict), b.now))
    case CanAnswer => b.(answeredProcessing := b.answeredProcessing || b.row == Some(Processing))
    case _ => b
  }

  /** Where the handler stands afterwards; None once it has answered. */
  function CancelNext(b: Bank, c: Cancelling): Option<Cancelling> {
    match c
    case CanRead => if b.row.None? then Some(CanInsert) else if b.row == Some(Processing) then Some(CanAsk) else None
    case CanInsert => Some(CanReread)
    case CanReread => if b.row == Some(Processing) then Some(CanAsk) else None
    case CanAsk => Some(CanApply(CancelVerdictOf(CancelOp(b.op))))
    case CanApply(_) => Some(CanAnswer)
    case CanAnswer => None
  }

  function CancelStep(b: Bank, handler: int): Bank
    requires handler in b.cancels
  {
    var c := b.cancels[handler];
    CancelEffect(b, c).(cancels := if CancelNext(b, c).Some? then b.cancels[handler := CancelNext(b, c).value]
                                   else b.cancels - {handler})
  }

  function Next(b: Bank, posted: bool, step: Step): Bank {
    match step
    case Passes(ms) => b.(now := b.now + ms)
    case PostLooks =>
      if posted && b.valid && b.row.None? then b.(reached := true, posts := b.posts.(looked := b.posts.looked + 1)) else b
    case PostChecks =>
      if b.posts.looked == 0 then b
      else if b.now >= b.expiresAt then b.(posts := b.posts.(looked := b.posts.looked - 1))
      else b.(posts := b.posts.(looked := b.posts.looked - 1, admitted := b.posts.admitted + 1))
    case PostInserts =>
      if b.posts.admitted == 0 then b
      else if b.row.Some? then b.(posts := b.posts.(admitted := b.posts.admitted - 1, beaten := b.posts.beaten + 1))
      else
        b.(posts := b.posts.(admitted := b.posts.admitted - 1), row := Some(Processing), outbox := b.outbox.(pending := true))
    case PostRereads => if b.posts.beaten > 0 then b.(posts := b.posts.(beaten := b.posts.beaten - 1)) else b
    case FlusherReads =>
      if b.row == Some(Processing) && b.outbox.pending then b.(outbox := b.outbox.(flushers := b.outbox.flushers + 1)) else b
    case FlusherPublishes =>
      if b.outbox.flushers > 0 then
        b.(outbox := b.outbox.(flushers := b.outbox.flushers - 1, announced := b.outbox.announced + 1, requested := true))
      else b
    case FlusherClears =>
      if b.outbox.announced == 0 then b
      else b.(outbox := b.outbox.(announced := b.outbox.announced - 1, pending := b.outbox.pending && b.row != Some(Processing)))
    case FlusherFails => if b.outbox.flushers > 0 then b.(outbox := b.outbox.(flushers := b.outbox.flushers - 1)) else b
    case AccountCredits(approves, emitted) =>
      if !b.outbox.requested then b
      else
        var op := CreditOp(b, approves);
        b.(op := op, creditedEvent := b.creditedEvent || (emitted && IsCredited(op)),
           rejectedEvent := b.rejectedEvent || (emitted && !IsCredited(op)))
    case AccountReverses => if b.op == Some(OpCredited) then b.(op := Some(OpRefunded)) else b
    case ResultArrives(credited) =>
      if !(if credited then b.creditedEvent else b.rejectedEvent) then b
      else b.(row := Resolve(b.row, if credited then InAccepted else InRejected),
              callback := CallbackAfter(b.callback, b.row, if credited then InAccepted else InRejected, b.now),
              creditedAfterCancel := b.creditedAfterCancel || (credited && b.row == Some(InCancelled)))
    case StatusAsked => b
    case CancelArrives(h) => if h in b.cancels then b else b.(cancels := b.cancels[h := CanRead])
    case CancelMoves(h) => if h in b.cancels then CancelStep(b, h) else b
    case CancelDies(h) => b.(cancels := b.cancels - {h})
    case CallsBack => b
    case CallbackEnds(accepted) =>
      if b.callback.mark.NoCallback? then b
      else if accepted then b.(callback := b.callback.(mark := Delivered))
      else if b.now - b.callback.resolvedAt > DAY_MS then b.(callback := b.callback.(mark := GivenUp))
      else b
  }

  const TOO_LATE := Answer(422, OtherWord, None)

  /** What a step answers to the sender, if it answers. */
  function Says(b: Bank, posted: bool, step: Step): Option<PartnerReply> {
    match step
    case PostLooks =>
      if !posted then None
      else if !b.valid then Some(ToPost(Answer(400, OtherWord, None)))
      else if b.row.Some? then Some(ToPost(Answer(200, StateWord(b.row.value), None)))
      else None
    case PostChecks => if b.posts.looked > 0 && b.now >= b.expiresAt then Some(ToPost(TOO_LATE)) else None
    case PostInserts => if b.posts.admitted > 0 && b.row.None? then Some(ToPost(Answer(202, WProcessing, None))) else None
    case PostRereads =>
      if b.posts.beaten > 0 && b.row.Some? then Some(ToPost(Answer(200, StateWord(b.row.value), None))) else None
    case StatusAsked =>
      Some(ToQuery(if b.row.None? then Answer(404, OtherWord, None) else Answer(200, StateWord(b.row.value), None)))
    case CancelMoves(h) =>
      if h in b.cancels && b.row.Some?
         && (b.cancels[h].CanAnswer? || ((b.cancels[h].CanRead? || b.cancels[h].CanReread?) && b.row != Some(Processing)))
      then Some(ToCancel(Answer(200, ResultWord(b.row.value), None)))
      else None
    case _ => None
  }

  /** The callback carries the state of an accepted or rejected row. */
  function Calls(b: Bank, step: Step): Option<Verdict> {
    if step.CallsBack? && b.row == Some(InAccepted) then Some(VAccepted)
    else if step.CallsBack? && b.row == Some(InRejected) then Some(VRejected)
    else None
  }

  /** What the sender may rely on: Account's decision, or that there can no longer be one. */
  function View(b: Bank): Partner {
    Partner(b.reached, IsCredited(b.op),
            IsRefused(b.op) || (b.op.None? && (!b.valid || b.now >= b.expiresAt || b.row == Some(InCancelled))))
  }

  // ---------------------------------------------------------------- invariant

  ghost predicate RowAgrees(b: Bank) {
    match b.row
    case None => b.op.None? && !b.outbox.requested && b.outbox.flushers == 0
    case Some(state) =>
      match state
      case Processing => b.reached && b.valid && (b.outbox.pending || b.outbox.requested)
      case InAccepted => IsCredited(b.op)
      case InRejected => IsRefused(b.op)
      case InCancelled => b.op == Some(OpCancelled) || (b.op.None? && !b.outbox.requested && b.outbox.flushers == 0)
  }

  predicate HandlerAgrees(b: Bank, c: Cancelling) {
    match c
    case CanRead => true
    case CanInsert => true
    case CanReread => b.row.Some?
    case CanAsk => b.row.Some? && (b.row == Some(InCancelled) ==> b.op.Some?)
    case CanApply(verdict) =>
      && b.row.Some?
      && (verdict.CancelDone? ==> b.op == Some(OpCancelled))
      && (verdict.AlreadyAccepted? ==> IsCredited(b.op))
      && (verdict.AlreadyRejected? ==> b.op == Some(OpRejected))
    case CanAnswer => b.row.Some? && b.row != Some(Processing)
  }

  /** Row, operation, events and flushers are in step, and neither error branch was ever taken. */
  ghost predicate RecordsAgree(b: Bank) {
    && RowAgrees(b)
    && (b.op.Some? ==> IsCredited(b.op) || IsRefused(b.op))
    && (b.op.Some? || b.outbox.requested || b.outbox.flushers > 0 || b.posts.looked > 0 || b.posts.admitted > 0 ==> b.reached && b.valid)
    && (b.posts.beaten > 0 ==> b.row.Some?)
    && (b.outbox.announced > 0 ==> b.outbox.requested)
    && (b.creditedEvent ==> IsCredited(b.op))
    && (b.rejectedEvent ==> IsRefused(b.op))
    && !b.creditedAfterCancel && !b.answeredProcessing
  }

  ghost predicate HandlersAgree(b: Bank) {
    forall h :: h in b.cancels ==> HandlerAgrees(b, b.cancels[h])
  }

  ghost predicate Inv(b: Bank) {
    RecordsAgree(b) && HandlersAgree(b)
  }

  /** How rows and operations may change: resolved rows and decided operations stay as they are. */
  predicate Grows(b: Bank, b': Bank) {
    && (b.row.Some? ==> b'.row.Some? && (b.row != Some(Processing) ==> b'.row == b.row))
    && (b.op.Some? ==> b'.op == b.op || (IsCredited(b.op) && IsCredited(b'.op)))
    && (b'.row == Some(InCancelled) && b.row.Some? && b.row != b'.row ==> b'.op.Some?)
  }

  lemma HandlersFollow(b: Bank, b': Bank, c: Cancelling)
    requires Grows(b, b') && HandlerAgrees(b, c)
    ensures HandlerAgrees(b', c)
  {
  }

  lemma CancelEffectGrows(b: Bank, c: Cancelling)
    requires HandlerAgrees(b, c) && (b.op.Some? ==> IsCredited(b.op) || IsRefused(b.op))
    ensures Grows(b, CancelEffect(b, c))
    ensures CancelNext(b, c).Some? ==> HandlerAgrees(CancelEffect(b, c), CancelNext(b, c).value)
  {
  }

  lemma CancelEffectKeepsRecords(b: Bank, c: Cancelling)
    requires RecordsAgree(b) && HandlerAgrees(b, c)
    ensures RecordsAgree(CancelEffect(b, c))
  {
  }

  lemma CancelStepKeeps(b: Bank, handler: int)
    requires Inv(b) && handler in b.cancels
    ensures Inv(CancelStep(b, handler))
  {
    var b' := CancelStep(b, handler);
    var c := b.cancels[handler];
    CancelEffectKeepsRecords(b, c);
    CancelEffectGrows(b, c);
    forall h | h in b'.cancels ensures HandlerAgrees(b', b'.cancels[h]) {
      if h != handler {
        HandlersFollow(b, b', b.cancels[h]);
      }
    }
  }

  predicate OfPayment(step: Step) {
    step.PostLooks? || step.PostChecks? || step.PostInserts? || step.PostRereads? || step.FlusherReads? || step.FlusherPublishes?
  }

  lemma PaymentStepKeepsRecords(b: Bank, posted: bool, step: Step)
    requires RecordsAgree(b) && OfPayment(step)
    ensures RecordsAgree(Next(b, posted, step)) && Grows(b, Next(b, posted, step))
  {
  }

  lemma CreditKeepsRecords(b: Bank, posted: bool, approves: bool, emitted: bool)
    requires RecordsAgree(b)
    ensures var b' := Next(b, posted, AccountCredits(approves, emitted)); RecordsAgree(b') && Grows(b, b')
  {
  }

  lemma ResultKeepsRecords(b: Bank, posted: bool, credited: bool)
    requires RecordsAgree(b)
    ensures var b' := Next(b, posted, ResultArrives(credited)); RecordsAgree(b') && Grows(b, b')
  {
  }

  lemma FlushersKeepRecords(b: Bank, posted: bool, step: Step)
    requires RecordsAgree(b) && (step.FlusherClears? || step.FlusherFails?)
    ensures RecordsAgree(Next(b, posted, step)) && Grows(b, Next(b, posted, step))
  {
  }

  lemma EnvironmentKeepsRecords(b: Bank, posted: bool, step: Step)
    requires RecordsAgree(b) && (step.Passes? || step.CancelArrives? || step.CancelDies? || step.AccountReverses? || step.CallbackEnds?)
    ensures RecordsAgree(Next(b, posted, step)) && Grows(b, Next(b, posted, step))
  {
  }

  /** Resolved rows and decided operations stay, except that a credited one may be refunded. */
  lemma OtherStepKeepsRecords(b: Bank, posted: bool, step: Step)
    requires RecordsAgree(b) && !step.CancelMoves?
    ensures RecordsAgree(Next(b, posted, step)) && Grows(b, Next(b, posted, step))
  {
    if OfPayment(step) {
      PaymentStepKeepsRecords(b, posted, step);
    } else if step.AccountCredits? {
      CreditKeepsRecords(b, posted, step.approves, step.emitted);
    } else if step.ResultArrives? {
      ResultKeepsRecords(b, posted, step.credited);
    } else if step.FlusherClears? || step.FlusherFails? {
      FlushersKeepRecords(b, posted, step);
    } else if !step.StatusAsked? && !step.CallsBack? {
      EnvironmentKeepsRecords(b, posted, step);
    }
  }

  lemma NextKeeps(b: Bank, posted: bool, step: Step)
    requires Inv(b)
    ensures Inv(Next(b, posted, step))
  {
    if step.CancelMoves? {
      if step.handler in b.cancels {
        CancelStepKeeps(b, step.handler);
      }
    } else {
      var b' := Next(b, posted, step);
      OtherStepKeepsRecords(b, posted, step);
      forall h | h in b'.cancels ensures HandlerAgrees(b', b'.cancels[h]) {
        if h in b.cancels {
          HandlersFollow(b, b', b.cancels[h]);
        }
      }
    }
  }

  /** Every step of this bank, with what it says, is a lawful move of a partner. */
  lemma NextIsLawful(b: Bank, posted: bool, step: Step)
    requires Inv(b)
    ensures Lawful(View(b), View(Next(b, posted, step)), posted, Says(b, posted, step), Calls(b, step))
  {
    if step.CancelMoves? && step.handler in b.cancels {
      CancelStepIsLawful(b, step.handler);
    }
  }

  lemma CancelStepIsLawful(b: Bank, handler: int)
    requires Inv(b) && handler in b.cancels
    ensures Lawful(View(b), View(CancelStep(b, handler)), false, Says(b, true, CancelMoves(handler)), None)
  {
    assert HandlerAgrees(b, b.cancels[handler]);
  }

  /** A step refuses a deposit that has been credited exactly when it answers 422 from an old look-up. */
  lemma OnlyALateLookUpMisleads(b: Bank, posted: bool, step: Step)
    requires Inv(b)
    ensures Says(b, posted, step).Some? && !Truthful(View(Next(b, posted, step)), Meaning(Says(b, posted, step).value))
            <==> step.PostChecks? && b.posts.looked > 0 && b.now >= b.expiresAt && IsCredited(b.op)
  {
    if step.CancelMoves? && step.handler in b.cancels {
      CancelStepIsLawful(b, step.handler);
    }
  }

  /**
   From expiresAt on, "expired" is a true answer exactly if the deposit was not credited, for which it is
   enough that its row is still absent when the handler checks.
   */
  lemma LateRefusalIsTrueIff(b: Bank)
    requires Inv(b) && b.now >= b.expiresAt
    ensures Truthful(View(b), Meaning(ToPost(TOO_LATE))) <==> !IsCredited(b.op)
    ensures b.row.None? ==> !IsCredited(b.op)
  {
  }

  /** A POST looks up at any time, checks the time, inserts unless it was beaten, and then reads again. */
  lemma PostingIsExact(b: Bank, posted: bool)
    ensures var b' := Next(b, posted, PostLooks);
            b' == if posted && b.valid && b.row.None? then b.(reached := true, posts := b'.posts) else b
    ensures posted && b.valid && b.row.None? ==>
              Next(b, posted, PostLooks).posts == Posts(b.posts.looked + 1, b.posts.admitted, b.posts.beaten)
    ensures b.posts.looked > 0 ==>
              Next(b, posted, PostChecks) == b.(posts := Posts(b.posts.looked - 1, b.posts.admitted + (if b.now < b.expiresAt then 1 else 0), b.posts.beaten))
    ensures b.posts.admitted > 0 && b.row.Some? ==>
              Next(b, posted, PostInserts) == b.(posts := Posts(b.posts.looked, b.posts.admitted - 1, b.posts.beaten + 1))
    ensures b.posts.admitted > 0 && b.row.None? ==>
              var b' := Next(b, posted, PostInserts);
              b'.row == Some(Processing) && b'.outbox.pending && b'.posts == Posts(b.posts.looked, b.posts.admitted - 1, b.posts.beaten)
    ensures b.posts.beaten > 0 ==>
              Next(b, posted, PostRereads) == b.(posts := Posts(b.posts.looked, b.posts.admitted, b.posts.beaten - 1))
  {
  }

  /** A flusher that announced the deposit clears its mark exactly if the row is still the one it announced. */
  lemma ClearingIsExact(b: Bank, posted: bool)
    requires b.outbox.announced > 0
    ensures var b' := Next(b, posted, FlusherClears);
            && (b'.outbox.pending <==> b.outbox.pending && b.row != Some(Processing))
            && b'.outbox.announced == b.outbox.announced - 1 && b'.outbox.requested == b.outbox.requested
            && b'.row == b.row && b'.op == b.op
  {
  }

  // ------------------------------------------------------ Account's operation

  predicate Asks(bank: Bank, handler: int) {
    handler in bank.cancels && bank.cancels[handler].CanAsk?
  }

  /** The steps that Account takes. */
  predicate OfAccount(bank: Bank, step: Step) {
    step.AccountCredits? || step.AccountReverses? || (step.CancelMoves? && Asks(bank, step.handler))
  }

  lemma CreditMovesOperation(bank: Bank, posted: bool, approves: bool, emitted: bool)
    requires bank.outbox.requested
    ensures var bank' := Next(bank, posted, AccountCredits(approves, emitted));
            bank'.op == CreditOp(bank, approves) && bank'.expiresAt == bank.expiresAt
  {
  }

  predicate SameOperation(bank: Bank, bank': Bank) {
    bank'.op == bank.op && bank'.expiresAt == bank.expiresAt
  }

  lemma CancelLeavesOperation(bank: Bank, handler: int)
    requires handler in bank.cancels && !bank.cancels[handler].CanAsk?
    ensures SameOperation(bank, CancelStep(bank, handler))
  {
    assert SameOperation(bank, CancelEffect(bank, bank.cancels[handler]));
  }

  lemma PaymentLeavesOperation(bank: Bank, posted: bool, step: Step)
    requires OfPayment(step)
    ensures SameOperation(bank, Next(bank, posted, step))
  {
  }

  lemma BankStepLeavesOperation(bank: Bank, posted: bool, step: Step)
    requires !OfAccount(bank, step)
    ensures SameOperation(bank, Next(bank, posted, step))
  {
    if OfPayment(step) {
      PaymentLeavesOperation(bank, posted, step);
    } else if step.CancelMoves? && step.handler in bank.cancels {
      CancelLeavesOperation(bank, step.handler);
    }
  }

  // ------------------------------------------------------------- main results

  function Run(b: Bank, posted: bool, steps: seq<Step>): Bank
    decreases |steps|
  {
    if steps == [] then b else Run(Next(b, posted, steps[0]), posted, steps[1..])
  }

  lemma {:induction false} RunKeeps(b: Bank, posted: bool, steps: seq<Step>)
    requires Inv(b)
    ensures Inv(Run(b, posted, steps))
    ensures View(b).credited ==> View(Run(b, posted, steps)).credited
    ensures View(b).refused ==> View(Run(b, posted, steps)).refused
    decreases |steps|
  {
    if steps == [] {
    } else {
      NextKeeps(b, posted, steps[0]);
      NextIsLawful(b, posted, steps[0]);
      RunKeeps(Next(b, posted, steps[0]), posted, steps[1..]);
    }
  }

  /** A result is told, or to be told, until a day has passed; nothing else is called back about. */
  predicate CallbackFits(callback: Callback, row: Option<InState>, now: int) {
    && (row == Some(InAccepted) || row == Some(InRejected) <==> !callback.mark.NoCallback?)
    && (callback.mark.GivenUp? ==> now - callback.resolvedAt > 24 * 60 * 60 * 1000)
    && (!callback.mark.NoCallback? ==> callback.resolvedAt <= now)
  }

  predicate CallbackAgrees(b: Bank) {
    CallbackFits(b.callback, b.row, b.now)
  }

  lemma TakingAResultFits(callback: Callback, row: Option<InState>, now: int, next: InState)
    requires CallbackFits(callback, row, now) && !next.Processing?
    ensures CallbackFits(CallbackAfter(callback, row, next, now), Resolve(row, next), now)
  {
  }

  lemma InsertKeepsCallback(b: Bank, posted: bool)
    requires CallbackAgrees(b)
    ensures CallbackAgrees(Next(b, posted, PostInserts))
  {
  }

  lemma HandlersKeepCallback(b: Bank, posted: bool, step: Step)
    requires CallbackAgrees(b) && (step.PostLooks? || step.PostChecks? || step.PostRereads?)
    ensures CallbackAgrees(Next(b, posted, step))
  {
  }

  lemma FlushersKeepCallback(b: Bank, posted: bool, step: Step)
    requires CallbackAgrees(b) && (step.FlusherReads? || step.FlusherPublishes? || step.FlusherClears? || step.FlusherFails?)
    ensures CallbackAgrees(Next(b, posted, step))
  {
  }

  lemma CancelKeepsCallback(b: Bank, c: Cancelling)
    requires CallbackAgrees(b)
    ensures CallbackAgrees(CancelEffect(b, c))
  {
    if c.CanApply? {
      TakingAResultFits(b.callback, b.row, b.now, ResultOf(c.verdict));
    } else if !c.CanInsert? {
      assert CancelEffect(b, c).row == b.row && CancelEffect(b, c).callback == b.callback;
    }
  }

  lemma ResultKeepsCallback(b: Bank, posted: bool, credited: bool)
    requires CallbackAgrees(b)
    ensures CallbackAgrees(Next(b, posted, ResultArrives(credited)))
  {
    TakingAResultFits(b.callback, b.row, b.now, if credited then InAccepted else InRejected);
  }

  lemma NextKeepsCallback(b: Bank, posted: bool, step: Step)
    requires CallbackAgrees(b)
    ensures CallbackAgrees(Next(b, posted, step))
  {
    if step.PostInserts? {
      InsertKeepsCallback(b, posted);
    } else if step.PostLooks? || step.PostChecks? || step.PostRereads? {
      HandlersKeepCallback(b, posted, step);
    } else if step.FlusherReads? || step.FlusherPublishes? || step.FlusherClears? || step.FlusherFails? {
      FlushersKeepCallback(b, posted, step);
    } else if step.CancelMoves? {
      if step.handler in b.cancels {
        CancelKeepsCallback(b, b.cancels[step.handler]);
      }
    } else if step.ResultArrives? {
      ResultKeepsCallback(b, posted, step.credited);
    }
  }

  lemma {:induction false} ResultsAreCalledBack(b: Bank, posted: bool, steps: seq<Step>)
    requires CallbackAgrees(b)
    ensures CallbackAgrees(Run(b, posted, steps))
    decreases |steps|
  {
    if steps == [] {
    } else {
      NextKeepsCallback(b, posted, steps[0]);
      ResultsAreCalledBack(Next(b, posted, steps[0]), posted, steps[1..]);
    }
  }

  /** In every run the sender of an accepted or rejected deposit has been told, will be, or was out of reach for a day. */
  lemma EveryResultIsCalledBack(now: int, valid: bool, expiresAt: int, steps: seq<Step>)
    ensures CallbackAgrees(Run(Opening(now, valid, expiresAt), true, steps))
  {
    ResultsAreCalledBack(Opening(now, valid, expiresAt), true, steps);
  }

  /**
   The row tells the truth for good: ACCEPTED was credited, REJECTED and CANCELLED never will be; no
   cancellation is answered from a PROCESSING row, Account never credits after a cancellation, and the
   request to credit a PROCESSING deposit is pending or published.
   */
  lemma RowIsTruthful(now: int, valid: bool, expiresAt: int, steps: seq<Step>, more: seq<Step>)
    ensures var b := Run(Opening(now, valid, expiresAt), true, steps);
            && (b.row == Some(InAccepted) ==> IsCredited(b.op))
            && (b.row == Some(InRejected) || b.row == Some(InCancelled) ==> !IsCredited(Run(b, true, more).op))
            && (b.row == Some(Processing) ==> b.outbox.pending || b.outbox.requested)
            && !b.answeredProcessing && !b.creditedAfterCancel
  {
    var b := Run(Opening(now, valid, expiresAt), true, steps);
    RunKeeps(Opening(now, valid, expiresAt), true, steps);
    RunKeeps(b, true, more);
  }

  /** The two can differ: an earlier copy of the deposit is credited between the look-up and the check. */
  lemma ALateLookUpCanMislead() returns (steps: seq<Step>)
    ensures var b := Run(Opening(0, true, 1), true, steps);
            Says(b, true, PostChecks) == Some(ToPost(TOO_LATE)) && IsCredited(b.op)
  {
    var b := Opening(0, true, 1);
    steps := Then(b, [], PostLooks);
    steps := Then(b, steps, PostLooks);
    steps := Then(b, steps, PostChecks);
    steps := Then(b, steps, PostInserts);
    steps := Then(b, steps, FlusherReads);
    steps := Then(b, steps, FlusherPublishes);
    steps := Then(b, steps, AccountCredits(true, true));
    steps := Then(b, steps, Passes(1));
  }

  lemma RunSplits(b: Bank, posted: bool, first: seq<Step>, rest: seq<Step>)
    ensures Run(b, posted, first + rest) == Run(Run(b, posted, first), posted, rest)
  {
    Runs.Split((b: Bank, steps: seq<Step>) => Run(b, posted, steps), (b: Bank, step: Step) => Next(b, posted, step), b, first, rest);
  }

  lemma Then(b: Bank, steps: seq<Step>, step: Step) returns (longer: seq<Step>)
    ensures longer == steps + [step]
    ensures Run(b, true, longer) == Next(Run(b, true, steps), true, step)
  {
    longer := steps + [step];
    RunSplits(b, true, steps, [step]);
    assert Run(Next(Run(b, true, steps), true, step), true, [step][1..]) == Next(Run(b, true, steps), true, step);
  }
}
