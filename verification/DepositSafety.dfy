/** What every run of an outbound deposit keeps, and what it therefore means for the money. */
module DepositSafety {
  import opened Prelude
  import opened Ledger
  import opened InterbankRules
  import opened Outbound
  import opened Deposit

  // ---------------------------------------------------------------- invariants

  /** The partner's two commitments exclude each other, and nothing on the network contradicts them unjustified. */
  ghost predicate PartnerInv(w: World, cfg: Config) {
    && !(w.partner.credited && w.partner.refused)
    && (w.partner.credited ==> w.partner.reached)
    && (w.partner.reached ==> w.side.net.posted)
    && (w.side.net.posted ==> cfg.configured && w.side.ours.row.Some?)
    && (forall r :: r in w.side.net.replies ==> Justified(w.partner, r))
    && (forall v :: v in w.side.net.verdicts ==> Truthful(w.partner, VerdictClaim(v)))
  }

  /** Each final state of the row is backed by the partner, except a misled rejection and a release after the margin. */
  predicate Backed(row: OutRow, partner: Partner, misled: bool, now: int, cfg: Config) {
    && row.isRefund == cfg.refund
    && (row.state.Accepted? ==> partner.credited)
    && (row.state.Rejected? ==> partner.refused || !cfg.configured || misled)
    && (misled ==> row.state.Rejected? && partner.credited)
    && (row.state.Reversed? ==>
          || (row.reason == Some(TimeoutConfirmed) && partner.refused)
          || (row.reason == Some(TimeoutNoResponse) && MarginExpired(row.expiresAt, now, cfg.settings.marginSeconds)))
  }

  predicate RowInv(w: World, cfg: Config) {
    if w.side.ours.row.Some? then Backed(w.side.ours.row.value, w.partner, w.misled, w.side.now, cfg) else !w.misled
  }

  /** A published final state is the state of the row. */
  predicate Matches(row: OutRow, state: OutState) {
    Final(state) ==> row.state == state
  }

  ghost predicate OutboxInv(o: Ours) {
    match o.row
    case None => o.published == {} && o.flushers == map[]
    case Some(row) =>
      && (HasEvent(row) ==> row.pendingEvent || row.state in o.published)
      && (forall st :: st in o.published ==> HasEvent(row.(state := st)) && Matches(row, st))
      && (forall f :: f in o.flushers ==> Matches(row, o.flushers[f].state))
      && (forall f :: f in o.flushers && o.flushers[f].Announced? && HasEvent(row.(state := o.flushers[f].state)) ==>
            o.flushers[f].state in o.published)
  }

  predicate Granted(op: Option<OpStatus>) {
    op == Some(OpReserved) || op == Some(OpDebited) || op == Some(OpReleased)
  }

  predicate AccountInv(o: Ours, cfg: Config) {
    && !o.conflict
    && (o.op == Some(OpDebited) ==> Accepted in o.published)
    && (o.op == Some(OpReleased) ==> Rejected in o.published || Reversed in o.published)
    && (o.op.None? || Granted(o.op) || o.op == Some(OpRejected))
    && (o.row.Some? && !cfg.refund ==> Granted(o.op))
    && (FundsReservedSent in o.accountEvents ==> Granted(o.op))
    && (FundsRejectedSent in o.accountEvents ==> o.op == Some(OpRejected))
    && (CompletedSent in o.accountEvents ==> o.op == Some(OpDebited))
    && (ReleasedSent in o.accountEvents ==> o.op == Some(OpReleased))
    && (cfg.refund ==> o.op.None?)
  }

  predicate SettledOrReversing(o: Ours) {
    o.reversalRequested || (o.row.Some? && o.row.value.state.Accepted?)
  }

  /** The deposit is rejected or reversed here. */
  predicate Refused(o: Ours) {
    o.row.Some? && (o.row.value.state.Rejected? || o.row.value.state.Reversed?)
  }

  predicate HandlerInv(o: Ours, partner: Partner, c: Callback) {
    && Truthful(partner, VerdictClaim(c.verdict))
    && match c
       case CbRead(attempt, _) => attempt == 0 || (attempt == 1 && o.row.Some? && Final(o.row.value.state))
       case CbApply(attempt, _) => attempt == 0 && o.row.Some?
       case CbLate(verdict) => verdict.VAccepted? && Refused(o)
       case CbAnswered(verdict) => o.row.Some? && Final(o.row.value.state) && (verdict.VAccepted? ==> SettledOrReversing(o))
  }

  ghost predicate CallbackInv(w: World) {
    var o := w.side.ours;
    && !o.exhausted
    && (w.side.net.acknowledged ==> SettledOrReversing(o))
    && (o.reversalRequested ==> Refused(o) && w.partner.credited)
    && forall h :: h in o.callbacks ==> HandlerInv(o, w.partner, o.callbacks[h])
  }

  ghost predicate Inv(w: World, cfg: Config) {
    PartnerInv(w, cfg) && RowInv(w, cfg) && OutboxInv(w.side.ours) && AccountInv(w.side.ours, cfg) && CallbackInv(w)
  }

  // ------------------------------------------------------ updates of the row

  /** Any update that moves the row keeps the outbox, the account and the callback handlers in step. */
  lemma MovingTheRow(o: Ours, row': OutRow, cfg: Config)
    requires o.row.Some? && Moves(o.row.value, row') && OutboxInv(o) && AccountInv(o, cfg)
    ensures OutboxInv(o.(row := Some(row'))) && AccountInv(o.(row := Some(row')), cfg)
  {
    var row := o.row.value;
    var o' := o.(row := Some(row'));
    assert forall st :: HasEvent(row'.(state := st)) == HasEvent(row.(state := st));
    assert forall st :: Matches(row, st) ==> Matches(row', st);
  }

  lemma MovingKeepsHandlers(w: World, row': OutRow)
    requires w.side.ours.row.Some? && Moves(w.side.ours.row.value, row') && CallbackInv(w)
    ensures CallbackInv(w.(side := w.side.(ours := w.side.ours.(row := Some(row')))))
  {
    var o := w.side.ours;
    var o' := o.(row := Some(row'));
    forall h | h in o'.callbacks ensures HandlerInv(o', w.partner, o'.callbacks[h]) {
      assert HandlerInv(o, w.partner, o.callbacks[h]);
    }
  }

  lemma AfterSendIsBacked(w: World, cfg: Config, seen: OutRow, res: Http)
    requires PartnerInv(w, cfg) && RowInv(w, cfg) && w.side.ours.row.Some? && CopyOf(seen, w.side.ours.row.value)
    requires if res.NotConfigured? then !cfg.configured else res.NetworkError? || ToPost(res) in w.side.net.replies
    ensures var step := HandlePostReply(seen, res);
            Backed(AfterSend(w.side.ours.row.value, seen, res, w.side.now), w.partner, w.misled || Misleads(w, cfg, step), w.side.now, cfg)
  {
    if res.Answer? {
      assert Justified(w.partner, ToPost(res));
    }
  }

  lemma ResolveTimeoutIsBacked(w: World, cfg: Config, seen: OutRow, res: Http, tick: int)
    requires PartnerInv(w, cfg) && RowInv(w, cfg) && w.side.ours.row.Some? && CopyOf(seen, w.side.ours.row.value)
    requires tick <= w.side.now
    requires res.Answer? ==> (if seen.timeoutStep == Some(Cancel) then ToCancel(res) else ToQuery(res)) in w.side.net.replies
    ensures Backed(Outbound.ResolveTimeout(w.side.ours.row.value, seen, res, tick, cfg.settings), w.partner, w.misled, w.side.now, cfg)
  {
    if res.Answer? {
      assert Justified(w.partner, if seen.timeoutStep == Some(Cancel) then ToCancel(res) else ToQuery(res));
    }
  }

  lemma RowStepKeeps(w: World, cfg: Config, step: Step)
    requires Inv(w, cfg) && (step.HandlePostReply? || step.HandleTimeout? || step.ExpireRow?)
    ensures Inv(Next(w, cfg, step), cfg)
  {
    var s := w.side;
    var row' := RowStep(s, cfg, step);
    if s.ours.row.Some? && row' != s.ours.row {
      match step {
        case HandlePostReply(seen, res) =>
          AfterSendMoves(s.ours.row.value, seen, res, s.now);
          AfterSendIsBacked(w, cfg, seen, res);
        case HandleTimeout(seen, res, tick) =>
          ResolveTimeoutMoves(s.ours.row.value, seen, res, tick, cfg.settings);
          ResolveTimeoutIsBacked(w, cfg, seen, res, tick);
        case ExpireRow(tick) => ExpireMoves(s.ours.row.value, tick);
      }
      MovingTheRow(s.ours, row'.value, cfg);
      MovingKeepsHandlers(w, row'.value);
    } else {
      assert s.ours.(row := row') == s.ours;
    }
  }

  // ------------------------------------------------------- the other steps

  lemma AccountStepKeeps(o: Ours, cfg: Config, step: Step)
    requires OutboxInv(o) && AccountInv(o, cfg)
    requires (step.ReserveFunds? && !cfg.refund) || step.DebitFunds? || step.ReleaseFunds?
    ensures AccountInv(AccountStep(o, step), cfg)
  {
  }

  lemma FlushStepKeeps(o: Ours, cfg: Config, step: Step)
    requires OutboxInv(o) && AccountInv(o, cfg)
    requires step.FlushRead? || step.FlushPublish? || step.FlushClear? || step.FlushFail?
    ensures OutboxInv(FlushStep(o, step)) && AccountInv(FlushStep(o, step), cfg)
  {
  }

  /** Flushing changes nothing of the row but its pending mark. */
  lemma FlushKeepsTheRest(w: World, cfg: Config, step: Step)
    requires Inv(w, cfg) && (step.FlushRead? || step.FlushPublish? || step.FlushClear? || step.FlushFail?)
    ensures Inv(w.(side := w.side.(ours := FlushStep(w.side.ours, step))), cfg)
  {
    var o := w.side.ours;
    var o' := FlushStep(o, step);
    FlushStepKeeps(o, cfg, step);
    assert o'.row.Some? == o.row.Some? && (o.row.Some? ==> o'.row.value.state == o.row.value.state);
    forall h | h in o'.callbacks ensures HandlerInv(o', w.partner, o'.callbacks[h]) {
      assert HandlerInv(o, w.partner, o.callbacks[h]);
    }
  }

  lemma CallbackApplies(w: World, cfg: Config, handler: int, code: Option<int>)
    requires Inv(w, cfg) && handler in w.side.ours.callbacks && w.side.ours.callbacks[handler].CbApply?
    ensures Inv(w.(side := w.side.(ours := CallbackStep(w.side.ours, handler, code))), cfg)
  {
    var o := w.side.ours;
    var o' := CallbackStep(o, handler, code);
    var c := o.callbacks[handler];
    assert HandlerInv(o, w.partner, c);
    var moved := w.(side := w.side.(ours := o.(row := o'.row)));
    Outbound.CallbackMoves(o.row.value, c.verdict, code);
    MovingTheRow(o, o'.row.value, cfg);
    MovingKeepsHandlers(w, o'.row.value);
    forall h | h in o'.callbacks ensures HandlerInv(o', w.partner, o'.callbacks[h]) {
      if h != handler {
        assert HandlerInv(moved.side.ours, w.partner, o.callbacks[h]);
      }
    }
  }

  lemma CallbackStepKeeps(w: World, cfg: Config, handler: int, code: Option<int>)
    requires Inv(w, cfg) && handler in w.side.ours.callbacks && !w.side.ours.callbacks[handler].CbApply?
    ensures Inv(w.(side := w.side.(ours := CallbackStep(w.side.ours, handler, code))), cfg)
  {
    var o := w.side.ours;
    var o' := CallbackStep(o, handler, code);
    assert HandlerInv(o, w.partner, o.callbacks[handler]);
    forall h | h in o'.callbacks ensures HandlerInv(o', w.partner, o'.callbacks[h]) {
      if h != handler {
        assert HandlerInv(o, w.partner, o.callbacks[h]);
      }
    }
  }

  lemma OtherSideStepKeeps(w: World, cfg: Config, step: Step)
    requires Inv(w, cfg)
    requires step.Wait? || step.CreateRow? || step.Post?
    ensures Inv(Next(w, cfg, step), cfg)
  {
    var w' := Next(w, cfg, step);
    var o, o' := w.side.ours, w'.side.ours;
    forall h | h in o'.callbacks ensures HandlerInv(o', w'.partner, o'.callbacks[h]) {
      assert HandlerInv(o, w.partner, o.callbacks[h]);
    }
  }

  lemma CallbackComesAndGoes(w: World, cfg: Config, step: Step)
    requires Inv(w, cfg)
    requires step.CallbackArrives? || step.CallbackAcknowledged? || step.CallbackCrashes?
    ensures Inv(Next(w, cfg, step), cfg)
  {
    var w' := Next(w, cfg, step);
    var o, o' := w.side.ours, w'.side.ours;
    forall h | h in o'.callbacks ensures HandlerInv(o', w'.partner, o'.callbacks[h]) {
      if h in o.callbacks {
        assert HandlerInv(o, w.partner, o.callbacks[h]);
      }
    }
  }

  lemma PartnerStepKeeps(w: World, cfg: Config, step: Step)
    requires Inv(w, cfg) && step.PartnerMoves?
    ensures Inv(Next(w, cfg, step), cfg)
  {
    var w' := Next(w, cfg, step);
    var o := w.side.ours;
    forall h | h in o.callbacks ensures HandlerInv(o, w'.partner, o.callbacks[h]) {
      assert HandlerInv(o, w.partner, o.callbacks[h]);
    }
  }

  lemma NextKeeps(w: World, cfg: Config, step: Step)
    requires Inv(w, cfg)
    ensures Inv(Next(w, cfg, step), cfg)
  {
    if step.PartnerMoves? {
      PartnerStepKeeps(w, cfg, step);
    } else if step.ReserveFunds? || step.DebitFunds? || step.ReleaseFunds? {
      if !step.ReserveFunds? || !cfg.refund {
        AccountStepKeeps(w.side.ours, cfg, step);
        AccountKeepsTheRest(w, cfg, step);
      }
    } else if step.HandlePostReply? || step.HandleTimeout? || step.ExpireRow? {
      RowStepKeeps(w, cfg, step);
    } else if step.FlushRead? || step.FlushPublish? || step.FlushClear? || step.FlushFail? {
      FlushKeepsTheRest(w, cfg, step);
    } else if step.CallbackMoves? {
      if step.handler in w.side.ours.callbacks {
        if w.side.ours.callbacks[step.handler].CbApply? {
          CallbackApplies(w, cfg, step.handler, step.code);
        } else {
          CallbackStepKeeps(w, cfg, step.handler, step.code);
        }
      }
    } else if step.CallbackArrives? || step.CallbackAcknowledged? || step.CallbackCrashes? {
      CallbackComesAndGoes(w, cfg, step);
    } else {
      OtherSideStepKeeps(w, cfg, step);
    }
  }

  /** The Account service touches neither the row nor the outbox nor the callbacks. */
  lemma AccountKeepsTheRest(w: World, cfg: Config, step: Step)
    requires Inv(w, cfg)
    requires step.ReserveFunds? || step.DebitFunds? || step.ReleaseFunds?
    ensures var w' := w.(side := w.side.(ours := AccountStep(w.side.ours, step)));
            PartnerInv(w', cfg) && RowInv(w', cfg) && OutboxInv(w'.side.ours) && CallbackInv(w')
  {
    var o, o' := w.side.ours, AccountStep(w.side.ours, step);
    forall h | h in o'.callbacks ensures HandlerInv(o', w.partner, o'.callbacks[h]) {
      assert HandlerInv(o, w.partner, o.callbacks[h]);
    }
  }

  lemma {:induction false} RunKeeps(w: World, cfg: Config, steps: seq<Step>)
    requires Inv(w, cfg)
    ensures Inv(Run(w, cfg, steps), cfg)
    decreases |steps|
  {
    if steps == [] {
    } else {
      NextKeeps(w, cfg, steps[0]);
      RunKeeps(Next(w, cfg, steps[0]), cfg, steps[1..]);
    }
  }

  lemma Reachable(cfg: Config, began: int, steps: seq<Step>)
    ensures Inv(Run(Start(began), cfg, steps), cfg)
  {
    RunKeeps(Start(began), cfg, steps);
  }

  // ------------------------------------------------------- absorbing states

  predicate Settled(o: Ours) {
    o.op == Some(OpDebited) || o.op == Some(OpReleased)
  }

  predicate RowOnward(o: Ours, o': Ours) {
    o.row.Some? ==> o'.row.Some? && Climbs(o.row.value, o'.row.value)
  }

  /** Nothing ever moves backwards: rows, the settled operation, credit and publications. */
  predicate Onward(w: World, w': World) {
    && RowOnward(w.side.ours, w'.side.ours)
    && (Settled(w.side.ours) ==> w'.side.ours.op == w.side.ours.op
                                 && (CompletedSent in w'.side.ours.accountEvents ==> CompletedSent in w.side.ours.accountEvents)
                                 && (ReleasedSent in w'.side.ours.accountEvents ==> ReleasedSent in w.side.ours.accountEvents))
    && w.side.ours.accountEvents <= w'.side.ours.accountEvents
    && (w.partner.credited ==> w'.partner.credited)
    && (w.partner.refused ==> w'.partner.refused)
    && w.side.now <= w'.side.now
  }

  lemma RowStepIsOnward(s: State, cfg: Config, step: Step)
    requires step.HandlePostReply? || step.HandleTimeout? || step.ExpireRow?
    ensures RowOnward(s.ours, s.ours.(row := RowStep(s, cfg, step)))
  {
    if s.ours.row.Some? {
      match step {
        case HandlePostReply(seen, res) =>
          if CopyOf(seen, s.ours.row.value) { AfterSendMoves(s.ours.row.value, seen, res, s.now); }
        case HandleTimeout(seen, res, tick) => ResolveTimeoutMoves(s.ours.row.value, seen, res, tick, cfg.settings);
        case ExpireRow(tick) => ExpireMoves(s.ours.row.value, tick);
      }
    }
  }

  lemma CallbackStepIsOnward(o: Ours, h: int, code: Option<int>)
    ensures RowOnward(o, CallbackStep(o, h, code))
  {
    if o.row.Some? && h in o.callbacks {
      Outbound.CallbackMoves(o.row.value, o.callbacks[h].verdict, code);
    }
  }

  lemma NextKeepsTheRowOnward(w: World, cfg: Config, step: Step)
    ensures RowOnward(w.side.ours, Next(w, cfg, step).side.ours)
  {
    if step.HandlePostReply? || step.HandleTimeout? || step.ExpireRow? {
      RowStepIsOnward(w.side, cfg, step);
    } else if step.CallbackMoves? {
      CallbackStepIsOnward(w.side.ours, step.handler, step.code);
    }
  }

  lemma NextIsOnward(w: World, cfg: Config, step: Step)
    ensures Onward(w, Next(w, cfg, step))
  {
    NextKeepsTheRowOnward(w, cfg, step);
  }

  lemma {:induction false} RunIsOnward(w: World, cfg: Config, steps: seq<Step>)
    ensures Onward(w, Run(w, cfg, steps))
    decreases |steps|
  {
    if steps == [] {
    } else {
      NextIsOnward(w, cfg, steps[0]);
      RunIsOnward(Next(w, cfg, steps[0]), cfg, steps[1..]);
    }
  }

  // -------------------------------------------------------------- main results

  predicate ReversedOnConfirmation(row: OutRow) {
    row.state.Reversed? && row.reason != Some(TimeoutNoResponse)
  }

  /**
   The two banks agree: an accepted deposit was credited; one reversed on the partner's word never is, in any
   continuation; a rejected one was credited exactly if the row was misled, and otherwise never is; and the only
   release without the partner's word happens at or after expiresAt plus the margin.
   */
  lemma TwoBankAgreement(cfg: Config, began: int, steps: seq<Step>, more: seq<Step>)
    requires Run(Start(began), cfg, steps).side.ours.row.Some?
    ensures var w := Run(Start(began), cfg, steps);
            var row := w.side.ours.row.value;
            && (row.state.Accepted? ==> w.partner.credited)
            && (ReversedOnConfirmation(row) ==> !Run(w, cfg, more).partner.credited)
            && (row.state.Rejected? ==> (w.partner.credited <==> w.misled) && (w.misled || !Run(w, cfg, more).partner.credited))
            && (row.state.Reversed? && !ReversedOnConfirmation(row) ==>
                  MarginExpired(row.expiresAt, w.side.now, cfg.settings.marginSeconds))
  {
    var w := Run(Start(began), cfg, steps);
    Reachable(cfg, began, steps);
    RunKeeps(w, cfg, more);
    RunIsOnward(w, cfg, more);
  }

  /** The outbox loses no verdict: past PENDING, the event of the current state is pending or published. */
  lemma OutboxNeverLoses(cfg: Config, began: int, steps: seq<Step>)
    ensures var o := Run(Start(began), cfg, steps).side.ours;
            o.row.Some? && HasEvent(o.row.value) ==> o.row.value.pendingEvent || o.row.value.state in o.published
  {
    Reachable(cfg, began, steps);
  }

  /** Across the two services: debited only if accepted, released only if not, never both, never in conflict. */
  lemma DebitXorRelease(cfg: Config, began: int, steps: seq<Step>, more: seq<Step>)
    ensures var o := Run(Start(began), cfg, steps).side.ours;
            && (o.op == Some(OpDebited) ==> o.row.Some? && o.row.value.state.Accepted?)
            && (o.op == Some(OpReleased) ==> o.row.Some? && (o.row.value.state.Rejected? || o.row.value.state.Reversed?))
            && (Settled(o) ==> Run(Run(Start(began), cfg, steps), cfg, more).side.ours.op == o.op)
            && !o.conflict
            && !(CompletedSent in o.accountEvents && ReleasedSent in o.accountEvents)
  {
    Reachable(cfg, began, steps);
    RunIsOnward(Run(Start(began), cfg, steps), cfg, more);
  }

  /** The customer's money and the partner's credit go together, but for a misled rejection and a release after the margin. */
  lemma SettledWithThePartner(cfg: Config, began: int, steps: seq<Step>, more: seq<Step>)
    ensures var w := Run(Start(began), cfg, steps);
            var o := w.side.ours;
            && (o.op == Some(OpDebited) ==> w.partner.credited && !w.misled)
            && (o.op == Some(OpReleased) ==>
                  || (w.misled && w.partner.credited)
                  || !Run(w, cfg, more).partner.credited
                  || (o.row.Some? && o.row.value.reason == Some(TimeoutNoResponse)
                      && MarginExpired(o.row.value.expiresAt, w.side.now, cfg.settings.marginSeconds)))
  {
    DebitXorRelease(cfg, began, steps, more);
    Reachable(cfg, began, steps);
    if Run(Start(began), cfg, steps).side.ours.row.Some? {
      TwoBankAgreement(cfg, began, steps, more);
    }
  }

  /** A callback is only answered once the deposit has ended here. */
  lemma AnsweredCallbacksEndTheDeposit(cfg: Config, began: int, steps: seq<Step>, handler: int)
    requires var o := Run(Start(began), cfg, steps).side.ours; handler in o.callbacks && o.callbacks[handler].CbAnswered?
    ensures var o := Run(Start(began), cfg, steps).side.ours; o.row.Some? && Final(o.row.value.state)
  {
    Reachable(cfg, began, steps);
    var w := Run(Start(began), cfg, steps);
    assert HandlerInv(w.side.ours, w.partner, w.side.ours.callbacks[handler]);
  }

  /** A reversal is only ever asked for when the deposit was rejected or reversed here and credited there. */
  lemma ReversalsAreAskedWithReason(cfg: Config, began: int, steps: seq<Step>)
    ensures var w := Run(Start(began), cfg, steps);
            w.side.ours.reversalRequested ==> Refused(w.side.ours) && w.partner.credited
  {
    Reachable(cfg, began, steps);
  }

  /**
   A credited partner that got its answer is never left alone with the credit: the deposit is accepted
   here, or a reversal has been asked for; and the three tries of the callback handler never run out.
   */
  lemma NoSilentDisagreement(cfg: Config, began: int, steps: seq<Step>)
    ensures var w := Run(Start(began), cfg, steps);
            (w.side.net.acknowledged ==> SettledOrReversing(w.side.ours)) && !w.side.ours.exhausted
  {
    Reachable(cfg, began, steps);
  }

  // ------------------------------------------------------- announcements

  /** The i-th step of the run is the one that debits or releases the funds. */
  predicate SettlesAt(w: World, cfg: Config, steps: seq<Step>, i: nat)
    requires i < |steps|
  {
    var before := Run(w, cfg, steps[..i]);
    !Settled(before.side.ours) && Settled(Next(before, cfg, steps[i]).side.ours)
  }

  predicate Emits(step: Step) {
    (step.DebitFunds? || step.ReleaseFunds?) && step.emitted
  }

  predicate Announced(o: Ours) {
    if o.op == Some(OpDebited) then CompletedSent in o.accountEvents else ReleasedSent in o.accountEvents
  }

  lemma {:induction false} SomeStepSettles(w: World, cfg: Config, steps: seq<Step>) returns (i: nat)
    requires !Settled(w.side.ours) && Settled(Run(w, cfg, steps).side.ours)
    ensures i < |steps| && SettlesAt(w, cfg, steps, i)
    decreases |steps|
  {
    var w' := Next(w, cfg, steps[0]);
    if Settled(w'.side.ours) {
      i := 0;
    } else {
      var j := SomeStepSettles(w', cfg, steps[1..]);
      i := j + 1;
      assert steps[..i][0] == steps[0] && steps[..i][1..] == steps[1..][..j];
    }
  }

  /** The announcement has no outbox, so the step that settles decides about it, for ever. */
  lemma SettlingDecides(cfg: Config, began: int, steps: seq<Step>, i: nat)
    requires i < |steps| && SettlesAt(Start(began), cfg, steps, i)
    ensures var o := Run(Start(began), cfg, steps).side.ours;
            && Settled(o) && (Announced(o) <==> Emits(steps[i]))
            && (if o.op == Some(OpDebited) then steps[i].DebitFunds? else steps[i].ReleaseFunds?)
  {
    var before := Run(Start(began), cfg, steps[..i]);
    Reachable(cfg, began, steps[..i]);
    SettlingStep(before.side.ours, cfg, steps[i]);
    NextIsAccountStep(before, cfg, steps[i]);
    assert steps == steps[..i] + ([steps[i]] + steps[i + 1..]);
    RunSplits(Start(began), cfg, steps[..i], [steps[i]] + steps[i + 1..]);
    RunIsOnward(Next(before, cfg, steps[i]), cfg, steps[i + 1..]);
  }

  lemma SettlingStep(o: Ours, cfg: Config, step: Step)
    requires AccountInv(o, cfg) && !Settled(o)
    requires step.ReserveFunds? || step.DebitFunds? || step.ReleaseFunds?
    requires Settled(AccountStep(o, step))
    ensures var o' := AccountStep(o, step);
            && (Announced(o') <==> Emits(step))
            && (if o'.op == Some(OpDebited) then step.DebitFunds? else step.ReleaseFunds?)
  {
  }

  lemma NextIsAccountStep(w: World, cfg: Config, step: Step)
    requires !Settled(w.side.ours) && Settled(Next(w, cfg, step).side.ours)
    ensures step.ReserveFunds? || step.DebitFunds? || step.ReleaseFunds?
    ensures Next(w, cfg, step).side.ours == AccountStep(w.side.ours, step)
  {
  }

  /** A settlement is announced exactly if the one step that made it did not die before it could publish. */
  lemma AnnouncedIffEmitted(cfg: Config, began: int, steps: seq<Step>) returns (i: nat)
    requires Settled(Run(Start(began), cfg, steps).side.ours)
    ensures i < |steps| && SettlesAt(Start(began), cfg, steps, i)
    ensures forall j :: 0 <= j < |steps| && SettlesAt(Start(began), cfg, steps, j) ==>
              (Announced(Run(Start(began), cfg, steps).side.ours) <==> Emits(steps[j]))
  {
    i := SomeStepSettles(Start(began), cfg, steps);
    forall j | 0 <= j < |steps| && SettlesAt(Start(began), cfg, steps, j)
      ensures Announced(Run(Start(began), cfg, steps).side.ours) <==> Emits(steps[j])
    {
      SettlingDecides(cfg, began, steps, j);
    }
  }

  /** So without a crash between commit and publication every settlement is announced. */
  lemma WithoutCrashesAllIsAnnounced(cfg: Config, began: int, steps: seq<Step>)
    requires forall i :: 0 <= i < |steps| && (steps[i].DebitFunds? || steps[i].ReleaseFunds?) ==> steps[i].emitted
    ensures var o := Run(Start(began), cfg, steps).side.ours; Settled(o) ==> Announced(o)
  {
    if Settled(Run(Start(began), cfg, steps).side.ours) {
      var i := SomeStepSettles(Start(began), cfg, steps);
      SettlingDecides(cfg, began, steps, i);
    }
  }

  /**
   The announcement of a settlement has no outbox: if the service dies between commit and publication,
   the redelivered event finds the operation settled and announces nothing, for ever.
   */
  lemma LostAnnouncementStaysLost(cfg: Config, began: int, steps: seq<Step>, more: seq<Step>)
    ensures var o := Run(Start(began), cfg, steps).side.ours;
            var o' := Run(Run(Start(began), cfg, steps), cfg, more).side.ours;
            && (o.op == Some(OpDebited) ==> (CompletedSent in o'.accountEvents <==> CompletedSent in o.accountEvents))
            && (o.op == Some(OpReleased) ==> (ReleasedSent in o'.accountEvents <==> ReleasedSent in o.accountEvents))
  {
    var w := Run(Start(began), cfg, steps);
    RunIsOnward(w, cfg, more);
  }

  /** And it does happen: a run that debits the customer, with the partner credited, and announces nothing. */
  lemma AnAnnouncementCanBeLost(cfg: Config) returns (steps: seq<Step>)
    requires cfg.configured && !cfg.refund
    ensures var w := Run(Start(0), cfg, steps);
            w.side.ours.op == Some(OpDebited) && w.partner.credited && CompletedSent !in w.side.ours.accountEvents
  {
    steps := ARunCanBeAccepted(cfg);
    steps := Then(cfg, steps, FlushRead(0));
    steps := Then(cfg, steps, FlushPublish(0));
    steps := Then(cfg, steps, DebitFunds(false));
  }

  lemma ARunCanBeAccepted(cfg: Config) returns (steps: seq<Step>)
    requires cfg.configured && !cfg.refund
    ensures var w := Run(Start(0), cfg, steps);
            && w.partner.credited && w.side.ours.op == Some(OpReserved) && CompletedSent !in w.side.ours.accountEvents
            && w.side.ours.row.Some? && w.side.ours.row.value.state.Accepted? && w.side.ours.row.value.pendingEvent
            && !w.side.ours.row.value.isRefund && w.side.ours.flushers == map[]
  {
    var reply := Answer(200, WAccepted, None);
    steps := Then(cfg, [], ReserveFunds(true, true));
    steps := Then(cfg, steps, CreateRow);
    steps := Then(cfg, steps, Post);
    steps := Then(cfg, steps, PartnerMoves(Partner(true, true, false), Some(ToPost(reply)), None));
    steps := Then(cfg, steps, HandlePostReply(NewRow(0, false), reply));
  }

  lemma Then(cfg: Config, steps: seq<Step>, step: Step) returns (longer: seq<Step>)
    ensures longer == steps + [step]
    ensures Run(Start(0), cfg, longer) == Next(Run(Start(0), cfg, steps), cfg, step)
  {
    longer := steps + [step];
    RunSplits(Start(0), cfg, steps, [step]);
    var w := Next(Run(Start(0), cfg, steps), cfg, step);
    assert Run(w, cfg, [step][1..]) == w;
  }
}
