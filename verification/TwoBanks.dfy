/**
 The outbound deposit joined to a concrete receiving bank. Any bank whose every step is a lawful move
 of a partner makes each joint run a run of module Deposit; our own receiver and the mock are two.
 */
module TwoBanks {
  import opened Prelude
  import Runs
  import opened InterbankRules
  import Ledger
  import Outbound
  import Deposit
  import DepositSafety
  import Receiver
  import MockBank

  /** A bank: how it steps (given whether a copy was sent), what it says, and how it looks to the sender. */
  datatype Partnership<!B, !S> = Partnership(
    next: (B, bool, S) -> B,
    says: (B, bool, S) -> Option<Deposit.PartnerReply>,
    calls: (B, S) -> Option<Verdict>,
    view: B -> Deposit.Partner,
    inv: B -> bool)

  ghost predicate Lawful<B(!new), S(!new)>(p: Partnership<B, S>) {
    forall b: B, posted: bool, s: S :: p.inv(b) ==> LawfulAt(p, b, posted, s)
  }

  ghost predicate LawfulAt<B, S>(p: Partnership<B, S>, b: B, posted: bool, s: S) {
    && p.inv(p.next(b, posted, s))
    && Deposit.Lawful(p.view(b), p.view(p.next(b, posted, s)), posted, p.says(b, posted, s), p.calls(b, s))
  }

  /** `misled`, as in module Deposit: the sender's row was rejected on a refusal that was not true. */
  datatype Joint<B> = Joint(sender: Deposit.State, bank: B, misled: bool)

  datatype Step<S> = SenderMoves(step: Deposit.Step) | BankMoves(move: S)

  function Next<B, S>(p: Partnership<B, S>, j: Joint<B>, cfg: Deposit.Config, step: Step<S>): Joint<B> {
    match step
    case SenderMoves(s) =>
      if s.PartnerMoves? then j
      else j.(sender := Deposit.SideStep(j.sender, cfg, s), misled := j.misled || Deposit.Misleads(World(p, j), cfg, s))
    case BankMoves(s) =>
      var net := j.sender.net;
      Joint(j.sender.(net := Deposit.Heard(net, p.says(j.bank, net.posted, s), p.calls(j.bank, s))),
            p.next(j.bank, net.posted, s), j.misled)
  }

  function Run<B, S>(p: Partnership<B, S>, j: Joint<B>, cfg: Deposit.Config, steps: seq<Step<S>>): Joint<B>
    decreases |steps|
  {
    if steps == [] then j else Run(p, Next(p, j, cfg, steps[0]), cfg, steps[1..])
  }

  function World<B, S>(p: Partnership<B, S>, j: Joint<B>): Deposit.World {
    Deposit.World(j.sender, p.view(j.bank), j.misled)
  }

  /** The step of the outbound deposit that a joint step is; a partner step of the sender's is an idle wait. */
  function Shadow<B, S>(p: Partnership<B, S>, j: Joint<B>, step: Step<S>): Deposit.Step {
    match step
    case SenderMoves(s) => if s.PartnerMoves? then Deposit.Wait(0) else s
    case BankMoves(s) =>
      var posted := j.sender.net.posted;
      Deposit.PartnerMoves(p.view(p.next(j.bank, posted, s)), p.says(j.bank, posted, s), p.calls(j.bank, s))
  }

  function Shadows<B, S>(p: Partnership<B, S>, j: Joint<B>, cfg: Deposit.Config, steps: seq<Step<S>>): seq<Deposit.Step>
    decreases |steps|
  {
    if steps == [] then [] else [Shadow(p, j, steps[0])] + Shadows(p, Next(p, j, cfg, steps[0]), cfg, steps[1..])
  }

  lemma NextIsShadowed<B(!new), S(!new)>(p: Partnership<B, S>, j: Joint<B>, cfg: Deposit.Config, step: Step<S>)
    requires Lawful(p) && p.inv(j.bank)
    ensures World(p, Next(p, j, cfg, step)) == Deposit.Next(World(p, j), cfg, Shadow(p, j, step))
    ensures p.inv(Next(p, j, cfg, step).bank)
  {
    if step.BankMoves? {
      assert LawfulAt(p, j.bank, j.sender.net.posted, step.move);
    }
  }

  /** Every joint run is a run of the outbound deposit. */
  lemma {:induction false} RunIsShadowed<B(!new), S(!new)>(p: Partnership<B, S>, j: Joint<B>, cfg: Deposit.Config, steps: seq<Step<S>>)
    requires Lawful(p) && p.inv(j.bank)
    ensures World(p, Run(p, j, cfg, steps)) == Deposit.Run(World(p, j), cfg, Shadows(p, j, cfg, steps))
    ensures p.inv(Run(p, j, cfg, steps).bank)
    decreases |steps|
  {
    if steps == [] {
    } else {
      NextIsShadowed(p, j, cfg, steps[0]);
      RunIsShadowed(p, Next(p, j, cfg, steps[0]), cfg, steps[1..]);
      var shadows := Shadows(p, j, cfg, steps);
      assert shadows[0] == Shadow(p, j, steps[0]) && shadows[1..] == Shadows(p, Next(p, j, cfg, steps[0]), cfg, steps[1..]);
    }
  }

  // ------------------------------------------------------------- main results

  /** A bank that has not heard of the deposit, though it may already be bound to refuse it. */
  predicate Unheard(p: Deposit.Partner) {
    !p.reached && !p.credited
  }

  function Opening<B>(bank: B, began: int): Joint<B> {
    Joint(Deposit.Start(began).side, bank, false)
  }

  /** Both banks' records of one deposit, now and, at the other bank, in a continuation. */
  predicate Agreed(side: Deposit.State, misled: bool, creditedNow: bool, creditedLater: bool, cfg: Deposit.Config) {
    var o := side.ours;
    && (o.row.Some? ==>
          var row := o.row.value;
          && (row.state.Accepted? ==> creditedNow)
          && (row.state.Rejected? ==> (creditedNow <==> misled) && (!misled ==> !creditedLater))
          && (row.state.Reversed? && row.reason != Some(TimeoutNoResponse) ==> !creditedLater)
          && (row.state.Reversed? && row.reason == Some(TimeoutNoResponse) ==>
                MarginExpired(row.expiresAt, side.now, cfg.settings.marginSeconds)))
    && (o.op == Some(Ledger.OpDebited) ==> o.row.Some? && o.row.value.state.Accepted?)
    && (o.op == Some(Ledger.OpReleased) ==> o.row.Some? && (o.row.value.state.Rejected? || o.row.value.state.Reversed?))
    && (side.net.acknowledged ==> DepositSafety.SettledOrReversing(o))
  }

  /**
   With any lawful bank, at every moment: what the sender's row and operation say is so at the other bank and
   stays so; a rejected deposit was credited exactly if the sender was misled, and a deposit is released for
   want of an answer only at or after expiresAt plus the margin.
   */
  lemma BanksAgree<B(!new), S(!new)>(p: Partnership<B, S>, bank: B, cfg: Deposit.Config, began: int,
                                     steps: seq<Step<S>>, more: seq<Step<S>>)
    requires Lawful(p) && p.inv(bank) && Unheard(p.view(bank))
    ensures var j := Run(p, Opening(bank, began), cfg, steps);
            Agreed(j.sender, j.misled, p.view(j.bank).credited, p.view(Run(p, j, cfg, more).bank).credited, cfg)
  {
    var start := Opening(bank, began);
    var j := Run(p, start, cfg, steps);
    RunIsShadowed(p, start, cfg, steps);
    RunIsShadowed(p, j, cfg, more);
    var first, rest := Shadows(p, start, cfg, steps), Shadows(p, j, cfg, more);
    if p.view(bank).refused {
      var barred := [Deposit.PartnerMoves(Deposit.Partner(false, false, true), None, None)];
      assert Deposit.Run(Deposit.Start(began), cfg, barred) == World(p, start);
      Deposit.RunSplits(Deposit.Start(began), cfg, barred, first);
      first := barred + first;
    }
    assert World(p, j) == Deposit.Run(Deposit.Start(began), cfg, first);
    DepositSafety.DebitXorRelease(cfg, began, first, rest);
    DepositSafety.NoSilentDisagreement(cfg, began, first);
    if j.sender.ours.row.Some? {
      DepositSafety.TwoBankAgreement(cfg, began, first, rest);
    }
  }

  /** A bank whose replies are all true, its refusals of a POST included. */
  ghost predicate Honest<B(!new), S(!new)>(p: Partnership<B, S>) {
    forall b: B, posted: bool, s: S :: p.inv(b) ==> HonestAt(p, b, posted, s)
  }

  predicate HonestAt<B, S>(p: Partnership<B, S>, b: B, posted: bool, s: S) {
    p.says(b, posted, s).Some? ==> Deposit.Truthful(p.view(p.next(b, posted, s)), Deposit.Meaning(p.says(b, posted, s).value))
  }

  ghost predicate AllTrue<B, S>(p: Partnership<B, S>, j: Joint<B>) {
    forall r :: r in j.sender.net.replies ==> Deposit.Truthful(p.view(j.bank), Deposit.Meaning(r))
  }

  lemma {:induction false} HonestBanksMisleadNobody<B(!new), S(!new)>(p: Partnership<B, S>, j: Joint<B>, cfg: Deposit.Config, steps: seq<Step<S>>)
    requires Lawful(p) && Honest(p) && p.inv(j.bank)
    requires !j.misled && AllTrue(p, j)
    ensures !Run(p, j, cfg, steps).misled
    decreases |steps|
  {
    if steps == [] {
    } else {
      var j' := Next(p, j, cfg, steps[0]);
      if steps[0].SenderMoves? {
        if !steps[0].step.PartnerMoves? {
          SendersHearNothing(j.sender, cfg, steps[0].step);
        }
      } else {
        assert LawfulAt(p, j.bank, j.sender.net.posted, steps[0].move);
        assert HonestAt(p, j.bank, j.sender.net.posted, steps[0].move);
      }
      HonestBanksMisleadNobody(p, j', cfg, steps[1..]);
    }
  }

  lemma SendersHearNothing(s: Deposit.State, cfg: Deposit.Config, step: Deposit.Step)
    requires !step.PartnerMoves?
    ensures Deposit.SideStep(s, cfg, step).net.replies == s.net.replies
  {
  }

  type TwinStep = Step<Receiver.Step>

  ghost function OurReceiver(): Partnership<Receiver.Bank, Receiver.Step> {
    Partnership((b: Receiver.Bank, posted: bool, s: Receiver.Step) => Receiver.Next(b, posted, s),
                (b: Receiver.Bank, posted: bool, s: Receiver.Step) => Receiver.Says(b, posted, s),
                (b: Receiver.Bank, s: Receiver.Step) => Receiver.Calls(b, s),
                (b: Receiver.Bank) => Receiver.View(b),
                (b: Receiver.Bank) => Receiver.Inv(b))
  }

  lemma OurReceiverIsLawful()
    ensures Lawful(OurReceiver())
  {
    var p := OurReceiver();
    forall b: Receiver.Bank, posted: bool, s: Receiver.Step | p.inv(b) ensures LawfulAt(p, b, posted, s) {
      Receiver.NextKeeps(b, posted, s);
      Receiver.NextIsLawful(b, posted, s);
    }
  }

  /** The sender understands every reply of this receiver as what its row says. */
  lemma OurRepliesAreUnderstood(b: Receiver.Bank, posted: bool, step: Receiver.Step)
    requires Receiver.Inv(b) && Receiver.Says(b, posted, step).Some?
    ensures var reply := Receiver.Says(b, posted, step).value;
            var claim := Deposit.Meaning(reply);
            && (step.StatusAsked? || step.CancelMoves? || (step.PostLooks? && b.valid) || step.PostRereads? ==>
                  && (claim.SaysCredited? <==> b.row == Some(InAccepted))
                  && (claim.SaysRefused? <==> b.row == Some(InRejected) || b.row == Some(InCancelled)))
            && (step.PostLooks? && !b.valid ==> claim.SaysRefused?)
            && (step.PostChecks? ==> claim.SaysRefused?)
            && (step.PostInserts? ==> claim.SaysNothing? && reply.res.status == 202)
            && (step.StatusAsked? && (b.row.None? || b.row == Some(Processing)) ==>
                  reply.res.Answer? && (reply.res.status == 404 || (reply.res.status == 200 && reply.res.word.WProcessing?)))
            && (step.CancelMoves? ==> !claim.SaysNothing?)
            && (step.StatusAsked? ==> reply.ToQuery?) && (step.CancelMoves? ==> reply.ToCancel?)
            && (step.PostLooks? || step.PostChecks? || step.PostInserts? || step.PostRereads? ==> reply.ToPost?)
  {
    if step.CancelMoves? {
      assert Receiver.HandlerAgrees(b, b.cancels[step.handler]);
    }
  }

  /** And its callback tells the result. */
  lemma OurCallbacksTellTheResult(b: Receiver.Bank)
    ensures Receiver.Calls(b, Receiver.CallsBack) == Some(VAccepted) <==> b.row == Some(InAccepted)
    ensures Receiver.Calls(b, Receiver.CallsBack) == Some(VRejected) <==> b.row == Some(InRejected)
  {
  }

  ghost function TheMock(r: MockBank.Request): Partnership<MockBank.Site, MockBank.Step> {
    Partnership((b: MockBank.Site, posted: bool, s: MockBank.Step) => MockBank.Next(b, r, posted, s),
                (b: MockBank.Site, posted: bool, s: MockBank.Step) => MockBank.Says(b, r, posted, s),
                (b: MockBank.Site, s: MockBank.Step) => MockBank.Calls(b, r, s),
                (b: MockBank.Site) => MockBank.View(b, r),
                (b: MockBank.Site) => MockBank.Inv(b, r))
  }

  lemma TheMockIsLawful(r: MockBank.Request)
    ensures Lawful(TheMock(r))
  {
    var p := TheMock(r);
    forall b: MockBank.Site, posted: bool, s: MockBank.Step | p.inv(b) ensures LawfulAt(p, b, posted, s) {
      MockBank.NextKeeps(b, r, posted, s);
      MockBank.NextIsLawful(b, r, posted, s);
    }
  }

  lemma TheMockIsHonest(r: MockBank.Request)
    ensures Honest(TheMock(r))
  {
    var p := TheMock(r);
    forall b: MockBank.Site, posted: bool, s: MockBank.Step | p.inv(b) ensures HonestAt(p, b, posted, s) {
      MockBank.NextIsHonest(b, r, posted, s);
    }
  }

  predicate LateCheck(b: Receiver.Bank, s: TwinStep) {
    s == BankMoves(Receiver.PostChecks)
    && b.posts.looked > 0 && b.now >= b.expiresAt && Receiver.IsCredited(b.op)
  }

  /** Whoever is misled was told so by a handler that found no row, checked after expiresAt, and came too late to see the credit. */
  lemma {:induction false} TwinsAreMisledByALateCheck(j: Joint<Receiver.Bank>, cfg: Deposit.Config, steps: seq<TwinStep>) returns (i: nat)
    requires Receiver.Inv(j.bank) && !j.misled && AllTrue(OurReceiver(), j)
    requires Run(OurReceiver(), j, cfg, steps).misled
    ensures i < |steps| && LateCheck(Run(OurReceiver(), j, cfg, steps[..i]).bank, steps[i])
    decreases |steps|
  {
    var p := OurReceiver();
    if LateCheck(j.bank, steps[0]) {
      i := 0;
    } else {
      if steps[0].SenderMoves? {
        if !steps[0].step.PartnerMoves? {
          SendersHearNothing(j.sender, cfg, steps[0].step);
        }
      } else {
        OurReceiverIsLawful();
        assert LawfulAt(p, j.bank, j.sender.net.posted, steps[0].move);
        Receiver.OnlyALateLookUpMisleads(j.bank, j.sender.net.posted, steps[0].move);
      }
      var k := TwinsAreMisledByALateCheck(Next(p, j, cfg, steps[0]), cfg, steps[1..]);
      i := k + 1;
      assert steps[..i][0] == steps[0] && steps[..i][1..] == steps[1..][..k];
    }
  }

  /** Two banks running this software agree, but for a rejection on a 422 that came of a late look-up. */
  lemma TwinsAgree(cfg: Deposit.Config, began: int, clock: int, valid: bool, expiresAt: int,
                   steps: seq<Step<Receiver.Step>>, more: seq<Step<Receiver.Step>>)
    ensures var p := OurReceiver();
            var j := Run(p, Opening(Receiver.Opening(clock, valid, expiresAt), began), cfg, steps);
            Agreed(j.sender, j.misled, Receiver.IsCredited(j.bank.op), Receiver.IsCredited(Run(p, j, cfg, more).bank.op), cfg)
  {
    OurReceiverIsLawful();
    BanksAgree(OurReceiver(), Receiver.Opening(clock, valid, expiresAt), cfg, began, steps, more);
  }

  /** And a deposit rejected here and credited there means that such a check was made in the run. */
  lemma DisagreementMeansALateCheck(cfg: Deposit.Config, began: int, clock: int, valid: bool, expiresAt: int, steps: seq<TwinStep>)
    returns (i: nat)
    requires var j := Run(OurReceiver(), Opening(Receiver.Opening(clock, valid, expiresAt), began), cfg, steps);
             && j.sender.ours.row.Some? && j.sender.ours.row.value.state.Rejected? && Receiver.IsCredited(j.bank.op)
    ensures var start := Opening(Receiver.Opening(clock, valid, expiresAt), began);
            i < |steps| && LateCheck(Run(OurReceiver(), start, cfg, steps[..i]).bank, steps[i])
  {
    TwinsAgree(cfg, began, clock, valid, expiresAt, steps, []);
    i := TwinsAreMisledByALateCheck(Opening(Receiver.Opening(clock, valid, expiresAt), began), cfg, steps);
  }

  predicate MockAccepted(s: MockBank.Site, r: MockBank.Request) {
    r.id in s.table && s.table[r.id].status.InAccepted?
  }

  /** This software and the mock agree, whatever else the mock is sent and however its mode is changed. */
  lemma MockAgrees(cfg: Deposit.Config, began: int, r: MockBank.Request, site: MockBank.Site,
                   steps: seq<Step<MockBank.Step>>, more: seq<Step<MockBank.Step>>)
    requires r.id !in site.table && !site.reached
    ensures var p := TheMock(r);
            var j := Run(p, Opening(site, began), cfg, steps);
            !j.misled && Agreed(j.sender, false, MockAccepted(j.bank, r), MockAccepted(Run(p, j, cfg, more).bank, r), cfg)
  {
    TheMockIsLawful(r);
    TheMockIsHonest(r);
    BanksAgree(TheMock(r), site, cfg, began, steps, more);
    HonestBanksMisleadNobody(TheMock(r), Opening(site, began), cfg, steps);
  }

  // ------------------------------------------------- a run that disagrees

  /** A deposit that expires at time 1, sent by one bank running this software to another. */
  ghost function Twins(cfg: Deposit.Config, steps: seq<TwinStep>): Joint<Receiver.Bank> {
    Run(OurReceiver(), Opening(Receiver.Opening(0, true, 1), 0), cfg, steps)
  }

  lemma RunSplits<B(!new), S(!new)>(p: Partnership<B, S>, j: Joint<B>, cfg: Deposit.Config, first: seq<Step<S>>, rest: seq<Step<S>>)
    ensures Run(p, j, cfg, first + rest) == Run(p, Run(p, j, cfg, first), cfg, rest)
  {
    Runs.Split((j: Joint<B>, steps: seq<Step<S>>) => Run(p, j, cfg, steps), (j: Joint<B>, step: Step<S>) => Next(p, j, cfg, step), j, first, rest);
  }

  lemma Then(cfg: Deposit.Config, steps: seq<TwinStep>, step: TwinStep) returns (longer: seq<TwinStep>)
    ensures Twins(cfg, longer) == Next(OurReceiver(), Twins(cfg, steps), cfg, step)
  {
    longer := steps + [step];
    RunSplits(OurReceiver(), Opening(Receiver.Opening(0, true, 1), 0), cfg, steps, [step]);
    var j := Next(OurReceiver(), Twins(cfg, steps), cfg, step);
    assert Run(OurReceiver(), j, cfg, [step][1..]) == j;
  }

  predicate JustSent(side: Deposit.State) {
    && side.net.posted && side.ours.op == Some(Ledger.OpReserved) && side.ours.flushers == map[]
    && side.ours.row == Some(Outbound.NewRow(0, false))
  }

  lemma Sends(cfg: Deposit.Config) returns (steps: seq<TwinStep>)
    requires cfg.configured && !cfg.refund
    ensures var j := Twins(cfg, steps);
            JustSent(j.sender) && j.bank == Receiver.Opening(0, true, 1) && !j.misled
  {
    steps := Then(cfg, [], SenderMoves(Deposit.ReserveFunds(true, true)));
    steps := Then(cfg, steps, SenderMoves(Deposit.CreateRow));
    steps := Then(cfg, steps, SenderMoves(Deposit.Post));
  }

  lemma ThenBank(cfg: Deposit.Config, before: seq<TwinStep>, move: Receiver.Step) returns (steps: seq<TwinStep>)
    requires JustSent(Twins(cfg, before).sender)
    ensures var j, j' := Twins(cfg, before), Twins(cfg, steps);
            && JustSent(j'.sender) && j'.misled == j.misled && j'.bank == Receiver.Next(j.bank, true, move)
            && (Receiver.Says(j.bank, true, move).Some? ==> Receiver.Says(j.bank, true, move).value in j'.sender.net.replies)
  {
    steps := Then(cfg, before, BankMoves(move));
  }

  lemma {:induction false} BankRuns(cfg: Deposit.Config, before: seq<TwinStep>, moves: seq<Receiver.Step>) returns (steps: seq<TwinStep>)
    requires JustSent(Twins(cfg, before).sender)
    ensures var j, j' := Twins(cfg, before), Twins(cfg, steps);
            JustSent(j'.sender) && j'.misled == j.misled && j'.bank == Receiver.Run(j.bank, true, moves)
    decreases |moves|
  {
    if moves == [] {
      steps := before;
    } else {
      steps := ThenBank(cfg, before, moves[0]);
      steps := BankRuns(cfg, steps, moves[1..]);
    }
  }

  /** While one copy is credited, another is looked up too early and checked too late. */
  lemma CreditsAndRefuses(cfg: Deposit.Config) returns (steps: seq<TwinStep>)
    requires cfg.configured && !cfg.refund
    ensures var j := Twins(cfg, steps);
            && JustSent(j.sender) && Deposit.ToPost(Receiver.TOO_LATE) in j.sender.net.replies
            && Receiver.IsCredited(j.bank.op) && !j.misled
  {
    steps := Sends(cfg);
    var moves := Receiver.ALateLookUpCanMislead();
    steps := BankRuns(cfg, steps, moves);
    steps := ThenBank(cfg, steps, Receiver.PostChecks);
  }

  lemma IsMisled(cfg: Deposit.Config) returns (steps: seq<TwinStep>)
    requires cfg.configured && !cfg.refund
    ensures var j := Twins(cfg, steps);
            && j.misled && Receiver.IsCredited(j.bank.op)
            && j.sender.ours.op == Some(Ledger.OpReserved) && j.sender.ours.flushers == map[]
            && j.sender.ours.row.Some? && j.sender.ours.row.value.state.Rejected? && j.sender.ours.row.value.pendingEvent
            && !j.sender.ours.row.value.isRefund
  {
    steps := CreditsAndRefuses(cfg);
    var seen := Outbound.NewRow(0, false);
    assert Outbound.AfterSend(seen, seen, Receiver.TOO_LATE, Twins(cfg, steps).sender.now).state.Rejected?;
    steps := Then(cfg, steps, SenderMoves(Deposit.HandlePostReply(seen, Receiver.TOO_LATE)));
  }

  /** So two banks running this software can end with the customer's funds released and the deposit credited. */
  lemma TwinsCanDisagree(cfg: Deposit.Config) returns (steps: seq<TwinStep>)
    requires cfg.configured && !cfg.refund
    ensures var j := Twins(cfg, steps);
            j.misled && j.sender.ours.op == Some(Ledger.OpReleased) && Receiver.IsCredited(j.bank.op)
  {
    steps := IsMisled(cfg);
    steps := Then(cfg, steps, SenderMoves(Deposit.FlushRead(0)));
    steps := Then(cfg, steps, SenderMoves(Deposit.FlushPublish(0)));
    steps := Then(cfg, steps, SenderMoves(Deposit.ReleaseFunds(true)));
  }
}
