/**
 The internal saga: Payment's verdict on a reserved transfer, taken by any number of concurrent
 workers in database-sized steps, together with the Account books that obey the verdicts.
 */
module Verdicts {
  import opened Prelude
  import MapSums
  import opened Ledger
  import opened LedgerInvariants

  datatype Verdict = Approved | Declined

  /** A worker that found no payment row and decided, and one whose row is saved but not announced. */
  datatype Worker = Decided(tx: Id, verdict: Verdict) | Saved(tx: Id, verdict: Verdict)

  datatype Payments = Payments(rows: map<Id, Verdict>, workers: map<int, Worker>, published: set<(Id, Verdict)>)

  datatype PaymentStep =
    | Take(worker: int, tx: Id, verdict: Verdict)
    | Save(worker: int)
    | Publish(worker: int)
    | Crash(worker: int)

  function Pay(p: Payments, step: PaymentStep): Payments {
    match step
    case Take(w, tx, verdict) =>
      if w in p.workers || tx in p.rows then p else p.(workers := p.workers[w := Decided(tx, verdict)])
    case Save(w) =>
      if w !in p.workers || !p.workers[w].Decided? then p
      else if p.workers[w].tx in p.rows then p.(workers := p.workers - {w})  // the unique column refuses the row
      else
        var Decided(tx, verdict) := p.workers[w];
        p.(rows := p.rows[tx := verdict], workers := p.workers[w := Saved(tx, verdict)])
    case Publish(w) =>
      if w !in p.workers || !p.workers[w].Saved? then p
      else p.(published := p.published + {(p.workers[w].tx, p.workers[w].verdict)}, workers := p.workers - {w})
    case Crash(w) => p.(workers := p.workers - {w})
  }

  /** The handler of a reserved transfer as it runs, with nothing in between. */
  class PaymentService {
    var rows: map<Id, Verdict>
    var processed: set<int>
    var published: seq<(Id, Verdict)>

    constructor ()
      ensures Valid() && rows == map[] && processed == {} && published == []
    {
      rows, processed, published := map[], {}, [];
    }

    /** One row, one announcement, the same verdict. */
    ghost predicate Valid()
      reads this
    {
      && (forall i :: 0 <= i < |published| ==> published[i].0 in rows && rows[published[i].0] == published[i].1)
      && (forall i, j :: 0 <= i < j < |published| ==> published[i].0 != published[j].0)
    }

    method Handle(eventId: int, tx: Id, decide: Verdict)
      requires Valid()
      modifies this
      ensures Valid() && processed == old(processed) + {eventId}
      ensures eventId in old(processed) || tx in old(rows) ==> rows == old(rows) && published == old(published)
      ensures eventId !in old(processed) && tx !in old(rows) ==>
        rows == old(rows)[tx := decide] && published == old(published) + [(tx, decide)]
    {
      if eventId in processed {
        assert processed == processed + {eventId};
        return;
      }
      if tx !in rows {
        rows := rows[tx := decide];
        published := published + [(tx, decide)];
      }
      processed := processed + {eventId};
    }
  }

  /** Payment and Account side by side; a published verdict may be delivered at any time, any number of times. */
  datatype System = System(payments: Payments, books: Books, thrown: bool)

  datatype Step = PaymentMoves(step: PaymentStep) | AccountHandles(event: Event, now: int)

  predicate Deliverable(p: Payments, e: Event) {
    && (e.PaymentApproved? ==> (e.tx, Approved) in p.published)
    && (e.PaymentRejected? ==> (e.tx, Declined) in p.published)
  }

  function Next(s: System, step: Step): System {
    match step
    case PaymentMoves(p) => s.(payments := Pay(s.payments, p))
    case AccountHandles(e, now) =>
      if Deliverable(s.payments, e) then
        s.(books := Handle(s.books, e, now).books, thrown := s.thrown || Handle(s.books, e, now).reply.Thrown?)
      else s
  }

  function Run(s: System, steps: seq<Step>): System
    decreases |steps|
  {
    if steps == [] then s else Run(Next(s, steps[0]), steps[1..])
  }

  // ---------------------------------------------------------------- invariant

  /** Whatever was announced, or is about to be, is what the unique row says. */
  ghost predicate RowsDecide(p: Payments) {
    && (forall t :: t in p.published ==> t.0 in p.rows && p.rows[t.0] == t.1)
    && (forall w :: w in p.workers && p.workers[w].Saved? ==>
          p.workers[w].tx in p.rows && p.rows[p.workers[w].tx] == p.workers[w].verdict)
  }

  ghost predicate ObeysRows(p: Payments, b: Books) {
    forall tx :: tx in b.reservations ==>
      && (b.reservations[tx].status == Completed ==> tx in p.rows && p.rows[tx] == Approved)
      && (b.reservations[tx].status == Released ==> tx in p.rows && p.rows[tx] == Declined)
  }

  ghost predicate Inv(s: System, opening: map<Id, int>) {
    RowsDecide(s.payments) && ObeysRows(s.payments, s.books) && Sound(s.books, opening) && !s.thrown
  }

  lemma PayKeeps(p: Payments, b: Books, step: PaymentStep)
    requires RowsDecide(p) && ObeysRows(p, b)
    ensures RowsDecide(Pay(p, step)) && ObeysRows(Pay(p, step), b)
  {
  }

  /** A reservation is completed or released by the verdict on it, and by nothing else. */
  lemma OnlyVerdictsClose(b: Books, e: Event, now: int, tx: Id)
    requires tx in Handle(b, e, now).books.reservations
    ensures var r' := Handle(b, e, now).books.reservations[tx];
            || r'.status == Reserved
            || (tx in b.reservations && b.reservations[tx].status == r'.status)
            || (e == PaymentApproved(tx) && r'.status == Completed)
            || (e == PaymentRejected(tx) && r'.status == Released)
  {
  }

  lemma NextKeeps(s: System, opening: map<Id, int>, step: Step)
    requires Inv(s, opening)
    ensures Inv(Next(s, step), opening)
  {
    match step
    case PaymentMoves(p) => PayKeeps(s.payments, s.books, p);
    case AccountHandles(e, now) =>
      if Deliverable(s.payments, e) {
        HandleKeepsSound(s.books, opening, e, now);
        var b' := Handle(s.books, e, now).books;
        forall tx | tx in b'.reservations
          ensures b'.reservations[tx].status == Completed ==> tx in s.payments.rows && s.payments.rows[tx] == Approved
          ensures b'.reservations[tx].status == Released ==> tx in s.payments.rows && s.payments.rows[tx] == Declined
        {
          OnlyVerdictsClose(s.books, e, now, tx);
        }
      }
  }

  lemma {:induction false} RunKeeps(s: System, opening: map<Id, int>, steps: seq<Step>)
    requires Inv(s, opening)
    ensures Inv(Run(s, steps), opening)
    decreases |steps|
  {
    if steps == [] {
    } else {
      NextKeeps(s, opening, steps[0]);
      RunKeeps(Next(s, steps[0]), opening, steps[1..]);
    }
  }

  // ------------------------------------------------------------- main results

  ghost predicate Fresh(s: System) {
    s.payments == Payments(map[], map[], {}) && Opened(s.books) && !s.thrown
  }

  /** However workers race, crash and repeat, a transaction never has two different verdicts. */
  lemma OneVerdict(s: System, steps: seq<Step>, tx: Id)
    requires Fresh(s)
    ensures !((tx, Approved) in Run(s, steps).payments.published && (tx, Declined) in Run(s, steps).payments.published)
  {
    OpenedIsSound(s.books);
    RunKeeps(s, Balances(s.books), steps);
  }

  /**
   In every run, with every redelivery: what is reserved is exactly the open holds, every balance is
   explained, nobody is overdrawn, no handler throws, and no open hold is clamped.
   */
  lemma BooksStaySound(s: System, steps: seq<Step>)
    requires Fresh(s)
    ensures Sound(Run(s, steps).books, Balances(s.books)) && HoldsFit(Run(s, steps).books)
    ensures !Run(s, steps).thrown
  {
    OpenedIsSound(s.books);
    RunKeeps(s, Balances(s.books), steps);
    SoundHoldsFit(Run(s, steps).books);
  }

  /** Changing the status of one reservation changes what the records explain and hold by that one's part. */
  lemma OneStatusChanges(b: Books, b': Books, tx: Id, status: ReservationStatus, a: Id)
    requires tx in b.reservations && b'.ops == b.ops
    requires b'.reservations == b.reservations[tx := b.reservations[tx].(status := status)]
    ensures var r := b.reservations[tx];
            && Explained(b', a) == Explained(b, a) - EffectOfReservation(r, a) + EffectOfReservation(r.(status := status), a)
            && Held(b', a) == Held(b, a) - HoldOfReservation(r, a) + HoldOfReservation(r.(status := status), a)
  {
    MapSums.Put(b.reservations, ReservationEffect(a), tx, b.reservations[tx].(status := status));
    MapSums.Put(b.reservations, ReservationHold(a), tx, b.reservations[tx].(status := status));
  }

  /** The account holds for nothing but this reservation, or this one holds nothing. */
  predicate HoldsForItAlone(b: Books, r: Reservation) {
    r.Hold() == 0 || (r.source in b.accounts && b.accounts[r.source].reserved == r.Hold())
  }

  /** A second verdict on a closed reservation takes its hold from what others hold. */
  lemma SecondUnreserve(b: Books, b': Books, opening: map<Id, int>, tx: Id, status: ReservationStatus)
    requires Sound(b, opening) && tx in b.reservations
    requires var r := b.reservations[tx];
             && r.status != Reserved && status != Reserved
             && b'.reservations == b.reservations[tx := r.(status := status)] && b'.ops == b.ops
             && b'.accounts.Keys == b.accounts.Keys
             && b'.accounts[r.source].reserved == Max(0, b.accounts[r.source].reserved - r.Hold())
             && forall a :: a in b.accounts && a != r.source ==> b'.accounts[a].reserved == b.accounts[a].reserved
    ensures var r := b.reservations[tx];
            ReservedIsHeld(b') <==> r.Hold() == 0 || b.accounts[r.source].reserved == 0
  {
    forall a | a in b.accounts ensures Held(b', a) == b.accounts[a].reserved {
      OneStatusChanges(b, b', tx, status, a);
    }
    assert b.reservations[tx].source in b'.accounts;
  }

  lemma FirstVerdict(b: Books, opening: map<Id, int>, tx: Id, approved: bool)
    requires Sound(b, opening) && tx in b.reservations && b.reservations[tx].status == Reserved
    ensures var b' := if approved then Complete(b, tx).books else Release(b, tx).books;
            var r := b.reservations[tx];
            && Sound(b', opening)
            && b'.reservations == b.reservations[tx := r.(status := if approved then Completed else Released)] && b'.ops == b.ops
            && b'.accounts.Keys == b.accounts.Keys && r.source in b.accounts && r.target in b.accounts
            && b'.accounts[r.source].reserved == b.accounts[r.source].reserved - r.Hold()
            && (!approved ==> b'.accounts[r.source].balance == b.accounts[r.source].balance)
  {
    HandleKeepsSound(b, opening, if approved then PaymentApproved(tx) else PaymentRejected(tx), 0);
    SoundHoldsFit(b);
  }

  /** Taking the effect of a completed reservation out of the records leaves the balances explained only if it had none. */
  lemma UnexplainedEffect(b: Books, b': Books, opening: map<Id, int>, tx: Id)
    requires Conserved(b, opening) && tx in b.reservations && b.reservations[tx].status == Completed
    requires b.reservations[tx].amount >= 0 && b.reservations[tx].fee >= 0
    requires b.reservations[tx].source in b.accounts && b.reservations[tx].target in b.accounts
    requires b'.reservations == b.reservations[tx := b.reservations[tx].(status := Released)] && b'.ops == b.ops
    requires b'.accounts.Keys == b.accounts.Keys && forall a :: a in b.accounts ==> b'.accounts[a].balance == b.accounts[a].balance
    ensures var r := b.reservations[tx]; Conserved(b', opening) <==> r.fee == 0 && (r.amount == 0 || r.source == r.target)
  {
    var r := b.reservations[tx];
    forall a | a in b'.accounts
      ensures b'.accounts[a].balance == opening[a] + Explained(b', a) + EffectOfReservation(r, a)
    {
      OneStatusChanges(b, b', tx, Released, a);
    }
    assert r.source in b'.accounts && r.target in b'.accounts;
  }

  lemma ExplainedEffect(b: Books, b': Books, opening: map<Id, int>, tx: Id)
    requires Conserved(b, opening) && tx in b.reservations && b.reservations[tx].status == Released
    requires b'.reservations == b.reservations[tx := b.reservations[tx].(status := Completed)] && b'.ops == b.ops
    requires b'.accounts.Keys == b.accounts.Keys
    requires forall a :: a in b.accounts ==>
               b'.accounts[a].balance == b.accounts[a].balance + EffectOfReservation(b.reservations[tx].(status := Completed), a)
    ensures Conserved(b', opening)
  {
    forall a | a in b'.accounts ensures b'.accounts[a].balance == opening[a] + Explained(b', a) {
      OneStatusChanges(b, b', tx, Completed, a);
    }
  }

  /** What a second verdict writes: the status, the balances of its effect if it approves, and the hold once more. */
  ghost predicate Wrote(b: Books, b': Books, tx: Id, approved: bool)
    requires tx in b.reservations
  {
    var r := b.reservations[tx];
    && Shaped(b') && Solvent(b')
    && b'.reservations == b.reservations[tx := r.(status := if approved then Completed else Released)] && b'.ops == b.ops
    && b'.accounts.Keys == b.accounts.Keys && r.source in b.accounts
    && b'.accounts[r.source].reserved == Max(0, b.accounts[r.source].reserved - r.Hold())
    && (forall a :: a in b.accounts && a != r.source ==> b'.accounts[a].reserved == b.accounts[a].reserved)
    && (forall a :: a in b.accounts ==>
          b'.accounts[a].balance == b.accounts[a].balance + if approved then EffectOfReservation(r.(status := Completed), a) else 0)
  }

  lemma RejectionWrites(b: Books, tx: Id)
    requires Shaped(b) && Solvent(b) && tx in b.reservations && b.reservations[tx].status == Completed
    ensures Wrote(b, Release(b, tx).books, tx, false)
  {
  }

  lemma ApprovalWrites(b: Books, tx: Id)
    requires Shaped(b) && Solvent(b) && tx in b.reservations && b.reservations[tx].status == Released
    requires var r := b.reservations[tx]; b.accounts[r.source].balance - b.accounts[r.source].reserved >= r.Hold()
    ensures Wrote(b, Complete(b, tx).books, tx, true)
  {
  }

  lemma RejectedAfterwards(b: Books, opening: map<Id, int>, tx: Id)
    requires Sound(b, opening) && tx in b.reservations && b.reservations[tx].status == Completed
    ensures var b', r := Release(b, tx).books, b.reservations[tx];
            && (Conserved(b', opening) <==> r.fee == 0 && (r.amount == 0 || r.source == r.target))
            && (ReservedIsHeld(b') <==> r.Hold() == 0 || b.accounts[r.source].reserved == 0)
            && Shaped(b') && Solvent(b')
  {
    RejectionWrites(b, tx);
    SecondUnreserve(b, Release(b, tx).books, opening, tx, Released);
    UnexplainedEffect(b, Release(b, tx).books, opening, tx);
  }

  lemma ApprovedAfterwards(b: Books, opening: map<Id, int>, tx: Id)
    requires Sound(b, opening) && tx in b.reservations && b.reservations[tx].status == Released
    requires var r := b.reservations[tx]; b.accounts[r.source].balance - b.accounts[r.source].reserved >= r.Hold()
    ensures var b', r := Complete(b, tx).books, b.reservations[tx];
            && Conserved(b', opening)
            && (ReservedIsHeld(b') <==> r.Hold() == 0 || b.accounts[r.source].reserved == 0)
            && Shaped(b') && Solvent(b')
  {
    ApprovalWrites(b, tx);
    SecondUnreserve(b, Complete(b, tx).books, opening, tx, Completed);
    ExplainedEffect(b, Complete(b, tx).books, opening, tx);
  }

  /** After an approval, a rejection breaks conservation, the reserved-funds identity, or both, or neither. */
  lemma RejectingTheApproved(b: Books, opening: map<Id, int>, tx: Id)
    requires Sound(b, opening) && tx in b.reservations && b.reservations[tx].status == Reserved
    ensures var b', r := Release(Complete(b, tx).books, tx).books, b.reservations[tx];
            && (Conserved(b', opening) <==> r.fee == 0 && (r.amount == 0 || r.source == r.target))
            && (ReservedIsHeld(b') <==> HoldsForItAlone(b, r))
            && Shaped(b') && Solvent(b')
  {
    FirstVerdict(b, opening, tx, true);
    RejectedAfterwards(Complete(b, tx).books, opening, tx);
  }

  /** After a rejection, an approval keeps conservation and can break the reserved-funds identity. */
  lemma ApprovingTheRejected(b: Books, opening: map<Id, int>, tx: Id)
    requires Sound(b, opening) && tx in b.reservations && b.reservations[tx].status == Reserved
    ensures var b', r := Complete(Release(b, tx).books, tx).books, b.reservations[tx];
            && Conserved(b', opening)
            && (ReservedIsHeld(b') <==> HoldsForItAlone(b, r))
            && Shaped(b') && Solvent(b')
  {
    FirstVerdict(b, opening, tx, false);
    ApprovedAfterwards(Release(b, tx).books, opening, tx);
  }

  /**
   Without the single verdict the books can go wrong, as the guards let a closed reservation be closed again the
   other way. From sound books, an approval followed by a rejection leaves them sound exactly if the transfer is of
   nothing, or has no fee, goes from an account to itself, and is all that the account holds for; a
   rejection followed by an approval, exactly if it is of nothing or is all that its source holds for.
   */
  lemma SecondVerdictBreaksTheBooks(b: Books, opening: map<Id, int>, tx: Id)
    requires Sound(b, opening) && tx in b.reservations && b.reservations[tx].status == Reserved
    ensures var r := b.reservations[tx];
            Sound(Release(Complete(b, tx).books, tx).books, opening)
            <==> r.Hold() == 0 || (r.fee == 0 && r.source == r.target && HoldsForItAlone(b, r))
    ensures var r := b.reservations[tx];
            Sound(Complete(Release(b, tx).books, tx).books, opening) <==> HoldsForItAlone(b, r)
  {
    RejectingTheApproved(b, opening, tx);
    ApprovingTheRejected(b, opening, tx);
  }

  /** The verdict is stored, but nobody is left to announce it, and the funds are still held. */
  ghost predicate Stranded(s: System, tx: Id) {
    && tx in s.payments.rows
    && (forall w :: w in s.payments.workers && s.payments.workers[w].Saved? ==> s.payments.workers[w].tx != tx)
    && (forall t :: t in s.payments.published ==> t.0 != tx)
    && tx in s.books.reservations && s.books.reservations[tx].status == Reserved
  }

  lemma StrandedSurvives(s: System, step: Step, tx: Id)
    requires Stranded(s, tx)
    ensures Stranded(Next(s, step), tx)
  {
    if step.AccountHandles? && Deliverable(s.payments, step.event) {
      OnlyVerdictsClose(s.books, step.event, step.now, tx);
    }
  }

  /** Payment has no outbox here: a hold whose verdict was stored and not announced is never freed. */
  lemma {:induction false} StrandedForEver(s: System, steps: seq<Step>, tx: Id)
    requires Stranded(s, tx)
    ensures Stranded(Run(s, steps), tx)
    decreases |steps|
  {
    if steps == [] {
    } else {
      StrandedSurvives(s, steps[0], tx);
      StrandedForEver(Next(s, steps[0]), steps[1..], tx);
    }
  }

  ghost predicate Closes(s: System, steps: seq<Step>, tx: Id) {
    tx in Run(s, steps).books.reservations && Run(s, steps).books.reservations[tx].status != Reserved
  }

  /** Once its verdict is published, a reservation can be closed. */
  lemma PublishedCloses(s: System, opening: map<Id, int>, tx: Id, verdict: Verdict) returns (steps: seq<Step>)
    requires Inv(s, opening) && tx in s.books.reservations && s.books.reservations[tx].status == Reserved
    requires (tx, verdict) in s.payments.published
    ensures Closes(s, steps, tx)
  {
    var step := AccountHandles(if verdict.Approved? then PaymentApproved(tx) else PaymentRejected(tx), 0);
    steps := [step];
    assert Run(s, steps) == Run(Next(s, step), []);
  }

  lemma OnePaymentStep(s: System, opening: map<Id, int>, step: PaymentStep, tx: Id)
    requires Inv(s, opening)
    ensures var s' := Next(s, PaymentMoves(step)); Inv(s', opening) && s'.books == s.books
    ensures forall rest: seq<Step> :: Closes(Next(s, PaymentMoves(step)), rest, tx) ==> Closes(s, [PaymentMoves(step)] + rest, tx)
  {
    NextKeeps(s, opening, PaymentMoves(step));
    forall rest: seq<Step> | Closes(Next(s, PaymentMoves(step)), rest, tx) ensures Closes(s, [PaymentMoves(step)] + rest, tx) {
      assert ([PaymentMoves(step)] + rest)[1..] == rest;
    }
  }

  /** A stored verdict with its worker still there, and one not yet stored, lead to a published one. */
  lemma SavedCloses(s: System, opening: map<Id, int>, tx: Id, worker: int) returns (steps: seq<Step>)
    requires Inv(s, opening) && tx in s.books.reservations && s.books.reservations[tx].status == Reserved
    requires worker in s.payments.workers && s.payments.workers[worker].Saved? && s.payments.workers[worker].tx == tx
    ensures Closes(s, steps, tx)
  {
    OnePaymentStep(s, opening, Publish(worker), tx);
    var rest := PublishedCloses(Next(s, PaymentMoves(Publish(worker))), opening, tx, s.payments.workers[worker].verdict);
    steps := [PaymentMoves(Publish(worker))] + rest;
  }

  lemma UndecidedCloses(s: System, opening: map<Id, int>, tx: Id) returns (steps: seq<Step>)
    requires Inv(s, opening) && tx in s.books.reservations && s.books.reservations[tx].status == Reserved
    requires tx !in s.payments.rows
    ensures Closes(s, steps, tx)
  {
    var w := MapSums.FreshKey(s.payments.workers);
    var take, save := Take(w, tx, Approved), Save(w);
    OnePaymentStep(s, opening, take, tx);
    var taken := Next(s, PaymentMoves(take));
    OnePaymentStep(taken, opening, save, tx);
    var rest := SavedCloses(Next(taken, PaymentMoves(save)), opening, tx, w);
    steps := [PaymentMoves(take)] + ([PaymentMoves(save)] + rest);
  }

  /** In every reachable state, held funds can still be freed or paid out exactly if they are not stranded. */
  lemma ClosableIffNotStranded(start: System, before: seq<Step>, tx: Id)
    requires Fresh(start)
    requires var s := Run(start, before); tx in s.books.reservations && s.books.reservations[tx].status == Reserved
    ensures var s := Run(start, before); (exists steps: seq<Step> :: Closes(s, steps, tx)) <==> !Stranded(s, tx)
  {
    var s, opening := Run(start, before), Balances(start.books);
    OpenedIsSound(start.books);
    RunKeeps(start, opening, before);
    if Stranded(s, tx) {
      forall steps: seq<Step> ensures !Closes(s, steps, tx) {
        StrandedForEver(s, steps, tx);
      }
    } else if tx !in s.payments.rows {
      var steps := UndecidedCloses(s, opening, tx);
    } else if w :| w in s.payments.workers && s.payments.workers[w].Saved? && s.payments.workers[w].tx == tx {
      var steps := SavedCloses(s, opening, tx, w);
    } else {
      var t :| t in s.payments.published && t.0 == tx;
      var steps := PublishedCloses(s, opening, tx, t.1);
    }
  }

  /** A crash between storing and announcing does it. */
  lemma AHoldCanBeStranded(amount: nat) returns (s: System, steps: seq<Step>)
    ensures Fresh(s) && Stranded(Run(s, steps), 1)
    ensures Run(s, steps).books.reservations[1].amount == amount
  {
    var accounts := map[10 := Account(amount, 0, 0, None, true), 20 := Account(0, 0, 0, None, true)];
    s := System(Payments(map[], map[], {}), Books(accounts, map[], map[]), false);
    var reserve, take := AccountHandles(TransactionCreated(1, 10, 20, amount), 0), PaymentMoves(Take(0, 1, Approved));
    var save, crash := PaymentMoves(Save(0)), PaymentMoves(Crash(0));
    steps := [reserve, take, save, crash];
    assert steps[1..] == [take, save, crash] && steps[1..][1..] == [save, crash] && steps[1..][1..][1..] == [crash];
    var decided := Next(Next(s, reserve), take);
    assert Run(s, steps) == Run(decided, [save, crash]);
    assert [save, crash][1..] == [crash] && [crash][1..] == [];
    assert Run(Next(decided, save), [crash]) == Run(Next(Next(decided, save), crash), []);
    assert Run(decided, [save, crash]) == Next(Next(decided, save), crash);
  }
}
