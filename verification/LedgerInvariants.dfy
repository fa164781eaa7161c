/**
 What every handler keeps of the books: the reserved-funds identity, the explanation of every
 balance by the recorded movements, and solvency.
 */
module LedgerInvariants {
  import opened Prelude
  import opened MapSums
  import opened Ledger

  // --------------------------------------------- what one record contributes

  function HoldOfReservation(r: Reservation, account: Id): int {
    if r.source == account && r.status == Reserved then r.Hold() else 0
  }

  function HoldOfOp(op: Op, account: Id): int {
    if op.account == Some(account) && op.status == OpReserved then op.Hold() else 0
  }

  /** A completed transfer takes amount and fee from its source and gives the amount to its target. */
  function EffectOfReservation(r: Reservation, account: Id): int {
    if r.status != Completed then 0
    else (if r.target == account then r.amount else 0) - (if r.source == account then r.Hold() else 0)
  }

  /** A refunded deposit came in and went out again: it explains nothing. */
  function EffectOfOp(op: Op, account: Id): int {
    if op.account != Some(account) then 0
    else if op.status == OpDebited then -op.Hold()
    else if op.status == OpCredited then op.amount
    else 0
  }

  function ReservationHold(account: Id): (Id, Reservation) -> int {
    (tx: Id, r: Reservation) => HoldOfReservation(r, account)
  }

  function OpHold(account: Id): (Id, Op) -> int {
    (id: Id, op: Op) => HoldOfOp(op, account)
  }

  function ReservationEffect(account: Id): (Id, Reservation) -> int {
    (tx: Id, r: Reservation) => EffectOfReservation(r, account)
  }

  function OpEffect(account: Id): (Id, Op) -> int {
    (id: Id, op: Op) => EffectOfOp(op, account)
  }

  // --------------------------------------------------------------- invariant

  predicate Live(op: Op) {
    op.status != OpRejected && op.status != OpCancelled
  }

  /** Records refer to existing accounts, amounts are not negative, statuses fit their direction. */
  ghost predicate Shaped(b: Books) {
    && (forall a :: a in b.accounts ==> b.accounts[a].minBalance >= 0 && b.accounts[a].Fee() >= 0)
    && (forall tx :: tx in b.reservations ==>
          && b.reservations[tx].amount >= 0 && b.reservations[tx].fee >= 0
          && b.reservations[tx].source in b.accounts && b.reservations[tx].target in b.accounts)
    && (forall id :: id in b.ops ==> ShapedOp(b, b.ops[id]))
  }

  ghost predicate ShapedOp(b: Books, op: Op) {
    && (op.direction == Outgoing ==> !op.status.OpCredited? && !op.status.OpRefunded? && !op.status.OpCancelled?)
    && (op.direction == Incoming ==> !op.status.OpReserved? && !op.status.OpDebited? && !op.status.OpReleased? && op.fee == 0)
    && (Live(op) ==> op.amount >= 0 && op.fee >= 0 && op.account.Some? && op.account.value in b.accounts)
  }

  ghost function Held(b: Books, account: Id): int {
    Sum(b.reservations, ReservationHold(account)) + Sum(b.ops, OpHold(account))
  }

  ghost function Explained(b: Books, account: Id): int {
    Sum(b.reservations, ReservationEffect(account)) + Sum(b.ops, OpEffect(account))
  }

  /** `reserved` is exactly the holds of the account's open reservations and operations. */
  ghost predicate ReservedIsHeld(b: Books) {
    forall a :: a in b.accounts ==> b.accounts[a].reserved == Held(b, a)
  }

  /** Every balance is its opening value plus what the recorded movements explain. */
  ghost predicate Conserved(b: Books, opening: map<Id, int>) {
    && b.accounts.Keys == opening.Keys
    && forall a :: a in b.accounts ==> b.accounts[a].balance == opening[a] + Explained(b, a)
  }

  predicate Solvent(b: Books) {
    forall a :: a in b.accounts ==> 0 <= b.accounts[a].reserved <= b.accounts[a].balance
  }

  ghost predicate Sound(b: Books, opening: map<Id, int>) {
    Shaped(b) && ReservedIsHeld(b) && Conserved(b, opening) && Solvent(b)
  }

  /**
   The status guards alone do not stop a reservation from being completed and then released;
   this is what the caller must rule out (module Verdicts proves that it does).
   */
  predicate SingleVerdict(b: Books, e: Event) {
    && (e.PaymentApproved? && e.tx in b.reservations ==> b.reservations[e.tx].status != Released)
    && (e.PaymentRejected? && e.tx in b.reservations ==> b.reservations[e.tx].status != Completed)
  }

  // ------------------------------------------------------- writing one record

  /** The one record a handler may have written. */
  datatype Touched = NoRecord | OneReservation(tx: Id) | OneOp(id: Id)

  /** What the written record holds of, and explains for, one account, before and after. */
  function HoldChange(b: Books, b': Books, touched: Touched, a: Id): int {
    match touched
    case NoRecord => 0
    case OneReservation(tx) =>
      (if tx in b'.reservations then HoldOfReservation(b'.reservations[tx], a) else 0)
      - (if tx in b.reservations then HoldOfReservation(b.reservations[tx], a) else 0)
    case OneOp(id) =>
      (if id in b'.ops then HoldOfOp(b'.ops[id], a) else 0) - (if id in b.ops then HoldOfOp(b.ops[id], a) else 0)
  }

  function EffectChange(b: Books, b': Books, touched: Touched, a: Id): int {
    match touched
    case NoRecord => 0
    case OneReservation(tx) =>
      (if tx in b'.reservations then EffectOfReservation(b'.reservations[tx], a) else 0)
      - (if tx in b.reservations then EffectOfReservation(b.reservations[tx], a) else 0)
    case OneOp(id) =>
      (if id in b'.ops then EffectOfOp(b'.ops[id], a) else 0) - (if id in b.ops then EffectOfOp(b.ops[id], a) else 0)
  }

  predicate OnlyWrote(b: Books, b': Books, touched: Touched) {
    match touched
    case NoRecord => b'.reservations == b.reservations && b'.ops == b.ops
    case OneReservation(tx) =>
      tx in b'.reservations && b'.reservations == b.reservations[tx := b'.reservations[tx]] && b'.ops == b.ops
    case OneOp(id) =>
      id in b'.ops && b'.ops == b.ops[id := b'.ops[id]] && b'.reservations == b.reservations
  }

  /** The accounts moved exactly as the written record says. */
  predicate Accounted(b: Books, b': Books, touched: Touched) {
    && OnlyWrote(b, b', touched)
    && b'.accounts.Keys == b.accounts.Keys
    && forall a :: a in b.accounts ==>
         && b'.accounts[a].reserved == b.accounts[a].reserved + HoldChange(b, b', touched, a)
         && b'.accounts[a].balance == b.accounts[a].balance + EffectChange(b, b', touched, a)
  }

  /** The sums follow the written record, so the identity and the conservation law carry over. */
  lemma AccountedKeeps(b: Books, b': Books, opening: map<Id, int>, touched: Touched)
    requires ReservedIsHeld(b) && Conserved(b, opening) && Accounted(b, b', touched)
    ensures ReservedIsHeld(b') && Conserved(b', opening)
  {
    forall a | a in b'.accounts
      ensures b'.accounts[a].reserved == Held(b', a) && b'.accounts[a].balance == opening[a] + Explained(b', a)
    {
      match touched
      case NoRecord =>
      case OneReservation(tx) =>
        Put(b.reservations, ReservationHold(a), tx, b'.reservations[tx]);
        Put(b.reservations, ReservationEffect(a), tx, b'.reservations[tx]);
      case OneOp(id) =>
        Put(b.ops, OpHold(a), id, b'.ops[id]);
        Put(b.ops, OpEffect(a), id, b'.ops[id]);
    }
  }

  /** No open hold exceeds what its account has reserved, so the code's Math.max(0, ...) never bites. */
  predicate HoldsFit(b: Books) {
    && (forall tx :: tx in b.reservations && b.reservations[tx].status == Reserved && b.reservations[tx].source in b.accounts ==>
          b.reservations[tx].Hold() <= b.accounts[b.reservations[tx].source].reserved)
    && (forall id :: id in b.ops && b.ops[id].status == OpReserved && b.ops[id].account.Some? && b.ops[id].account.value in b.accounts ==>
          b.ops[id].Hold() <= b.accounts[b.ops[id].account.value].reserved)
  }

  lemma HoldsAreNotNegative(b: Books, a: Id)
    requires Shaped(b)
    ensures forall tx :: tx in b.reservations ==> ReservationHold(a)(tx, b.reservations[tx]) >= 0
    ensures forall id :: id in b.ops ==> OpHold(a)(id, b.ops[id]) >= 0
  {
    forall tx | tx in b.reservations ensures ReservationHold(a)(tx, b.reservations[tx]) >= 0 {
      assert ReservationHold(a)(tx, b.reservations[tx]) == HoldOfReservation(b.reservations[tx], a);
    }
    forall id | id in b.ops ensures OpHold(a)(id, b.ops[id]) >= 0 {
      assert OpHold(a)(id, b.ops[id]) == HoldOfOp(b.ops[id], a);
    }
  }

  lemma SoundHoldsFit(b: Books)
    requires Shaped(b) && ReservedIsHeld(b)
    ensures HoldsFit(b)
  {
    forall tx | tx in b.reservations && b.reservations[tx].status == Reserved
      ensures b.reservations[tx].Hold() <= b.accounts[b.reservations[tx].source].reserved
    {
      var a := b.reservations[tx].source;
      HoldsAreNotNegative(b, a);
      AtLeast(b.reservations, ReservationHold(a), tx);
      NonNegative(b.ops, OpHold(a));
    }
    forall id | id in b.ops && b.ops[id].status == OpReserved
      ensures b.ops[id].Hold() <= b.accounts[b.ops[id].account.value].reserved
    {
      var a := b.ops[id].account.value;
      HoldsAreNotNegative(b, a);
      AtLeast(b.ops, OpHold(a), id);
      NonNegative(b.reservations, ReservationHold(a));
    }
  }

  // ------------------------------------------------------- handler by handler

  /** What a handler keeps on its own, before any sum is looked at. */
  ghost predicate Orderly(b: Books) {
    Shaped(b) && Solvent(b) && HoldsFit(b)
  }

  lemma ReserveAccounted(b: Books, tx: Id, source: Id, target: Id, amount: nat)
    requires Orderly(b)
    ensures var b' := Reserve(b, tx, source, target, amount).books;
            Shaped(b') && Solvent(b') && Accounted(b, b', if b' == b then NoRecord else OneReservation(tx))
  {
  }

  lemma CompleteAccounted(b: Books, tx: Id)
    requires Orderly(b) && SingleVerdict(b, PaymentApproved(tx))
    ensures var b' := Complete(b, tx).books;
            Shaped(b') && Solvent(b') && Accounted(b, b', if b' == b then NoRecord else OneReservation(tx))
    ensures Complete(b, tx).reply != Thrown
  {
  }

  lemma ReleaseAccounted(b: Books, tx: Id)
    requires Orderly(b) && SingleVerdict(b, PaymentRejected(tx))
    ensures var b' := Release(b, tx).books;
            Shaped(b') && Solvent(b') && Accounted(b, b', if b' == b then NoRecord else OneReservation(tx))
    ensures Release(b, tx).reply != Thrown
  {
  }

  lemma GrantAccounted(b: Books, id: Id, source: Id, amount: Option<int>, currency: Currency)
    requires Orderly(b) && id !in b.ops && InterbankReserve(b, id, source, amount, currency).reply.FundsReserved?
    ensures var b' := InterbankReserve(b, id, source, amount, currency).books;
            Shaped(b') && Solvent(b') && Accounted(b, b', OneOp(id))
  {
    GrantedIffCovered(b, id, source, amount, currency);
  }

  lemma InterbankReserveAccounted(b: Books, id: Id, source: Id, amount: Option<int>, currency: Currency)
    requires Orderly(b)
    ensures var b' := InterbankReserve(b, id, source, amount, currency).books;
            Shaped(b') && Solvent(b') && Accounted(b, b', if b' == b then NoRecord else OneOp(id))
  {
    if id !in b.ops {
      GrantedIffCovered(b, id, source, amount, currency);
      if InterbankReserve(b, id, source, amount, currency).reply.FundsReserved? {
        GrantAccounted(b, id, source, amount, currency);
      }
    }
  }

  lemma DebitAccounted(b: Books, id: Id)
    requires Orderly(b)
    ensures var b' := Debit(b, id).books;
            Shaped(b') && Solvent(b') && Accounted(b, b', if b' == b then NoRecord else OneOp(id))
    ensures Debit(b, id).reply != Thrown
  {
  }

  lemma InterbankReleaseAccounted(b: Books, id: Id, reason: Option<Reason>)
    requires Orderly(b)
    ensures var b' := InterbankRelease(b, id, reason).books;
            Shaped(b') && Solvent(b') && Accounted(b, b', if b' == b then NoRecord else OneOp(id))
    ensures InterbankRelease(b, id, reason).reply != Thrown
  {
  }

  lemma CreditAccounted(b: Books, id: Id, destination: Option<Id>, amount: Option<int>, currency: Currency,
                        expiresAt: Option<int>, now: int)
    requires Orderly(b)
    ensures var b' := Credit(b, id, destination, amount, currency, expiresAt, now).books;
            Shaped(b') && Solvent(b') && Accounted(b, b', if b' == b then NoRecord else OneOp(id))
  {
  }

  lemma CancelAccounted(b: Books, id: Id)
    requires Orderly(b)
    ensures var b' := CancelDeposit(b, id).books;
            Shaped(b') && Solvent(b') && Accounted(b, b', if b' == b then NoRecord else OneOp(id))
  {
  }

  lemma ReverseAccounted(b: Books, reversal: Id, original: Id)
    requires Orderly(b)
    ensures var b' := Reverse(b, reversal, original).books;
            Shaped(b') && Solvent(b') && Accounted(b, b', if b' == b then NoRecord else OneOp(original))
  {
  }

  /** The record an event is about. */
  function Subject(e: Event): Touched {
    match e
    case TransactionCreated(tx, _, _, _) => OneReservation(tx)
    case PaymentApproved(tx) => OneReservation(tx)
    case PaymentRejected(tx) => OneReservation(tx)
    case ReversalRequested(_, original) => OneOp(original)
    case Deactivated(_) => NoRecord
    case _ => OneOp(e.id)
  }

  predicate Internal(e: Event) {
    e.TransactionCreated? || e.PaymentApproved? || e.PaymentRejected? || e.Deactivated?
  }

  lemma InternalAccounted(b: Books, e: Event, now: int)
    requires Orderly(b) && SingleVerdict(b, e) && Internal(e)
    ensures var b' := Handle(b, e, now).books;
            Shaped(b') && Solvent(b') && Accounted(b, b', if b' == b then NoRecord else Subject(e))
    ensures Handle(b, e, now).reply != Thrown
  {
    match e
    case TransactionCreated(tx, source, target, amount) => ReserveAccounted(b, tx, source, target, amount);
    case PaymentApproved(tx) => CompleteAccounted(b, tx);
    case PaymentRejected(tx) => ReleaseAccounted(b, tx);
    case Deactivated(account) =>
  }

  lemma InterbankAccounted(b: Books, e: Event, now: int)
    requires Orderly(b) && !Internal(e)
    ensures var b' := Handle(b, e, now).books;
            Shaped(b') && Solvent(b') && Accounted(b, b', if b' == b then NoRecord else Subject(e))
    ensures Handle(b, e, now).reply != Thrown
  {
    match e
    case TransferRequested(id, source, amount, currency) => InterbankReserveAccounted(b, id, source, amount, currency);
    case TransferAccepted(id) => DebitAccounted(b, id);
    case TransferRefused(id, reason) => InterbankReleaseAccounted(b, id, reason);
    case DepositRequested(id, destination, amount, currency, expiresAt) =>
      CreditAccounted(b, id, destination, amount, currency, expiresAt, now);
    case CancelRequested(id) => CancelAccounted(b, id);
    case ReversalRequested(reversal, original) => ReverseAccounted(b, reversal, original);
  }

  // --------------------------------------------------------------- main results

  /** Every handler keeps the identity, the conservation law and solvency, and none throws. */
  lemma HandleKeepsSound(b: Books, opening: map<Id, int>, e: Event, now: int)
    requires Sound(b, opening) && SingleVerdict(b, e)
    ensures Sound(Handle(b, e, now).books, opening)
    ensures Handle(b, e, now).reply != Thrown
  {
    SoundHoldsFit(b);
    if Internal(e) {
      InternalAccounted(b, e, now);
    } else {
      InterbankAccounted(b, e, now);
    }
    var b' := Handle(b, e, now).books;
    AccountedKeeps(b, b', opening, if b' == b then NoRecord else Subject(e));
  }

  /** Freshly opened books, with nothing reserved and nothing recorded. */
  ghost predicate Opened(b: Books) {
    && b.reservations == map[] && b.ops == map[]
    && forall a :: a in b.accounts ==>
         b.accounts[a].reserved == 0 && b.accounts[a].balance >= 0
         && b.accounts[a].minBalance >= 0 && b.accounts[a].Fee() >= 0
  }

  function Balances(b: Books): map<Id, int> {
    map a | a in b.accounts :: b.accounts[a].balance
  }

  lemma OpenedIsSound(b: Books)
    requires Opened(b)
    ensures Sound(b, Balances(b))
  {
  }

  /** Only a reversal can push an account that met its minimum balance below it. */
  lemma OnlyReversalsBreakTheMinimum(b: Books, opening: map<Id, int>, e: Event, now: int, a: Id)
    requires Sound(b, opening) && SingleVerdict(b, e)
    requires a in b.accounts && a in Handle(b, e, now).books.accounts
    requires b.accounts[a].Available() >= 0 > Handle(b, e, now).books.accounts[a].Available()
    ensures e.ReversalRequested? && e.original in b.ops && b.ops[e.original].account == Some(a)
    ensures b.ops[e.original].status == OpCredited && Handle(b, e, now).books.ops[e.original].status == OpRefunded
  {
    SoundHoldsFit(b);
  }

  // -------------------------------------------------------- what is let through

  predicate WithinLimits(amount: Option<int>) {
    amount.Some? && MIN_INTERBANK_AMOUNT <= amount.value <= MAX_INTERBANK_AMOUNT
  }

  /** An internal transfer is held exactly when both accounts are active and the source stays at or above its minimum. */
  lemma HeldIffCovered(b: Books, tx: Id, source: Id, target: Id, amount: int)
    requires tx !in b.reservations
    ensures var out := Reserve(b, tx, source, target, amount);
            && (out.reply.FundsReserved? <==>
                  && source in b.accounts && target in b.accounts && b.accounts[source].active && b.accounts[target].active
                  && b.accounts[source].(reserved := b.accounts[source].reserved + amount + b.accounts[source].Fee()).Available() >= 0)
            && (!out.reply.FundsReserved? ==> out.books == b)
  {
  }

  /** Likewise a new outgoing deposit, within its limits and currency; a refused one leaves all accounts alone. */
  lemma GrantedIffCovered(b: Books, id: Id, source: Id, amount: Option<int>, currency: Currency)
    requires id !in b.ops
    ensures var out := InterbankReserve(b, id, source, amount, currency);
            && (out.reply.FundsReserved? <==>
                  && WithinLimits(amount) && !currency.OtherCurrency? && source in b.accounts && b.accounts[source].active
                  && b.accounts[source].(reserved := b.accounts[source].reserved + amount.value + b.accounts[source].Fee()).Available() >= 0)
            && (!out.reply.FundsReserved? ==> out.books.accounts == b.accounts && out.reply.FundsRejected?)
  {
  }

  /** A new incoming deposit is credited exactly when it is in time, in limits and for an active account of ours. */
  lemma CreditedIffAcceptable(b: Books, id: Id, destination: Option<Id>, amount: Option<int>, currency: Currency,
                              expiresAt: Option<int>, now: int)
    requires id !in b.ops
    ensures var out := Credit(b, id, destination, amount, currency, expiresAt, now);
            && (out.reply.DepositCredited? <==>
                  && expiresAt.Some? && now < expiresAt.value && WithinLimits(amount) && !currency.OtherCurrency?
                  && destination.Some? && destination.value in b.accounts && b.accounts[destination.value].active)
            && (out.reply.DepositCredited? ==> out.books.accounts[destination.value].balance == b.accounts[destination.value].balance + amount.value)
            && (!out.reply.DepositCredited? ==> out.books.accounts == b.accounts)
            && (expiresAt.None? || now >= expiresAt.value ==> out.reply == DepositRejected(Some(Expired)))
  {
  }

  /** No event changes what an account charges. */
  lemma FeesStay(b: Books, e: Event, now: int, account: Id)
    ensures account in Handle(b, e, now).books.accounts <==> account in b.accounts
    ensures account in b.accounts ==> Handle(b, e, now).books.accounts[account].feeAmount == b.accounts[account].feeAmount
  {
  }

  // ------------------------------------------------------- money in the bank

  function BalanceTerm(): (Id, Account) -> int {
    (id: Id, a: Account) => a.balance
  }

  ghost function TotalBalance(b: Books): int {
    Sum(b.accounts, BalanceTerm())
  }

  /** What an event, as it was answered, brings into the bank or takes out of it. */
  function Movement(b: Books, e: Event, reply: Reply): int {
    if e.PaymentApproved? && reply.TransferCompleted? then -reply.fee
    else if e.TransferAccepted? && reply.TransferCompleted? then -(reply.amount + reply.fee)
    else if e.DepositRequested? && e.id !in b.ops && reply.DepositCredited? then reply.amount
    else if e.ReversalRequested? && reply.ReversalDebited? && e.original in b.ops && b.ops[e.original].status == OpCredited then -reply.amount
    else 0
  }

  lemma WriteAccount(accounts: map<Id, Account>, id: Id, a: Account)
    requires id in accounts
    ensures Sum(accounts[id := a], BalanceTerm()) == Sum(accounts, BalanceTerm()) - accounts[id].balance + a.balance
  {
    Put(accounts, BalanceTerm(), id, a);
  }

  lemma CompleteMovesTheFee(b: Books, tx: Id)
    ensures TotalBalance(Complete(b, tx).books) == TotalBalance(b) + Movement(b, PaymentApproved(tx), Complete(b, tx).reply)
  {
    var b' := Complete(b, tx).books;
    if b' != b {
      var r := b.reservations[tx];
      var s := b.accounts[r.source];
      var charged := Unreserve(s.(balance := s.balance - r.Hold()), r.Hold());
      var paid := b.accounts[r.source := charged];
      WriteAccount(b.accounts, r.source, charged);
      WriteAccount(paid, r.target, b'.accounts[r.target]);
    }
  }

  /** Every other handler writes at most one account. */
  function Written(b: Books, e: Event): Option<Id>
    requires !e.PaymentApproved?
  {
    match e
    case TransactionCreated(_, source, _, _) => Some(source)
    case PaymentRejected(tx) => if tx in b.reservations then Some(b.reservations[tx].source) else None
    case TransferRequested(_, source, _, _) => Some(source)
    case TransferAccepted(id) => if id in b.ops then b.ops[id].account else None
    case TransferRefused(id, _) => if id in b.ops then b.ops[id].account else None
    case DepositRequested(_, destination, _, _, _) => destination
    case CancelRequested(_) => None
    case ReversalRequested(_, original) => if original in b.ops then b.ops[original].account else None
    case Deactivated(account) => Some(account)
  }

  lemma OtherEventsWriteOneAccount(b: Books, e: Event, now: int)
    requires !e.PaymentApproved?
    ensures var out := Handle(b, e, now);
            || (out.books.accounts == b.accounts && Movement(b, e, out.reply) == 0)
            || (&& Written(b, e).Some? && Written(b, e).value in b.accounts && Written(b, e).value in out.books.accounts
                && var w := Written(b, e).value;
                   && out.books.accounts == b.accounts[w := out.books.accounts[w]]
                   && out.books.accounts[w].balance == b.accounts[w].balance + Movement(b, e, out.reply))
  {
  }

  /**
   The bank's money: an internal transfer costs it nothing but the fee, a debited transfer leaves it, a
   credited deposit enters it and a reversed one leaves again; no other event moves any.
   */
  lemma TotalMoves(b: Books, e: Event, now: int)
    ensures TotalBalance(Handle(b, e, now).books) == TotalBalance(b) + Movement(b, e, Handle(b, e, now).reply)
  {
    if e.PaymentApproved? {
      CompleteMovesTheFee(b, e.tx);
    } else {
      OtherEventsWriteOneAccount(b, e, now);
      var b' := Handle(b, e, now).books;
      if b'.accounts != b.accounts {
        var w := Written(b, e).value;
        WriteAccount(b.accounts, w, b'.accounts[w]);
      }
    }
  }
}
