/**
 The Account service's handlers as they run: rows found, changed in place and saved, one method per
 event, each proved to do to the tables what the function of the same event in module Ledger says.
 */
module AccountHandlers {
  import opened Prelude
  import opened Ledger
  import LockOrder

  /** The accounts of `ids` that exist. */
  function Existing(accounts: map<Id, Account>, ids: seq<Id>): map<Id, Account> {
    map a | a in accounts && a in ids :: accounts[a]
  }

  lemma ExistingUpTo(accounts: map<Id, Account>, ids: seq<Id>, i: nat)
    requires i < |ids|
    ensures Existing(accounts, ids[..i + 1]) == if ids[i] in accounts then Existing(accounts, ids[..i])[ids[i] := accounts[ids[i]]]
                                                else Existing(accounts, ids[..i])
  {
    assert ids[..i + 1] == ids[..i] + [ids[i]];
  }

  class AccountTables {
    var accounts: map<Id, Account>
    var reservations: map<Id, Reservation>
    var ops: map<Id, Op>

    constructor (b: Books)
      ensures Snapshot() == b
    {
      accounts, reservations, ops := b.accounts, b.reservations, b.ops;
    }

    function Snapshot(): Books
      reads this
    {
      Books(accounts, reservations, ops)
    }

    method Reserve(tx: Id, source: Id, target: Id, amount: int) returns (reply: Reply)
      modifies this
      ensures Outcome(Snapshot(), reply) == Ledger.Reserve(old(Snapshot()), tx, source, target, amount)
    {
      if tx in reservations {
        return Skipped;
      }
      if source !in accounts || target !in accounts || !accounts[source].active || !accounts[target].active {
        return FundsRejected(Some(AccountNotFoundOrInactive));
      }
      var s := accounts[source];
      var fee := s.Fee();
      var totalHold := amount + fee;
      var available := s.balance - s.reserved - s.minBalance;
      if available < totalHold {
        return FundsRejected(Some(InsufficientFunds));
      }
      accounts := accounts[source := s.(reserved := s.reserved + totalHold)];
      reservations := reservations[tx := Reservation(source, target, amount, fee, Reserved)];
      return FundsReserved(fee);
    }

    method Complete(tx: Id) returns (reply: Reply)
      modifies this
      ensures Outcome(Snapshot(), reply) == Ledger.Complete(old(Snapshot()), tx)
    {
      if tx !in reservations || reservations[tx].status == Completed {
        return Skipped;
      }
      var r := reservations[tx];
      var locked, _ := LockInOrder([r.source, r.target]);
      if r.source !in locked || r.target !in locked {
        return Thrown;
      }
      var totalHold := r.amount + r.fee;
      var s := locked[r.source];
      accounts := accounts[r.source := s.(balance := s.balance - totalHold, reserved := Max(0, s.reserved - totalHold))];
      var t := accounts[r.target];
      accounts := accounts[r.target := t.(balance := t.balance + r.amount)];
      reservations := reservations[tx := r.(status := Completed)];
      return TransferCompleted(r.amount, r.fee);
    }

    /** The accounts of `ids` that exist, read under their locks, and the ascending order in which these are taken. */
    method LockInOrder(ids: seq<Id>) returns (locked: map<Id, Account>, order: seq<Id>)
      ensures locked == Existing(accounts, ids)
      ensures LockOrder.Sorted(order) && forall id :: id in order <==> id in ids
    {
      locked := map[];
      order := LockOrder.SortUnique(ids);
      for i := 0 to |order|
        invariant locked == Existing(accounts, order[..i])
      {
        ExistingUpTo(accounts, order, i);
        if order[i] in accounts {
          locked := locked[order[i] := accounts[order[i]]];
        }
      }
      assert order[..|order|] == order;
    }

    method Release(tx: Id) returns (reply: Reply)
      modifies this
      ensures Outcome(Snapshot(), reply) == Ledger.Release(old(Snapshot()), tx)
    {
      if tx !in reservations || reservations[tx].status == Released {
        return Skipped;
      }
      var r := reservations[tx];
      if r.source !in accounts {
        return Thrown;
      }
      var s := accounts[r.source];
      accounts := accounts[r.source := s.(reserved := Max(0, s.reserved - (r.amount + r.fee)))];
      reservations := reservations[tx := r.(status := Released)];
      return FundsReleased(r.amount, r.fee);
    }

    method InterbankReserve(id: Id, source: Id, amount: Option<int>, currency: Currency) returns (reply: Reply)
      modifies this
      ensures Outcome(Snapshot(), reply) == Ledger.InterbankReserve(old(Snapshot()), id, source, amount, currency)
    {
      if id in ops {
        var existing := ops[id];
        if existing.status == OpReserved {
          return FundsReserved(existing.fee);
        } else if existing.status == OpRejected {
          return FundsRejected(existing.reason);
        }
        return Skipped;
      }
      var account := Find(accounts, source);
      var reason := CheckOutgoing(amount, currency, account);
      if reason.Some? {
        ops := ops[id := Op(Outgoing, Some(source), OrZero(amount), 0, OpRejected, reason, None)];
        return FundsRejected(reason);
      }
      var s := account.value;
      accounts := accounts[source := s.(reserved := s.reserved + amount.value + s.Fee())];
      ops := ops[id := Op(Outgoing, Some(source), amount.value, s.Fee(), OpReserved, None, None)];
      return FundsReserved(s.Fee());
    }

    method Debit(id: Id) returns (reply: Reply)
      modifies this
      ensures Outcome(Snapshot(), reply) == Ledger.Debit(old(Snapshot()), id)
    {
      if id !in ops || ops[id].direction != Outgoing || ops[id].status == OpDebited {
        return Skipped;
      }
      var op := ops[id];
      if op.status != OpReserved {
        return DebitConflict;
      }
      if op.account.None? || op.account.value !in accounts {
        return Thrown;
      }
      var account := accounts[op.account.value];
      var total := op.amount + op.fee;
      accounts := accounts[op.account.value :=
        account.(balance := account.balance - total, reserved := Max(0, account.reserved - total))];
      ops := ops[id := op.(status := OpDebited)];
      return TransferCompleted(op.amount, op.fee);
    }

    method InterbankRelease(id: Id, reason: Option<Reason>) returns (reply: Reply)
      modifies this
      ensures Outcome(Snapshot(), reply) == Ledger.InterbankRelease(old(Snapshot()), id, reason)
    {
      if id !in ops || ops[id].direction != Outgoing || ops[id].status != OpReserved {
        return Skipped;
      }
      var op := ops[id];
      if op.account.None? || op.account.value !in accounts {
        return Thrown;
      }
      var account := accounts[op.account.value];
      accounts := accounts[op.account.value := account.(reserved := Max(0, account.reserved - (op.amount + op.fee)))];
      ops := ops[id := op.(status := OpReleased, reason := reason)];
      return FundsReleased(op.amount, op.fee);
    }

    method Credit(id: Id, destination: Option<Id>, amount: Option<int>, currency: Currency, expiresAt: Option<int>, now: int)
      returns (reply: Reply)
      modifies this
      ensures Outcome(Snapshot(), reply) == Ledger.Credit(old(Snapshot()), id, destination, amount, currency, expiresAt, now)
    {
      if id in ops {
        return DepositReply(ops[id]);
      }
      var account := if destination.Some? then Find(accounts, destination.value) else None;
      var reason := CheckIncomingDeposit(now, expiresAt, amount, currency, account);
      var op := Op(Incoming, destination, OrZero(amount), 0, if reason.Some? then OpRejected else OpCredited, reason, None);
      ops := ops[id := op];
      if reason.None? && account.Some? {
        var a := account.value;
        accounts := accounts[destination.value := a.(balance := a.balance + OrZero(amount))];
      }
      return DepositReply(op);
    }

    method CancelDeposit(id: Id) returns (reply: Reply)
      modifies this
      ensures Outcome(Snapshot(), reply) == Ledger.CancelDeposit(old(Snapshot()), id)
    {
      if id !in ops {
        ops := ops[id := Op(Incoming, None, 0, 0, OpCancelled, Some(Cancelled), None)];
        return CancelResult(CancelDone);
      }
      var op := ops[id];
      if op.status == OpCredited || op.status == OpRefunded {
        return CancelResult(AlreadyAccepted);
      }
      if op.status == OpRejected {
        return CancelResult(AlreadyRejected(op.reason));
      }
      return CancelResult(CancelDone);
    }

    method Reverse(reversal: Id, original: Id) returns (reply: Reply)
      modifies this
      ensures Outcome(Snapshot(), reply) == Ledger.Reverse(old(Snapshot()), reversal, original)
    {
      if original !in ops || ops[original].direction != Incoming {
        return ReversalFailed(Some(OriginalNotCredited));
      }
      var op := ops[original];
      if op.status == OpRefunded && op.reversal == Some(reversal) {
        return ReversalDebited(op.amount);
      }
      if op.status != OpCredited {
        return ReversalFailed(Some(OriginalNotCredited));
      }
      if op.account.None? || op.account.value !in accounts {
        return ReversalFailed(Some(InsufficientFunds));
      }
      var account := accounts[op.account.value];
      if account.balance - account.reserved < op.amount {
        return ReversalFailed(Some(InsufficientFunds));
      }
      accounts := accounts[op.account.value := account.(balance := account.balance - op.amount)];
      ops := ops[original := op.(status := OpRefunded, reversal := Some(reversal))];
      return ReversalDebited(op.amount);
    }
  }
}
