/** Whatever has happened to a received deposit, it can still be decided, and its sender told. */
module ReceiverLiveness {
  import opened Prelude
  import MapSums
  import opened Ledger
  import opened InterbankRules
  import Deposit
  import opened Receiver

  ghost predicate Reaches(b: Bank, b': Bank) {
    exists steps: seq<Step> :: Run(b, true, steps) == b'
  }

  lemma AndThen(b: Bank, middle: Bank, step: Step) returns (b': Bank)
    requires Reaches(b, middle) && Inv(middle) && CallbackAgrees(middle)
    ensures b' == Next(middle, true, step) && Reaches(b, b') && Inv(b') && CallbackAgrees(b')
  {
    b' := Next(middle, true, step);
    NextKeeps(middle, true, step);
    NextKeepsCallback(middle, true, step);
    var steps :| Run(b, true, steps) == middle;
    RunSplits(b, true, steps, [step]);
    assert Run(b', true, [step][1..]) == b';
  }

  lemma GetsRequested(b: Bank, middle: Bank) returns (b': Bank)
    requires Reaches(b, middle) && Inv(middle) && CallbackAgrees(middle) && middle.row == Some(Processing)
    ensures Reaches(b, b') && Inv(b') && CallbackAgrees(b') && b'.row == Some(Processing) && b'.outbox.requested
  {
    b' := middle;
    if !b'.outbox.requested {
      b' := AndThen(b, b', FlusherReads);
      b' := AndThen(b, b', FlusherPublishes);
    }
  }

  lemma GetsAnnounced(b: Bank, middle: Bank) returns (b': Bank)
    requires Reaches(b, middle) && Inv(middle) && CallbackAgrees(middle) && middle.row == Some(Processing) && middle.outbox.requested
    ensures Reaches(b, b') && Inv(b') && CallbackAgrees(b') && b'.row == Some(Processing)
    ensures if IsCredited(b'.op) then b'.creditedEvent else b'.rejectedEvent
    ensures b'.op.Some? && (middle.op.Some? ==> b'.op == middle.op)
  {
    b' := AndThen(b, middle, AccountCredits(true, true));
  }

  /**
   From every reachable state in which the deposit is PROCESSING, some continuation makes its row say what Account
   decided, and its callback due.
   */
  lemma ProcessingCanBeDecided(now: int, valid: bool, expiresAt: int, before: seq<Step>) returns (steps: seq<Step>)
    requires Run(Opening(now, valid, expiresAt), true, before).row == Some(Processing)
    ensures var b := Run(Run(Opening(now, valid, expiresAt), true, before), true, steps);
            && (b.row == Some(InAccepted) || b.row == Some(InRejected)) && (b.row == Some(InAccepted) <==> IsCredited(b.op))
            && b.callback.mark.Due?
  {
    var start := Opening(now, valid, expiresAt);
    var b := Run(start, true, before);
    RunKeeps(start, true, before);
    ResultsAreCalledBack(start, true, before);
    assert Run(b, true, []) == b;
    var b' := GetsRequested(b, b);
    b' := GetsAnnounced(b, b');
    b' := AndThen(b, b', ResultArrives(IsCredited(b'.op)));
    steps :| Run(b, true, steps) == b';
  }

  /** A handler that will answer from the row as it is. */
  ghost predicate Ready(b: Bank, b': Bank, handler: int) {
    && Reaches(b, b') && handler in b'.cancels && b'.row.Some? && b'.row != Some(Processing)
    && (b'.cancels[handler].CanAnswer? || b'.cancels[handler].CanRead? || b'.cancels[handler].CanReread?)
  }

  lemma Arrives(b: Bank) returns (b': Bank, handler: int)
    requires Inv(b) && CallbackAgrees(b)
    ensures Reaches(b, b') && Inv(b') && CallbackAgrees(b') && b'.row == b.row
    ensures handler in b'.cancels && b'.cancels[handler].CanRead?
  {
    assert Run(b, true, []) == b;
    handler := MapSums.FreshKey(b.cancels);
    b' := AndThen(b, b, CancelArrives(handler));
  }

  lemma BarsTheUnknown(b: Bank, middle: Bank, handler: int) returns (b': Bank)
    requires Reaches(b, middle) && Inv(middle) && CallbackAgrees(middle)
    requires middle.row.None? && handler in middle.cancels && middle.cancels[handler].CanRead?
    ensures Ready(b, b', handler)
  {
    b' := AndThen(b, middle, CancelMoves(handler));
    b' := AndThen(b, b', CancelMoves(handler));
  }

  lemma AsksAccount(b: Bank, middle: Bank, handler: int) returns (b': Bank)
    requires Reaches(b, middle) && Inv(middle) && CallbackAgrees(middle)
    requires middle.row == Some(Processing) && handler in middle.cancels && middle.cancels[handler].CanRead?
    ensures Ready(b, b', handler)
  {
    b' := AndThen(b, middle, CancelMoves(handler));
    b' := AndThen(b, b', CancelMoves(handler));
    b' := AndThen(b, b', CancelMoves(handler));
  }

  lemma ReadyAnswers(b: Bank, b': Bank, handler: int)
    requires Ready(b, b', handler)
    ensures Says(b', true, CancelMoves(handler)) == Some(Deposit.ToCancel(Answer(200, ResultWord(b'.row.value), None)))
  {
  }

  /** From every reachable state, a cancellation that nothing disturbs comes to an answer, read off a decided row. */
  lemma CancellationsAnswer(now: int, valid: bool, expiresAt: int, before: seq<Step>) returns (steps: seq<Step>, handler: int)
    ensures var b := Run(Run(Opening(now, valid, expiresAt), true, before), true, steps);
            && b.row.Some? && b.row != Some(Processing)
            && Says(b, true, CancelMoves(handler)) == Some(Deposit.ToCancel(Answer(200, ResultWord(b.row.value), None)))
  {
    var start := Opening(now, valid, expiresAt);
    var b := Run(start, true, before);
    RunKeeps(start, true, before);
    ResultsAreCalledBack(start, true, before);
    var b';
    b', handler := Arrives(b);
    if b.row.None? {
      b' := BarsTheUnknown(b, b', handler);
    } else if b.row == Some(Processing) {
      b' := AsksAccount(b, b', handler);
    }
    ReadyAnswers(b, b', handler);
    steps :| Run(b, true, steps) == b';
  }
}
