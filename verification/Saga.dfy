/**
 The Transaction service's record of an outbound interbank deposit: the entity, the guarded service
 calls, which event calls which, and what any order and repetition of events leads to.
 */
module Saga {
  import opened Prelude

  datatype Status = Pending | Processing | Completed | Failed | Compensating | Compensated
  datatype Interbank = IbPending | IbSent | IbTimeout | IbAccepted | IbRejected | IbReversed
  datatype PublicStatus = PublicPending | PublicApproved | PublicFailed

  function SagaStage(s: Status): nat {
    match s
    case Pending => 0
    case Processing => 1
    case Compensating => 2
    case _ => 3
  }

  function InterbankStage(s: Interbank): nat {
    match s
    case IbPending => 0
    case IbSent => 1
    case IbTimeout => 2
    case _ => 3
  }

  predicate IsFinal(s: Interbank) {
    InterbankStage(s) == 3
  }

  function ToPublic(s: Status): PublicStatus {
    match s
    case Completed => PublicApproved
    case Failed => PublicFailed
    case Compensated => PublicFailed
    case _ => PublicPending
  }

  predicate IsStale(current: Status, target: Status) {
    SagaStage(current) >= SagaStage(target)
  }

  /** A stored transaction; `reason` is the code of the failure reason. */
  datatype Record = Record(status: Status, interbank: Interbank, reason: Option<int>)

  const OPENED := Record(Pending, IbPending, None)

  function Advance(r: Record, state: Interbank, reason: Option<int>): Record {
    if IsFinal(r.interbank) || InterbankStage(r.interbank) >= InterbankStage(state) then r
    else
      match state
      case IbRejected =>
        r.(interbank := state, status := if r.status.Pending? then Failed else Compensating,
           reason := if reason.Some? then reason else r.reason)
      case IbReversed =>
        r.(interbank := state, status := Compensating, reason := if reason.Some? then reason else r.reason)
      case IbPending => r.(interbank := state)
      case _ => r.(interbank := state, status := Processing)
  }

  function Settle(r: Record, status: Status): Record
    requires status.Completed? || status.Compensated?
  {
    if r.status.Completed? || r.status.Compensated? || r.status.Failed? then r
    else
      r.(status := status,
         interbank := if IsFinal(r.interbank) then r.interbank else if status.Completed? then IbAccepted else IbReversed)
  }

  /** The statuses from which the entity's markAs method of `target` does not throw. */
  predicate CanBecome(current: Status, target: Status) {
    match target
    case Pending => false
    case Processing => current.Pending?
    case Completed => current.Processing?
    case Failed => current.Pending? || current.Processing?
    case Compensating => current.Processing?
    case Compensated => current.Compensating?
  }

  function WithReason(r: Record, target: Status, reason: Option<int>): Record {
    r.(status := target,
       reason := if reason.Some? && (target.Failed? || target.Compensating?) then reason else r.reason)
  }

  datatype Marked = Kept(record: Record) | Throws

  /** The guarded service call: late is ignored, too early throws. */
  function Mark(r: Record, target: Status, reason: Option<int>): Marked {
    if IsStale(r.status, target) then Kept(r)
    else if !CanBecome(r.status, target) then Throws
    else Kept(WithReason(r, target, reason))
  }

  /** The entity with its private fields, changed in place by its methods. */
  class Transaction {
    var status: Status
    var interbankState: Interbank
    var failureReason: Option<int>

    constructor ()
      ensures Snapshot() == OPENED
    {
      status, interbankState, failureReason := Pending, IbPending, None;
    }

    function Snapshot(): Record
      reads this
    {
      Record(status, interbankState, failureReason)
    }

    /** The five markAs methods; `threw` stands for the error, which changes nothing. */
    method MarkAs(target: Status, reason: Option<int>) returns (threw: bool)
      requires !target.Pending?
      modifies this
      ensures threw <==> !CanBecome(old(status), target)
      ensures Snapshot() == if threw then old(Snapshot()) else WithReason(old(Snapshot()), target, reason)
    {
      match target {
        case Processing => if !status.Pending? { return true; }
        case Completed => if !status.Processing? { return true; }
        case Failed => if !status.Pending? && !status.Processing? { return true; }
        case Compensating => if !status.Processing? { return true; }
        case Compensated => if !status.Compensating? { return true; }
      }
      status := target;
      if reason.Some? && (target.Failed? || target.Compensating?) {
        failureReason := reason;
      }
      return false;
    }

    method AdvanceInterbank(state: Interbank, reason: Option<int>) returns (changed: bool)
      modifies this
      ensures Snapshot() == Advance(old(Snapshot()), state, reason)
      ensures changed <==> Snapshot().interbank != old(Snapshot()).interbank
    {
      if IsFinal(interbankState) || InterbankStage(interbankState) >= InterbankStage(state) {
        return false;
      }
      interbankState := state;
      match state {
        case IbSent | IbTimeout | IbAccepted =>
          status := Processing;
        case IbRejected =>
          status := if status.Pending? then Failed else Compensating;
          failureReason := if reason.Some? then reason else failureReason;
        case IbReversed =>
          status := Compensating;
          failureReason := if reason.Some? then reason else failureReason;
        case IbPending =>
      }
      return true;
    }

    method SettleInterbank(outcome: Status) returns (changed: bool)
      requires outcome.Completed? || outcome.Compensated?
      modifies this
      ensures Snapshot() == Settle(old(Snapshot()), outcome)
      ensures changed <==> SagaStage(old(status)) < 3
    {
      if status.Completed? || status.Compensated? || status.Failed? {
        return false;
      }
      if !IsFinal(interbankState) {
        interbankState := if outcome.Completed? then IbAccepted else IbReversed;
      }
      status := outcome;
      return true;
    }
  }

  // -------------------------------------------------------------------- events

  datatype Event =
    | FundsReserved | FundsRejected(reason: Option<int>)
    | TransferSent | TransferTimeout | TransferAccepted | TransferRejected(reason: Option<int>) | TransferReversed(reason: Option<int>)
    | DebitDone | FundsReleased

  /** What a transaction's end is announced as: each of these is published at most once. */
  datatype Notice = SaysCompleted | SaysFailed | SaysCompensated

  datatype Handled = Handled(record: Record, notice: Option<Notice>) | Threw

  function Advanced(r: Record, state: Interbank, reason: Option<int>): Handled {
    var r' := Advance(r, state, reason);
    Handled(r', if r'.interbank != r.interbank && r'.status.Failed? then Some(SaysFailed) else None)
  }

  function Settled(r: Record, status: Status): Handled
    requires status.Completed? || status.Compensated?
  {
    Handled(Settle(r, status),
            if SagaStage(r.status) == 3 then None else Some(if status.Completed? then SaysCompleted else SaysCompensated))
  }

  function Dispatch(r: Record, e: Event): Handled {
    match e
    case FundsReserved => (match Mark(r, Processing, None) case Kept(r') => Handled(r', None) case Throws => Threw)
    case FundsRejected(reason) => Advanced(r, IbRejected, reason)
    case TransferSent => Advanced(r, IbSent, None)
    case TransferTimeout => Advanced(r, IbTimeout, None)
    case TransferAccepted => Advanced(r, IbAccepted, None)
    case TransferRejected(reason) => Advanced(r, IbRejected, reason)
    case TransferReversed(reason) => Advanced(r, IbReversed, reason)
    case DebitDone => Settled(r, Completed)
    case FundsReleased => Settled(r, Compensated)
  }

  /** A fold over the delivered events; a handler that throws changes nothing. */
  datatype Story = Story(record: Record, notices: seq<Notice>, threw: bool)

  function Tell(s: Story, e: Event): Story {
    match Dispatch(s.record, e)
    case Handled(r, notice) => Story(r, s.notices + (if notice.Some? then [notice.value] else []), s.threw)
    case Threw => s.(threw := true)
  }

  function TellAll(s: Story, events: seq<Event>): Story
    decreases |events|
  {
    if events == [] then s else TellAll(Tell(s, events[0]), events[1..])
  }

  const BEGINNING := Story(OPENED, [], false)

  // ---------------------------------------------------------------- invariant

  /** Past PROCESSING the interbank state is final, and the notices say how the saga ended, once. */
  predicate Consistent(s: Story) {
    && !s.threw
    && (SagaStage(s.record.status) >= 2 ==> IsFinal(s.record.interbank))
    && (s.record.status.Failed? ==> s.record.interbank.IbRejected?)
    && (s.record.status.Pending? ==> s.record.interbank.IbPending?)
    && s.notices == match s.record.status
                    case Completed => [SaysCompleted]
                    case Failed => [SaysFailed]
                    case Compensated => [SaysCompensated]
                    case _ => []
  }

  lemma TellKeeps(s: Story, e: Event)
    requires Consistent(s)
    ensures Consistent(Tell(s, e))
    ensures SagaStage(s.record.status) <= SagaStage(Tell(s, e).record.status)
    ensures InterbankStage(s.record.interbank) <= InterbankStage(Tell(s, e).record.interbank)
    ensures IsFinal(s.record.interbank) ==> Tell(s, e).record.interbank == s.record.interbank
    ensures SagaStage(s.record.status) == 3 ==> Tell(s, e) == s
  {
  }

  /** Any interbank events, in any order, contradictory ones included: no throw, no step back, one notice. */
  lemma {:induction false} NothingThrowsOrGoesBack(s: Story, events: seq<Event>)
    requires Consistent(s)
    ensures Consistent(TellAll(s, events))
    ensures SagaStage(s.record.status) <= SagaStage(TellAll(s, events).record.status)
    ensures InterbankStage(s.record.interbank) <= InterbankStage(TellAll(s, events).record.interbank)
    ensures IsFinal(s.record.interbank) ==> TellAll(s, events).record.interbank == s.record.interbank
    ensures |TellAll(s, events).notices| <= 1
    decreases |events|
  {
    if events == [] {
    } else {
      TellKeeps(s, events[0]);
      NothingThrowsOrGoesBack(Tell(s, events[0]), events[1..]);
    }
  }

  // -------------------------------------------------- what each change does, exactly

  /** The interbank state advances exactly from a lower stage that is not final, and takes the status along. */
  lemma AdvanceIsExact(r: Record, state: Interbank, reason: Option<int>)
    ensures var r' := Advance(r, state, reason);
            var taken := match r.interbank
                         case IbPending => state != IbPending
                         case IbSent => state != IbPending && state != IbSent
                         case IbTimeout => state == IbAccepted || state == IbRejected || state == IbReversed
                         case _ => false;
            if taken then
              && r'.interbank == state
              && (r'.status == Processing <==> state == IbSent || state == IbTimeout || state == IbAccepted)
              && (r'.status == Failed <==> state == IbRejected && r.status == Pending)
              && (r'.status == Compensating <==> state == IbReversed || (state == IbRejected && r.status != Pending))
              && r'.reason == if reason.Some? && (state == IbRejected || state == IbReversed) then reason else r.reason
            else r' == r
  {
  }

  /** A settlement ends every saga that has not ended, and fills in the interbank state it implies. */
  lemma SettlementIsExact(r: Record, status: Status)
    requires status == Completed || status == Compensated
    ensures var r' := Settle(r, status);
            if r.status == Completed || r.status == Compensated || r.status == Failed then r' == r
            else
              && r'.status == status && r'.reason == r.reason
              && (r.interbank == IbAccepted || r.interbank == IbRejected || r.interbank == IbReversed ==> r'.interbank == r.interbank)
              && (r.interbank == IbPending || r.interbank == IbSent || r.interbank == IbTimeout ==>
                    r'.interbank == if status == Completed then IbAccepted else IbReversed)
  {
  }

  /** What customers see. */
  lemma PublicStatusIsExact(s: Status)
    ensures ToPublic(s) == PublicApproved <==> s == Completed
    ensures ToPublic(s) == PublicFailed <==> s == Failed || s == Compensated
    ensures ToPublic(s) == PublicPending <==> s == Pending || s == Processing || s == Compensating
  {
  }

  /** How far an event says the deposit has got. */
  function StageOf(e: Event): nat {
    match e
    case FundsReserved => 0
    case TransferSent => 1
    case TransferTimeout => 2
    case _ => 3
  }

  function Furthest(events: seq<Event>): nat {
    if events == [] then 0 else Max(StageOf(events[0]), Furthest(events[1..]))
  }

  lemma TellReaches(s: Story, e: Event)
    requires Consistent(s)
    ensures InterbankStage(Tell(s, e).record.interbank) == Max(InterbankStage(s.record.interbank), StageOf(e))
    ensures !Tell(s, e).record.status.Pending?
  {
  }

  /** Whatever the order, the interbank state is as far as the furthest event, and the first event ends PENDING. */
  lemma {:induction false} InterbankIsTheFurthest(s: Story, events: seq<Event>)
    requires Consistent(s)
    ensures InterbankStage(TellAll(s, events).record.interbank) == Max(InterbankStage(s.record.interbank), Furthest(events))
    ensures TellAll(s, events).record.status.Pending? <==> events == [] && s.record.status.Pending?
    decreases |events|
  {
    if events == [] {
    } else {
      TellKeeps(s, events[0]);
      TellReaches(s, events[0]);
      InterbankIsTheFurthest(Tell(s, events[0]), events[1..]);
    }
  }

  // -------------------------------------------------------------- confluence

  /** What a deposit can have caused: accepted, reversed, or rejected by the partner, after the reservation. */
  datatype History = WasAccepted | WasReversed | WasRejected

  predicate Belongs(e: Event, h: History) {
    match e
    case FundsReserved => true
    case TransferSent => true
    case TransferTimeout => true
    case TransferAccepted => h.WasAccepted?
    case DebitDone => h.WasAccepted?
    case TransferReversed(_) => h.WasReversed?
    case TransferRejected(_) => h.WasRejected?
    case FundsReleased => !h.WasAccepted?
    case FundsRejected(_) => false
  }

  predicate Settles(e: Event) {
    e.DebitDone? || e.FundsReleased?
  }

  predicate Within(events: seq<Event>, h: History) {
    forall i :: 0 <= i < |events| ==> Belongs(events[i], h)
  }

  /** Where such a history can have brought the record. */
  predicate OnCourse(r: Record, h: History) {
    match h
    case WasAccepted => !r.interbank.IbRejected? && !r.interbank.IbReversed? && r.status in {Pending, Processing, Completed}
    case WasReversed => !r.interbank.IbAccepted? && !r.interbank.IbRejected? && r.status in {Pending, Processing, Compensating, Compensated}
    case WasRejected => !r.interbank.IbAccepted? && !r.status.Completed?
  }

  lemma {:induction false} StaysOnCourse(s: Story, events: seq<Event>, h: History)
    requires Consistent(s) && OnCourse(s.record, h) && Within(events, h)
    ensures OnCourse(TellAll(s, events).record, h)
    ensures (exists i :: 0 <= i < |events| && Settles(events[i])) || SagaStage(s.record.status) == 3 ==>
              SagaStage(TellAll(s, events).record.status) == 3
    decreases |events|
  {
    if events == [] {
    } else {
      assert Belongs(events[0], h);
      TellKeeps(s, events[0]);
      forall i | 0 <= i < |events[1..]| ensures Belongs(events[1..][i], h) {
        assert events[1..][i] == events[i + 1];
      }
      StaysOnCourse(Tell(s, events[0]), events[1..], h);
      if exists i :: 0 <= i < |events| && Settles(events[i]) {
        var i :| 0 <= i < |events| && Settles(events[i]);
        if i == 0 {
          assert SagaStage(Tell(s, events[0]).record.status) == 3;
        } else {
          assert events[1..][i - 1] == events[i];
        }
      }
    }
  }

  /**
   Confluence: once the settlement has been delivered, in any order and with any repetitions, an accepted
   deposit is (COMPLETED, ACCEPTED), a reversed one (COMPENSATED, REVERSED), a rejected one publicly FAILED.
   */
  lemma Confluence(events: seq<Event>, h: History)
    requires Within(events, h) && exists i :: 0 <= i < |events| && Settles(events[i])
    ensures var r := TellAll(BEGINNING, events).record;
            match h
            case WasAccepted => r.status == Completed && r.interbank == IbAccepted && ToPublic(r.status) == PublicApproved
            case WasReversed => r.status == Compensated && r.interbank == IbReversed && ToPublic(r.status) == PublicFailed
            case WasRejected => ToPublic(r.status) == PublicFailed && (r.interbank == IbRejected || r.interbank == IbReversed)
  {
    StaysOnCourse(BEGINNING, events, h);
    NothingThrowsOrGoesBack(BEGINNING, events);
  }

  /** A rejected deposit ends FAILED, not COMPENSATED, exactly when the rejection is the first event to arrive. */
  lemma RejectedEndsFailedIff(first: Event, rest: seq<Event>)
    requires Within([first] + rest, WasRejected)
    ensures TellAll(BEGINNING, [first] + rest).record.status == Failed <==> first.TransferRejected?
  {
    var s := Tell(BEGINNING, first);
    assert ([first] + rest)[0] == first && ([first] + rest)[1..] == rest;
    assert Belongs(first, WasRejected);
    TellKeeps(BEGINNING, first);
    forall i | 0 <= i < |rest| ensures Belongs(rest[i], WasRejected) {
      assert ([first] + rest)[i + 1] == rest[i];
    }
    if first.TransferRejected? {
      DoneStays(s, rest);
    } else {
      NeverFails(s, rest);
    }
  }

  lemma {:induction false} DoneStays(s: Story, events: seq<Event>)
    requires Consistent(s) && SagaStage(s.record.status) == 3
    ensures TellAll(s, events) == s
    decreases |events|
  {
    if events == [] {
    } else {
      TellKeeps(s, events[0]);
      DoneStays(Tell(s, events[0]), events[1..]);
    }
  }

  lemma {:induction false} NeverFails(s: Story, events: seq<Event>)
    requires Consistent(s) && !s.record.status.Pending? && !s.record.status.Failed?
    ensures !TellAll(s, events).record.status.Failed?
    decreases |events|
  {
    if events == [] {
    } else {
      TellKeeps(s, events[0]);
      NeverFails(Tell(s, events[0]), events[1..]);
    }
  }

  // ------------------------------------------------------- the internal saga

  /** Events of a transfer inside the bank. */
  datatype InternalEvent = Reserved | Declined(reason: Option<int>) | Paid | Released | Refused(reason: Option<int>)

  function Target(e: InternalEvent): Status {
    match e
    case Reserved => Processing
    case Declined(_) => Compensating
    case Paid => Completed
    case Released => Compensated
    case Refused(_) => Failed
  }

  function ReasonOf(e: InternalEvent): Option<int> {
    if e.Declined? || e.Refused? then e.reason else None
  }

  /** A delivery whose handler throws leaves the record as it was and is retried as a later delivery. */
  function Deliver(r: Record, e: InternalEvent): Record {
    match Mark(r, Target(e), ReasonOf(e))
    case Kept(r') => r'
    case Throws => r
  }

  function DeliverAll(r: Record, events: seq<InternalEvent>): Record
    decreases |events|
  {
    if events == [] then r else DeliverAll(Deliver(r, events[0]), events[1..])
  }

  /** Statuses of `path` are asked for in this order, whatever comes before, between and after. */
  ghost predicate InTurn(events: seq<InternalEvent>, path: seq<Status>)
    decreases |path|
  {
    path == [] || exists i :: 0 <= i < |events| && Target(events[i]) == path[0] && InTurn(events[i + 1..], path[1..])
  }

  /** An early delivery throws exactly when the record lacks the step before it; a late one never does. */
  lemma ThrowsOnlyWhenEarly(r: Record, e: InternalEvent)
    ensures Mark(r, Target(e), ReasonOf(e)).Throws? <==>
              match e
              case Reserved => false
              case Declined(_) => r.status.Pending?
              case Paid => r.status.Pending? || r.status.Compensating?
              case Released => r.status.Pending? || r.status.Processing?
              case Refused(_) => r.status.Compensating?
    ensures SagaStage(r.status) <= SagaStage(Deliver(r, e).status)
  {
  }

  /** What an internal transfer can come to: approved by Payment, declined by it, or refused by Account. */
  datatype InternalHistory = WasApproved | WasDeclined | WasRefused

  function Path(h: InternalHistory): seq<Status> {
    match h
    case WasApproved => [Processing, Completed]
    case WasDeclined => [Processing, Compensating, Compensated]
    case WasRefused => [Failed]
  }

  function At(h: InternalHistory, p: nat): Status
    requires p <= |Path(h)|
  {
    if p == 0 then Pending else Path(h)[p - 1]
  }

  predicate Along(events: seq<InternalEvent>, h: InternalHistory) {
    forall i :: 0 <= i < |events| ==> Target(events[i]) in Path(h)
  }

  /** Of a history's events only the next one moves the record. */
  lemma OneDelivery(r: Record, e: InternalEvent, h: InternalHistory, p: nat)
    requires p <= |Path(h)| && r.status == At(h, p) && Target(e) in Path(h)
    ensures NextAt(h, p, e) <= |Path(h)| && Deliver(r, e).status == At(h, NextAt(h, p, e))
  {
  }

  /** A call that is neither late nor early does what it says, with its reason if it fails or compensates. */
  lemma MarkIsExact(r: Record, e: InternalEvent)
    ensures var m := Mark(r, Target(e), ReasonOf(e));
            var timely := match e
                          case Reserved => r.status == Pending
                          case Declined(_) => r.status == Processing
                          case Paid => r.status == Processing
                          case Released => r.status == Compensating
                          case Refused(_) => r.status == Pending || r.status == Processing;
            && (timely ==>
                  && m.Kept? && m.record.interbank == r.interbank
                  && (m.record.status == Processing <==> e.Reserved?) && (m.record.status == Compensating <==> e.Declined?)
                  && (m.record.status == Completed <==> e.Paid?) && (m.record.status == Compensated <==> e.Released?)
                  && (m.record.status == Failed <==> e.Refused?)
                  && m.record.reason == if (e.Declined? || e.Refused?) && e.reason.Some? then e.reason else r.reason)
            && (!timely ==> m.Throws? || m.record == r)
  {
  }

  lemma {:induction false} InTurnEarlier(events: seq<InternalEvent>, from: nat, path: seq<Status>)
    requires from <= |events| && InTurn(events[from..], path)
    ensures InTurn(events, path)
  {
    if path == [] {
    } else {
      var i :| 0 <= i < |events[from..]| && Target(events[from..][i]) == path[0] && InTurn(events[from..][i + 1..], path[1..]);
      assert events[from..][i] == events[from + i];
      assert events[from..][i + 1..] == events[from + i + 1..];
    }
  }

  /** Taking the first chance loses nothing. */
  lemma {:induction false} InTurnIsGreedy(events: seq<InternalEvent>, path: seq<Status>)
    requires events != [] && path != []
    ensures InTurn(events, path) <==> InTurn(events[1..], if Target(events[0]) == path[0] then path[1..] else path)
  {
    var rest := events[1..];
    if InTurn(events, path) {
      var i :| 0 <= i < |events| && Target(events[i]) == path[0] && InTurn(events[i + 1..], path[1..]);
      if i > 0 {
        assert rest[i - 1] == events[i] && rest[i..] == events[i + 1..];
        InTurnEarlier(rest, i, path[1..]);
      }
    }
    if InTurn(rest, path) {
      InTurnEarlier(events, 1, path);
    }
  }

  function NextAt(h: InternalHistory, p: nat, e: InternalEvent): nat
    requires p <= |Path(h)|
  {
    if p < |Path(h)| && Target(e) == Path(h)[p] then p + 1 else p
  }

  /** What is left of the path to take after the first event. */
  lemma FirstOnThePath(events: seq<InternalEvent>, h: InternalHistory, p: nat)
    requires events != [] && p <= |Path(h)|
    ensures NextAt(h, p, events[0]) <= |Path(h)|
    ensures InTurn(events, Path(h)[p..]) <==> InTurn(events[1..], Path(h)[NextAt(h, p, events[0])..])
  {
    if p < |Path(h)| {
      InTurnIsGreedy(events, Path(h)[p..]);
      assert Path(h)[p..][0] == Path(h)[p] && Path(h)[p..][1..] == Path(h)[p + 1..];
    }
  }

  lemma EndOfThePath(h: InternalHistory, p: nat)
    requires p <= |Path(h)|
    ensures At(h, p) == At(h, |Path(h)|) <==> InTurn([], Path(h)[p..])
  {
  }

  lemma {:induction false} InternalRun(r: Record, events: seq<InternalEvent>, h: InternalHistory, p: nat)
    requires p <= |Path(h)| && r.status == At(h, p) && Along(events, h)
    ensures DeliverAll(r, events).status == At(h, |Path(h)|) <==> InTurn(events, Path(h)[p..])
    decreases |events|
  {
    if events == [] {
      EndOfThePath(h, p);
    } else {
      OneDelivery(r, events[0], h, p);
      FirstOnThePath(events, h, p);
      InternalRun(Deliver(r, events[0]), events[1..], h, NextAt(h, p, events[0]));
    }
  }

  /**
   An internal transfer, unlike an interbank one, needs its events in turn: it ends COMPLETED, COMPENSATED or
   FAILED exactly when some deliveries of its steps come in their order.
   */
  lemma InternalEndsIffInTurn(events: seq<InternalEvent>, h: InternalHistory)
    requires Along(events, h)
    ensures DeliverAll(OPENED, events).status == At(h, |Path(h)|) <==> InTurn(events, Path(h))
  {
    InternalRun(OPENED, events, h, 0);
    assert Path(h)[0..] == Path(h);
  }
}
