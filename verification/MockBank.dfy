/**
 The executable partner bank used in place of a real one: its table of incoming deposits, its handlers
 as they run, and the proof that it is a lawful partner for every deposit it is sent.
 */
module MockBank {
  import opened Prelude
  import opened InterbankRules
  import opened Deposit

  datatype Mode = AcceptMode | RejectMode | NoCallbackMode

  /** Two requests have the same hash exactly when they are the same request. */
  datatype Request = Request(id: int, content: int, valid: bool, amount: int, gtq: bool, expiresAt: int)

  /** `request` is None while the deposit is known only by its cancellation (the empty hash). */
  datatype Incoming = Incoming(request: Option<Request>, status: InState, resolveDue: bool, callbackDue: bool)

  type Table = map<int, Incoming>

  datatype Outcome = Outcome(table: Table, http: Http)

  function ReceiveTransfer(t: Table, r: Request, now: int, mode: Mode): Outcome {
    if !r.valid then Outcome(t, Answer(400, OtherWord, None))
    else if r.id in t && t[r.id].request.None? then
      Outcome(t[r.id := t[r.id].(request := Some(r), callbackDue := true)], Answer(202, WProcessing, None))
    else if r.id in t then
      Outcome(t, if t[r.id].request != Some(r) then Answer(409, OtherWord, None)
                 else Answer(200, StateWord(t[r.id].status), None))
    else if r.expiresAt < now then Outcome(t, Answer(422, OtherWord, None))
    else Outcome(t[r.id := Incoming(Some(r), Processing, !mode.NoCallbackMode?, false)], Answer(202, WProcessing, None))
  }

  function GetTransfer(t: Table, id: int): Http {
    if id in t then Answer(200, StateWord(t[id].status), None) else Answer(404, OtherWord, None)
  }

  function CancelTransfer(t: Table, id: int, wellFormed: bool): Outcome {
    if !wellFormed then Outcome(t, Answer(400, OtherWord, None))
    else if id !in t then
      Outcome(t[id := Incoming(None, InCancelled, false, false)], Answer(200, WCancelled, None))
    else if t[id].status.Processing? then
      Outcome(t[id := t[id].(status := InCancelled)], Answer(200, WCancelled, None))
    else Outcome(t, Answer(200, ResultWord(t[id].status), None))
  }

  predicate Refuses(r: Request, now: int, mode: Mode) {
    r.expiresAt < now || r.amount > 1_000_000 || r.amount < 1 || !r.gtq || mode.RejectMode?
  }

  /** The scheduled decision; nothing happens if the deposit was cancelled meanwhile. */
  function Resolve(t: Table, id: int, now: int, mode: Mode): Table {
    if id !in t || !t[id].resolveDue || t[id].request.None? then t
    else if !t[id].status.Processing? then t[id := t[id].(resolveDue := false)]
    else
      t[id := t[id].(status := if Refuses(t[id].request.value, now, mode) then InRejected else InAccepted,
                     resolveDue := false, callbackDue := true)]
  }

  function CallbackVerdict(t: Table, id: int): Option<Verdict> {
    if id !in t || !t[id].callbackDue then None
    else if t[id].status.InAccepted? then Some(VAccepted)
    else Some(VRejected)
  }

  class Bank {
    var incoming: map<int, Incoming>
    var mode: Mode

    constructor (mode: Mode)
      ensures incoming == map[] && this.mode == mode
    {
      incoming, this.mode := map[], mode;
    }

    method Receive(r: Request, now: int) returns (reply: Http)
      modifies this
      ensures Outcome(incoming, reply) == ReceiveTransfer(old(incoming), r, now, mode) && mode == old(mode)
    {
      if !r.valid {
        return Answer(400, OtherWord, None);
      }
      if r.id in incoming {
        var existing := incoming[r.id];
        if existing.request.None? {
          incoming := incoming[r.id := existing.(request := Some(r), callbackDue := true)];
          return Answer(202, WProcessing, None);
        }
        if existing.request != Some(r) {
          return Answer(409, OtherWord, None);
        }
        return Answer(200, StateWord(existing.status), None);
      }
      if r.expiresAt < now {
        return Answer(422, OtherWord, None);
      }
      incoming := incoming[r.id := Incoming(Some(r), Processing, mode != NoCallbackMode, false)];
      return Answer(202, WProcessing, None);
    }

    method CancelDeposit(id: int, wellFormed: bool) returns (reply: Http)
      modifies this
      ensures Outcome(incoming, reply) == CancelTransfer(old(incoming), id, wellFormed) && mode == old(mode)
    {
      if !wellFormed {
        return Answer(400, OtherWord, None);
      }
      if id !in incoming {
        incoming := incoming[id := Incoming(None, InCancelled, false, false)];
      } else if incoming[id].status.Processing? {
        incoming := incoming[id := incoming[id].(status := InCancelled)];
      }
      var status := incoming[id].status;
      return Answer(200, if status.InAccepted? then WAlreadyAccepted else if status.InRejected? then WAlreadyRejected else WCancelled, None);
    }

    method Decide(id: int, now: int)
      modifies this
      ensures incoming == Resolve(old(incoming), id, now, mode) && mode == old(mode)
    {
      if id !in incoming || !incoming[id].resolveDue || incoming[id].request.None? {
        return;
      }
      var t := incoming[id].(resolveDue := false);
      if t.status.Processing? {
        var refuse := Refuses(t.request.value, now, mode);
        t := t.(status := if refuse then InRejected else InAccepted, callbackDue := true);
      }
      incoming := incoming[id := t];
    }
  }

  // ------------------------------------------------ one deposit at this bank

  /** The bank, its clock and mode, and whether a copy of the deposit `r` has arrived. */
  datatype Site = Site(table: Table, now: int, mode: Mode, reached: bool)

  datatype Step =
    | Passes(ms: nat)
    | ModeSet(mode: Mode)
    | PostArrives
    | StatusAsked
    | CancelAsked(wellFormed: bool)
    | Decides
    | CallsBack
    | OtherPost(other: Request)
    | OtherCancel(id: int, wellFormed: bool)
    | OtherDecides(id: int)

  function Next(s: Site, r: Request, posted: bool, step: Step): Site {
    match step
    case Passes(ms) => s.(now := s.now + ms)
    case ModeSet(mode) => s.(mode := mode)
    case PostArrives =>
      if posted then s.(table := ReceiveTransfer(s.table, r, s.now, s.mode).table, reached := true) else s
    case StatusAsked => s
    case CancelAsked(wellFormed) => s.(table := CancelTransfer(s.table, r.id, wellFormed).table)
    case Decides => s.(table := Resolve(s.table, r.id, s.now, s.mode))
    case CallsBack => s
    case OtherPost(other) =>
      if other.id == r.id then s else s.(table := ReceiveTransfer(s.table, other, s.now, s.mode).table)
    case OtherCancel(id, wellFormed) => if id == r.id then s else s.(table := CancelTransfer(s.table, id, wellFormed).table)
    case OtherDecides(id) => if id == r.id then s else s.(table := Resolve(s.table, id, s.now, s.mode))
  }

  function Says(s: Site, r: Request, posted: bool, step: Step): Option<PartnerReply> {
    match step
    case PostArrives => if posted then Some(ToPost(ReceiveTransfer(s.table, r, s.now, s.mode).http)) else None
    case StatusAsked => Some(ToQuery(GetTransfer(s.table, r.id)))
    case CancelAsked(wellFormed) => Some(ToCancel(CancelTransfer(s.table, r.id, wellFormed).http))
    case _ => None
  }

  function Calls(s: Site, r: Request, step: Step): Option<Verdict> {
    if step.CallsBack? then CallbackVerdict(s.table, r.id) else None
  }

  function View(s: Site, r: Request): Partner {
    if r.id in s.table then
      Partner(s.reached, s.table[r.id].status.InAccepted?, s.table[r.id].status.InRejected? || s.table[r.id].status.InCancelled?)
    else Partner(s.reached, false, !r.valid || r.expiresAt < s.now)
  }

  /** The entry of the deposit is about this very request, and only a cancellation can come before it. */
  predicate Inv(s: Site, r: Request) {
    r.id in s.table ==>
      var t := s.table[r.id];
      && (t.request.Some? ==> t.request == Some(r) && r.valid && s.reached)
      && (t.request.None? ==> t.status.InCancelled? && !t.callbackDue)
      && (t.callbackDue ==> !t.status.Processing?)
  }

  lemma NextKeeps(s: Site, r: Request, posted: bool, step: Step)
    requires Inv(s, r)
    ensures Inv(Next(s, r, posted, step), r)
  {
  }

  /** Every step of the mock, with what it answers, is a lawful move of a partner. */
  lemma NextIsLawful(s: Site, r: Request, posted: bool, step: Step)
    requires Inv(s, r)
    ensures Lawful(View(s, r), View(Next(s, r, posted, step), r), posted, Says(s, r, posted, step), Calls(s, r, step))
  {
  }

  /** And every answer is true: look-up, check and insert are one step here. */
  lemma NextIsHonest(s: Site, r: Request, posted: bool, step: Step)
    requires Inv(s, r)
    ensures Says(s, r, posted, step).Some? ==> Truthful(View(Next(s, r, posted, step), r), Meaning(Says(s, r, posted, step).value))
  {
  }

  // -------------------------------------------------------- what it does, exactly

  /** A POST: who is refused, who is repeated, who is new. */
  lemma PostIsExact(t: Table, r: Request, now: int, mode: Mode)
    ensures var out := ReceiveTransfer(t, r, now, mode);
            var barred := r.id in t && t[r.id].request.None?;
            var known := r.id in t && t[r.id].request.Some?;
            && (out.http == Answer(400, OtherWord, None) <==> !r.valid)
            && (out.http == Answer(409, OtherWord, None) <==> r.valid && known && t[r.id].request != Some(r))
            && (out.http == Answer(422, OtherWord, None) <==> r.valid && r.id !in t && r.expiresAt < now)
            && (out.http == Answer(202, WProcessing, None) <==> r.valid && (barred || (r.id !in t && r.expiresAt >= now)))
            && (r.valid && known && t[r.id].request == Some(r) ==> Tells(out.http, t[r.id].status) && out.table == t)
            && (out.http.status != 202 ==> out.table == t)
            && (r.valid && barred ==> out.table == t[r.id := Incoming(Some(r), t[r.id].status, t[r.id].resolveDue, true)])
            && (r.valid && r.id !in t && r.expiresAt >= now ==>
                  out.table == t[r.id := Incoming(Some(r), Processing, mode == AcceptMode || mode == RejectMode, false)])
  {
  }

  predicate Tells(http: Http, status: InState) {
    && http.Answer? && http.status == 200
    && (http.word.WProcessing? <==> status.Processing?) && (http.word.WAccepted? <==> status.InAccepted?)
    && (http.word.WRejected? <==> status.InRejected?) && (http.word.WCancelled? <==> status.InCancelled?)
  }

  lemma StatusIsExact(t: Table, id: int)
    ensures if id in t then Tells(GetTransfer(t, id), t[id].status) else GetTransfer(t, id) == Answer(404, OtherWord, None)
  {
  }

  /** A cancellation: an unknown deposit is barred, an undecided one cancelled, a decided one told. */
  lemma CancellationIsExact(t: Table, id: int, wellFormed: bool)
    ensures var out := CancelTransfer(t, id, wellFormed);
            if !wellFormed then out == Outcome(t, Answer(400, OtherWord, None))
            else
              && id in out.table && out.table == t[id := out.table[id]]
              && (id !in t ==> out.table[id] == Incoming(None, InCancelled, false, false))
              && (id in t && t[id].status.Processing? ==> out.table[id] == t[id].(status := InCancelled))
              && (id in t && !t[id].status.Processing? ==> out.table == t)
              && (out.http == Answer(200, WAlreadyAccepted, None) <==> id in t && t[id].status.InAccepted?)
              && (out.http == Answer(200, WAlreadyRejected, None) <==> id in t && t[id].status.InRejected?)
              && (out.http == Answer(200, WCancelled, None) <==> id !in t || t[id].status.Processing? || t[id].status.InCancelled?)
  {
  }

  /** A scheduled decision: an undecided deposit is accepted exactly if it is in time, in limits, in quetzals and not to be rejected. */
  lemma DecisionIsExact(t: Table, id: int, now: int, mode: Mode)
    ensures var t' := Resolve(t, id, now, mode);
            if id in t && t[id].resolveDue && t[id].request.Some? then
              var r := t[id].request.value;
              && id in t' && t' == t[id := t'[id]] && !t'[id].resolveDue && t'[id].request == t[id].request
              && (t[id].status.Processing? ==>
                    && t'[id].callbackDue
                    && (t'[id].status.InAccepted? <==> now <= r.expiresAt && 1 <= r.amount <= 1_000_000 && r.gtq && mode != RejectMode)
                    && (t'[id].status.InRejected? <==> !t'[id].status.InAccepted?))
              && (!t[id].status.Processing? ==> t'[id].status == t[id].status && t'[id].callbackDue == t[id].callbackDue)
            else t' == t
  {
  }

  /** The callback of a deposit says ACCEPTED if it is, and REJECTED of everything else, cancelled ones included. */
  lemma CallbackIsExact(t: Table, id: int)
    ensures CallbackVerdict(t, id) == Some(VAccepted) <==> id in t && t[id].callbackDue && t[id].status.InAccepted?
    ensures CallbackVerdict(t, id) == Some(VRejected) <==> id in t && t[id].callbackDue && !t[id].status.InAccepted?
  {
  }
}
