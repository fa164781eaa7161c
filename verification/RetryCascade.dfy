/**
 Retries over the shared topic exchanges. A failed delivery is republished to the retry exchange, which
 copies it to the retry queue of every service bound to the key; each of those copies is dead-lettered
 back to the main exchange, which copies it to every service again. The retry count still bounds it all.
 */
module RetryCascade {

  /** A service bound to the key, with its own RABBITMQ_MAX_RETRIES. */
  datatype Service = Service(queue: int, maxRetries: nat)

  /** A copy in a main queue, in a retry queue until its time to live is over, or in a dead-letter queue. */
  datatype Copy = Ready(service: Service, count: nat) | Waiting(service: Service, count: nat) | Dead(service: Service, count: nat)

  datatype Exchange = Events | Retry | DeadLetter

  function CopyFor(e: Exchange, s: Service, count: nat): Copy {
    match e
    case Events => Ready(s, count)
    case Retry => Waiting(s, count)
    case DeadLetter => Dead(s, count)
  }

  /** One copy for every bound service. */
  function Route(bound: seq<Service>, e: Exchange, count: nat): seq<Copy> {
    if bound == [] then [] else [CopyFor(e, bound[0], count)] + Route(bound[1..], e, count)
  }

  function Without(copies: seq<Copy>, i: nat): seq<Copy>
    requires i < |copies|
  {
    copies[..i] + copies[i + 1..]
  }

  datatype State = State(copies: seq<Copy>, deliveries: nat, timeOuts: nat)

  datatype Step = Deliver(at: nat, succeeds: bool) | TimeOut(at: nat)

  predicate Effective(s: State, step: Step) {
    step.at < |s.copies| && (if step.Deliver? then s.copies[step.at].Ready? else s.copies[step.at].Waiting?)
  }

  /** What a delivered copy turns into when its handler fails: a retry, or a dead letter once the count is used up. */
  function AfterFailure(bound: seq<Service>, c: Copy): seq<Copy>
    requires c.Ready?
  {
    if c.count < c.service.maxRetries then Route(bound, Retry, c.count + 1) else Route(bound, DeadLetter, c.count)
  }

  function Next(bound: seq<Service>, s: State, step: Step): State {
    if !Effective(s, step) then s
    else
      var c := s.copies[step.at];
      var rest := Without(s.copies, step.at);
      match step
      case Deliver(_, succeeds) => State(rest + (if succeeds then [] else AfterFailure(bound, c)), s.deliveries + 1, s.timeOuts)
      case TimeOut(_) => State(rest + Route(bound, Events, c.count), s.deliveries, s.timeOuts + 1)
  }

  function Run(bound: seq<Service>, s: State, steps: seq<Step>): State
    decreases |steps|
  {
    if steps == [] then s else Run(bound, Next(bound, s, steps[0]), steps[1..])
  }

  function Published(bound: seq<Service>): State {
    State(Route(bound, Events, 0), 0, 0)
  }

  lemma {:induction false} RouteIsExact(bound: seq<Service>, e: Exchange, count: nat, i: nat)
    requires i < |bound|
    ensures |Route(bound, e, count)| == |bound| && Route(bound, e, count)[i] == CopyFor(e, bound[i], count)
  {
    if i == 0 {
      RouteHasOneEach(bound, e, count);
    } else {
      RouteIsExact(bound[1..], e, count, i - 1);
    }
  }

  lemma {:induction false} RouteHasOneEach(bound: seq<Service>, e: Exchange, count: nat)
    ensures |Route(bound, e, count)| == |bound|
  {
    if bound == [] {
    } else {
      RouteHasOneEach(bound[1..], e, count);
    }
  }

  /** A failure leaves every service one copy: to retry, counted once more, while the limit of the one that failed allows; dead otherwise. */
  lemma FailureIsExact(bound: seq<Service>, c: Copy, i: nat)
    requires c.Ready? && i < |bound|
    ensures |AfterFailure(bound, c)| == |bound|
    ensures AfterFailure(bound, c)[i] == if c.count < c.service.maxRetries then Waiting(bound[i], c.count + 1) else Dead(bound[i], c.count)
  {
    RouteIsExact(bound, Retry, c.count + 1, i);
    RouteIsExact(bound, DeadLetter, c.count, i);
  }

  class Broker {
    var subscribers: map<int, seq<Service>>
    var copies: seq<Copy>
    var deliveries: nat
    var timeOuts: nat

    constructor ()
      ensures subscribers == map[] && Snapshot() == State([], 0, 0)
    {
      subscribers, copies, deliveries, timeOuts := map[], [], 0, 0;
    }

    function Snapshot(): State
      reads this
    {
      State(copies, deliveries, timeOuts)
    }

    function Bound(key: int): seq<Service>
      reads this
    {
      if key in subscribers then subscribers[key] else []
    }

    /** Binds the service's three queues to every key; binding again what is bound changes nothing. */
    method Subscribe(service: Service, keys: seq<int>)
      modifies this`subscribers
      ensures forall k :: Bound(k) == if k in keys && service !in old(Bound(k)) then old(Bound(k)) + [service] else old(Bound(k))
    {
      for i := 0 to |keys|
        invariant forall k :: Bound(k) ==
                    if k in keys[..i] && service !in old(Bound(k)) then old(Bound(k)) + [service] else old(Bound(k))
      {
        var k := keys[i];
        if service !in Bound(k) {
          subscribers := subscribers[k := Bound(k) + [service]];
        }
      }
      assert keys[..|keys|] == keys;
    }

    method Publish(key: int, e: Exchange, count: nat)
      modifies this`copies
      ensures copies == old(copies) + Route(Bound(key), e, count)
    {
      var bound := Bound(key);
      for i := 0 to |bound|
        invariant copies + Route(bound[i..], e, count) == old(copies) + Route(bound, e, count)
      {
        assert bound[i..][1..] == bound[i + 1..];
        copies := copies + [CopyFor(e, bound[i], count)];
      }
    }

    /** The consumer: the handler runs, and the message is acknowledged after it, or after it was passed on. */
    method Consume(key: int, at: nat, succeeds: bool)
      requires at < |copies| && copies[at].Ready?
      modifies this`copies, this`deliveries
      ensures Snapshot() == Next(Bound(key), old(Snapshot()), Deliver(at, succeeds))
    {
      var c := copies[at];
      copies := Without(copies, at);
      deliveries := deliveries + 1;
      if !succeeds {
        if c.count < c.service.maxRetries {
          Publish(key, Retry, c.count + 1);
        } else {
          Publish(key, DeadLetter, c.count);
        }
      }
    }

    method Expire(key: int, at: nat)
      requires at < |copies| && copies[at].Waiting?
      modifies this`copies, this`timeOuts
      ensures Snapshot() == Next(Bound(key), old(Snapshot()), TimeOut(at))
    {
      timeOuts := timeOuts + 1;
      var c := copies[at];
      copies := Without(copies, at);
      Publish(key, Events, c.count);
    }
  }

  // ---------------------------------------------------------- weighted measure

  function Power(k: nat, e: nat): nat {
    if e == 0 then 1 else k * Power(k, e - 1)
  }

  /** The sum of k^(2c) for c from 0 to n. */
  function SquarePowers(k: nat, n: nat): nat {
    Power(k, 2 * n) + if n == 0 then 0 else SquarePowers(k, n - 1)
  }

  /** The deliveries one ready copy can still cause, itself included, with `left` retries left. */
  function Deliveries(k: nat, left: nat): nat {
    if left == 0 then 1 else 1 + k * (k * Deliveries(k, left - 1))
  }

  function Left(max: nat, count: nat): nat {
    if count < max then max - count else 0
  }

  function Weight(k: nat, max: nat, c: Copy): nat {
    match c
    case Ready(_, count) => Deliveries(k, Left(max, count))
    case Waiting(_, count) => k * Deliveries(k, Left(max, count))
    case Dead(_, _) => 0
  }

  function Total(copies: seq<Copy>, measure: Copy -> nat): nat {
    if copies == [] then 0 else measure(copies[0]) + Total(copies[1..], measure)
  }

  function Weighing(k: nat, max: nat): Copy -> nat {
    (c: Copy) => Weight(k, max, c)
  }

  function CountingWaiting(): Copy -> nat {
    (c: Copy) => if c.Waiting? then 1 else 0
  }

  function TotalWeight(k: nat, max: nat, copies: seq<Copy>): nat {
    Total(copies, Weighing(k, max))
  }

  lemma {:induction false} TotalAdds(a: seq<Copy>, b: seq<Copy>, measure: Copy -> nat)
    ensures Total(a + b, measure) == Total(a, measure) + Total(b, measure)
  {
    if a == [] {
      assert a + b == b;
    } else {
      assert (a + b)[1..] == a[1..] + b;
      TotalAdds(a[1..], b, measure);
    }
  }

  lemma {:induction false} TotalWithout(copies: seq<Copy>, i: nat, measure: Copy -> nat)
    requires i < |copies|
    ensures Total(copies, measure) == Total(Without(copies, i), measure) + measure(copies[i])
  {
    assert copies == copies[..i] + ([copies[i]] + copies[i + 1..]);
    TotalAdds(copies[..i], [copies[i]] + copies[i + 1..], measure);
    TotalAdds([copies[i]], copies[i + 1..], measure);
    TotalAdds(copies[..i], copies[i + 1..], measure);
    assert Total([copies[i]], measure) == measure(copies[i]);
  }

  /** What each copy of a routed message weighs, whichever service it is for. */
  function WeightIn(k: nat, max: nat, e: Exchange, count: nat): nat {
    match e
    case Events => Deliveries(k, Left(max, count))
    case Retry => k * Deliveries(k, Left(max, count))
    case DeadLetter => 0
  }

  lemma {:induction false} RouteWeighs(k: nat, max: nat, bound: seq<Service>, e: Exchange, count: nat)
    ensures TotalWeight(k, max, Route(bound, e, count)) == |bound| * WeightIn(k, max, e, count)
  {
    if bound == [] {
    } else {
      RouteWeighs(k, max, bound[1..], e, count);
      var copies := Route(bound, e, count);
      assert copies[1..] == Route(bound[1..], e, count);
      assert Weight(k, max, copies[0]) == WeightIn(k, max, e, count);
      OneMore(|bound| - 1, WeightIn(k, max, e, count));
    }
  }

  lemma OneMore(n: nat, w: nat)
    ensures w + n * w == (n + 1) * w
  {
  }

  /** A time-out replaces a waiting copy by copies of the same total weight. */
  lemma {:induction false} TimeOutWeighs(max: nat, bound: seq<Service>, c: Copy)
    requires c.Waiting?
    ensures TotalWeight(|bound|, max, Route(bound, Events, c.count)) == Weight(|bound|, max, c)
  {
    RouteWeighs(|bound|, max, bound, Events, c.count);
  }

  /** A failure replaces a ready copy by copies that weigh at least one delivery less. */
  lemma {:induction false} FailureWeighs(max: nat, bound: seq<Service>, c: Copy)
    requires c.Ready? && c.service.maxRetries <= max
    ensures TotalWeight(|bound|, max, AfterFailure(bound, c)) + 1 <= Weight(|bound|, max, c)
    ensures c.count <= c.service.maxRetries == max ==> TotalWeight(|bound|, max, AfterFailure(bound, c)) + 1 == Weight(|bound|, max, c)
  {
    if c.count < c.service.maxRetries {
      RouteWeighs(|bound|, max, bound, Retry, c.count + 1);
      assert Left(max, c.count) - 1 == Left(max, c.count + 1);
    } else {
      RouteWeighs(|bound|, max, bound, DeadLetter, c.count);
    }
  }

  predicate Limited(bound: seq<Service>, max: nat) {
    forall i :: 0 <= i < |bound| ==> bound[i].maxRetries <= max
  }

  predicate FromBound(bound: seq<Service>, copies: seq<Copy>) {
    forall i :: 0 <= i < |copies| ==> copies[i].service in bound
  }

  lemma {:induction false} RouteIsFromBound(all: seq<Service>, bound: seq<Service>, e: Exchange, count: nat)
    requires forall s :: s in bound ==> s in all
    ensures FromBound(all, Route(bound, e, count))
  {
    if bound == [] {
    } else {
      RouteIsFromBound(all, bound[1..], e, count);
    }
  }

  /** What replaces a copy that is delivered or timed out. */
  function Replacement(bound: seq<Service>, c: Copy, step: Step): seq<Copy>
    requires if step.Deliver? then c.Ready? else c.Waiting?
  {
    if step.TimeOut? then Route(bound, Events, c.count) else if step.succeeds then [] else AfterFailure(bound, c)
  }

  lemma {:induction false} NextReplaces(bound: seq<Service>, s: State, step: Step, measure: Copy -> nat)
    requires Effective(s, step)
    ensures var s', c := Next(bound, s, step), s.copies[step.at];
            Total(s'.copies, measure) + measure(c) == Total(s.copies, measure) + Total(Replacement(bound, c, step), measure)
  {
    var c, rest := s.copies[step.at], Without(s.copies, step.at);
    assert Next(bound, s, step).copies == rest + Replacement(bound, c, step);
    TotalWithout(s.copies, step.at, measure);
    TotalAdds(rest, Replacement(bound, c, step), measure);
  }

  lemma {:induction false} NextIsFromBound(bound: seq<Service>, s: State, step: Step)
    requires FromBound(bound, s.copies)
    ensures FromBound(bound, Next(bound, s, step).copies)
  {
    if Effective(s, step) {
      var c := s.copies[step.at];
      RouteIsFromBound(bound, bound, Events, c.count);
      RouteIsFromBound(bound, bound, Retry, c.count + 1);
      RouteIsFromBound(bound, bound, DeadLetter, c.count);
    }
  }

  /** Deliveries made plus deliveries still possible never grow. */
  lemma {:induction false} NextNeverOutgrows(bound: seq<Service>, max: nat, s: State, step: Step)
    requires Limited(bound, max) && FromBound(bound, s.copies)
    ensures var s' := Next(bound, s, step);
            && s'.deliveries + TotalWeight(|bound|, max, s'.copies) <= s.deliveries + TotalWeight(|bound|, max, s.copies)
            && FromBound(bound, s'.copies)
  {
    NextIsFromBound(bound, s, step);
    if Effective(s, step) {
      var c := s.copies[step.at];
      NextReplaces(bound, s, step, Weighing(|bound|, max));
      assert c.service in bound && c.service.maxRetries <= max;
      if step.TimeOut? {
        TimeOutWeighs(max, bound, c);
      } else {
        FailureWeighs(max, bound, c);
      }
    }
  }

  lemma {:induction false} RunNeverOutgrows(bound: seq<Service>, max: nat, s: State, steps: seq<Step>)
    requires Limited(bound, max) && FromBound(bound, s.copies)
    ensures var s' := Run(bound, s, steps);
            s'.deliveries + TotalWeight(|bound|, max, s'.copies) <= s.deliveries + TotalWeight(|bound|, max, s.copies)
    decreases |steps|
  {
    if steps == [] {
    } else {
      NextNeverOutgrows(bound, max, s, steps[0]);
      RunNeverOutgrows(bound, max, Next(bound, s, steps[0]), steps[1..]);
    }
  }

  lemma {:induction false} DeliveriesAreSquarePowers(k: nat, n: nat)
    ensures Deliveries(k, n) == SquarePowers(k, n)
  {
    if n == 0 {
    } else {
      DeliveriesAreSquarePowers(k, n - 1);
      ScaleSquarePowers(k, n - 1);
    }
  }

  lemma {:induction false} ScaleSquarePowers(k: nat, n: nat)
    ensures 1 + k * (k * SquarePowers(k, n)) == SquarePowers(k, n + 1)
  {
    PowerSquares(k, n);
    if n == 0 {
      assert SquarePowers(k, 0) == 1;
    } else {
      ScaleSquarePowers(k, n - 1);
      Distribute(k, Power(k, 2 * n), SquarePowers(k, n - 1));
    }
  }

  lemma PowerSquares(k: nat, n: nat)
    ensures Power(k, 2 * (n + 1)) == k * (k * Power(k, 2 * n))
  {
    assert Power(k, 2 * n + 1) == k * Power(k, 2 * n);
  }

  lemma Distribute(k: int, a: int, b: int)
    ensures k * (k * (a + b)) == k * (k * a) + k * (k * b)
  {
  }

  // ---------------------------------------------------------------- time-outs

  lemma {:induction false} RouteWaits(bound: seq<Service>, e: Exchange, count: nat)
    ensures Total(Route(bound, e, count), CountingWaiting()) == if e.Retry? then |bound| else 0
  {
    if bound == [] {
    } else {
      RouteWaits(bound[1..], e, count);
      assert Route(bound, e, count)[1..] == Route(bound[1..], e, count);
    }
  }

  lemma {:induction false} ReplacementWaits(bound: seq<Service>, c: Copy, step: Step)
    requires if step.Deliver? then c.Ready? else c.Waiting?
    ensures Total(Replacement(bound, c, step), CountingWaiting()) <= if step.Deliver? then |bound| else 0
  {
    RouteWaits(bound, Events, c.count);
    RouteWaits(bound, Retry, c.count + 1);
    RouteWaits(bound, DeadLetter, c.count);
  }

  /** Time-outs so far and those to come: each delivery allows one for every service. */
  predicate TimeOutsPaidFor(bound: seq<Service>, s: State) {
    s.timeOuts + Total(s.copies, CountingWaiting()) <= Times(|bound|, s.deliveries)
  }

  function Times(k: nat, n: nat): nat {
    k * n
  }

  lemma OneMoreTime(k: nat, n: nat)
    ensures Times(k, n + 1) == Times(k, n) + k
  {
  }

  lemma {:induction false} NextPaysForTimeOuts(bound: seq<Service>, s: State, step: Step)
    requires TimeOutsPaidFor(bound, s)
    ensures TimeOutsPaidFor(bound, Next(bound, s, step))
  {
    if Effective(s, step) {
      var c := s.copies[step.at];
      NextReplaces(bound, s, step, CountingWaiting());
      ReplacementWaits(bound, c, step);
      assert CountingWaiting()(c) == if step.Deliver? then 0 else 1;
      OneMoreTime(|bound|, s.deliveries);
    }
  }

  lemma {:induction false} RunPaysForTimeOuts(bound: seq<Service>, s: State, steps: seq<Step>)
    requires TimeOutsPaidFor(bound, s)
    ensures TimeOutsPaidFor(bound, Run(bound, s, steps))
    decreases |steps|
  {
    if steps == [] {
    } else {
      NextPaysForTimeOuts(bound, s, steps[0]);
      RunPaysForTimeOuts(bound, Next(bound, s, steps[0]), steps[1..]);
    }
  }

  // -------------------------------------------------------------- main results

  /**
   One publication to k services causes at most k times the sum of k^(2c), c from 0 to max, deliveries, and
   at most k time-outs for each of them, so the cascade ends.
   */
  lemma {:induction false} CascadeIsBounded(bound: seq<Service>, max: nat, steps: seq<Step>)
    requires Limited(bound, max)
    ensures Run(bound, Published(bound), steps).deliveries <= |bound| * SquarePowers(|bound|, max)
    ensures Run(bound, Published(bound), steps).timeOuts <= |bound| * Run(bound, Published(bound), steps).deliveries
  {
    RouteWaits(bound, Events, 0);
    RunPaysForTimeOuts(bound, Published(bound), steps);
    RouteIsFromBound(bound, bound, Events, 0);
    RunNeverOutgrows(bound, max, Published(bound), steps);
    RouteWeighs(|bound|, max, bound, Events, 0);
    DeliveriesAreSquarePowers(|bound|, max);
  }

  predicate AllFail(steps: seq<Step>) {
    forall i :: 0 <= i < |steps| ==> steps[i].Deliver? ==> !steps[i].succeeds
  }

  predicate Exhausted(s: State) {
    forall i :: 0 <= i < |s.copies| ==> s.copies[i].Dead?
  }

  /** The bound is met: if every handler fails and all services allow max retries, exactly that many happen. */
  lemma {:induction false} CascadeReachesItsBound(bound: seq<Service>, max: nat, steps: seq<Step>)
    requires forall i :: 0 <= i < |bound| ==> bound[i].maxRetries == max
    requires AllFail(steps) && Exhausted(Run(bound, Published(bound), steps))
    ensures Run(bound, Published(bound), steps).deliveries == |bound| * SquarePowers(|bound|, max)
  {
    RouteIsFromBound(bound, bound, Events, 0);
    RouteCounts(bound, Events, 0, max);
    FailuresKeepTheTotal(bound, max, Published(bound), steps);
    DeadWeighsNothing(|bound|, max, Run(bound, Published(bound), steps).copies);
    RouteWeighs(|bound|, max, bound, Events, 0);
    DeliveriesAreSquarePowers(|bound|, max);
  }

  predicate Counted(copies: seq<Copy>, max: nat) {
    forall i :: 0 <= i < |copies| ==> copies[i].count <= max
  }

  lemma {:induction false} RouteCounts(bound: seq<Service>, e: Exchange, count: nat, max: nat)
    requires count <= max
    ensures Counted(Route(bound, e, count), max)
  {
    if bound == [] {
    } else {
      RouteCounts(bound[1..], e, count, max);
    }
  }

  lemma {:induction false} DeadWeighsNothing(k: nat, max: nat, copies: seq<Copy>)
    requires forall i :: 0 <= i < |copies| ==> copies[i].Dead?
    ensures TotalWeight(k, max, copies) == 0
  {
    if copies == [] {
    } else {
      DeadWeighsNothing(k, max, copies[1..]);
    }
  }

  lemma {:induction false} ReplacementCounts(bound: seq<Service>, max: nat, c: Copy, step: Step)
    requires (if step.Deliver? then c.Ready? else c.Waiting?) && c.count <= max && c.service.maxRetries == max
    ensures Counted(Replacement(bound, c, step), max)
  {
    RouteCounts(bound, Events, c.count, max);
    RouteCounts(bound, DeadLetter, c.count, max);
    if c.count < max {
      RouteCounts(bound, Retry, c.count + 1, max);
    }
  }

  lemma {:induction false} FailureKeepsTheTotal(bound: seq<Service>, max: nat, s: State, step: Step)
    requires forall i :: 0 <= i < |bound| ==> bound[i].maxRetries == max
    requires FromBound(bound, s.copies) && Counted(s.copies, max) && (step.Deliver? ==> !step.succeeds)
    ensures var s' := Next(bound, s, step);
            && s'.deliveries + TotalWeight(|bound|, max, s'.copies) == s.deliveries + TotalWeight(|bound|, max, s.copies)
            && FromBound(bound, s'.copies) && Counted(s'.copies, max)
  {
    NextIsFromBound(bound, s, step);
    if Effective(s, step) {
      var c := s.copies[step.at];
      NextReplaces(bound, s, step, Weighing(|bound|, max));
      assert c.service in bound && c.count <= max;
      ReplacementCounts(bound, max, c, step);
      assert Next(bound, s, step).copies == Without(s.copies, step.at) + Replacement(bound, c, step);
      if step.TimeOut? {
        TimeOutWeighs(max, bound, c);
      } else {
        FailureWeighs(max, bound, c);
      }
    }
  }

  lemma {:induction false} FailuresKeepTheTotal(bound: seq<Service>, max: nat, s: State, steps: seq<Step>)
    requires forall i :: 0 <= i < |bound| ==> bound[i].maxRetries == max
    requires FromBound(bound, s.copies) && Counted(s.copies, max) && AllFail(steps)
    ensures var s' := Run(bound, s, steps);
            s'.deliveries + TotalWeight(|bound|, max, s'.copies) == s.deliveries + TotalWeight(|bound|, max, s.copies)
    decreases |steps|
  {
    if steps == [] {
    } else {
      FailureKeepsTheTotal(bound, max, s, steps[0]);
      FailuresKeepTheTotal(bound, max, Next(bound, s, steps[0]), steps[1..]);
    }
  }

  // ------------------------------------------------------- the naive limit

  /** From any state some deliveries and time-outs, all failing, leave nothing but dead letters. */
  lemma {:induction false} Exhaust(bound: seq<Service>, max: nat, s: State) returns (steps: seq<Step>)
    requires Limited(bound, max) && FromBound(bound, s.copies)
    ensures AllFail(steps) && Exhausted(Run(bound, s, steps))
    decreases TotalWeight(|bound|, max, s.copies), Total(s.copies, CountingWaiting())
  {
    if Exhausted(s) {
      steps := [];
    } else {
      var i :| 0 <= i < |s.copies| && !s.copies[i].Dead?;
      var step := if s.copies[i].Ready? then Deliver(i, false) else TimeOut(i);
      LessIsLeft(bound, max, s, step);
      var rest := Exhaust(bound, max, Next(bound, s, step));
      steps := [step] + rest;
      assert steps[1..] == rest;
    }
  }

  /** A failing delivery makes the copies left weigh less; a time-out leaves fewer of them waiting. */
  lemma {:induction false} LessIsLeft(bound: seq<Service>, max: nat, s: State, step: Step)
    requires Limited(bound, max) && FromBound(bound, s.copies)
    requires Effective(s, step) && (step.Deliver? ==> !step.succeeds)
    ensures var s' := Next(bound, s, step);
            && FromBound(bound, s'.copies)
            && TotalWeight(|bound|, max, s'.copies) + (if step.Deliver? then 1 else 0) <= TotalWeight(|bound|, max, s.copies)
            && (step.TimeOut? ==> Total(s'.copies, CountingWaiting()) < Total(s.copies, CountingWaiting()))
  {
    NextIsFromBound(bound, s, step);
    var c := s.copies[step.at];
    assert c.service in bound;
    NextReplaces(bound, s, step, Weighing(|bound|, max));
    if step.Deliver? {
      FailureWeighs(max, bound, c);
    } else {
      TimeOutWeighs(max, bound, c);
      NextReplaces(bound, s, step, CountingWaiting());
      RouteWaits(bound, Events, c.count);
      assert CountingWaiting()(c) == 1;
    }
  }

  lemma {:induction false} PowerGrows(k: nat, e: nat)
    requires k >= 2
    ensures Power(k, e) >= e + 1
  {
    if e == 0 {
    } else {
      PowerGrows(k, e - 1);
    }
  }

  lemma {:induction false} SquarePowersAgainstRetries(k: nat, n: nat)
    ensures k == 1 ==> SquarePowers(k, n) == n + 1
    ensures k >= 2 ==> SquarePowers(k, n) >= n + 1 && (n > 0 ==> SquarePowers(k, n) > n + 1)
  {
    if k == 1 {
      PowerOfOne(2 * n);
    } else if k >= 2 {
      PowerGrows(k, 2 * n);
    }
    if n > 0 {
      SquarePowersAgainstRetries(k, n - 1);
    }
  }

  lemma {:induction false} PowerOfOne(e: nat)
    ensures Power(1, e) == 1
  {
    if e == 0 {
    } else {
      PowerOfOne(e - 1);
    }
  }

  lemma TimesGrows(k: nat, a: nat, b: nat)
    requires a < b && k > 0
    ensures k * a < k * b
  {
  }

  /** A run that makes all the deliveries of the bound. */
  lemma WorstCase(bound: seq<Service>, max: nat) returns (steps: seq<Step>)
    requires forall i :: 0 <= i < |bound| ==> bound[i].maxRetries == max
    ensures Run(bound, Published(bound), steps).deliveries == |bound| * SquarePowers(|bound|, max)
  {
    RouteIsFromBound(bound, bound, Events, 0);
    steps := Exhaust(bound, max, Published(bound));
    CascadeReachesItsBound(bound, max, steps);
  }

  /**
   With one retry limit for all k services, every run makes at most k * (max + 1) deliveries exactly if there
   is at most one service or nothing is ever retried.
   */
  lemma {:induction false} NaiveLimitIff(bound: seq<Service>, max: nat)
    requires forall i :: 0 <= i < |bound| ==> bound[i].maxRetries == max
    ensures (forall steps: seq<Step> :: Run(bound, Published(bound), steps).deliveries <= |bound| * (max + 1))
            <==> |bound| <= 1 || max == 0
  {
    var k := |bound|;
    SquarePowersAgainstRetries(k, max);
    if k <= 1 || max == 0 {
      assert k * SquarePowers(k, max) == k * (max + 1);
      forall steps: seq<Step> ensures Run(bound, Published(bound), steps).deliveries <= k * (max + 1) {
        CascadeIsBounded(bound, max, steps);
      }
    } else {
      var steps := WorstCase(bound, max);
      TimesGrows(k, max + 1, SquarePowers(k, max));
      assert Run(bound, Published(bound), steps).deliveries > k * (max + 1);
    }
  }
}
