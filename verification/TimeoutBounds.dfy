/** How long the timeout protocol can take: ticks until the table is drained, and probes of a silent partner. */
module TimeoutBounds {
  import opened Prelude
  import opened InterbankRules
  import opened Outbound
  import opened TimeoutWorker

  // ------------------------------------------------------------------- drain

  function Open(t: Table): set<RowId> {
    set id | id in t && !Final(t[id].state)
  }

  function TimedOut(t: Table): set<RowId> {
    set id | id in t && t[id].state.Timeout?
  }

  function Outgoing(t: Table): set<RowId> {
    set id | id in t && (t[id].state.Pending? || t[id].state.Sent?)
  }

  /** Every open row is past expiresAt and past the margin, and no other worker holds a timed-out one. */
  predicate Overdue(t: Table, now: int, cfg: Settings) {
    forall id :: id in t && !Final(t[id].state) ==>
      && t[id].expiresAt < now && MarginExpired(t[id].expiresAt, now, cfg.marginSeconds)
      && (t[id].state.Timeout? ==> Unlocked(t[id], now))
  }

  lemma SendingOpensNothing(t: Table, batch: set<RowId>, ask: Ask, now: int, cfg: Settings)
    requires Overdue(t, now, cfg) && batch <= Sendables(t, now)
    ensures var t' := SendBatch(t, batch, ask, now);
            Overdue(t', now, cfg) && t'.Keys == t.Keys && Open(t') <= Open(t)
  {
    var t' := SendBatch(t, batch, ask, now);
    forall id | id in t && id in batch
      ensures Final(t'[id].state) || (t'[id].expiresAt == t[id].expiresAt && !t'[id].state.Timeout? && !Final(t[id].state))
      ensures Final(t[id].state) ==> Final(t'[id].state)
    {
      assert Sendable(t[id], now);
    }
  }

  lemma ExpiringOpensNothing(t: Table, batch: set<RowId>, now: int, cfg: Settings)
    requires Overdue(t, now, cfg)
    ensures var t' := ExpireBatch(t, batch, now);
            Overdue(t', now, cfg) && t'.Keys == t.Keys && Open(t') == Open(t)
  {
  }

  lemma ExpiringMakesResolvable(t: Table, batch: set<RowId>, now: int, cfg: Settings)
    requires Overdue(t, now, cfg) && batch <= Expirables(t, now)
    ensures Resolvables(ExpireBatch(t, batch, now), now) == TimedOut(t) + batch
  {
    var t' := ExpireBatch(t, batch, now);
    forall id | id in t ensures Resolvable(t'[id], now) <==> id in TimedOut(t) + batch {
    }
  }

  lemma ResolvingCloses(t: Table, batch: set<RowId>, ask: Ask, now: int, cfg: Settings)
    requires Overdue(t, now, cfg) && batch <= Resolvables(t, now)
    ensures var t' := ResolveBatch(t, batch, ask, now, cfg);
            Overdue(t', now, cfg) && t'.Keys == t.Keys && Open(t') == Open(t) - batch
  {
  }

  /** How many rows one expiring and one resolving batch close between them. */
  lemma BatchesCount(outgoing: set<RowId>, timedOut: set<RowId>, expiring: set<RowId>, resolving: set<RowId>)
    requires outgoing !! timedOut
    requires IsBatch(expiring, outgoing, EXPIRE_BATCH) && IsBatch(resolving, timedOut + expiring, TIMEOUT_BATCH)
    ensures |(outgoing + timedOut) - resolving| <= Max(0, |outgoing + timedOut| - EXPIRE_BATCH)
  {
    assert |outgoing + timedOut| == |outgoing| + |timedOut|;
    assert timedOut !! expiring;
    assert |timedOut + expiring| == |timedOut| + |expiring|;
    var all := outgoing + timedOut;
    assert resolving <= all;
    assert |all - resolving| == |all| - |resolving|;
  }

  lemma {:induction false} SubsetIsSmaller<T>(a: set<T>, b: set<T>)
    requires a <= b
    ensures |a| <= |b|
  {
    assert b == a + (b - a);
  }

  lemma OpenRowsSplit(t: Table, now: int, cfg: Settings)
    requires Overdue(t, now, cfg)
    ensures Expirables(t, now) == Outgoing(t) && Open(t) == Outgoing(t) + TimedOut(t) && Outgoing(t) !! TimedOut(t)
  {
  }

  /** One tick closes fifty open rows, or all of them, whatever the partner answers. */
  lemma TickCloses(t: Table, r: Round, cfg: Settings)
    requires Possible(t, r) && Overdue(t, r.now, cfg)
    ensures var t' := AfterTick(t, r, cfg);
            |Open(t')| <= Max(0, |Open(t)| - EXPIRE_BATCH) && Overdue(t', r.now, cfg)
  {
    SendingOpensNothing(t, r.sending, r.ask, r.now, cfg);
    SubsetIsSmaller(Open(AfterSending(t, r)), Open(t));
    OpenRowsSplit(AfterSending(t, r), r.now, cfg);
    ExpiringOpensNothing(AfterSending(t, r), r.expiring, r.now, cfg);
    ExpiringMakesResolvable(AfterSending(t, r), r.expiring, r.now, cfg);
    ResolvingCloses(AfterExpiring(t, r), r.resolving, r.ask, r.now, cfg);
    BatchesCount(Outgoing(AfterSending(t, r)), TimedOut(AfterSending(t, r)), r.expiring, r.resolving);
  }

  lemma OverdueLasts(t: Table, now: int, later: int, cfg: Settings)
    requires Overdue(t, now, cfg) && now <= later
    ensures Overdue(t, later, cfg)
  {
  }

  function AfterTicks(t: Table, rounds: seq<Round>, cfg: Settings): Table
    decreases |rounds|
  {
    if rounds == [] then t else AfterTicks(AfterTick(t, rounds[0], cfg), rounds[1..], cfg)
  }

  /** The rounds can follow one another from `t`, at times that never go back before `now`. */
  predicate Follow(t: Table, now: int, rounds: seq<Round>, cfg: Settings)
    decreases |rounds|
  {
    rounds == [] || (now <= rounds[0].now && Possible(t, rounds[0])
                     && Follow(AfterTick(t, rounds[0], cfg), rounds[0].now, rounds[1..], cfg))
  }

  lemma {:induction false} DrainsByFifty(t: Table, now: int, rounds: seq<Round>, cfg: Settings)
    requires Follow(t, now, rounds, cfg) && Overdue(t, now, cfg)
    ensures |Open(AfterTicks(t, rounds, cfg))| <= Max(0, |Open(t)| - EXPIRE_BATCH * |rounds|)
    decreases |rounds|
  {
    if rounds == [] {
    } else {
      OverdueLasts(t, now, rounds[0].now, cfg);
      TickCloses(t, rounds[0], cfg);
      DrainsByFifty(AfterTick(t, rounds[0], cfg), rounds[0].now, rounds[1..], cfg);
    }
  }

  /** Once all N open rows are overdue, N/50 ticks rounded up leave every row final. */
  lemma DrainTerminates(t: Table, now: int, rounds: seq<Round>, cfg: Settings)
    requires Follow(t, now, rounds, cfg) && Overdue(t, now, cfg)
    requires |rounds| >= (|Open(t)| + EXPIRE_BATCH - 1) / EXPIRE_BATCH
    ensures forall id :: id in AfterTicks(t, rounds, cfg) ==> Final(AfterTicks(t, rounds, cfg)[id].state)
  {
    DrainsByFifty(t, now, rounds, cfg);
    var last := AfterTicks(t, rounds, cfg);
    assert Open(last) == {};
    forall id | id in last ensures Final(last[id].state) {
      assert id !in Open(last);
    }
  }

  // ------------------------------------------------------------------ probes

  /** One row against a silent partner: the row and the requests it has cost so far. */
  datatype Trace = Trace(row: OutRow, queries: nat, cancels: nat)

  function Pass(tr: Trace, now: int, cfg: Settings): Trace {
    var row := tr.row;
    if !Resolvable(row, now) || !Due(row, now, cfg) then tr
    else
      var row' := ResolveTimeout(row, row, NetworkError, now, cfg);
      if MarginExpired(row.expiresAt, now, cfg.marginSeconds) then tr.(row := row')
      else if row.timeoutStep == Some(Cancel) then Trace(row', tr.queries, tr.cancels + 1)
      else Trace(row', tr.queries + 1, tr.cancels)
  }

  function Passes(tr: Trace, times: seq<int>, cfg: Settings): Trace
    decreases |times|
  {
    if times == [] then tr else Passes(Pass(tr, times[0], cfg), times[1..], cfg)
  }

  /** The least time after the first cancellation at which the k-th next one can be sent. */
  function Waited(k: nat): nat {
    if k == 0 then 0 else Waited(k - 1) + BackoffMs(k - 1, 2000, 30_000)
  }

  lemma {:induction false} WaitedGrows(k: nat)
    ensures Waited(k) >= 30_000 * k - 90_000
  {
    if k == 0 {
    } else {
      WaitedGrows(k - 1);
      if k <= 4 {
        assert Pow2(0) == 1 && Pow2(1) == 2 && Pow2(2) == 4 && Pow2(3) == 8;
        assert Waited(1) == 2000 && Waited(2) == 6000 && Waited(3) == 14_000;
        assert k == 4 ==> Waited(4) == 14_000 + 16_000;
      } else {
        assert Pow2(4) == 16;
        BackoffGrows(4, k - 1, 2000, 30_000);
        assert BackoffMs(4, 2000, 30_000) == 30_000;
      }
    }
  }

  predicate Bounded(tr: Trace, began: int, cfg: Settings) {
    var row := tr.row;
    && row.expiresAt < began
    && tr.queries <= Max(1, cfg.queryAttempts)
    && (tr.cancels > 0 ==> began + Waited(tr.cancels - 1) < row.expiresAt + cfg.marginSeconds * 1000)
    && (row.state.Timeout? ==>
          match row.timeoutStep
          case None => false
          case Some(Query) => tr.cancels == 0 && row.stepAttempts == tr.queries && tr.queries < Max(1, cfg.queryAttempts)
          case Some(Cancel) =>
            && row.stepAttempts == tr.cancels
            && (tr.cancels > 0 ==> row.nextAttemptAt.Some? && row.nextAttemptAt.value >= began + Waited(tr.cancels)))
  }

  lemma PassKeeps(tr: Trace, began: int, now: int, cfg: Settings)
    requires Bounded(tr, began, cfg) && began <= now
    ensures Bounded(Pass(tr, now, cfg), began, cfg)
    ensures tr.row.timeoutStep == Some(Cancel) ==> Pass(tr, now, cfg).row.timeoutStep != Some(Query)
  {
  }

  lemma {:induction false} PassesKeep(tr: Trace, began: int, times: seq<int>, cfg: Settings)
    requires Bounded(tr, began, cfg) && forall i :: 0 <= i < |times| ==> began <= times[i]
    ensures Bounded(Passes(tr, times, cfg), began, cfg)
    ensures tr.row.timeoutStep == Some(Cancel) || tr.row.timeoutStep == None ==> Passes(tr, times, cfg).row.timeoutStep != Some(Query)
    decreases |times|
  {
    if times == [] {
    } else {
      PassKeeps(tr, began, times[0], cfg);
      PassesKeep(Pass(tr, times[0], cfg), began, times[1..], cfg);
    }
  }

  /**
   A row that timed out at `began` costs a silent partner at most max(1, queryAttempts) queries and, for a
   margin of M seconds, fewer than 4 + M/30 cancellations, and never queries again once it cancels.
   */
  lemma ProbesAreBounded(row: OutRow, began: int, times: seq<int>, more: seq<int>, cfg: Settings)
    requires (row.state.Pending? || row.state.Sent?) && row.expiresAt < began && cfg.marginSeconds >= 0
    requires forall i :: 0 <= i < |times| ==> began <= times[i]
    requires forall i :: 0 <= i < |more| ==> began <= more[i]
    ensures var tr := Passes(Trace(Expire(row, began), 0, 0), times, cfg);
            && tr.queries <= Max(1, cfg.queryAttempts)
            && 30 * tr.cancels < 120 + cfg.marginSeconds
            && (tr.row.timeoutStep == Some(Cancel) ==> Passes(tr, more, cfg).queries == tr.queries)
  {
    var start := Trace(Expire(row, began), 0, 0);
    var tr := Passes(start, times, cfg);
    PassesKeep(start, began, times, cfg);
    if tr.cancels > 0 {
      WaitedGrows(tr.cancels - 1);
    }
    if tr.row.timeoutStep == Some(Cancel) {
      NoMoreQueries(tr, began, more, cfg);
    }
  }

  /** From expiresAt plus the margin on, the next pass over the row releases it without asking anyone. */
  lemma MarginReleases(tr: Trace, now: int, cfg: Settings)
    requires Resolvable(tr.row, now)
    ensures MarginExpired(tr.row.expiresAt, now, cfg.marginSeconds) <==>
              && Pass(tr, now, cfg).row.state.Reversed?
              && Pass(tr, now, cfg).row.reason == Some(TimeoutNoResponse)
    ensures MarginExpired(tr.row.expiresAt, now, cfg.marginSeconds) ==>
              Pass(tr, now, cfg).queries == tr.queries && Pass(tr, now, cfg).cancels == tr.cancels
  {
  }

  lemma {:induction false} NoMoreQueries(tr: Trace, began: int, times: seq<int>, cfg: Settings)
    requires tr.row.timeoutStep != Some(Query) && Bounded(tr, began, cfg)
    requires forall i :: 0 <= i < |times| ==> began <= times[i]
    ensures Passes(tr, times, cfg).queries == tr.queries
    decreases |times|
  {
    if times == [] {
    } else {
      PassKeeps(tr, began, times[0], cfg);
      NoMoreQueries(Pass(tr, times[0], cfg), began, times[1..], cfg);
    }
  }
}
