/**
 The background worker on the outbound table: batches of rows sent, expired and resolved per tick.
 Which rows a limited query returns is up to the database; what the partner answers is `ask`.
 */
module TimeoutWorker {
  import opened Prelude
  import opened InterbankRules
  import opened Outbound

  datatype RowId = RowId(digits: int)

  type Table = map<RowId, OutRow>
  type Ask = (RowId, OutRow) -> Http

  const SEND_BATCH := 20
  const EXPIRE_BATCH := 50
  const TIMEOUT_BATCH := 100

  predicate Unlocked(row: OutRow, now: int) {
    row.lockedUntil.None? || row.lockedUntil.value <= now
  }

  predicate IsDue(row: OutRow, now: int) {
    row.nextAttemptAt.None? || row.nextAttemptAt.value <= now
  }

  predicate Sendable(row: OutRow, now: int) {
    row.state.Pending? && IsDue(row, now) && Unlocked(row, now)
  }

  predicate Expirable(row: OutRow, now: int) {
    (row.state.Pending? || row.state.Sent?) && row.expiresAt < now
  }

  predicate Resolvable(row: OutRow, now: int) {
    row.state.Timeout? && Unlocked(row, now)
  }

  /** Of the rows the query returned, those whose turn it is. */
  predicate Due(row: OutRow, now: int, cfg: Settings) {
    IsDue(row, now) || MarginExpired(row.expiresAt, now, cfg.marginSeconds)
  }

  function Sendables(t: Table, now: int): set<RowId> {
    set id | id in t && Sendable(t[id], now)
  }

  function Expirables(t: Table, now: int): set<RowId> {
    set id | id in t && Expirable(t[id], now)
  }

  function Resolvables(t: Table, now: int): set<RowId> {
    set id | id in t && Resolvable(t[id], now)
  }

  predicate IsBatch(batch: set<RowId>, matching: set<RowId>, limit: nat) {
    batch <= matching && |batch| == Min(limit, |matching|)
  }

  function SendBatch(t: Table, batch: set<RowId>, ask: Ask, now: int): Table {
    map id | id in t :: if id in batch then AfterSend(t[id], t[id], ask(id, t[id]), now) else t[id]
  }

  function ExpireBatch(t: Table, batch: set<RowId>, now: int): Table {
    map id | id in t :: if id in batch then Expire(t[id], now) else t[id]
  }

  function ResolveBatch(t: Table, batch: set<RowId>, ask: Ask, now: int, cfg: Settings): Table {
    map id | id in t ::
      if id in batch && Due(t[id], now, cfg) then ResolveTimeout(t[id], t[id], ask(id, t[id]), now, cfg) else t[id]
  }

  /** One more row of a batch. */
  lemma SendOneMore(t: Table, done: set<RowId>, id: RowId, ask: Ask, now: int)
    requires id in t && id !in done
    ensures SendBatch(t, done + {id}, ask, now) == SendBatch(t, done, ask, now)[id := AfterSend(t[id], t[id], ask(id, t[id]), now)]
    ensures SendBatch(t, done, ask, now)[id] == t[id]
  {
  }

  lemma ExpireOneMore(t: Table, done: set<RowId>, id: RowId, now: int)
    requires id in t && id !in done
    ensures ExpireBatch(t, done + {id}, now) == ExpireBatch(t, done, now)[id := Expire(t[id], now)]
    ensures ExpireBatch(t, done, now)[id] == t[id]
  {
  }

  lemma ResolveOneMore(t: Table, done: set<RowId>, id: RowId, ask: Ask, now: int, cfg: Settings)
    requires id in t && id !in done
    ensures ResolveBatch(t, done + {id}, ask, now, cfg) == ResolveBatch(t, done, ask, now, cfg)[id :=
              if Due(t[id], now, cfg) then ResolveTimeout(t[id], t[id], ask(id, t[id]), now, cfg) else t[id]]
    ensures ResolveBatch(t, done, ask, now, cfg)[id] == t[id]
  {
  }

  lemma TakenFromTheRest(batch: set<RowId>, todo: set<RowId>, id: RowId)
    requires id in todo && todo <= batch
    ensures batch - (todo - {id}) == (batch - todo) + {id}
  {
  }

  /** The claim on a PENDING row does not outlive its update. */
  lemma ClaimIsCleared(row: OutRow, until: int, res: Http, now: int)
    requires row.state.Pending?
    ensures AfterSend(row.(lockedUntil := Some(until)), row, res, now) == AfterSend(row, row, res, now)
  {
  }

  /** One tick: when it ran, what the partner answers, and which rows the three limited queries returned. */
  datatype Round = Round(now: int, ask: Ask, sending: set<RowId>, expiring: set<RowId>, resolving: set<RowId>)

  function AfterSending(t: Table, r: Round): Table {
    SendBatch(t, r.sending, r.ask, r.now)
  }

  function AfterExpiring(t: Table, r: Round): Table {
    ExpireBatch(AfterSending(t, r), r.expiring, r.now)
  }

  function AfterTick(t: Table, r: Round, cfg: Settings): Table {
    ResolveBatch(AfterExpiring(t, r), r.resolving, r.ask, r.now, cfg)
  }

  predicate Possible(t: Table, r: Round) {
    && IsBatch(r.sending, Sendables(t, r.now), SEND_BATCH)
    && IsBatch(r.expiring, Expirables(AfterSending(t, r), r.now), EXPIRE_BATCH)
    && IsBatch(r.resolving, Resolvables(AfterExpiring(t, r), r.now), TIMEOUT_BATCH)
  }

  class Worker {
    var rows: Table

    /** `find({ where, take })`: as many matching rows as the limit allows. */
    method Find(matching: set<RowId>, limit: nat) returns (batch: set<RowId>)
      ensures IsBatch(batch, matching, limit)
    {
      batch := {};
      var rest := matching;
      while rest != {} && |batch| < limit
        invariant batch + rest == matching && batch !! rest
        invariant |batch| <= limit && |batch| + |rest| == |matching|
        decreases rest
      {
        var id := Any(rest);
        batch, rest := batch + {id}, rest - {id};
      }
      if rest == {} {
        assert batch == matching;
      }
    }

    method SendPending(ask: Ask, now: int) returns (batch: set<RowId>)
      modifies this
      ensures IsBatch(batch, Sendables(old(rows), now), SEND_BATCH)
      ensures rows == SendBatch(old(rows), batch, ask, now)
    {
      batch := Find(Sendables(rows, now), SEND_BATCH);
      var todo := batch;
      while todo != {}
        invariant todo <= batch <= old(rows).Keys
        invariant rows == SendBatch(old(rows), batch - todo, ask, now)
        decreases todo
      {
        var id := Any(todo);
        SendOneMore(old(rows), batch - todo, id, ask, now);
        TakenFromTheRest(batch, todo, id);
        var row := rows[id];
        ClaimIsCleared(row, now + HTTP_LOCK_MS, ask(id, row), now);
        rows := rows[id := row.(lockedUntil := Some(now + HTTP_LOCK_MS))];  // claim
        rows := rows[id := AfterSend(rows[id], row, ask(id, row), now)];
        todo := todo - {id};
      }
    }

    method ExpireOutbound(now: int) returns (batch: set<RowId>)
      modifies this
      ensures IsBatch(batch, Expirables(old(rows), now), EXPIRE_BATCH)
      ensures rows == ExpireBatch(old(rows), batch, now)
    {
      batch := Find(Expirables(rows, now), EXPIRE_BATCH);
      var todo := batch;
      while todo != {}
        invariant todo <= batch <= old(rows).Keys
        invariant rows == ExpireBatch(old(rows), batch - todo, now)
        decreases todo
      {
        var id := Any(todo);
        ExpireOneMore(old(rows), batch - todo, id, now);
        TakenFromTheRest(batch, todo, id);
        rows := rows[id := Expire(rows[id], now)];
        todo := todo - {id};
      }
    }

    /** Claim the row, ask the partner, apply its answer; the claim does not survive the update. */
    method ResolveOne(id: RowId, ask: Ask, now: int, cfg: Settings)
      requires id in rows && rows[id].state.Timeout?
      modifies this
      ensures rows == old(rows)[id := ResolveTimeout(old(rows)[id], old(rows)[id], ask(id, old(rows)[id]), now, cfg)]
    {
      var row := rows[id];
      rows := rows[id := row.(lockedUntil := Some(now + HTTP_LOCK_MS))];
      rows := rows[id := ResolveTimeout(rows[id], row, ask(id, row), now, cfg)];
    }

    method ProcessTimeouts(ask: Ask, now: int, cfg: Settings) returns (batch: set<RowId>)
      modifies this
      ensures IsBatch(batch, Resolvables(old(rows), now), TIMEOUT_BATCH)
      ensures rows == ResolveBatch(old(rows), batch, ask, now, cfg)
    {
      batch := Find(Resolvables(rows, now), TIMEOUT_BATCH);
      var todo := batch;
      while todo != {}
        invariant todo <= batch <= old(rows).Keys
        invariant rows == ResolveBatch(old(rows), batch - todo, ask, now, cfg)
        decreases todo
      {
        var id := Any(todo);
        ResolveOneMore(old(rows), batch - todo, id, ask, now, cfg);
        TakenFromTheRest(batch, todo, id);
        if Due(rows[id], now, cfg) {
          ResolveOne(id, ask, now, cfg);
        }
        todo := todo - {id};
      }
    }

    method Tick(ask: Ask, now: int, cfg: Settings) returns (round: Round)
      modifies this
      ensures round.now == now && round.ask == ask
      ensures Possible(old(rows), round) && rows == AfterTick(old(rows), round, cfg)
    {
      var sending := SendPending(ask, now);
      var expiring := ExpireOutbound(now);
      var resolving := ProcessTimeouts(ask, now, cfg);
      round := Round(now, ask, sending, expiring, resolving);
    }
  }

  // ---------------------------------------------------------- nobody is left out

  predicate MayGo(at: Option<int>, now: int) {
    at.None? || at.value <= now
  }

  lemma AllOfFew(batch: set<RowId>, matching: set<RowId>, limit: nat)
    requires IsBatch(batch, matching, limit) && |matching| <= limit
    ensures batch == matching
  {
    assert |matching - batch| == |matching| - |batch|;
    assert matching - batch == {};
  }

  /** The rows to be sent are the PENDING ones whose next attempt has come and that nobody holds; up to 20, all are sent. */
  lemma WaitingRowsAreSent(t: Table, batch: set<RowId>, ask: Ask, now: int, id: RowId)
    requires IsBatch(batch, Sendables(t, now), SEND_BATCH) && id in t
    ensures var waiting := t[id].state.Pending? && MayGo(t[id].nextAttemptAt, now) && MayGo(t[id].lockedUntil, now);
            && (waiting && |Sendables(t, now)| <= 20 ==> SendBatch(t, batch, ask, now)[id] == AfterSend(t[id], t[id], ask(id, t[id]), now))
            && (!waiting ==> SendBatch(t, batch, ask, now)[id] == t[id])
  {
    if |Sendables(t, now)| <= 20 {
      AllOfFew(batch, Sendables(t, now), SEND_BATCH);
    }
  }

  /** The rows to be timed out are those that wait past expiresAt; up to 50, all are. */
  lemma LateRowsTimeOut(t: Table, batch: set<RowId>, now: int, id: RowId)
    requires IsBatch(batch, Expirables(t, now), EXPIRE_BATCH) && id in t
    ensures var late := (t[id].state.Pending? || t[id].state.Sent?) && t[id].expiresAt < now;
            && (late && |Expirables(t, now)| <= 50 ==> ExpireBatch(t, batch, now)[id].state.Timeout?)
            && (!late ==> ExpireBatch(t, batch, now)[id] == t[id])
  {
    if |Expirables(t, now)| <= 50 {
      AllOfFew(batch, Expirables(t, now), EXPIRE_BATCH);
    }
  }

  /**
   The rows to be resolved are those in TIMEOUT that nobody holds and whose next attempt, or whose margin, has come;
   with up to 100 in TIMEOUT and free, all are.
   */
  lemma DueRowsAreResolved(t: Table, batch: set<RowId>, ask: Ask, now: int, cfg: Settings, id: RowId)
    requires IsBatch(batch, Resolvables(t, now), TIMEOUT_BATCH) && id in t
    ensures var due := t[id].state.Timeout? && MayGo(t[id].lockedUntil, now)
                       && (MayGo(t[id].nextAttemptAt, now) || now >= t[id].expiresAt + 1000 * cfg.marginSeconds);
            && (due && |Resolvables(t, now)| <= 100 ==>
                  ResolveBatch(t, batch, ask, now, cfg)[id] == ResolveTimeout(t[id], t[id], ask(id, t[id]), now, cfg))
            && (!due ==> ResolveBatch(t, batch, ask, now, cfg)[id] == t[id])
  {
    if |Resolvables(t, now)| <= 100 {
      AllOfFew(batch, Resolvables(t, now), TIMEOUT_BATCH);
    }
  }
}
