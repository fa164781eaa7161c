/**
 Too many operations of one account inside a sliding window. The detector prunes and sweeps its maps;
 it answers exactly like one that forgets nothing. Times are whole milliseconds.
 */
module AnomalyDetector {
  import opened Prelude

  const SWEEP_ABOVE := 10_000

  datatype AccountId = AccountId(digits: int)

  datatype Config = Config(maxOps: nat, windowMs: int)

  datatype Anomaly = Anomaly(account: AccountId, operationCount: nat)

  /** The two maps of the detector. */
  datatype Memory = Memory(hits: map<AccountId, seq<int>>, lastAlert: map<AccountId, int>)

  /** The times later than `from`. */
  function After(times: seq<int>, from: int): seq<int> {
    if times == [] then []
    else (if times[0] > from then [times[0]] else []) + After(times[1..], from)
  }

  function HitsOf(hits: map<AccountId, seq<int>>, account: AccountId): seq<int> {
    if account in hits then hits[account] else []
  }

  function Sweep(m: Memory, from: int): Memory {
    Memory(map a | a in m.hits && After(m.hits[a], from) != [] :: m.hits[a],
           map a | a in m.lastAlert && m.lastAlert[a] > from :: m.lastAlert[a])
  }

  /** The account's recent times with the new one, before any sweep. */
  function Pushed(m: Memory, cfg: Config, account: AccountId, now: int): Memory {
    m.(hits := m.hits[account := After(HitsOf(m.hits, account), now - cfg.windowMs) + [now]])
  }

  function Noted(m: Memory, cfg: Config, account: AccountId, now: int): Memory {
    var pushed := Pushed(m, cfg, account, now);
    if |pushed.hits| > SWEEP_ABOVE then Sweep(pushed, now - cfg.windowMs) else pushed
  }

  datatype Answer = Answer(memory: Memory, anomaly: Option<Anomaly>)

  function Recorded(m: Memory, cfg: Config, account: AccountId, now: int): Answer {
    var recent := After(HitsOf(m.hits, account), now - cfg.windowMs) + [now];
    var m' := Noted(m, cfg, account, now);
    if |recent| <= cfg.maxOps then Answer(m', None)
    else if account in m'.lastAlert && now - m'.lastAlert[account] < cfg.windowMs then Answer(m', None)
    else Answer(m'.(lastAlert := m'.lastAlert[account := now]), Some(Anomaly(account, |recent|)))
  }

  lemma AfterNext(times: seq<int>, i: nat, from: int)
    requires i < |times|
    ensures After(times[i..], from) == (if times[i] > from then [times[i]] else []) + After(times[i + 1..], from)
  {
    assert times[i..][1..] == times[i + 1..];
  }

  class Detector {
    const config: Config
    var hits: map<AccountId, seq<int>>
    var lastAlert: map<AccountId, int>

    constructor (config: Config)
      ensures this.config == config && Snapshot() == Memory(map[], map[])
    {
      this.config, hits, lastAlert := config, map[], map[];
    }

    function Snapshot(): Memory
      reads this
    {
      Memory(hits, lastAlert)
    }

    method Record(account: AccountId, now: int) returns (anomaly: Option<Anomaly>)
      modifies this
      ensures Answer(Snapshot(), anomaly) == Recorded(old(Snapshot()), config, account, now)
    {
      var recent := Recent(if account in hits then hits[account] else [], now - config.windowMs);
      recent := recent + [now];
      hits := hits[account := recent];
      if |hits| > SWEEP_ABOVE {
        SweepAll(now);
      }
      if |recent| <= config.maxOps {
        return None;
      }
      if account in lastAlert && now - lastAlert[account] < config.windowMs {
        return None;
      }
      lastAlert := lastAlert[account := now];
      return Some(Anomaly(account, |recent|));
    }

    /** `filter`: the times later than `from`. */
    method Recent(times: seq<int>, from: int) returns (recent: seq<int>)
      ensures recent == After(times, from)
    {
      recent := [];
      for i := 0 to |times|
        invariant recent + After(times[i..], from) == After(times, from)
      {
        AfterNext(times, i, from);
        if times[i] > from {
          recent := recent + [times[i]];
        }
      }
    }

    method SweepAll(now: int)
      modifies this
      ensures Snapshot() == Sweep(old(Snapshot()), now - config.windowMs)
    {
      SweepHits(now - config.windowMs);
      SweepAlerts(now - config.windowMs);
    }

    method SweepHits(from: int)
      modifies this`hits
      ensures hits == Sweep(old(Snapshot()), from).hits
    {
      var todo := hits.Keys;
      while todo != {}
        invariant todo <= hits.Keys <= old(hits).Keys
        invariant forall a :: a in hits ==> hits[a] == old(hits)[a]
        invariant forall a :: a in old(hits) ==> (a in hits <==> a in todo || After(old(hits)[a], from) != [])
        decreases todo
      {
        var a := Any(todo);
        if After(hits[a], from) == [] {
          hits := hits - {a};
        }
        todo := todo - {a};
      }
    }

    method SweepAlerts(from: int)
      modifies this`lastAlert
      ensures lastAlert == Sweep(old(Snapshot()), from).lastAlert
    {
      var todo := lastAlert.Keys;
      while todo != {}
        invariant todo <= lastAlert.Keys <= old(lastAlert).Keys
        invariant forall a :: a in lastAlert ==> lastAlert[a] == old(lastAlert)[a]
        invariant forall a :: a in old(lastAlert) ==> (a in lastAlert <==> a in todo || old(lastAlert)[a] > from)
        decreases todo
      {
        var a := Any(todo);
        if lastAlert[a] <= from {
          lastAlert := lastAlert - {a};
        }
        todo := todo - {a};
      }
    }
  }

  /** Memory does not grow with idle accounts: past ten thousand accounts exactly those seen in the window are kept. */
  lemma IdleAccountsAreForgotten(m: Memory, cfg: Config, account: AccountId, now: int, other: AccountId)
    ensures var pushed, kept := Pushed(m, cfg, account, now).hits, Noted(m, cfg, account, now).hits;
            && (|pushed| <= 10_000 ==> kept == pushed)
            && (|pushed| > 10_000 ==>
                  (other in kept <==> other in pushed && After(pushed[other], now - cfg.windowMs) != []))
            && (other in kept ==> kept[other] == pushed[other])
  {
  }

  // ------------------------------------------------- the one that forgets nothing

  datatype Call = Call(account: AccountId, time: int)

  /** Every operation and every alert there ever was, oldest first. */
  datatype History = History(calls: seq<Call>, alerts: seq<Call>)

  function TimesOf(calls: seq<Call>, account: AccountId, from: int): seq<int> {
    if calls == [] then []
    else (if calls[0].account == account && calls[0].time > from then [calls[0].time] else []) + TimesOf(calls[1..], account, from)
  }

  predicate Alerted(alerts: seq<Call>, account: AccountId, from: int) {
    exists i :: 0 <= i < |alerts| && alerts[i].account == account && alerts[i].time > from
  }

  datatype Verdict = Verdict(history: History, anomaly: Option<Anomaly>)

  /** More than maxOps operations in the window, this one included, and no alert in the window. */
  function Judge(h: History, cfg: Config, account: AccountId, now: int): Verdict {
    var calls := h.calls + [Call(account, now)];
    var count := |TimesOf(calls, account, now - cfg.windowMs)|;
    if count > cfg.maxOps && !Alerted(h.alerts, account, now - cfg.windowMs) then
      Verdict(History(calls, h.alerts + [Call(account, now)]), Some(Anomaly(account, count)))
    else Verdict(History(calls, h.alerts), None)
  }

  // ------------------------------------------------------------------ refinement

  lemma {:induction false} AfterAppend(a: seq<int>, b: seq<int>, from: int)
    ensures After(a + b, from) == After(a, from) + After(b, from)
  {
    if a == [] {
      assert a + b == b;
    } else {
      assert (a + b)[1..] == a[1..] + b;
      AfterAppend(a[1..], b, from);
    }
  }

  lemma {:induction false} AfterTwice(times: seq<int>, early: int, late: int)
    requires early <= late
    ensures After(After(times, early), late) == After(times, late)
  {
    if times == [] {
    } else {
      AfterTwice(times[1..], early, late);
      AfterAppend(if times[0] > early then [times[0]] else [], After(times[1..], early), late);
    }
  }

  lemma {:induction false} TimesAppend(a: seq<Call>, b: seq<Call>, account: AccountId, from: int)
    ensures TimesOf(a + b, account, from) == TimesOf(a, account, from) + TimesOf(b, account, from)
  {
    if a == [] {
      assert a + b == b;
    } else {
      assert (a + b)[1..] == a[1..] + b;
      TimesAppend(a[1..], b, account, from);
    }
  }

  predicate KnowsHits(m: Memory, h: History, account: AccountId, from: int) {
    After(HitsOf(m.hits, account), from) == TimesOf(h.calls, account, from)
  }

  predicate KnowsAlert(m: Memory, h: History, account: AccountId, from: int) {
    Alerted(h.alerts, account, from) <==> account in m.lastAlert && m.lastAlert[account] > from
  }

  /** From the start of the current window on, the maps know what the history knows. */
  ghost predicate Remembers(m: Memory, h: History, since: int) {
    && (forall a, from :: from >= since ==> KnowsHits(m, h, a, from))
    && (forall a, from :: from >= since ==> KnowsAlert(m, h, a, from))
  }

  ghost predicate Past(h: History, clock: int) {
    forall i :: 0 <= i < |h.alerts| ==> h.alerts[i].time <= clock
  }

  lemma PushedRemembers(m: Memory, h: History, cfg: Config, account: AccountId, now: int, since: int)
    requires Remembers(m, h, since) && since <= now - cfg.windowMs
    ensures Remembers(Pushed(m, cfg, account, now), History(h.calls + [Call(account, now)], h.alerts), now - cfg.windowMs)
  {
    var start := now - cfg.windowMs;
    var m', h' := Pushed(m, cfg, account, now), History(h.calls + [Call(account, now)], h.alerts);
    forall a, from | from >= start ensures KnowsHits(m', h', a, from) {
      TimesAppend(h.calls, [Call(account, now)], a, from);
      assert KnowsHits(m, h, a, from);
      if a == account {
        AfterTwice(HitsOf(m.hits, a), start, from);
        AfterAppend(After(HitsOf(m.hits, a), start), [now], from);
      }
    }
    forall a, from | from >= start ensures KnowsAlert(m', h', a, from) {
      assert KnowsAlert(m, h, a, from);
    }
  }

  /** Sweeping forgets only what lies before the window. */
  lemma SweptRemembers(m: Memory, h: History, since: int)
    requires Remembers(m, h, since)
    ensures Remembers(Sweep(m, since), h, since)
  {
    var m' := Sweep(m, since);
    forall a, from | from >= since ensures KnowsHits(m', h, a, from) && KnowsAlert(m', h, a, from) {
      assert KnowsHits(m, h, a, from) && KnowsAlert(m, h, a, from);
      if a in m.hits && a !in m'.hits {
        AfterTwice(m.hits[a], since, from);
      }
    }
  }

  lemma AlertRemembers(m: Memory, h: History, account: AccountId, now: int, since: int)
    requires Remembers(m, h, since) && Past(h, now)
    ensures Remembers(m.(lastAlert := m.lastAlert[account := now]), h.(alerts := h.alerts + [Call(account, now)]), since)
  {
    var m', h' := m.(lastAlert := m.lastAlert[account := now]), h.(alerts := h.alerts + [Call(account, now)]);
    forall a, from | from >= since ensures KnowsHits(m', h', a, from) && KnowsAlert(m', h', a, from) {
      assert KnowsHits(m, h, a, from) && KnowsAlert(m, h, a, from);
      AlertedAppend(h.alerts, Call(account, now), a, from);
    }
  }

  lemma NotedRemembers(m: Memory, h: History, cfg: Config, account: AccountId, now: int, since: int)
    requires Remembers(m, h, since) && since <= now - cfg.windowMs
    ensures Remembers(Noted(m, cfg, account, now), History(h.calls + [Call(account, now)], h.alerts), now - cfg.windowMs)
  {
    var start := now - cfg.windowMs;
    var pushed, h' := Pushed(m, cfg, account, now), History(h.calls + [Call(account, now)], h.alerts);
    PushedRemembers(m, h, cfg, account, now, since);
    if |pushed.hits| > SWEEP_ABOVE {
      SweptRemembers(pushed, h', start);
      assert Noted(m, cfg, account, now) == Sweep(pushed, start);
    } else {
      assert Noted(m, cfg, account, now) == pushed;
    }
  }

  lemma CountIsRight(m: Memory, h: History, cfg: Config, account: AccountId, now: int)
    requires KnowsHits(m, h, account, now - cfg.windowMs) && cfg.windowMs > 0
    ensures After(HitsOf(m.hits, account), now - cfg.windowMs) + [now]
            == TimesOf(h.calls + [Call(account, now)], account, now - cfg.windowMs)
  {
    TimesAppend(h.calls, [Call(account, now)], account, now - cfg.windowMs);
  }

  lemma SameAnswer(m: Memory, h: History, cfg: Config, account: AccountId, now: int)
    requires KnowsHits(m, h, account, now - cfg.windowMs) && cfg.windowMs > 0
    requires KnowsAlert(Noted(m, cfg, account, now), h, account, now - cfg.windowMs)
    ensures Recorded(m, cfg, account, now).anomaly == Judge(h, cfg, account, now).anomaly
  {
    CountIsRight(m, h, cfg, account, now);
  }

  /** One call: the same answer, and the maps keep up with the history. */
  lemma RecordRefines(m: Memory, h: History, cfg: Config, account: AccountId, clock: int, now: int)
    requires Remembers(m, h, clock - cfg.windowMs) && Past(h, clock) && clock <= now && cfg.windowMs > 0
    ensures var r, v := Recorded(m, cfg, account, now), Judge(h, cfg, account, now);
            r.anomaly == v.anomaly && Remembers(r.memory, v.history, now - cfg.windowMs) && Past(v.history, now)
  {
    var start := now - cfg.windowMs;
    var noted, h' := Noted(m, cfg, account, now), History(h.calls + [Call(account, now)], h.alerts);
    NotedRemembers(m, h, cfg, account, now, clock - cfg.windowMs);
    assert KnowsHits(m, h, account, start) && KnowsAlert(noted, h', account, start);
    SameAnswer(m, h, cfg, account, now);
    if Judge(h, cfg, account, now).anomaly.Some? {
      AlertRemembers(noted, h', account, now, start);
    }
  }

  lemma AlertedAppend(alerts: seq<Call>, c: Call, account: AccountId, from: int)
    ensures Alerted(alerts + [c], account, from) <==> Alerted(alerts, account, from) || (c.account == account && c.time > from)
  {
    if Alerted(alerts, account, from) {
      var i :| 0 <= i < |alerts| && alerts[i].account == account && alerts[i].time > from;
      assert (alerts + [c])[i] == alerts[i];
    }
    assert (alerts + [c])[|alerts|] == c;
  }

  // ------------------------------------------------------------- main result

  function Answers(m: Memory, cfg: Config, calls: seq<Call>): seq<Option<Anomaly>>
    decreases |calls|
  {
    if calls == [] then []
    else
      var r := Recorded(m, cfg, calls[0].account, calls[0].time);
      [r.anomaly] + Answers(r.memory, cfg, calls[1..])
  }

  function Judgements(h: History, cfg: Config, calls: seq<Call>): seq<Option<Anomaly>>
    decreases |calls|
  {
    if calls == [] then []
    else
      var v := Judge(h, cfg, calls[0].account, calls[0].time);
      [v.anomaly] + Judgements(v.history, cfg, calls[1..])
  }

  predicate InOrder(calls: seq<Call>, clock: int) {
    calls == [] || (clock <= calls[0].time && InOrder(calls[1..], calls[0].time))
  }

  lemma {:induction false} RunRefines(m: Memory, h: History, cfg: Config, clock: int, calls: seq<Call>)
    requires Remembers(m, h, clock - cfg.windowMs) && Past(h, clock) && InOrder(calls, clock) && cfg.windowMs > 0
    ensures Answers(m, cfg, calls) == Judgements(h, cfg, calls)
    decreases |calls|
  {
    if calls == [] {
    } else {
      var c := calls[0];
      RecordRefines(m, h, cfg, c.account, clock, c.time);
      RunRefines(Recorded(m, cfg, c.account, c.time).memory, Judge(h, cfg, c.account, c.time).history, cfg, c.time, calls[1..]);
    }
  }

  /** On every run whose clock does not go back, pruning and sweeping are unobservable. */
  lemma SweepingIsUnobservable(cfg: Config, clock: int, calls: seq<Call>)
    requires cfg.windowMs > 0 && InOrder(calls, clock)
    ensures Answers(Memory(map[], map[]), cfg, calls) == Judgements(History([], []), cfg, calls)
  {
    RunRefines(Memory(map[], map[]), History([], []), cfg, clock, calls);
  }
}
