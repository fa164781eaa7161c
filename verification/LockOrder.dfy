/**
 Row locks of the ledger transactions. Every handler takes the row of its reservation or operation first,
 account rows next and in ascending id, and inserts a new record last; so no set of them can deadlock.
 */
module LockOrder {

  datatype Records = Reservations | Operations

  /** A row to be locked for update, or the key of a row about to be inserted. */
  datatype Resource =
    | RecordRow(records: Records, id: int)
    | AccountRow(id: int)
    | FreshRecord(records: Records, id: int)

  function Tier(r: Resource): nat {
    match r
    case RecordRow(_, _) => 0
    case AccountRow(_) => 1
    case FreshRecord(_, _) => 2
  }

  /** Before in the global order: by tier, then by id. */
  predicate Before(a: Resource, b: Resource) {
    Tier(a) < Tier(b) || (Tier(a) == Tier(b) && a.id < b.id)
  }

  predicate Ascends(p: seq<Resource>) {
    forall i, j :: 0 <= i < j < |p| ==> Before(p[i], p[j])
  }

  // --------------------------------------------------------- accounts in order

  predicate Sorted(s: seq<int>) {
    forall i, j :: 0 <= i < j < |s| ==> s[i] < s[j]
  }

  function Insert(s: seq<int>, x: int): (r: seq<int>)
    requires Sorted(s)
    ensures Sorted(r) && forall y :: y in r <==> y in s || y == x
  {
    if s == [] || x < s[0] then [x] + s
    else if x == s[0] then s
    else
      var rest := Insert(s[1..], x);
      assert forall i :: 0 <= i < |rest| ==> rest[i] in rest;
      [s[0]] + rest
  }

  /** `[...new Set(ids)].sort()`. */
  function SortUnique(ids: seq<int>): (r: seq<int>)
    ensures Sorted(r) && forall y :: y in r <==> y in ids
  {
    if ids == [] then []
    else
      assert ids == [ids[0]] + ids[1..];
      Insert(SortUnique(ids[1..]), ids[0])
  }

  // ------------------------------------------------------------------ handlers

  /** The ledger transactions, by what they find: a known record is locked, a fresh one is inserted. */
  datatype Handler =
    | ReserveInternal(tx: int, source: int)
    | RepeatedReserve(source: int)
    | Complete(tx: int, source: int, target: int)
    | ReleaseInternal(tx: int, source: int)
    | KnownOperation(id: int)
    | InterbankReserve(id: int, source: int)
    | DebitOrRelease(id: int, account: int)
    | Credit(id: int, account: int)
    | CreditNoAccount(id: int)
    | CancelUnknown(id: int)
    | Reverse(id: int, account: int)

  function Accounts(ids: seq<int>): (r: seq<Resource>)
    ensures |r| == |ids| && forall i :: 0 <= i < |ids| ==> r[i] == AccountRow(ids[i])
  {
    if ids == [] then [] else [AccountRow(ids[0])] + Accounts(ids[1..])
  }

  function Locks(h: Handler): seq<Resource> {
    match h
    case ReserveInternal(tx, source) => [AccountRow(source), FreshRecord(Reservations, tx)]
    case RepeatedReserve(source) => [AccountRow(source)]
    case Complete(tx, source, target) => [RecordRow(Reservations, tx)] + Accounts(SortUnique([source, target]))
    case ReleaseInternal(tx, source) => [RecordRow(Reservations, tx), AccountRow(source)]
    case KnownOperation(id) => [RecordRow(Operations, id)]
    case InterbankReserve(id, source) => [AccountRow(source), FreshRecord(Operations, id)]
    case DebitOrRelease(id, account) => [RecordRow(Operations, id), AccountRow(account)]
    case Credit(id, account) => [AccountRow(account), FreshRecord(Operations, id)]
    case CreditNoAccount(id) => [FreshRecord(Operations, id)]
    case CancelUnknown(id) => [FreshRecord(Operations, id)]
    case Reverse(id, account) => [RecordRow(Operations, id), AccountRow(account)]
  }

  lemma HandlersAscend(h: Handler)
    ensures Ascends(Locks(h))
  {
  }

  // ---------------------------------------------------------------- scheduling

  /** How far a transaction has got: locks are held until it commits. */
  datatype Progress = Progress(program: seq<Resource>, taken: nat, committed: bool)
  {
    predicate Running() {
      !committed && taken <= |program|
    }

    predicate Holds(r: Resource) {
      Running() && r in program[..taken]
    }
  }

  type System = seq<Progress>

  predicate Free(s: System, i: nat, r: Resource) {
    forall j :: 0 <= j < |s| && j != i ==> !s[j].Holds(r)
  }

  predicate Blocked(s: System, i: nat, j: nat) {
    i < |s| && j < |s| && i != j && s[i].Running() && s[i].taken < |s[i].program| && s[j].Holds(s[i].program[s[i].taken])
  }

  function Step(s: System, i: nat): System {
    if i >= |s| || !s[i].Running() then s
    else if s[i].taken == |s[i].program| then s[i := s[i].(committed := true)]
    else if Free(s, i, s[i].program[s[i].taken]) then s[i := s[i].(taken := s[i].taken + 1)]
    else s
  }

  function Run(s: System, schedule: seq<nat>): System
    decreases |schedule|
  {
    if schedule == [] then s else Run(Step(s, schedule[0]), schedule[1..])
  }

  function Begin(handlers: seq<Handler>): System {
    seq(|handlers|, i requires 0 <= i < |handlers| => Progress(Locks(handlers[i]), 0, false))
  }

  predicate Orderly(s: System) {
    forall i :: 0 <= i < |s| ==> Ascends(s[i].program) && s[i].taken <= |s[i].program|
  }

  /** No row is held by two transactions. */
  predicate Exclusive(s: System) {
    forall i, j, r: Resource :: 0 <= i < j < |s| && r in s[i].program && s[i].Holds(r) ==> !s[j].Holds(r)
  }

  lemma StepKeeps(s: System, i: nat)
    requires Orderly(s) && Exclusive(s)
    ensures Orderly(Step(s, i)) && Exclusive(Step(s, i))
  {
    var s' := Step(s, i);
    if s' != s {
      forall j, k, r: Resource | 0 <= j < k < |s'| && r in s'[j].program && s'[j].Holds(r) ensures !s'[k].Holds(r) {
        assert j != i ==> s'[j] == s[j];
        assert k != i ==> s'[k] == s[k];
        if !s'[i].committed {
          var p := s[i].program;
          assert p[..s'[i].taken] == p[..s[i].taken] + [p[s[i].taken]];
        }
      }
    }
  }

  lemma {:induction false} RunKeeps(s: System, schedule: seq<nat>)
    requires Orderly(s) && Exclusive(s)
    ensures Orderly(Run(s, schedule)) && Exclusive(Run(s, schedule)) && |Run(s, schedule)| == |s|
    decreases |schedule|
  {
    if schedule == [] {
    } else {
      StepKeeps(s, schedule[0]);
      RunKeeps(Step(s, schedule[0]), schedule[1..]);
    }
  }

  // -------------------------------------------------------------- main results

  /** Following who waits for whom, the row waited for only moves up the order. */
  lemma {:induction false} WaitingClimbs(s: System, chain: seq<nat>, k: nat)
    requires Orderly(s) && 0 < k < |chain|
    requires Blocked(s, chain[0], chain[1]) && forall i :: 0 <= i < |chain| - 1 ==> Blocked(s, chain[i], chain[i + 1])
    requires chain[k] < |s| && s[chain[k]].Running() && s[chain[k]].taken < |s[chain[k]].program|
    ensures Before(s[chain[0]].program[s[chain[0]].taken], s[chain[k]].program[s[chain[k]].taken])
    decreases k
  {
    assert Blocked(s, chain[k - 1], chain[k - 1 + 1]);
    var holder := s[chain[k]];
    var wanted := s[chain[k - 1]].program[s[chain[k - 1]].taken];
    var at :| 0 <= at < holder.taken && holder.program[..holder.taken][at] == wanted;
    assert Before(holder.program[at], holder.program[holder.taken]);
    if k > 1 {
      WaitingClimbs(s, chain, k - 1);
    }
  }

  /** However many ledger transactions run and however they interleave, they never wait in a circle. */
  lemma NoWaitCycle(handlers: seq<Handler>, schedule: seq<nat>, chain: seq<nat>)
    requires |chain| > 1 && chain[0] == chain[|chain| - 1]
    ensures var s := Run(Begin(handlers), schedule);
            exists i :: 0 <= i < |chain| - 1 && !Blocked(s, chain[i], chain[i + 1])
  {
    var s := Run(Begin(handlers), schedule);
    BeginIsOrderly(handlers);
    RunKeeps(Begin(handlers), schedule);
    if forall i :: 0 <= i < |chain| - 1 ==> Blocked(s, chain[i], chain[i + 1]) {
      assert Blocked(s, chain[0], chain[0 + 1]);
      WaitingClimbs(s, chain, |chain| - 1);
      assert false;
    }
  }

  lemma BeginIsOrderly(handlers: seq<Handler>)
    ensures Orderly(Begin(handlers)) && Exclusive(Begin(handlers)) && |Begin(handlers)| == |handlers|
  {
    forall i | 0 <= i < |handlers| ensures Ascends(Locks(handlers[i])) {
      HandlersAscend(handlers[i]);
    }
  }

  /** Whoever waits for a row, some transaction can go on: the one waiting for the row highest in the order. */
  lemma {:induction false} SomeoneCanStep(s: System, i: nat) returns (free: nat)
    requires Orderly(s) && i < |s| && s[i].Running()
    ensures free < |s| && s[free].Running() && Step(s, free) != s
    decreases if s[i].taken < |s[i].program| then 2 - Tier(s[i].program[s[i].taken]) else 0,
              if s[i].taken < |s[i].program| then Above(s, s[i].program[s[i].taken].id) else 0
  {
    if s[i].taken == |s[i].program| || Free(s, i, s[i].program[s[i].taken]) {
      free := i;
    } else {
      var wanted := s[i].program[s[i].taken];
      var j :| 0 <= j < |s| && j != i && s[j].Holds(wanted);
      var at :| 0 <= at < s[j].taken && s[j].program[..s[j].taken][at] == wanted;
      if s[j].taken == |s[j].program| {
        free := j;
      } else {
        assert Before(s[j].program[at], s[j].program[s[j].taken]);
        AboveShrinks(s, wanted.id, s[j].program[s[j].taken].id, j);
        free := SomeoneCanStep(s, j);
      }
    }
  }

  /** How many transactions wait for a row with an id above this one. */
  function Above(s: System, id: int): nat {
    if s == [] then 0
    else (if s[0].taken < |s[0].program| && s[0].program[s[0].taken].id > id then 1 else 0) + Above(s[1..], id)
  }

  lemma {:induction false} AboveShrinks(s: System, low: int, high: int, j: nat)
    requires j < |s| && s[j].taken < |s[j].program| && s[j].program[s[j].taken].id == high
    ensures low < high ==> Above(s, high) < Above(s, low)
    ensures low <= high ==> Above(s, high) <= Above(s, low)
  {
    if low <= high {
      if j == 0 {
        AboveFalls(s[1..], low, high);
      } else {
        AboveShrinks(s[1..], low, high, j - 1);
      }
    }
  }

  lemma {:induction false} AboveFalls(s: System, low: int, high: int)
    requires low <= high
    ensures Above(s, high) <= Above(s, low)
  {
    if s == [] {
    } else {
      AboveFalls(s[1..], low, high);
    }
  }

  /** What is left to do: the rows to take and the commit. */
  function Left(s: System): nat {
    if s == [] then 0 else (if s[0].Running() then |s[0].program| - s[0].taken + 1 else 0) + Left(s[1..])
  }

  lemma {:induction false} LeftFalls(s: System, i: nat, p: Progress)
    requires i < |s| && s[i].Running()
    requires p == s[i].(committed := true) || (s[i].taken < |s[i].program| && p == s[i].(taken := s[i].taken + 1))
    ensures Left(s[i := p]) < Left(s)
  {
    if i == 0 {
      assert s[i := p][1..] == s[1..];
    } else {
      assert s[i := p][1..] == s[1..][i - 1 := p];
      LeftFalls(s[1..], i - 1, p);
    }
  }

  /** From every reachable state, some schedule lets every transaction commit. */
  lemma EveryoneCanCommit(handlers: seq<Handler>, schedule: seq<nat>) returns (rest: seq<nat>)
    ensures var s := Run(Run(Begin(handlers), schedule), rest);
            |s| == |handlers| && forall i :: 0 <= i < |s| ==> s[i].committed
  {
    BeginIsOrderly(handlers);
    RunKeeps(Begin(handlers), schedule);
    rest := Finish(Run(Begin(handlers), schedule));
    RunKeeps(Run(Begin(handlers), schedule), rest);
  }

  lemma {:induction false} Finish(s: System) returns (rest: seq<nat>)
    requires Orderly(s) && Exclusive(s)
    ensures forall i :: 0 <= i < |Run(s, rest)| ==> Run(s, rest)[i].committed
    decreases Left(s)
  {
    if forall i :: 0 <= i < |s| ==> s[i].committed {
      rest := [];
    } else {
      var i :| 0 <= i < |s| && !s[i].committed;
      var free := SomeoneCanStep(s, i);
      StepKeeps(s, free);
      LeftFalls(s, free, Step(s, free)[free]);
      var more := Finish(Step(s, free));
      rest := [free] + more;
      assert rest[1..] == more;
    }
  }
}
