/** Daily reconciliation: fetching the partner's list page by page, and the diff of the two lists. */
module Reconciliation {
  import opened Prelude

  const PAGE_SIZE := 500

  datatype TransferId = TransferId(digits: int)
  datatype Status = AcceptedStatus | OtherStatus(code: int)

  /** Amounts are compared as formatted with two decimals, that is, in cents. */
  datatype Item = Item(id: TransferId, cents: int, status: Status)

  datatype Issue =
    | MissingAtPartner(id: TransferId, mine: Status)
    | MissingLocally(id: TransferId, other: Status)
    | AmountMismatch(id: TransferId, mineCents: int, otherCents: int)
    | StatusMismatch(id: TransferId, mine: Status, other: Status)

  // ----------------------------------------------------------------- the pages

  /** What the server returns for a page of its list. */
  function Page<T>(list: seq<T>, page: nat, size: nat): seq<T>
    requires page >= 1
  {
    var from := Min((page - 1) * size, |list|);
    var to := Min(page * size, |list|);
    if from <= to then list[from..to] else []
  }

  /**
   The client's page loop. The list may grow at its end between requests: `server(n)` is the list when page
   n is asked for, and `final` bounds it. Unless a page fails, the result is the list of the last request.
   */
  method FetchAll<T>(server: nat -> seq<T>, ghost final: seq<T>, answers: nat -> bool)
    returns (theirs: seq<T>, failed: bool, pages: nat)
    requires forall n: nat :: server(n) <= server(n + 1) && server(n) <= final
    ensures pages >= 1
    ensures forall n: nat :: 1 <= n < pages ==> n * 500 < |server(n)|
    ensures !failed ==> |server(pages)| <= pages * 500
    ensures !failed ==> theirs == server(pages)
    ensures failed <==> !answers(pages)
  {
    theirs, failed := [], false;
    var page: nat := 1;
    var total: Option<nat> := None;
    while total.None? || |theirs| < total.value
      invariant page >= 1 && !failed
      invariant forall n: nat :: 1 <= n < page - 1 ==> n * 500 < |server(n)|
      invariant total.None? <==> page == 1
      invariant page == 1 ==> theirs == []
      invariant page > 1 ==> answers(page - 1) && total == Some(|server(page - 1)|)
      invariant page > 1 ==> theirs == server(page - 1)[..Min((page - 1) * PAGE_SIZE, |server(page - 1)|)]
      decreases |final| - |theirs|, if page == 1 then 1 else 0
    {
      if !answers(page) {
        return theirs, true, page;
      }
      assert server(page - 1) <= server(page - 1 + 1);
      assert page > 1 ==> theirs == server(page)[..(page - 1) * PAGE_SIZE];
      total := Some(|server(page)|);
      var items := Page(server(page), page, PAGE_SIZE);
      theirs := theirs + items;
      assert theirs == server(page)[..Min(page * PAGE_SIZE, |server(page)|)];
      if items == [] {
        return theirs, false, page;
      }
      page := page + 1;
    }
    pages := page - 1;
  }

  /** Over a list that does not change, the loop rebuilds it: nothing missed, nothing repeated. */
  method FetchStable<T>(list: seq<T>) returns (theirs: seq<T>, pages: nat)
    ensures theirs == list
    ensures pages == if |list| == 0 then 1 else (|list| + 499) / 500
  {
    var failed;
    var server := (n: nat) => list;
    theirs, failed, pages := FetchAll(server, list, (n: nat) => true);
    assert pages > 1 ==> server(pages - 1) == list;
    assert server(pages) == list;
  }

  // ------------------------------------------------------------------ the diff

  /** `new Map(items.map(x => [x.id, x]))`: of two items with one id, the later counts. */
  function Index(items: seq<Item>): map<TransferId, Item> {
    if items == [] then map[] else Index(items[..|items| - 1])[items[|items| - 1].id := items[|items| - 1]]
  }

  function IssuesOf(mine: Item, theirs: map<TransferId, Item>): seq<Issue> {
    var accepted := mine.status.AcceptedStatus?;
    if mine.id !in theirs then (if accepted then [MissingAtPartner(mine.id, mine.status)] else [])
    else
      var other := theirs[mine.id];
      (if mine.cents != other.cents then [AmountMismatch(mine.id, mine.cents, other.cents)] else [])
      + (if accepted != other.status.AcceptedStatus? then [StatusMismatch(mine.id, mine.status, other.status)] else [])
  }

  function LocalIssuesOf(other: Item, ours: map<TransferId, Item>): seq<Issue> {
    if other.id !in ours && other.status.AcceptedStatus? then [MissingLocally(other.id, other.status)] else []
  }

  function AllIssues(ours: seq<Item>, theirs: map<TransferId, Item>): seq<Issue> {
    if ours == [] then [] else AllIssues(ours[..|ours| - 1], theirs) + IssuesOf(ours[|ours| - 1], theirs)
  }

  function AllLocalIssues(theirs: seq<Item>, ours: map<TransferId, Item>): seq<Issue> {
    if theirs == [] then [] else AllLocalIssues(theirs[..|theirs| - 1], ours) + LocalIssuesOf(theirs[|theirs| - 1], ours)
  }

  function Diff(ours: seq<Item>, theirs: seq<Item>): seq<Issue> {
    AllIssues(ours, Index(theirs)) + AllLocalIssues(theirs, Index(ours))
  }

  method BuildIndex(items: seq<Item>) returns (m: map<TransferId, Item>)
    ensures m == Index(items)
  {
    m := map[];
    for i := 0 to |items|
      invariant m == Index(items[..i])
    {
      assert items[..i + 1][..i] == items[..i];
      m := m[items[i].id := items[i]];
    }
    assert items[..|items|] == items;
  }

  lemma AllIssuesUpTo(ours: seq<Item>, i: nat, theirs: map<TransferId, Item>)
    requires i < |ours|
    ensures AllIssues(ours[..i + 1], theirs) == AllIssues(ours[..i], theirs) + IssuesOf(ours[i], theirs)
  {
    assert ours[..i + 1][..i] == ours[..i];
  }

  lemma AllLocalIssuesUpTo(theirs: seq<Item>, i: nat, ours: map<TransferId, Item>)
    requires i < |theirs|
    ensures AllLocalIssues(theirs[..i + 1], ours) == AllLocalIssues(theirs[..i], ours) + LocalIssuesOf(theirs[i], ours)
  {
    assert theirs[..i + 1][..i] == theirs[..i];
  }

  /** One of our items against what the partner has of it. */
  method Compare(mine: Item, theirs: map<TransferId, Item>, issues: seq<Issue>) returns (r: seq<Issue>)
    ensures r == issues + IssuesOf(mine, theirs)
  {
    r := issues;
    var accepted := mine.status.AcceptedStatus?;
    if mine.id !in theirs {
      if accepted {
        r := r + [MissingAtPartner(mine.id, mine.status)];
      }
    } else {
      var other := theirs[mine.id];
      if mine.cents != other.cents {
        r := r + [AmountMismatch(mine.id, mine.cents, other.cents)];
      }
      if accepted != other.status.AcceptedStatus? {
        r := r + [StatusMismatch(mine.id, mine.status, other.status)];
      }
    }
  }

  method DiffReconciliation(ours: seq<Item>, theirs: seq<Item>) returns (issues: seq<Issue>)
    ensures issues == Diff(ours, theirs)
  {
    issues := [];
    var t := BuildIndex(theirs);
    var o := BuildIndex(ours);
    for i := 0 to |ours|
      invariant issues == AllIssues(ours[..i], t)
    {
      AllIssuesUpTo(ours, i, t);
      issues := Compare(ours[i], t, issues);
    }
    assert ours[..|ours|] == ours;
    ghost var first := issues;
    for i := 0 to |theirs|
      invariant issues == first + AllLocalIssues(theirs[..i], o)
    {
      AllLocalIssuesUpTo(theirs, i, o);
      var other := theirs[i];
      if other.id !in o && other.status.AcceptedStatus? {
        issues := issues + [MissingLocally(other.id, other.status)];
      }
    }
    assert theirs[..|theirs|] == theirs;
  }

  // ---------------------------------------------------------------- exactness

  predicate UniqueIds(items: seq<Item>) {
    forall i, j :: 0 <= i < j < |items| ==> items[i].id != items[j].id
  }

  ghost predicate Knows(items: seq<Item>, id: TransferId) {
    exists x :: x in items && x.id == id
  }

  lemma {:induction false} IndexIsTheList(items: seq<Item>)
    requires UniqueIds(items)
    ensures forall id :: id in Index(items) ==> Index(items)[id] in items && Index(items)[id].id == id
    ensures forall x :: x in items ==> x.id in Index(items) && Index(items)[x.id] == x
  {
    if items == [] {
    } else {
      IndexIsTheList(items[..|items| - 1]);
    }
  }

  lemma {:induction false} AllIssuesMembers(ours: seq<Item>, t: map<TransferId, Item>, issue: Issue)
    ensures issue in AllIssues(ours, t) <==> exists x :: x in ours && issue in IssuesOf(x, t)
  {
    if ours == [] {
    } else {
      var init, last := ours[..|ours| - 1], ours[|ours| - 1];
      AllIssuesMembers(init, t, issue);
      assert ours == init + [last];
    }
  }

  lemma {:induction false} AllLocalIssuesMembers(theirs: seq<Item>, o: map<TransferId, Item>, issue: Issue)
    ensures issue in AllLocalIssues(theirs, o) <==> exists x :: x in theirs && issue in LocalIssuesOf(x, o)
  {
    if theirs == [] {
    } else {
      var init, last := theirs[..|theirs| - 1], theirs[|theirs| - 1];
      AllLocalIssuesMembers(init, o, issue);
      assert theirs == init + [last];
    }
  }

  /** A disagreement between the two lists, told without indexes or loops. */
  ghost predicate Genuine(issue: Issue, ours: seq<Item>, theirs: seq<Item>) {
    match issue
    case MissingAtPartner(id, mine) =>
      mine.AcceptedStatus? && !Knows(theirs, id) && exists x :: x in ours && x.id == id && x.status == mine
    case MissingLocally(id, other) =>
      other.AcceptedStatus? && !Knows(ours, id) && exists y :: y in theirs && y.id == id && y.status == other
    case AmountMismatch(id, mine, other) =>
      mine != other && exists x, y :: x in ours && y in theirs && x.id == id == y.id && x.cents == mine && y.cents == other
    case StatusMismatch(id, mine, other) =>
      mine.AcceptedStatus? != other.AcceptedStatus?
      && exists x, y :: x in ours && y in theirs && x.id == id == y.id && x.status == mine && y.status == other
  }

  /** With unique ids, the diff reports every disagreement and nothing else. */
  lemma DiffIsExact(ours: seq<Item>, theirs: seq<Item>, issue: Issue)
    requires UniqueIds(ours) && UniqueIds(theirs)
    ensures issue in Diff(ours, theirs) <==> Genuine(issue, ours, theirs)
  {
    IndexIsTheList(ours);
    IndexIsTheList(theirs);
    AllIssuesMembers(ours, Index(theirs), issue);
    AllLocalIssuesMembers(theirs, Index(ours), issue);
  }

  /** Both sides accept the same ids and agree on the amount of every id they share. */
  ghost predicate Agree(ours: seq<Item>, theirs: seq<Item>) {
    && (forall x :: x in ours && x.status.AcceptedStatus? ==> exists y :: y in theirs && y.id == x.id && y.status.AcceptedStatus?)
    && (forall y :: y in theirs && y.status.AcceptedStatus? ==> exists x :: x in ours && x.id == y.id && x.status.AcceptedStatus?)
    && (forall x, y :: x in ours && y in theirs && x.id == y.id ==> x.cents == y.cents)
  }

  /** With unique ids, the diff is empty exactly when the two sides agree. */
  lemma EmptyDiffIffAgree(ours: seq<Item>, theirs: seq<Item>)
    requires UniqueIds(ours) && UniqueIds(theirs)
    ensures Diff(ours, theirs) == [] <==> Agree(ours, theirs)
  {
    if Diff(ours, theirs) == [] {
      NoIssueMeansAgreement(ours, theirs);
    }
    if Agree(ours, theirs) && Diff(ours, theirs) != [] {
      var issue := Diff(ours, theirs)[0];
      DiffIsExact(ours, theirs, issue);
      AgreementHasNoIssue(ours, theirs, issue);
    }
  }

  lemma NoIssueMeansAgreement(ours: seq<Item>, theirs: seq<Item>)
    requires UniqueIds(ours) && UniqueIds(theirs) && Diff(ours, theirs) == []
    ensures Agree(ours, theirs)
  {
    forall x | x in ours && x.status.AcceptedStatus?
      ensures exists y :: y in theirs && y.id == x.id && y.status.AcceptedStatus?
    {
      DiffIsExact(ours, theirs, MissingAtPartner(x.id, x.status));
      var y :| y in theirs && y.id == x.id;
      DiffIsExact(ours, theirs, StatusMismatch(x.id, x.status, y.status));
    }
    forall y | y in theirs && y.status.AcceptedStatus?
      ensures exists x :: x in ours && x.id == y.id && x.status.AcceptedStatus?
    {
      DiffIsExact(ours, theirs, MissingLocally(y.id, y.status));
      var x :| x in ours && x.id == y.id;
      DiffIsExact(ours, theirs, StatusMismatch(x.id, x.status, y.status));
    }
    forall x, y | x in ours && y in theirs && x.id == y.id ensures x.cents == y.cents {
      DiffIsExact(ours, theirs, AmountMismatch(x.id, x.cents, y.cents));
    }
  }

  lemma AgreementHasNoIssue(ours: seq<Item>, theirs: seq<Item>, issue: Issue)
    requires UniqueIds(ours) && UniqueIds(theirs) && Agree(ours, theirs)
    ensures !Genuine(issue, ours, theirs)
  {
    match issue
    case MissingAtPartner(id, mine) =>
    case MissingLocally(id, other) =>
    case AmountMismatch(id, mine, other) =>
    case StatusMismatch(id, mine, other) =>
      if Genuine(issue, ours, theirs) {
        var x, y :| x in ours && y in theirs && x.id == id == y.id && x.status == mine && y.status == other;
        OneItemPerId(ours);
        OneItemPerId(theirs);
      }
  }

  lemma OneItemPerId(items: seq<Item>)
    requires UniqueIds(items)
    ensures forall x, y :: x in items && y in items && x.id == y.id ==> x == y
  {
    forall x, y | x in items && y in items && x.id == y.id ensures x == y {
      var i :| 0 <= i < |items| && items[i] == x;
      var j :| 0 <= j < |items| && items[j] == y;
    }
  }

  function IdOf(issue: Issue): TransferId {
    issue.id
  }

  predicate NoRepeats(issues: seq<Issue>) {
    forall i, j :: 0 <= i < j < |issues| ==> issues[i] != issues[j]
  }

  lemma NoRepeatsAppend(a: seq<Issue>, b: seq<Issue>)
    requires NoRepeats(a) && NoRepeats(b) && forall issue :: issue in a ==> issue !in b
    ensures NoRepeats(a + b)
  {
    var s := a + b;
    forall i, j | 0 <= i < j < |s| ensures s[i] != s[j] {
      assert s[i] == if i < |a| then a[i] else b[i - |a|];
      assert s[j] == if j < |a| then a[j] else b[j - |a|];
      assert i < |a| ==> s[i] in a;
      assert j >= |a| ==> s[j] in b;
    }
  }

  lemma {:induction false} IssuesDoNotRepeat(ours: seq<Item>, t: map<TransferId, Item>)
    requires UniqueIds(ours)
    ensures NoRepeats(AllIssues(ours, t))
    ensures forall issue :: issue in AllIssues(ours, t) ==> !issue.MissingLocally? && Knows(ours, IdOf(issue))
  {
    if ours == [] {
    } else {
      var init, last := ours[..|ours| - 1], ours[|ours| - 1];
      IssuesDoNotRepeat(init, t);
      assert !Knows(init, last.id);
      assert forall issue :: issue in IssuesOf(last, t) ==> IdOf(issue) == last.id;
      NoRepeatsAppend(AllIssues(init, t), IssuesOf(last, t));
      assert ours == init + [last];
    }
  }

  lemma {:induction false} LocalIssuesDoNotRepeat(theirs: seq<Item>, o: map<TransferId, Item>)
    requires UniqueIds(theirs)
    ensures NoRepeats(AllLocalIssues(theirs, o))
    ensures forall issue :: issue in AllLocalIssues(theirs, o) ==> issue.MissingLocally? && Knows(theirs, IdOf(issue))
  {
    if theirs == [] {
    } else {
      var init, last := theirs[..|theirs| - 1], theirs[|theirs| - 1];
      LocalIssuesDoNotRepeat(init, o);
      assert !Knows(init, last.id);
      assert forall issue :: issue in LocalIssuesOf(last, o) ==> IdOf(issue) == last.id;
      NoRepeatsAppend(AllLocalIssues(init, o), LocalIssuesOf(last, o));
      assert theirs == init + [last];
    }
  }

  /** With unique ids, no disagreement is reported twice. */
  lemma DiffRepeatsNothing(ours: seq<Item>, theirs: seq<Item>)
    requires UniqueIds(ours) && UniqueIds(theirs)
    ensures NoRepeats(Diff(ours, theirs))
  {
    IssuesDoNotRepeat(ours, Index(theirs));
    LocalIssuesDoNotRepeat(theirs, Index(ours));
    NoRepeatsAppend(AllIssues(ours, Index(theirs)), AllLocalIssues(theirs, Index(ours)));
  }
}
