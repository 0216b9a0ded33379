/** Account selection (internal/routing/accounts.go): eligible accounts in stable priority order, rotated. */
module Accounts {
  import opened Rotation

  datatype Strategy = FillFirst | RoundRobin | StickyRoundRobin

  datatype Account = Account(id: string, priority: int, enabled: bool)

  /** Candidates and the index of the first of them in priority order. */
  datatype Selection = Selection(candidates: seq<Account>, start: nat)

  /** `eligible` stands for the cooldown and quota check, true of every account when there is none. */
  predicate Chosen(a: Account, excluded: set<string>, eligible: Account -> bool) {
    a.enabled && a.id != "" && a.id !in excluded && eligible(a)
  }

  function Eligible(accounts: seq<Account>, excluded: set<string>, eligible: Account -> bool): seq<Account> {
    if accounts == [] then []
    else Eligible(accounts[..|accounts| - 1], excluded, eligible)
         + (if Chosen(accounts[|accounts| - 1], excluded, eligible) then [accounts[|accounts| - 1]] else [])
  }

  /** An account is eligible when it is enabled, has an id, is not excluded and passes the check; the eligible
      ones keep their order. */
  lemma EligibleByRule(accounts: seq<Account>, a: Account, excluded: set<string>, eligible: Account -> bool)
    ensures Eligible([], excluded, eligible) == []
    ensures Eligible(accounts + [a], excluded, eligible)
         == Eligible(accounts, excluded, eligible) + if a.enabled && a.id != "" && a.id !in excluded && eligible(a) then [a] else []
  {
    assert (accounts + [a])[..|accounts|] == accounts;
  }

  // ------------------------------------------------------------ stable sorting

  /** The accounts of one priority, in order. */
  function OfPriority(accounts: seq<Account>, p: int): seq<Account> {
    if accounts == [] then [] else (if accounts[0].priority == p then [accounts[0]] else []) + OfPriority(accounts[1..], p)
  }

  predicate Ordered(accounts: seq<Account>) {
    forall i, j :: 0 <= i < j < |accounts| ==> accounts[i].priority <= accounts[j].priority
  }

  /** Ordered by priority, with the accounts of each priority as they came. */
  ghost predicate StablySorted(sorted: seq<Account>, accounts: seq<Account>) {
    Ordered(sorted) && forall p: int :: OfPriority(sorted, p) == OfPriority(accounts, p)
  }

  lemma {:induction false} SomeOfPriority(accounts: seq<Account>, p: int)
    ensures OfPriority(accounts, p) != [] <==> exists i :: 0 <= i < |accounts| && accounts[i].priority == p
  {
    if accounts != [] {
      SomeOfPriority(accounts[1..], p);
      if i :| 0 <= i < |accounts[1..]| && accounts[1..][i].priority == p {
        assert accounts[i + 1].priority == p;
      }
      if i :| 0 <= i < |accounts| && accounts[i].priority == p && accounts[0].priority != p {
        assert accounts[1..][i - 1].priority == p;
      }
    }
  }

  lemma NoLaterFirst(a: seq<Account>, b: seq<Account>)
    requires a != [] && b != [] && Ordered(a) && OfPriority(a, b[0].priority) == OfPriority(b, b[0].priority)
    ensures a[0].priority <= b[0].priority
  {
    SomeOfPriority(b, b[0].priority);
    SomeOfPriority(a, b[0].priority);
  }

  lemma TailOfPriority(a: seq<Account>, p: int)
    requires a != []
    ensures a[0].priority == p ==> OfPriority(a, p) == [a[0]] + OfPriority(a[1..], p) && OfPriority(a[1..], p) == OfPriority(a, p)[1..]
    ensures a[0].priority != p ==> OfPriority(a[1..], p) == OfPriority(a, p)
  {
  }

  /** Ordered sequences that agree on each priority are equal: the sort has one result. */
  lemma {:induction false} OneStableSort(a: seq<Account>, b: seq<Account>)
    requires Ordered(a) && Ordered(b) && forall p: int :: OfPriority(a, p) == OfPriority(b, p)
    ensures a == b
    decreases |a|
  {
    if a == [] || b == [] {
      if a != [] {
        SomeOfPriority(a, a[0].priority);
      }
      if b != [] {
        SomeOfPriority(b, b[0].priority);
      }
    } else {
      NoLaterFirst(a, b);
      NoLaterFirst(b, a);
      TailOfPriority(a, a[0].priority);
      TailOfPriority(b, a[0].priority);
      forall q: int
        ensures OfPriority(a[1..], q) == OfPriority(b[1..], q)
      {
        TailOfPriority(a, q);
        TailOfPriority(b, q);
      }
      OneStableSort(a[1..], b[1..]);
      assert a == [a[0]] + a[1..] && b == [b[0]] + b[1..];
    }
  }

  /** Where a later account goes: behind those of its priority or less. */
  function Insert(sorted: seq<Account>, a: Account): seq<Account> {
    if sorted == [] || sorted[|sorted| - 1].priority <= a.priority then sorted + [a]
    else Insert(sorted[..|sorted| - 1], a) + [sorted[|sorted| - 1]]
  }

  /** sort.SliceStable by priority. */
  function SortByPriority(accounts: seq<Account>): seq<Account> {
    if accounts == [] then [] else Insert(SortByPriority(accounts[..|accounts| - 1]), accounts[|accounts| - 1])
  }

  lemma {:induction false} OfPrioritySnoc(accounts: seq<Account>, a: Account, p: int)
    ensures OfPriority(accounts + [a], p) == OfPriority(accounts, p) + (if a.priority == p then [a] else [])
  {
    if accounts == [] {
      assert [] + [a] == [a];
    } else {
      OfPrioritySnoc(accounts[1..], a, p);
      assert (accounts + [a])[1..] == accounts[1..] + [a];
    }
  }

  lemma {:induction false} InsertKeeps(sorted: seq<Account>, a: Account)
    requires Ordered(sorted)
    ensures Ordered(Insert(sorted, a)) && |Insert(sorted, a)| == |sorted| + 1
    ensures forall x :: x in Insert(sorted, a) ==> x in sorted || x == a
    ensures forall p: int :: OfPriority(Insert(sorted, a), p) == OfPriority(sorted, p) + (if a.priority == p then [a] else [])
  {
    if sorted == [] || sorted[|sorted| - 1].priority <= a.priority {
      forall p: int
        ensures OfPriority(sorted + [a], p) == OfPriority(sorted, p) + (if a.priority == p then [a] else [])
      {
        OfPrioritySnoc(sorted, a, p);
      }
    } else {
      var front, last := sorted[..|sorted| - 1], sorted[|sorted| - 1];
      InsertKeeps(front, a);
      assert front + [last] == sorted;
      InsertBefore(front, last, a);
    }
  }

  lemma InsertBefore(front: seq<Account>, last: Account, a: Account)
    requires Ordered(front + [last]) && a.priority < last.priority && Ordered(Insert(front, a))
    requires forall x :: x in Insert(front, a) ==> x in front || x == a
    requires forall p: int :: OfPriority(Insert(front, a), p) == OfPriority(front, p) + (if a.priority == p then [a] else [])
    ensures Ordered(Insert(front, a) + [last])
    ensures forall p: int :: OfPriority(Insert(front, a) + [last], p) == OfPriority(front + [last], p) + (if a.priority == p then [a] else [])
  {
    var placed := Insert(front, a);
    forall i | 0 <= i < |placed|
      ensures placed[i].priority <= last.priority
    {
      assert placed[i] in placed;
      if placed[i] in front {
        var k :| 0 <= k < |front| && front[k] == placed[i];
        assert (front + [last])[k] == placed[i] && (front + [last])[|front|] == last;
      }
    }
    forall p: int
      ensures OfPriority(placed + [last], p) == OfPriority(front + [last], p) + (if a.priority == p then [a] else [])
    {
      OfPrioritySnoc(placed, last, p);
      OfPrioritySnoc(front, last, p);
    }
  }

  lemma {:induction false} SortIsStable(accounts: seq<Account>)
    ensures StablySorted(SortByPriority(accounts), accounts) && |SortByPriority(accounts)| == |accounts|
  {
    if accounts != [] {
      var front, last := accounts[..|accounts| - 1], accounts[|accounts| - 1];
      SortIsStable(front);
      InsertKeeps(SortByPriority(front), last);
      forall p: int
        ensures OfPriority(SortByPriority(accounts), p) == OfPriority(accounts, p)
      {
        OfPrioritySnoc(front, last, p);
        assert front + [last] == accounts;
      }
    }
  }

  // ------------------------------------------------------------ selection

  /** Where a strategy starts among `n` candidates. */
  function StartAt(strategy: Strategy, stickyLimit: nat, cursor: nat, n: nat): (start: nat)
    requires n > 0
    ensures start < n
  {
    match strategy
    case FillFirst => 0
    case RoundRobin => cursor % n
    case StickyRoundRobin => (cursor / Sticky(stickyLimit)) % n
  }

  method EligibleOf(accounts: seq<Account>, excluded: set<string>, eligible: Account -> bool) returns (candidates: seq<Account>)
    ensures candidates == Eligible(accounts, excluded, eligible)
  {
    candidates := [];
    for i := 0 to |accounts|
      invariant candidates == Eligible(accounts[..i], excluded, eligible)
    {
      assert accounts[..i + 1][..i] == accounts[..i];
      var account := accounts[i];
      if !account.enabled || account.id == "" {
        continue;
      }
      if account.id in excluded {
        continue;
      }
      if !eligible(account) {
        continue;
      }
      candidates := candidates + [account];
    }
    assert accounts[..|accounts|] == accounts;
  }

  /** The candidates are the eligible accounts in stable priority order, rotated to the start. Any stable
      sort gives the same. */
  method Select(strategy: Strategy, stickyLimit: nat, accounts: seq<Account>, excluded: set<string>, eligible: Account -> bool, cursor: nat)
    returns (selection: Selection)
    ensures forall sorted :: StablySorted(sorted, Eligible(accounts, excluded, eligible)) ==>
              && selection.start <= |sorted|
              && selection.candidates == sorted[selection.start..] + sorted[..selection.start]
    ensures Eligible(accounts, excluded, eligible) == [] ==> selection == Selection([], 0)
    ensures Eligible(accounts, excluded, eligible) != [] ==>
              var n := |Eligible(accounts, excluded, eligible)|;
              selection.start == match strategy
                                 case FillFirst => 0
                                 case RoundRobin => cursor % n
                                 case StickyRoundRobin => (cursor / if stickyLimit > 0 then stickyLimit else 1) % n
  {
    var candidates := EligibleOf(accounts, excluded, eligible);
    SortIsStable(candidates);
    AnyStableSort(candidates);
    candidates := SortByPriority(candidates);
    if |candidates| == 0 {
      return Selection([], 0);
    }
    if strategy.FillFirst? {
      return Selection(candidates, 0);
    }
    var start := 0;
    if strategy.RoundRobin? {
      start := cursor % |candidates|;
    } else if strategy.StickyRoundRobin? {
      start := (cursor / Sticky(stickyLimit)) % |candidates|;
    }
    var rotated := [];
    rotated := rotated + candidates[start..];
    rotated := rotated + candidates[..start];
    return Selection(rotated, start);
  }

  lemma AnyStableSort(accounts: seq<Account>)
    ensures forall sorted :: StablySorted(sorted, accounts) ==> sorted == SortByPriority(accounts)
  {
    SortIsStable(accounts);
    forall sorted | StablySorted(sorted, accounts)
      ensures sorted == SortByPriority(accounts)
    {
      OneStableSort(sorted, SortByPriority(accounts));
    }
  }

  /** A Combo's rotation and the sticky cursor of an account selection start alike, request by request. */
  lemma RotationAgreesWithSelect(n: nat, stickyLimit: nat, i: nat)
    requires n > 0
    ensures StartOf(After(n, stickyLimit, i), n) == StartAt(StickyRoundRobin, stickyLimit, i, n)
    ensures StartOf(After(n, 1, i), n) == StartAt(RoundRobin, stickyLimit, i, n)
  {
    ClosedForm(n, stickyLimit, i);
    ClosedForm(n, 1, i);
    DivideUnique(i, 1, i, 0);
  }
}
