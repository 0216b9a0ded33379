/**
 kiroRepairRequest (internal/ingress/kiro_gate.go): the one repair of a held answer, which walks the
 provider's hosts with retries in place and shares the request's attempt count.
 */
module KiroRepair {
  import opened Prelude
  import opened DispatchScript
  import opened Dispatch

  /** What one request of the repair came to. */
  datatype Reply = NetworkError | Status(code: int)

  datatype Call = Call(host: nat, reply: Reply)

  datatype RepairError = Canceled | BudgetUsed | Unreachable | NoTarget

  /** How the walk ends: with a reply for the relay, or an error. */
  datatype Ending = Returned(status: int) | Failed(error: RepairError)

  datatype Repaired = Repaired(ending: Ending, body: nat)

  /** What happens at one turn of the walk: whether its host has a target, what the request comes to, and
      whether the client has left when the send fails or leaves while a retry is awaited. */
  datatype Turn = Turn(resolves: bool, reply: Reply, left: bool, leaves: bool)

  type Script = nat -> Turn

  /** A network error counts as a 502. */
  function StatusOf(reply: Reply): int { if reply.NetworkError? then 502 else reply.code }

  /** repairBackoff: how often a host may be retried in place after this status. */
  function RetriesAllowed(status: int): nat {
    if status == 502 || status == 503 then 3 else if status == 504 then 2 else 0
  }

  /** Requests made to the same host before call `i`. */
  function EarlierCalls(walk: seq<Call>, i: nat): nat
    requires i < |walk|
  {
    CallsTo(walk[..i], walk[i].host)
  }

  function CallsTo(walk: seq<Call>, host: nat): nat {
    if walk == [] then 0 else (if walk[|walk| - 1].host == host then 1 else 0) + CallsTo(walk[..|walk| - 1], host)
  }

  /** Call `i` is tried again on its host: the status allows it, and so does the budget. */
  predicate Retried(walk: seq<Call>, i: nat, start: nat)
    requires i < |walk|
  {
    EarlierCalls(walk, i) < RetriesAllowed(StatusOf(walk[i].reply)) && start + i + 1 < MAX_ACCOUNT_ATTEMPTS
  }

  predicate Skips(reply: Reply) {
    reply.NetworkError? || reply.code == 429 || reply.code == 401 || reply.code == 403 || reply.code == 404
  }

  /** Call `i` is followed by one to the next host. */
  predicate Moves(walk: seq<Call>, i: nat, hosts: nat, start: nat)
    requires i < |walk|
  {
    !Retried(walk, i, start) && Skips(walk[i].reply) && walk[i].host + 1 < hosts
  }

  /** The walk the rules give for these replies: from the first host, in place or onwards. */
  predicate Walk(walk: seq<Call>, hosts: nat, start: nat) {
    && (|walk| > 0 ==> walk[0].host == 0)
    && (forall i :: 0 <= i < |walk| ==> walk[i].host < hosts && start + i < MAX_ACCOUNT_ATTEMPTS)
    && (forall i :: 0 <= i < |walk| - 1 ==> Follows(walk, i, hosts, start))
  }

  predicate Follows(walk: seq<Call>, i: nat, hosts: nat, start: nat)
    requires i + 1 < |walk|
  {
    if Retried(walk, i, start) then walk[i + 1].host == walk[i].host
    else Moves(walk, i, hosts, start) && walk[i + 1].host == walk[i].host + 1
  }

  lemma {:induction false} HostsInOrder(walk: seq<Call>, hosts: nat, start: nat, i: nat, j: nat)
    requires Walk(walk, hosts, start) && i <= j < |walk|
    ensures walk[i].host <= walk[j].host
    decreases j
  {
    if i < j {
      HostsInOrder(walk, hosts, start, i, j - 1);
      assert Follows(walk, j - 1, hosts, start);
    }
  }

  lemma {:induction false} NoCallsTo(walk: seq<Call>, host: nat)
    requires forall i :: 0 <= i < |walk| ==> walk[i].host != host
    ensures CallsTo(walk, host) == 0
  {
    if walk != [] {
      NoCallsTo(walk[..|walk| - 1], host);
    }
  }

  lemma WalkPrefix(walk: seq<Call>, hosts: nat, start: nat, n: nat)
    requires Walk(walk, hosts, start) && n <= |walk|
    ensures Walk(walk[..n], hosts, start)
  {
    forall i | 0 <= i < n - 1
      ensures Follows(walk[..n], i, hosts, start)
    {
      assert Follows(walk, i, hosts, start);
      assert walk[..n][..i] == walk[..i];
    }
  }

  /** No host gets more than four requests, the first and three in place. */
  lemma {:induction false} FourCallsAtMost(walk: seq<Call>, hosts: nat, start: nat, host: nat)
    requires Walk(walk, hosts, start)
    ensures CallsTo(walk, host) <= 4
    decreases |walk|
  {
    if walk != [] {
      var n := |walk| - 1;
      WalkPrefix(walk, hosts, start, n);
      FourCallsAtMost(walk[..n], hosts, start, host);
      if walk[n].host == host && n > 0 {
        assert Follows(walk, n - 1, hosts, start);
        if walk[n - 1].host == host {
          assert Retried(walk, n - 1, start);
          assert walk[..n][..n - 1] == walk[..n - 1];
        } else {
          forall i | 0 <= i < n
            ensures walk[..n][i].host != host
          {
            HostsInOrder(walk, hosts, start, i, n - 1);
          }
          NoCallsTo(walk[..n], host);
        }
      }
    }
  }

  /** The walk has ended: the last host may not be retried and no other may serve. */
  predicate Final(walk: seq<Call>, hosts: nat, start: nat)
    requires |walk| > 0
  {
    !Retried(walk, |walk| - 1, start) && !Moves(walk, |walk| - 1, hosts, start)
  }

  /** The walk so far, and the host its next call goes to. */
  predicate Going(walk: seq<Call>, inPlace: map<nat, nat>, index: nat, hosts: nat, start: nat) {
    && Walk(walk, hosts, start) && index < hosts
    && (walk == [] ==> index == 0)
    && (walk != [] ==> NextHost(walk, |walk| - 1, index, hosts, start))
    && CallsTo(walk, index) == (if index in inPlace then inPlace[index] else 0)
    && (forall h :: h in inPlace ==> h <= index)
  }

  predicate NextHost(walk: seq<Call>, i: nat, index: nat, hosts: nat, start: nat)
    requires i < |walk|
  {
    if Retried(walk, i, start) then index == walk[i].host else Moves(walk, i, hosts, start) && index == walk[i].host + 1
  }

  /** One more call of the walk. */
  lemma Called(walk: seq<Call>, inPlace: map<nat, nat>, index: nat, hosts: nat, start: nat, reply: Reply)
    requires Going(walk, inPlace, index, hosts, start) && start + |walk| < MAX_ACCOUNT_ATTEMPTS
    ensures var next := walk + [Call(index, reply)];
            && Walk(next, hosts, start) && EarlierCalls(next, |walk|) == CallsTo(walk, index)
            && CallsTo(next, index) == CallsTo(walk, index) + 1
  {
    var next := walk + [Call(index, reply)];
    assert next[..|walk|] == walk;
    forall i | 0 <= i < |next| - 1
      ensures Follows(next, i, hosts, start)
    {
      assert next[..i] == walk[..i];
      if i < |walk| - 1 {
        assert Follows(walk, i, hosts, start);
      }
    }
  }

  /** Trying the last host again. */
  lemma StaysOn(walk: seq<Call>, inPlace: map<nat, nat>, index: nat, hosts: nat, start: nat, reply: Reply)
    requires Going(walk, inPlace, index, hosts, start) && start + |walk| < MAX_ACCOUNT_ATTEMPTS
    requires Retried(walk + [Call(index, reply)], |walk|, start)
    ensures Going(walk + [Call(index, reply)], inPlace[index := CallsTo(walk, index) + 1], index, hosts, start)
  {
    Called(walk, inPlace, index, hosts, start, reply);
  }

  /** Moving on to a host not called yet. */
  lemma MovesOn(walk: seq<Call>, inPlace: map<nat, nat>, index: nat, hosts: nat, start: nat, reply: Reply)
    requires Going(walk, inPlace, index, hosts, start) && start + |walk| < MAX_ACCOUNT_ATTEMPTS
    requires Moves(walk + [Call(index, reply)], |walk|, hosts, start)
    ensures Going(walk + [Call(index, reply)], inPlace, index + 1, hosts, start)
  {
    Called(walk, inPlace, index, hosts, start, reply);
    var next := walk + [Call(index, reply)];
    forall i | 0 <= i < |next|
      ensures next[i].host != index + 1
    {
      HostsInOrder(next, hosts, start, i, |walk|);
    }
    NoCallsTo(next, index + 1);
  }

  predicate HadNetworkError(walk: seq<Call>) {
    exists i :: 0 <= i < |walk| && walk[i].reply.NetworkError?
  }

  lemma ErrorSeen(walk: seq<Call>, call: Call)
    ensures HadNetworkError(walk + [call]) <==> HadNetworkError(walk) || call.reply.NetworkError?
  {
    var next := walk + [call];
    assert next[|walk|] == call;
    if i :| 0 <= i < |walk| && walk[i].reply.NetworkError? {
      assert next[i].reply.NetworkError?;
    }
  }

  // ------------------------------------------------------------ the walk a script gives

  function HostsOf(endpointCount: nat): nat { Max(endpointCount, 1) }

  /** The whole walk from where it stands, and how it ends. */
  function Walked(script: Script, hosts: nat, start: nat, walk: seq<Call>, index: nat): (Ending, seq<Call>)
    decreases Max(MAX_ACCOUNT_ATTEMPTS, start + |walk|) - (start + |walk|)
  {
    var t := script(|walk|);
    if !t.resolves then (Failed(NoTarget), walk)
    else if start + |walk| >= MAX_ACCOUNT_ATTEMPTS then (Failed(BudgetUsed), walk)
    else
      var next := walk + [Call(index, t.reply)];
      if t.reply.NetworkError? && t.left then (Failed(Canceled), next)
      else if Retried(next, |walk|, start) then
        if t.leaves then (Failed(Canceled), next) else Walked(script, hosts, start, next, index)
      else if Moves(next, |walk|, hosts, start) then Walked(script, hosts, start, next, index + 1)
      else (if t.reply.Status? then Returned(t.reply.code) else Failed(Unreachable), next)
  }

  /** Whether the ending reaches the connection's recorder. What that leaves depends on the status: a fault of
      the request itself, such as a 400, cools nothing. */
  predicate Records(ending: Ending, walk: seq<Call>) {
    match ending
    case Returned(status) => !(200 <= status < 300)
    case Failed(Unreachable) => true
    case Failed(BudgetUsed) => HadNetworkError(walk)
    case Failed(_) => false
  }

  /** A walk that obeys the rules to its end. A reply is returned, and the host reported unreachable, only
      when the host may not be retried and no other may serve; the budget or a missing target ends a walk
      that would go on; and a client ends it only at a failed send or before a retry. */
  predicate EndedByRules(ending: Ending, walk: seq<Call>, hosts: nat, start: nat) {
    && Walk(walk, hosts, start)
    && (ending.Returned? ==> |walk| > 0 && walk[|walk| - 1].reply == Status(ending.status) && Final(walk, hosts, start))
    && (ending == Failed(Unreachable) ==> |walk| > 0 && walk[|walk| - 1].reply.NetworkError? && Final(walk, hosts, start))
    && (ending == Failed(BudgetUsed) ==> start + |walk| >= MAX_ACCOUNT_ATTEMPTS && (|walk| > 0 ==> !Final(walk, hosts, start)))
    && (ending == Failed(NoTarget) ==> |walk| > 0 ==> !Final(walk, hosts, start))
    && (ending == Failed(Canceled) ==> |walk| > 0 && (walk[|walk| - 1].reply.NetworkError? || Retried(walk, |walk| - 1, start)))
  }

  /** The script's account of how its walk ended after the last call. */
  predicate EndedByScript(script: Script, ending: Ending, walk: seq<Call>, hosts: nat, start: nat) {
    var n := |walk|;
    && (forall i :: 0 <= i < n ==> walk[i].reply == script(i).reply)
    && (ending == Failed(NoTarget) <==> Continues(script, walk, hosts, start) && !script(n).resolves)
    && (ending == Failed(BudgetUsed) <==> Continues(script, walk, hosts, start) && script(n).resolves && start + n >= MAX_ACCOUNT_ATTEMPTS)
    && (ending == Failed(Canceled) <==> n > 0 && LeavesAt(script, walk, n - 1, start))
  }

  /** The client leaves at a failed send, or while a retry is awaited. */
  predicate LeavesAt(script: Script, walk: seq<Call>, i: nat, start: nat)
    requires i < |walk|
  {
    (walk[i].reply.NetworkError? && script(i).left) || (Retried(walk, i, start) && script(i).leaves)
  }

  /** After its last call the walk goes on, as far as the rules and the client are concerned. */
  predicate Continues(script: Script, walk: seq<Call>, hosts: nat, start: nat) {
    |walk| > 0 ==>
      var i := |walk| - 1;
      !LeavesAt(script, walk, i, start) && !Final(walk, hosts, start)
  }

  predicate Scripted(script: Script, walk: seq<Call>) {
    forall i :: 0 <= i < |walk| ==> walk[i].reply == script(i).reply
  }

  /** The walk stops before its next call, for want of a target or of budget. */
  lemma StopsBefore(script: Script, hosts: nat, start: nat, walk: seq<Call>, ending: Ending)
    requires Walk(walk, hosts, start) && Continues(script, walk, hosts, start) && Scripted(script, walk)
    requires !script(|walk|).resolves || start + |walk| >= MAX_ACCOUNT_ATTEMPTS
    requires ending == if script(|walk|).resolves then Failed(BudgetUsed) else Failed(NoTarget)
    ensures EndedByRules(ending, walk, hosts, start) && EndedByScript(script, ending, walk, hosts, start)
  {
  }

  /** The walk stops after a call: the client leaves, or the host may be neither retried nor left. */
  lemma StopsAfter(script: Script, hosts: nat, start: nat, walk: seq<Call>, ending: Ending)
    requires |walk| > 0 && Walk(walk, hosts, start) && Scripted(script, walk)
    requires var last := walk[|walk| - 1].reply;
             if LeavesAt(script, walk, |walk| - 1, start) then ending == Failed(Canceled)
             else Final(walk, hosts, start) && ending == if last.Status? then Returned(last.code) else Failed(Unreachable)
    ensures EndedByRules(ending, walk, hosts, start) && EndedByScript(script, ending, walk, hosts, start)
  {
  }

  /** After a call that neither ends the walk nor finds the client gone, the walk goes on from its next host. */
  lemma GoesOn(script: Script, hosts: nat, start: nat, walk: seq<Call>, inPlace: map<nat, nat>, index: nat)
    returns (next: seq<Call>, nextInPlace: map<nat, nat>, nextIndex: nat)
    requires Going(walk, inPlace, index, hosts, start) && Scripted(script, walk)
    requires script(|walk|).resolves && start + |walk| < MAX_ACCOUNT_ATTEMPTS
    requires var next := walk + [Call(index, script(|walk|).reply)]; !LeavesAt(script, next, |walk|, start) && !Final(next, hosts, start)
    ensures |next| == |walk| + 1 && Going(next, nextInPlace, nextIndex, hosts, start) && Continues(script, next, hosts, start) && Scripted(script, next)
    ensures Walked(script, hosts, start, walk, index) == Walked(script, hosts, start, next, nextIndex)
  {
    var reply := script(|walk|).reply;
    next, nextInPlace, nextIndex := walk + [Call(index, reply)], inPlace, index;
    if Retried(next, |walk|, start) {
      StaysOn(walk, inPlace, index, hosts, start, reply);
      nextInPlace := inPlace[index := CallsTo(walk, index) + 1];
    } else {
      MovesOn(walk, inPlace, index, hosts, start, reply);
      nextIndex := index + 1;
    }
  }

  /** A call that ends the walk, or finds the client gone. */
  lemma EndsHere(script: Script, hosts: nat, start: nat, walk: seq<Call>, inPlace: map<nat, nat>, index: nat)
    requires Going(walk, inPlace, index, hosts, start) && Scripted(script, walk)
    requires script(|walk|).resolves && start + |walk| < MAX_ACCOUNT_ATTEMPTS
    requires var next := walk + [Call(index, script(|walk|).reply)]; LeavesAt(script, next, |walk|, start) || Final(next, hosts, start)
    ensures var (ending, all) := Walked(script, hosts, start, walk, index);
            EndedByRules(ending, all, hosts, start) && EndedByScript(script, ending, all, hosts, start)
  {
    Called(walk, inPlace, index, hosts, start, script(|walk|).reply);
    var (ending, all) := Walked(script, hosts, start, walk, index);
    StopsAfter(script, hosts, start, all, ending);
  }

  lemma {:induction false} WalkObeys(script: Script, hosts: nat, start: nat, walk: seq<Call>, inPlace: map<nat, nat>, index: nat)
    requires Going(walk, inPlace, index, hosts, start) && Continues(script, walk, hosts, start) && Scripted(script, walk)
    ensures var (ending, all) := Walked(script, hosts, start, walk, index);
            EndedByRules(ending, all, hosts, start) && EndedByScript(script, ending, all, hosts, start)
    decreases Max(MAX_ACCOUNT_ATTEMPTS, start + |walk|) - (start + |walk|)
  {
    if !script(|walk|).resolves || start + |walk| >= MAX_ACCOUNT_ATTEMPTS {
      StopsBefore(script, hosts, start, walk, Walked(script, hosts, start, walk, index).0);
    } else {
      var called := walk + [Call(index, script(|walk|).reply)];
      if LeavesAt(script, called, |walk|, start) || Final(called, hosts, start) {
        EndsHere(script, hosts, start, walk, inPlace, index);
      } else {
        var next, nextInPlace, nextIndex := GoesOn(script, hosts, start, walk, inPlace, index);
        WalkObeys(script, hosts, start, next, nextInPlace, nextIndex);
      }
    }
  }

  lemma WholeWalkObeys(script: Script, hosts: nat, start: nat)
    requires hosts > 0
    ensures var (ending, walk) := Walked(script, hosts, start, [], 0);
            EndedByRules(ending, walk, hosts, start) && EndedByScript(script, ending, walk, hosts, start)
  {
    WalkObeys(script, hosts, start, [], map[], 0);
  }

  // ------------------------------------------------------------ the walk, status by status

  /** A request is repeated on its host: up to three times after a 502, a 503 or a failed send, twice after a
      504, while less than ten requests are used. */
  predicate InPlace(walk: seq<Call>, i: nat, start: nat)
    requires i < |walk|
  {
    var reply, earlier := walk[i].reply, CallsTo(walk[..i], walk[i].host);
    && start + i + 1 < 10
    && (reply == NetworkError || reply == Status(502) || reply == Status(503) || reply == Status(504))
    && (earlier < 2 || (earlier == 2 && reply != Status(504)))
  }

  /** After a failed send or one of these statuses, and with no retry left, the next host is asked if there
      is one. */
  predicate Onwards(walk: seq<Call>, i: nat, hosts: nat, start: nat)
    requires i < |walk|
  {
    && !InPlace(walk, i, start) && walk[i].host + 1 < hosts
    && walk[i].reply in {NetworkError, Status(401), Status(403), Status(404), Status(429)}
  }

  lemma RulesByStatus(walk: seq<Call>, i: nat, hosts: nat, start: nat)
    requires i < |walk|
    ensures Retried(walk, i, start) <==> InPlace(walk, i, start)
    ensures Moves(walk, i, hosts, start) <==> Onwards(walk, i, hosts, start)
  {
    assert walk[i].reply.Status? ==> walk[i].reply == Status(walk[i].reply.code);
  }

  /** For every script: after a call that is not the last the same host is asked again, or else the next one,
      as its status says. */
  lemma NextByStatus(script: Script, hosts: nat, start: nat, i: nat)
    requires hosts > 0 && i + 1 < |Walked(script, hosts, start, [], 0).1|
    ensures var walk := Walked(script, hosts, start, [], 0).1;
            && walk[i].reply == script(i).reply && start + i + 1 < 10
            && (walk[i + 1].host == walk[i].host <==> InPlace(walk, i, start))
            && (walk[i + 1].host == walk[i].host + 1 <==> Onwards(walk, i, hosts, start))
            && (InPlace(walk, i, start) || Onwards(walk, i, hosts, start))
  {
    WholeWalkObeys(script, hosts, start);
    var walk := Walked(script, hosts, start, [], 0).1;
    RulesByStatus(walk, i, hosts, start);
    assert Follows(walk, i, hosts, start);
  }

  lemma EndIs(script: Script, ending: Ending, walk: seq<Call>, hosts: nat, start: nat)
    requires EndedByRules(ending, walk, hosts, start) && EndedByScript(script, ending, walk, hosts, start)
    ensures |walk| == 0 ==> ending == if script(0).resolves then Failed(BudgetUsed) else Failed(NoTarget)
    ensures |walk| > 0 ==>
              var n := |walk|;
              ending == if LeavesAt(script, walk, n - 1, start) then Failed(Canceled)
                        else if !Final(walk, hosts, start) then if script(n).resolves then Failed(BudgetUsed) else Failed(NoTarget)
                        else if walk[n - 1].reply.Status? then Returned(walk[n - 1].reply.code)
                        else Failed(Unreachable)
  {
    match ending
    case Returned(_) =>
    case Failed(Unreachable) =>
    case Failed(BudgetUsed) =>
    case Failed(NoTarget) =>
    case Failed(Canceled) =>
  }

  lemma FirstCall(script: Script, hosts: nat, start: nat)
    requires !script(0).resolves || start >= 10
    ensures Walked(script, hosts, start, [], 0).1 == []
  {
    var none: seq<Call> := [];
    assert script(|none|) == script(0);
  }

  /** And the last call: its status is returned, or the host reported unreachable, exactly when neither the
      same host nor another is to be asked and the client has not left. */
  lemma EndByStatus(script: Script, hosts: nat, start: nat)
    requires hosts > 0
    ensures var (ending, walk) := Walked(script, hosts, start, [], 0); var n := |walk|;
            && (n == 0 <==> !script(0).resolves || start >= 10) && (n > 0 ==> walk[0] == Call(0, script(0).reply))
            && (n == 0 ==> ending == if script(0).resolves then Failed(BudgetUsed) else Failed(NoTarget))
            && (n > 0 ==>
                 var last, again, on := script(n - 1), InPlace(walk, n - 1, start), Onwards(walk, n - 1, hosts, start);
                 ending == if (last.reply.NetworkError? && last.left) || (again && last.leaves) then Failed(Canceled)
                           else if (again || on) && !script(n).resolves then Failed(NoTarget)
                           else if again || on then Failed(BudgetUsed)
                           else if last.reply.Status? then Returned(last.reply.code)
                           else Failed(Unreachable))
  {
    WholeWalkObeys(script, hosts, start);
    var (ending, walk) := Walked(script, hosts, start, [], 0);
    EndIs(script, ending, walk, hosts, start);
    if !script(0).resolves || start >= 10 { FirstCall(script, hosts, start); }
    if |walk| > 0 {
      RulesByStatus(walk, |walk| - 1, hosts, start);
    }
  }

  predicate Refuses(reply: Reply) { reply.Status? && !(200 <= reply.code < 300) }

  /** After a refusal at the end of the walk: it was to go on and did not, for one of these reasons. */
  predicate CutShort(script: Script, walk: seq<Call>, hosts: nat, start: nat)
    requires |walk| > 0
  {
    var n := |walk|;
    || (Retried(walk, n - 1, start) && (script(n - 1).leaves || !script(n).resolves))
    || (Moves(walk, n - 1, hosts, start) && (!script(n).resolves || !HadNetworkError(walk)))
  }

  lemma UnrecordedWhenCutShort(script: Script, ending: Ending, walk: seq<Call>, hosts: nat, start: nat)
    requires EndedByRules(ending, walk, hosts, start) && EndedByScript(script, ending, walk, hosts, start)
    requires |walk| > 0 && Refuses(walk[|walk| - 1].reply)
    ensures !Records(ending, walk) <==> CutShort(script, walk, hosts, start)
  {
    match ending
    case Returned(_) =>
    case Failed(Unreachable) =>
    case Failed(BudgetUsed) =>
    case Failed(NoTarget) =>
    case Failed(Canceled) =>
  }

  /** For every script, number of hosts and count so far: the walk ends on a refusal that is not recorded
      exactly when, after that refusal, it was to go on and did not: the client left while a retry was
      awaited, or no further target was found, or the budget was used up and no send had failed before. */
  lemma RefusalUnrecordedIff(script: Script, hosts: nat, start: nat)
    requires hosts > 0
    ensures var (ending, walk) := Walked(script, hosts, start, [], 0);
            |walk| > 0 && Refuses(walk[|walk| - 1].reply) ==> (!Records(ending, walk) <==> CutShort(script, walk, hosts, start))
  {
    WholeWalkObeys(script, hosts, start);
    var (ending, walk) := Walked(script, hosts, start, [], 0);
    if |walk| > 0 && Refuses(walk[|walk| - 1].reply) {
      UnrecordedWhenCutShort(script, ending, walk, hosts, start);
    }
  }

  /** Every host answers 429, and nothing else goes wrong. */
  ghost predicate AllBusy(script: Script) {
    forall n: nat :: script(n) == Turn(true, Status(429), false, false)
  }

  function BusyWalk(n: nat): seq<Call> {
    seq(n, i requires 0 <= i => Call(i, Status(429)))
  }

  lemma {:induction false} BusyWalked(script: Script, hosts: nat, start: nat, n: nat)
    requires AllBusy(script) && n < hosts && start + n <= MAX_ACCOUNT_ATTEMPTS
    ensures Walked(script, hosts, start, BusyWalk(n), n) ==
            if start + hosts <= MAX_ACCOUNT_ATTEMPTS then (Returned(429), BusyWalk(hosts))
            else (Failed(BudgetUsed), BusyWalk(MAX_ACCOUNT_ATTEMPTS - start))
    decreases hosts - n
  {
    var walk := BusyWalk(n);
    assert script(|walk|) == Turn(true, Status(429), false, false);
    assert walk + [Call(n, Status(429))] == BusyWalk(n + 1);
    if start + n < MAX_ACCOUNT_ATTEMPTS && n + 1 < hosts {
      BusyWalked(script, hosts, start, n + 1);
    }
  }

  /** When every host answers 429 the account is not cooled exactly when the requests left run out first. */
  lemma BusyHostsUnrecordedIff(script: Script, hosts: nat, start: nat)
    requires AllBusy(script) && hosts > 0 && start < MAX_ACCOUNT_ATTEMPTS
    ensures var (ending, walk) := Walked(script, hosts, start, [], 0);
            && |walk| > 0 && Refuses(walk[|walk| - 1].reply)
            && (!Records(ending, walk) <==> start + hosts > MAX_ACCOUNT_ATTEMPTS)
  {
    assert BusyWalk(0) == [];
    BusyWalked(script, hosts, start, 0);
  }

  // ------------------------------------------------------------ the code

  class Repair {
    var used: nat
    var obtained: nat
    ghost var open: set<nat>
    ghost var walk: seq<Call>
    // Whether the ending reached the connection's recorder.
    var recorded: bool

    constructor (used: nat, obtained: nat)
      ensures this.used == used && this.obtained == obtained && open == {} && walk == [] && !recorded
    {
      this.used, this.obtained, open, walk, recorded := used, obtained, {}, [], false;
    }

    /** One request of the walk, counted; a reply that is a status comes with a body. */
    method Send(index: nat, reply: Reply) returns (body: nat)
      requires open == {}
      modifies this`used, this`obtained, this`open, this`walk
      ensures used == old(used) + 1 && walk == old(walk) + [Call(index, reply)]
      ensures open == if reply.NetworkError? then {} else {body}
    {
      used := used + 1;
      body := obtained;
      if reply.Status? {
        open := {body};
        obtained := obtained + 1;
      }
      walk := walk + [Call(index, reply)];
    }

    method Close(body: nat)
      requires open == {body}
      modifies this`open
      ensures open == {}
    {
      open := {};
    }

    /** What to do with a reply: again in place, the next host, or neither. */
    method Judge(index: nat, hosts: nat, inPlace: map<nat, nat>, reply: Reply, ghost before: seq<Call>, ghost start: nat)
      returns (stay: bool, move: bool)
      requires Going(before, inPlace, index, hosts, start) && used == start + |before| + 1 <= MAX_ACCOUNT_ATTEMPTS
      ensures var next := before + [Call(index, reply)];
              && (stay <==> Retried(next, |before|, start))
              && (move <==> Moves(next, |before|, hosts, start))
    {
      Called(before, inPlace, index, hosts, start, reply);
      var tried := if index in inPlace then inPlace[index] else 0;
      stay := tried < RetriesAllowed(StatusOf(reply)) && used < MAX_ACCOUNT_ATTEMPTS;
      move := !stay && index + 1 < hosts && Skips(reply);
    }

    /** The walk between two turns: it has not ended, and its rest is the rest of the script's walk. */
    ghost predicate Underway(script: Script, endpointCount: nat, start: nat, inPlace: map<nat, nat>, index: nat, lastErr: bool)
      reads this
    {
      && Going(walk, inPlace, index, HostsOf(endpointCount), start)
      && used == start + |walk| && open == {} && !recorded && (lastErr <==> HadNetworkError(walk))
      && Walked(script, HostsOf(endpointCount), start, [], 0) == Walked(script, HostsOf(endpointCount), start, walk, index)
    }

    /** The walk is over: it is the script's, its ending is recorded as it should be, and of its bodies
        only the one returned is open. */
    ghost predicate Over(script: Script, endpointCount: nat, start: nat, result: Repaired)
      reads this
    {
      && (result.ending, walk) == Walked(script, HostsOf(endpointCount), start, [], 0)
      && used == start + |walk| && (recorded <==> Records(result.ending, walk))
      && open == (if result.ending.Returned? then {result.body} else {})
    }

    /** A reply at which the walk goes on: its body is closed and the next host chosen. */
    method GoOn(script: Script, endpointCount: nat, index: nat, inPlace: map<nat, nat>, lastErr: bool, reply: Reply, body: nat, stay: bool,
                ghost start: nat, ghost before: seq<Call>)
      returns (next: nat, nextInPlace: map<nat, nat>)
      requires Going(before, inPlace, index, HostsOf(endpointCount), start) && walk == before + [Call(index, reply)]
      requires used == start + |walk| <= MAX_ACCOUNT_ATTEMPTS && !recorded && (lastErr <==> HadNetworkError(walk))
      requires open == if reply.NetworkError? then {} else {body}
      requires script(|before|).resolves && script(|before|).reply == reply && !(reply.NetworkError? && script(|before|).left)
      requires Walked(script, HostsOf(endpointCount), start, [], 0) == Walked(script, HostsOf(endpointCount), start, before, index)
      requires if stay then Retried(walk, |before|, start) && !script(|before|).leaves else Moves(walk, |before|, HostsOf(endpointCount), start)
      modifies this`open
      ensures Underway(script, endpointCount, start, nextInPlace, next, lastErr)
    {
      next, nextInPlace := index, inPlace;
      if reply.Status? {
        Close(body);
      }
      if stay {
        StaysOn(before, inPlace, index, HostsOf(endpointCount), start, reply);
        nextInPlace := inPlace[index := (if index in inPlace then inPlace[index] else 0) + 1];
      } else {
        MovesOn(before, inPlace, index, HostsOf(endpointCount), start, reply);
        next := index + 1;
      }
    }

    /** One turn within the budget: a request and what its reply means. */
    method TakeTurn(script: Script, clock: nat, endpointCount: nat, index: nat, inPlace: map<nat, nat>, lastErr: bool, ghost start: nat)
      returns (over: Option<Repaired>, next: nat, nextInPlace: map<nat, nat>, nextErr: bool)
      requires Underway(script, endpointCount, start, inPlace, index, lastErr)
      requires clock == |walk| && script(clock).resolves && used < MAX_ACCOUNT_ATTEMPTS
      modifies this
      ensures over.Some? ==> Over(script, endpointCount, start, over.value)
      ensures over.None? ==> Underway(script, endpointCount, start, nextInPlace, next, nextErr) && |walk| == clock + 1
    {
      next, nextInPlace, nextErr := index, inPlace, lastErr;
      ghost var before := walk;
      var t := script(clock);
      var body := Send(index, t.reply);
      Called(before, inPlace, index, HostsOf(endpointCount), start, t.reply);
      ErrorSeen(before, Call(index, t.reply));
      if t.reply.NetworkError? && t.left {
        return Some(Repaired(Failed(Canceled), 0)), next, nextInPlace, nextErr;
      }
      nextErr := lastErr || t.reply.NetworkError?;
      var stay, move := Judge(index, HostsOf(endpointCount), inPlace, t.reply, before, start);
      if stay && t.leaves {
        if t.reply.Status? {
          Close(body);
        }
        return Some(Repaired(Failed(Canceled), 0)), next, nextInPlace, nextErr;
      }
      if !stay && !move {
        recorded := t.reply.NetworkError? || !(200 <= t.reply.code < 300);
        return Some(Repaired(if t.reply.NetworkError? then Failed(Unreachable) else Returned(t.reply.code), body)), next, nextInPlace, nextErr;
      }
      next, nextInPlace := GoOn(script, endpointCount, index, inPlace, nextErr, t.reply, body, stay, start, before);
      return None, next, nextInPlace, nextErr;
    }

    /** The walk is the one its script gives, and obeys the rules to its end. */
    method Run(script: Script, endpointCount: nat) returns (result: Repaired)
      requires open == {} && walk == [] && !recorded
      modifies this
      ensures Over(script, endpointCount, old(used), result)
      ensures EndedByRules(result.ending, walk, HostsOf(endpointCount), old(used))
      ensures recorded <==> match result.ending
                            case Returned(status) => status < 200 || status >= 300
                            case Failed(Unreachable) => true
                            case Failed(BudgetUsed) => exists i :: 0 <= i < |walk| && walk[i].reply == NetworkError
                            case _ => false
      ensures (result.ending, walk) == Walked(script, if endpointCount > 0 then endpointCount else 1, old(used), [], 0)
      ensures used == old(used) + |walk| && (used > old(used) ==> used <= 10)
    {
      WholeWalkObeys(script, HostsOf(endpointCount), used);
      var inPlace: map<nat, nat> := map[];
      var index, count, lastErr, clock := 0, 1, false, 0;
      while index < count
        invariant Underway(script, endpointCount, old(used), inPlace, index, lastErr)
        invariant clock == |walk| && index < count && (count == HostsOf(endpointCount) || (count == 1 && clock == 0))
        decreases Max(MAX_ACCOUNT_ATTEMPTS, old(used)) - clock
      {
        if !script(clock).resolves {
          return Repaired(Failed(NoTarget), 0);
        }
        if endpointCount > 0 {
          count := endpointCount;
        }
        if used >= MAX_ACCOUNT_ATTEMPTS {
          recorded := lastErr;
          return Repaired(Failed(BudgetUsed), 0);
        }
        var over;
        over, index, inPlace, lastErr := TakeTurn(script, clock, endpointCount, index, inPlace, lastErr, old(used));
        if over.Some? {
          return over.value;
        }
        clock := clock + 1;
      }
      assert false;
    }
  }

  /** A request with its repair. The attempt budget is ten a model; the repair of an answer shares the
      count, so both together stay within it. The request goes as its surroundings say, the repair as its
      script says from the count the request left, and of all bodies obtained only those returned are open. */
  method ServeWithRepair(w: World, combo: bool, models: nat, slots: seq<Slot>, repairs: bool, script: Script, endpointCount: nat)
    returns (used: nat, answer: Answer, repaired: Option<Repaired>, ghost log: seq<Event>, ghost open: set<nat>, ghost reopened: set<nat>)
    ensures var k := Route(combo, 10 * (if models > 0 then models else 1), slots);
            && log == WholeWalk(w, k) && answer == AnswerOf(w, k, log)
            && SentIn(log) <= used <= k.cap && open == BodyOf(answer)
    ensures repaired.Some? <==> answer.Response? && repairs
    ensures repaired.None? ==> used == SentIn(log) && reopened == {}
    ensures repaired.Some? ==>
              var (ending, calls) := Walked(script, HostsOf(endpointCount), SentIn(log), [], 0);
              && repaired.value.ending == ending && used == SentIn(log) + |calls|
              && reopened == if ending.Returned? then {repaired.value.body} else {}
  {
    var attempts;
    answer, attempts, log := DispatchAttempts(w, Route(combo, MAX_ACCOUNT_ATTEMPTS * Max(models, 1), slots));
    used, repaired, open, reopened := attempts.used, None, attempts.open, {};
    if repairs && answer.Response? {
      var repair := new Repair(used, attempts.obtained);
      var result := repair.Run(script, endpointCount);
      used, repaired, reopened := repair.used, Some(result), repair.open;
    }
  }
}
