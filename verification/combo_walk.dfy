/**
 walkCombo and its probeWriter (internal/ingress/combo_walk.go): members are served in turn, an error is
 held back until the Combo has decided whether to fall past it.
 */
module ComboWalk {
  import opened Prelude

  const HELD_LIMIT: nat := 64 * 1024

  /** What a member's handler does to its writer. */
  datatype Op = WriteHeader(status: int) | Write(data: string)

  /** What a client has received: a status once there is one, and the body so far. */
  datatype Received = Received(status: Option<int>, body: string)

  predicate Succeeds(status: int) { 200 <= status < 300 }

  // ------------------------------------------------------------ what a member answers

  /** The status of the first header, 200 if a body comes first, 0 if neither does. */
  function StatusOf(ops: seq<Op>): int {
    if ops == [] then 0
    else
      var before := StatusOf(ops[..|ops| - 1]);
      if before != 0 then before else match ops[|ops| - 1] case WriteHeader(status) => status case Write(_) => 200
  }

  function BodyOf(ops: seq<Op>): string {
    if ops == [] then ""
    else BodyOf(ops[..|ops| - 1]) + match ops[|ops| - 1] case WriteHeader(_) => "" case Write(data) => data
  }

  function Prefix(body: string): string {
    if |body| > HELD_LIMIT then body[..HELD_LIMIT] else body
  }

  lemma ButLast(op: Op, ops: seq<Op>)
    requires ops != []
    ensures ([op] + ops)[..|[op] + ops| - 1] == [op] + ops[..|ops| - 1] && ([op] + ops)[|[op] + ops| - 1] == ops[|ops| - 1]
  {
  }

  /** The first call a member makes decides its status: a header its own, a body 200. */
  lemma {:induction false} StatusByFirst(op: Op, ops: seq<Op>)
    requires op.WriteHeader? ==> op.status != 0
    ensures StatusOf([]) == 0 && StatusOf([op] + ops) == if op.Write? then 200 else op.status
    decreases |ops|
  {
    if ops == [] {
      assert [op] + ops == [op] && [op][..0] == [];
    } else {
      StatusByFirst(op, ops[..|ops| - 1]);
      ButLast(op, ops);
    }
  }

  /** The body is all that is written, in order. */
  lemma {:induction false} BodyByCalls(op: Op, ops: seq<Op>)
    ensures BodyOf([]) == "" && BodyOf([op] + ops) == (if op.Write? then op.data else "") + BodyOf(ops)
    decreases |ops|
  {
    if ops == [] {
      assert [op] + ops == [op] && [op][..0] == [];
    } else {
      BodyByCalls(op, ops[..|ops| - 1]);
      ButLast(op, ops);
    }
  }

  class ProbeWriter {
    // The client's side: what it has been sent.
    var client: Received
    var status: int
    var committed: bool
    var held: string

    constructor (client: Received)
      ensures this.client == client && status == 0 && !committed && held == ""
    {
      this.client, status, committed, held := client, 0, false, "";
    }

    /** After these calls of a member: a success has gone straight to the client, anything else is held,
        up to the limit, and the client has nothing. */
    ghost predicate Holds(ops: seq<Op>)
      reads this
    {
      && status == StatusOf(ops) && (committed <==> Succeeds(status))
      && |held| <= HELD_LIMIT
      && (committed ==> client == Received(Some(status), BodyOf(ops)))
      && (!committed ==> client == Received(None, "") && held == Prefix(BodyOf(ops)))
    }

    /** commit: the status and whatever was held go to the client, once. */
    method Commit()
      modifies this
      ensures committed && status == old(status)
      ensures old(committed) ==> client == old(client) && held == old(held)
      ensures !old(committed) ==> held == "" && client.body == old(client).body + old(held)
      ensures !old(committed) ==> client.status == if old(client).status.Some? then old(client).status else Some(if status == 0 then 200 else status)
    {
      if committed {
        return;
      }
      committed := true;
      var sent := if status == 0 then 200 else status;
      client := Received(if client.status.Some? then client.status else Some(sent), client.body + held);
      held := "";
    }

    method SetStatus(code: int)
      requires status == 0 ==> !committed && client == Received(None, "") && held == ""
      requires code != 0
      modifies this
      ensures status == (if old(status) == 0 then code else old(status))
      ensures held == old(held)
      ensures old(status) == 0 ==> committed == Succeeds(code) && client == if Succeeds(code) then Received(Some(code), "") else old(client)
      ensures old(status) != 0 ==> committed == old(committed) && client == old(client)
    {
      if status != 0 {
        return;
      }
      status := code;
      if Succeeds(code) {
        Commit();
      }
    }

    method Do(op: Op, ghost before: seq<Op>)
      requires Holds(before) && (op.WriteHeader? ==> op.status != 0) && (StatusOf(before) == 0 ==> BodyOf(before) == "")
      modifies this
      ensures Holds(before + [op]) && (StatusOf(before + [op]) == 0 ==> BodyOf(before + [op]) == "")
    {
      assert (before + [op])[..|before|] == before;
      match op
      case WriteHeader(code) =>
        SetStatus(code);
      case Write(data) =>
        if status == 0 {
          SetStatus(200);
        }
        if committed {
          client := Received(client.status, client.body + data);
        } else if |held| < HELD_LIMIT {
          var room := HELD_LIMIT - |held|;
          held := held + if |data| < room then data else data[..room];
        }
    }
  }

  // ------------------------------------------------------------ the walk

  /** The first member whose answer is the answer: a success, silence, or an error the Combo does not fall
      past. `falls` decides from the status and the body's front. */
  predicate Decides(ops: seq<Op>, falls: (int, string) -> bool) {
    var status := StatusOf(ops);
    Succeeds(status) || status == 0 || !falls(status, Prefix(BodyOf(ops)))
  }

  datatype Result = Served(received: Received) | Exhausted | NoAccounts | ClientLeft

  /** What a deciding member's answer is for the client. */
  function Reply(ops: seq<Op>): Received {
    var status := StatusOf(ops);
    if Succeeds(status) then Received(Some(status), BodyOf(ops))
    else Received(Some(if status == 0 then 200 else status), Prefix(BodyOf(ops)))
  }

  /** What a Combo falls past, and what it gives the client: a success whole, and an error it does not fall past
      with as much of its body as was held, 64 KiB. */
  lemma DecidesByStatus(ops: seq<Op>, falls: (int, string) -> bool)
    ensures var status, body := StatusOf(ops), BodyOf(ops); var front := if |body| <= 65536 then body else body[..65536];
            if 200 <= status <= 299 then Decides(ops, falls) && Reply(ops) == Received(Some(status), body)
            else if status == 0 then Decides(ops, falls) && Reply(ops) == Received(Some(200), front)
            else (Decides(ops, falls) <==> !falls(status, front)) && Reply(ops) == Received(Some(status), front)
  {
  }

  predicate FirstDecider(members: seq<seq<Op>>, falls: (int, string) -> bool, i: nat) {
    i < |members| && Decides(members[i], falls) && forall k :: 0 <= k < i ==> !Decides(members[k], falls)
  }

  predicate Proper(ops: seq<Op>) {
    forall i :: 0 <= i < |ops| && ops[i].WriteHeader? ==> ops[i].status != 0
  }

  method Serve(ops: seq<Op>) returns (probe: ProbeWriter)
    requires Proper(ops)
    ensures fresh(probe) && probe.Holds(ops)
  {
    probe := new ProbeWriter(Received(None, ""));
    for i := 0 to |ops|
      invariant fresh(probe) && probe.Holds(ops[..i])
      invariant StatusOf(ops[..i]) == 0 ==> BodyOf(ops[..i]) == ""
    {
      assert ops[..i + 1] == ops[..i] + [ops[i]];
      probe.Do(ops[i], ops[..i]);
    }
    assert ops[..|ops|] == ops;
  }

  /** The client leaves at member `i`, and not before: while it is served, or in the wait after its answer is
      passed over. */
  predicate LeftAt(members: seq<seq<Op>>, falls: (int, string) -> bool, leaves: nat -> bool, quits: nat -> bool, i: nat) {
    && i < |members| && (forall j :: 0 <= j < i ==> !Decides(members[j], falls) && !leaves(j) && !quits(j))
    && (leaves(i) || (!Decides(members[i], falls) && quits(i)))
  }

  /** The client gets the answer of the first deciding member, whole if it succeeds, and nothing of the
      members before it; with none it gets the exhausted error. `leaves` says whether the client has left once
      a member is served, `quits` whether it leaves in the wait before the next: it gets one of these unless
      it leaves at a point the walk comes to. */
  method WalkCombo(members: seq<seq<Op>>, falls: (int, string) -> bool, leaves: nat -> bool, quits: nat -> bool) returns (result: Result)
    requires forall i :: 0 <= i < |members| ==> Proper(members[i])
    ensures members == [] <==> result.NoAccounts?
    ensures result.ClientLeft? <==> exists k: nat :: LeftAt(members, falls, leaves, quits, k)
    ensures result.Served? ==> exists i: nat :: FirstDecider(members, falls, i) && result.received == Reply(members[i])
    ensures result.Exhausted? ==> forall i :: 0 <= i < |members| ==> !Decides(members[i], falls)
  {
    if |members| == 0 {
      return NoAccounts;
    }
    for index := 0 to |members|
      invariant forall k :: 0 <= k < index ==> !Decides(members[k], falls) && !leaves(k) && !quits(k)
    {
      var probe := Serve(members[index]);
      if leaves(index) {
        assert LeftAt(members, falls, leaves, quits, index);
        return ClientLeft;
      }
      assert Decides(members[index], falls) ==> FirstDecider(members, falls, index);
      if probe.committed {
        return Served(probe.client);
      }
      if probe.status == 0 || !falls(probe.status, probe.held) {
        probe.Commit();
        return Served(probe.client);
      }
      if quits(index) {
        assert LeftAt(members, falls, leaves, quits, index);
        return ClientLeft;
      }
    }
    return Exhausted;
  }

  /** A deciding member's answer reaches the client as it is exactly when it succeeds or its body is within
      the limit: a longer error body is cut. */
  lemma ReplyIsWholeIff(ops: seq<Op>)
    requires StatusOf(ops) != 0
    ensures Reply(ops) == Received(Some(StatusOf(ops)), BodyOf(ops)) <==> Succeeds(StatusOf(ops)) || |BodyOf(ops)| <= HELD_LIMIT
  {
  }
}
