/**
 stripHistoryForContext (internal/ingress/capstrip.go): a request's history fitted to a context window
 by dropping the middle. A body is modelled after JSON decoding; `raw` stands for a message's bytes.
 */
module History {
  import opened Prelude

  const HEAD_KEEP: nat := 6
  const DEFAULT_ADAPTER_CONTEXT: int := 200000

  /** A decoded content: a string by its UTF-16 length, an array by its blocks' text lengths. */
  datatype Content = Absent | Text(units: nat) | Blocks(texts: seq<Option<nat>>) | Other

  datatype Message = Message(raw: nat, role: string, content: Content, parts: Content)

  predicate IsSystem(m: Message) { m.role == "system" || m.role == "developer" }

  predicate IsReply(m: Message) { m.role == "assistant" || m.role == "model" }

  function SumBlocks(texts: seq<Option<nat>>): nat {
    if texts == [] then 0 else SumBlocks(texts[..|texts| - 1]) + texts[|texts| - 1].GetOr(50)
  }

  function LengthOf(content: Content): nat {
    match content
    case Text(units) => units
    case Blocks(texts) => SumBlocks(texts)
    case _ => 0
  }

  /** blockLength of the content, or of the parts when there is none. */
  function BlockLength(m: Message): nat {
    LengthOf(if m.content.Absent? then m.parts else m.content)
  }

  function Total(turns: seq<Message>): nat {
    if turns == [] then 0 else Total(turns[..|turns| - 1]) + BlockLength(turns[|turns| - 1])
  }

  lemma {:induction false} TotalJoin(a: seq<Message>, b: seq<Message>)
    ensures Total(a + b) == Total(a) + Total(b)
    decreases |b|
  {
    if b == [] {
      assert a + b == a;
    } else {
      TotalJoin(a, b[..|b| - 1]);
      assert (a + b)[..|a + b| - 1] == a + b[..|b| - 1];
    }
  }

  // ------------------------------------------------------------ the parts of a history

  function System(items: seq<Message>): seq<Message> {
    if items == [] then []
    else System(items[..|items| - 1]) + (if IsSystem(items[|items| - 1]) then [items[|items| - 1]] else [])
  }

  function Rest(items: seq<Message>): seq<Message> {
    if items == [] then []
    else Rest(items[..|items| - 1]) + (if IsSystem(items[|items| - 1]) then [] else [items[|items| - 1]])
  }

  /** How many turns run up to the last reply. */
  function OlderCount(rest: seq<Message>): (n: nat)
    ensures n <= |rest|
    ensures n > 0 ==> IsReply(rest[n - 1])
    ensures forall i :: n <= i < |rest| ==> !IsReply(rest[i])
  {
    if rest == [] then 0
    else if IsReply(rest[|rest| - 1]) then |rest|
    else OlderCount(rest[..|rest| - 1])
  }

  function Older(items: seq<Message>): seq<Message> { Rest(items)[..OlderCount(Rest(items))] }

  /** The run after the last reply, which carries the media. */
  function Tail(items: seq<Message>): seq<Message> { Rest(items)[OlderCount(Rest(items))..] }

  function Window(contextWindow: int): int {
    if contextWindow <= 0 then DEFAULT_ADAPTER_CONTEXT else contextWindow
  }

  /** At most 80% of the window, at four characters a token. */
  predicate Within(total: nat, contextWindow: int) { 5 * total <= 16 * Window(contextWindow) }

  /** The first `n` older turns fit, with everything that is always kept. */
  predicate Fits(items: seq<Message>, n: nat, contextWindow: int)
    requires n <= |Older(items)|
  {
    Within(Total(System(items)) + Total(Older(items)[..n]) + Total(Tail(items)), contextWindow)
  }

  function HeadLimit(items: seq<Message>): nat {
    if |Older(items)| > HEAD_KEEP then HEAD_KEEP else |Older(items)|
  }

  /** The most older turns that fit, counting down from `n`. */
  function LargestFit(items: seq<Message>, n: nat, contextWindow: int): (k: nat)
    requires n <= |Older(items)|
    ensures k <= n && (k > 0 ==> Fits(items, k, contextWindow))
    ensures forall j :: k < j <= n ==> !Fits(items, j, contextWindow)
  {
    if n == 0 || Fits(items, n, contextWindow) then n else LargestFit(items, n - 1, contextWindow)
  }

  /** How many older turns are kept, all of them when nothing is dropped. */
  function HeadCount(items: seq<Message>, contextWindow: int): nat {
    LargestFit(items, HeadLimit(items), contextWindow)
  }

  /** The history sent: unchanged if no older turn is dropped. */
  function Fitted(items: seq<Message>, contextWindow: int): seq<Message> {
    if HeadCount(items, contextWindow) == |Older(items)| then items
    else System(items) + Older(items)[..HeadCount(items, contextWindow)] + Tail(items)
  }

  // ------------------------------------------------------------ what it means

  /** A message by what it holds: a text counts its units, a block its text's or 50, anything else nothing; the
      parts count only where there is no content. */
  lemma LengthsByValue(m: Message, n: nat, texts: seq<Option<nat>>)
    ensures m.content == Text(n) ==> BlockLength(m) == n
    ensures m.content == Other || m.content == Blocks([]) || (m.content == Absent && m.parts == Absent) ==> BlockLength(m) == 0
    ensures m.content == Blocks(texts + [Some(n)]) ==> BlockLength(m) == BlockLength(m.(content := Blocks(texts))) + n
    ensures m.content == Blocks(texts + [None]) ==> BlockLength(m) == BlockLength(m.(content := Blocks(texts))) + 50
    ensures m.content == Absent ==> BlockLength(m) == BlockLength(m.(content := m.parts, parts := Absent))
  {
    assert (texts + [Some(n)])[..|texts|] == texts && (texts + [None])[..|texts|] == texts;
  }

  /** A message by its role: which list it joins. */
  lemma PartsByRole(items: seq<Message>, m: Message)
    ensures System([]) == [] && Rest([]) == []
    ensures System(items + [m]) == System(items) + if m.role == "system" || m.role == "developer" then [m] else []
    ensures Rest(items + [m]) == Rest(items) + if m.role == "system" || m.role == "developer" then [] else [m]
  {
    assert (items + [m])[..|items|] == items;
  }

  /** The older turns reach up to the last reply, and a list's length is its messages'. */
  lemma OlderByRole(turns: seq<Message>, m: Message)
    ensures OlderCount([]) == 0 && Total([]) == 0
    ensures OlderCount(turns + [m]) == if m.role == "assistant" || m.role == "model" then |turns| + 1 else OlderCount(turns)
    ensures Total(turns + [m]) == Total(turns) + BlockLength(m)
  {
    assert (turns + [m])[..|turns|] == turns;
  }

  lemma WithinMeans(total: nat, contextWindow: int)
    ensures Within(total, contextWindow) <==> 100 * total <= 80 * 4 * if contextWindow > 0 then contextWindow else 200000
  {
  }

  /** A longer prefix needs more room. */
  lemma LongerNeedsMore(items: seq<Message>, j: nat, k: nat, contextWindow: int)
    requires j <= k <= |Older(items)| && Fits(items, k, contextWindow)
    ensures Fits(items, j, contextWindow)
  {
    var older := Older(items);
    TotalJoin(older[..j], older[j..k]);
    assert older[..j] + older[j..k] == older[..k];
  }

  lemma KeptIfFits(items: seq<Message>, contextWindow: int, n: nat)
    requires n <= |Older(items)|
    ensures n <= HeadCount(items, contextWindow) <==> n == 0 || (n <= HEAD_KEEP && Fits(items, n, contextWindow))
  {
    var k := HeadCount(items, contextWindow);
    if 0 < n <= k {
      LongerNeedsMore(items, n, k, contextWindow);
    }
  }

  /** The older turns kept are the longest prefix of the first six that fits, or none: a number of turns
      within six is kept exactly when it is none at all or, with all that is always kept, takes at most 80% of
      the window at four characters a token. */
  lemma LongestPrefix(items: seq<Message>, contextWindow: int, n: nat)
    requires n <= |Older(items)|
    ensures var total := Total(System(items)) + Total(Older(items)[..n]) + Total(Tail(items));
            n <= HeadCount(items, contextWindow) <==>
            n == 0 || (n <= 6 && 100 * total <= 80 * 4 * if contextWindow > 0 then contextWindow else 200000)
  {
    WithinMeans(Total(System(items)) + Total(Older(items)[..n]) + Total(Tail(items)), contextWindow);
    KeptIfFits(items, contextWindow, n);
  }

  /** A larger window keeps at least as much of the older turns. */
  lemma LargerWindowKeepsMore(items: seq<Message>, small: int, large: int)
    requires Window(small) <= Window(large)
    ensures HeadCount(items, small) <= HeadCount(items, large)
    ensures Older(items)[..HeadCount(items, small)] <= Older(items)[..HeadCount(items, large)]
  {
    var k := HeadCount(items, small);
    KeptIfFits(items, large, k);
  }

  lemma {:induction false} SystemJoin(a: seq<Message>, b: seq<Message>)
    ensures System(a + b) == System(a) + System(b) && Rest(a + b) == Rest(a) + Rest(b)
    decreases |b|
  {
    if b == [] {
      assert a + b == a;
    } else {
      var front := b[..|b| - 1];
      SystemJoin(a, front);
      assert (a + b)[..|a + b| - 1] == a + front && (a + b)[|a + b| - 1] == b[|b| - 1];
    }
  }

  lemma {:induction false} AllSystem(turns: seq<Message>)
    requires forall i :: 0 <= i < |turns| ==> IsSystem(turns[i])
    ensures System(turns) == turns && Rest(turns) == []
  {
    if turns != [] {
      var front := turns[..|turns| - 1];
      AllSystem(front);
      assert turns == front + [turns[|turns| - 1]];
    }
  }

  lemma {:induction false} NoSystem(turns: seq<Message>)
    requires forall i :: 0 <= i < |turns| ==> !IsSystem(turns[i])
    ensures System(turns) == [] && Rest(turns) == turns
  {
    if turns != [] {
      var front := turns[..|turns| - 1];
      NoSystem(front);
      assert turns == front + [turns[|turns| - 1]];
    }
  }

  lemma {:induction false} Split(items: seq<Message>)
    ensures forall i :: 0 <= i < |System(items)| ==> IsSystem(System(items)[i])
    ensures forall i :: 0 <= i < |Rest(items)| ==> !IsSystem(Rest(items)[i])
  {
    if items != [] {
      Split(items[..|items| - 1]);
    }
  }

  lemma {:induction false} NothingLost(items: seq<Message>)
    ensures multiset(System(items)) + multiset(Rest(items)) == multiset(items)
  {
    if items != [] {
      var front, last := items[..|items| - 1], items[|items| - 1];
      NothingLost(front);
      OneMore(front, last);
      assert items == front + [last];
      if IsSystem(last) {
        OneMore(System(front), last);
      } else {
        OneMore(Rest(front), last);
      }
    }
  }

  lemma OneMore(items: seq<Message>, last: Message)
    ensures multiset(items + [last]) == multiset(items) + multiset{last}
  {
  }

  lemma SystemFirst(system: seq<Message>, turns: seq<Message>)
    requires forall i :: 0 <= i < |system| ==> IsSystem(system[i])
    requires forall i :: 0 <= i < |turns| ==> !IsSystem(turns[i])
    ensures System(system + turns) == system && Rest(system + turns) == turns
  {
    AllSystem(system);
    NoSystem(turns);
    SystemJoin(system, turns);
  }

  lemma PartsOf(system: seq<Message>, head: seq<Message>, tail: seq<Message>)
    requires forall i :: 0 <= i < |system| ==> IsSystem(system[i])
    requires forall i :: 0 <= i < |head| ==> !IsSystem(head[i])
    requires forall i :: 0 <= i < |tail| ==> !IsSystem(tail[i])
    ensures System(system + head + tail) == system && Rest(system + head + tail) == head + tail
  {
    var turns := head + tail;
    forall i | 0 <= i < |turns|
      ensures !IsSystem(turns[i])
    {
      assert turns[i] == if i < |head| then head[i] else tail[i - |head|];
    }
    SystemFirst(system, turns);
    assert system + head + tail == system + turns;
  }

  lemma OlderAndTail(items: seq<Message>)
    ensures Rest(items) == Older(items) + Tail(items)
  {
  }

  /** The parts of the fitted history: the same system messages, the head kept and the same tail. */
  lemma FittedParts(items: seq<Message>, n: nat)
    requires n <= |Older(items)|
    ensures var out := System(items) + Older(items)[..n] + Tail(items);
            System(out) == System(items) && Rest(out) == Older(items)[..n] + Tail(items)
  {
    Split(items);
    PartsOf(System(items), Older(items)[..n], Tail(items));
  }

  lemma SubMultiset(system: seq<Message>, older: seq<Message>, tail: seq<Message>, n: nat)
    requires n <= |older|
    ensures multiset(system + older[..n] + tail) <= multiset(system) + multiset(older + tail)
  {
    assert older == older[..n] + older[n..];
    assert multiset(older) == multiset(older[..n]) + multiset(older[n..]);
  }

  /** Every system message and the whole trailing run are kept, in order, and nothing is added or repeated. */
  lemma SystemAndTailKept(items: seq<Message>, contextWindow: int)
    ensures var out := Fitted(items, contextWindow);
            && System(out) == System(items)
            && Rest(out) == Older(items)[..HeadCount(items, contextWindow)] + Tail(items)
            && multiset(out) <= multiset(items)
  {
    var n := HeadCount(items, contextWindow);
    OlderAndTail(items);
    if n == |Older(items)| {
      assert Older(items)[..n] == Older(items);
    } else {
      FittedParts(items, n);
      NothingLost(items);
      SubMultiset(System(items), Older(items), Tail(items), n);
    }
  }

  /** The last reply of a shorter history is no later. */
  lemma {:induction false} OlderOfPrefix(head: seq<Message>, tail: seq<Message>)
    requires forall i :: 0 <= i < |tail| ==> !IsReply(tail[i])
    ensures OlderCount(head + tail) <= |head|
    decreases |tail|
  {
    if tail == [] {
      assert head + tail == head;
    } else {
      OlderOfPrefix(head, tail[..|tail| - 1]);
      assert (head + tail)[..|head + tail| - 1] == head + tail[..|tail| - 1];
    }
  }

  /** Fitting a fitted history again changes nothing. */
  lemma FittingIsIdempotent(items: seq<Message>, contextWindow: int)
    ensures Fitted(Fitted(items, contextWindow), contextWindow) == Fitted(items, contextWindow)
  {
    var k := HeadCount(items, contextWindow);
    if k != |Older(items)| {
      var head, tail := Older(items)[..k], Tail(items);
      var out := Fitted(items, contextWindow);
      FittedParts(items, k);
      OlderOfPrefix(head, tail);
      SameTotal(items, out, head);
      AllOfItFits(out, contextWindow, k > 0);
    }
  }

  /** A history whose older turns are few enough and fit is sent as it is. */
  lemma AllOfItFits(out: seq<Message>, contextWindow: int, some: bool)
    requires |Older(out)| <= HEAD_KEEP && (!some ==> Older(out) == [])
    requires some ==> Within(Total(System(out)) + Total(Older(out)) + Total(Tail(out)), contextWindow)
    ensures Fitted(out, contextWindow) == out
  {
    assert Older(out)[..|Older(out)|] == Older(out);
  }

  lemma TotalOfRest(items: seq<Message>)
    ensures Total(Older(items)) + Total(Tail(items)) == Total(Rest(items))
  {
    OlderAndTail(items);
    TotalJoin(Older(items), Tail(items));
  }

  /** All of a fitted history takes the room its parts took. */
  lemma SameTotal(items: seq<Message>, out: seq<Message>, head: seq<Message>)
    requires System(out) == System(items) && Rest(out) == head + Tail(items)
    ensures Total(System(out)) + Total(Older(out)) + Total(Tail(out)) == Total(System(items)) + Total(head) + Total(Tail(items))
  {
    TotalJoin(head, Tail(items));
    TotalOfRest(out);
  }

  // ------------------------------------------------------------ the code

  method Measure(turns: seq<Message>) returns (total: nat)
    ensures total == Total(turns)
  {
    total := 0;
    for i := 0 to |turns|
      invariant total == Total(turns[..i])
    {
      assert turns[..i + 1][..i] == turns[..i];
      total := total + BlockLength(turns[i]);
    }
    assert turns[..|turns|] == turns;
  }

  method Separate(items: seq<Message>) returns (system: seq<Message>, rest: seq<Message>)
    ensures system == System(items) && rest == Rest(items)
  {
    system, rest := [], [];
    for j := 0 to |items|
      invariant system == System(items[..j]) && rest == Rest(items[..j])
    {
      assert items[..j + 1][..j] == items[..j];
      if IsSystem(items[j]) {
        system := system + [items[j]];
      } else {
        rest := rest + [items[j]];
      }
    }
    assert items[..|items|] == items;
  }

  /** The scan back for the last reply. */
  method CountOlder(rest: seq<Message>) returns (i: nat)
    ensures i == OlderCount(rest)
  {
    i := |rest|;
    assert rest[..i] == rest;
    while i > 0 && !IsReply(rest[i - 1])
      invariant 0 <= i <= |rest| && OlderCount(rest) == OlderCount(rest[..i])
    {
      assert rest[..i][..i - 1] == rest[..i - 1];
      i := i - 1;
    }
  }

  /** Dropping head turns from the end while the history overflows. */
  method Shrink(older: seq<Message>, most: nat, always: nat, contextWindow: int) returns (n: nat)
    requires most <= |older|
    ensures n <= most && (n > 0 ==> Within(always + Total(older[..n]), contextWindow))
    ensures forall j :: n < j <= most ==> !Within(always + Total(older[..j]), contextWindow)
  {
    n := most;
    var total := Measure(older[..n]);
    total := always + total;
    while 5 * total > 16 * Window(contextWindow) && n > 0
      invariant n <= most && total == always + Total(older[..n])
      invariant forall j :: n < j <= most ==> !Within(always + Total(older[..j]), contextWindow)
    {
      assert older[..n][..n - 1] == older[..n - 1];
      total := total - BlockLength(older[n - 1]);
      n := n - 1;
    }
  }

  lemma ShrunkTo(items: seq<Message>, n: nat, contextWindow: int)
    requires n <= HeadLimit(items) && (n > 0 ==> Fits(items, n, contextWindow))
    requires forall j :: n < j <= HeadLimit(items) ==> !Fits(items, j, contextWindow)
    ensures n == HeadCount(items, contextWindow)
  {
  }

  /** The loops of stripHistoryForContext over one list of messages. */
  method FitHistory(items: seq<Message>, contextWindow: int) returns (kept: seq<Message>)
    ensures kept == Fitted(items, contextWindow)
  {
    var system, rest := Separate(items);
    var i := CountOlder(rest);
    var tail, older := rest[i..], rest[..i];
    if |older| == 0 {
      return items;
    }
    var always := Measure(system);
    var last := Measure(tail);
    var n := Shrink(older, if |older| > HEAD_KEEP then HEAD_KEEP else |older|, always + last, contextWindow);
    assert forall j :: 0 <= j <= |older| ==> (Fits(items, j, contextWindow) <==> Within(always + last + Total(older[..j]), contextWindow));
    ShrunkTo(items, n, contextWindow);
    if n == |older| {
      return items;
    }
    kept := system + older[..n] + tail;
  }

  /** A body: its message arrays (None: absent, null or no array) and everything else. */
  datatype Body = Body(messages: Option<seq<Message>>, input: Option<seq<Message>>, contents: Option<seq<Message>>, others: nat)

  /** The first array there is of messages, input and contents is fitted; the rest of the body stays. */
  method StripHistoryForContext(body: Body, contextWindow: int) returns (out: Body)
    ensures out.others == body.others
    ensures body.messages.Some? ==> out == body.(messages := Some(Fitted(body.messages.value, contextWindow)))
    ensures body.messages.None? && body.input.Some? ==> out == body.(input := Some(Fitted(body.input.value, contextWindow)))
    ensures body.messages.None? && body.input.None? && body.contents.Some? ==> out == body.(contents := Some(Fitted(body.contents.value, contextWindow)))
    ensures body.messages.None? && body.input.None? && body.contents.None? ==> out == body
  {
    out := body;
    if body.messages.Some? {
      var kept := FitHistory(body.messages.value, contextWindow);
      out := body.(messages := Some(kept));
    } else if body.input.Some? {
      var kept := FitHistory(body.input.value, contextWindow);
      out := body.(input := Some(kept));
    } else if body.contents.Some? {
      var kept := FitHistory(body.contents.value, contextWindow);
      out := body.(contents := Some(kept));
    }
  }
}
