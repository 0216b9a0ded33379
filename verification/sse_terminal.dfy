/**
 Which events end a stream (internal/ingress/responses_stream.go), read off the text of an event, and what
 the relay therefore sends for a whole stream.
 */
module SseTerminal {
  import opened Prelude
  import opened SseRelay
  import opened SseOutputs
  import opened SseEvents
  import opened SseStreams

  ghost predicate LineAt(event: string, line: string, a: nat) {
    && a + |line| <= |event| && event[a..a + |line|] == line
    && (a == 0 || event[a - 1] == '\n') && (a + |line| == |event| || event[a + |line|] == '\n')
  }

  /** `line` stands in the event between newlines or its ends. */
  ghost predicate HasLine(event: string, line: string) {
    '\n' !in line && exists a: nat :: LineAt(event, line, a)
  }

  /** One of the event's lines is this one, a carriage return at its end aside. */
  ghost predicate Says(event: string, line: string) {
    HasLine(event, line + "\r") || (HasLine(event, line) && (line == "" || line[|line| - 1] != '\r'))
  }

  lemma OnlyLine(event: string, line: string)
    requires Newline(event) == |event|
    ensures HasLine(event, line) <==> line == event
  {
    if line == event {
      assert LineAt(event, line, 0);
    }
  }

  /** The line at the start of a text with a newline is its first. */
  lemma FirstEnds(event: string, line: string)
    requires Newline(event) < |event| && '\n' !in line
    ensures LineAt(event, line, 0) <==> line == event[..Newline(event)]
  {
  }

  lemma SliceOfRest(event: string, k: nat, a: nat, b: nat)
    requires k <= a <= b <= |event|
    ensures event[a..b] == event[k..][a - k..b - k]
  {
  }

  /** A line that starts later is one of the rest. */
  lemma LaterIsOfRest(event: string, line: string, a: nat, k: nat)
    requires 0 < k <= a && k <= |event| && event[k - 1] == '\n'
    ensures LineAt(event, line, a) <==> LineAt(event[k..], line, a - k)
  {
    if a + |line| <= |event| {
      SliceOfRest(event, k, a, a + |line|);
    }
  }

  lemma FirstOrLater(event: string, line: string)
    requires Newline(event) < |event| && '\n' !in line
    ensures var n := Newline(event); HasLine(event, line) <==> line == event[..n] || HasLine(event[n + 1..], line)
  {
    var n := Newline(event);
    FirstEnds(event, line);
    if HasLine(event, line) {
      var a: nat :| LineAt(event, line, a);
      if a > 0 {
        LaterIsOfRest(event, line, a, n + 1);
      }
    }
    if HasLine(event[n + 1..], line) {
      LaterHas(event, line, n + 1);
    }
  }

  lemma LaterHas(event: string, line: string, k: nat)
    requires 0 < k <= |event| && event[k - 1] == '\n' && HasLine(event[k..], line)
    ensures HasLine(event, line)
  {
    var a: nat :| LineAt(event[k..], line, a);
    LaterIsOfRest(event, line, a + k, k);
  }

  /** Splitting at newlines gives these lines. */
  lemma {:induction false} SplitIsLines(event: string, line: string)
    ensures line in SplitLines(event) <==> HasLine(event, line)
    decreases |event|
  {
    var n := Newline(event);
    if n == |event| {
      OnlyLine(event, line);
    } else {
      SplitIsLines(event[n + 1..], line);
      if '\n' !in line { FirstOrLater(event, line); }
    }
  }

  lemma SaysIsTrimmed(event: string, line: string)
    ensures Says(event, line) <==> exists i :: 0 <= i < |SplitLines(event)| && TrimReturn(SplitLines(event)[i]) == line
  {
    var lines := SplitLines(event);
    SplitIsLines(event, line);
    SplitIsLines(event, line + "\r");
    if i :| 0 <= i < |lines| && TrimReturn(lines[i]) == line {
      assert lines[i] in lines && (lines[i] == line || lines[i] == line + "\r");
    }
    if HasLine(event, line + "\r") {
      var i :| 0 <= i < |lines| && lines[i] == line + "\r";
      assert TrimReturn(lines[i]) == line;
    }
    if HasLine(event, line) && (line == "" || line[|line| - 1] != '\r') {
      var i :| 0 <= i < |lines| && lines[i] == line;
      assert TrimReturn(lines[i]) == line;
    }
  }

  ghost predicate ResponsesSaid(line: string, typeOf: TypeOf) {
    || line == "event: response.completed" || line == "event: response.failed" || line == "event: response.incomplete"
    || exists payload :: line == "data:" + payload &&
         (typeOf(payload) == Some("response.completed") || typeOf(payload) == Some("response.failed") || typeOf(payload) == Some("response.incomplete"))
  }

  ghost predicate MessagesSaid(line: string, typeOf: TypeOf) {
    line == "event: message_stop" || exists payload :: line == "data:" + payload && typeOf(payload) == Some("message_stop")
  }

  /** The event is named, or its data typed, as one of the three that end a Responses stream. */
  ghost predicate EndsResponses(event: string, typeOf: TypeOf) {
    exists line: string :: Says(event, line) && ResponsesSaid(line, typeOf)
  }

  /** The event is named, or its data typed, message_stop. */
  ghost predicate EndsMessages(event: string, typeOf: TypeOf) {
    exists line: string :: Says(event, line) && MessagesSaid(line, typeOf)
  }

  /** A data line and what it says. */
  lemma DataLine(line: string, typeOf: TypeOf, types: set<string>)
    ensures DataOfType(line, typeOf, types) <==> exists payload :: line == "data:" + payload && typeOf(payload).Some? && typeOf(payload).value in types
  {
    if "data:" <= line {
      assert line == "data:" + line[5..];
    }
  }

  lemma TrimmedSays(event: string, i: nat)
    requires i < |SplitLines(event)|
    ensures Says(event, TrimReturn(SplitLines(event)[i]))
  {
    SaysIsTrimmed(event, TrimReturn(SplitLines(event)[i]));
  }

  lemma SaysTrimmed(event: string, line: string) returns (i: nat)
    requires Says(event, line)
    ensures i < |SplitLines(event)| && TrimReturn(SplitLines(event)[i]) == line
  {
    SaysIsTrimmed(event, line);
    i :| 0 <= i < |SplitLines(event)| && TrimReturn(SplitLines(event)[i]) == line;
  }

  /** For every event, whatever its lines: it ends a Responses stream exactly when it says so. */
  lemma ResponsesTerminalIff(event: string, typeOf: TypeOf)
    ensures ResponsesEventTerminal(typeOf)(event) <==> EndsResponses(event, typeOf)
  {
    var types := {"response.completed", "response.failed", "response.incomplete"};
    if ResponsesEventTerminal(typeOf)(event) {
      var i :| 0 <= i < |SplitLines(event)| && ResponsesTerminalLine(TrimReturn(SplitLines(event)[i]), typeOf);
      TrimmedSays(event, i);
      DataLine(TrimReturn(SplitLines(event)[i]), typeOf, types);
    }
    if EndsResponses(event, typeOf) {
      var line: string :| Says(event, line) && ResponsesSaid(line, typeOf);
      DataLine(line, typeOf, types);
      var i := SaysTrimmed(event, line);
    }
  }

  lemma MessagesTerminalIff(event: string, typeOf: TypeOf)
    ensures MessagesEventTerminal(typeOf)(event) <==> EndsMessages(event, typeOf)
  {
    if MessagesEventTerminal(typeOf)(event) {
      var i :| 0 <= i < |SplitLines(event)| && MessagesTerminalLine(TrimReturn(SplitLines(event)[i]), typeOf);
      TrimmedSays(event, i);
      DataLine(TrimReturn(SplitLines(event)[i]), typeOf, {"message_stop"});
    }
    if EndsMessages(event, typeOf) {
      var line: string :| Says(event, line) && MessagesSaid(line, typeOf);
      DataLine(line, typeOf, {"message_stop"});
      var i := SaysTrimmed(event, line);
    }
  }

  lemma TrimmedLines(lines: seq<string>, name: string, data: string, line: string)
    requires lines == [name] + ([data] + ["", ""]) && TrimReturn(name) == name && TrimReturn(data) == data
    ensures (exists i :: 0 <= i < |lines| && TrimReturn(lines[i]) == line) <==> line == name || line == data || line == ""
  {
    assert lines[0] == name && lines[1] == data && lines[2] == "" && lines[3] == "" && |lines| == 4;
  }

  /** The lines of an event with a name and data. */
  lemma NamedSays(name: string, data: string, line: string)
    requires Plain(name) && Plain(data) && name[|name| - 1] != '\r' && data[|data| - 1] != '\r'
    ensures Says(NamedEvent(name, data), line) <==> line == name || line == data || line == ""
  {
    NamedLines(name, data);
    SaysIsTrimmed(NamedEvent(name, data), line);
    TrimmedLines(SplitLines(NamedEvent(name, data)), name, data, line);
  }

  lemma NamedLines(name: string, data: string)
    requires Plain(name) && Plain(data)
    ensures SplitLines(NamedEvent(name, data)) == [name] + ([data] + ["", ""])
  {
    NamedEventHolds(name, data);
  }

  // ------------------------------------------------------------ whole streams

  /** The t-th event is the only one for which `ends` holds. */
  ghost predicate OnlyAt(events: seq<string>, ends: string -> bool, t: nat) {
    t < |events| && forall i :: 0 <= i < |events| ==> (ends(events[i]) <==> i == t)
  }

  /** The t-th event is the last that ends the stream. */
  ghost predicate LastAt(events: seq<string>, ends: string -> bool, t: nat) {
    t < |events| && ends(events[t]) && forall i :: t < i < |events| ==> !ends(events[i])
  }

  /** Of several events that end a stream the last is kept, and all others that do not end it stay. */
  lemma LastRelayed(events: seq<string>, isTerminal: string -> bool, incomplete: string, t: nat)
    requires LastAt(events, isTerminal, t)
    ensures Relay(events, isTerminal, incomplete) == Concat(Others(events[..t], isTerminal)) + Concat(events[t + 1..]) + events[t]
  {
    var front, back := events[..t], events[t + 1..];
    NoneTerminal(back, isTerminal);
    OthersSnoc(front, events[t], isTerminal);
    OthersJoin(front + [events[t]], back, isTerminal);
    LastOf(front + [events[t]], back, isTerminal);
    ConcatJoin(Others(front, isTerminal), back);
    assert Others(front, isTerminal) + [] == Others(front, isTerminal);
    assert front + [events[t]] + back == events;
  }

  lemma {:induction false} LastOf(front: seq<string>, back: seq<string>, isTerminal: string -> bool)
    requires forall i :: 0 <= i < |back| ==> !isTerminal(back[i])
    ensures LastTerminal(front + back, isTerminal) == LastTerminal(front, isTerminal)
    decreases |back|
  {
    if back == [] {
      assert front + back == front;
    } else {
      var n := |back| - 1;
      LastOf(front, back[..n], isTerminal);
      OthersSnoc(front + back[..n], back[n], isTerminal);
      assert front + back[..n] + [back[n]] == front + back;
    }
  }

  /** A stream with no line misread that is read to its end: of several events that end it the last is kept and
      comes last; with one the client gets every event once and that one last, the same text if it came last;
      with none it gets the text and then the part sent for an early end. */
  lemma RelayedOnce(text: string, isTerminal: string -> bool, incomplete: string, t: nat)
    requires !Misreads(text)
    ensures var events := LineEvents("", text);
            && (LastAt(events, isTerminal, t) ==> Copied(text, isTerminal, incomplete) == Concat(Others(events[..t], isTerminal)) + Concat(events[t + 1..]) + events[t])
            && (OnlyAt(events, isTerminal, t) ==> Copied(text, isTerminal, incomplete) == Concat(events[..t]) + Concat(events[t + 1..]) + events[t])
            && (OnlyAt(events, isTerminal, t) && t == |events| - 1 ==> Copied(text, isTerminal, incomplete) == text)
            && ((forall i :: 0 <= i < |events| ==> !isTerminal(events[i])) ==> Copied(text, isTerminal, incomplete) == text + incomplete)
  {
    var events := LineEvents("", text);
    EventsAgree("", text);
    EventsConcat("", text);
    assert "" + text == text;
    if LastAt(events, isTerminal, t) { LastRelayed(events, isTerminal, incomplete, t); }
    if OnlyAt(events, isTerminal, t) {
      NoneTerminal(events[..t], isTerminal);
      if t == |events| - 1 { RelayKeeps(events, isTerminal, incomplete); }
    }
    if forall i :: 0 <= i < |events| ==> !isTerminal(events[i]) {
      NoneTerminal(events, isTerminal);
    }
  }

  /** So a Responses stream that ends with its one completed, failed or incomplete event is relayed as it is,
      and only one without such an event is reported as failed. */
  lemma ResponsesRelayed(text: string, typeOf: TypeOf, t: nat)
    requires !Misreads(text)
    ensures var events, out := LineEvents("", text), Copied(text, ResponsesEventTerminal(typeOf), ResponsesIncomplete());
            && (OnlyAt(events, e => EndsResponses(e, typeOf), t) ==>
                 && out == Concat(events[..t]) + Concat(events[t + 1..]) + events[t]
                 && (t == |events| - 1 ==> out == text))
            && ((forall i :: 0 <= i < |events| ==> !EndsResponses(events[i], typeOf)) ==> out == text + ResponsesIncomplete())
  {
    var events := LineEvents("", text);
    forall i | 0 <= i < |events|
      ensures ResponsesEventTerminal(typeOf)(events[i]) <==> EndsResponses(events[i], typeOf)
    {
      ResponsesTerminalIff(events[i], typeOf);
    }
    RelayedOnce(text, ResponsesEventTerminal(typeOf), ResponsesIncomplete(), t);
  }

  /** The same for a Messages stream and its message_stop. */
  lemma MessagesRelayed(text: string, typeOf: TypeOf, t: nat)
    requires !Misreads(text)
    ensures var events, out := LineEvents("", text), Copied(text, MessagesEventTerminal(typeOf), MessagesIncomplete());
            && (OnlyAt(events, e => EndsMessages(e, typeOf), t) ==>
                 && out == Concat(events[..t]) + Concat(events[t + 1..]) + events[t]
                 && (t == |events| - 1 ==> out == text))
            && ((forall i :: 0 <= i < |events| ==> !EndsMessages(events[i], typeOf)) ==> out == text + MessagesIncomplete())
  {
    var events := LineEvents("", text);
    forall i | 0 <= i < |events|
      ensures MessagesEventTerminal(typeOf)(events[i]) <==> EndsMessages(events[i], typeOf)
    {
      MessagesTerminalIff(events[i], typeOf);
    }
    RelayedOnce(text, MessagesEventTerminal(typeOf), MessagesIncomplete(), t);
  }
}
