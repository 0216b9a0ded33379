/**
 The two streams the relay of SseRelay serves (internal/ingress/responses_stream.go), and a stream it
 changes because of a long line.
 */
module SseStreams {
  import opened Prelude
  import opened SseRelay
  import opened SseEvents

  /** bytes.Split(event, "\n"). */
  function SplitLines(event: string): (lines: seq<string>)
    ensures |lines| > 0
    decreases |event|
  {
    var n := Newline(event);
    if n == |event| then [event] else [event[..n]] + SplitLines(event[n + 1..])
  }

  function TrimReturn(line: string): string {
    if line != "" && line[|line| - 1] == '\r' then line[..|line| - 1] else line
  }

  /** What the "type" of a line's JSON data is, None when the data does not parse. */
  type TypeOf = string -> Option<string>

  predicate DataOfType(line: string, typeOf: TypeOf, types: set<string>) {
    "data:" <= line && typeOf(line[5..]).Some? && typeOf(line[5..]).value in types
  }

  predicate ResponsesTerminalLine(line: string, typeOf: TypeOf) {
    || line == "event: response.completed" || line == "event: response.failed" || line == "event: response.incomplete"
    || DataOfType(line, typeOf, {"response.completed", "response.failed", "response.incomplete"})
  }

  predicate MessagesTerminalLine(line: string, typeOf: TypeOf) {
    line == "event: message_stop" || DataOfType(line, typeOf, {"message_stop"})
  }

  function ResponsesEventTerminal(typeOf: TypeOf): string -> bool {
    event => exists i :: 0 <= i < |SplitLines(event)| && ResponsesTerminalLine(TrimReturn(SplitLines(event)[i]), typeOf)
  }

  function MessagesEventTerminal(typeOf: TypeOf): string -> bool {
    event => exists i :: 0 <= i < |SplitLines(event)| && MessagesTerminalLine(TrimReturn(SplitLines(event)[i]), typeOf)
  }

  const FAILED_NAME := "event: response.failed"
  const FAILED_TYPE := "data: {\"type\":\"response.failed\",\"sequ"
  const FAILED_STATUS := "ence_number\":0,\"response\":{\"status\":\"f"
  const FAILED_CODE := "ailed\",\"error\":{\"code\":\"upstream_incomp"
  const FAILED_MESSAGE := "lete\",\"message\":\"upstream stream ended"
  const FAILED_END := " without a terminal event\"}}}"
  const FAILED_DATA := FAILED_TYPE + FAILED_STATUS + FAILED_CODE + FAILED_MESSAGE + FAILED_END
  const ERROR_NAME := "event: error"
  const ERROR_TYPE := "data: {\"type\":\"error\",\"error\":{\"type\":"
  const ERROR_CODE := "\"api_error\",\"message\":\"upstream strea"
  const ERROR_END := "m ended before message_stop\"}}"
  const ERROR_DATA := ERROR_TYPE + ERROR_CODE + ERROR_END
  const STOP_NAME := "event: message_stop"
  const STOP_DATA := "data: {\"type\":\"message_stop\"}"

  function Before(line: string, event: string): string { line + "\n" + event }

  /** A name line, a data line and the blank line that ends the event. */
  function NamedEvent(name: string, data: string): string {
    Before(name, Before(data, "\n"))
  }

  /** responsesIncompleteEvent, one event. */
  function ResponsesIncomplete(): string { NamedEvent(FAILED_NAME, FAILED_DATA) }

  /** messagesIncompleteEvent, an error event and then the terminal one. */
  function MessagesIncomplete(): string { NamedEvent(ERROR_NAME, ERROR_DATA) + NamedEvent(STOP_NAME, STOP_DATA) }

  predicate Plain(line: string) { line != "" && line != "\r" && |line| < BUFFER && '\n' !in line }

  lemma LineThen(line: string, rest: string)
    requires '\n' !in line
    ensures FirstLine(line + "\n" + rest) == line + "\n" && AfterLine(line + "\n" + rest) == rest
    ensures SplitLines(line + "\n" + rest) == [line] + SplitLines(rest)
  {
    var text := line + "\n" + rest;
    assert text[..|line|] == line;
    SameNewline(text, |line|, true);
    assert text[..|line| + 1] == line + "\n" && text[|line| + 1..] == rest;
  }

  lemma LastTwo()
    ensures SplitLines("\n") == ["", ""] && FirstLine("\n") == "\n" && AfterLine("\n") == ""
  {
    LineThen("", "");
    assert "" + "\n" + "" == "\n";
    assert SplitLines("") == [""];
  }

  lemma LineIsNotBlank(line: string)
    requires Plain(line)
    ensures !IsBlank(line + "\n") && !Misread(line + "\n")
  {
    assert (line + "\n")[..|line|] == line;
    assert "\r\n"[..1] == "\r" && "\n"[..0] == "";
  }

  /** An event with the lines that make it. */
  ghost predicate Event(event: string, lines: seq<string>) {
    OneEvent(event) && AllRead(event) && SplitLines(event) == lines
  }

  /** A line before an event makes a longer event. */
  lemma LineBefore(line: string, event: string, lines: seq<string>)
    requires Plain(line) && Event(event, lines)
    ensures Event(Before(line, event), [line] + lines)
  {
    LineIsNotBlank(line);
    LineThen(line, event);
  }

  lemma LastEvent()
    ensures Event("\n", ["", ""])
  {
    LastTwo();
  }

  lemma NamedEventHolds(name: string, data: string)
    requires Plain(name) && Plain(data)
    ensures Event(NamedEvent(name, data), [name] + ([data] + ["", ""]))
  {
    LastEvent();
    LineBefore(data, "\n", ["", ""]);
    LineBefore(name, Before(data, "\n"), [data] + ["", ""]);
  }

  lemma FailedIsPlain()
    ensures Plain(FAILED_DATA)
  {
    forall i | 0 <= i < |FAILED_TYPE| ensures FAILED_TYPE[i] != '\n' {}
    forall i | 0 <= i < |FAILED_STATUS| ensures FAILED_STATUS[i] != '\n' {}
    forall i | 0 <= i < |FAILED_CODE| ensures FAILED_CODE[i] != '\n' {}
    forall i | 0 <= i < |FAILED_MESSAGE| ensures FAILED_MESSAGE[i] != '\n' {}
    forall i | 0 <= i < |FAILED_END| ensures FAILED_END[i] != '\n' {}
  }

  lemma ErrorIsPlain()
    ensures Plain(ERROR_DATA)
  {
    forall i | 0 <= i < |ERROR_TYPE| ensures ERROR_TYPE[i] != '\n' {}
    forall i | 0 <= i < |ERROR_CODE| ensures ERROR_CODE[i] != '\n' {}
    forall i | 0 <= i < |ERROR_END| ensures ERROR_END[i] != '\n' {}
  }

  lemma ShortArePlain()
    ensures Plain(FAILED_NAME) && Plain(ERROR_NAME) && Plain(STOP_NAME) && Plain(STOP_DATA)
  {
    forall i | 0 <= i < |FAILED_NAME| ensures FAILED_NAME[i] != '\n' {}
    forall i | 0 <= i < |ERROR_NAME| ensures ERROR_NAME[i] != '\n' {}
    forall i | 0 <= i < |STOP_NAME| ensures STOP_NAME[i] != '\n' {}
    forall i | 0 <= i < |STOP_DATA| ensures STOP_DATA[i] != '\n' {}
  }

  lemma LinesOfOne(event: string)
    requires OneEvent(event)
    ensures LineEvents("", event) == [event]
  {
    EventStays("", event, "");
    assert event + "" == event && "" + event == event;
  }

  lemma TwoEvents(first: string, second: string)
    requires OneEvent(first) && OneEvent(second) && AllRead(first) && AllRead(second)
    ensures LineEvents("", first + second) == [first, second] && AllRead(first + second)
  {
    TwoEventLines(first, second);
    OneEventEnds(first);
    ReadTogether(first, second);
  }

  lemma TwoEventLines(first: string, second: string)
    requires OneEvent(first) && OneEvent(second)
    ensures LineEvents("", first + second) == [first, second]
  {
    EventThen(first, second);
    LinesOfOne(second);
  }

  /** An event is terminal when its name says so, and only if its name or data does. */
  lemma NamedTerminal(name: string, data: string, typeOf: TypeOf)
    requires Plain(name) && Plain(data)
    ensures ResponsesTerminalLine(TrimReturn(name), typeOf) ==> ResponsesEventTerminal(typeOf)(NamedEvent(name, data))
    ensures MessagesEventTerminal(typeOf)(NamedEvent(name, data)) <==>
            MessagesTerminalLine(TrimReturn(name), typeOf) || MessagesTerminalLine(TrimReturn(data), typeOf)
  {
    NamedEventHolds(name, data);
    var event := NamedEvent(name, data);
    var lines := SplitLines(event);
    assert |lines| == 4 && lines[0] == name && lines[1] == data && lines[2] == "" && lines[3] == "";
    assert !MessagesTerminalLine("", typeOf) && TrimReturn("") == "";
  }

  lemma ErrorIsNotTerminal(typeOf: TypeOf)
    requires typeOf(ERROR_DATA[5..]) == Some("error")
    ensures !MessagesTerminalLine(TrimReturn(ERROR_NAME), typeOf)
    ensures !MessagesTerminalLine(TrimReturn(ERROR_DATA), typeOf)
  {
    assert |"error"| != |"message_stop"|;
    assert ERROR_NAME[0] == 'e' && |ERROR_NAME| != |STOP_NAME| && ERROR_DATA[0] == 'd';
    assert ERROR_NAME[|ERROR_NAME| - 1] == 'r' && ERROR_DATA[|ERROR_DATA| - 1] == '}';
  }

  lemma StopIsTerminal(typeOf: TypeOf)
    ensures MessagesTerminalLine(TrimReturn(STOP_NAME), typeOf)
  {
    assert STOP_NAME[|STOP_NAME| - 1] == 'p';
  }

  lemma FailedIsTerminal(typeOf: TypeOf)
    ensures ResponsesTerminalLine(TrimReturn(FAILED_NAME), typeOf)
  {
    assert FAILED_NAME[|FAILED_NAME| - 1] == 'd';
  }

  /** A terminal event, alone or after one that is not terminal, is a whole incomplete part. */
  lemma OneEnds(event: string, isTerminal: string -> bool)
    requires OneEvent(event) && isTerminal(event)
    ensures WellFramed(event) && EndsOnce(LineEvents("", event), isTerminal)
  {
    LinesOfOne(event);
  }

  lemma TwoEnd(first: string, second: string, isTerminal: string -> bool)
    requires OneEvent(first) && OneEvent(second) && AllRead(first) && AllRead(second)
    requires !isTerminal(first) && isTerminal(second)
    ensures WellFramed(first + second) && AllRead(first + second) && EndsOnce(LineEvents("", first + second), isTerminal)
  {
    TwoEvents(first, second);
    TwoFramed(first + second, first, second, isTerminal);
  }

  lemma TwoFramed(text: string, first: string, second: string, isTerminal: string -> bool)
    requires LineEvents("", text) == [first, second] && OneEvent(first) && OneEvent(second) && !isTerminal(first) && isTerminal(second)
    ensures WellFramed(text) && EndsOnce(LineEvents("", text), isTerminal)
  {
  }

  /** The part sent when a Responses stream ends early is one terminal event. */
  lemma ResponsesIncompleteEnds(typeOf: TypeOf)
    ensures WellFramed(ResponsesIncomplete()) && AllRead(ResponsesIncomplete())
    ensures EndsOnce(LineEvents("", ResponsesIncomplete()), ResponsesEventTerminal(typeOf))
  {
    FailedIsPlain();
    ShortArePlain();
    NamedEventHolds(FAILED_NAME, FAILED_DATA);
    FailedIsTerminal(typeOf);
    NamedTerminal(FAILED_NAME, FAILED_DATA, typeOf);
    OneEnds(ResponsesIncomplete(), ResponsesEventTerminal(typeOf));
  }

  /** The part sent when a Messages stream ends early is an error event, then the terminal one. */
  lemma MessagesIncompleteEnds(typeOf: TypeOf)
    requires typeOf(ERROR_DATA[5..]) == Some("error")
    ensures WellFramed(MessagesIncomplete()) && AllRead(MessagesIncomplete())
    ensures EndsOnce(LineEvents("", MessagesIncomplete()), MessagesEventTerminal(typeOf))
  {
    ErrorIsPlain();
    ShortArePlain();
    NamedEventHolds(ERROR_NAME, ERROR_DATA);
    NamedEventHolds(STOP_NAME, STOP_DATA);
    ErrorIsNotTerminal(typeOf);
    StopIsTerminal(typeOf);
    NamedTerminal(ERROR_NAME, ERROR_DATA, typeOf);
    NamedTerminal(STOP_NAME, STOP_DATA, typeOf);
    TwoEnd(NamedEvent(ERROR_NAME, ERROR_DATA), NamedEvent(STOP_NAME, STOP_DATA), MessagesEventTerminal(typeOf));
  }

  /** Both streams can be relayed again without change. */
  lemma StreamsAreIdempotent(text: string, typeOf: TypeOf)
    requires WellFramed(text) && AllRead(text) && typeOf(ERROR_DATA[5..]) == Some("error")
    ensures var out := Copied(text, ResponsesEventTerminal(typeOf), ResponsesIncomplete());
            Copied(out, ResponsesEventTerminal(typeOf), ResponsesIncomplete()) == out
    ensures var out := Copied(text, MessagesEventTerminal(typeOf), MessagesIncomplete());
            Copied(out, MessagesEventTerminal(typeOf), MessagesIncomplete()) == out
  {
    ResponsesIncompleteEnds(typeOf);
    RelayIsIdempotent(text, ResponsesEventTerminal(typeOf), ResponsesIncomplete());
    MessagesIncompleteEnds(typeOf);
    RelayIsIdempotent(text, MessagesEventTerminal(typeOf), MessagesIncomplete());
  }

  // ------------------------------------------------------------ a long line

  lemma BlankLine(begun: string)
    ensures FragmentEvents(begun, "\n") == [begun + "\n"] && LineEvents(begun, "\n") == [begun + "\n"]
  {
    LastTwo();
    FragmentsOfLine(begun, "\n");
    MisreadLooksBlank("\n");
  }

  lemma MisreadLine(begun: string, line: string)
    requires Misread(line) && '\n' !in line[..|line| - 1]
    ensures FragmentEvents(begun, line + "\n") == [begun + line] + FragmentEvents("", "\n")
    ensures LineEvents(begun, line + "\n") == LineEvents(begun + line, "\n")
  {
    SameNewline(line, |line| - 1, true);
    FirstLineStays(line, "\n");
    FragmentsOfLine(begun, line + "\n");
    MisreadLooksBlank(line);
  }

  lemma AfterName(name: string, rest: string)
    requires Plain(name)
    ensures FragmentEvents("", name + "\n" + rest) == FragmentEvents(name + "\n", rest)
    ensures LineEvents("", name + "\n" + rest) == LineEvents(name + "\n", rest)
  {
    LineThen(name, rest);
    LineIsNotBlank(name);
    FragmentsOfLine("", name + "\n" + rest);
    MisreadLooksBlank(name + "\n");
    assert "" + (name + "\n") == name + "\n";
  }

  /** A line whose last fragment looks blank splits the event that holds it: the blank line that
      should end the event is sent ahead of it, and the terminal event arrives without its end. */
  lemma LongLineLosesTheEnd(name: string, line: string, isTerminal: string -> bool, incomplete: string)
    requires Plain(name) && Misread(line) && '\n' !in line[..|line| - 1]
    requires isTerminal(name + "\n" + line) && isTerminal(name + "\n" + line + "\n") && !isTerminal("\n")
    ensures var text := name + "\n" + (line + "\n");
            && Simple(text, isTerminal, incomplete) == name + "\n" + line + "\n"
            && Copied(text, isTerminal, incomplete) == "\n" + (name + "\n" + line)
  {
    LongLineWhole(name, line, isTerminal, incomplete);
    LongLineCut(name, line, isTerminal, incomplete);
  }

  lemma LongLineWhole(name: string, line: string, isTerminal: string -> bool, incomplete: string)
    requires Plain(name) && Misread(line) && '\n' !in line[..|line| - 1] && isTerminal(name + "\n" + line + "\n")
    ensures Simple(name + "\n" + (line + "\n"), isTerminal, incomplete) == name + "\n" + line + "\n"
  {
    var whole := name + "\n" + line + "\n";
    AfterName(name, line + "\n");
    MisreadLine(name + "\n", line);
    BlankLine(name + "\n" + line);
    TerminalAlone(whole, isTerminal);
    assert "" + whole == whole;
  }

  lemma LongLineCut(name: string, line: string, isTerminal: string -> bool, incomplete: string)
    requires Plain(name) && Misread(line) && '\n' !in line[..|line| - 1] && isTerminal(name + "\n" + line) && !isTerminal("\n")
    ensures Copied(name + "\n" + (line + "\n"), isTerminal, incomplete) == "\n" + (name + "\n" + line)
  {
    var cut := name + "\n" + line;
    AfterName(name, line + "\n");
    MisreadLine(name + "\n", line);
    BlankLine("");
    assert "" + "\n" == "\n";
    TerminalThenOther(cut, "\n", isTerminal);
  }

  lemma TerminalAlone(terminal: string, isTerminal: string -> bool)
    requires isTerminal(terminal)
    ensures Passed([terminal], isTerminal) == "" && LastTerminal([terminal], isTerminal) == Some(terminal)
  {
    EndingKept([], terminal, isTerminal);
    assert [] + [terminal] == [terminal];
  }

  lemma TerminalThenOther(terminal: string, other: string, isTerminal: string -> bool)
    requires isTerminal(terminal) && !isTerminal(other)
    ensures Passed([terminal, other], isTerminal) == other && LastTerminal([terminal, other], isTerminal) == Some(terminal)
  {
    NoneTerminal([other], isTerminal);
    TerminalAlone(terminal, isTerminal);
    OthersJoin([terminal], [other], isTerminal);
    PassedJoin([terminal], [other], isTerminal);
    assert [terminal, other] == [terminal] + [other];
    ConcatOne(other);
  }

  lemma StopFirst(rest: string, typeOf: TypeOf)
    ensures MessagesEventTerminal(typeOf)(STOP_NAME + "\n" + rest)
  {
    ShortArePlain();
    LineThen(STOP_NAME, rest);
    StopIsTerminal(typeOf);
    assert SplitLines(STOP_NAME + "\n" + rest)[0] == STOP_NAME;
  }

  /** Such a stream of the Messages family, for every misread line. */
  lemma LongLineInMessages(line: string, typeOf: TypeOf)
    requires Misread(line) && '\n' !in line[..|line| - 1]
    ensures var text := STOP_NAME + "\n" + (line + "\n");
            Copied(text, MessagesEventTerminal(typeOf), MessagesIncomplete()) == "\n" + (STOP_NAME + "\n" + line)
  {
    ShortArePlain();
    StopFirst(line, typeOf);
    StopFirst(line + "\n", typeOf);
    assert STOP_NAME + "\n" + (line + "\n") == STOP_NAME + "\n" + line + "\n";
    LastTwo();
    assert !MessagesEventTerminal(typeOf)("\n");
    LongLineLosesTheEnd(STOP_NAME, line, MessagesEventTerminal(typeOf), MessagesIncomplete());
  }
}
