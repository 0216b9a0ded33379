/**
 What the relay of SseRelay does to whole streams: relaying its output again changes nothing, the two
 streams it serves (internal/ingress/responses_stream.go), and where it differs from its simple form.
 */
module SseEvents {
  import opened Prelude
  import opened SseRelay

  /** What a client receives over an undisturbed connection, as the relay forms events. */
  function Copied(text: string, isTerminal: string -> bool, incomplete: string): string {
    Relay(FragmentEvents("", text), isTerminal, incomplete)
  }

  /** The same with the events the lines say. */
  function Simple(text: string, isTerminal: string -> bool, incomplete: string): string {
    Relay(LineEvents("", text), isTerminal, incomplete)
  }

  /** One event and nothing more: only its last line is blank. */
  predicate OneEvent(event: string)
    decreases |event|
  {
    event != "" && if IsBlank(FirstLine(event)) then AfterLine(event) == "" else OneEvent(AfterLine(event))
  }

  predicate WellFramed(text: string) {
    forall i :: 0 <= i < |LineEvents("", text)| ==> OneEvent(LineEvents("", text)[i])
  }

  /** No line is misread. */
  predicate AllRead(text: string)
    decreases |text|
  {
    text == "" || (!Misread(FirstLine(text)) && AllRead(AfterLine(text)))
  }

  lemma {:induction false} AllReadMeans(text: string)
    requires AllRead(text)
    ensures !Misreads(text)
    decreases |text|
  {
    if text != "" {
      AllReadMeans(AfterLine(text));
    }
  }

  /** A newline keeps the first line of a text apart from what follows the text. */
  lemma FirstLineStays(text: string, more: string)
    requires text != "" && text[|text| - 1] == '\n'
    ensures FirstLine(text + more) == FirstLine(text) && AfterLine(text + more) == AfterLine(text) + more
    ensures AfterLine(text) != "" ==> AfterLine(text)[|AfterLine(text)| - 1] == '\n'
  {
    var line := FirstLine(text);
    var whole := text + more;
    assert line[|line| - 1] == '\n';
    assert whole[..|line| - 1] == line[..|line| - 1] && whole[|line| - 1] == '\n';
    SameNewline(whole, |line| - 1, true);
    assert whole[..|line|] == line;
    assert whole[|line|..] == text[|line|..] + more;
  }

  lemma {:induction false} OneEventEnds(event: string)
    requires OneEvent(event)
    ensures event[|event| - 1] == '\n'
    decreases |event|
  {
    if !IsBlank(FirstLine(event)) {
      OneEventEnds(AfterLine(event));
    }
  }

  /** An event at the front of a text is the first of its events. */
  lemma {:induction false} EventStays(begun: string, event: string, more: string)
    requires OneEvent(event)
    ensures LineEvents(begun, event + more) == [begun + event] + LineEvents("", more)
    decreases |event|
  {
    OneEventEnds(event);
    FirstLineStays(event, more);
    if IsBlank(FirstLine(event)) {
      assert event == FirstLine(event) && AfterLine(event + more) == more;
    } else {
      EventStays(begun + FirstLine(event), AfterLine(event), more);
      assert (begun + FirstLine(event)) + AfterLine(event) == begun + event;
    }
  }

  lemma EventThen(event: string, more: string)
    requires OneEvent(event)
    ensures LineEvents("", event + more) == [event] + LineEvents("", more)
  {
    EventStays("", event, more);
    assert "" + event == event;
  }

  predicate AllEvents(events: seq<string>) {
    forall i :: 0 <= i < |events| ==> OneEvent(events[i])
  }

  /** Events written one after another are read back as they were. */
  lemma {:induction false} ConcatEvents(events: seq<string>)
    requires AllEvents(events)
    ensures LineEvents("", Concat(events)) == events
  {
    if events != [] {
      ConcatEvents(events[1..]);
      EventStays("", events[0], Concat(events[1..]));
      assert "" + events[0] == events[0];
    }
  }

  lemma {:induction false} ReadTogether(text: string, more: string)
    requires text == "" || text[|text| - 1] == '\n'
    ensures AllRead(text + more) <==> AllRead(text) && AllRead(more)
    decreases |text|
  {
    if text == "" {
      assert text + more == more;
    } else {
      FirstLineStays(text, more);
      ReadTogether(AfterLine(text), more);
    }
  }

  lemma {:induction false} ReadEach(events: seq<string>)
    requires AllEvents(events)
    ensures AllRead(Concat(events)) <==> forall i :: 0 <= i < |events| ==> AllRead(events[i])
  {
    if events != [] {
      OneEventEnds(events[0]);
      ReadTogether(events[0], Concat(events[1..]));
      ReadEach(events[1..]);
    }
  }

  lemma ConcatCons(event: string, events: seq<string>)
    ensures Concat([event] + events) == event + Concat(events)
  {
    assert ([event] + events)[1..] == events;
  }

  lemma ConcatOne(event: string)
    ensures Concat([event]) == event
  {
    assert [event][1..] == [];
  }

  /** The events of a text hold all of it. */
  lemma {:induction false} EventsConcat(begun: string, text: string)
    ensures Concat(LineEvents(begun, text)) == begun + text
    decreases |text|
  {
    if text == "" {
      ConcatOne(begun);
    } else {
      var line, after := FirstLine(text), AfterLine(text);
      assert (begun + line) + after == begun + text;
      if IsBlank(line) {
        EventsConcat("", after);
        ConcatCons(begun + line, LineEvents("", after));
        assert "" + after == after;
      } else {
        EventsConcat(begun + line, after);
      }
    }
  }

  /** What a stream with one terminal event, its last, looks like. */
  predicate EndsOnce(events: seq<string>, isTerminal: string -> bool) {
    |events| > 0 && isTerminal(events[|events| - 1]) && forall i :: 0 <= i < |events| - 1 ==> !isTerminal(events[i])
  }

  lemma {:induction false} NoneTerminal(events: seq<string>, isTerminal: string -> bool)
    requires forall i :: 0 <= i < |events| ==> !isTerminal(events[i])
    ensures Others(events, isTerminal) == events && LastTerminal(events, isTerminal).None?
  {
    if events != [] {
      NoneTerminal(events[1..], isTerminal);
    }
  }

  lemma EndingKept(front: seq<string>, last: string, isTerminal: string -> bool)
    requires isTerminal(last) && forall i :: 0 <= i < |front| ==> !isTerminal(front[i])
    ensures Others(front + [last], isTerminal) == front && LastTerminal(front + [last], isTerminal) == Some(last)
  {
    NoneTerminal(front, isTerminal);
    OthersSnoc(front, last, isTerminal);
  }

  lemma RelayKeeps(events: seq<string>, isTerminal: string -> bool, incomplete: string)
    requires EndsOnce(events, isTerminal)
    ensures Relay(events, isTerminal, incomplete) == Concat(events)
  {
    var front, last := events[..|events| - 1], events[|events| - 1];
    EndingKept(front, last, isTerminal);
    ConcatJoin(front, [last]);
    ConcatOne(last);
    assert events == front + [last];
  }

  lemma {:induction false} OthersAreEvents(events: seq<string>, isTerminal: string -> bool)
    ensures forall e :: e in Others(events, isTerminal) ==> e in events && !isTerminal(e)
    ensures LastTerminal(events, isTerminal).Some? ==> LastTerminal(events, isTerminal).value in events && isTerminal(LastTerminal(events, isTerminal).value)
  {
    if events != [] {
      OthersAreEvents(events[1..], isTerminal);
    }
  }

  /** The terminal part of a stream, as events. */
  function Tail(events: seq<string>, isTerminal: string -> bool, incomplete: string): seq<string> {
    match LastTerminal(events, isTerminal) case Some(t) => [t] case None => LineEvents("", incomplete)
  }

  /** The events of the relay's output. */
  function OutputEvents(events: seq<string>, isTerminal: string -> bool, incomplete: string): seq<string> {
    Others(events, isTerminal) + Tail(events, isTerminal, incomplete)
  }

  lemma OutputText(events: seq<string>, isTerminal: string -> bool, incomplete: string)
    ensures Relay(events, isTerminal, incomplete) == Concat(OutputEvents(events, isTerminal, incomplete))
  {
    ConcatJoin(Others(events, isTerminal), Tail(events, isTerminal, incomplete));
    EventsConcat("", incomplete);
    assert "" + incomplete == incomplete;
    if LastTerminal(events, isTerminal).Some? {
      ConcatOne(LastTerminal(events, isTerminal).value);
    }
  }

  /** Each event of the output is one of the stream's or of the incomplete part; only the last is terminal. */
  lemma OutputShape(events: seq<string>, isTerminal: string -> bool, incomplete: string)
    requires EndsOnce(LineEvents("", incomplete), isTerminal)
    ensures EndsOnce(OutputEvents(events, isTerminal, incomplete), isTerminal)
    ensures forall e :: e in OutputEvents(events, isTerminal, incomplete) ==> e in events || e in LineEvents("", incomplete)
  {
    var others, tail := Others(events, isTerminal), Tail(events, isTerminal, incomplete);
    OthersAreEvents(events, isTerminal);
    var all := OutputEvents(events, isTerminal, incomplete);
    forall i | 0 <= i < |all| - 1
      ensures !isTerminal(all[i])
    {
      if i < |others| { assert all[i] in others; } else { assert all[i] == tail[i - |others|]; }
    }
    assert all[|all| - 1] == tail[|tail| - 1];
  }

  lemma OutputFramed(events: seq<string>, isTerminal: string -> bool, incomplete: string)
    requires AllEvents(events) && AllEvents(LineEvents("", incomplete)) && EndsOnce(LineEvents("", incomplete), isTerminal)
    requires forall e :: e in events || e in LineEvents("", incomplete) ==> AllRead(e)
    ensures var all := OutputEvents(events, isTerminal, incomplete); AllEvents(all) && AllRead(Concat(all))
  {
    var all := OutputEvents(events, isTerminal, incomplete);
    OutputShape(events, isTerminal, incomplete);
    forall i | 0 <= i < |all|
      ensures OneEvent(all[i]) && AllRead(all[i])
    {
      assert all[i] in all;
    }
    ReadEach(all);
  }

  lemma EachRead(text: string)
    requires WellFramed(text) && AllRead(text)
    ensures forall e :: e in LineEvents("", text) ==> AllRead(e)
  {
    EventsConcat("", text);
    assert "" + text == text;
    ReadEach(LineEvents("", text));
  }

  /** Events with only the last terminal pass through the relay unchanged. */
  lemma CopiedAgain(all: seq<string>, isTerminal: string -> bool, incomplete: string)
    requires AllEvents(all) && AllRead(Concat(all)) && EndsOnce(all, isTerminal)
    ensures Copied(Concat(all), isTerminal, incomplete) == Concat(all) && LineEvents("", Concat(all)) == all
  {
    ConcatEvents(all);
    AllReadMeans(Concat(all));
    EventsAgree("", Concat(all));
    RelayKeeps(all, isTerminal, incomplete);
  }

  /** On well-framed streams the relay's output is the other events in order and one terminal part,
      read back as exactly those events, and relaying it again changes nothing. */
  lemma RelayIsIdempotent(text: string, isTerminal: string -> bool, incomplete: string)
    requires WellFramed(text) && AllRead(text)
    requires WellFramed(incomplete) && AllRead(incomplete) && EndsOnce(LineEvents("", incomplete), isTerminal)
    ensures var out := Copied(text, isTerminal, incomplete);
            && out == Simple(text, isTerminal, incomplete)
            && LineEvents("", out) == OutputEvents(LineEvents("", text), isTerminal, incomplete)
            && EndsOnce(LineEvents("", out), isTerminal)
            && Copied(out, isTerminal, incomplete) == out
  {
    var events := LineEvents("", text);
    AllReadMeans(text);
    EventsAgree("", text);
    EachRead(text);
    EachRead(incomplete);
    OutputText(events, isTerminal, incomplete);
    OutputShape(events, isTerminal, incomplete);
    OutputFramed(events, isTerminal, incomplete);
    CopiedAgain(OutputEvents(events, isTerminal, incomplete), isTerminal, incomplete);
  }
}
