/**
 When the relay of copyTerminalSSE (internal/ingress/ingress.go) writes what the lines say, whatever
 counts as terminal, and when a client reads back the events it wrote.
 */
module SseOutputs {
  import opened Prelude
  import opened SseRelay
  import opened SseEvents

  lemma {:induction false} LineEventsKeepAll(begun: string, text: string)
    ensures |Concat(LineEvents(begun, text))| == |begun| + |text|
    decreases |text|
  {
    if text == "" {
      assert begun != "" ==> Concat([begun]) == begun + Concat([]);
    } else {
      LineEventsKeepAll(if IsBlank(FirstLine(text)) then "" else begun + FirstLine(text), AfterLine(text));
    }
  }

  lemma {:induction false} FragmentEventsKeepAll(begun: string, text: string)
    ensures |Concat(FragmentEvents(begun, text))| == |begun| + |text|
    decreases |text|
  {
    if text == "" {
      assert begun != "" ==> Concat([begun]) == begun + Concat([]);
    } else {
      var (k, err) := ReadSlice(text);
      FragmentEventsKeepAll(if err != BufferFull && IsBlank(text[..k]) then "" else begun + text[..k], text[k..]);
    }
  }

  /** What an event has before the next line does not change how many events there are. */
  lemma {:induction false} CountIgnoresBegun(begun: string, other: string, text: string)
    requires text != ""
    ensures |LineEvents(begun, text)| == |LineEvents(other, text)|
    decreases |text|
  {
    if !IsBlank(FirstLine(text)) && AfterLine(text) != "" {
      CountIgnoresBegun(begun + FirstLine(text), other + FirstLine(text), AfterLine(text));
    }
  }

  /** The relay forms at least the events the lines say, and more when it misreads a line before the last. */
  lemma {:induction false} MoreEvents(begun: string, text: string)
    ensures |FragmentEvents(begun, text)| >= |LineEvents(begun, text)| + if Misreads(text) then 1 else 0
    decreases |text|
  {
    if text != "" {
      var line, after := FirstLine(text), AfterLine(text);
      FragmentsOfLine(begun, text);
      MisreadLooksBlank(line);
      if !IsBlank(line) && !Misread(line) {
        MoreEvents(begun + line, after);
      } else {
        MoreEvents("", after);
        if !IsBlank(line) && after != "" {
          CountIgnoresBegun(begun + line, "", after);
        }
      }
    }
  }

  function Only(x: string): string -> bool { e => e == x }

  function Times(events: seq<string>, x: string): nat {
    if events == [] then 0 else (if events[0] == x then 1 else 0) + Times(events[1..], x)
  }

  function Lengths(n: nat, l: nat): nat { if n == 0 then 0 else l + Lengths(n - 1, l) }

  lemma {:induction false} LengthsGrow(m: nat, n: nat, l: nat)
    requires m < n
    ensures Lengths(m, l) + l <= Lengths(n, l)
  {
    if m < n - 1 {
      LengthsGrow(m, n - 1, l);
    }
  }

  /** With one event terminal, its occurrences leave the others and it is the last terminal one. */
  lemma {:induction false} OthersThanOne(events: seq<string>, x: string)
    ensures |Concat(events)| == |Concat(Others(events, Only(x)))| + Lengths(Times(events, x), |x|)
    ensures LastTerminal(events, Only(x)) == if Times(events, x) > 0 then Some(x) else None
  {
    if events != [] {
      OthersThanOne(events[1..], x);
      if events[0] == x {
        assert Others(events, Only(x)) == Others(events[1..], Only(x));
      } else {
        assert Others(events, Only(x)) == [events[0]] + Others(events[1..], Only(x));
      }
    }
  }

  /** Two splittings of equally long texts that hold an event a different number of times are told apart. */
  lemma ToldApart(a: seq<string>, b: seq<string>, x: string)
    requires |Concat(a)| == |Concat(b)| && x != "" && Times(a, x) < Times(b, x)
    ensures Relay(a, Only(x), "?") != Relay(b, Only(x), "?")
  {
    OthersThanOne(a, x);
    OthersThanOne(b, x);
    LengthsGrow(Times(a, x), Times(b, x), |x|);
    assert |Relay(b, Only(x), "?")| == |Concat(b)| - Lengths(Times(b, x), |x|) + |x|;
    assert |Relay(a, Only(x), "?")| == |Concat(a)| - Lengths(Times(a, x), |x|) + if Times(a, x) > 0 then |x| else 1;
  }

  lemma {:induction false} TimesIsCount(events: seq<string>, x: string)
    ensures Times(events, x) == multiset(events)[x]
  {
    if events != [] {
      TimesIsCount(events[1..], x);
      assert events == [events[0]] + events[1..];
    }
  }

  lemma SameLength(a: seq<string>, b: seq<string>)
    requires forall y :: multiset(a)[y] == multiset(b)[y]
    ensures |a| == |b|
  {
    assert multiset(a) == multiset(b);
    assert |multiset(a)| == |a| && |multiset(b)| == |b|;
  }

  /** Sequences of different lengths hold some element a different number of times. */
  lemma SomeTimesDiffer(a: seq<string>, b: seq<string>) returns (x: string)
    requires |a| != |b|
    ensures Times(a, x) != Times(b, x) && (x in a || x in b)
  {
    if forall y :: multiset(a)[y] == multiset(b)[y] {
      SameLength(a, b);
    }
    x :| multiset(a)[x] != multiset(b)[x];
    TimesIsCount(a, x);
    TimesIsCount(b, x);
  }

  lemma {:induction false} NoEmptyEvents(begun: string, text: string)
    ensures forall e :: e in LineEvents(begun, text) ==> e != ""
    ensures forall e :: e in FragmentEvents(begun, text) ==> e != ""
    decreases |text|
  {
    if text != "" {
      var line := FirstLine(text);
      var (k, err) := ReadSlice(text);
      NoEmptyEvents(begun + line, AfterLine(text));
      NoEmptyEvents("", AfterLine(text));
      NoEmptyEvents(begun + text[..k], text[k..]);
      NoEmptyEvents("", text[k..]);
    }
  }

  /** The relay writes what the lines say, whatever counts as terminal and whatever ends an incomplete
      stream, exactly when it misreads no line before the last. */
  lemma OutputsAgreeIff(text: string)
    ensures (forall isTerminal: string -> bool, incomplete: string ::
               Relay(FragmentEvents("", text), isTerminal, incomplete) == Relay(LineEvents("", text), isTerminal, incomplete))
            <==> !Misreads(text)
  {
    var a, b := FragmentEvents("", text), LineEvents("", text);
    if !Misreads(text) {
      EventsAgree("", text);
    } else {
      MoreEvents("", text);
      var x := SomeTimesDiffer(a, b);
      NoEmptyEvents("", text);
      LineEventsKeepAll("", text);
      FragmentEventsKeepAll("", text);
      if Times(a, x) < Times(b, x) {
        ToldApart(a, b, x);
      } else {
        ToldApart(b, a, x);
      }
    }
  }

  // ------------------------------------------------------------ a body that ends inside an event

  /** Whole lines or a part of one, none of them blank. */
  predicate NoneBlank(text: string)
    decreases |text|
  {
    text == "" || (!IsBlank(FirstLine(text)) && NoneBlank(AfterLine(text)))
  }

  /** An event begun: whole lines, none blank. */
  predicate Begun(text: string) { NoneBlank(text) && (text == "" || text[|text| - 1] == '\n') }

  lemma {:induction false} BegunThenLine(begun: string, line: string)
    requires Begun(begun) && line != "" && FirstLine(line) == line
    ensures IsBlank(line) ==> OneEvent(begun + line)
    ensures !IsBlank(line) ==> NoneBlank(begun + line)
    decreases |begun|
  {
    if begun == "" {
      assert begun + line == line;
    } else {
      FirstLineStays(begun, line);
      BegunThenLine(AfterLine(begun), line);
    }
  }

  lemma OneLine(text: string)
    requires text != ""
    ensures FirstLine(FirstLine(text)) == FirstLine(text)
    ensures AfterLine(text) != "" ==> FirstLine(text)[|FirstLine(text)| - 1] == '\n'
  {
    var line := FirstLine(text);
    if line[|line| - 1] == '\n' {
      SameNewline(line, |line| - 1, true);
    } else {
      SameNewline(line, |line| - 1, false);
    }
  }

  /** Every event but the last ends in a blank line; the last does, or has none. */
  ghost predicate EndedButLast(events: seq<string>) {
    && (forall i :: 0 <= i < |events| - 1 ==> OneEvent(events[i]))
    && (events != [] ==> OneEvent(events[|events| - 1]) || NoneBlank(events[|events| - 1]))
  }

  lemma EndedCons(event: string, rest: seq<string>)
    requires OneEvent(event) && EndedButLast(rest)
    ensures EndedButLast([event] + rest)
  {
    var all := [event] + rest;
    forall i | 0 <= i < |all| - 1
      ensures OneEvent(all[i])
    {
      if i > 0 { assert all[i] == rest[i - 1]; }
    }
    if rest != [] { assert all[|all| - 1] == rest[|rest| - 1]; }
  }

  lemma {:induction false} EventsEnd(begun: string, text: string)
    requires Begun(begun)
    ensures EndedButLast(LineEvents(begun, text))
    decreases |text|
  {
    if text != "" {
      var line, after := FirstLine(text), AfterLine(text);
      OneLine(text);
      BegunThenLine(begun, line);
      if IsBlank(line) {
        EventsEnd("", after);
        EndedCons(begun + line, LineEvents("", after));
      } else if after != "" {
        EventsEnd(begun + line, after);
      } else {
        assert LineEvents(begun + line, after) == [begun + line];
      }
    }
  }

  lemma {:induction false} NoneBlankIsOne(begun: string, text: string)
    requires NoneBlank(text) && begun + text != ""
    ensures LineEvents(begun, text) == [begun + text]
    decreases |text|
  {
    if text == "" {
      assert begun + text == begun;
    } else {
      var line, after := FirstLine(text), AfterLine(text);
      assert (begun + line) + after == begun + text;
      NoneBlankIsOne(begun + line, after);
    }
  }

  lemma ConcatThenStep(first: string, rest: seq<string>, more: string, later: seq<string>)
    requires OneEvent(first) && LineEvents("", Concat(rest) + more) == later
    ensures LineEvents("", Concat([first] + rest) + more) == [first] + later
  {
    ConcatCons(first, rest);
    ThreeParts(first, Concat(rest), more);
    EventThen(first, Concat(rest) + more);
  }

  lemma {:induction false} ConcatThen(front: seq<string>, more: string)
    requires AllEvents(front)
    ensures LineEvents("", Concat(front) + more) == front + LineEvents("", more)
  {
    if front == [] {
      assert Concat(front) + more == more;
    } else {
      var first, rest, later := front[0], front[1..], LineEvents("", more);
      ConcatThen(rest, more);
      ConcatThenStep(first, rest, more, rest + later);
      assert front == [first] + rest;
      ThreeParts([first], rest, later);
    }
  }

  lemma ThreeParts<T>(a: seq<T>, b: seq<T>, c: seq<T>)
    ensures (a + b) + c == a + (b + c)
  {
  }

  lemma LastReadsBack(last: string)
    requires last != "" && (OneEvent(last) || NoneBlank(last))
    ensures LineEvents("", last) == [last]
  {
    assert "" + last == last && last + "" == last;
    if OneEvent(last) { EventThen(last, ""); } else { NoneBlankIsOne("", last); }
  }

  /** Ended events and then one ended or with no blank line are read back as they are. */
  lemma EndedReadsBack(events: seq<string>)
    requires EndedButLast(events) && forall e :: e in events ==> e != ""
    ensures LineEvents("", Concat(events)) == events
  {
    if events != [] {
      var front, last := events[..|events| - 1], events[|events| - 1];
      assert events == front + [last] && last in events;
      LastReadsBack(last);
      ConcatThen(front, last);
      ConcatJoin(front, [last]);
      ConcatOne(last);
    }
  }

  /** What is read back is ended but for its last event. */
  lemma ReadBackOnlyIfEnded(events: seq<string>)
    requires LineEvents("", Concat(events)) == events
    ensures EndedButLast(events)
  {
    EventsEnd("", Concat(events));
  }

  /** The last event is whole, or terminal. */
  predicate EndsWhole(events: seq<string>, isTerminal: string -> bool) {
    events == [] || OneEvent(events[|events| - 1]) || isTerminal(events[|events| - 1])
  }

  lemma AllEnded(events: seq<string>, isTerminal: string -> bool)
    requires AllEvents(events)
    ensures AllEvents(Others(events, isTerminal)) && (LastTerminal(events, isTerminal).Some? ==> OneEvent(LastTerminal(events, isTerminal).value))
  {
    OthersAreEvents(events, isTerminal);
    forall i | 0 <= i < |Others(events, isTerminal)|
      ensures OneEvent(Others(events, isTerminal)[i])
    {
      assert Others(events, isTerminal)[i] in events;
    }
  }

  lemma EndedJoin(front: seq<string>, rest: seq<string>)
    requires AllEvents(front) && EndedButLast(rest)
    ensures EndedButLast(front + rest)
  {
  }

  /** A last event that is whole or terminal: every event written before the last is ended. */
  lemma WholeIsEnded(front: seq<string>, last: string, isTerminal: string -> bool, incomplete: string)
    requires AllEvents(front) && AllEvents(LineEvents("", incomplete)) && (OneEvent(last) || NoneBlank(last))
    requires OneEvent(last) || isTerminal(last)
    ensures EndedButLast(OutputEvents(front + [last], isTerminal, incomplete))
  {
    AllEnded(front, isTerminal);
    OthersSnoc(front, last, isTerminal);
    if isTerminal(last) {
      EndedJoin(Others(front, isTerminal), [last]);
    } else {
      AllEnded(front + [last], isTerminal);
      EndedJoin(Others(front + [last], isTerminal), Tail(front + [last], isTerminal, incomplete));
    }
  }

  /** Any other is written before the terminal part and not ended. */
  lemma PartIsNotEnded(front: seq<string>, last: string, isTerminal: string -> bool, incomplete: string)
    requires !OneEvent(last) && !isTerminal(last) && LineEvents("", incomplete) != []
    ensures !EndedButLast(OutputEvents(front + [last], isTerminal, incomplete))
  {
    OthersSnoc(front, last, isTerminal);
    var others, all := Others(front, isTerminal), OutputEvents(front + [last], isTerminal, incomplete);
    assert all == others + [last] + Tail(front + [last], isTerminal, incomplete);
    assert all[|others|] == last && |others| < |all| - 1;
  }

  lemma OutputEnded(events: seq<string>, isTerminal: string -> bool, incomplete: string)
    requires EndedButLast(events) && AllEvents(LineEvents("", incomplete)) && EndsOnce(LineEvents("", incomplete), isTerminal)
    ensures EndedButLast(OutputEvents(events, isTerminal, incomplete)) <==> EndsWhole(events, isTerminal)
  {
    if events == [] {
      assert OutputEvents(events, isTerminal, incomplete) == LineEvents("", incomplete);
    } else {
      var front, last := events[..|events| - 1], events[|events| - 1];
      ButLast(events, front, last);
      LastDecides(front, last, isTerminal, incomplete);
    }
  }

  lemma ButLast(events: seq<string>, front: seq<string>, last: string)
    requires EndedButLast(events) && events != [] && front == events[..|events| - 1] && last == events[|events| - 1]
    ensures events == front + [last] && AllEvents(front) && (OneEvent(last) || NoneBlank(last))
  {
  }

  lemma LastDecides(front: seq<string>, last: string, isTerminal: string -> bool, incomplete: string)
    requires AllEvents(front) && (OneEvent(last) || NoneBlank(last)) && AllEvents(LineEvents("", incomplete)) && LineEvents("", incomplete) != []
    ensures EndedButLast(OutputEvents(front + [last], isTerminal, incomplete)) <==> OneEvent(last) || isTerminal(last)
  {
    if OneEvent(last) || isTerminal(last) { WholeIsEnded(front, last, isTerminal, incomplete); }
    else { PartIsNotEnded(front, last, isTerminal, incomplete); }
  }

  /** For every stream with no line misread: a client reads back the events the relay wrote, the others and
      one terminal part, exactly when the stream's last event is whole or terminal. Otherwise the terminal
      part is written on to the fragment, and no event of the stream ends it. */
  lemma OutputReadBackIff(text: string, isTerminal: string -> bool, incomplete: string)
    requires !Misreads(text) && WellFramed(incomplete) && EndsOnce(LineEvents("", incomplete), isTerminal)
    ensures LineEvents("", Copied(text, isTerminal, incomplete)) == OutputEvents(LineEvents("", text), isTerminal, incomplete)
       <==> EndsWhole(LineEvents("", text), isTerminal)
  {
    var events := LineEvents("", text);
    var all := OutputEvents(events, isTerminal, incomplete);
    EventsAgree("", text);
    EventsEnd("", text);
    OutputText(events, isTerminal, incomplete);
    OutputEnded(events, isTerminal, incomplete);
    if EndsWhole(events, isTerminal) {
      NoEmptyEvents("", text);
      NoEmptyEvents("", incomplete);
      OutputShape(events, isTerminal, incomplete);
      EndedReadsBack(all);
    } else if LineEvents("", Concat(all)) == all {
      ReadBackOnlyIfEnded(all);
    }
  }
}
