/**
 copyTerminalSSE (internal/ingress/ingress.go): an event stream relayed event by event, with every
 terminal event held back so that exactly one ends the stream. A text is a sequence of bytes,
 written as characters.
 */
module SseRelay {
  import opened Prelude

  // The reader's buffer and the largest event.
  const BUFFER: nat := 32 * 1024
  const MAX_EVENT: nat := 4 * 1024 * 1024

  /** isBlankSSELine. */
  predicate IsBlank(line: string) { line == "\n" || line == "\r\n" }

  /** Where the first newline is, or the end of the text. */
  function Newline(text: string): (n: nat)
    ensures n <= |text| && '\n' !in text[..n] && (n < |text| ==> text[n] == '\n')
  {
    if text == "" || text[0] == '\n' then 0
    else
      var n := 1 + Newline(text[1..]);
      assert text[..n] == [text[0]] + text[1..][..n - 1];
      n
  }

  // ------------------------------------------------------------ the simple form: events by lines

  /** The first line, its newline included. */
  function FirstLine(text: string): (line: string)
    requires text != ""
    ensures 0 < |line| <= |text| && line == text[..|line|]
    ensures '\n' !in line[..|line| - 1] && (|line| < |text| ==> line[|line| - 1] == '\n')
  {
    var n := Newline(text);
    if n < |text| then text[..n + 1] else text[..n]
  }

  function AfterLine(text: string): (rest: string)
    requires text != ""
    ensures text == FirstLine(text) + rest && |rest| < |text|
  {
    text[|FirstLine(text)|..]
  }

  /** The events of a text: each runs to and includes a blank line; the last may lack one. `begun` is
      what the first event already holds. */
  function LineEvents(begun: string, text: string): seq<string>
    decreases |text|
  {
    if text == "" then (if begun == "" then [] else [begun])
    else if IsBlank(FirstLine(text)) then [begun + FirstLine(text)] + LineEvents("", AfterLine(text))
    else LineEvents(begun + FirstLine(text), AfterLine(text))
  }

  function Concat(events: seq<string>): string {
    if events == [] then "" else events[0] + Concat(events[1..])
  }

  function Others(events: seq<string>, isTerminal: string -> bool): seq<string> {
    if events == [] then []
    else (if isTerminal(events[0]) then [] else [events[0]]) + Others(events[1..], isTerminal)
  }

  /** The last terminal event. */
  function LastTerminal(events: seq<string>, isTerminal: string -> bool): Option<string> {
    if events == [] then None
    else
      var later := LastTerminal(events[1..], isTerminal);
      if later.Some? then later else if isTerminal(events[0]) then Some(events[0]) else None
  }

  /** All events that are not terminal, in order, then exactly one terminal part. */
  function Relay(events: seq<string>, isTerminal: string -> bool, incomplete: string): string {
    Concat(Others(events, isTerminal)) + LastTerminal(events, isTerminal).GetOr(incomplete)
  }

  // ------------------------------------------------------------ events as the reader's fragments show them

  datatype ReadError = NoError | BufferFull | Ended

  /** bufio.Reader.ReadSlice: how many bytes, and what stopped it. */
  function ReadSlice(text: string): (r: (nat, ReadError))
    ensures r.0 <= |text| && r.0 <= BUFFER
    ensures r.1 == Ended ==> r.0 == |text|
    ensures r.1 != Ended ==> r.0 > 0
  {
    var n := Newline(text);
    if n < |text| && n < BUFFER then (n + 1, NoError)
    else if |text| >= BUFFER then (BUFFER, BufferFull)
    else (|text|, Ended)
  }

  /** The events the relay forms: it looks for a blank line in each fragment that is not cut off by a
      full buffer. */
  function FragmentEvents(begun: string, text: string): seq<string>
    decreases |text|
  {
    if text == "" then (if begun == "" then [] else [begun])
    else
      var (k, err) := ReadSlice(text);
      if err != BufferFull && IsBlank(text[..k]) then [begun + text[..k]] + FragmentEvents("", text[k..])
      else FragmentEvents(begun + text[..k], text[k..])
  }

  /** What the reader returns last for a line. */
  function LastFragment(line: string): string
    decreases |line|
  {
    if |line| > BUFFER then LastFragment(line[BUFFER..]) else line
  }

  /** A line longer than the buffer whose last fragment looks like a blank line. */
  predicate Misread(line: string) {
    |line| > BUFFER && line[|line| - 1] == '\n' && (|line| % BUFFER == 1 || (|line| % BUFFER == 2 && line[|line| - 2] == '\r'))
  }

  /** A blank line is one or two characters, told by its last two. */
  lemma BlankByEnd(line: string)
    requires |line| > 0
    ensures IsBlank(line) <==> line[|line| - 1] == '\n' && (|line| == 1 || (|line| == 2 && line[|line| - 2] == '\r'))
  {
  }

  lemma OneBufferLess(n: nat)
    requires n > BUFFER
    ensures (n - BUFFER) % BUFFER == n % BUFFER
    ensures n - BUFFER <= BUFFER ==> (n % BUFFER == 1 <==> n - BUFFER == 1) && (n % BUFFER == 2 <==> n - BUFFER == 2)
  {
  }

  lemma {:induction false} MisreadLooksBlank(line: string)
    requires |line| > 0
    ensures IsBlank(LastFragment(line)) <==> IsBlank(line) || Misread(line)
    ensures IsBlank(LastFragment(line)) <==>
            || line == "\n" || line == "\r\n"
            || (|line| > 32768 && line[|line| - 1] == '\n' && (|line| % 32768 == 1 || (|line| % 32768 == 2 && line[|line| - 2] == '\r')))
    decreases |line|
  {
    BlankByEnd(line);
    if |line| > BUFFER {
      var rest := line[BUFFER..];
      MisreadLooksBlank(rest);
      BlankByEnd(rest);
      OneBufferLess(|line|);
      assert rest[|rest| - 1] == line[|line| - 1];
      assert |rest| > 1 ==> rest[|rest| - 2] == line[|line| - 2];
    }
  }

  /** Cutting a full buffer off the front of a long line. */
  lemma CutLine(text: string)
    requires text != "" && |FirstLine(text)| > BUFFER
    ensures ReadSlice(text) == (BUFFER, BufferFull)
    ensures FirstLine(text[BUFFER..]) == FirstLine(text)[BUFFER..] && AfterLine(text[BUFFER..]) == AfterLine(text)
  {
    var line, cut := FirstLine(text), text[BUFFER..];
    SameNewline(cut, |line| - BUFFER - 1, line[|line| - 1] == '\n');
  }

  /** The first newline is wherever a newline follows none. */
  lemma {:induction false} SameNewline(text: string, n: nat, found: bool)
    requires n < |text| && '\n' !in text[..n] && (text[n] == '\n' <==> found) && (!found ==> n + 1 == |text|)
    ensures Newline(text) == if found then n else n + 1
  {
    if n > 0 {
      assert text[..n][0] == text[0] && text[1..][..n - 1] == text[..n][1..];
      SameNewline(text[1..], n - 1, found);
    }
  }

  /** A line that fits the buffer comes in one fragment. */
  lemma FragmentOfShortLine(begun: string, text: string)
    requires text != "" && |FirstLine(text)| <= BUFFER
    ensures FragmentEvents(begun, text) ==
            if IsBlank(FirstLine(text)) then [begun + FirstLine(text)] + FragmentEvents("", AfterLine(text))
            else FragmentEvents(begun + FirstLine(text), AfterLine(text))
  {
    assert ReadSlice(text).0 == |FirstLine(text)|;
    assert text[|FirstLine(text)|..] == AfterLine(text);
  }

  lemma FragmentOfLongLine(begun: string, text: string)
    requires text != "" && |FirstLine(text)| > BUFFER
    ensures FragmentEvents(begun, text) == FragmentEvents(begun + text[..BUFFER], text[BUFFER..])
    ensures FirstLine(text) == text[..BUFFER] + FirstLine(text)[BUFFER..]
  {
    CutLine(text);
  }

  lemma {:induction false} FragmentsOfLine(begun: string, text: string)
    requires text != ""
    ensures FragmentEvents(begun, text) ==
            if IsBlank(LastFragment(FirstLine(text))) then [begun + FirstLine(text)] + FragmentEvents("", AfterLine(text))
            else FragmentEvents(begun + FirstLine(text), AfterLine(text))
    decreases |text|
  {
    var line := FirstLine(text);
    if |line| > BUFFER {
      CutLine(text);
      FragmentOfLongLine(begun, text);
      FragmentsOfLine(begun + text[..BUFFER], text[BUFFER..]);
      assert begun + text[..BUFFER] + line[BUFFER..] == begun + line;
    } else {
      FragmentOfShortLine(begun, text);
    }
  }

  /** Some line other than the last is misread. */
  predicate Misreads(text: string)
    decreases |text|
  {
    text != "" && ((AfterLine(text) != "" && Misread(FirstLine(text))) || Misreads(AfterLine(text)))
  }

  lemma {:induction false} FirstEventHolds(begun: string, text: string)
    requires text != ""
    ensures |LineEvents(begun, text)| > 0 && |LineEvents(begun, text)[0]| > |begun|
    decreases |text|
  {
    if !IsBlank(FirstLine(text)) && AfterLine(text) != "" {
      FirstEventHolds(begun + FirstLine(text), AfterLine(text));
    }
  }

  /** The relay forms the events the lines say exactly when it misreads no line before the last. */
  lemma {:induction false} EventsAgree(begun: string, text: string)
    ensures FragmentEvents(begun, text) == LineEvents(begun, text) <==> !Misreads(text)
    decreases |text|
  {
    if text != "" {
      var line, after := FirstLine(text), AfterLine(text);
      FragmentsOfLine(begun, text);
      MisreadLooksBlank(line);
      if IsBlank(line) {
        EventsAgree("", after);
        assert ([begun + line] + FragmentEvents("", after))[1..] == FragmentEvents("", after);
        assert ([begun + line] + LineEvents("", after))[1..] == LineEvents("", after);
      } else if !Misread(line) {
        EventsAgree(begun + line, after);
      } else if after != "" {
        FirstEventHolds(begun + line, after);
      }
    }
  }

  // ------------------------------------------------------------ the relay

  /** How the relay ended: the body ended, an event was too large, reading failed, or the client left
      or could not be written to. */
  datatype Ending = Finished | TooLarge | Broken | Gone

  lemma {:induction false} OthersSnoc(events: seq<string>, event: string, isTerminal: string -> bool)
    ensures Others(events + [event], isTerminal) == Others(events, isTerminal) + (if isTerminal(event) then [] else [event])
    ensures LastTerminal(events + [event], isTerminal) == if isTerminal(event) then Some(event) else LastTerminal(events, isTerminal)
    decreases |events|
  {
    if events != [] {
      OthersSnoc(events[1..], event, isTerminal);
      assert (events + [event])[1..] == events[1..] + [event];
    } else {
      assert [event][1..] == [];
    }
  }

  lemma EventFirst(event: string, rest: seq<string>, isTerminal: string -> bool)
    ensures Concat([event] + rest) == event + Concat(rest)
    ensures Others([event] + rest, isTerminal) == (if isTerminal(event) then [] else [event]) + Others(rest, isTerminal)
  {
    assert ([event] + rest)[1..] == rest;
  }

  lemma {:induction false} ConcatJoin(a: seq<string>, b: seq<string>)
    ensures Concat(a + b) == Concat(a) + Concat(b)
  {
    if a == [] {
      assert a + b == b;
    } else {
      ConcatJoin(a[1..], b);
      assert a == [a[0]] + a[1..] && a + b == [a[0]] + (a[1..] + b);
      EventFirst(a[0], a[1..] + b, e => false);
    }
  }

  lemma {:induction false} OthersJoin(a: seq<string>, b: seq<string>, isTerminal: string -> bool)
    ensures Others(a + b, isTerminal) == Others(a, isTerminal) + Others(b, isTerminal)
  {
    if a == [] {
      assert a + b == b;
    } else {
      OthersJoin(a[1..], b, isTerminal);
      assert a == [a[0]] + a[1..] && a + b == [a[0]] + (a[1..] + b);
      EventFirst(a[0], a[1..] + b, isTerminal);
    }
  }

  function Passed(events: seq<string>, isTerminal: string -> bool): string {
    Concat(Others(events, isTerminal))
  }

  lemma PassedSnoc(events: seq<string>, event: string, isTerminal: string -> bool)
    ensures Passed(events + [event], isTerminal) == Passed(events, isTerminal) + (if isTerminal(event) then "" else event)
  {
    OthersSnoc(events, event, isTerminal);
    ConcatJoin(Others(events, isTerminal), if isTerminal(event) then [] else [event]);
    assert Concat([event]) == event + Concat([]);
  }

  lemma PassedJoin(a: seq<string>, b: seq<string>, isTerminal: string -> bool)
    ensures Passed(a + b, isTerminal) == Passed(a, isTerminal) + Passed(b, isTerminal)
  {
    OthersJoin(a, b, isTerminal);
    ConcatJoin(Others(a, isTerminal), Others(b, isTerminal));
  }

  /** A write to the client: all of it, or when it fails some of it. */
  method Write(out: string, chunk: string, fails: bool) returns (sent: string, ok: bool)
    ensures ok == !fails && (ok ==> sent == out + chunk)
    ensures exists n: nat :: n <= |chunk| && sent == out + chunk[..n]
  {
    ok := !fails;
    var n: nat :| n <= |chunk|;
    if ok {
      n := |chunk|;
    }
    sent := out + chunk[..n];
    assert chunk[..|chunk|] == chunk;
  }

  /** The event is passed on, or held back in place of an earlier terminal one. */
  method Emit(out: string, held: string, event: string, isTerminal: string -> bool, fails: bool, ghost done: seq<string>)
    returns (sent: string, terminal: string, ok: bool)
    requires event != "" && out == Passed(done, isTerminal) && held == LastTerminal(done, isTerminal).GetOr("")
    ensures ok <==> isTerminal(event) || !fails
    ensures ok ==> sent == Passed(done + [event], isTerminal) && terminal == LastTerminal(done + [event], isTerminal).GetOr("")
    ensures sent <= Passed(done + [event], isTerminal)
  {
    PassedSnoc(done, event, isTerminal);
    OthersSnoc(done, event, isTerminal);
    if isTerminal(event) {
      return out, event, true;
    }
    terminal := held;
    sent, ok := Write(out, event, fails);
  }

  /** Every event is within the limit. */
  predicate Fit(events: seq<string>) {
    forall i :: 0 <= i < |events| ==> |events[i]| <= MAX_EVENT
  }

  lemma {:induction false} BegunIsPart(begun: string, text: string)
    requires begun != ""
    ensures |FragmentEvents(begun, text)| > 0 && |FragmentEvents(begun, text)[0]| >= |begun|
    decreases |text|
  {
    if text != "" {
      var (k, err) := ReadSlice(text);
      if !(err != BufferFull && IsBlank(text[..k])) {
        BegunIsPart(begun + text[..k], text[k..]);
      }
    }
  }

  /** What has been passed on so far begins the whole relay. */
  lemma PassedSoFar(done: seq<string>, later: seq<string>, isTerminal: string -> bool, incomplete: string)
    ensures Passed(done, isTerminal) <= Relay(done + later, isTerminal, incomplete)
  {
    PassedJoin(done, later, isTerminal);
  }

  lemma {:induction false} TerminalIsAnEvent(events: seq<string>, isTerminal: string -> bool)
    requires forall i :: 0 <= i < |events| ==> events[i] != ""
    ensures LastTerminal(events, isTerminal).Some? ==> LastTerminal(events, isTerminal).value in events && LastTerminal(events, isTerminal).value != ""
  {
    if events != [] {
      TerminalIsAnEvent(events[1..], isTerminal);
    }
  }

  /** One event too large ends the relay after the events before it. */
  ghost predicate StoppedAt(events: seq<string>, k: nat, out: string, isTerminal: string -> bool) {
    k < |events| && |events[k]| > MAX_EVENT && Fit(events[..k]) && out == Passed(events[..k], isTerminal)
  }

  /** Where the relay stands: `done` are the events formed, `event` is the one begun. */
  ghost predicate At(body: string, done: seq<string>, event: string, rest: string, out: string, held: string, isTerminal: string -> bool) {
    && FragmentEvents("", body) == done + FragmentEvents(event, rest)
    && out == Passed(done, isTerminal) && held == LastTerminal(done, isTerminal).GetOr("")
    && Fit(done) && |event| <= MAX_EVENT && (forall i :: 0 <= i < |done| ==> done[i] != "")
  }

  lemma Stopped(body: string, done: seq<string>, event: string, rest: string, out: string, held: string, isTerminal: string -> bool)
    requires At(body, done, event, rest, out, held, isTerminal)
    requires |event + rest[..ReadSlice(rest).0]| > MAX_EVENT
    ensures StoppedAt(FragmentEvents("", body), |done|, out, isTerminal)
  {
    var k := ReadSlice(rest).0;
    var events := FragmentEvents("", body);
    BegunIsPart(event + rest[..k], rest[k..]);
    assert events[..|done|] == done && events[|done|] == FragmentEvents(event, rest)[0];
  }

  /** The client leaves or a write fails at one of the moments the relay comes to: at `clock` it looks at the
      client, and after it writes the event the next line ends, if any. */
  predicate CutOff(event: string, rest: string, clock: nat, clean: bool, isTerminal: string -> bool, fault: nat -> bool)
    decreases |rest|
  {
    var (k, err) := ReadSlice(rest);
    var longer, ends := event + rest[..k], err != BufferFull && IsBlank(rest[..k]);
    || fault(clock)
    || (|longer| <= MAX_EVENT &&
        (|| (ends && !isTerminal(longer) && fault(clock + 1))
         || if err == Ended then clean && CutOffAtEnd(if ends then "" else longer, clock + 2, isTerminal, fault)
            else CutOff(if ends then "" else longer, rest[k..], clock + 2, clean, isTerminal, fault)))
  }

  /** The same once the body has ended: the last event is written, the client looked at, and the terminal
      part written. */
  predicate CutOffAtEnd(event: string, clock: nat, isTerminal: string -> bool, fault: nat -> bool) {
    (event != "" && !isTerminal(event) && fault(clock)) || fault(clock + 1) || fault(clock + 2)
  }

  lemma {:induction false} CutOffByFault(event: string, rest: string, clock: nat, clean: bool, isTerminal: string -> bool, fault: nat -> bool)
    requires CutOff(event, rest, clock, clean, isTerminal, fault)
    ensures exists k: nat :: fault(k)
    decreases |rest|
  {
    var (k, err) := ReadSlice(rest);
    if err != Ended && CutOff(if err != BufferFull && IsBlank(rest[..k]) then "" else event + rest[..k], rest[k..], clock + 2, clean, isTerminal, fault) {
      CutOffByFault(if err != BufferFull && IsBlank(rest[..k]) then "" else event + rest[..k], rest[k..], clock + 2, clean, isTerminal, fault);
    }
  }

  /** The end of a body that ended cleanly: the last event and the one terminal part. */
  method Close(body: string, out: string, held: string, event: string, isTerminal: string -> bool, incomplete: string, fault: nat -> bool, clock: nat, ghost done: seq<string>)
    returns (sent: string, how: Ending)
    requires At(body, done, event, "", out, held, isTerminal)
    ensures how == if CutOffAtEnd(event, clock, isTerminal, fault) then Gone else Finished
    ensures how.Finished? ==> Fit(FragmentEvents("", body)) && sent == Relay(FragmentEvents("", body), isTerminal, incomplete)
    ensures sent <= Relay(FragmentEvents("", body), isTerminal, incomplete)
  {
    var terminal, ok := held, true;
    sent := out;
    ghost var events := FragmentEvents("", body);
    assert done + [] == done;
    PassedSoFar(events, [], isTerminal, incomplete);
    assert events + [] == events;
    if event != "" {
      sent, terminal, ok := Emit(out, held, event, isTerminal, fault(clock), done);
      if !ok {
        return sent, Gone;
      }
    }
    if fault(clock + 1) {
      return sent, Gone;
    }
    TerminalIsAnEvent(events, isTerminal);
    sent, ok := Write(sent, if terminal != "" then terminal else incomplete, fault(clock + 2));
    return sent, if ok then Finished else Gone;
  }

  /** A fragment that ends no event joins the one begun. */
  lemma Joined(body: string, done: seq<string>, event: string, rest: string, out: string, held: string, isTerminal: string -> bool)
    requires At(body, done, event, rest, out, held, isTerminal)
    requires var (k, err) := ReadSlice(rest); !(err != BufferFull && IsBlank(rest[..k])) && |event| + k <= MAX_EVENT
    ensures var k := ReadSlice(rest).0; At(body, done, event + rest[..k], rest[k..], out, held, isTerminal)
  {
    var k := ReadSlice(rest).0;
    if rest == "" {
      assert event + rest[..k] == event && rest[k..] == rest;
    }
  }

  lemma NextEvent(body: string, done: seq<string>, event: string, rest: string)
    requires FragmentEvents("", body) == done + FragmentEvents(event, rest)
    requires var (k, err) := ReadSlice(rest); err != BufferFull && IsBlank(rest[..k])
    ensures var k := ReadSlice(rest).0; FragmentEvents("", body) == done + [event + rest[..k]] + FragmentEvents("", rest[k..])
  {
    var k := ReadSlice(rest).0;
    var later := FragmentEvents("", rest[k..]);
    assert done + ([event + rest[..k]] + later) == done + [event + rest[..k]] + later;
  }

  /** A blank line ends the event begun, which is passed on or held. */
  method EmitAt(body: string, out: string, held: string, event: string, rest: string, isTerminal: string -> bool, fails: bool, ghost done: seq<string>, ghost incomplete: string)
    returns (sent: string, terminal: string, ok: bool)
    requires At(body, done, event, rest, out, held, isTerminal)
    requires var (k, err) := ReadSlice(rest); err != BufferFull && IsBlank(rest[..k]) && |event| + k <= MAX_EVENT
    ensures ok <==> isTerminal(event + rest[..ReadSlice(rest).0]) || !fails
    ensures var k := ReadSlice(rest).0; ok ==> At(body, done + [event + rest[..k]], "", rest[k..], sent, terminal, isTerminal)
    ensures sent <= Relay(FragmentEvents("", body), isTerminal, incomplete)
  {
    var k := ReadSlice(rest).0;
    NextEvent(body, done, event, rest);
    PassedSoFar(done + [event + rest[..k]], FragmentEvents("", rest[k..]), isTerminal, incomplete);
    sent, terminal, ok := Emit(out, held, event + rest[..k], isTerminal, fails, done);
  }

  /** The events formed before reading failed: all, or all but an unfinished last one. */
  ghost predicate BrokenOff(events: seq<string>, k: nat, out: string, isTerminal: string -> bool) {
    Fit(events) && |events| - 1 <= k <= |events| && out == Passed(events[..k], isTerminal)
  }

  lemma AllFormed(body: string, done: seq<string>, event: string, out: string, held: string, isTerminal: string -> bool)
    requires At(body, done, event, "", out, held, isTerminal)
    ensures BrokenOff(FragmentEvents("", body), |done|, out, isTerminal)
  {
    assert FragmentEvents("", body)[..|done|] == done;
  }

  /** The relay. `clean` says whether the body ends or reading it fails at the end; `fault` says at which
      looks at the client, and at which writes, it has left or fails. If the relay comes to none of these it
      ends as the body says: too large an event stops it, else a failed read, else it finishes. */
  method CopyTerminalSSE(body: string, clean: bool, isTerminal: string -> bool, incomplete: string, fault: nat -> bool)
    returns (out: string, how: Ending)
    ensures how.Gone? <==> CutOff("", body, 0, clean, isTerminal, fault)
    ensures how.Gone? ==> exists k: nat :: fault(k)
    ensures !how.Gone? ==> how == if !Fit(FragmentEvents("", body)) then TooLarge else if clean then Finished else Broken
    ensures how.TooLarge? ==> exists i :: 0 <= i < |FragmentEvents("", body)| && |FragmentEvents("", body)[i]| > 4194304
    ensures how.Finished? || how.Broken? ==> forall i :: 0 <= i < |FragmentEvents("", body)| ==> |FragmentEvents("", body)[i]| <= 4194304
    ensures how.Finished? ==> out == Relay(FragmentEvents("", body), isTerminal, incomplete)
    ensures how.TooLarge? ==> exists k: nat :: StoppedAt(FragmentEvents("", body), k, out, isTerminal)
    ensures how.Broken? ==> exists k: nat :: BrokenOff(FragmentEvents("", body), k, out, isTerminal)
    ensures out <= Relay(FragmentEvents("", body), isTerminal, incomplete)
  {
    out := "";
    var rest, event, terminal, ok := body, "", "", true;
    var clock: nat := 0;
    ghost var done := [];
    ghost var events := FragmentEvents("", body);
    assert events == [] + events;
    if CutOff("", body, 0, clean, isTerminal, fault) {
      CutOffByFault("", body, 0, clean, isTerminal, fault);
    }
    while true
      invariant At(body, done, event, rest, out, terminal, isTerminal)
      invariant CutOff("", body, 0, clean, isTerminal, fault) <==> CutOff(event, rest, clock, clean, isTerminal, fault)
      decreases |rest|
    {
      PassedSoFar(done, FragmentEvents(event, rest), isTerminal, incomplete);
      if fault(clock) {
        return out, Gone;
      }
      var (k, err) := ReadSlice(rest);
      if |event| + k > MAX_EVENT {
        Stopped(body, done, event, rest, out, terminal, isTerminal);
        return out, TooLarge;
      }
      if err != BufferFull && IsBlank(rest[..k]) {
        out, terminal, ok := EmitAt(body, out, terminal, event, rest, isTerminal, fault(clock + 1), done, incomplete);
        if !ok {
          return out, Gone;
        }
        done, event := done + [event + rest[..k]], "";
      } else {
        Joined(body, done, event, rest, out, terminal, isTerminal);
        event := event + rest[..k];
      }
      rest := rest[k..];
      if err == Ended {
        if !clean {
          PassedSoFar(done, FragmentEvents(event, rest), isTerminal, incomplete);
          AllFormed(body, done, event, out, terminal, isTerminal);
          return out, Broken;
        }
        out, how := Close(body, out, terminal, event, isTerminal, incomplete, fault, clock + 2, done);
        return;
      }
      clock := clock + 2;
    }
  }
}
