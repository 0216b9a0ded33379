/**
 topLevelUsageCapture (internal/ingress/native_usage.go): a scanner that watches a JSON document
 go by and keeps the object under its top-level "usage" key.
 */
module UsageCapture {
  import opened Prelude
  import opened JsonText

  const MAX_CAPTURED: nat := 0x10000
  const MAX_KEY: nat := 16
  const USAGE: seq<Byte> := [0x75, 0x73, 0x61, 0x67, 0x65]

  datatype Scan = Scan(
    depth: int, inString: bool, escaped: bool, expectKey: bool, key: seq<Byte>, keyOK: bool, afterKey: bool,
    isUsage: bool, capturing: bool, captureAt: int, buf: seq<Byte>, done: bool, overflow: bool)
  {
    /** value() */
    function Found(): Option<seq<Byte>> { if done && !overflow then Some(buf) else None }
  }

  const START := Scan(0, false, false, false, [], false, false, false, false, 0, [], false, false)

  function InString(s: Scan, b: Byte): (r: Scan)
    ensures r.buf == s.buf && r.capturing == s.capturing && r.done == s.done && r.depth == s.depth && r.overflow == s.overflow
    ensures |s.key| <= MAX_KEY ==> |r.key| <= MAX_KEY
  {
    if s.escaped then s.(escaped := false)
    else if b == BACKSLASH then s.(escaped := true)
    else if b == QUOTE then
      if s.depth == 1 && s.expectKey
      then s.(inString := false, expectKey := false, afterKey := true, isUsage := s.keyOK && s.key == USAGE)
      else s.(inString := false)
    else if s.depth == 1 && s.expectKey then
      if |s.key| < MAX_KEY then s.(key := s.key + [b]) else s.(keyOK := false)
    else s
  }

  /** '{' or '[': an object that is the value of "usage" starts the capture. */
  function Open(s: Scan, b: Byte): (r: Scan)
    ensures r.key == s.key && r.done == s.done && r.overflow == s.overflow
    ensures s.capturing ==> r.buf == s.buf && r.capturing
    ensures r.buf == s.buf || (|r.buf| == 1 && r.capturing)
  {
    if s.depth == 1 && s.afterKey && s.isUsage && b == LBRACE && !s.capturing
    then s.(capturing := true, captureAt := s.depth, buf := [b], depth := s.depth + 1, afterKey := false)
    else s.(depth := s.depth + 1, afterKey := false)
  }

  /** '}' or ']': the captured object ends where it began. */
  function Close(s: Scan): (r: Scan)
    ensures r.key == s.key && r.buf == s.buf && r.overflow == s.overflow
    ensures s.capturing ==> r.capturing || r.done
    ensures s.done ==> r.done
  {
    if s.capturing && s.depth - 1 == s.captureAt then s.(depth := s.depth - 1, capturing := false, done := true)
    else s.(depth := s.depth - 1)
  }

  function Switch(s: Scan, b: Byte): (r: Scan)
    ensures |s.key| <= MAX_KEY ==> |r.key| <= MAX_KEY
    ensures s.capturing ==> r.buf == s.buf && (r.capturing || r.done)
    ensures r.buf == s.buf || (|r.buf| == 1 && r.capturing)
    ensures s.done ==> r.done
    ensures r.overflow == s.overflow
  {
    if b == QUOTE then
      if s.depth == 1 && s.expectKey then s.(inString := true, key := [], keyOK := true) else s.(inString := true)
    else if b == LBRACE || b == LBRACKET then Open(s, b)
    else if b == RBRACE || b == RBRACKET then Close(s)
    else if b == COMMA && s.depth == 1 then s.(expectKey := true, afterKey := false)
    else s
  }

  function Outside(s: Scan, b: Byte): (r: Scan)
    ensures |s.key| <= MAX_KEY ==> |r.key| <= MAX_KEY
    ensures s.capturing ==> r.buf == s.buf && (r.capturing || r.done)
    ensures r.buf == s.buf || (|r.buf| == 1 && r.capturing)
    ensures s.done ==> r.done
    ensures r.overflow == s.overflow
  {
    var switched := Switch(s, b);
    var entered := if b == LBRACE && switched.depth == 1 then switched.(expectKey := true) else switched;
    if entered.depth == 1 && entered.afterKey && b != COLON && !IsWs(b) && b != LBRACE && b != LBRACKET && b != QUOTE
    then entered.(afterKey := false) else entered
  }

  /** One byte without the size limit. */
  function FreeStep(s: Scan, b: Byte): (r: Scan)
    ensures |s.key| <= MAX_KEY ==> |r.key| <= MAX_KEY
    ensures s.capturing ==> r.buf == s.buf + [b] && (r.capturing || r.done)
    ensures !s.capturing ==> r.buf == s.buf || |r.buf| == 1
    ensures r.overflow == s.overflow
  {
    var kept := if s.capturing then s.(buf := s.buf + [b]) else s;
    if kept.inString then InString(kept, b) else Outside(kept, b)
  }

  function ByteStep(s: Scan, b: Byte): Scan {
    if s.capturing && |s.buf| >= MAX_CAPTURED then s.(overflow := true, capturing := false, done := true)
    else FreeStep(s, b)
  }

  function Scanned(s: Scan, p: seq<Byte>): Scan
    decreases |p|
  {
    if p == [] || s.done then s else Scanned(ByteStep(s, p[0]), p[1..])
  }

  /** The writes of one response, chunk by chunk. */
  function Written(s: Scan, chunks: seq<seq<Byte>>): Scan
    decreases |chunks|
  {
    if chunks == [] then s else Written(Scanned(s, chunks[0]), chunks[1..])
  }

  function Joined(chunks: seq<seq<Byte>>): seq<Byte> {
    if chunks == [] then [] else chunks[0] + Joined(chunks[1..])
  }

  class Capture {
    var depth: int
    var inString: bool
    var escaped: bool
    var expectKey: bool
    var key: seq<Byte>
    var keyOK: bool
    var afterKey: bool
    var isUsage: bool
    var capturing: bool
    var captureAt: int
    var buf: seq<Byte>
    var done: bool
    var overflow: bool

    function View(): Scan
      reads this
    {
      Scan(depth, inString, escaped, expectKey, key, keyOK, afterKey, isUsage, capturing, captureAt, buf, done, overflow)
    }

    constructor ()
      ensures View() == START
    {
      depth, inString, escaped, expectKey, key, keyOK, afterKey := 0, false, false, false, [], false, false;
      isUsage, capturing, captureAt, buf, done, overflow := false, false, 0, [], false, false;
    }

    /** A byte inside a string. */
    method StepInString(b: Byte)
      modifies this
      ensures View() == InString(old(View()), b)
    {
      if escaped {
        escaped := false;
      } else if b == BACKSLASH {
        escaped := true;
      } else if b == QUOTE {
        StepQuote();
      } else if depth == 1 && expectKey {
        StepKey(b);
      }
    }

    method StepQuote()
      modifies this`inString, this`expectKey, this`afterKey, this`isUsage
      ensures !inString
      ensures if depth == 1 && old(expectKey) then !expectKey && afterKey && isUsage == (keyOK && key == USAGE)
              else expectKey == old(expectKey) && afterKey == old(afterKey) && isUsage == old(isUsage)
    {
      inString := false;
      if depth == 1 && expectKey {
        expectKey, afterKey, isUsage := false, true, keyOK && key == USAGE;
      }
    }

    method StepKey(b: Byte)
      modifies this`key, this`keyOK
      ensures key == (if |old(key)| < MAX_KEY then old(key) + [b] else old(key)) && keyOK == (old(keyOK) && |old(key)| < MAX_KEY)
    {
      if |key| < MAX_KEY {
        key := key + [b];
      } else {
        keyOK := false;
      }
    }

    method StepOpen(b: Byte)
      modifies this
      ensures View() == Open(old(View()), b)
    {
      if depth == 1 && afterKey && isUsage && b == LBRACE && !capturing {
        capturing, captureAt, buf := true, depth, [b];
      }
      depth, afterKey := depth + 1, false;
    }

    method StepClose()
      modifies this
      ensures View() == Close(old(View()))
    {
      depth := depth - 1;
      if capturing && depth == captureAt {
        capturing, done := false, true;
      }
    }

    /** The switch over a byte outside strings. */
    method StepSwitch(b: Byte)
      modifies this
      ensures View() == Switch(old(View()), b)
    {
      if b == QUOTE {
        inString := true;
        if depth == 1 && expectKey {
          key, keyOK := [], true;
        }
      } else if b == LBRACE || b == LBRACKET {
        StepOpen(b);
      } else if b == RBRACE || b == RBRACKET {
        StepClose();
      } else if b == COMMA {
        if depth == 1 {
          expectKey, afterKey := true, false;
        }
      }
    }

    method StepOutside(b: Byte)
      modifies this
      ensures View() == Outside(old(View()), b)
    {
      StepSwitch(b);
      if b == LBRACE && depth == 1 {
        expectKey := true;
      }
      if depth == 1 && afterKey && b != COLON && !IsWs(b) && b != LBRACE && b != LBRACKET && b != QUOTE {
        afterKey := false;
      }
    }

    method Step(b: Byte)
      modifies this
      ensures View() == ByteStep(old(View()), b)
    {
      if capturing {
        if |buf| >= MAX_CAPTURED {
          overflow, capturing, done := true, false, true;
          return;
        }
        buf := buf + [b];
      }
      if inString {
        StepInString(b);
      } else {
        StepOutside(b);
      }
    }

    method Write(p: seq<Byte>) returns (n: nat)
      modifies this
      ensures View() == Scanned(old(View()), p)
      ensures n == |p|
    {
      n := |p|;
      if done {
        return;
      }
      var i := 0;
      while i < |p|
        invariant 0 <= i <= |p|
        invariant !done
        invariant Scanned(old(View()), p) == Scanned(View(), p[i..])
      {
        Step(p[i]);
        i := i + 1;
        if done {
          break;
        }
      }
    }

    method Value() returns (raw: seq<Byte>, ok: bool)
      ensures View().Found() == if ok then Some(raw) else None
    {
      if !done || overflow {
        return [], false;
      }
      return buf, true;
    }
  }

  // ------------------------------------------------------------ chunking and the size limits

  lemma {:induction false} ScannedAppend(s: Scan, p: seq<Byte>, q: seq<Byte>)
    ensures Scanned(s, p + q) == Scanned(Scanned(s, p), q)
    decreases |p|
  {
    if p == [] {
      assert p + q == q;
    } else if !s.done {
      assert (p + q)[1..] == p[1..] + q;
      ScannedAppend(ByteStep(s, p[0]), p[1..], q);
    }
  }

  /** However a document is cut into writes, the scanner ends in the same state. */
  lemma {:induction false} ChunkingIrrelevant(s: Scan, chunks: seq<seq<Byte>>)
    ensures Written(s, chunks) == Scanned(s, Joined(chunks))
    decreases |chunks|
  {
    if chunks != [] {
      ScannedAppend(s, chunks[0], Joined(chunks[1..]));
      ChunkingIrrelevant(Scanned(s, chunks[0]), chunks[1..]);
    }
  }

  /** On any bytes at all the buffers stay within their limits. */
  lemma {:induction false} BuffersBounded(s: Scan, p: seq<Byte>)
    requires |s.buf| <= 65536 && |s.key| <= 16
    ensures |Scanned(s, p).buf| <= 65536 && |Scanned(s, p).key| <= 16
    decreases |p|
  {
    if p != [] && !s.done {
      BuffersBounded(ByteStep(s, p[0]), p[1..]);
    }
  }

  function Free(s: Scan, p: seq<Byte>): Scan
    decreases |p|
  {
    if p == [] || s.done then s else Free(FreeStep(s, p[0]), p[1..])
  }

  lemma {:induction false} FreeGrows(s: Scan, p: seq<Byte>)
    requires s.capturing || s.done
    ensures |Free(s, p).buf| >= |s.buf|
    decreases |p|
  {
    if p != [] && !s.done {
      FreeGrows(FreeStep(s, p[0]), p[1..]);
    }
  }

  lemma Overflows(s: Scan, p: seq<Byte>)
    requires p != [] && !s.done && s.capturing && |s.buf| == MAX_CAPTURED
    ensures |Free(s, p).buf| > MAX_CAPTURED && Scanned(s, p).done && Scanned(s, p).overflow
  {
    FreeGrows(FreeStep(s, p[0]), p[1..]);
  }

  /** The limited scanner is the unlimited one until the kept object outgrows the limit. */
  lemma {:induction false} LimitRefines(s: Scan, p: seq<Byte>)
    requires |s.buf| <= MAX_CAPTURED
    ensures var free := Free(s, p);
            if |free.buf| <= MAX_CAPTURED then Scanned(s, p) == free
            else Scanned(s, p).done && Scanned(s, p).overflow
    decreases |p|
  {
    if p != [] && !s.done {
      if s.capturing && |s.buf| >= MAX_CAPTURED {
        Overflows(s, p);
      } else {
        LimitRefines(FreeStep(s, p[0]), p[1..]);
      }
    }
  }

  lemma {:induction false} FreeAppend(s: Scan, p: seq<Byte>, q: seq<Byte>)
    ensures Free(s, p + q) == Free(Free(s, p), q)
    decreases |p|
  {
    if p == [] {
      assert p + q == q;
    } else if !s.done {
      assert (p + q)[1..] == p[1..] + q;
      FreeAppend(FreeStep(s, p[0]), p[1..], q);
    }
  }
}
