/**
  The bounded stream line reader of internal/agent/claude.go. It reads agent
  stdout in chunks, keeps one line buffer, and delivers, skips or rejects each
  line. The buffer is a Go slice: a backing array whose length is the capacity,
  and a count of the bytes in use.
 */
module StreamReader {
  import opened Bytes
  import JsonText
  import JsonTypeScanner

  const CHUNK_BYTES: nat := 65536         // streamReadBufferBytes
  const DETECT_BUDGET: nat := 65536       // streamDetectBudgetBytes
  const LINE_CAP: nat := 1048576          // maxNonTerminalLineBytes
  const TERMINAL_LINE_CAP: nat := 16777216 // maxStreamLineBytes

  const RESULT: seq<byte> := [114, 101, 115, 117, 108, 116]
  const TURN_COMPLETED: seq<byte> := [116, 117, 114, 110, 46, 99, 111, 109, 112, 108, 101, 116, 101, 100]
  const TURN_FAILED: seq<byte> := [116, 117, 114, 110, 46, 102, 97, 105, 108, 101, 100]

  predicate IsTerminalStreamType(t: seq<byte>) {
    t == RESULT || t == TURN_COMPLETED || t == TURN_FAILED
  }

  // ----- what a stream means, without chunks

  // How the stream ends, once every byte has been read.
  datatype End = Eof | Failed

  datatype Outcome =
    | Delivered(text: seq<byte>)
    | Dropped(length: nat, typ: seq<byte>)
    | TooLong
    | EndOfStream
    | ReadFailed
  {
    predicate IsLine() { Delivered? || Dropped? }
  }

  predicate NoLineFeed(s: seq<byte>) { LINE_FEED !in s }

  function LineLength(s: seq<byte>): (n: nat)
    ensures n <= |s| && NoLineFeed(s[..n])
    ensures n < |s| ==> s[n] == LINE_FEED
  {
    if s == [] || s[0] == LINE_FEED then 0
    else
      var n := LineLength(s[1..]);
      assert s[..n + 1] == [s[0]] + s[1..][..n];
      n + 1
  }

  function TrimCarriageReturn(line: seq<byte>): seq<byte> {
    if |line| > 0 && line[|line| - 1] == CARRIAGE_RETURN then line[..|line| - 1] else line
  }

  /** What becomes of one line, seen whole. */
  function Judge(line: seq<byte>): Outcome {
    if |line| <= LINE_CAP then Delivered(TrimCarriageReturn(line))
    else match JsonTypeScanner.DetectSpec(line[..DETECT_BUDGET])
      case None => Dropped(|line|, [])
      case Some(typ) =>
        if !IsTerminalStreamType(typ) then Dropped(|line|, typ)
        else if |line| <= TERMINAL_LINE_CAP then Delivered(TrimCarriageReturn(line))
        else TooLong
  }

  /** The next result of a stream `s`. */
  function NextOutcome(s: seq<byte>, end: End): Outcome {
    var n := LineLength(s);
    if n < |s| then Judge(s[..n])
    else if end.Failed? then if Judge(s).TooLong? then TooLong else ReadFailed
    else if s == [] then EndOfStream
    else Judge(s)
  }

  function AfterLine(s: seq<byte>): seq<byte> {
    var n := LineLength(s);
    if n < |s| then s[n + 1..] else []
  }

  /** Every result up to and including the first error. */
  function Outcomes(s: seq<byte>, end: End): seq<Outcome>
    decreases |s|
  {
    var o := NextOutcome(s, end);
    if o.IsLine() then [o] + Outcomes(AfterLine(s), end) else [o]
  }

  // ----- the chunked source: bufio.Reader.ReadSlice('\n')

  datatype ReadError = NoError | BufferFull | Ended(end: End)

  class ChunkReader {
    var rest: seq<byte>
    const end: End

    constructor (stream: seq<byte>, end: End)
      ensures rest == stream && this.end == end
    {
      rest := stream;
      this.end := end;
    }

    /** Any split of the stream: a line's end, a full buffer, or the stream's end. */
    method ReadSlice() returns (chunk: seq<byte>, err: ReadError)
      modifies this
      ensures old(rest) == chunk + rest && |chunk| <= CHUNK_BYTES
      ensures err.NoError? ==> |chunk| > 0 && chunk[|chunk| - 1] == LINE_FEED && NoLineFeed(chunk[..|chunk| - 1])
      ensures err.BufferFull? ==> |chunk| > 0 && NoLineFeed(chunk)
      ensures err.Ended? ==> rest == [] && err.end == end && NoLineFeed(chunk)
    {
      var n: nat := 0;
      assert NoLineFeed(rest[..0]);
      n :| n <= |rest| && n <= CHUNK_BYTES && NoLineFeed(rest[..n]);
      var stopHere: bool := *;
      if n < |rest| && rest[n] == LINE_FEED && n < CHUNK_BYTES && (n == 0 || stopHere) {
        assert rest[..n + 1][..n] == rest[..n];
        err := NoError;
        n := n + 1;
      } else if n == |rest| && (n == 0 || stopHere) {
        err := Ended(end);
      } else {
        n := if n == 0 then 1 else n;
        err := BufferFull;
      }
      chunk := rest[..n];
      rest := rest[n..];
    }
  }

  // ----- the reader

  datatype Slice = Slice(data: array<byte>, len: nat)

  datatype Result = Line(bytes: array<byte>) | Skipped(length: nat, typ: seq<byte>) | Error(outcome: Outcome)

  // What a slice holds.
  ghost function Text(s: Slice): seq<byte>
    requires s.len <= s.data.Length
    reads s.data
  {
    s.data[..s.len]
  }

  lemma EmptySlice(data: array<byte>)
    ensures Text(Slice(data, 0)) == []
  {
  }

  // Go's append: in place while the capacity lasts, else a larger array.
  method Append(s: Slice, chunk: seq<byte>) returns (t: Slice, ghost reallocated: bool)
    requires s.len <= s.data.Length
    modifies s.data
    ensures t.len == s.len + |chunk| <= t.data.Length
    ensures t.data[..t.len] == old(s.data[..s.len]) + chunk
    ensures reallocated <==> s.len + |chunk| > s.data.Length
    ensures if reallocated then fresh(t.data) else t.data == s.data
  {
    var data := s.data;
    reallocated := s.len + |chunk| > data.Length;
    if s.len + |chunk| > data.Length {
      var capacity: nat :| capacity >= s.len + |chunk|;
      data := Grow(s, capacity);
    }
    forall k | 0 <= k < |chunk| {
      data[s.len + k] := chunk[k];
    }
    t := Slice(data, s.len + |chunk|);
  }

  /** Before the decision the buffer grows once, to the cap, so append never has to. */
  method Extend(s: Slice, chunk: seq<byte>, decided: bool) returns (t: Slice, ghost reallocated: bool)
    requires s.len <= s.data.Length
    requires !decided ==> s.len + |chunk| <= LINE_CAP + 1
    modifies s.data
    ensures t.len == s.len + |chunk| <= t.data.Length && (t.data == s.data || fresh(t.data))
    ensures Text(t) == old(Text(s)) + chunk
    ensures !decided ==> !reallocated && (t.data == s.data || t.data.Length == LINE_CAP + 1)
  {
    var line := s;
    if line.len + |chunk| > line.data.Length && !decided {
      var grown := Grow(line, LINE_CAP + 1);
      line := Slice(grown, line.len);
    }
    t, reallocated := Append(line, chunk);
  }

  // make and copy into a larger backing array
  method Grow(s: Slice, capacity: nat) returns (data: array<byte>)
    requires s.len <= s.data.Length && s.len <= capacity
    ensures fresh(data) && data.Length == capacity && data[..s.len] == s.data[..s.len]
  {
    data := new byte[capacity];
    forall k | 0 <= k < s.len {
      data[k] := s.data[k];
    }
  }

  ghost predicate Means(r: Result, o: Outcome)
    reads if r.Line? then {r.bytes} else {}
  {
    match r
    case Line(bytes) => o == Delivered(bytes[..])
    case Skipped(length, typ) => o == Dropped(length, typ)
    case Error(outcome) => o == outcome && !o.IsLine()
  }

  class StreamLineReader {
    const br: ChunkReader
    var buf: array<byte>              // the reusable line buffer, empty between calls

    ghost predicate Valid()
      reads this
    {
      buf.Length <= LINE_CAP + 1
    }

    constructor (br: ChunkReader)
      ensures Valid() && fresh(buf) && this.br == br
    {
      this.br := br;
      buf := new byte[DETECT_BUDGET + CHUNK_BYTES];
    }

    /** The next line under the three size limits, whatever the chunks. */
    method Next() returns (r: Result, ghost reallocated: bool)
      requires Valid()
      modifies this, buf, br
      ensures Valid() && (buf == old(buf) || fresh(buf)) && buf.Length >= old(buf).Length
      ensures r.Line? ==> fresh(r.bytes) && r.bytes != buf
      ensures Means(r, NextOutcome(old(br.rest), br.end))
      ensures !r.Error? ==> br.rest == AfterLine(old(br.rest))
      // append reallocates only for a terminal line over the 1 MiB cap
      ensures reallocated ==>
        |old(br.rest)| > LINE_CAP && LineLength(old(br.rest)) > LINE_CAP && TerminalHead(old(br.rest))
    {
      hide Means, NextOutcome, AfterLine, TerminalHead, HeadType, LineLength, NoLineFeed, Text;
      ghost var s := br.rest;
      ghost var held: seq<byte> := [];
      NothingHeld();
      var line := Slice(buf, 0);
      reallocated := false;
      var limit := LINE_CAP;
      var decided := false;
      var typ: seq<byte> := [];
      var err := BufferFull;
      EmptySlice(buf);
      while true
        modifies buf, br
        invariant line.data == buf || fresh(line.data)
        invariant line.len <= line.data.Length && held == Text(line) && |held| == line.len
        invariant s == held + br.rest && NoLineFeed(held)
        invariant !decided ==> limit == LINE_CAP && line.len <= LINE_CAP && line.data.Length <= LINE_CAP + 1
        invariant !decided ==> !reallocated
        invariant decided ==> limit == TERMINAL_LINE_CAP && LineLength(s) > LINE_CAP && TerminalHead(s)
        decreases |br.rest|
      {
        var chunk, content;
        chunk, content, err, limit, decided, typ := ReadAndDecide(line, limit, decided, typ, s, held);
        if decided && line.len + content > limit {
          r := Refuse(limit, line.len + content, typ, err, s, held + chunk);
          return;
        }
        ghost var moved;
        line, moved := Extend(line, chunk, decided);
        reallocated := reallocated || moved;
        held := held + chunk;
        if !err.BufferFull? {
          break;
        }
      }
      r := Conclude(line, err, s);
    }

    // The next chunk, and the decision when the line goes over the cap with it.
    method ReadAndDecide(line: Slice, limit0: nat, decided0: bool, typ0: seq<byte>, ghost s: seq<byte>, ghost held: seq<byte>)
      returns (chunk: seq<byte>, content: nat, err: ReadError, limit: nat, decided: bool, typ: seq<byte>)
      requires line.len <= line.data.Length && held == Text(line) && s == held + br.rest && NoLineFeed(held)
      requires !decided0 ==> limit0 == LINE_CAP && line.len <= LINE_CAP
      requires decided0 ==> limit0 == TERMINAL_LINE_CAP && LineLength(s) > LINE_CAP && TerminalHead(s)
      modifies br
      ensures s == held + chunk + br.rest && content == |chunk| - (if err.NoError? then 1 else 0)
      ensures |br.rest| <= |old(br.rest)| && (err.BufferFull? ==> |br.rest| < |old(br.rest)|)
      ensures err.NoError? ==> LineLength(s) == |held| + content < |s| && AfterLine(s) == br.rest
      ensures !err.NoError? ==> LineLength(s) >= |held| + |chunk| && NoLineFeed(held + chunk)
      ensures err.Ended? ==> LineLength(s) == |s| == |held| + |chunk| && AfterLine(s) == br.rest && err.end == br.end
      ensures !decided ==> limit == LINE_CAP && line.len + content <= LINE_CAP
      ensures decided0 ==> decided
      ensures decided ==> LineLength(s) > LINE_CAP && (decided0 || line.len + content > LINE_CAP)
      ensures decided ==> if TerminalHead(s) then limit == TERMINAL_LINE_CAP else limit == 0 && typ == HeadType(s)
    {
      hide NextOutcome, AfterLine, TerminalHead, HeadType, LineLength, NoLineFeed;
      limit, decided, typ := limit0, decided0, typ0;
      chunk, err := br.ReadSlice();
      content := |chunk|;
      if err.NoError? {
        content := content - 1;
      }
      LineGoesOn(s, held, chunk, br.rest, err);
      if line.len + content > limit && !decided {
        limit, typ := Decide(line, s);
        decided := true;
      }
    }

    // The line or the stream has ended, and what ended it is in the buffer.
    method Conclude(line: Slice, err: ReadError, ghost s: seq<byte>) returns (r: Result)
      requires Valid() && !err.BufferFull? && line.len <= line.data.Length && Text(line) <= s
      requires err.NoError? ==> LineLength(s) == line.len - 1 < |s|
      requires err.Ended? ==> LineLength(s) == line.len == |s| && err.end == br.end
      requires LineLength(s) <= LINE_CAP || (TerminalHead(s) && LineLength(s) <= TERMINAL_LINE_CAP)
      modifies this`buf
      ensures Valid() && (buf == old(buf) || buf == line.data) && buf.Length >= old(buf).Length
      ensures r.Line? ==> fresh(r.bytes)
      ensures Means(r, NextOutcome(s, br.end))
    {
      hide NextOutcome, TerminalHead, TrimCarriageReturn, LineLength;
      if err.NoError? {
        DeliveredLine(s, br.end, line.data[..line.len - 1]);
        var bytes := Finish(Slice(line.data, line.len - 1));
        r := Line(bytes);
      } else if err.end.Eof? && line.len > 0 {
        DeliveredLine(s, br.end, line.data[..line.len]);
        var bytes := Finish(line);
        r := Line(bytes);
      } else {
        NoMoreLines(s, br.end);
        r := Error(if err.end.Eof? then EndOfStream else ReadFailed);
      }
    }

    // The decision point: the limit the line's first 64 KiB earn it.
    method Decide(line: Slice, ghost s: seq<byte>) returns (limit: nat, typ: seq<byte>)
      requires DETECT_BUDGET <= line.len <= line.data.Length && line.data[..line.len] <= s
      ensures limit == if TerminalHead(s) then TERMINAL_LINE_CAP else 0
      ensures typ == HeadType(s)
    {
      hide IsTerminalStreamType, TerminalHead, HeadType;
      var found;
      typ, found := JsonTypeScanner.DetectStreamLineType(line.data[..DETECT_BUDGET]);
      assert line.data[..DETECT_BUDGET] == line.data[..line.len][..DETECT_BUDGET];
      HeadDecides(s, line.data[..line.len], typ, found);
      limit := if found && IsTerminalStreamType(typ) then TERMINAL_LINE_CAP else 0;
    }

    // A line over the limit it has earned: too long, or skipped to its end.
    method Refuse(limit: nat, seen: nat, typ: seq<byte>, err: ReadError, ghost s: seq<byte>, ghost head: seq<byte>) returns (r: Result)
      requires s == head + br.rest && LineLength(s) > LINE_CAP
      requires limit == TERMINAL_LINE_CAP ==> TerminalHead(s) && limit < seen <= LineLength(s)
      requires limit != TERMINAL_LINE_CAP ==> !TerminalHead(s) && typ == HeadType(s)
      requires err.NoError? ==> LineLength(s) == seen < |s| && AfterLine(s) == br.rest
      requires err.BufferFull? ==> NoLineFeed(head) && seen == |head|
      requires err.Ended? ==> LineLength(s) == |s| == seen && AfterLine(s) == br.rest && err.end == br.end
      modifies br
      ensures !r.Line? && Means(r, NextOutcome(s, br.end)) && (!r.Error? ==> br.rest == AfterLine(s))
    {
      hide NextOutcome, AfterLine, TerminalHead, HeadType, LineLength, NoLineFeed;
      if limit == TERMINAL_LINE_CAP {
        OverTheCap(s, br.end, seen);
        r := Error(TooLong);
        return;
      }
      r := Skip(seen, typ, err, s, head);
    }

    // The rest of a line that is not kept, `head` of which has been read.
    method Skip(seen: nat, typ: seq<byte>, err: ReadError, ghost s: seq<byte>, ghost head: seq<byte>) returns (r: Result)
      requires s == head + br.rest && LineLength(s) > LINE_CAP && !TerminalHead(s) && typ == HeadType(s)
      requires err.NoError? ==> LineLength(s) == seen < |s| && AfterLine(s) == br.rest
      requires err.BufferFull? ==> NoLineFeed(head) && seen == |head|
      requires err.Ended? ==> LineLength(s) == |s| == seen && AfterLine(s) == br.rest && err.end == br.end
      modifies br
      ensures !r.Line? && Means(r, NextOutcome(s, br.end)) && (!r.Error? ==> br.rest == AfterLine(s))
    {
      hide NextOutcome, AfterLine, TerminalHead, HeadType, LineLength, NoLineFeed;
      SkippedLine(s, br.end, typ);
      if err.BufferFull? { RestOfSkippedLine(s, head, br.rest); }
      var n, failed := DiscardRest(seen, err);
      r := if failed then Error(ReadFailed) else Skipped(n, typ);
    }

    /** Copies the line out; keeps its buffer for the next one unless it grew too far. */
    method Finish(line: Slice) returns (out: array<byte>)
      requires Valid() && line.len <= line.data.Length
      modifies this`buf
      ensures Valid() && fresh(out) && out[..] == TrimCarriageReturn(line.data[..line.len])
      ensures buf == if line.data.Length > old(buf).Length && line.data.Length <= LINE_CAP + 1 then line.data else old(buf)
    {
      var n := line.len;
      if n > 0 && line.data[n - 1] == CARRIAGE_RETURN {
        n := n - 1;
      }
      out := new byte[n];
      forall k | 0 <= k < n {
        out[k] := line.data[k];
      }
      if line.data.Length > buf.Length && line.data.Length <= LINE_CAP + 1 {
        buf := line.data;
      }
    }

    /** Drops the rest of a skipped line and counts it. */
    method DiscardRest(seen0: nat, err0: ReadError) returns (seen: nat, failed: bool)
      requires err0.Ended? ==> err0.end == br.end
      modifies br
      ensures !err0.BufferFull? ==> br.rest == old(br.rest) && failed == (err0.Ended? && br.end.Failed?)
      ensures !err0.BufferFull? && !failed ==> seen == seen0
      ensures err0.BufferFull? ==> failed == (LineLength(old(br.rest)) == |old(br.rest)| && br.end.Failed?)
      ensures err0.BufferFull? && !failed ==>
        seen == seen0 + LineLength(old(br.rest)) && br.rest == AfterLine(old(br.rest))
    {
      seen := seen0;
      var err := err0;
      ghost var s := br.rest;
      ghost var dropped: seq<byte> := [];
      while true
        invariant !err0.BufferFull? ==> err == err0 && dropped == [] && br.rest == s
        invariant err.NoError? && err0.BufferFull? ==>
                    dropped == s[..LineLength(s)] && LineLength(s) < |s| && br.rest == AfterLine(s)
        invariant err.BufferFull? ==> s == dropped + br.rest && NoLineFeed(dropped)
        invariant err.Ended? ==> err.end == br.end
        invariant err.Ended? && err0.BufferFull? ==> br.rest == [] && s == dropped && NoLineFeed(dropped)
        invariant seen == seen0 + |dropped|
        decreases err.BufferFull?, |br.rest|
      {
        if err.NoError? || err == Ended(Eof) {
          if err0.BufferFull? && err.Ended? { LineIsAll(s, dropped); }
          return seen, false;
        } else if !err.BufferFull? {
          if err0.BufferFull? { LineIsAll(s, dropped); }
          return 0, true;
        }
        var chunk;
        ghost var before := br.rest;
        chunk, err := br.ReadSlice();
        seen := seen + |chunk|;
        if err.NoError? {
          seen := seen - 1;
          LineEndsAt(s, dropped + chunk[..|chunk| - 1], br.rest) by {
            assert chunk == chunk[..|chunk| - 1] + [LINE_FEED];
          }
          dropped := dropped + chunk[..|chunk| - 1];
        } else {
          dropped := dropped + chunk;
        }
      }
    }

    /**
      Reads the whole stream. Every line handed out still holds its text when
      all the later calls have been made.
     */
    method ReadAll() returns (results: seq<Result>)
      requires Valid()
      modifies this, buf, br
      ensures |results| == |Outcomes(old(br.rest), br.end)|
      ensures forall k {:trigger results[k]} | 0 <= k < |results| :: Means(results[k], Outcomes(old(br.rest), br.end)[k])
    {
      hide NextOutcome, AfterLine, Outcomes;
      ghost var s := br.rest;
      ghost var done: seq<Outcome> := [];
      results := [];
      while true
        invariant Valid() && (buf == old(buf) || fresh(buf))
        invariant |results| == |done| && Outcomes(s, br.end) == done + Outcomes(br.rest, br.end)
        invariant forall k {:trigger results[k]} | 0 <= k < |results| :: results[k].Line? ==>
                    fresh(results[k].bytes) && results[k].bytes != buf
        invariant forall k {:trigger results[k]} | 0 <= k < |results| :: Means(results[k], done[k])
        decreases |br.rest|
      {
        OutcomesStep(br.rest, br.end);
        ghost var o := NextOutcome(br.rest, br.end);
        var r, _ := Next();
        assert done + ([o] + Outcomes(br.rest, br.end)) == done + [o] + Outcomes(br.rest, br.end);
        results := results + [r];
        done := done + [o];
        if r.Error? {
          return;
        }
      }
    }
  }

  lemma OutcomesStep(s: seq<byte>, end: End)
    ensures NextOutcome(s, end).IsLine() ==>
      |AfterLine(s)| < |s| && Outcomes(s, end) == [NextOutcome(s, end)] + Outcomes(AfterLine(s), end)
    ensures !NextOutcome(s, end).IsLine() ==> Outcomes(s, end) == [NextOutcome(s, end)]
  {
  }

  // The line's first 64 KiB say it is terminal.
  ghost predicate TerminalHead(s: seq<byte>) {
    |s| >= DETECT_BUDGET &&
    match JsonTypeScanner.DetectSpec(s[..DETECT_BUDGET])
    case None => false
    case Some(typ) => IsTerminalStreamType(typ)
  }

  // The type found there, if any.
  function HeadType(s: seq<byte>): seq<byte>
    requires |s| >= DETECT_BUDGET
  {
    match JsonTypeScanner.DetectSpec(s[..DETECT_BUDGET])
    case None => []
    case Some(typ) => typ
  }

  // ----- where lines end

  lemma {:induction false} LineEndsAt(s: seq<byte>, line: seq<byte>, rest: seq<byte>)
    requires s == line + [LINE_FEED] + rest && NoLineFeed(line)
    ensures LineLength(s) == |line| && AfterLine(s) == rest && s[..|line|] == line
  {
    assert s[|line|] == LINE_FEED;
    assert forall k | 0 <= k < |line| :: s[k] == line[k];
    assert forall k | 0 <= k < LineLength(s) :: s[k] == s[..LineLength(s)][k];
    assert s[..|line|] == line;
    assert s[|line| + 1..] == rest;
  }

  lemma LineIsAll(s: seq<byte>, line: seq<byte>)
    requires s == line && NoLineFeed(line)
    ensures LineLength(s) == |s| && AfterLine(s) == []
  {
    assert forall k | 0 <= k < |s| :: s[k] == line[k];
  }

  lemma LineIsAtLeast(s: seq<byte>, held: seq<byte>, rest: seq<byte>)
    requires s == held + rest && NoLineFeed(held)
    ensures LineLength(s) >= |held|
  {
    assert forall k | 0 <= k < |held| :: s[k] == held[k];
  }

  // What one more chunk says about the line being read.
  lemma LineGoesOn(s: seq<byte>, held: seq<byte>, chunk: seq<byte>, after: seq<byte>, err: ReadError)
    requires s == held + chunk + after && NoLineFeed(held)
    requires err.NoError? ==> |chunk| > 0 && chunk[|chunk| - 1] == LINE_FEED && NoLineFeed(chunk[..|chunk| - 1])
    requires !err.NoError? ==> NoLineFeed(chunk)
    requires err.Ended? ==> after == []
    ensures err.NoError? ==> LineLength(s) == |held| + |chunk| - 1 < |s| && AfterLine(s) == after
    ensures !err.NoError? ==> LineLength(s) >= |held| + |chunk| && NoLineFeed(held + chunk)
    ensures err.Ended? ==> LineLength(s) == |s| == |held| + |chunk| && AfterLine(s) == []
  {
    if err.NoError? {
      var line := held + chunk[..|chunk| - 1];
      assert chunk == chunk[..|chunk| - 1] + [LINE_FEED];
      LineEndsAt(s, line, after);
    } else {
      LineIsAtLeast(s, held + chunk, after);
      if err.Ended? {
        LineIsAll(s, held + chunk);
      }
    }
  }

  lemma NothingHeld()
    ensures NoLineFeed([])
  {
  }

  // The 64 KiB held at the decision are the line's own first 64 KiB.
  lemma HeadDecides(s: seq<byte>, held: seq<byte>, typ: seq<byte>, found: bool)
    requires held <= s && |held| >= DETECT_BUDGET
    requires found <==> JsonTypeScanner.DetectSpec(held[..DETECT_BUDGET]).Some?
    requires found ==> typ == JsonTypeScanner.DetectSpec(held[..DETECT_BUDGET]).value
    requires !found ==> typ == []
    ensures TerminalHead(s) <==> found && IsTerminalStreamType(typ)
    ensures typ == HeadType(s)
  {
    hide JsonTypeScanner.DetectSpec, IsTerminalStreamType;
    assert held[..DETECT_BUDGET] == s[..DETECT_BUDGET];
  }

  // A line over the cap is judged by the first 64 KiB of the stream it starts.
  lemma JudgedByHead(s: seq<byte>)
    requires LineLength(s) > LINE_CAP
    ensures var line := s[..LineLength(s)];
      Judge(line) == if !TerminalHead(s) then Dropped(|line|, HeadType(s))
                     else if |line| <= TERMINAL_LINE_CAP then Delivered(TrimCarriageReturn(line)) else TooLong
  {
    hide JsonTypeScanner.DetectSpec, IsTerminalStreamType, TrimCarriageReturn, LineLength;
    assert s[..LineLength(s)][..DETECT_BUDGET] == s[..DETECT_BUDGET];
  }

  lemma OutcomeOfLine(s: seq<byte>, end: End)
    ensures LineLength(s) < |s| || (end.Eof? && s != []) ==> NextOutcome(s, end) == Judge(s[..LineLength(s)])
    ensures LineLength(s) == |s| && end.Failed? ==>
      NextOutcome(s, end) == if Judge(s[..LineLength(s)]).TooLong? then TooLong else ReadFailed
    ensures s == [] && end.Eof? ==> NextOutcome(s, end) == EndOfStream
  {
    hide Judge, LineLength;
    if LineLength(s) == |s| { assert s[..|s|] == s; }
    if s == [] { assert LineLength(s) == 0; }
  }

  lemma DeliveredLine(s: seq<byte>, end: End, line: seq<byte>)
    requires line <= s && |line| == LineLength(s)
    requires |line| <= LINE_CAP || (TerminalHead(s) && |line| <= TERMINAL_LINE_CAP)
    requires LineLength(s) < |s| || (end.Eof? && s != [])
    ensures NextOutcome(s, end) == Delivered(TrimCarriageReturn(line))
  {
    hide NextOutcome, TerminalHead, LineLength, TrimCarriageReturn;
    OutcomeOfLine(s, end);
    assert line == s[..LineLength(s)];
    if |line| > LINE_CAP { JudgedByHead(s); }
  }

  lemma OverTheCap(s: seq<byte>, end: End, content: nat)
    requires TERMINAL_LINE_CAP < content <= LineLength(s) && TerminalHead(s)
    ensures Means(Error(TooLong), NextOutcome(s, end))
  {
    hide NextOutcome, TerminalHead, LineLength, Judge;
    OutcomeOfLine(s, end);
    JudgedByHead(s);
    assert s != [];
  }

  lemma SkippedLine(s: seq<byte>, end: End, typ: seq<byte>)
    requires LineLength(s) > LINE_CAP && !TerminalHead(s) && typ == HeadType(s)
    ensures NextOutcome(s, end)
         == if LineLength(s) == |s| && end.Failed? then ReadFailed else Dropped(LineLength(s), typ)
  {
    hide NextOutcome, TerminalHead, HeadType, LineLength, Judge;
    OutcomeOfLine(s, end);
    JudgedByHead(s);
    assert s != [];
  }

  lemma NoMoreLines(s: seq<byte>, end: End)
    requires LineLength(s) == |s| && (end.Eof? ==> s == [])
    requires |s| <= LINE_CAP || (TerminalHead(s) && |s| <= TERMINAL_LINE_CAP)
    ensures NextOutcome(s, end) == if end.Eof? then EndOfStream else ReadFailed
  {
    hide NextOutcome, TerminalHead, LineLength;
    OutcomeOfLine(s, end);
    if |s| > LINE_CAP { JudgedByHead(s); }
  }

  lemma NoLineFeedJoins(a: seq<byte>, b: seq<byte>)
    requires NoLineFeed(a) && NoLineFeed(b)
    ensures NoLineFeed(a + b)
  {
  }

  // A skipped line goes on after what has been read of it.
  lemma RestOfSkippedLine(s: seq<byte>, head: seq<byte>, after: seq<byte>)
    requires s == head + after && NoLineFeed(head)
    ensures LineLength(s) == |head| + LineLength(after) && AfterLine(s) == AfterLine(after)
    ensures LineLength(s) == |s| <==> LineLength(after) == |after|
  {
    hide NoLineFeed;
    if LineLength(after) < |after| {
      AtLineFeed(after);
      var line := after[..LineLength(after)];
      NoLineFeedJoins(head, line);
      LineEndsIn(s, head, line, AfterLine(after));
    } else {
      assert after[..|after|] == after;
      NoLineFeedJoins(head, after);
      LineIsAll(s, head + after);
    }
  }

  lemma AtLineFeed(s: seq<byte>)
    requires LineLength(s) < |s|
    ensures s == s[..LineLength(s)] + [LINE_FEED] + AfterLine(s)
  {
    hide LineLength, NoLineFeed;
    CutAt(s, LineLength(s));
  }

  lemma CutAt(s: seq<byte>, n: nat)
    requires n < |s| && s[n] == LINE_FEED
    ensures s == s[..n] + [LINE_FEED] + s[n + 1..]
  {
  }

  lemma LineEndsIn(s: seq<byte>, head: seq<byte>, line: seq<byte>, rest: seq<byte>)
    requires s == head + (line + [LINE_FEED] + rest) && NoLineFeed(head + line)
    ensures LineLength(s) == |head| + |line| && AfterLine(s) == rest
  {
    hide LineLength, AfterLine, NoLineFeed;
    assert s == (head + line) + [LINE_FEED] + rest;
    LineEndsAt(s, head + line, rest);
  }

  // ----- lines written out and read back

  function Terminated(lines: seq<seq<byte>>): seq<byte> {
    if lines == [] then [] else lines[0] + [LINE_FEED] + Terminated(lines[1..])
  }

  /** Each line judged on its own, up to the first that is too long; then the tail. */
  function Judged(lines: seq<seq<byte>>, tail: seq<byte>, end: End): seq<Outcome> {
    if lines == [] then
      if end.Failed? then [if Judge(tail).TooLong? then TooLong else ReadFailed]
      else if tail == [] then [EndOfStream]
      else if Judge(tail).TooLong? then [TooLong]
      else [Judge(tail), EndOfStream]
    else if Judge(lines[0]).TooLong? then [TooLong]
    else [Judge(lines[0])] + Judged(lines[1..], tail, end)
  }

  /** The stream of any lines and any unterminated tail is read as exactly those lines. */
  lemma {:induction false} LinesAreReadBack(lines: seq<seq<byte>>, tail: seq<byte>, end: End)
    requires forall k | 0 <= k < |lines| :: NoLineFeed(lines[k])
    requires NoLineFeed(tail)
    ensures Outcomes(Terminated(lines) + tail, end) == Judged(lines, tail, end)
    decreases |lines|
  {
    hide LineLength, AfterLine, NoLineFeed, NextOutcome, Judge, Outcomes;
    var s := Terminated(lines) + tail;
    OutcomesStep(s, end);
    OutcomeOfLine(s, end);
    if lines == [] {
      assert s == tail;
      TailIsReadBack(tail, end);
    } else {
      var rest := Terminated(lines[1..]) + tail;
      assert s == lines[0] + [LINE_FEED] + rest;
      LineEndsAt(s, lines[0], rest);
      JudgeIsLine(lines[0]);
      LinesAreReadBack(lines[1..], tail, end);
    }
  }

  lemma TailIsReadBack(tail: seq<byte>, end: End)
    requires NoLineFeed(tail)
    ensures Outcomes(tail, end) == Judged([], tail, end)
  {
    hide LineLength, AfterLine, NoLineFeed, NextOutcome, Judge, Outcomes;
    LineIsAll(tail, tail);
    assert tail[..|tail|] == tail;
    OutcomesStep(tail, end);
    OutcomeOfLine(tail, end);
    OutcomesStep([], end);
    OutcomeOfLine([], end);
    LineIsAll([], []);
    JudgeIsLine(tail);
  }

  lemma JudgeIsLine(line: seq<byte>)
    ensures Judge(line).IsLine() || Judge(line).TooLong?
  {
  }

  /** Every stream is such lines and such a tail. */
  lemma {:induction false} EveryStreamIsLines(s: seq<byte>) returns (lines: seq<seq<byte>>, tail: seq<byte>)
    ensures s == Terminated(lines) + tail && NoLineFeed(tail)
    ensures forall k | 0 <= k < |lines| :: NoLineFeed(lines[k])
    decreases |s|
  {
    var n := LineLength(s);
    if n == |s| {
      lines, tail := [], s;
      assert s[..n] == s;
    } else {
      var more;
      more, tail := EveryStreamIsLines(s[n + 1..]);
      lines := [s[..n]] + more;
      assert lines[1..] == more;
      assert s == s[..n] + [LINE_FEED] + s[n + 1..];
    }
  }

  // ----- what becomes of a line, written out

  // A line's bytes on the stream: the text, and a carriage return or none.
  ghost predicate Writes(raw: seq<byte>, text: seq<byte>) {
    LINE_FEED !in raw &&
    (raw == text + [CARRIAGE_RETURN] || (raw == text && (text == [] || text[|text| - 1] != CARRIAGE_RETURN)))
  }

  lemma TrimUndoesWriting(raw: seq<byte>, text: seq<byte>)
    requires Writes(raw, text)
    ensures TrimCarriageReturn(raw) == text
  {
    assert (text + [CARRIAGE_RETURN])[..|text|] == text;
  }

  lemma JudgedAt(raw: seq<byte>, rest: seq<byte>, end: End)
    requires LINE_FEED !in raw
    ensures NextOutcome(raw + [LINE_FEED] + rest, end) == Judge(raw)
    ensures raw != [] ==> NextOutcome(raw, Eof) == Judge(raw)
    ensures NextOutcome(raw, Failed) == if Judge(raw).TooLong? then TooLong else ReadFailed
    ensures NextOutcome([], Eof) == EndOfStream
  {
    hide Judge, LineLength, NextOutcome;
    LineEndsAt(raw + [LINE_FEED] + rest, raw, rest);
    OutcomeOfLine(raw + [LINE_FEED] + rest, end);
    LineIsAll(raw, raw);
    assert raw[..|raw|] == raw;
    OutcomeOfLine(raw, Eof);
    OutcomeOfLine(raw, Failed);
    OutcomeOfLine([], Eof);
  }

  /**
    A line of at most 1 MiB arrives with its text whole, without its line feed
    and a carriage return before it: in the middle of a stream, or as its
    unterminated end. A read error delivers nothing.
   */
  lemma LineArrivesWhole(raw: seq<byte>, text: seq<byte>, rest: seq<byte>, end: End)
    requires Writes(raw, text) && |raw| <= 1048576
    ensures NextOutcome(raw + [LINE_FEED] + rest, end) == Delivered(text)
    ensures NextOutcome(raw, Failed) == ReadFailed
    ensures NextOutcome(raw, Eof) == if raw == [] then EndOfStream else Delivered(text)
  {
    hide TrimCarriageReturn, NextOutcome;
    TrimUndoesWriting(raw, text);
    JudgedAt(raw, rest, end);
  }

  /**
    A longer line that starts with a JSON text is kept exactly when the first
    64 KiB hold a top-level type that ends a turn: whole up to 16 MiB, and the
    end of the stream over that. Any other is skipped, with its length and type.
   */
  lemma LongLineIsKeptForItsType(raw: seq<byte>, text: seq<byte>, space: seq<byte>, v: JsonText.Value, more: seq<byte>,
                                 rest: seq<byte>, end: End)
    requires Writes(raw, text) && |raw| > 1048576
    requires raw == space + JsonText.Render(v) + more && JsonText.Valid(v) && JsonText.AllSpace(space)
    ensures NextOutcome(raw + [LINE_FEED] + rest, end) ==
      if JsonText.StreamType(v).None? || |space| + JsonText.TypeEnd(v) > 65536 then Dropped(|raw|, [])
      else
        var typ := JsonText.StreamType(v).value;
        if typ != Ascii("result") && typ != Ascii("turn.completed") && typ != Ascii("turn.failed") then Dropped(|raw|, typ)
        else if |raw| <= 16777216 then Delivered(text)
        else TooLong
  {
    hide JsonText.Render, JsonText.Valid, JsonText.StreamType, JsonText.TypeEnd, JsonText.AllSpace, JsonTypeScanner.DetectSpec;
    hide TrimCarriageReturn, NextOutcome, Ascii, RESULT, TURN_COMPLETED, TURN_FAILED;
    TrimUndoesWriting(raw, text);
    JudgedAt(raw, rest, end);
    JsonTypeScanner.DetectsFirstTypeMember(space, v, more, DETECT_BUDGET);
    TerminalTypes();
  }

  lemma TerminalTypes()
    ensures Ascii("result") == RESULT && Ascii("turn.completed") == TURN_COMPLETED && Ascii("turn.failed") == TURN_FAILED
  {
    assert Ascii("result") == RESULT;
    assert Ascii("turn.completed") == TURN_COMPLETED;
    assert Ascii("turn.failed") == TURN_FAILED;
  }
}
