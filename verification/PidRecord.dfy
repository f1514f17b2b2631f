/**
  The text of the pid file (cmd/itervox/pidfile.go): how a record is written and
  read back, and which records of older daemons are read as they were written.
 */
module PidRecord {
  import opened Bytes
  import opened Text

  const TAB_CHAR: char := '\t'
  const LOCK_MARKER := "flock"
  const MAX_INT := 0x7fff_ffff_ffff_ffff

  datatype Record = Record(pid: int, workflow: string, locked: bool)

  // ----- decimal numbers

  function DigitOf(c: char): (d: int)
    requires '0' <= c <= '9'
    ensures 0 <= d <= 9
  {
    c as int - '0' as int
  }

  function CharOf(d: int): (c: char)
    requires 0 <= d <= 9
    ensures '0' <= c <= '9' && DigitOf(c) == d
  {
    (d + '0' as int) as char
  }

  // strconv.Itoa
  function Itoa(n: nat): (s: string)
    ensures s != "" && forall i | 0 <= i < |s| :: '0' <= s[i] <= '9'
  {
    if n < 10 then [CharOf(n)] else Itoa(n / 10) + [CharOf(n % 10)]
  }

  function Digits(s: string): Option<nat> {
    if s == "" then Some(0)
    else
      var c := s[|s| - 1];
      match Digits(s[..|s| - 1])
      case None => None
      case Some(n) => if '0' <= c <= '9' then Some(10 * n + DigitOf(c)) else None
  }

  // strconv.Atoi: an optional sign, at least one digit, 64 bits
  function Atoi(s: string): Option<int> {
    var body := if s != "" && (s[0] == '+' || s[0] == '-') then s[1..] else s;
    if body == "" then None
    else
      match Digits(body)
      case None => None
      case Some(n) =>
        var v: int := if s[0] == '-' then -(n as int) else n;
        if -MAX_INT - 1 <= v <= MAX_INT then Some(v) else None
  }

  lemma {:induction false} ItoaIsRead(n: nat)
    ensures Digits(Itoa(n)) == Some(n)
    decreases n
  {
    if n < 10 {
      var s := [CharOf(n)];
      assert s[..0] == "";
    } else {
      ItoaIsRead(n / 10);
      var s := Itoa(n / 10) + [CharOf(n % 10)];
      assert s[..|s| - 1] == Itoa(n / 10);
    }
  }

  lemma AtoiReadsItoa(n: nat)
    requires n <= MAX_INT
    ensures Atoi(Itoa(n)) == Some(n)
  {
    ItoaIsRead(n);
  }

  /** A number may have a sign; it must fit 64 bits. */
  lemma AtoiReads(n: nat)
    ensures Atoi(Itoa(n)) == Atoi("+" + Itoa(n)) == if n <= 0x7fff_ffff_ffff_ffff then Some(n) else None
    ensures Atoi("-" + Itoa(n)) == if n <= 0x8000_0000_0000_0000 then Some(-(n as int)) else None
  {
    ItoaIsRead(n);
    var s := Itoa(n);
    assert s[0] != '+' && s[0] != '-';
    hide Itoa, Digits;
    assert ("+" + Itoa(n))[1..] == Itoa(n) && ("-" + Itoa(n))[1..] == Itoa(n);
  }

  /** And nothing but digits after it. */
  lemma AtoiReadsOnlyNumbers(s: string)
    requires Atoi(s).Some?
    ensures var body := if s != "" && (s[0] == '+' || s[0] == '-') then s[1..] else s;
      body != "" && forall c | c in body :: '0' <= c <= '9'
  {
    DigitsAreDigits(if s != "" && (s[0] == '+' || s[0] == '-') then s[1..] else s);
  }

  lemma {:induction false} DigitsAreDigits(s: string)
    requires Digits(s).Some?
    ensures forall c | c in s :: '0' <= c <= '9'
    decreases |s|
  {
    if s != "" {
      DigitsAreDigits(s[..|s| - 1]);
      assert s == s[..|s| - 1] + [s[|s| - 1]];
    }
  }

  // ----- records

  // What a lock-holding daemon writes, and what an older one wrote.
  function Written(pid: nat, workflow: string): string { Itoa(pid) + "\t" + workflow + "\t" + LOCK_MARKER + "\n" }

  function WrittenLegacy(pid: nat, workflow: string): string { Itoa(pid) + "\t" + workflow + "\n" }

  method ParsePidRecord(data: string) returns (r: Option<Record>)
    ensures r == Parsed(data)
  {
    var line := TrimSpace(data);
    var parts := Split(line, TAB_CHAR);
    var p := Atoi(parts[0]);
    if p.None? {
      return None;
    }
    var rec := Record(p.value, "", false);
    if |parts| >= 3 && parts[|parts| - 1] == LOCK_MARKER {
      rec := rec.(locked := true, workflow := Join(parts[1..|parts| - 1], TAB_CHAR));
    } else if |parts| >= 2 {
      rec := rec.(workflow := Join(parts[1..], TAB_CHAR));
    }
    return Some(rec);
  }

  function Parsed(data: string): Option<Record> {
    var parts := Split(TrimSpace(data), TAB_CHAR);
    match Atoi(parts[0])
    case None => None
    case Some(pid) =>
      Some(if |parts| >= 3 && parts[|parts| - 1] == LOCK_MARKER
           then Record(pid, Join(parts[1..|parts| - 1], TAB_CHAR), true)
           else Record(pid, Join(parts[1..], TAB_CHAR), false))
  }

  lemma {:induction false} DigitsAreNoSpace(s: string)
    requires s != "" && forall i | 0 <= i < |s| :: '0' <= s[i] <= '9'
    ensures !IsSpace(s[0]) && !IsSpace(s[|s| - 1]) && Free(s, TAB_CHAR)
  {
  }

  /** A record read back is the record written, whatever the path: tabs, spaces and newlines included. */
  lemma RecordIsReadBack(pid: nat, workflow: string)
    requires pid <= MAX_INT
    ensures Parsed(Written(pid, workflow)) == Some(Record(pid, workflow, true))
  {
    var digits := Itoa(pid);
    DigitsAreNoSpace(digits);
    AtoiReadsItoa(pid);
    WrittenLine(digits, workflow);
    FieldsOfWritten(digits, workflow);
  }

  lemma WrittenLine(digits: string, workflow: string)
    requires digits != "" && !IsSpace(digits[0])
    ensures TrimSpace(digits + "\t" + workflow + "\t" + LOCK_MARKER + "\n") == digits + "\t" + workflow + "\t" + LOCK_MARKER
  {
    var line := digits + "\t" + workflow + "\t" + LOCK_MARKER;
    assert line[|line| - 1] == 'k' && line[0] == digits[0] && (line + "\n")[0] == digits[0];
    EndTrimsOnlyTheEnd(line, "\n");
    assert TrimEnd("\n") == "" by { assert "\n"[..0] == ""; }
  }

  lemma FieldsOfWritten(digits: string, workflow: string)
    requires Free(digits, TAB_CHAR)
    ensures var parts := Split(digits + "\t" + workflow + "\t" + LOCK_MARKER, TAB_CHAR);
      && |parts| >= 3 && parts[0] == digits && parts[|parts| - 1] == LOCK_MARKER
      && Join(parts[1..|parts| - 1], TAB_CHAR) == workflow
  {
    hide Split, Join;
    var left := digits + "\t" + workflow;
    SplitJoins(left, LOCK_MARKER, TAB_CHAR);
    SplitJoins(digits, workflow, TAB_CHAR);
    SplitOfFree(digits, TAB_CHAR);
    SplitOfFree(LOCK_MARKER, TAB_CHAR);
    var parts := Split(left + "\t" + LOCK_MARKER, TAB_CHAR);
    assert parts == [digits] + Split(workflow, TAB_CHAR) + [LOCK_MARKER];
    assert parts[1..|parts| - 1] == Split(workflow, TAB_CHAR);
    SplitIsJoin(workflow, TAB_CHAR);
  }

  predicate EndsInMarker(workflow: string) {
    |workflow| > |LOCK_MARKER| && workflow[|workflow| - |LOCK_MARKER| - 1..] == [TAB_CHAR] + LOCK_MARKER
  }

  /**
    An older daemon's record is read as it was written exactly when its path has
    no white space at the end and does not end in a tab and the lock marker.
   */
  lemma LegacyRecordIsReadBack(pid: nat, workflow: string)
    requires pid <= MAX_INT
    ensures Parsed(WrittenLegacy(pid, workflow)) == Some(Record(pid, workflow, false))
       <==> TrimEnd(workflow) == workflow && !EndsInMarker(workflow)
  {
    hide Split, Itoa, Atoi, TrimEnd, TrimSpace;
    var w := TrimEnd(workflow);
    var digits := Itoa(pid);
    DigitsAreNoSpace(digits);
    AtoiReadsItoa(pid);
    LegacyLine(pid, workflow);
    TrimIsNoLonger(workflow);
    SplitOfFree(digits, TAB_CHAR);
    if w == "" {
      assert digits + "" == digits;
      assert Split(digits, TAB_CHAR)[1..] == [];
    } else {
      FieldsOfLegacy(digits, w);
      assert digits + ("\t" + w) == digits + "\t" + w;
    }
  }

  // The fields after the pid give the path back, or the part before the marker.
  lemma FieldsOfLegacy(digits: string, w: string)
    requires Free(digits, TAB_CHAR)
    ensures var parts := Split(digits + "\t" + w, TAB_CHAR);
      && parts[0] == digits && Join(parts[1..], TAB_CHAR) == w
      && (|parts| >= 3 && parts[|parts| - 1] == LOCK_MARKER <==> EndsInMarker(w))
  {
    SplitJoins(digits, w, TAB_CHAR);
    SplitOfFree(digits, TAB_CHAR);
    var parts := Split(digits + "\t" + w, TAB_CHAR);
    assert parts == [digits] + Split(w, TAB_CHAR) && parts[1..] == Split(w, TAB_CHAR);
    SplitIsJoin(w, TAB_CHAR);
    MarkerIsLast(w);
  }

  lemma LegacyLine(pid: nat, workflow: string)
    ensures TrimSpace(WrittenLegacy(pid, workflow)) ==
      Itoa(pid) + if TrimEnd(workflow) == "" then "" else "\t" + TrimEnd(workflow)
  {
    var digits := Itoa(pid);
    DigitsAreNoSpace(digits);
    var rest := "\t" + workflow + "\n";
    assert WrittenLegacy(pid, workflow) == digits + rest;
    assert (digits + rest)[0] == digits[0];
    EndTrimsOnlyTheEnd(digits, rest);
    assert rest[..|rest| - 1] == "\t" + workflow;
    TrimEndOfTabbed(workflow);
  }

  lemma {:induction false} TrimEndOfTabbed(workflow: string)
    ensures TrimEnd("\t" + workflow) == if TrimEnd(workflow) == "" then "" else "\t" + TrimEnd(workflow)
    decreases |workflow|
  {
    var s := "\t" + workflow;
    if workflow == "" {
      assert s[..0] == "";
    } else {
      assert s[..|s| - 1] == "\t" + workflow[..|workflow| - 1];
      if IsSpace(workflow[|workflow| - 1]) {
        TrimEndOfTabbed(workflow[..|workflow| - 1]);
      }
    }
  }

  lemma {:induction false} TrimIsNoLonger(s: string)
    ensures |TrimEnd(s)| <= |s|
    decreases |s|
  {
    if s != "" {
      TrimIsNoLonger(s[..|s| - 1]);
    }
  }

  // The last of several tab-separated fields is the marker exactly when the text ends so.
  lemma {:induction false} MarkerIsLast(w: string)
    ensures var parts := Split(w, TAB_CHAR);
      |parts| >= 2 && parts[|parts| - 1] == LOCK_MARKER <==> EndsInMarker(w)
  {
    var parts := Split(w, TAB_CHAR);
    if EndsInMarker(w) {
      var head := w[..|w| - |LOCK_MARKER| - 1];
      assert w == head + [TAB_CHAR] + LOCK_MARKER;
      SplitJoins(head, LOCK_MARKER, TAB_CHAR);
      SplitOfFree(LOCK_MARKER, TAB_CHAR);
    }
    if |parts| >= 2 && parts[|parts| - 1] == LOCK_MARKER {
      var front := parts[..|parts| - 1];
      SplitIsJoin(w, TAB_CHAR);
      assert parts == front + [LOCK_MARKER];
      JoinOfFrontAndLast(front, LOCK_MARKER);
    }
  }

  lemma {:induction false} JoinOfFrontAndLast(front: seq<string>, last: string)
    requires front != []
    ensures Join(front + [last], TAB_CHAR) == Join(front, TAB_CHAR) + [TAB_CHAR] + last
    decreases |front|
  {
    var all := front + [last];
    assert all[1..] == front[1..] + [last];
    if |front| == 1 {
      assert front[1..] + [last] == [last];
    } else {
      JoinOfFrontAndLast(front[1..], last);
    }
  }
}
