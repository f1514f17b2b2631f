/**
  Restoring the blank lines between the top-level sections of a front matter
  after its node tree was encoded again (cmd/itervox/init_migrate_yaml.go).
 */
module BlankLines {
  import opened Bytes
  import opened Text

  // ----- lines

  // strings.Split(s, "\n")
  function Lines(s: string): (ls: seq<string>)
    ensures |ls| > 0
  {
    Split(s, '\n')
  }

  // strings.TrimRight(s, "\n")
  function TrimRight(s: string): string {
    if s != "" && s[|s| - 1] == '\n' then TrimRight(s[..|s| - 1]) else s
  }

  predicate IsComment(l: string) { |l| > 0 && l[0] == '#' }

  predicate KeyChar(c: char) {
    'A' <= c <= 'Z' || 'a' <= c <= 'z' || '0' <= c <= '9' || c == '_' || c == '.' || c == '-'
  }

  function KeyRun(l: string): nat { if l == "" || !KeyChar(l[0]) then 0 else 1 + KeyRun(l[1..]) }

  // The key of a column-0 mapping line: ^([A-Za-z0-9_.-]+):
  function KeyOf(l: string): Option<string> {
    var n := KeyRun(l);
    if 0 < n < |l| && l[n] == ':' then Some(l[..n]) else None
  }

  // ^([A-Za-z0-9_.-]+):
  ghost predicate IsKeyLine(l: string, key: string) {
    && key != "" && key + ":" <= l
    && forall i | 0 <= i < |key| :: 'A' <= key[i] <= 'Z' || 'a' <= key[i] <= 'z' || '0' <= key[i] <= '9' || key[i] in "_.-"
  }

  /** A line is a key line exactly when it starts with such a key and a colon. */
  lemma KeyLineIs(l: string, key: string)
    ensures KeyOf(l) == Some(key) <==> IsKeyLine(l, key)
  {
    KeyRunIs(l);
    var n := KeyRun(l);
    if IsKeyLine(l, key) {
      assert forall i | 0 <= i < |key| :: l[i] == (key + ":")[i] == key[i];
      assert l[|key|] == (key + ":")[|key|];
      assert l[..|key|] == key;
    }
    if KeyOf(l) == Some(key) {
      assert key + ":" == l[..n + 1];
    }
  }

  // The run of key characters ends at the first other one.
  lemma {:induction false} KeyRunIs(l: string)
    ensures KeyRun(l) <= |l| && (KeyRun(l) < |l| ==> !KeyChar(l[KeyRun(l)]))
    ensures forall i | 0 <= i < KeyRun(l) :: KeyChar(l[i])
    decreases |l|
  {
    if l != "" && KeyChar(l[0]) {
      KeyRunIs(l[1..]);
      assert forall i | 1 <= i < |l| :: l[i] == l[1..][i - 1];
    }
  }

  /** Only newlines are trimmed, and all of them. */
  lemma {:induction false} OnlyNewlinesAreTrimmed(s: string) returns (n: nat)
    ensures s == TrimRight(s) + seq(n, i => '\n')
    ensures TrimRight(s) == "" || TrimRight(s)[|TrimRight(s)| - 1] != '\n'
    decreases |s|
  {
    if s != "" && s[|s| - 1] == '\n' {
      var m := OnlyNewlinesAreTrimmed(s[..|s| - 1]);
      n := m + 1;
      assert s == s[..|s| - 1] + "\n";
      assert seq(n, i => '\n') == seq(m, i => '\n') + "\n";
    } else {
      n := 0;
    }
  }

  // Where the comment block that ends just before line n starts.
  function CommentStart(ls: seq<string>, n: nat): (k: nat)
    requires n <= |ls|
    ensures k <= n && forall j | k <= j < n :: IsComment(ls[j])
  {
    if n > 0 && IsComment(ls[n - 1]) then CommentStart(ls, n - 1) else n
  }

  // ----- the keys that want a blank line

  predicate AfterBlank(front: seq<string>, i: nat)
    requires i < |front|
  {
    CommentStart(front, i) > 0 && Blank(front[CommentStart(front, i) - 1])
  }

  /** The keys whose line, or comment block, follows a blank line. */
  function WantedKeys(front: seq<string>): set<string> {
    set i | 0 <= i < |front| && AfterBlank(front, i) && KeyOf(front[i]).Some? :: KeyOf(front[i]).value
  }

  // A line that starts with a number sign.
  predicate Hashed(l: string) { "#" <= l }

  // The key of line i, with the blank line j above it and the comment lines between.
  ghost predicate SetOff(front: seq<string>, key: string, i: nat, j: nat) {
    && j < i < |front| && IsKeyLine(front[i], key)
    && (forall k | j < k < i :: Hashed(front[k])) && forall c | c in front[j] :: IsSpace(c)
  }

  /** A key wants a blank line exactly when, above its line and any comment lines there, a line is blank. */
  lemma WantedExactlyWhen(front: seq<string>, key: string)
    ensures key in WantedKeys(front) <==> exists i, j :: SetOff(front, key, i, j)
  {
    hide KeyOf, SetOff, AfterBlank;
    if key in WantedKeys(front) {
      var i :| 0 <= i < |front| && AfterBlank(front, i) && KeyOf(front[i]).Some? && KeyOf(front[i]).value == key;
      var j := SetOffAt(front, key, i);
    }
    if i, j :| SetOff(front, key, i, j) {
      SetOffIsWanted(front, key, i, j);
    }
  }

  lemma SetOffAt(front: seq<string>, key: string, i: nat) returns (j: nat)
    requires i < |front| && AfterBlank(front, i) && KeyOf(front[i]) == Some(key)
    ensures SetOff(front, key, i, j)
  {
    hide KeyOf, CommentStart;
    KeyLineIs(front[i], key);
    j := CommentStart(front, i) - 1;
    assert forall k | j < k < i :: IsComment(front[k]);
  }

  lemma SetOffIsWanted(front: seq<string>, key: string, i: nat, j: nat)
    requires SetOff(front, key, i, j)
    ensures i < |front| && AfterBlank(front, i) && KeyOf(front[i]) == Some(key)
  {
    hide KeyOf, CommentStart;
    KeyLineIs(front[i], key);
    BlankIsNoComment(front[j]);
    assert forall k | j < k < i :: Hashed(front[k]) && IsComment(front[k]);
    CommentStartStops(front, j + 1, i);
  }

  lemma BlankIsNoComment(l: string)
    requires Blank(l)
    ensures !IsComment(l)
  {
    if l != "" {
      assert l[0] in l;
    }
  }

  method KeysPrecededByBlankLine(front: string) returns (keys: set<string>)
    ensures keys == WantedKeys(Lines(front))
  {
    hide KeyOf, CommentStart, Blank;
    keys := {};
    var lines := Lines(front);
    for i := 0 to |lines|
      invariant forall k :: k in keys <==> exists n | 0 <= n < i :: AfterBlank(lines, n) && KeyOf(lines[n]) == Some(k)
    {
      var m := KeyOf(lines[i]);
      if m.None? {
        continue;
      }
      var j := BlockStart(lines, i);
      if j > 0 && Blank(lines[j - 1]) {
        keys := keys + {m.value};
      }
    }
  }

  method BlockStart(ls: seq<string>, n: nat) returns (k: nat)
    requires n <= |ls|
    ensures k == CommentStart(ls, n)
  {
    k := n;
    while k > 0 && IsComment(ls[k - 1])
      invariant k <= n && CommentStart(ls, n) == CommentStart(ls, k)
    {
      k := k - 1;
    }
  }

  // ----- the pass over the encoded lines

  predicate Wants(keys: set<string>, l: string) { KeyOf(l).Some? && KeyOf(l).value in keys }

  // The next line, with a blank line above its comment block where one is wanted and missing.
  function Put(keys: set<string>, out: seq<string>, line: string): seq<string> {
    var at := CommentStart(out, |out|);
    (if Wants(keys, line) && at > 0 && out[at - 1] != "" then out[..at] + [""] + out[at..] else out) + [line]
  }

  function Restored(keys: set<string>, out: seq<string>, lines: seq<string>): seq<string>
    decreases |lines|
  {
    if lines == [] then out else Restored(keys, Put(keys, out, lines[0]), lines[1..])
  }

  function Restore(keys: set<string>, encoded: string): string {
    if keys == {} then encoded else Join(Restored(keys, [], Lines(TrimRight(encoded))), '\n') + "\n"
  }

  method RestoreTopLevelBlankLines(front: string, encoded: string) returns (text: string)
    ensures text == Restore(WantedKeys(Lines(front)), encoded)
  {
    var want := KeysPrecededByBlankLine(front);
    if want == {} {
      return encoded;
    }
    var lines := Lines(TrimRight(encoded));
    var out: seq<string> := [];
    hide Put, Lines, TrimRight;
    for i := 0 to |lines|
      invariant Restored(want, [], lines) == Restored(want, out, lines[i..]) && (i == 0 ==> out == [])
    {
      assert lines[i..][1..] == lines[i + 1..];
      out := AppendLine(want, out, i, lines[i]);
    }
    text := Join(out, '\n') + "\n";
  }

  // The i-th line goes out, after the blank line it wants.
  method AppendLine(want: set<string>, out0: seq<string>, i: nat, line: string) returns (out: seq<string>)
    requires i == 0 ==> out0 == []
    ensures out == Put(want, out0, line)
  {
    hide KeyOf, CommentStart;
    out := out0;
    var m := KeyOf(line);
    if m.Some? && m.value in want {
      var at := BlockStart(out, |out|);
      if at > 0 && out[at - 1] != "" && i > 0 {
        out := out[..at] + [""] + out[at..];
      }
    }
    out := out + [line];
  }

  // ----- only blank lines are added, and only above a wanted key

  // The text starts with comment lines, if any, and then a wanted key.
  predicate LeadsTo(keys: set<string>, ls: seq<string>) {
    ls != [] && (Wants(keys, ls[0]) || (IsComment(ls[0]) && LeadsTo(keys, ls[1..])))
  }

  /** out is ls with empty lines added, each right above the comment block or the line of a wanted key. */
  predicate Spread(keys: set<string>, ls: seq<string>, out: seq<string>)
    decreases |out|
  {
    if out == [] then ls == []
    else
      || (ls != [] && ls[0] == out[0] && Spread(keys, ls[1..], out[1..]))
      || (out[0] == "" && LeadsTo(keys, out[1..]) && Spread(keys, ls, out[1..]))
  }

  predicate AllComments(b: seq<string>) { forall l | l in b :: IsComment(l) }

  lemma {:induction false} LeadsStays(keys: set<string>, a: seq<string>, b: seq<string>)
    requires LeadsTo(keys, a)
    ensures LeadsTo(keys, a + b)
    decreases |a|
  {
    if !Wants(keys, a[0]) {
      assert (a + b)[1..] == a[1..] + b;
      LeadsStays(keys, a[1..], b);
    }
  }

  // A key line is no comment, so the key is not among the comments at the end.
  lemma {:induction false} LeadsWithin(keys: set<string>, a: seq<string>, b: seq<string>)
    requires LeadsTo(keys, a + b) && AllComments(b)
    ensures LeadsTo(keys, a)
    decreases |a| + |b|
  {
    if a == [] {
      assert a + b == b;
      CommentIsNoKey(keys, b[0]);
      assert b[1..] == [] + b[1..];
      LeadsWithin(keys, [], b[1..]);
    } else if !Wants(keys, a[0]) {
      assert (a + b)[1..] == a[1..] + b;
      LeadsWithin(keys, a[1..], b);
    }
  }

  lemma CommentIsNoKey(keys: set<string>, l: string)
    requires IsComment(l)
    ensures !Wants(keys, l)
  {
  }

  lemma EmptyIsNoKey(keys: set<string>)
    ensures !Wants(keys, "")
  {
  }

  lemma {:induction false} SpreadItself(keys: set<string>, ls: seq<string>)
    ensures Spread(keys, ls, ls)
    decreases |ls|
  {
    if ls != [] {
      SpreadItself(keys, ls[1..]);
    }
  }

  lemma {:induction false} SpreadJoins(keys: set<string>, ls: seq<string>, out: seq<string>, ms: seq<string>, more: seq<string>)
    requires Spread(keys, ls, out) && Spread(keys, ms, more)
    ensures Spread(keys, ls + ms, out + more)
    decreases |out|
  {
    if out == [] {
      assert ls + ms == ms && out + more == more;
    } else {
      assert (out + more)[1..] == out[1..] + more;
      if ls != [] && ls[0] == out[0] && Spread(keys, ls[1..], out[1..]) {
        assert (ls + ms)[1..] == ls[1..] + ms;
        SpreadJoins(keys, ls[1..], out[1..], ms, more);
      } else {
        LeadsStays(keys, out[1..], more);
        SpreadJoins(keys, ls, out[1..], ms, more);
      }
    }
  }

  lemma {:induction false} SpreadOfComments(keys: set<string>, ls: seq<string>, b: seq<string>)
    requires Spread(keys, ls, b) && AllComments(b)
    ensures ls == b
    decreases |b|
  {
    if b != [] {
      assert IsComment(b[0]);
      SpreadOfComments(keys, ls[1..], b[1..]);
      assert ls == [ls[0]] + ls[1..] && b == [b[0]] + b[1..];
    }
  }

  // Comments at the end were comments at the end.
  lemma {:induction false} SpreadSplits(keys: set<string>, ls: seq<string>, a: seq<string>, b: seq<string>) returns (front: seq<string>)
    requires Spread(keys, ls, a + b) && AllComments(b)
    ensures ls == front + b && Spread(keys, front, a)
    decreases |a|
  {
    if a == [] {
      assert a + b == b;
      SpreadOfComments(keys, ls, b);
      front := [];
      assert ls == front + b;
    } else {
      assert (a + b)[1..] == a[1..] + b;
      hide IsComment, LeadsTo;
      if ls != [] && ls[0] == a[0] && Spread(keys, ls[1..], a[1..] + b) {
        var rest := SpreadSplits(keys, ls[1..], a[1..], b);
        front := [ls[0]] + rest;
        assert ls == [ls[0]] + ls[1..] && front[1..] == rest;
      } else {
        LeadsWithin(keys, a[1..], b);
        front := SpreadSplits(keys, ls, a[1..], b);
      }
    }
  }

  lemma {:induction false} LeadsOverComments(keys: set<string>, b: seq<string>, line: string)
    requires AllComments(b) && Wants(keys, line)
    ensures LeadsTo(keys, b + [line])
    decreases |b|
  {
    if b != [] {
      assert (b + [line])[1..] == b[1..] + [line];
      LeadsOverComments(keys, b[1..], line);
    }
  }

  lemma PutSpreads(keys: set<string>, ls: seq<string>, out: seq<string>, line: string)
    requires Spread(keys, ls, out)
    ensures Spread(keys, ls + [line], Put(keys, out, line))
  {
    hide Wants, Spread;
    var at := CommentStart(out, |out|);
    if Wants(keys, line) && at > 0 && out[at - 1] != "" {
      assert AllComments(out[at..]);
      assert out == out[..at] + out[at..];
      InsertSpreads(keys, ls, out[..at], out[at..], line);
      assert Put(keys, out, line) == out[..at] + ([""] + (out[at..] + [line]));
    } else {
      SpreadItself(keys, [line]);
      SpreadJoins(keys, ls, out, [line], [line]);
    }
  }

  lemma InsertSpreads(keys: set<string>, ls: seq<string>, a: seq<string>, b: seq<string>, line: string)
    requires Spread(keys, ls, a + b) && AllComments(b) && Wants(keys, line)
    ensures Spread(keys, ls + [line], a + ([""] + (b + [line])))
  {
    hide Wants, IsComment, AllComments, LeadsTo;
    var front := SpreadSplits(keys, ls, a, b);
    LeadsOverComments(keys, b, line);
    SpreadItself(keys, b + [line]);
    assert ([""] + (b + [line]))[1..] == b + [line];
    assert Spread(keys, b + [line], [""] + (b + [line]));
    hide Spread;
    SpreadJoins(keys, front, a, b + [line], [""] + (b + [line]));
    assert ls + [line] == front + (b + [line]);
  }

  lemma {:induction false} RestoredSpreads(keys: set<string>, done: seq<string>, out: seq<string>, lines: seq<string>)
    requires Spread(keys, done, out)
    ensures Spread(keys, done + lines, Restored(keys, out, lines))
    decreases |lines|
  {
    hide Spread, Put;
    if lines == [] {
      assert done + lines == done;
    } else {
      PutSpreads(keys, done, out, lines[0]);
      RestoredSpreads(keys, done + [lines[0]], Put(keys, out, lines[0]), lines[1..]);
      assert done + lines == done + [lines[0]] + lines[1..];
    }
  }

  // ----- every wanted key gets its blank line

  predicate SetApart(ls: seq<string>, j: nat)
    requires j < |ls|
  {
    CommentStart(ls, j) == 0 || ls[CommentStart(ls, j) - 1] == ""
  }

  /** Every wanted key not at the top has an empty line above its comment block. */
  predicate Spaced(keys: set<string>, ls: seq<string>) {
    forall j | 0 <= j < |ls| && Wants(keys, ls[j]) :: SetApart(ls, j)
  }

  lemma {:induction false} CommentStartPrefix(a: seq<string>, b: seq<string>, n: nat)
    requires n <= |a| && n <= |b| && forall j | 0 <= j < n :: a[j] == b[j]
    ensures CommentStart(a, n) == CommentStart(b, n)
  {
    if n > 0 {
      CommentStartPrefix(a, b, n - 1);
    }
  }

  lemma {:induction false} CommentStartStops(ls: seq<string>, k: nat, n: nat)
    requires k <= n <= |ls| && (forall j | k <= j < n :: IsComment(ls[j])) && (k > 0 ==> !IsComment(ls[k - 1]))
    ensures CommentStart(ls, n) == k
  {
    if n > k {
      CommentStartStops(ls, k, n - 1);
    }
  }

  lemma PutSpaces(keys: set<string>, out: seq<string>, line: string)
    requires Spaced(keys, out)
    ensures Spaced(keys, Put(keys, out, line))
  {
    hide Wants;
    var at := CommentStart(out, |out|);
    var out' := Put(keys, out, line);
    forall j | 0 <= j < |out'| && Wants(keys, out'[j])
      ensures SetApart(out', j)
    {
      if j == |out'| - 1 {
        if |out'| == |out| + 2 {
          CommentStartStops(out', at + 1, j);
        } else {
          CommentStartPrefix(out, out', |out|);
        }
      } else if j < at {
        CommentStartPrefix(out, out', j);
        assert out'[j] == out[j];
      } else if |out'| == |out| + 2 {
        if j == at {
          EmptyIsNoKey(keys);
        } else {
          assert out'[j] == out[j - 1];
          CommentIsNoKey(keys, out'[j]);
        }
      } else {
        CommentIsNoKey(keys, out'[j]);
      }
    }
  }

  lemma {:induction false} RestoredIsSpaced(keys: set<string>, out: seq<string>, lines: seq<string>)
    requires Spaced(keys, out)
    ensures Spaced(keys, Restored(keys, out, lines))
    decreases |lines|
  {
    hide Spaced, Put;
    if lines != [] {
      PutSpaces(keys, out, lines[0]);
      RestoredIsSpaced(keys, Put(keys, out, lines[0]), lines[1..]);
    }
  }

  // Lines that are spaced already are left alone.
  lemma {:induction false} SpacedStays(keys: set<string>, ls: seq<string>, i: nat)
    requires Spaced(keys, ls) && i <= |ls|
    ensures Restored(keys, ls[..i], ls[i..]) == ls
    decreases |ls| - i
  {
    if i < |ls| {
      var out := ls[..i];
      CommentStartPrefix(out, ls, i);
      assert Put(keys, out, ls[i]) == ls[..i + 1] by {
        if Wants(keys, ls[i]) {
          assert SetApart(ls, i);
        }
      }
      assert ls[i..][1..] == ls[i + 1..];
      SpacedStays(keys, ls, i + 1);
    } else {
      assert ls[..i] == ls && ls[i..] == [];
    }
  }

  // ----- from lines back to text

  lemma {:induction false} JoinEnds(ls: seq<string>)
    requires AllFree(ls, '\n') && ls != [] && ls[|ls| - 1] != ""
    ensures Join(ls, '\n') != "" && Join(ls, '\n')[|Join(ls, '\n')| - 1] != '\n'
    decreases |ls|
  {
    if |ls| > 1 {
      JoinEnds(ls[1..]);
      var j := Join(ls[1..], '\n');
      assert Join(ls, '\n')[|Join(ls, '\n')| - 1] == j[|j| - 1];
    } else {
      assert Free(ls[0], '\n');
    }
  }

  // The pass keeps lines lines, and keeps the last one last.
  lemma {:induction false} RestoredKeepsLast(keys: set<string>, out: seq<string>, lines: seq<string>)
    requires AllFree(out, '\n') && AllFree(lines, '\n')
    ensures AllFree(Restored(keys, out, lines), '\n') && |Restored(keys, out, lines)| >= |out| + |lines|
    ensures lines != [] ==> Restored(keys, out, lines)[|Restored(keys, out, lines)| - 1] == lines[|lines| - 1]
    ensures |lines| == 1 && out == [] ==> Restored(keys, out, lines) == lines
    decreases |lines|
  {
    if lines != [] {
      var out' := Put(keys, out, lines[0]);
      assert AllFree(out', '\n') && |out'| > |out| && out'[|out'| - 1] == lines[0] by { hide Wants, CommentStart; }
      RestoredKeepsLast(keys, out', lines[1..]);
    }
  }

  // What the written text is, as lines.
  lemma RestoredText(keys: set<string>, encoded: string)
    ensures var out := Restored(keys, [], Lines(TrimRight(encoded)));
      Lines(TrimRight(Join(out, '\n') + "\n")) == out
  {
    hide Split, Join, Restored;
    var s := TrimRight(encoded);
    var lines := Lines(s);
    var out := Restored(keys, [], lines);
    var _ := OnlyNewlinesAreTrimmed(encoded);
    SplitIsFree(s, '\n');
    if s != "" {
      SplitEnds(s, '\n');
    }
    RestoredKeepsLast(keys, [], lines);
    var text := Join(out, '\n');
    assert (text + "\n")[..|text|] == text;
    JoinIsSplit(out, '\n');
    if s != "" {
      JoinEnds(out);
    } else {
      EmptyText(keys);
    }
  }

  lemma EmptyText(keys: set<string>)
    ensures Lines("") == [""] && Restored(keys, [], [""]) == [""] && Join([""], '\n') == ""
  {
    RestoredKeepsLast(keys, [], [""]);
  }

  // ----- the guarantees, on text

  /**
    Trailing newlines aside, the restored text has the encoded lines in order;
    the others are empty, each right above a wanted key and its comment block;
    and every wanted key not at the top has an empty line there.
   */
  lemma OnlyBlankLinesAreAdded(keys: set<string>, encoded: string)
    ensures Spread(keys, Lines(TrimRight(encoded)), Lines(TrimRight(Restore(keys, encoded))))
    ensures Spaced(keys, Lines(TrimRight(Restore(keys, encoded))))
  {
    var lines := Lines(TrimRight(encoded));
    if keys == {} {
      SpreadItself(keys, lines);
    } else {
      hide Lines, TrimRight, Restored, Spaced;
      RestoredText(keys, encoded);
      RestoredSpreads(keys, [], [], lines);
      assert [] + lines == lines;
      assert Spaced(keys, []) by { NothingIsSpaced(keys); }
      RestoredIsSpaced(keys, [], lines);
    }
  }

  lemma NothingIsSpaced(keys: set<string>)
    ensures Spaced(keys, [])
  {
  }

  /**
    So each key that followed a blank line in the original, and is still there,
    follows one again unless it now comes first.
   */
  lemma OriginalBlankLinesAreBack(front: string, encoded: string, i: nat)
    requires i < |Lines(front)| && AfterBlank(Lines(front), i)
    ensures var out := Lines(TrimRight(Restore(WantedKeys(Lines(front)), encoded)));
      forall j | 0 <= j < |out| && KeyOf(out[j]).Some? && KeyOf(out[j]) == KeyOf(Lines(front)[i]) :: SetApart(out, j)
  {
    hide Lines, TrimRight, Restore, KeyOf;
    var keys := WantedKeys(Lines(front));
    OnlyBlankLinesAreAdded(keys, encoded);
    var out := Lines(TrimRight(Restore(keys, encoded)));
    forall j | 0 <= j < |out| && KeyOf(out[j]).Some? && KeyOf(out[j]) == KeyOf(Lines(front)[i])
      ensures SetApart(out, j)
    {
      assert Wants(keys, out[j]);
    }
  }

  /** The restored text ends in one newline, if any line was to be restored; else nothing changes. */
  lemma RestoredEndsOnce(keys: set<string>, encoded: string)
    ensures keys == {} ==> Restore(keys, encoded) == encoded
    ensures keys != {} ==> Restore(keys, encoded) == TrimRight(Restore(keys, encoded)) + "\n"
  {
    hide Lines, TrimRight, Restored;
    if keys != {} {
      RestoredText(keys, encoded);
      TrimOfRestored(Join(Restored(keys, [], Lines(TrimRight(encoded))), '\n'), Restored(keys, [], Lines(TrimRight(encoded))));
    }
  }

  // A text whose lines are these has no newline to trim.
  lemma TrimOfRestored(text: string, out: seq<string>)
    requires text == Join(out, '\n') && Lines(TrimRight(text + "\n")) == out
    ensures TrimRight(text + "\n") == text
  {
    SplitIsJoin(TrimRight(text + "\n"), '\n');
  }

  /** Restoring twice is restoring once. */
  lemma RestoreIsIdempotent(keys: set<string>, encoded: string)
    ensures Restore(keys, Restore(keys, encoded)) == Restore(keys, encoded)
  {
    hide Lines, TrimRight, Restored, Spaced, Join;
    if keys != {} {
      RestoredText(keys, encoded);
      OnlyBlankLinesAreAdded(keys, encoded);
      var out := Restored(keys, [], Lines(TrimRight(encoded)));
      SpacedStays(keys, out, 0);
      assert out[..0] == [] && out[0..] == out;
    }
  }
}
