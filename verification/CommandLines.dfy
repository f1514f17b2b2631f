/**
  Resolving the program of a command line to its path (cmd/itervox/main.go): the
  first token that is neither a leading backend marker nor an environment
  assignment is replaced, and nothing else changes.
 */
module CommandLines {
  import opened Bytes
  import opened ShellWords
  import Text

  // ----- strings.TrimSpace: the space code points in UTF-8

  predicate IsWideSpace(a: byte, b: byte, c: byte) {
    || (a == 0xE1 && b == 0x9A && c == 0x80)
    || (a == 0xE2 && b == 0x80 && (0x80 <= c <= 0x8A || c == 0xA8 || c == 0xA9 || c == 0xAF))
    || (a == 0xE2 && b == 0x81 && c == 0x9F)
    || (a == 0xE3 && b == 0x80 && c == 0x80)
  }

  predicate IsNarrowSpace(b: byte) { 9 <= b <= 13 || b == SPACE }

  function LeadingSpace(s: seq<byte>): (n: nat)
    ensures n <= |s|
  {
    if |s| >= 1 && IsNarrowSpace(s[0]) then 1
    else if |s| >= 2 && s[0] == 0xC2 && (s[1] == 0x85 || s[1] == 0xA0) then 2
    else if |s| >= 3 && IsWideSpace(s[0], s[1], s[2]) then 3
    else 0
  }

  function TrailingSpace(s: seq<byte>): (n: nat)
    ensures n <= |s|
  {
    var k := |s|;
    if k >= 1 && IsNarrowSpace(s[k - 1]) then 1
    else if k >= 2 && s[k - 2] == 0xC2 && (s[k - 1] == 0x85 || s[k - 1] == 0xA0) then 2
    else if k >= 3 && IsWideSpace(s[k - 3], s[k - 2], s[k - 1]) then 3
    else 0
  }

  function TrimSpace(s: seq<byte>): seq<byte>
    decreases |s|
  {
    if LeadingSpace(s) > 0 then TrimSpace(s[LeadingSpace(s)..])
    else if TrailingSpace(s) > 0 then TrimSpace(s[..|s| - TrailingSpace(s)])
    else s
  }

  // A character up to U+FFFF in UTF-8.
  function Utf8(c: char): (u: seq<byte>)
    requires c as int < 0x10000
    ensures u != []
  {
    var n := c as int;
    if n < 0x80 then [n as byte]
    else if n < 0x800 then [(0xC0 + n / 64) as byte, (0x80 + n % 64) as byte]
    else [(0xE0 + n / 4096) as byte, (0x80 + n / 64 % 64) as byte, (0x80 + n % 64) as byte]
  }

  // A white space character of Unicode, written out.
  ghost predicate IsSpaceRune(r: seq<byte>) { exists c: char :: Text.IsSpace(c) && r == Utf8(c) }

  ghost predicate AllSpaceRunes(s: seq<byte>)
    decreases |s|
  {
    s == [] || exists n: nat :: 0 < n <= |s| && IsSpaceRune(s[..n]) && AllSpaceRunes(s[n..])
  }

  lemma SpaceRuneIs(r: seq<byte>)
    ensures IsSpaceRune(r) <==>
      || (|r| == 1 && IsNarrowSpace(r[0]))
      || (|r| == 2 && r[0] == 0xC2 && (r[1] == 0x85 || r[1] == 0xA0))
      || (|r| == 3 && IsWideSpace(r[0], r[1], r[2]))
  {
    if IsSpaceRune(r) {
      var c :| Text.IsSpace(c) && r == Utf8(c);
      SpaceIsEncoded(c);
    }
    if |r| == 1 && IsNarrowSpace(r[0]) {
      RuneIs(r, r[0] as int as char);
    } else if |r| == 2 && r[0] == 0xC2 && (r[1] == 0x85 || r[1] == 0xA0) {
      RuneIs(r, r[1] as int as char);
    } else if |r| == 3 && IsWideSpace(r[0], r[1], r[2]) {
      RuneIs(r, (((r[0] as int - 0xE0) * 64 + (r[1] as int - 0x80)) * 64 + (r[2] as int - 0x80)) as char);
    }
  }

  lemma RuneIs(r: seq<byte>, c: char)
    requires Text.IsSpace(c) && r == Utf8(c)
    ensures IsSpaceRune(r)
  {
  }

  lemma SpaceIsEncoded(c: char)
    requires Text.IsSpace(c)
    ensures var r := Utf8(c);
      || (|r| == 1 && IsNarrowSpace(r[0]))
      || (|r| == 2 && r[0] == 0xC2 && (r[1] == 0x85 || r[1] == 0xA0))
      || (|r| == 3 && IsWideSpace(r[0], r[1], r[2]))
  {
  }

  // No space character at either end.
  ghost predicate EndsClean(s: seq<byte>) {
    (forall n | 0 < n <= |s| :: !IsSpaceRune(s[..n])) && forall k | 0 <= k < |s| :: !IsSpaceRune(s[k..])
  }

  lemma LeadingIs(s: seq<byte>)
    ensures LeadingSpace(s) > 0 ==> IsSpaceRune(s[..LeadingSpace(s)])
    ensures LeadingSpace(s) == 0 ==> forall n | 0 < n <= |s| :: !IsSpaceRune(s[..n])
  {
    hide IsSpaceRune;
    forall n | 0 <= n <= |s| {
      SpaceRuneIs(s[..n]);
    }
  }

  lemma TrailingIs(s: seq<byte>)
    ensures TrailingSpace(s) > 0 ==> IsSpaceRune(s[|s| - TrailingSpace(s)..])
    ensures TrailingSpace(s) == 0 ==> forall k | 0 <= k < |s| :: !IsSpaceRune(s[k..])
  {
    hide IsSpaceRune;
    forall k | 0 <= k <= |s| {
      SpaceRuneIs(s[k..]);
    }
  }

  /** Only space characters of Unicode are cut off, at both ends, and all of them. */
  lemma {:induction false} TrimmedIs(s: seq<byte>) returns (a: seq<byte>, b: seq<byte>)
    ensures s == a + TrimSpace(s) + b && AllSpaceRunes(a) && AllSpaceRunes(b) && EndsClean(TrimSpace(s))
    decreases |s|
  {
    hide IsSpaceRune, AllSpaceRunes, LeadingSpace, TrailingSpace;
    LeadingIs(s);
    TrailingIs(s);
    if LeadingSpace(s) > 0 {
      var n := LeadingSpace(s);
      hide EndsClean;
      a, b := TrimmedIs(s[n..]);
      OneMoreBefore(s[..n], a);
      assert s == s[..n] + (a + TrimSpace(s) + b);
      a := s[..n] + a;
    } else if TrailingSpace(s) > 0 {
      var n := |s| - TrailingSpace(s);
      hide EndsClean;
      a, b := TrimmedIs(s[..n]);
      OneMoreAfter(b, s[n..]);
      assert s == (a + TrimSpace(s) + b) + s[n..];
      b := b + s[n..];
    } else {
      a, b := [], [];
      NoSpaces();
      assert s == a + s + b;
    }
  }

  lemma NoSpaces()
    ensures AllSpaceRunes([])
  {
  }

  lemma OneMoreBefore(r: seq<byte>, a: seq<byte>)
    requires IsSpaceRune(r) && r != [] && AllSpaceRunes(a)
    ensures AllSpaceRunes(r + a)
  {
    hide IsSpaceRune;
    assert (r + a)[..|r|] == r && (r + a)[|r|..] == a;
  }

  lemma {:induction false} OneMoreAfter(b: seq<byte>, r: seq<byte>)
    requires IsSpaceRune(r) && r != [] && AllSpaceRunes(b)
    ensures AllSpaceRunes(b + r)
    decreases |b|
  {
    hide IsSpaceRune;
    if b == [] {
      assert b + r == r && r[..|r|] == r && r[|r|..] == [];
    } else {
      var n: nat :| 0 < n <= |b| && IsSpaceRune(b[..n]) && AllSpaceRunes(b[n..]);
      OneMoreAfter(b[n..], r);
      assert (b + r)[..n] == b[..n] && (b + r)[n..] == b[n..] + r;
    }
  }

  // ----- which tokens are skipped

  // "@@itervox-backend="
  const MARKER: seq<byte> :=
    [64, 64, 105, 116, 101, 114, 118, 111, 120, 45, 98, 97, 99, 107, 101, 110, 100, 61]
  const EQUALS: byte := 61
  const UNDERSCORE: byte := 95

  predicate IsMarker(token: seq<byte>) { MARKER <= token }

  predicate IsLetter(b: byte) { 65 <= b <= 90 || 97 <= b <= 122 }

  predicate IsDigit(b: byte) { 48 <= b <= 57 }

  // The Unicode letter and digit tables decide a key that is not ASCII.
  datatype Tables = Tables(nameInUnicode: seq<byte> -> bool)

  predicate IsName(key: seq<byte>, tables: Tables) {
    if forall i | 0 <= i < |key| :: key[i] < 128 then
      key != [] && forall i | 0 <= i < |key| :: key[i] == UNDERSCORE || IsLetter(key[i]) || (i > 0 && IsDigit(key[i]))
    else tables.nameInUnicode(key)
  }

  // Everything before the first equals sign, if there is one.
  function KeyOf(token: seq<byte>): Option<seq<byte>> {
    if token == [] then None
    else if token[0] == EQUALS then Some([])
    else
      match KeyOf(token[1..]) case None => None case Some(k) => Some([token[0]] + k)
  }

  predicate IsAssignment(token: seq<byte>, tables: Tables) {
    match KeyOf(token) case None => false case Some(key) => key != [] && IsName(key, tables)
  }

  // A letter or an underscore, and then also digits.
  predicate IsAsciiName(key: seq<byte>) {
    && key != [] && !(48 <= key[0] <= 57)
    && forall b | b in key :: b == 95 || 48 <= b <= 57 || 65 <= b <= 90 || 97 <= b <= 122
  }

  /** A token is an assignment exactly when a name stands before its first equals sign. */
  lemma {:induction false} AssignmentIs(key: seq<byte>, value: seq<byte>, tables: Tables)
    requires 61 !in key
    ensures !IsAssignment(key, tables)
    ensures (forall b | b in key :: b < 128) ==> (IsAssignment(key + [61] + value, tables) <==> IsAsciiName(key))
    ensures (exists b | b in key :: b >= 128) ==> (IsAssignment(key + [61] + value, tables) <==> tables.nameInUnicode(key))
  {
    KeyIsBefore(key, value);
    hide KeyOf;
    assert forall i | 0 <= i < |key| :: key[i] in key;
  }

  lemma {:induction false} KeyIsBefore(key: seq<byte>, value: seq<byte>)
    requires 61 !in key
    ensures KeyOf(key) == None && KeyOf(key + [61] + value) == Some(key)
    decreases |key|
  {
    var all := key + [61] + value;
    if key == [] {
      assert all[0] == 61;
    } else {
      assert all[1..] == key[1..] + [61] + value;
      KeyIsBefore(key[1..], value);
      assert key == [key[0]] + key[1..];
    }
  }

  /** The backend marker is the text "@@itervox-backend=". */
  lemma MarkerIs(token: seq<byte>)
    ensures IsMarker(token) <==> Ascii("@@itervox-backend=") <= token
  {
    assert Ascii("@@itervox-backend=") == MARKER;
  }

  predicate Skipped(token: seq<byte>, first: bool, tables: Tables) {
    (first && IsMarker(token)) || IsAssignment(token, tables)
  }

  // ----- the tokens of a line

  lemma TokenIsNotEmpty(s: seq<byte>)
    requires s != [] && !IsSpace(s[0])
    ensures TokenLength(s, Unquoted) > 0
  {
  }

  // Where the first token of s lies.
  function FirstSpan(s: seq<byte>): (span: Option<(nat, nat)>)
    ensures span.Some? ==> span.value.0 < span.value.1 <= |s|
  {
    var a := SpaceRun(s);
    if a == |s| then None
    else
      SpaceRunIsSpaces(s);
      TokenIsNotEmpty(s[a..]);
      Some((a, a + TokenLength(s[a..], Unquoted)))
  }

  function Tokens(s: seq<byte>): seq<seq<byte>>
    decreases |s|
  {
    match FirstSpan(s) case None => [] case Some(ab) => [s[ab.0..ab.1]] + Tokens(s[ab.1..])
  }

  /** How many leading tokens are skipped. */
  function Leaders(tokens: seq<seq<byte>>, first: bool, tables: Tables): (k: nat)
    ensures k <= |tokens|
  {
    if tokens == [] || !Skipped(tokens[0], first, tables) then 0 else 1 + Leaders(tokens[1..], false, tables)
  }

  /** The leaders are the marker, if it comes first, and the assignments before anything else. */
  lemma {:induction false} LeadersAre(tokens: seq<seq<byte>>, first: bool, tables: Tables)
    ensures var k := Leaders(tokens, first, tables);
      && (forall j | 0 <= j < k :: (first && j == 0 && MARKER <= tokens[j]) || IsAssignment(tokens[j], tables))
      && (k < |tokens| ==> !(first && k == 0 && MARKER <= tokens[k]) && !IsAssignment(tokens[k], tables))
    decreases |tokens|
  {
    hide IsAssignment;
    if tokens != [] && Skipped(tokens[0], first, tables) {
      LeadersAre(tokens[1..], false, tables);
      assert forall j | 1 <= j < |tokens| :: tokens[j] == tokens[1..][j - 1];
    }
  }

  /** Where the chosen token lies. */
  function Chosen(s: seq<byte>, first: bool, tables: Tables): (span: Option<(nat, nat)>)
    ensures span.Some? ==> span.value.0 < span.value.1 <= |s|
    decreases |s|
  {
    match FirstSpan(s)
    case None => None
    case Some((a, b)) =>
      if !Skipped(s[a..b], first, tables) then Some((a, b)) else Shifted(Chosen(s[b..], false, tables), b)
  }

  function Shifted(span: Option<(nat, nat)>, base: nat): Option<(nat, nat)> {
    match span case None => None case Some(ab) => Some((base + ab.0, base + ab.1))
  }

  function Replaced(s: seq<byte>, span: Option<(nat, nat)>, resolver: seq<byte> -> seq<byte>): seq<byte>
    requires span.Some? ==> span.value.0 <= span.value.1 <= |s|
  {
    match span
    case None => s
    case Some(ab) => s[..ab.0] + resolver(s[ab.0..ab.1]) + s[ab.1..]
  }

  method ResolveCommandTokenSpan(command: seq<byte>, tables: Tables) returns (span: Option<(nat, nat)>)
    ensures span == Chosen(command, true, tables)
  {
    hide Chosen, SpaceRun, TokenLength, IsMarker, IsAssignment, FirstSpan;
    var searchFrom, firstToken := 0, true;
    assert command[0..] == command;
    while true
      invariant searchFrom <= |command|
      invariant Chosen(command, true, tables) == Shifted(Chosen(command[searchFrom..], firstToken, tables), searchFrom)
      decreases |command| - searchFrom
    {
      var next := NextShellTokenSpan(command, searchFrom);
      ChosenStep(command, searchFrom, firstToken, tables);
      if next.None? {
        return None;
      }
      var (start, end) := next.value;
      var token := command[start..end];
      if firstToken && IsMarker(token) {
        firstToken := false;
        searchFrom := end;
        continue;
      }
      firstToken := false;
      if IsAssignment(token, tables) {
        searchFrom := end;
        continue;
      }
      return Some((start, end));
    }
  }

  lemma ChosenStep(s: seq<byte>, i: nat, first: bool, tables: Tables)
    requires i <= |s|
    ensures i + SpaceRun(s[i..]) == |s| ==> Chosen(s[i..], first, tables) == None
    ensures i + SpaceRun(s[i..]) < |s| ==>
      var a := i + SpaceRun(s[i..]);
      var b := a + TokenLength(s[a..], Unquoted);
      i <= a < b <= |s| &&
      Shifted(Chosen(s[i..], first, tables), i) ==
        if !Skipped(s[a..b], first, tables) then Some((a, b)) else Shifted(Chosen(s[b..], false, tables), b)
  {
    hide SpaceRun, TokenLength, Skipped, Chosen;
    var u := s[i..];
    ChosenIs(u, first, tables);
    if SpaceRun(u) < |u| {
      var a := SpaceRun(u);
      assert u[a..] == s[i + a..];
      var b := a + TokenLength(u[a..], Unquoted);
      assert FirstSpan(u) == Some((a, b));
      assert u[a..b] == s[i + a..i + b] && u[b..] == s[i + b..];
    }
  }

  lemma ChosenIs(s: seq<byte>, first: bool, tables: Tables)
    ensures Chosen(s, first, tables) ==
      match FirstSpan(s)
      case None => None
      case Some((a, b)) =>
        if !Skipped(s[a..b], first, tables) then Some((a, b)) else Shifted(Chosen(s[b..], false, tables), b)
  {
  }

  method ResolveCommandLine(command: seq<byte>, resolver: seq<byte> -> seq<byte>, tables: Tables) returns (line: seq<byte>)
    ensures line == Replaced(TrimSpace(command), Chosen(TrimSpace(command), true, tables), resolver)
  {
    var trimmed := TrimSpace(command);
    ChosenIs(trimmed, true, tables);
    hide Chosen, TrimSpace;
    if trimmed == [] {
      return [];
    }
    var span := ResolveCommandTokenSpan(trimmed, tables);
    if span.None? {
      return trimmed;
    }
    var (start, end) := span.value;
    var token := trimmed[start..end];
    var resolved := resolver(token);
    if resolved == token {
      assert trimmed == trimmed[..start] + token + trimmed[end..];
      return trimmed;
    }
    return trimmed[..start] + resolved + trimmed[end..];
  }

  // ----- what replacing does to the tokens

  /** r, put where a token was, is one token itself. */
  predicate StandsAlone(r: seq<byte>, after: seq<byte>) {
    r != [] && !IsSpace(r[0]) && TokenLength(r + after, Unquoted) == |r|
  }

  predicate Apart(after: seq<byte>) { after == [] || IsSpace(after[0]) }

  // A token followed by a space is the same token before any other space or the end.
  lemma {:induction false} LengthIsLocal(x: seq<byte>, y: seq<byte>, z: seq<byte>, q: Quoting)
    requires TokenLength(x + y, q) == |x| && y != [] && IsSpace(y[0]) && Apart(z)
    ensures TokenLength(x + z, q) == |x|
    decreases |x|
  {
    if x == [] {
      assert x + y == y && x + z == z;
    } else {
      assert (x + y)[1..] == x[1..] + y && (x + z)[1..] == x[1..] + z;
      if |x| > 1 {
        assert (x + y)[2..] == x[2..] + y && (x + z)[2..] == x[2..] + z;
      }
      LengthIsLocalStep(x, y, z, q);
    }
  }

  lemma {:induction false} LengthIsLocalStep(x: seq<byte>, y: seq<byte>, z: seq<byte>, q: Quoting)
    requires x != [] && TokenLength(x + y, q) == |x| && y != [] && IsSpace(y[0]) && Apart(z)
    requires (x + y)[1..] == x[1..] + y && (x + z)[1..] == x[1..] + z
    requires |x| > 1 ==> (x + y)[2..] == x[2..] + y && (x + z)[2..] == x[2..] + z
    ensures TokenLength(x + z, q) == |x|
    decreases |x|, 0
  {
    var c := x[0];
    if q.Single? {
      LengthIsLocal(x[1..], y, z, if c == SINGLE_QUOTE then Unquoted else Single);
    } else if q.Double? && c == DOUBLE_QUOTE {
      LengthIsLocal(x[1..], y, z, Unquoted);
    } else if q.Unquoted? && (c == SINGLE_QUOTE || c == DOUBLE_QUOTE) {
      LengthIsLocal(x[1..], y, z, if c == SINGLE_QUOTE then Single else Double);
    } else if c == BACKSLASH {
      LengthIsLocal(x[2..], y, z, q);
    } else {
      LengthIsLocal(x[1..], y, z, q);
    }
  }

  // After a token comes a space or the end.
  lemma {:induction false} TokenStops(s: seq<byte>, q: Quoting)
    ensures Apart(s[TokenLength(s, q)..])
    decreases |s|
  {
    var n := TokenLength(s, q);
    if s != [] && n > 0 {
      var k, q' :=
        if q.Single? then (1, if s[0] == SINGLE_QUOTE then Unquoted else Single).0
        else if s[0] == BACKSLASH && |s| > 1 then 2 else 1,
        if q.Single? then if s[0] == SINGLE_QUOTE then Unquoted else Single
        else if q.Double? then if s[0] == DOUBLE_QUOTE then Unquoted else Double
        else if s[0] == SINGLE_QUOTE then Single else if s[0] == DOUBLE_QUOTE then Double else Unquoted;
      assert n == k + TokenLength(s[k..], q');
      TokenStops(s[k..], q');
      assert s[n..] == s[k..][n - k..];
    }
  }

  lemma {:induction false} SpaceRunOver(a: seq<byte>, b: seq<byte>)
    requires (forall i | 0 <= i < |a| :: IsSpace(a[i])) && (b != [] ==> !IsSpace(b[0]))
    ensures SpaceRun(a + b) == |a|
    decreases |a|
  {
    if a == [] {
      assert a + b == b;
    } else {
      assert (a + b)[1..] == a[1..] + b;
      SpaceRunOver(a[1..], b);
    }
  }

  predicate AllSpaces(s: seq<byte>) { forall i | 0 <= i < |s| :: IsSpace(s[i]) }

  // What a first span says, and what says it.
  lemma SpanParts(s: seq<byte>)
    requires FirstSpan(s).Some?
    ensures var (a, b) := FirstSpan(s).value;
      && AllSpaces(s[..a]) && StandsAlone(s[a..b], s[b..]) && Apart(s[b..]) && s == s[..a] + s[a..b] + s[b..]
      && a == SpaceRun(s)
  {
    SpaceRunIsSpaces(s);
    hide TokenLength, SpaceRun;
    var (a, b) := FirstSpan(s).value;
    TokenStops(s[a..], Unquoted);
    assert s[a..] == s[a..b] + s[b..] && s[a..][b - a..] == s[b..];
  }

  lemma SpanFrom(spaces: seq<byte>, token: seq<byte>, rest: seq<byte>)
    requires AllSpaces(spaces) && token != [] && !IsSpace(token[0])
    ensures FirstSpan(spaces + token + rest) == Some((|spaces|, |spaces| + TokenLength(token + rest, Unquoted)))
  {
    hide TokenLength, SpaceRun, IsSpace;
    var s := spaces + (token + rest);
    assert spaces + token + rest == s;
    assert (token + rest)[0] == token[0];
    SpaceRunOver(spaces, token + rest);
    assert s[|spaces|..] == token + rest;
  }

  // The tokens of spaces, a token, and a rest set apart from it.
  lemma TokensOf(spaces: seq<byte>, token: seq<byte>, rest: seq<byte>)
    requires AllSpaces(spaces) && StandsAlone(token, rest)
    ensures Tokens(spaces + token + rest) == [token] + Tokens(rest)
  {
    hide TokenLength, SpaceRun, FirstSpan, AllSpaces;
    SpanFrom(spaces, token, rest);
    var s := spaces + token + rest;
    var n := |spaces| + |token|;
    assert s[|spaces|..n] == token && s[n..] == rest;
  }

  // The chosen token is the first one that is not skipped, and replacing it
  // changes the list of tokens there, exactly when r stands alone.
  ghost predicate ReplacesOne(s: seq<byte>, first: bool, tables: Tables, r: seq<byte>, a: nat, b: nat)
    requires a <= b <= |s|
  {
    var k := Leaders(Tokens(s), first, tables);
    && k < |Tokens(s)| && Tokens(s)[k] == s[a..b] && SpaceRun(s) <= a
    && (Tokens(s[..a] + r + s[b..]) == Tokens(s)[k := r] <==> StandsAlone(r, s[b..]))
  }

  lemma FirstIsReplaced(s: seq<byte>, first: bool, tables: Tables, r: seq<byte>, a: nat, b: nat)
    requires FirstSpan(s) == Some((a, b)) && !Skipped(s[a..b], first, tables)
    ensures ReplacesOne(s, first, tables, r, a, b)
  {
    hide SpaceRun, TokenLength, FirstSpan, StandsAlone, Skipped, AllSpaces;
    SpanParts(s);
    assert Tokens(s) == [s[a..b]] + Tokens(s[b..]);
    hide Tokens;
    ReplacedFirst(s[..a], s[a..b], s[b..], r);
  }

  lemma LaterIsReplaced(s: seq<byte>, first: bool, tables: Tables, r: seq<byte>, a0: nat, b0: nat, a: nat, b: nat)
    requires FirstSpan(s) == Some((a0, b0)) && Skipped(s[a0..b0], first, tables)
    requires a < b <= |s| - b0 && ReplacesOne(s[b0..], false, tables, r, a, b)
    ensures ReplacesOne(s, first, tables, r, b0 + a, b0 + b)
  {
    hide SpaceRun, TokenLength, FirstSpan, StandsAlone, Skipped, AllSpaces;
    SpanParts(s);
    var token, rest := s[a0..b0], s[b0..];
    assert Tokens(s) == [token] + Tokens(rest);
    assert Tokens(s)[1..] == Tokens(rest);
    hide Tokens;
    ReplacedLater(s[..a0], token, rest, a, b, r);
    Regrouped(s, a0, b0, a, b, r);
    SameTail(token, Tokens(rest[..a] + r + rest[b..]), Tokens(rest), Leaders(Tokens(rest), false, tables), r);
  }

  lemma {:induction false} ChosenIsReplaced(s: seq<byte>, first: bool, tables: Tables, r: seq<byte>)
    requires Chosen(s, first, tables).Some?
    ensures var (a, b) := Chosen(s, first, tables).value; ReplacesOne(s, first, tables, r, a, b)
    decreases |s|
  {
    ChosenIs(s, first, tables);
    hide ReplacesOne, FirstSpan, Skipped, Chosen;
    var (a0, b0) := FirstSpan(s).value;
    if !Skipped(s[a0..b0], first, tables) {
      FirstIsReplaced(s, first, tables, r, a0, b0);
    } else {
      ChosenIsReplaced(s[b0..], false, tables, r);
      var (a, b) := Chosen(s[b0..], false, tables).value;
      LaterIsReplaced(s, first, tables, r, a0, b0, a, b);
    }
  }

  /**
    The chosen token is the first after the leaders. Replacing it keeps the text
    around it, leaves every other token as it was, and puts the resolver's answer
    in its place, exactly when that answer stands alone there.
   */
  lemma OneTokenIsReplaced(s: seq<byte>, tables: Tables, resolver: seq<byte> -> seq<byte>)
    ensures var k := Leaders(Tokens(s), true, tables);
      match Chosen(s, true, tables)
      case None => k == |Tokens(s)| && Replaced(s, None, resolver) == s
      case Some((a, b)) =>
        var r := resolver(s[a..b]);
        var line := Replaced(s, Some((a, b)), resolver);
        && k < |Tokens(s)| && Tokens(s)[k] == s[a..b] && line == s[..a] + r + s[b..]
        && (Tokens(line) == Tokens(s)[k := r] <==> StandsAlone(r, s[b..]))
  {
    hide Tokens, StandsAlone, Leaders;
    if Chosen(s, true, tables).Some? {
      var (a, b) := Chosen(s, true, tables).value;
      ChosenIsReplaced(s, true, tables, resolver(s[a..b]));
    } else {
      NoneIsChosen(s, true, tables);
    }
  }

  lemma {:induction false} NoneIsChosen(s: seq<byte>, first: bool, tables: Tables)
    requires Chosen(s, first, tables).None?
    ensures Leaders(Tokens(s), first, tables) == |Tokens(s)|
    decreases |s|
  {
    ChosenIs(s, first, tables);
    hide FirstSpan, Skipped, Chosen;
    if FirstSpan(s).Some? {
      var (a, b) := FirstSpan(s).value;
      NoneIsChosen(s[b..], false, tables);
      assert Tokens(s) == [s[a..b]] + Tokens(s[b..]) && Tokens(s)[1..] == Tokens(s[b..]);
    }
  }

  lemma Regrouped(s: seq<byte>, a0: nat, b0: nat, a: nat, b: nat, r: seq<byte>)
    requires a0 <= b0 <= |s| && a <= b <= |s| - b0
    ensures var rest := s[b0..];
      && s[..b0 + a] + r + s[b0 + b..] == s[..a0] + s[a0..b0] + (rest[..a] + r + rest[b..])
      && s[b0 + b..] == rest[b..] && s[b0 + a..b0 + b] == rest[a..b]
  {
    var rest := s[b0..];
    assert s[..b0 + a] == s[..a0] + s[a0..b0] + rest[..a];
    assert s[b0 + b..] == rest[b..];
  }

  lemma SameTail(t: seq<byte>, us: seq<seq<byte>>, vs: seq<seq<byte>>, k: nat, r: seq<byte>)
    requires k < |vs|
    ensures [t] + us == ([t] + vs)[1 + k := r] <==> us == vs[k := r]
  {
    assert ([t] + vs)[1 + k := r] == [t] + vs[k := r];
    assert ([t] + us)[1..] == us && ([t] + vs[k := r])[1..] == vs[k := r];
  }

  // A token before the replaced one stays.
  lemma ReplacedLater(spaces: seq<byte>, token: seq<byte>, rest: seq<byte>, a: nat, b: nat, r: seq<byte>)
    requires AllSpaces(spaces) && StandsAlone(token, rest) && Apart(rest) && SpaceRun(rest) <= a <= b <= |rest| && rest != []
    ensures var rest' := rest[..a] + r + rest[b..];
      Tokens(spaces + token + rest') == [token] + Tokens(rest')
  {
    hide TokenLength, AllSpaces, Tokens;
    var rest' := rest[..a] + r + rest[b..];
    assert SpaceRun(rest) > 0;
    assert rest'[0] == rest[0];
    LengthIsLocal(token, rest, rest', Unquoted);
    TokensOf(spaces, token, rest');
  }

  lemma ReplacedFirst(spaces: seq<byte>, token: seq<byte>, rest: seq<byte>, r: seq<byte>)
    requires AllSpaces(spaces) && Apart(rest)
    ensures Tokens(spaces + r + rest) == ([token] + Tokens(rest))[0 := r] <==> StandsAlone(r, rest)
  {
    hide StandsAlone, Tokens;
    assert ([token] + Tokens(rest))[0 := r] == [r] + Tokens(rest);
    if StandsAlone(r, rest) {
      TokensOf(spaces, r, rest);
    } else if Tokens(spaces + r + rest) == [r] + Tokens(rest) {
      FirstIs(spaces, r, rest);
    }
  }

  // When the first token is r, r stands alone.
  lemma FirstIs(spaces: seq<byte>, r: seq<byte>, rest: seq<byte>)
    requires AllSpaces(spaces) && Tokens(spaces + r + rest) == [r] + Tokens(rest)
    ensures StandsAlone(r, rest)
  {
    hide TokenLength, SpaceRun, FirstSpan;
    var s := spaces + r + rest;
    assert FirstSpan(s).Some?;
    SpanParts(s);
    var (a, b) := FirstSpan(s).value;
    assert s[a..b] == ([r] + Tokens(rest))[0] == r;
    SpanFrom(spaces, r, rest);
  }

  /** A path without spaces, quotes or backslashes stands alone wherever a token was. */
  lemma {:induction false} PlainPathStandsAlone(r: seq<byte>, after: seq<byte>)
    requires r != [] && Apart(after)
    requires forall i | 0 <= i < |r| :: !IsSpace(r[i]) && r[i] != SINGLE_QUOTE && r[i] != DOUBLE_QUOTE && r[i] != BACKSLASH
    ensures StandsAlone(r, after)
    decreases |r|
  {
    assert (r + after)[1..] == r[1..] + after;
    if |r| > 1 {
      PlainPathStandsAlone(r[1..], after);
    } else {
      assert r[1..] + after == after;
    }
  }

  /** A path with a space is cut in two: the resolver's answer is not quoted. */
  lemma PathWithSpaceIsCut()
    ensures !StandsAlone([0x2F, 0x61, SPACE, 0x62], []) && Tokens([0x2F, 0x61, SPACE, 0x62]) == [[0x2F, 0x61], [0x62]]
  {
    var p: seq<byte> := [0x2F, 0x61];
    var t: seq<byte> := [0x62];
    var all := p + [SPACE] + t;
    assert all == [0x2F, 0x61, SPACE, 0x62] && all == p + ([SPACE] + t) && [] + p + ([SPACE] + t) == all;
    assert forall i | 0 <= i < |t| :: !IsSpace(t[i]);
    PlainPathStandsAlone(p, [SPACE] + t);
    PlainPathStandsAlone(t, []);
    TokensOf([], p, [SPACE] + t);
    TokensOf([SPACE], t, []);
    assert [SPACE] + t + [] == [SPACE] + t;
    assert all + [] == all;
    assert TokenLength(all, Unquoted) == |p|;
  }
}
