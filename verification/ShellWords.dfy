/**
  Quoting for the shell (internal/agent/claude.go) and the tokens the daemon sees
  in a command line (cmd/itervox/main.go), against the word rules of the Shell
  Command Language in IEEE Std 1003.1, sections 2.2.1 to 2.2.3.
 */
module ShellWords {
  import opened Bytes
  import Text

  datatype Quoting = Unquoted | Single | Double

  // Space, tab and newline end a word.
  predicate IsBlank(b: byte) { b == SPACE || b == TAB || b == LINE_FEED }

  // | & ; < > ( ) start an operator, $ ` and ~ an expansion, # a comment, * ? and [
  // a pattern: words with these outside quotes are not plain.
  predicate IsSpecial(b: byte) {
    || b == 124 || b == 38 || b == 59 || b == 60 || b == 62 || b == 40 || b == 41
    || b == 36 || b == 96 || b == 126 || b == 35 || b == 42 || b == 63 || b == 91
  }

  // In double quotes a backslash quotes only $ ` " \ and newline.
  predicate QuotableInDouble(b: byte) { b == 36 || b == 96 || b == DOUBLE_QUOTE || b == BACKSLASH }

  /** These bytes, as characters. */
  lemma SpecialBytesAre(b: byte)
    ensures IsBlank(b) <==> b in Ascii(" \t\n")
    ensures IsSpecial(b) <==> b in Ascii("|&;<>()$`~#*?[")
    ensures QuotableInDouble(b) <==> b in Ascii("$`\"\\")
  {
    assert Ascii(" \t\n") == [32, 9, 10];
    assert Ascii("|&;<>()$`~#*?[") == [124, 38, 59, 60, 62, 40, 41, 36, 96, 126, 35, 42, 63, 91];
    assert Ascii("$`\"\\") == [36, 96, 34, 92];
  }

  /**
    The plain word at the start of s, its quotes removed, and what follows it;
    got is the part already read. None: a quote is left open, or the word needs
    more than quoting to understand.
   */
  function Word(s: seq<byte>, q: Quoting, got: seq<byte>): Option<(seq<byte>, seq<byte>)> {
    if s == [] then if q.Unquoted? then Some((got, [])) else None
    else
      match q
      case Single =>
        if s[0] == SINGLE_QUOTE then Word(s[1..], Unquoted, got) else Word(s[1..], Single, got + [s[0]])
      case Double =>
        if s[0] == DOUBLE_QUOTE then Word(s[1..], Unquoted, got)
        else if s[0] == BACKSLASH then
          if |s| < 2 then None
          else if s[1] == LINE_FEED then Word(s[2..], Double, got)
          else Word(s[2..], Double, got + if QuotableInDouble(s[1]) then [s[1]] else s[..2])
        else if s[0] == 36 || s[0] == 96 then None
        else Word(s[1..], Double, got + [s[0]])
      case Unquoted =>
        if s[0] == SINGLE_QUOTE then Word(s[1..], Single, got)
        else if s[0] == DOUBLE_QUOTE then Word(s[1..], Double, got)
        else if s[0] == BACKSLASH then
          if |s| < 2 then None else Word(s[2..], Unquoted, if s[1] == LINE_FEED then got else got + [s[1]])
        else if IsBlank(s[0]) then Some((got, s))
        else if IsSpecial(s[0]) then None
        else Word(s[1..], Unquoted, got + [s[0]])
  }

  // ----- quoting

  function EscapeOf(c: byte): seq<byte> {
    if c == SINGLE_QUOTE || c == BACKSLASH then [SINGLE_QUOTE, BACKSLASH, c, SINGLE_QUOTE] else [c]
  }

  function Escaped(s: seq<byte>): seq<byte> { if s == [] then [] else EscapeOf(s[0]) + Escaped(s[1..]) }

  function Quoted(s: seq<byte>): seq<byte> { [SINGLE_QUOTE] + Escaped(s) + [SINGLE_QUOTE] }

  method ShellQuote(s: seq<byte>) returns (b: seq<byte>)
    ensures b == Quoted(s)
  {
    b := [SINGLE_QUOTE];
    for i := 0 to |s|
      invariant [SINGLE_QUOTE] + Escaped(s) == b + Escaped(s[i..])
    {
      EscapedStep(s, i, b);
      var c := s[i];
      if c == SINGLE_QUOTE || c == BACKSLASH {
        b := b + [SINGLE_QUOTE, BACKSLASH, c, SINGLE_QUOTE];
      } else {
        b := b + [c];
      }
    }
    b := b + [SINGLE_QUOTE];
  }

  lemma EscapedStep(s: seq<byte>, i: nat, b: seq<byte>)
    requires i < |s|
    ensures b + Escaped(s[i..]) == (b + EscapeOf(s[i])) + Escaped(s[i + 1..])
  {
    assert s[i..][1..] == s[i + 1..];
  }

  // What follows a word: nothing, or something that starts with a blank.
  predicate Follows(rest: seq<byte>) { rest == [] || IsBlank(rest[0]) }

  // The escaped text from its first byte on.
  lemma EscapedFrom(s: seq<byte>, rest: seq<byte>)
    ensures s == [] ==> Escaped(s) + [SINGLE_QUOTE] + rest == [SINGLE_QUOTE] + rest
    ensures s != [] ==>
      Escaped(s) + [SINGLE_QUOTE] + rest == EscapeOf(s[0]) + (Escaped(s[1..]) + [SINGLE_QUOTE] + rest)
  {
    hide EscapeOf;
  }

  lemma {:induction false} EscapedIsRead(s: seq<byte>, got: seq<byte>, rest: seq<byte>)
    ensures Word(Escaped(s) + [SINGLE_QUOTE] + rest, Single, got) == Word(rest, Unquoted, got + s)
    decreases |s|
  {
    hide Word, Escaped;
    EscapedFrom(s, rest);
    if s == [] {
      assert got + s == got;
      ReadClosing(rest, got);
    } else {
      var tail := Escaped(s[1..]) + [SINGLE_QUOTE] + rest;
      EscapedIsRead(s[1..], got + [s[0]], rest);
      assert got + [s[0]] + s[1..] == got + s;
      if s[0] == SINGLE_QUOTE || s[0] == BACKSLASH {
        ReadEscape(s[0], tail, got);
      } else {
        ReadPlain(s[0], tail, got);
      }
    }
  }

  lemma ReadClosing(rest: seq<byte>, got: seq<byte>)
    ensures Word([SINGLE_QUOTE] + rest, Single, got) == Word(rest, Unquoted, got)
  {
    assert ([SINGLE_QUOTE] + rest)[1..] == rest;
  }

  lemma ReadPlain(c: byte, tail: seq<byte>, got: seq<byte>)
    requires c != SINGLE_QUOTE
    ensures Word([c] + tail, Single, got) == Word(tail, Single, got + [c])
  {
    assert ([c] + tail)[1..] == tail;
  }

  // Out of the quotes, one quoted byte, and back in.
  lemma ReadEscape(c: byte, tail: seq<byte>, got: seq<byte>)
    requires c == SINGLE_QUOTE || c == BACKSLASH
    ensures Word([SINGLE_QUOTE, BACKSLASH, c, SINGLE_QUOTE] + tail, Single, got) == Word(tail, Single, got + [c])
  {
    var all := [SINGLE_QUOTE, BACKSLASH, c, SINGLE_QUOTE] + tail;
    assert all[1..] == [BACKSLASH, c, SINGLE_QUOTE] + tail;
    assert ([BACKSLASH, c, SINGLE_QUOTE] + tail)[2..] == [SINGLE_QUOTE] + tail;
    assert ([SINGLE_QUOTE] + tail)[1..] == tail;
    assert Word(all, Single, got) == Word([BACKSLASH, c, SINGLE_QUOTE] + tail, Unquoted, got);
    assert Word([BACKSLASH, c, SINGLE_QUOTE] + tail, Unquoted, got) == Word([SINGLE_QUOTE] + tail, Unquoted, got + [c]);
  }

  /** The shell reads the quoted form of any bytes as exactly that one word, whatever follows a blank. */
  lemma QuotedIsOneWord(s: seq<byte>, rest: seq<byte>)
    requires Follows(rest)
    ensures Word(Quoted(s) + rest, Unquoted, []) == Some((s, rest))
  {
    var all := Quoted(s) + rest;
    assert all[1..] == Escaped(s) + [SINGLE_QUOTE] + rest;
    EscapedIsRead(s, [], rest);
    assert [] + s == s;
  }

  /** So different bytes have different quoted forms. */
  lemma QuotedIsInjective(s: seq<byte>, t: seq<byte>)
    requires Quoted(s) == Quoted(t)
    ensures s == t
  {
    QuotedIsOneWord(s, []);
    QuotedIsOneWord(t, []);
  }

  // ----- the daemon's own tokens

  // unicode.IsSpace on a byte taken as a code point.
  predicate IsSpace(b: byte) { 9 <= b <= 13 || b == SPACE || b == 0x85 || b == 0xA0 }

  /** The daemon's spaces are those of Unicode among the first 256 characters; these the shell does not know. */
  lemma SpacesAre(b: byte)
    ensures IsSpace(b) <==> Text.IsSpace(b as int as char)
    ensures IsOdd(b) <==> b in [0x0B, 0x0C, 0x0D, 0x85, 0xA0]
  {
  }

  /** How much of s the token at its start takes, when the scan is inside quotes q. */
  function TokenLength(s: seq<byte>, q: Quoting): (n: nat)
    ensures n <= |s|
  {
    if s == [] then 0
    else
      match q
      case Single => 1 + TokenLength(s[1..], if s[0] == SINGLE_QUOTE then Unquoted else Single)
      case Double =>
        if s[0] == DOUBLE_QUOTE then 1 + TokenLength(s[1..], Unquoted)
        else if s[0] == BACKSLASH && |s| > 1 then 2 + TokenLength(s[2..], Double)
        else 1 + TokenLength(s[1..], Double)
      case Unquoted =>
        if s[0] == SINGLE_QUOTE then 1 + TokenLength(s[1..], Single)
        else if s[0] == DOUBLE_QUOTE then 1 + TokenLength(s[1..], Double)
        else if s[0] == BACKSLASH && |s| > 1 then 2 + TokenLength(s[2..], Unquoted)
        else if IsSpace(s[0]) then 0
        else 1 + TokenLength(s[1..], Unquoted)
  }

  function SpaceRun(s: seq<byte>): (n: nat)
    ensures n <= |s|
  {
    if s == [] || !IsSpace(s[0]) then 0 else 1 + SpaceRun(s[1..])
  }

  lemma {:induction false} SpaceRunIsSpaces(s: seq<byte>)
    ensures forall i | 0 <= i < SpaceRun(s) :: IsSpace(s[i])
    ensures SpaceRun(s) < |s| ==> !IsSpace(s[SpaceRun(s)])
    decreases |s|
  {
    if s != [] && IsSpace(s[0]) {
      SpaceRunIsSpaces(s[1..]);
      assert forall i | 1 <= i < |s| :: s[i] == s[1..][i - 1];
    }
  }

  method NextShellTokenSpan(command: seq<byte>, searchFrom: nat) returns (span: Option<(nat, nat)>)
    requires searchFrom <= |command|
    ensures var start := searchFrom + SpaceRun(command[searchFrom..]);
      span == if start == |command| then None else Some((start, start + TokenLength(command[start..], Unquoted)))
  {
    var start := searchFrom;
    while start < |command| && IsSpace(command[start])
      invariant searchFrom <= start <= |command|
      invariant searchFrom + SpaceRun(command[searchFrom..]) == start + SpaceRun(command[start..])
    {
      assert command[start..][1..] == command[start + 1..];
      start := start + 1;
    }
    if start >= |command| {
      return None;
    }
    var end := TokenEnd(command, start);
    return Some((start, end));
  }

  lemma TokenStep(command: seq<byte>, i: nat, q: Quoting)
    requires i < |command|
    ensures command[i..][1..] == command[i + 1..] && (i + 1 < |command| ==> command[i..][2..] == command[i + 2..])
    ensures TokenLength(command[i..], q) ==
      var ch, more := command[i], i + 1 < |command|;
      match q
      case Single => 1 + TokenLength(command[i + 1..], if ch == SINGLE_QUOTE then Unquoted else Single)
      case Double =>
        if ch == DOUBLE_QUOTE then 1 + TokenLength(command[i + 1..], Unquoted)
        else if ch == BACKSLASH && more then 2 + TokenLength(command[i + 2..], Double)
        else 1 + TokenLength(command[i + 1..], Double)
      case Unquoted =>
        if ch == SINGLE_QUOTE then 1 + TokenLength(command[i + 1..], Single)
        else if ch == DOUBLE_QUOTE then 1 + TokenLength(command[i + 1..], Double)
        else if ch == BACKSLASH && more then 2 + TokenLength(command[i + 2..], Unquoted)
        else if IsSpace(ch) then 0
        else 1 + TokenLength(command[i + 1..], Unquoted)
  {
    assert command[i..][1..] == command[i + 1..];
    assert i + 1 < |command| ==> command[i..][2..] == command[i + 2..];
  }

  method TokenEnd(command: seq<byte>, start: nat) returns (end: nat)
    requires start <= |command|
    ensures end == start + TokenLength(command[start..], Unquoted)
  {
    end := start;
    var quote := Unquoted;
    while end < |command|
      invariant start <= end <= |command|
      invariant start + TokenLength(command[start..], Unquoted) == end + TokenLength(command[end..], quote)
    {
      hide TokenLength, IsSpace;
      TokenStep(command, end, quote);
      var ch := command[end];
      if !quote.Unquoted? {
        if ch == (if quote.Single? then SINGLE_QUOTE else DOUBLE_QUOTE) {
          quote := Unquoted;
          end := end + 1;
          continue;
        }
        if ch == BACKSLASH && quote.Double? && end + 1 < |command| {
          end := end + 2;
          continue;
        }
        end := end + 1;
      } else if ch == SINGLE_QUOTE || ch == DOUBLE_QUOTE {
        quote := if ch == SINGLE_QUOTE then Single else Double;
        end := end + 1;
      } else if ch == BACKSLASH && end + 1 < |command| {
        end := end + 2;
      } else if IsSpace(ch) {
        return;
      } else {
        end := end + 1;
      }
    }
  }

  // ----- where the daemon and the shell agree

  // Bytes the daemon takes for a space and the shell does not.
  predicate IsOdd(b: byte) { IsSpace(b) && !IsBlank(b) }

  /** The word at the start of s has such a byte outside quotes. */
  predicate OddInWord(s: seq<byte>, q: Quoting) {
    s != [] &&
    match q
    case Single => OddInWord(s[1..], if s[0] == SINGLE_QUOTE then Unquoted else Single)
    case Double =>
      if s[0] == DOUBLE_QUOTE then OddInWord(s[1..], Unquoted)
      else if s[0] == BACKSLASH && |s| > 1 then OddInWord(s[2..], Double)
      else OddInWord(s[1..], Double)
    case Unquoted =>
      if s[0] == SINGLE_QUOTE then OddInWord(s[1..], Single)
      else if s[0] == DOUBLE_QUOTE then OddInWord(s[1..], Double)
      else if s[0] == BACKSLASH && |s| > 1 then OddInWord(s[2..], Unquoted)
      else if IsBlank(s[0]) then false
      else IsOdd(s[0]) || OddInWord(s[1..], Unquoted)
  }

  /**
    The daemon's token is the shell's word exactly when no byte outside quotes is
    a vertical tab, form feed, carriage return, 0x85 or 0xA0.
   */
  lemma {:induction false} TokenIsWord(s: seq<byte>, q: Quoting, got: seq<byte>)
    requires Word(s, q, got).Some?
    ensures |Word(s, q, got).value.1| <= |s|
    ensures TokenLength(s, q) <= |s| - |Word(s, q, got).value.1|
    ensures TokenLength(s, q) == |s| - |Word(s, q, got).value.1| <==> !OddInWord(s, q)
    decreases |s|
  {
    if s != [] {
      match q {
        case Single =>
          TokenIsWord(s[1..], if s[0] == SINGLE_QUOTE then Unquoted else Single, if s[0] == SINGLE_QUOTE then got else got + [s[0]]);
        case Double =>
          if s[0] == DOUBLE_QUOTE {
            TokenIsWord(s[1..], Unquoted, got);
          } else if s[0] == BACKSLASH {
            if s[1] == LINE_FEED {
              TokenIsWord(s[2..], Double, got);
            } else {
              TokenIsWord(s[2..], Double, got + if QuotableInDouble(s[1]) then [s[1]] else s[..2]);
            }
          } else {
            TokenIsWord(s[1..], Double, got + [s[0]]);
          }
        case Unquoted =>
          if s[0] == SINGLE_QUOTE {
            TokenIsWord(s[1..], Single, got);
          } else if s[0] == DOUBLE_QUOTE {
            TokenIsWord(s[1..], Double, got);
          } else if s[0] == BACKSLASH {
            TokenIsWord(s[2..], Unquoted, if s[1] == LINE_FEED then got else got + [s[1]]);
          } else if !IsBlank(s[0]) {
            TokenIsWord(s[1..], Unquoted, got + [s[0]]);
          }
      }
    }
  }

  /** The letter a-grave in UTF-8, C3 A0, is one word to the shell; the daemon cuts it in two. */
  lemma Utf8CanBeCut()
    ensures Word([0x2F, 0xC3, 0xA0], Unquoted, []) == Some(([0x2F, 0xC3, 0xA0], []))
    ensures TokenLength([0x2F, 0xC3, 0xA0], Unquoted) == 2
  {
    assert [0x2F as byte, 0xC3, 0xA0][1..] == [0xC3, 0xA0] && [0xC3 as byte, 0xA0][1..] == [0xA0] && [0xA0 as byte][1..] == [];
    assert [0x2F as byte, 0xC3] + [0xA0] == [0x2F, 0xC3, 0xA0] && [0x2F as byte] + [0xC3] == [0x2F, 0xC3];
    assert [] + [0x2F as byte] == [0x2F];
    assert Word([0xA0], Unquoted, [0x2F, 0xC3]) == Word([], Unquoted, [0x2F, 0xC3, 0xA0]);
    assert Word([0xC3, 0xA0], Unquoted, [0x2F]) == Word([0xA0], Unquoted, [0x2F, 0xC3]);
    assert TokenLength([0xC3, 0xA0], Unquoted) == 1;
  }

  lemma NothingOddInEscape(c: byte, tail: seq<byte>)
    requires c == SINGLE_QUOTE || c == BACKSLASH
    ensures OddInWord([SINGLE_QUOTE, BACKSLASH, c, SINGLE_QUOTE] + tail, Single) == OddInWord(tail, Single)
  {
    var all := [SINGLE_QUOTE, BACKSLASH, c, SINGLE_QUOTE] + tail;
    var inner := [BACKSLASH, c, SINGLE_QUOTE] + tail;
    assert all[1..] == inner && inner[2..] == [SINGLE_QUOTE] + tail && ([SINGLE_QUOTE] + tail)[1..] == tail;
    assert OddInWord(all, Single) == OddInWord(inner, Unquoted);
    assert OddInWord(inner, Unquoted) == OddInWord([SINGLE_QUOTE] + tail, Unquoted);
  }

  lemma {:induction false} EscapedHasNoOdd(s: seq<byte>, rest: seq<byte>)
    requires Follows(rest)
    ensures !OddInWord(Escaped(s) + [SINGLE_QUOTE] + rest, Single)
    decreases |s|
  {
    var all := Escaped(s) + [SINGLE_QUOTE] + rest;
    if s == [] {
      assert all == [SINGLE_QUOTE] + rest && all[1..] == rest;
    } else {
      var tail := Escaped(s[1..]) + [SINGLE_QUOTE] + rest;
      EscapedHasNoOdd(s[1..], rest);
      assert all == EscapeOf(s[0]) + tail;
      if s[0] == SINGLE_QUOTE || s[0] == BACKSLASH {
        hide OddInWord;
        NothingOddInEscape(s[0], tail);
      } else {
        assert all[1..] == tail;
      }
    }
  }

  /** The daemon sees quoted bytes as one whole token, whatever follows a blank. */
  lemma QuotedIsOneToken(s: seq<byte>, rest: seq<byte>)
    requires Follows(rest)
    ensures TokenLength(Quoted(s) + rest, Unquoted) == |Quoted(s)|
  {
    var all := Quoted(s) + rest;
    QuotedIsOneWord(s, rest);
    TokenIsWord(all, Unquoted, []);
    assert all[1..] == Escaped(s) + [SINGLE_QUOTE] + rest;
    EscapedHasNoOdd(s, rest);
  }
}
