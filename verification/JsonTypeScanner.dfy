/**
  The allocation-free scanner for a stream line's top-level "type"
  (internal/agent/claude.go). The methods are the source's index loops; each is
  proved equal to a function of the same name ending in -Spec, and the lemmas
  relate those functions to the RFC 8259 grammar in JsonText.
 */
module JsonTypeScanner {
  import opened Bytes
  import opened JsonText

  // ----- what each loop computes

  function SkipSpaceSpec(p: seq<byte>, i: nat): (r: nat)
    ensures i <= r && (i <= |p| ==> r <= |p|)
    ensures r < |p| ==> !IsSpace(p[r])
    decreases |p| - i
  {
    if i < |p| && IsSpace(p[i]) then SkipSpaceSpec(p, i + 1) else i
  }

  // j is inside the string
  function StringEndSpec(p: seq<byte>, j: nat): (r: Option<nat>)
    ensures r.Some? ==> j < r.value <= |p|
    decreases |p| - j
  {
    if j >= |p| then None
    else if p[j] == BACKSLASH then StringEndSpec(p, j + 2)
    else if p[j] == DOUBLE_QUOTE then Some(j + 1)
    else StringEndSpec(p, j + 1)
  }

  predicate IsOpening(b: byte) { b == OPEN_BRACE || b == OPEN_BRACKET }

  predicate IsClosing(b: byte) { b == CLOSE_BRACE || b == CLOSE_BRACKET }

  function NestedEndSpec(p: seq<byte>, j: nat, depth: int): (r: Option<nat>)
    ensures r.Some? ==> j < r.value <= |p|
    decreases |p| - j
  {
    if j >= |p| then None
    else if p[j] == DOUBLE_QUOTE then
      match StringEndSpec(p, j + 1)
      case None => None
      case Some(end) => NestedEndSpec(p, end, depth)
    else if IsOpening(p[j]) then NestedEndSpec(p, j + 1, depth + 1)
    else if IsClosing(p[j]) then
      if depth - 1 == 0 then Some(j + 1) else NestedEndSpec(p, j + 1, depth - 1)
    else NestedEndSpec(p, j + 1, depth)
  }

  predicate EndsAtom(b: byte) { b == COMMA || IsClosing(b) || IsSpace(b) }

  function AtomEndSpec(p: seq<byte>, j: nat): (r: Option<nat>)
    ensures r.Some? ==> j <= r.value < |p|
    decreases |p| - j
  {
    if j >= |p| then None else if EndsAtom(p[j]) then Some(j) else AtomEndSpec(p, j + 1)
  }

  function SkipValueSpec(p: seq<byte>, i: nat): (r: Option<nat>)
    ensures r.Some? ==> i <= r.value <= |p|
  {
    if i >= |p| then None
    else if p[i] == DOUBLE_QUOTE then StringEndSpec(p, i + 1)
    else if IsOpening(p[i]) then NestedEndSpec(p, i, 0)
    else AtomEndSpec(p, i)
  }

  datatype Key = Key(isType: bool, valueStart: nat)

  // Reads one key, its colon and the white space around them.
  function KeySpec(p: seq<byte>, i: nat): (r: Option<Key>)
    ensures r.Some? ==> i < r.value.valueStart
  {
    var k := SkipSpaceSpec(p, i);
    if k >= |p| || p[k] != DOUBLE_QUOTE then None
    else match StringEndSpec(p, k + 1)
      case None => None
      case Some(end) =>
        var colon := SkipSpaceSpec(p, end);
        if colon >= |p| || p[colon] != COLON then None
        else Some(Key(p[k + 1..end - 1] == TYPE_KEY, SkipSpaceSpec(p, colon + 1)))
  }

  // The text between the quotation marks of the string value at v.
  function TextSpanSpec(p: seq<byte>, v: nat): (r: Option<(nat, nat)>)
    ensures r.Some? ==> v < r.value.0 <= r.value.1 < |p|
  {
    if v >= |p| || p[v] != DOUBLE_QUOTE then None
    else match StringEndSpec(p, v + 1)
      case None => None
      case Some(end) => Some((v + 1, end - 1))
  }

  // Steps over the value at v and the comma after it.
  function NextMemberSpec(p: seq<byte>, v: nat): (r: Option<nat>)
    ensures r.Some? ==> v < r.value <= |p|
  {
    match SkipValueSpec(p, v)
    case None => None
    case Some(after) =>
      var c := SkipSpaceSpec(p, after);
      if c >= |p| || p[c] != COMMA then None else Some(c + 1)
  }

  /** Where the type's text stands, from the position after '{' or ','. */
  function TypeSpanSpec(p: seq<byte>, i: nat): (r: Option<(nat, nat)>)
    ensures r.Some? ==> i < r.value.0 <= r.value.1 < |p|
    decreases |p| - i
  {
    match KeySpec(p, i)
    case None => None
    case Some(Key(isType, v)) =>
      if isType then TextSpanSpec(p, v)
      else match NextMemberSpec(p, v)
        case None => None
        case Some(next) => TypeSpanSpec(p, next)
  }

  function DetectSpanSpec(p: seq<byte>): (r: Option<(nat, nat)>)
    ensures r.Some? ==> r.value.0 <= r.value.1 < |p|
  {
    var i := SkipSpaceSpec(p, 0);
    if i >= |p| || p[i] != OPEN_BRACE then None else TypeSpanSpec(p, i + 1)
  }

  function DetectSpec(p: seq<byte>): Option<seq<byte>> {
    match DetectSpanSpec(p)
    case None => None
    case Some(span) => Some(p[span.0..span.1])
  }

  // ----- the loops of the source

  method SkipJSONSpace(p: seq<byte>, i0: nat) returns (i: nat)
    ensures i == SkipSpaceSpec(p, i0)
  {
    i := i0;
    while i < |p| && IsSpace(p[i])
      invariant SkipSpaceSpec(p, i0) == SkipSpaceSpec(p, i)
    {
      i := i + 1;
    }
  }

  method ScanJSONString(p: seq<byte>, i: nat) returns (end: nat, ok: bool)
    ensures ok <==> StringEndSpec(p, i + 1).Some?
    ensures ok ==> end == StringEndSpec(p, i + 1).value
    ensures !ok ==> end == 0
  {
    var j := i + 1;
    while j < |p|
      invariant StringEndSpec(p, i + 1) == StringEndSpec(p, j)
    {
      if p[j] == BACKSLASH {
        j := j + 1;
      } else if p[j] == DOUBLE_QUOTE {
        return j + 1, true;
      }
      j := j + 1;
    }
    return 0, false;
  }

  method SkipJSONValue(p: seq<byte>, i: nat) returns (end: nat, ok: bool)
    ensures ok <==> SkipValueSpec(p, i).Some?
    ensures ok ==> end == SkipValueSpec(p, i).value
    ensures !ok ==> end == 0
  {
    if i >= |p| {
      return 0, false;
    }
    if p[i] == DOUBLE_QUOTE {
      end, ok := ScanJSONString(p, i);
    } else if IsOpening(p[i]) {
      var depth: int := 0;
      var j := i;
      while j < |p|
        invariant NestedEndSpec(p, i, 0) == NestedEndSpec(p, j, depth)
      {
        if p[j] == DOUBLE_QUOTE {
          var stringEnd, found := ScanJSONString(p, j);
          if !found {
            return 0, false;
          }
          j := stringEnd - 1;
        } else if IsOpening(p[j]) {
          depth := depth + 1;
        } else if IsClosing(p[j]) {
          depth := depth - 1;
          if depth == 0 {
            return j + 1, true;
          }
        }
        j := j + 1;
      }
      return 0, false;
    } else {
      var j := i;
      while j < |p|
        invariant AtomEndSpec(p, i) == AtomEndSpec(p, j)
      {
        if EndsAtom(p[j]) {
          return j, true;
        }
        j := j + 1;
      }
      return 0, false;
    }
  }

  method DetectStreamLineType(p: seq<byte>) returns (typ: seq<byte>, found: bool)
    ensures found <==> DetectSpec(p).Some?
    ensures found ==> typ == DetectSpec(p).value
    ensures !found ==> typ == []
  {
    hide SkipSpaceSpec, StringEndSpec, SkipValueSpec, KeySpec, TextSpanSpec, NextMemberSpec, TypeSpanSpec;
    var i := SkipJSONSpace(p, 0);
    if i >= |p| || p[i] != OPEN_BRACE {
      return [], false;
    }
    i := i + 1;
    while true
      invariant DetectSpanSpec(p) == TypeSpanSpec(p, i)
      decreases |p| - i
    {
      ghost var start := i;
      Member(p, start);
      i := SkipJSONSpace(p, i);
      if i >= |p| || p[i] != DOUBLE_QUOTE {
        return [], false;
      }
      var keyEnd, ok := ScanJSONString(p, i);
      if !ok {
        return [], false;
      }
      var isType := p[i + 1..keyEnd - 1] == TYPE_KEY;
      i := SkipJSONSpace(p, keyEnd);
      if i >= |p| || p[i] != COLON {
        return [], false;
      }
      i := SkipJSONSpace(p, i + 1);
      MemberValue(p, start, isType, i);
      if isType {
        if i >= |p| || p[i] != DOUBLE_QUOTE {
          return [], false;
        }
        var end, closed := ScanJSONString(p, i);
        if !closed {
          return [], false;
        }
        return p[i + 1..end - 1], true;
      }
      i, ok := SkipJSONValue(p, i);
      if !ok {
        return [], false;
      }
      i := SkipJSONSpace(p, i);
      if i >= |p| || p[i] != COMMA {
        return [], false;
      }
      i := i + 1;
    }
  }

  // One turn of the detector's loop, in the order it looks at the line.
  lemma Member(p: seq<byte>, i: nat)
    ensures var k := SkipSpaceSpec(p, i);
      if k >= |p| || p[k] != DOUBLE_QUOTE || StringEndSpec(p, k + 1).None? then TypeSpanSpec(p, i) == None
      else
        var end := StringEndSpec(p, k + 1).value;
        var colon := SkipSpaceSpec(p, end);
        if colon >= |p| || p[colon] != COLON then TypeSpanSpec(p, i) == None
        else KeySpec(p, i) == Some(Key(p[k + 1..end - 1] == TYPE_KEY, SkipSpaceSpec(p, colon + 1)))
  {
    hide SkipSpaceSpec, StringEndSpec, TextSpanSpec, NextMemberSpec;
  }

  lemma MemberValue(p: seq<byte>, i: nat, isType: bool, v: nat)
    requires KeySpec(p, i) == Some(Key(isType, v))
    ensures isType ==>
      TypeSpanSpec(p, i) ==
        (if v >= |p| || p[v] != DOUBLE_QUOTE || StringEndSpec(p, v + 1).None? then None
         else Some((v + 1, StringEndSpec(p, v + 1).value - 1)))
    ensures !isType && SkipValueSpec(p, v).None? ==> TypeSpanSpec(p, i) == None
    ensures !isType && SkipValueSpec(p, v).Some? ==>
      var c := SkipSpaceSpec(p, SkipValueSpec(p, v).value);
      TypeSpanSpec(p, i) == (if c >= |p| || p[c] != COMMA then None else TypeSpanSpec(p, c + 1))
  {
    hide SkipSpaceSpec, StringEndSpec, SkipValueSpec, KeySpec;
  }

  // ----- an answer found on a prefix stands on every extension

  lemma {:induction false} SkipSpaceExtends(p: seq<byte>, x: seq<byte>, i: nat)
    requires SkipSpaceSpec(p, i) < |p|
    ensures SkipSpaceSpec(p + x, i) == SkipSpaceSpec(p, i)
    decreases |p| - i
  {
    if i < |p| && IsSpace(p[i]) { SkipSpaceExtends(p, x, i + 1); }
  }

  lemma {:induction false} StringEndExtends(p: seq<byte>, x: seq<byte>, j: nat)
    requires StringEndSpec(p, j).Some?
    ensures StringEndSpec(p + x, j) == StringEndSpec(p, j)
    decreases |p| - j
  {
    if p[j] == BACKSLASH {
      StringEndExtends(p, x, j + 2);
    } else if p[j] != DOUBLE_QUOTE {
      StringEndExtends(p, x, j + 1);
    }
  }

  lemma {:induction false} NestedEndExtends(p: seq<byte>, x: seq<byte>, j: nat, depth: int)
    requires NestedEndSpec(p, j, depth).Some?
    ensures NestedEndSpec(p + x, j, depth) == NestedEndSpec(p, j, depth)
    decreases |p| - j
  {
    if p[j] == DOUBLE_QUOTE {
      StringEndExtends(p, x, j + 1);
      NestedEndExtends(p, x, StringEndSpec(p, j + 1).value, depth);
    } else if IsOpening(p[j]) {
      NestedEndExtends(p, x, j + 1, depth + 1);
    } else if !IsClosing(p[j]) {
      NestedEndExtends(p, x, j + 1, depth);
    } else if depth != 1 {
      NestedEndExtends(p, x, j + 1, depth - 1);
    }
  }

  lemma {:induction false} AtomEndExtends(p: seq<byte>, x: seq<byte>, j: nat)
    requires AtomEndSpec(p, j).Some?
    ensures AtomEndSpec(p + x, j) == AtomEndSpec(p, j)
    decreases |p| - j
  {
    if !EndsAtom(p[j]) { AtomEndExtends(p, x, j + 1); }
  }

  lemma SkipValueExtends(p: seq<byte>, x: seq<byte>, i: nat)
    requires SkipValueSpec(p, i).Some?
    ensures SkipValueSpec(p + x, i) == SkipValueSpec(p, i)
  {
    if p[i] == DOUBLE_QUOTE {
      StringEndExtends(p, x, i + 1);
    } else if IsOpening(p[i]) {
      NestedEndExtends(p, x, i, 0);
    } else {
      AtomEndExtends(p, x, i);
    }
  }

  lemma KeyExtends(p: seq<byte>, x: seq<byte>, i: nat)
    requires KeySpec(p, i).Some? && KeySpec(p, i).value.valueStart < |p|
    ensures KeySpec(p + x, i) == KeySpec(p, i)
  {
    var k := SkipSpaceSpec(p, i);
    SkipSpaceExtends(p, x, i);
    StringEndExtends(p, x, k + 1);
    var end := StringEndSpec(p, k + 1).value;
    assert (p + x)[k + 1..end - 1] == p[k + 1..end - 1];
    SkipSpaceExtends(p, x, end);
    SkipSpaceExtends(p, x, SkipSpaceSpec(p, end) + 1);
  }

  lemma NextMemberExtends(p: seq<byte>, x: seq<byte>, v: nat)
    requires NextMemberSpec(p, v).Some?
    ensures NextMemberSpec(p + x, v) == NextMemberSpec(p, v)
  {
    SkipValueExtends(p, x, v);
    SkipSpaceExtends(p, x, SkipValueSpec(p, v).value);
  }

  lemma {:induction false} TypeSpanExtends(p: seq<byte>, x: seq<byte>, i: nat)
    requires TypeSpanSpec(p, i).Some?
    ensures TypeSpanSpec(p + x, i) == TypeSpanSpec(p, i)
    decreases |p| - i
  {
    hide KeySpec, NextMemberSpec;
    KeyExtends(p, x, i);
    var Key(isType, v) := KeySpec(p, i).value;
    if isType {
      StringEndExtends(p, x, v + 1);
    } else {
      NextMemberExtends(p, x, v);
      TypeSpanExtends(p, x, NextMemberSpec(p, v).value);
    }
  }

  lemma DetectExtends(p: seq<byte>, x: seq<byte>)
    requires DetectSpec(p).Some?
    ensures DetectSpanSpec(p + x) == DetectSpanSpec(p)
    ensures DetectSpec(p + x) == DetectSpec(p)
  {
    hide TypeSpanSpec, SkipSpaceSpec;
    SkipSpaceExtends(p, x, 0);
    TypeSpanExtends(p, x, SkipSpaceSpec(p, 0) + 1);
    var span := DetectSpanSpec(p).value;
    assert (p + x)[span.0..span.1] == p[span.0..span.1];
  }

  // ----- the scanner against the grammar

  lemma {:induction false} SpaceIsSkipped(p: seq<byte>, i: nat, s: seq<byte>)
    requires At(p, i, s) && AllSpace(s)
    ensures SkipSpaceSpec(p, i) == SkipSpaceSpec(p, i + |s|)
    decreases |s|
  {
    if s != [] { SpaceIsSkipped(p, i + 1, s[1..]); }
  }

  lemma {:induction false} RawStringIsScanned(p: seq<byte>, j: nat, raw: seq<byte>)
    requires At(p, j, raw) && At(p, j + |raw|, [DOUBLE_QUOTE]) && IsRawString(raw)
    ensures StringEndSpec(p, j) == Some(j + |raw| + 1)
    decreases |raw|
  {
    if raw == [] {
    } else if raw[0] != BACKSLASH {
      RawStringIsScanned(p, j + 1, raw[1..]);
    } else if raw[1] != LOWER_U {
      assert raw == raw[..2] + raw[2..];
      AtSplit(p, j, raw[..2], raw[2..]);
      RawStringIsScanned(p, j + 2, raw[2..]);
    } else {
      assert raw == raw[..2] + (raw[2..6] + raw[6..]);
      AtSplit(p, j, raw[..2], raw[2..6] + raw[6..]);
      AtSplit(p, j + 2, raw[2..6], raw[6..]);
      RawStringIsScanned(p, j + 6, raw[6..]);
      HexIsScanned(p, j + 2, raw[2..6]);
    }
  }

  lemma {:induction false} HexIsScanned(p: seq<byte>, j: nat, digits: seq<byte>)
    requires At(p, j, digits) && forall k | 0 <= k < |digits| :: IsHex(digits[k])
    ensures StringEndSpec(p, j) == StringEndSpec(p, j + |digits|)
    decreases |digits|
  {
    if digits != [] {
      assert IsHex(digits[0]);
      HexIsScanned(p, j + 1, digits[1..]);
    }
  }

  lemma QuotedIsScanned(p: seq<byte>, i: nat, raw: seq<byte>)
    requires At(p, i, Quoted(raw)) && IsRawString(raw)
    ensures StringEndSpec(p, i + 1) == Some(i + |Quoted(raw)|)
    ensures i + |Quoted(raw)| <= |p| && p[i] == DOUBLE_QUOTE && p[i + 1..i + |Quoted(raw)| - 1] == raw
  {
    AtSplit(p, i, [DOUBLE_QUOTE] + raw, [DOUBLE_QUOTE]);
    AtSplit(p, i, [DOUBLE_QUOTE], raw);
    RawStringIsScanned(p, i + 1, raw);
    AtSlice(p, i + 1, raw);
  }

  // bytes the nesting scan passes over without looking
  predicate IsFlat(b: byte) { b != DOUBLE_QUOTE && !IsOpening(b) && !IsClosing(b) }

  predicate AllFlat(s: seq<byte>) { forall k | 0 <= k < |s| :: IsFlat(s[k]) }

  lemma {:induction false} FlatIsPassed(p: seq<byte>, j: nat, depth: int, s: seq<byte>)
    requires At(p, j, s) && AllFlat(s)
    ensures NestedEndSpec(p, j, depth) == NestedEndSpec(p, j + |s|, depth)
    decreases |s|
  {
    if s != [] {
      assert IsFlat(s[0]);
      FlatIsPassed(p, j + 1, depth, s[1..]);
    }
  }

  lemma SpaceIsPassed(p: seq<byte>, j: nat, depth: int, s: seq<byte>)
    requires At(p, j, s) && AllSpace(s)
    ensures NestedEndSpec(p, j, depth) == NestedEndSpec(p, j + |s|, depth)
  {
    FlatIsPassed(p, j, depth, s);
  }

  lemma ByteIsPassed(p: seq<byte>, j: nat, depth: int, b: byte)
    requires At(p, j, [b]) && IsFlat(b)
    ensures NestedEndSpec(p, j, depth) == NestedEndSpec(p, j + 1, depth)
  {
  }

  lemma QuotedIsPassed(p: seq<byte>, j: nat, depth: int, raw: seq<byte>)
    requires At(p, j, Quoted(raw)) && IsRawString(raw)
    ensures NestedEndSpec(p, j, depth) == NestedEndSpec(p, j + |Quoted(raw)|, depth)
  {
    QuotedIsScanned(p, j, raw);
  }

  predicate IsAtom(v: Value) { !v.String? && !v.Array? && !v.Object? }

  // bytes of numbers and literals: letters, digits, signs and the point
  predicate IsAtomByte(b: byte) {
    97 <= b <= 122 || b == 69 || IsDigit(b) || b == MINUS || b == PLUS || b == DOT
  }

  predicate AllAtomBytes(s: seq<byte>) { forall k | 0 <= k < |s| :: IsAtomByte(s[k]) }

  lemma AtomBytes(v: Value)
    requires Valid(v) && IsAtom(v)
    ensures RenderAtom(v) != [] && AllAtomBytes(RenderAtom(v))
  {
    if v.Number? {
      var sign := if v.minus then [MINUS] else [];
      var fraction := if v.fraction == [] then [] else [DOT] + v.fraction;
      assert AllAtomBytes(sign) && AllAtomBytes(v.whole) && AllAtomBytes(fraction);
      ExponentBytes(v.exponent);
      AtomBytesJoin(sign, v.whole);
      AtomBytesJoin(sign + v.whole, fraction);
      AtomBytesJoin(sign + v.whole + fraction, RenderExponent(v.exponent));
    }
  }

  lemma ExponentBytes(e: Exponent)
    requires ValidExponent(e)
    ensures AllAtomBytes(RenderExponent(e))
  {
    if e.Exponent? {
      assert AllAtomBytes(e.sign) && AllAtomBytes(e.digits);
      AtomBytesJoin([e.mark], e.sign);
      AtomBytesJoin([e.mark] + e.sign, e.digits);
    }
  }

  lemma AtomBytesJoin(a: seq<byte>, b: seq<byte>)
    requires AllAtomBytes(a) && AllAtomBytes(b)
    ensures AllAtomBytes(a + b)
  {
  }

  lemma AtomIsFlat(v: Value)
    requires Valid(v) && IsAtom(v)
    ensures RenderAtom(v) != [] && AllFlat(RenderAtom(v))
    ensures forall k | 0 <= k < |RenderAtom(v)| :: !EndsAtom(RenderAtom(v)[k])
  {
    hide RenderAtom, Valid;
    AtomBytes(v);
    var s := RenderAtom(v);
    forall k | 0 <= k < |s| ensures IsFlat(s[k]) && !EndsAtom(s[k]) {
      assert IsAtomByte(s[k]);
    }
  }

  lemma {:induction false} AtomIsSkipped(p: seq<byte>, j: nat, s: seq<byte>)
    requires At(p, j, s) && j + |s| < |p| && EndsAtom(p[j + |s|])
    requires forall k | 0 <= k < |s| :: !EndsAtom(s[k])
    ensures AtomEndSpec(p, j) == Some(j + |s|)
    decreases |s|
  {
    if s != [] { AtomIsSkipped(p, j + 1, s[1..]); }
  }

  /** Inside some nesting, a rendered value leaves the depth as it was. */
  lemma {:induction false} ValueKeepsDepth(p: seq<byte>, j: nat, depth: int, v: Value)
    requires depth >= 1 && Valid(v) && At(p, j, Render(v))
    ensures NestedEndSpec(p, j, depth) == NestedEndSpec(p, j + |Render(v)|, depth)
    decreases v, 1
  {
    match v {
      case String(raw) =>
        QuotedIsScanned(p, j, raw);
      case Array(pad, elements) =>
        ArrayKeepsDepth(p, j, depth, v);
      case Object(pad, members) =>
        ObjectKeepsDepth(p, j, depth, v);
      case _ =>
        AtomIsFlat(v);
        FlatIsPassed(p, j, depth, RenderAtom(v));
    }
  }

  // At depth 0 the closing bracket ends the value; deeper it only lowers the depth.
  lemma {:induction false} ArrayKeepsDepth(p: seq<byte>, j: nat, depth: int, v: Value)
    requires depth >= 0 && Valid(v) && v.Array? && At(p, j, Render(v))
    ensures NestedEndSpec(p, j, depth)
         == if depth == 0 then Some(j + |Render(v)|) else NestedEndSpec(p, j + |Render(v)|, depth)
    ensures p[j] == OPEN_BRACKET
    decreases v, 0
  {
    hide RenderElements, ValidElements, AllSpace;
    var es := RenderElements(v.elements);
    AtSplit(p, j, [OPEN_BRACKET] + v.pad + es, [CLOSE_BRACKET]);
    AtSplit(p, j, [OPEN_BRACKET] + v.pad, es);
    AtSplit(p, j, [OPEN_BRACKET], v.pad);
    SpaceIsPassed(p, j + 1, depth + 1, v.pad);
    ElementsKeepDepth(p, j + 1 + |v.pad|, depth + 1, v.elements);
  }

  lemma {:induction false} ObjectKeepsDepth(p: seq<byte>, j: nat, depth: int, v: Value)
    requires depth >= 0 && Valid(v) && v.Object? && At(p, j, Render(v))
    ensures NestedEndSpec(p, j, depth)
         == if depth == 0 then Some(j + |Render(v)|) else NestedEndSpec(p, j + |Render(v)|, depth)
    ensures p[j] == OPEN_BRACE
    decreases v, 0
  {
    hide RenderMembers, ValidMembers, AllSpace;
    ObjectSplit(p, j, v);
    SpaceIsPassed(p, j + 1, depth + 1, v.pad);
    MembersKeepDepth(p, j + 1 + |v.pad|, depth + 1, v.members);
  }

  lemma {:induction false} ElementsKeepDepth(p: seq<byte>, j: nat, depth: int, es: Elements)
    requires depth >= 1 && ValidElements(es) && At(p, j, RenderElements(es))
    ensures NestedEndSpec(p, j, depth) == NestedEndSpec(p, j + |RenderElements(es)|, depth)
    decreases es, 0
  {
    hide At, NestedEndSpec, Render, Valid, AllSpace;
    if es.Element? {
      ElementSplit(p, j, es);
      SpaceIsPassed(p, j, depth, es.before);
      ValueKeepsDepth(p, j + |es.before|, depth, es.value);
      var a := j + |es.before| + |Render(es.value)|;
      SpaceIsPassed(p, a, depth, es.after);
      if es.rest.Element? {
        ByteIsPassed(p, a + |es.after|, depth, COMMA);
        ElementsKeepDepth(p, a + |es.after| + 1, depth, es.rest);
      }
    }
  }

  lemma ElementSplit(p: seq<byte>, j: nat, es: Elements)
    requires es.Element? && At(p, j, RenderElements(es))
    ensures At(p, j, es.before) && At(p, j + |es.before|, Render(es.value))
    ensures At(p, j + |es.before| + |Render(es.value)|, es.after)
    ensures es.rest.Element? ==>
      At(p, j + |es.before| + |Render(es.value)| + |es.after|, [COMMA]) &&
      At(p, j + |es.before| + |Render(es.value)| + |es.after| + 1, RenderElements(es.rest))
  {
    hide At, Render;
    var r := Render(es.value);
    AtSplit(p, j, es.before + r + es.after, RenderMoreElements(es.rest));
    AtSplit(p, j, es.before + r, es.after);
    AtSplit(p, j, es.before, r);
    if es.rest.Element? {
      AtSplit(p, j + |es.before| + |r| + |es.after|, [COMMA], RenderElements(es.rest));
    }
  }

  lemma {:induction false} MembersKeepDepth(p: seq<byte>, j: nat, depth: int, ms: Members)
    requires depth >= 1 && ValidMembers(ms) && At(p, j, RenderMembers(ms))
    ensures NestedEndSpec(p, j, depth) == NestedEndSpec(p, j + |RenderMembers(ms)|, depth)
    decreases ms, 0
  {
    hide At, NestedEndSpec, Render, Valid, AllSpace, RenderKey;
    if ms.Member? {
      MemberSplit(p, j, ms, RenderMoreMembers(ms.rest));
      KeyKeepsDepth(p, j, depth, ms);
      ValueKeepsDepth(p, j + |RenderKey(ms)|, depth, ms.value);
      var a := j + |RenderKey(ms)| + |Render(ms.value)|;
      SpaceIsPassed(p, a, depth, ms.after);
      if ms.rest.Member? {
        AtSplit(p, a + |ms.after|, [COMMA], RenderMembers(ms.rest));
        ByteIsPassed(p, a + |ms.after|, depth, COMMA);
        MembersKeepDepth(p, a + |ms.after| + 1, depth, ms.rest);
      }
    }
  }

  // Where the parts of a rendered member stand.
  lemma MemberParts(p: seq<byte>, j: nat, ms: Members)
    requires ms.Member? && At(p, j, RenderKey(ms))
    ensures At(p, j, ms.before) && At(p, j + |ms.before|, Quoted(ms.key))
    ensures At(p, j + |ms.before| + |Quoted(ms.key)|, ms.beforeColon)
    ensures At(p, j + |ms.before| + |Quoted(ms.key)| + |ms.beforeColon|, [COLON])
    ensures At(p, j + |ms.before| + |Quoted(ms.key)| + |ms.beforeColon| + 1, ms.afterColon)
  {
    AtSplit(p, j, ms.before + Quoted(ms.key) + ms.beforeColon + [COLON], ms.afterColon);
    AtSplit(p, j, ms.before + Quoted(ms.key) + ms.beforeColon, [COLON]);
    AtSplit(p, j, ms.before + Quoted(ms.key), ms.beforeColon);
    AtSplit(p, j, ms.before, Quoted(ms.key));
  }

  lemma KeyKeepsDepth(p: seq<byte>, j: nat, depth: int, ms: Members)
    requires ms.Member? && ValidMembers(ms) && At(p, j, RenderKey(ms))
    ensures NestedEndSpec(p, j, depth) == NestedEndSpec(p, j + |RenderKey(ms)|, depth)
  {
    hide At, NestedEndSpec, Quoted, AllSpace, IsRawString, Valid;
    MemberParts(p, j, ms);
    SpaceIsPassed(p, j, depth, ms.before);
    QuotedIsPassed(p, j + |ms.before|, depth, ms.key);
    var c := j + |ms.before| + |Quoted(ms.key)|;
    SpaceIsPassed(p, c, depth, ms.beforeColon);
    ByteIsPassed(p, c + |ms.beforeColon|, depth, COLON);
    SpaceIsPassed(p, c + |ms.beforeColon| + 1, depth, ms.afterColon);
  }

  /**
    The key fact: the value skipper consumes exactly one rendered value. What
    follows is arbitrary, except that it must end a number or a literal.
   */
  lemma SkipsExactlyOneValue(p: seq<byte>, i: nat, v: Value)
    requires Valid(v) && At(p, i, Render(v))
    requires IsAtom(v) ==> i + |Render(v)| < |p| && EndsAtom(p[i + |Render(v)|])
    ensures SkipValueSpec(p, i) == Some(i + |Render(v)|)
  {
    match v {
      case String(raw) =>
        QuotedIsScanned(p, i, raw);
      case Array(_, _) =>
        ArrayKeepsDepth(p, i, 0, v);
      case Object(_, _) =>
        ObjectKeepsDepth(p, i, 0, v);
      case _ =>
        AtomIsFlat(v);
        AtomIsSkipped(p, i, RenderAtom(v));
    }
  }

  // A rendered key and its colon, as the detector reads them.
  lemma KeyIsRead(p: seq<byte>, i: nat, ms: Members)
    requires ms.Member? && ValidMembers(ms) && At(p, i, RenderKey(ms))
    ensures KeySpec(p, i) == Some(Key(ms.key == TYPE_KEY, SkipSpaceSpec(p, i + |RenderKey(ms)|)))
  {
    hide At, Quoted, AllSpace, IsRawString, Valid, StringEndSpec, SkipSpaceSpec;
    MemberParts(p, i, ms);
    QuotedIsScanned(p, i + |ms.before|, ms.key);
    SpaceIsSkippedTo(p, i, ms.before);
    var end := i + |ms.before| + |Quoted(ms.key)|;
    FirstByte(p, end + |ms.beforeColon|, [COLON]);
    SpaceIsSkippedTo(p, end, ms.beforeColon);
    SpaceIsSkipped(p, end + |ms.beforeColon| + 1, ms.afterColon);
  }

  lemma SpaceIsSkippedTo(p: seq<byte>, i: nat, s: seq<byte>)
    requires At(p, i, s) && AllSpace(s) && i + |s| < |p| && !IsSpace(p[i + |s|])
    ensures SkipSpaceSpec(p, i) == i + |s|
  {
    SpaceIsSkipped(p, i, s);
  }

  lemma ValueStart(p: seq<byte>, i: nat, v: Value)
    requires Valid(v) && At(p, i, Render(v))
    ensures i < |p| && SkipSpaceSpec(p, i) == i
    ensures (p[i] == DOUBLE_QUOTE <==> v.String?) && (p[i] == OPEN_BRACE <==> v.Object?)
  {
    hide At, NestedEndSpec, RenderAtom;
    match v {
      case String(raw) =>
        QuotedIsScanned(p, i, raw);
      case Array(_, _) =>
        ArrayKeepsDepth(p, i, 0, v);
      case Object(_, _) =>
        ObjectKeepsDepth(p, i, 0, v);
      case _ =>
        AtomIsFlat(v);
        FirstByte(p, i, RenderAtom(v));
    }
  }

  lemma FirstByte(p: seq<byte>, i: nat, r: seq<byte>)
    requires At(p, i, r) && r != []
    ensures i < |p| && p[i] == r[0]
  {
  }

  // A value and the separator after it are stepped over.
  lemma ValueIsSkipped(p: seq<byte>, i: nat, v: Value, after: seq<byte>, next: byte)
    requires Valid(v) && AllSpace(after) && EndsAtom(next) && !IsSpace(next)
    requires At(p, i, Render(v)) && At(p, i + |Render(v)|, after) && At(p, i + |Render(v)| + |after|, [next])
    ensures NextMemberSpec(p, i) == if next == COMMA then Some(i + |Render(v)| + |after| + 1) else None
  {
    hide Valid, Render, SkipValueSpec;
    SkipsExactlyOneValue(p, i, v);
    SpaceIsSkipped(p, i + |Render(v)|, after);
  }

  // Where a member's key, value and following white space stand.
  lemma MemberSplit(p: seq<byte>, i: nat, ms: Members, tail: seq<byte>)
    requires ms.Member? && At(p, i, RenderKey(ms) + Render(ms.value) + ms.after + tail)
    ensures At(p, i, RenderKey(ms)) && At(p, i + |RenderKey(ms)|, Render(ms.value))
    ensures At(p, i + |RenderKey(ms)| + |Render(ms.value)|, ms.after)
    ensures At(p, i + |RenderKey(ms)| + |Render(ms.value)| + |ms.after|, tail)
  {
    hide At, Render, RenderKey;
    AtSplit(p, i, RenderKey(ms) + Render(ms.value) + ms.after, tail);
    AtSplit(p, i, RenderKey(ms) + Render(ms.value), ms.after);
    AtSplit(p, i, RenderKey(ms), Render(ms.value));
  }

  // One member that is not the `type` member is stepped over.
  lemma OtherMemberIsSkipped(p: seq<byte>, i: nat, ms: Members, next: byte)
    requires ms.Member? && ValidMembers(ms) && ms.key != TYPE_KEY && EndsAtom(next) && !IsSpace(next)
    requires At(p, i, RenderKey(ms)) && At(p, i + |RenderKey(ms)|, Render(ms.value))
    requires At(p, i + |RenderKey(ms)| + |Render(ms.value)|, ms.after)
    requires At(p, i + |RenderKey(ms)| + |Render(ms.value)| + |ms.after|, [next])
    ensures TypeSpanSpec(p, i)
         == if next == COMMA then TypeSpanSpec(p, i + |RenderKey(ms)| + |Render(ms.value)| + |ms.after| + 1) else None
  {
    hide At, Render, RenderKey, KeySpec, NextMemberSpec, SkipSpaceSpec, Valid, AllSpace;
    KeyIsRead(p, i, ms);
    ValueStart(p, i + |RenderKey(ms)|, ms.value);
    ValueIsSkipped(p, i + |RenderKey(ms)|, ms.value, ms.after, next);
  }

  // The value of the `type` member.
  lemma TypeValueIsRead(p: seq<byte>, i: nat, ms: Members)
    requires ms.Member? && ValidMembers(ms) && ms.key == TYPE_KEY
    requires At(p, i, RenderKey(ms)) && At(p, i + |RenderKey(ms)|, Render(ms.value))
    ensures !ms.value.String? ==> TypeSpanSpec(p, i) == None
    ensures ms.value.String? ==>
      var v := i + |RenderKey(ms)|; var end := v + |Render(ms.value)|;
      TypeSpanSpec(p, i) == Some((v + 1, end - 1)) && v + 1 <= end - 1 < |p| && p[v + 1..end - 1] == ms.value.raw
  {
    hide At, RenderKey, KeySpec, SkipSpaceSpec, StringEndSpec, IsRawString;
    KeyIsRead(p, i, ms);
    ValueStart(p, i + |RenderKey(ms)|, ms.value);
    if ms.value.String? {
      QuotedIsScanned(p, i + |RenderKey(ms)|, ms.value.raw);
    }
  }

  /** Found: only what stands before the end of the `type` member matters. */
  lemma {:induction false} TypeIsFound(p: seq<byte>, i: nat, ms: Members)
    requires ValidMembers(ms) && FirstTypeMember(ms).Some? && FirstTypeMember(ms).value.String?
    requires At(p, i, MembersThroughType(ms))
    ensures TypeSpanSpec(p, i).Some? && TypeSpanSpec(p, i).value.1 + 1 == i + |MembersThroughType(ms)|
    ensures var span := TypeSpanSpec(p, i).value; p[span.0..span.1] == FirstTypeMember(ms).value.raw
    decreases ms
  {
    hide At, RenderKey, Render, TypeSpanSpec, Valid;
    if ms.key == TYPE_KEY {
      AtSplit(p, i, RenderKey(ms), Render(ms.value));
      TypeValueIsRead(p, i, ms);
    } else {
      var more := MembersThroughType(ms.rest);
      assert MembersThroughType(ms) == RenderKey(ms) + Render(ms.value) + ms.after + ([COMMA] + more);
      MemberSplit(p, i, ms, [COMMA] + more);
      AtSplit(p, i + |RenderKey(ms)| + |Render(ms.value)| + |ms.after|, [COMMA], more);
      OtherMemberIsSkipped(p, i, ms, COMMA);
      TypeIsFound(p, i + |RenderKey(ms)| + |Render(ms.value)| + |ms.after| + 1, ms.rest);
    }
  }

  /** Not found: the object has no `type`, or its first one is not a string. */
  lemma {:induction false} NoTypeIsFound(p: seq<byte>, i: nat, ms: Members)
    requires ValidMembers(ms) && !(FirstTypeMember(ms).Some? && FirstTypeMember(ms).value.String?)
    requires At(p, i, RenderMembers(ms)) && At(p, i + |RenderMembers(ms)|, [CLOSE_BRACE])
    ensures TypeSpanSpec(p, i) == None
    decreases ms
  {
    hide At, RenderKey, Render, Valid, AllSpace, IsRawString, TypeSpanSpec;
    if ms.NoMembers? {
      ClosedHere(p, i);
    } else {
      MemberIsNotTheType(p, i, ms);
      if ms.key != TYPE_KEY && ms.rest.Member? {
        NoTypeIsFound(p, i + |RenderKey(ms)| + |Render(ms.value)| + |ms.after| + 1, ms.rest);
      }
    }
  }

  lemma ClosedHere(p: seq<byte>, i: nat)
    requires At(p, i, [CLOSE_BRACE])
    ensures TypeSpanSpec(p, i) == None
  {
    assert SkipSpaceSpec(p, i) == i;
  }

  lemma MemberIsNotTheType(p: seq<byte>, i: nat, ms: Members)
    requires ms.Member? && ValidMembers(ms) && (ms.key == TYPE_KEY ==> !ms.value.String?)
    requires At(p, i, RenderMembers(ms)) && At(p, i + |RenderMembers(ms)|, [CLOSE_BRACE])
    ensures ms.key == TYPE_KEY || ms.rest.NoMembers? ==> TypeSpanSpec(p, i) == None
    ensures ms.key != TYPE_KEY && ms.rest.Member? ==>
      var next := i + |RenderKey(ms)| + |Render(ms.value)| + |ms.after| + 1;
      TypeSpanSpec(p, i) == TypeSpanSpec(p, next) && At(p, next, RenderMembers(ms.rest)) &&
      next + |RenderMembers(ms.rest)| == i + |RenderMembers(ms)|
  {
    hide At, RenderKey, Render, TypeSpanSpec, Valid;
    MemberSplit(p, i, ms, RenderMoreMembers(ms.rest));
    if ms.key == TYPE_KEY {
      TypeValueIsRead(p, i, ms);
    } else if ms.rest.NoMembers? {
      OtherMemberIsSkipped(p, i, ms, CLOSE_BRACE);
    } else {
      AtSplit(p, i + |RenderKey(ms)| + |Render(ms.value)| + |ms.after|, [COMMA], RenderMembers(ms.rest));
      OtherMemberIsSkipped(p, i, ms, COMMA);
    }
  }

  // Where an object's padding and members stand.
  lemma ObjectSplit(p: seq<byte>, i: nat, v: Value)
    requires v.Object? && At(p, i, Render(v))
    ensures At(p, i, [OPEN_BRACE]) && At(p, i + 1, v.pad) && At(p, i + 1 + |v.pad|, RenderMembers(v.members))
    ensures At(p, i + 1 + |v.pad| + |RenderMembers(v.members)|, [CLOSE_BRACE])
  {
    hide At, RenderMembers;
    var ms := RenderMembers(v.members);
    AtSplit(p, i, [OPEN_BRACE] + v.pad + ms, [CLOSE_BRACE]);
    AtSplit(p, i, [OPEN_BRACE] + v.pad, ms);
    AtSplit(p, i, [OPEN_BRACE], v.pad);
  }

  // White space does not matter before a key.
  lemma PaddingIsSkipped(p: seq<byte>, i: nat, pad: seq<byte>)
    requires At(p, i, pad) && AllSpace(pad)
    ensures TypeSpanSpec(p, i + |pad|) == TypeSpanSpec(p, i)
  {
    hide At, AllSpace, SkipSpaceSpec, KeySpec, NextMemberSpec;
    SpaceIsSkipped(p, i, pad);
    KeyAfterPadding(p, i, i + |pad|);
  }

  lemma KeyAfterPadding(p: seq<byte>, i: nat, k: nat)
    requires SkipSpaceSpec(p, i) == SkipSpaceSpec(p, k)
    ensures KeySpec(p, i) == KeySpec(p, k)
  {
    hide SkipSpaceSpec, StringEndSpec;
  }

  // The white space, brace and padding before an object's members.
  lemma ObjectIsEntered(p: seq<byte>, space: seq<byte>, pad: seq<byte>)
    requires AllSpace(space) && AllSpace(pad)
    requires At(p, 0, space) && At(p, |space|, [OPEN_BRACE]) && At(p, |space| + 1, pad)
    ensures DetectSpanSpec(p) == TypeSpanSpec(p, |space| + 1 + |pad|)
  {
    hide TypeSpanSpec, AllSpace;
    SpaceIsSkipped(p, 0, space);
    PaddingIsSkipped(p, |space| + 1, pad);
  }

  /** An object's head, through its `type` member, is enough. */
  lemma HeadIsEnough(p: seq<byte>, space: seq<byte>, v: Value)
    requires AllSpace(space) && Valid(v) && StreamType(v).Some?
    requires At(p, 0, space) && At(p, |space|, [OPEN_BRACE]) && At(p, |space| + 1, v.pad)
    requires At(p, |space| + 1 + |v.pad|, MembersThroughType(v.members))
    ensures DetectSpec(p) == StreamType(v) && DetectSpanSpec(p).value.1 + 1 == |space| + TypeEnd(v)
  {
    hide At, AllSpace, TypeSpanSpec, DetectSpanSpec, MembersThroughType, ValidMembers;
    ObjectIsEntered(p, space, v.pad);
    TypeIsFound(p, |space| + 1 + |v.pad|, v.members);
  }

  /** Whatever follows a JSON text, the detector answers with its first `type` member. */
  lemma DetectOnText(p: seq<byte>, space: seq<byte>, v: Value)
    requires AllSpace(space) && Valid(v) && At(p, 0, space) && At(p, |space|, Render(v))
    ensures DetectSpec(p) == StreamType(v)
    ensures StreamType(v).Some? ==> DetectSpanSpec(p).value.1 + 1 == |space| + TypeEnd(v)
  {
    hide At, AllSpace, TypeSpanSpec, Render, RenderMembers;
    if v.Object? {
      ObjectSplit(p, |space|, v);
      if StreamType(v).Some? {
        HeadOfMembers(p, |space| + 1 + |v.pad|, v.members);
        HeadIsEnough(p, space, v);
      } else {
        ObjectIsEntered(p, space, v.pad);
        NoTypeIsFound(p, |space| + 1 + |v.pad|, v.members);
      }
    } else {
      ValueStart(p, |space|, v);
      SpaceIsSkipped(p, 0, space);
    }
  }

  lemma HeadOfMembers(p: seq<byte>, i: nat, ms: Members)
    requires FirstTypeMember(ms).Some? && At(p, i, RenderMembers(ms))
    ensures At(p, i, MembersThroughType(ms))
  {
    hide At, RenderMembers, MembersThroughType;
    MembersStartWithType(ms);
    var head, all := MembersThroughType(ms), RenderMembers(ms);
    assert all == head + all[|head|..];
    AtSplit(p, i, head, all[|head|..]);
  }

  // What stands in `p` before `cut` stands in the prefix.
  lemma {:induction false} AtPrefix(p: seq<byte>, cut: nat, i: nat, r: seq<byte>)
    requires cut <= |p| && At(p, i, r) && i + |r| <= cut
    ensures At(p[..cut], i, r)
    decreases |r|
  {
    if r != [] { AtPrefix(p, cut, i + 1, r[1..]); }
  }

  /**
    The detector on any prefix of a line that starts with a JSON text: it
    answers with the first `type` member exactly when the prefix reaches the
    end of that member's value, and never with anything else.
   */
  lemma DetectOnPrefix(p: seq<byte>, space: seq<byte>, v: Value, cut: nat)
    requires AllSpace(space) && Valid(v) && At(p, 0, space) && At(p, |space|, Render(v))
    requires cut <= |p|
    ensures DetectSpec(p[..cut])
         == if StreamType(v).Some? && |space| + TypeEnd(v) <= cut then StreamType(v) else None
  {
    var q, x := p[..cut], p[cut..];
    assert q + x == p;
    DetectOnText(p, space, v);
    if DetectSpec(q).Some? {
      DetectExtends(q, x);
    } else if StreamType(v).Some? && |space| + TypeEnd(v) <= cut {
      HeadInPrefix(p, space, v, cut);
    }
  }

  lemma HeadInPrefix(p: seq<byte>, space: seq<byte>, v: Value, cut: nat)
    requires AllSpace(space) && Valid(v) && At(p, 0, space) && At(p, |space|, Render(v))
    requires StreamType(v).Some? && |space| + TypeEnd(v) <= cut <= |p|
    ensures DetectSpec(p[..cut]).Some?
  {
    hide At, AllSpace, Render, RenderMembers, MembersThroughType, DetectSpec, Valid;
    ObjectSplit(p, |space|, v);
    HeadOfMembers(p, |space| + 1 + |v.pad|, v.members);
    AtPrefix(p, cut, 0, space);
    AtPrefix(p, cut, |space|, [OPEN_BRACE]);
    AtPrefix(p, cut, |space| + 1, v.pad);
    AtPrefix(p, cut, |space| + 1 + |v.pad|, MembersThroughType(v.members));
    HeadIsEnough(p[..cut], space, v);
  }

  /** The same on a line written out: white space, a JSON text, anything. */
  lemma DetectsFirstTypeMember(space: seq<byte>, v: Value, rest: seq<byte>, cut: nat)
    requires AllSpace(space) && Valid(v) && cut <= |space + Render(v) + rest|
    ensures DetectSpec((space + Render(v) + rest)[..cut])
         == if StreamType(v).Some? && |space| + TypeEnd(v) <= cut then StreamType(v) else None
  {
    hide At, AllSpace, Valid, Render, DetectSpec, TypeEnd, StreamType;
    var p := space + Render(v) + rest;
    SliceAt(p, 0, p);
    AtSplit(p, 0, space + Render(v), rest);
    AtSplit(p, 0, space, Render(v));
    DetectOnPrefix(p, space, v, cut);
  }
}
