/**
  The JSON grammar of RFC 8259 as concrete syntax: one value of `Value` per way
  of writing a JSON text, including its white space and its raw escapes.
  `Render` writes it out. The grammar knows nothing about the scanner.
 */
module JsonText {
  import opened Bytes

  const OPEN_BRACE: byte := 123
  const CLOSE_BRACE: byte := 125
  const OPEN_BRACKET: byte := 91
  const CLOSE_BRACKET: byte := 93
  const COLON: byte := 58
  const COMMA: byte := 44
  const MINUS: byte := 45
  const PLUS: byte := 43
  const DOT: byte := 46
  const LOWER_U: byte := 117

  // section 2 of RFC 8259
  predicate IsSpace(b: byte) {
    b == SPACE || b == TAB || b == LINE_FEED || b == CARRIAGE_RETURN
  }

  predicate IsDigit(b: byte) { 48 <= b <= 57 }

  predicate IsHex(b: byte) { IsDigit(b) || 65 <= b <= 70 || 97 <= b <= 102 }

  // " \ / b f n r t
  predicate IsShortEscape(b: byte) {
    b == 34 || b == 92 || b == 47 || b == 98 || b == 102 || b == 110 || b == 114 || b == 116
  }

  predicate AllSpace(s: seq<byte>) { forall k | 0 <= k < |s| :: IsSpace(s[k]) }

  predicate AllDigits(s: seq<byte>) { forall k | 0 <= k < |s| :: IsDigit(s[k]) }

  // section 7: what may stand between the quotation marks
  predicate IsRawString(s: seq<byte>) {
    if s == [] then true
    else if s[0] == BACKSLASH then
      |s| >= 2 &&
      if s[1] == LOWER_U
      then |s| >= 6 && IsHex(s[2]) && IsHex(s[3]) && IsHex(s[4]) && IsHex(s[5]) && IsRawString(s[6..])
      else IsShortEscape(s[1]) && IsRawString(s[2..])
    else s[0] >= 32 && s[0] != DOUBLE_QUOTE && IsRawString(s[1..])
  }

  datatype Exponent = NoExponent | Exponent(mark: byte, sign: seq<byte>, digits: seq<byte>)

  datatype Value =
    | True
    | False
    | Null
    | Number(minus: bool, whole: seq<byte>, fraction: seq<byte>, exponent: Exponent)
    | String(raw: seq<byte>)
    | Array(pad: seq<byte>, elements: Elements)
    | Object(pad: seq<byte>, members: Members)

  datatype Elements =
    | NoElements
    | Element(before: seq<byte>, value: Value, after: seq<byte>, rest: Elements)

  datatype Members =
    | NoMembers
    | Member(before: seq<byte>, key: seq<byte>, beforeColon: seq<byte>, afterColon: seq<byte>,
             value: Value, after: seq<byte>, rest: Members)

  // section 6
  predicate ValidExponent(e: Exponent) {
    e.Exponent? ==>
      (e.mark == 101 || e.mark == 69) && (e.sign == [] || e.sign == [MINUS] || e.sign == [PLUS]) &&
      |e.digits| > 0 && AllDigits(e.digits)
  }

  predicate Valid(v: Value) {
    match v
    case Number(_, whole, fraction, exponent) =>
      |whole| > 0 && AllDigits(whole) && (whole[0] == 48 ==> |whole| == 1) &&
      AllDigits(fraction) && ValidExponent(exponent)
    case String(raw) => IsRawString(raw)
    case Array(pad, elements) => AllSpace(pad) && ValidElements(elements)
    case Object(pad, members) => AllSpace(pad) && ValidMembers(members)
    case _ => true
  }

  predicate ValidElements(es: Elements) {
    es.Element? ==>
      AllSpace(es.before) && Valid(es.value) && AllSpace(es.after) && ValidElements(es.rest)
  }

  predicate ValidMembers(ms: Members) {
    ms.Member? ==>
      AllSpace(ms.before) && IsRawString(ms.key) && AllSpace(ms.beforeColon) && AllSpace(ms.afterColon) &&
      Valid(ms.value) && AllSpace(ms.after) && ValidMembers(ms.rest)
  }

  function Quoted(raw: seq<byte>): seq<byte> { [DOUBLE_QUOTE] + raw + [DOUBLE_QUOTE] }

  function RenderExponent(e: Exponent): seq<byte> {
    if e.NoExponent? then [] else [e.mark] + e.sign + e.digits
  }

  function RenderAtom(v: Value): seq<byte>
    requires !v.String? && !v.Array? && !v.Object?
  {
    match v
    case True => [116, 114, 117, 101]
    case False => [102, 97, 108, 115, 101]
    case Null => [110, 117, 108, 108]
    case Number(minus, whole, fraction, exponent) =>
      (if minus then [MINUS] else []) + whole +
      (if fraction == [] then [] else [DOT] + fraction) + RenderExponent(exponent)
  }

  function Render(v: Value): seq<byte> {
    match v
    case String(raw) => Quoted(raw)
    case Array(pad, elements) => [OPEN_BRACKET] + pad + RenderElements(elements) + [CLOSE_BRACKET]
    case Object(pad, members) => [OPEN_BRACE] + pad + RenderMembers(members) + [CLOSE_BRACE]
    case _ => RenderAtom(v)
  }

  function RenderElements(es: Elements): seq<byte>
    decreases es, 0
  {
    if es.NoElements? then []
    else es.before + Render(es.value) + es.after + RenderMoreElements(es.rest)
  }

  function RenderMoreElements(es: Elements): seq<byte>
    decreases es, 1
  {
    if es.NoElements? then [] else [COMMA] + RenderElements(es)
  }

  // A member up to its value: white space, key, colon, white space.
  function RenderKey(ms: Members): seq<byte>
    requires ms.Member?
  {
    ms.before + Quoted(ms.key) + ms.beforeColon + [COLON] + ms.afterColon
  }

  function RenderMembers(ms: Members): seq<byte>
    decreases ms, 0
  {
    if ms.NoMembers? then []
    else RenderKey(ms) + Render(ms.value) + ms.after + RenderMoreMembers(ms.rest)
  }

  function RenderMoreMembers(ms: Members): seq<byte>
    decreases ms, 1
  {
    if ms.NoMembers? then [] else [COMMA] + RenderMembers(ms)
  }

  // The key `type`, unescaped.
  const TYPE_KEY: seq<byte> := [116, 121, 112, 101]

  /** The value of the first top-level member whose raw key is `type`. */
  function FirstTypeMember(ms: Members): Option<Value> {
    if ms.NoMembers? then None
    else if ms.key == TYPE_KEY then Some(ms.value)
    else FirstTypeMember(ms.rest)
  }

  /** The raw text of that value when the JSON text is an object and the value is a string. */
  function StreamType(v: Value): Option<seq<byte>> {
    if !v.Object? then None
    else match FirstTypeMember(v.members)
      case Some(String(raw)) => Some(raw)
      case _ => None
  }

  /** What stands before and in the first `type` member, to the end of its value. */
  function MembersThroughType(ms: Members): seq<byte>
    requires FirstTypeMember(ms).Some?
  {
    if ms.key == TYPE_KEY then RenderKey(ms) + Render(ms.value)
    else RenderKey(ms) + Render(ms.value) + ms.after + [COMMA] + MembersThroughType(ms.rest)
  }

  /** The offset just past the `type` member's value in `Render(v)`. */
  function TypeEnd(v: Value): nat
    requires StreamType(v).Some?
  {
    1 + |v.pad| + |MembersThroughType(v.members)|
  }

  lemma {:induction false} MembersStartWithType(ms: Members)
    requires FirstTypeMember(ms).Some?
    ensures MembersThroughType(ms) <= RenderMembers(ms)
  {
    var head := RenderKey(ms) + Render(ms.value);
    if ms.key == TYPE_KEY {
      assert RenderMembers(ms) == head + (ms.after + RenderMoreMembers(ms.rest));
    } else {
      MembersStartWithType(ms.rest);
      var tail := RenderMembers(ms.rest)[|MembersThroughType(ms.rest)|..];
      assert RenderMembers(ms) == MembersThroughType(ms) + tail;
    }
  }
}
