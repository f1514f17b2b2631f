/** Bytes, as the Go code indexes them, and the optional results of its scanners. */
module Bytes {

  newtype byte = x: int | 0 <= x < 256

  datatype Option<+T> = None | Some(value: T)

  const TAB: byte := 9
  const LINE_FEED: byte := 10
  const CARRIAGE_RETURN: byte := 13
  const SPACE: byte := 32
  const DOUBLE_QUOTE: byte := 34
  const SINGLE_QUOTE: byte := 39
  const BACKSLASH: byte := 92

  /** The bytes of a text of ASCII characters. */
  function Ascii(s: string): (b: seq<byte>)
    ensures |b| == |s|
  {
    seq(|s|, i requires 0 <= i < |s| => (s[i] as int % 256) as byte)
  }

  /** `r` stands in `p` at index `i`. */
  ghost predicate At(p: seq<byte>, i: nat, r: seq<byte>)
    ensures At(p, i, r) && r != [] ==> i + |r| <= |p|
    decreases |r|
  {
    r == [] || (i < |p| && p[i] == r[0] && At(p, i + 1, r[1..]))
  }

  lemma {:induction false} AtSplit(p: seq<byte>, i: nat, a: seq<byte>, b: seq<byte>)
    requires At(p, i, a + b)
    ensures At(p, i, a) && At(p, i + |a|, b)
    decreases |a|
  {
    if a == [] {
      assert a + b == b;
    } else {
      assert (a + b)[1..] == a[1..] + b;
      AtSplit(p, i + 1, a[1..], b);
    }
  }

  lemma {:induction false} AtJoin(p: seq<byte>, i: nat, a: seq<byte>, b: seq<byte>)
    requires At(p, i, a) && At(p, i + |a|, b)
    ensures At(p, i, a + b)
    decreases |a|
  {
    if a == [] {
      assert a + b == b;
    } else {
      assert (a + b)[1..] == a[1..] + b;
      AtJoin(p, i + 1, a[1..], b);
    }
  }

  lemma {:induction false} AtSlice(p: seq<byte>, i: nat, r: seq<byte>)
    requires At(p, i, r) && i + |r| <= |p|
    ensures p[i..i + |r|] == r
    decreases |r|
  {
    if r != [] {
      AtSlice(p, i + 1, r[1..]);
      assert p[i..i + |r|] == [p[i]] + p[i + 1..i + 1 + |r[1..]|];
    }
  }

  lemma {:induction false} SliceAt(p: seq<byte>, i: nat, r: seq<byte>)
    requires i + |r| <= |p| && p[i..i + |r|] == r
    ensures At(p, i, r)
    decreases |r|
  {
    if r != [] {
      assert p[i] == p[i..i + |r|][0];
      assert p[i + 1..i + 1 + |r[1..]|] == r[1..];
      SliceAt(p, i + 1, r[1..]);
    }
  }
}
