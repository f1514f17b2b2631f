/** Text as the strings package of the Go library splits, joins and trims it. */
module Text {
  import opened Bytes

  // strings.Split(s, sep)
  function Split(s: string, sep: char): (ls: seq<string>)
    ensures |ls| > 0
  {
    if s == "" then [""]
    else
      var rest := Split(s[1..], sep);
      if s[0] == sep then [""] + rest else [[s[0]] + rest[0]] + rest[1..]
  }

  // strings.Join(ls, sep)
  function Join(ls: seq<string>, sep: char): string {
    if ls == [] then "" else if |ls| == 1 then ls[0] else ls[0] + [sep] + Join(ls[1..], sep)
  }

  predicate Free(l: string, sep: char) { forall i | 0 <= i < |l| :: l[i] != sep }

  predicate AllFree(ls: seq<string>, sep: char) { forall l | l in ls :: Free(l, sep) }

  lemma {:induction false} SplitIsFree(s: string, sep: char)
    ensures AllFree(Split(s, sep), sep)
    decreases |s|
  {
    if s != "" {
      var rest := Split(s[1..], sep);
      SplitIsFree(s[1..], sep);
      assert Free(rest[0], sep);
      assert s[0] != sep ==> Free([s[0]] + rest[0], sep);
    }
  }

  lemma {:induction false} SplitEnds(s: string, sep: char)
    requires s != "" && s[|s| - 1] != sep
    ensures Split(s, sep)[|Split(s, sep)| - 1] != ""
    decreases |s|
  {
    if |s| > 1 {
      assert s[1..][|s[1..]| - 1] == s[|s| - 1];
      SplitEnds(s[1..], sep);
    }
  }

  /** Splitting loses nothing. */
  lemma {:induction false} SplitIsJoin(s: string, sep: char)
    ensures Join(Split(s, sep), sep) == s
    decreases |s|
  {
    if s != "" {
      var rest := Split(s[1..], sep);
      SplitIsJoin(s[1..], sep);
      assert s == [s[0]] + s[1..];
      if s[0] == sep {
        assert ([""] + rest)[1..] == rest;
        assert "" + [sep] + s[1..] == [s[0]] + s[1..];
      } else {
        JoinWithHead(s[0], rest, sep);
      }
    }
  }

  lemma JoinWithHead(c: char, ls: seq<string>, sep: char)
    requires ls != []
    ensures Join([[c] + ls[0]] + ls[1..], sep) == [c] + Join(ls, sep)
  {
    assert ([[c] + ls[0]] + ls[1..])[1..] == ls[1..];
    if |ls| > 1 {
      assert [c] + (ls[0] + [sep] + Join(ls[1..], sep)) == ([c] + ls[0]) + [sep] + Join(ls[1..], sep);
    }
  }

  lemma {:induction false} SplitOfFree(l: string, sep: char)
    requires Free(l, sep)
    ensures Split(l, sep) == [l]
    decreases |l|
  {
    if l != "" {
      SplitOfFree(l[1..], sep);
      assert [l[0]] + l[1..] == l;
    }
  }

  /** Split is a homomorphism: a separator between two texts divides their parts. */
  lemma {:induction false} SplitJoins(s: string, t: string, sep: char)
    ensures Split(s + [sep] + t, sep) == Split(s, sep) + Split(t, sep)
    decreases |s|
  {
    if s == "" {
      assert s + [sep] + t == [sep] + t && ([sep] + t)[1..] == t;
    } else {
      assert (s + [sep] + t)[1..] == s[1..] + [sep] + t;
      SplitJoins(s[1..], t, sep);
      var a := Split(s[1..], sep);
      assert (a + Split(t, sep))[1..] == a[1..] + Split(t, sep);
      if s[0] == sep {
        assert [""] + (a + Split(t, sep)) == ([""] + a) + Split(t, sep);
      } else {
        assert [[s[0]] + a[0]] + (a[1..] + Split(t, sep)) == ([[s[0]] + a[0]] + a[1..]) + Split(t, sep);
      }
    }
  }

  /** Lines without the separator are read back as they were. */
  lemma {:induction false} JoinIsSplit(ls: seq<string>, sep: char)
    requires AllFree(ls, sep) && ls != []
    ensures Split(Join(ls, sep), sep) == ls
    decreases |ls|
  {
    SplitOfFree(ls[0], sep);
    if |ls| > 1 {
      SplitJoins(ls[0], Join(ls[1..], sep), sep);
      JoinIsSplit(ls[1..], sep);
      assert ls == [ls[0]] + ls[1..];
    } else {
      assert ls == [ls[0]];
    }
  }

  // ----- white space

  // unicode.IsSpace
  predicate IsSpace(c: char) {
    || '\t' <= c <= '\r' || c == ' ' || c == '\U{85}' || c == '\U{A0}' || c == '\U{1680}' || '\U{2000}' <= c <= '\U{200A}'
    || c == '\U{2028}' || c == '\U{2029}' || c == '\U{202F}' || c == '\U{205F}' || c == '\U{3000}'
  }

  function TrimLeft(s: string): string { if s != "" && IsSpace(s[0]) then TrimLeft(s[1..]) else s }

  function TrimEnd(s: string): string {
    if s != "" && IsSpace(s[|s| - 1]) then TrimEnd(s[..|s| - 1]) else s
  }

  // strings.TrimSpace
  function TrimSpace(s: string): string { TrimEnd(TrimLeft(s)) }

  // strings.TrimSpace(l) == ""
  predicate Blank(l: string) { forall c | c in l :: IsSpace(c) }

  lemma {:induction false} BlankIsTrimmedAway(l: string)
    ensures Blank(l) <==> TrimSpace(l) == ""
    decreases |l|
  {
    if l != "" && IsSpace(l[0]) {
      BlankIsTrimmedAway(l[1..]);
      assert l == [l[0]] + l[1..];
    } else if l != "" {
      EndKeepsFirst(l);
      assert l[0] in l;
    }
  }

  lemma {:induction false} EndKeepsFirst(l: string)
    requires l != "" && !IsSpace(l[0])
    ensures TrimEnd(l) != "" && TrimEnd(l)[0] == l[0]
    decreases |l|
  {
    if IsSpace(l[|l| - 1]) {
      EndKeepsFirst(l[..|l| - 1]);
    }
  }

  lemma {:induction false} EndTrimsOnlyTheEnd(a: string, b: string)
    requires a != "" && !IsSpace(a[|a| - 1])
    ensures TrimEnd(a + b) == a + TrimEnd(b)
    decreases |b|
  {
    if b == "" {
      assert a + b == a;
    } else {
      assert (a + b)[..|a + b| - 1] == a + b[..|b| - 1];
      if IsSpace(b[|b| - 1]) {
        EndTrimsOnlyTheEnd(a, b[..|b| - 1]);
      }
    }
  }
}
