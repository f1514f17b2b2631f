/**
  YAML node graphs as cmd/itervox/init_migrate_yaml.go edits them, and what a
  node means: its tree, with every alias expanded, and the entries of a mapping
  under the merge-key type of YAML 1.1.
 */
module YamlTrees {
  import opened Bytes

  datatype Kind = Document | Sequence | Mapping | Scalar | Alias

  class Node {
    var kind: Kind
    var tag: string
    var value: string
    var anchor: string
    var style: nat
    var head: string
    var line: string
    var foot: string
    var alias: Node?
    var content: seq<Node>

    constructor (kind: Kind, tag: string, value: string)
      ensures this.kind == kind && this.tag == tag && this.value == value
      ensures anchor == "" && style == 0 && head == "" && line == "" && foot == "" && alias == null && content == []
    {
      this.kind, this.tag, this.value, anchor, style := kind, tag, value, "", 0;
      head, line, foot, alias, content := "", "", "", null, [];
    }

    // A plain mapping.
    constructor OfPairs(style: nat, head: string, line: string, foot: string, content: seq<Node>)
      ensures kind == Mapping && tag == "!!map" && value == "" && anchor == "" && alias == null
      ensures this.style == style && this.head == head && this.line == line && this.foot == foot
      ensures this.content == content
    {
      kind, tag, value, anchor, this.style := Mapping, "!!map", "", "", style;
      this.head, this.line, this.foot, alias, this.content := head, line, foot, null, content;
    }

    // A shallow copy of n without its anchor, over the given children.
    constructor Over(n: Node, content: seq<Node>)
      ensures kind == n.kind && tag == n.tag && value == n.value && anchor == "" && style == n.style
      ensures head == n.head && line == n.line && foot == n.foot && alias == n.alias && this.content == content
    {
      kind, tag, value, anchor, style := n.kind, n.tag, n.value, "", n.style;
      head, line, foot, alias, this.content := n.head, n.line, n.foot, n.alias, content;
    }
  }

  // ----- acyclic graphs

  // A graph of nodes as the parser builds it, with a rank that falls along every
  // edge: it has no cycle.
  type Rank = map<Node, nat>

  ghost predicate NodeOk(n: Node, rank: Rank)
    requires n in rank
    reads n
  {
    && (forall c | c in n.content :: c in rank && rank[c] < rank[n])
    && (n.alias != null ==> n.alias in rank && rank[n.alias] < rank[n])
    && (n.kind.Alias? ==> n.content == [])
    && (n.kind.Mapping? ==> |n.content| % 2 == 0)
  }

  ghost predicate Graph(rank: Rank)
    reads rank.Keys
  {
    forall n | n in rank :: NodeOk(n, rank)
  }

  /**
    What a node holds: every field but its anchor, its children, and for an
    alias both the node it points at and what that node holds.
   */
  datatype Tree = Tree(kind: Kind, tag: string, value: string, style: nat, head: string, line: string, foot: string,
                       alias: Node?, target: Option<Tree>, content: seq<Tree>)

  ghost function TreeOf(n: Node, rank: Rank): Tree
    requires Graph(rank) && n in rank
    reads rank.Keys
    decreases rank[n]
  {
    assert NodeOk(n, rank);
    Tree(n.kind, n.tag, n.value, n.style, n.head, n.line, n.foot, n.alias,
         if n.alias == null then None else Some(TreeOf(n.alias, rank)),
         seq(|n.content|, i requires 0 <= i < |n.content| && Graph(rank) && n in rank && NodeOk(n, rank) reads rank.Keys =>
           assert n.content[i] in n.content; TreeOf(n.content[i], rank)))
  }

  /** A tree does not depend on the ranks that show its graph has no cycle. */
  lemma {:induction false} RankDoesNotMatter(n: Node, r1: Rank, r2: Rank)
    requires Graph(r1) && Graph(r2) && n in r1 && n in r2
    ensures TreeOf(n, r1) == TreeOf(n, r2)
    decreases r1[n]
  {
    assert NodeOk(n, r1) && NodeOk(n, r2);
    if n.alias != null {
      RankDoesNotMatter(n.alias, r1, r2);
    }
    forall i | 0 <= i < |n.content|
      ensures TreeOf(n.content[i], r1) == TreeOf(n.content[i], r2)
    {
      assert n.content[i] in n.content;
      RankDoesNotMatter(n.content[i], r1, r2);
    }
    assert TreeOf(n, r1).content == TreeOf(n, r2).content;
  }

  // ----- the entries of a mapping

  predicate IsMergeKey(k: Tree) {
    k.kind.Scalar? && k.value == "<<" && (k.tag == "!!merge" || k.tag == "")
  }

  function Followed(t: Tree): Option<Tree>
    ensures Followed(t).Some? ==> Followed(t).value == t || Followed(t).value < t
  {
    if !t.kind.Alias? then Some(t) else if t.target.None? then None else Followed(t.target.value)
  }

  /** An alias stands for its target, whatever that is, and anything else for itself. */
  lemma {:induction false} FollowedIs(t: Tree)
    ensures Followed(t).Some? ==> !Followed(t).value.kind.Alias?
    ensures !t.kind.Alias? ==> Followed(t) == Some(t)
    ensures t.kind.Alias? ==> Followed(t) == if t.target == None then None else Followed(t.target.value)
    decreases t
  {
    if t.kind.Alias? && t.target.Some? {
      FollowedIs(t.target.value);
    }
  }

  // The value of the first pair with the key; a mapping's content is key, value, key, value.
  function Find(c: seq<Tree>, key: string): Option<Tree> {
    if |c| < 2 then None else if c[0].value == key then Some(c[1]) else Find(c[2..], key)
  }

  function FindOwn(c: seq<Tree>, key: string): Option<Tree> {
    if |c| < 2 then None
    else if !IsMergeKey(c[0]) && c[0].value == key then Some(c[1])
    else FindOwn(c[2..], key)
  }

  /**
    The merge-key type of YAML 1.1: a mapping's own keys win, then the mappings
    its merge keys name, one or a sequence of them, in order; an alias stands
    for its target everywhere.
   */
  function Lookup(t: Tree, key: string): Option<Tree>
    decreases t
  {
    match Followed(t)
    case None => None
    case Some(src) =>
      if !src.kind.Mapping? then None
      else
        var own := FindOwn(src.content, key);
        if own.Some? then own else LookupMerges(src.content, key)
  }

  function LookupMerges(c: seq<Tree>, key: string): Option<Tree>
    decreases c
  {
    if |c| < 2 then None
    else if IsMergeKey(c[0]) then
      var found :=
        match Followed(c[1])
        case None => None
        case Some(v) => if v.kind.Sequence? then LookupIn(v.content, key) else Lookup(c[1], key);
      if found.Some? then found else LookupMerges(c[2..], key)
    else LookupMerges(c[2..], key)
  }

  function LookupIn(ts: seq<Tree>, key: string): Option<Tree>
    decreases ts
  {
    if ts == [] then None
    else
      var found := Lookup(ts[0], key);
      if found.Some? then found else LookupIn(ts[1..], key)
  }

  // ----- which entries a key could come from

  // An alias of a sequence.
  predicate IsAliasOfSequence(t: Tree) {
    t.kind.Alias? && Followed(t).Some? && Followed(t).value.kind.Sequence?
  }

  // A value for the key; skipped when it is reached through a merge value that is
  // an alias of a sequence, where the program does not look.
  datatype Source = Source(value: Tree, skipped: bool)

  /** Every place the key has a value, the one that counts first. */
  function Sources(t: Tree, key: string): seq<Source>
    decreases t
  {
    match Followed(t)
    case None => []
    case Some(src) =>
      if !src.kind.Mapping? then []
      else OwnSource(src.content, key) + MergeSources(src.content, key)
  }

  function OwnSource(c: seq<Tree>, key: string): seq<Source> {
    match FindOwn(c, key) case None => [] case Some(v) => [Source(v, false)]
  }

  function MergeSources(c: seq<Tree>, key: string): seq<Source>
    decreases c
  {
    if |c| < 2 then []
    else if !IsMergeKey(c[0]) then MergeSources(c[2..], key)
    else
      (match Followed(c[1])
       case None => []
       case Some(v) =>
         if !v.kind.Sequence? then Sources(c[1], key)
         else if c[1].kind.Alias? then AllSkipped(SourcesIn(v.content, key))
         else SourcesIn(v.content, key)) + MergeSources(c[2..], key)
  }

  function SourcesIn(ts: seq<Tree>, key: string): seq<Source>
    decreases ts
  {
    if ts == [] then [] else Sources(ts[0], key) + SourcesIn(ts[1..], key)
  }

  function AllSkipped(ss: seq<Source>): (r: seq<Source>)
    ensures |r| == |ss| && forall i | 0 <= i < |ss| :: r[i] == Source(ss[i].value, true)
  {
    if ss == [] then [] else [Source(ss[0].value, true)] + AllSkipped(ss[1..])
  }

  function First(ss: seq<Source>): Option<Tree> { if ss == [] then None else Some(ss[0].value) }

  // The first one the program does look at.
  function FirstSeen(ss: seq<Source>): Option<Tree> {
    if ss == [] then None else if ss[0].skipped then FirstSeen(ss[1..]) else Some(ss[0].value)
  }

  lemma {:induction false} FirstSeenJoins(a: seq<Source>, b: seq<Source>)
    ensures FirstSeen(a + b) == if FirstSeen(a).Some? then FirstSeen(a) else FirstSeen(b)
    decreases |a|
  {
    if a == [] {
      assert a + b == b;
    } else {
      assert (a + b)[1..] == a[1..] + b;
      FirstSeenJoins(a[1..], b);
    }
  }

  lemma {:induction false} NothingSeen(ss: seq<Source>)
    requires forall i | 0 <= i < |ss| :: ss[i].skipped
    ensures FirstSeen(ss) == None
    decreases |ss|
  {
    if ss != [] {
      NothingSeen(ss[1..]);
    }
  }

  /** The meaning of a key is its first source. */
  lemma {:induction false} LookupIsFirst(t: Tree, key: string)
    ensures Lookup(t, key) == First(Sources(t, key))
    decreases t
  {
    match Followed(t) {
      case None =>
      case Some(src) =>
        if src.kind.Mapping? {
          LookupMergesIsFirst(src.content, key);
        }
    }
  }

  lemma {:induction false} LookupMergesIsFirst(c: seq<Tree>, key: string)
    ensures LookupMerges(c, key) == First(MergeSources(c, key))
    decreases c
  {
    if |c| >= 2 {
      LookupMergesIsFirst(c[2..], key);
      if IsMergeKey(c[0]) && Followed(c[1]).Some? {
        var v := Followed(c[1]).value;
        if v.kind.Sequence? {
          LookupInIsFirst(v.content, key);
        } else {
          LookupIsFirst(c[1], key);
        }
      }
    }
  }

  lemma {:induction false} LookupInIsFirst(ts: seq<Tree>, key: string)
    ensures LookupIn(ts, key) == First(SourcesIn(ts, key))
    decreases ts
  {
    if ts != [] {
      LookupIsFirst(ts[0], key);
      LookupInIsFirst(ts[1..], key);
    }
  }

  // ----- the same entries as one plain list, built as the program builds it

  function OwnEntries(c: seq<Tree>): seq<Tree> {
    if |c| < 2 then [] else if IsMergeKey(c[0]) then OwnEntries(c[2..]) else c[..2] + OwnEntries(c[2..])
  }

  function MergeValues(c: seq<Tree>): seq<Tree> {
    if |c| < 2 then [] else if IsMergeKey(c[0]) then [c[1]] + MergeValues(c[2..]) else MergeValues(c[2..])
  }

  function KeySet(c: seq<Tree>): set<string> {
    if |c| < 2 then {} else {c[0].value} + KeySet(c[2..])
  }

  function AddNew(out: seq<Tree>, e: seq<Tree>): seq<Tree>
    decreases |e|
  {
    if |e| < 2 then out
    else AddNew(if e[0].value in KeySet(out) then out else out + e[..2], e[2..])
  }

  function Effective(t: Tree): Option<seq<Tree>>
    decreases t, 0
  {
    match Followed(t)
    case None => None
    case Some(src) =>
      if !src.kind.Mapping? then None else Some(Gather(src.content, OwnEntries(src.content)))
  }

  function Gather(c: seq<Tree>, out: seq<Tree>): seq<Tree>
    decreases c
  {
    if |c| < 2 then out
    else if !IsMergeKey(c[0]) then Gather(c[2..], out)
    else Gather(c[2..], if c[1].kind.Sequence? then AddAll(c[1].content, out) else AddOne(c[1], out))
  }

  function AddAll(ts: seq<Tree>, out: seq<Tree>): seq<Tree>
    decreases ts
  {
    if ts == [] then out else AddAll(ts[1..], AddOne(ts[0], out))
  }

  function AddOne(t: Tree, out: seq<Tree>): seq<Tree>
    decreases t, 1
  {
    match Effective(t) case None => out case Some(e) => AddNew(out, e)
  }

  // ----- lists of pairs

  // Whole pairs, none of them a merge.
  predicate Plain(c: seq<Tree>)
    ensures Plain(c) ==> |c| % 2 == 0
  {
    c == [] || (|c| >= 2 && !IsMergeKey(c[0]) && Plain(c[2..]))
  }

  /** A list is plain when its keys are no merge keys: no scalars "<<" with the merge tag or none. */
  lemma {:induction false} PlainIs(c: seq<Tree>)
    requires |c| % 2 == 0
    ensures Plain(c) <==> forall i | 0 <= i < |c| && i % 2 == 0 ::
      !(c[i].kind == Scalar && c[i].value == "<<" && (c[i].tag == "!!merge" || c[i].tag == ""))
    decreases |c|
  {
    if c != [] {
      PlainIs(c[2..]);
      assert forall i | 2 <= i < |c| :: c[i] == c[2..][i - 2];
    }
  }

  lemma {:induction false} PlainJoins(a: seq<Tree>, b: seq<Tree>)
    requires Plain(a) && Plain(b)
    ensures Plain(a + b)
    decreases |a|
  {
    if a == [] {
      assert a + b == b;
    } else {
      assert (a + b)[2..] == a[2..] + b;
      PlainJoins(a[2..], b);
    }
  }

  lemma {:induction false} FindJoins(a: seq<Tree>, b: seq<Tree>, key: string)
    requires |a| % 2 == 0
    ensures Find(a + b, key) == if Find(a, key).Some? then Find(a, key) else Find(b, key)
    decreases |a|
  {
    if a == [] {
      assert a + b == b;
    } else {
      assert (a + b)[2..] == a[2..] + b;
      FindJoins(a[2..], b, key);
    }
  }

  lemma {:induction false} KeySetJoins(a: seq<Tree>, b: seq<Tree>)
    requires |a| % 2 == 0
    ensures KeySet(a + b) == KeySet(a) + KeySet(b)
    decreases |a|
  {
    if a == [] {
      assert a + b == b;
    } else {
      assert (a + b)[2..] == a[2..] + b;
      KeySetJoins(a[2..], b);
    }
  }

  lemma {:induction false} KeySetIsFound(c: seq<Tree>, key: string)
    ensures key in KeySet(c) <==> Find(c, key).Some?
    decreases |c|
  {
    if |c| >= 2 {
      KeySetIsFound(c[2..], key);
    }
  }

  lemma {:induction false} OwnEntriesAreFound(c: seq<Tree>, key: string)
    ensures Find(OwnEntries(c), key) == FindOwn(c, key) && Plain(OwnEntries(c))
    decreases |c|
  {
    if |c| >= 2 {
      OwnEntriesAreFound(c[2..], key);
      if !IsMergeKey(c[0]) {
        var rest := OwnEntries(c[2..]);
        FindJoins(c[..2], rest, key);
        assert c[..2][2..] == [];
        PlainJoins(c[..2], rest);
      }
    }
  }

  /** The own entries are those of the plain parts, in order, without the merges between them. */
  lemma {:induction false} OwnEntriesAre(a: seq<Tree>, b: seq<Tree>)
    requires |a| % 2 == 0
    ensures OwnEntries(a + b) == OwnEntries(a) + OwnEntries(b)
    ensures Plain(a) ==> OwnEntries(a) == a
    ensures |a| == 2 && !Plain(a) ==> OwnEntries(a) == []
    decreases |a|
  {
    if a == [] {
      assert a + b == b;
    } else {
      assert (a + b)[2..] == a[2..] + b && a == a[..2] + a[2..] && (a + b)[..2] == a[..2];
      OwnEntriesAre(a[2..], b);
      if |a| == 2 {
        assert a[2..] == [] && Plain(a[2..]);
      }
    }
  }

  // What is added goes to the end.
  lemma {:induction false} AddNewExtends(out: seq<Tree>, e: seq<Tree>)
    ensures out <= AddNew(out, e)
    decreases |e|
  {
    if |e| >= 2 {
      AddNewExtends(if e[0].value in KeySet(out) then out else out + e[..2], e[2..]);
    }
  }

  lemma {:induction false} AddAllExtends(ts: seq<Tree>, out: seq<Tree>)
    ensures out <= AddAll(ts, out)
    decreases |ts|
  {
    if ts != [] {
      if Effective(ts[0]).Some? {
        AddNewExtends(out, Effective(ts[0]).value);
      }
      AddAllExtends(ts[1..], AddOne(ts[0], out));
    }
  }

  lemma {:induction false} GatherExtends(c: seq<Tree>, out: seq<Tree>)
    ensures out <= Gather(c, out)
    decreases |c|
  {
    if |c| >= 2 {
      if IsMergeKey(c[0]) && c[1].kind.Sequence? {
        AddAllExtends(c[1].content, out);
        GatherExtends(c[2..], AddAll(c[1].content, out));
      } else if IsMergeKey(c[0]) {
        if Effective(c[1]).Some? {
          AddNewExtends(out, Effective(c[1]).value);
        }
        GatherExtends(c[2..], AddOne(c[1], out));
      } else {
        GatherExtends(c[2..], out);
      }
    }
  }

  /** The effective entries of a mapping begin with its own, in their order. */
  lemma OwnEntriesComeFirst(t: Tree)
    requires Effective(t).Some?
    ensures OwnEntries(Followed(t).value.content) <= Effective(t).value
  {
    var c := Followed(t).value.content;
    GatherExtends(c, OwnEntries(c));
  }

  // Adding keeps what is there and takes only new keys.
  lemma {:induction false} AddNewIsFound(out: seq<Tree>, e: seq<Tree>, key: string)
    requires Plain(out) && Plain(e)
    ensures Plain(AddNew(out, e))
    ensures Find(AddNew(out, e), key) == if Find(out, key).Some? then Find(out, key) else Find(e, key)
    decreases |e|
  {
    if |e| >= 2 {
      KeySetIsFound(out, e[0].value);
      FindJoins(out, e[..2], key);
      assert e[..2][2..] == [];
      PlainJoins(out, e[..2]);
      var more := if e[0].value in KeySet(out) then out else out + e[..2];
      AddNewIsFound(more, e[2..], key);
    }
  }

  // ----- what the list holds for a key

  /**
    A node has effective entries exactly when it is a mapping or an alias of
    one; they hold no merge key, and the entry found for a key is the first of
    its sources that is not skipped.
   */
  lemma {:induction false} EffectiveIsFirstSeen(t: Tree, key: string)
    ensures Effective(t).Some? <==> Followed(t).Some? && Followed(t).value.kind.Mapping?
    ensures Effective(t).Some? ==> Plain(Effective(t).value) && Find(Effective(t).value, key) == FirstSeen(Sources(t, key))
    ensures Effective(t).None? ==> Sources(t, key) == []
    decreases t, 0
  {
    match Followed(t) {
      case None =>
      case Some(src) =>
        if src.kind.Mapping? {
          OwnEntriesAreFound(src.content, key);
          GatherIsFirstSeen(src.content, OwnEntries(src.content), key);
          FirstSeenJoins(OwnSource(src.content, key), MergeSources(src.content, key));
        }
    }
  }

  lemma {:induction false} GatherIsFirstSeen(c: seq<Tree>, out: seq<Tree>, key: string)
    requires Plain(out)
    ensures Plain(Gather(c, out))
    ensures Find(Gather(c, out), key) == if Find(out, key).Some? then Find(out, key) else FirstSeen(MergeSources(c, key))
    decreases c
  {
    if |c| >= 2 {
      if !IsMergeKey(c[0]) {
        GatherIsFirstSeen(c[2..], out, key);
      } else if c[1].kind.Sequence? {
        AddAllIsFirstSeen(c[1].content, out, key);
        GatherIsFirstSeen(c[2..], AddAll(c[1].content, out), key);
        FirstSeenJoins(SourcesIn(c[1].content, key), MergeSources(c[2..], key));
      } else {
        AddOneIsFirstSeen(c[1], out, key);
        GatherIsFirstSeen(c[2..], AddOne(c[1], out), key);
        if IsAliasOfSequence(c[1]) {
          var ss := AllSkipped(SourcesIn(Followed(c[1]).value.content, key));
          NothingSeen(ss);
          FirstSeenJoins(ss, MergeSources(c[2..], key));
        } else {
          FirstSeenJoins(Sources(c[1], key), MergeSources(c[2..], key));
        }
      }
    }
  }

  lemma {:induction false} AddAllIsFirstSeen(ts: seq<Tree>, out: seq<Tree>, key: string)
    requires Plain(out)
    ensures Plain(AddAll(ts, out))
    ensures Find(AddAll(ts, out), key) == if Find(out, key).Some? then Find(out, key) else FirstSeen(SourcesIn(ts, key))
    decreases ts
  {
    if ts != [] {
      AddOneIsFirstSeen(ts[0], out, key);
      AddAllIsFirstSeen(ts[1..], AddOne(ts[0], out), key);
      FirstSeenJoins(Sources(ts[0], key), SourcesIn(ts[1..], key));
    }
  }

  lemma {:induction false} AddOneIsFirstSeen(t: Tree, out: seq<Tree>, key: string)
    requires Plain(out)
    ensures Plain(AddOne(t, out))
    ensures Find(AddOne(t, out), key) == if Find(out, key).Some? then Find(out, key) else FirstSeen(Sources(t, key))
    decreases t, 1
  {
    EffectiveIsFirstSeen(t, key);
    if Effective(t).Some? {
      AddNewIsFound(out, Effective(t).value, key);
    }
  }

  // ----- the list against the merge-key type

  // No source is skipped before the one that counts, unless the first one seen
  // holds the same.
  predicate NothingMissed(ss: seq<Source>) {
    ss == [] || !ss[0].skipped || FirstSeen(ss[1..]) == Some(ss[0].value)
  }

  /**
    For every key the effective entries hold what the merge-key type gives
    exactly when the first source of the key is not behind an alias of a
    sequence (or the first that is not holds the same).
   */
  lemma EffectiveIsLookup(t: Tree, key: string)
    requires Effective(t).Some?
    ensures Find(Effective(t).value, key) == Lookup(t, key) <==> NothingMissed(Sources(t, key))
  {
    EffectiveIsFirstSeen(t, key);
    LookupIsFirst(t, key);
  }

  /** No merge value of the mapping, nor of those it merges, is an alias of a sequence. */
  predicate MergesDirectly(t: Tree)
    decreases t
  {
    match Followed(t)
    case None => true
    case Some(src) => src.kind.Mapping? ==> AllMergeDirectly(src.content)
  }

  predicate AllMergeDirectly(c: seq<Tree>)
    decreases c
  {
    |c| < 2 ||
    ((IsMergeKey(c[0]) ==>
        !IsAliasOfSequence(c[1]) && if c[1].kind.Sequence? then EachMergesDirectly(c[1].content) else MergesDirectly(c[1]))
     && AllMergeDirectly(c[2..]))
  }

  predicate EachMergesDirectly(ts: seq<Tree>)
    decreases ts
  {
    ts == [] || (MergesDirectly(ts[0]) && EachMergesDirectly(ts[1..]))
  }

  predicate NoneSkipped(ss: seq<Source>) { forall i | 0 <= i < |ss| :: !ss[i].skipped }

  lemma {:induction false} DirectSourcesAreSeen(t: Tree, key: string)
    requires MergesDirectly(t)
    ensures NoneSkipped(Sources(t, key))
    decreases t
  {
    match Followed(t) {
      case None =>
      case Some(src) =>
        if src.kind.Mapping? {
          DirectMergesAreSeen(src.content, key);
        }
    }
  }

  lemma {:induction false} DirectMergesAreSeen(c: seq<Tree>, key: string)
    requires AllMergeDirectly(c)
    ensures NoneSkipped(MergeSources(c, key))
    decreases c
  {
    if |c| >= 2 {
      DirectMergesAreSeen(c[2..], key);
      if IsMergeKey(c[0]) {
        if c[1].kind.Sequence? {
          DirectSequenceIsSeen(c[1].content, key);
        } else {
          DirectSourcesAreSeen(c[1], key);
        }
      }
    }
  }

  lemma {:induction false} DirectSequenceIsSeen(ts: seq<Tree>, key: string)
    requires EachMergesDirectly(ts)
    ensures NoneSkipped(SourcesIn(ts, key))
    decreases ts
  {
    if ts != [] {
      DirectSourcesAreSeen(ts[0], key);
      DirectSequenceIsSeen(ts[1..], key);
    }
  }

  /** So where no merge value is an alias of a sequence, every key has its meaning. */
  lemma DirectMergesKeepTheMeaning(t: Tree, key: string)
    requires Effective(t).Some? && MergesDirectly(t)
    ensures Find(Effective(t).value, key) == Lookup(t, key)
  {
    DirectSourcesAreSeen(t, key);
    EffectiveIsLookup(t, key);
  }

  // A scalar, a mapping of pairs, a sequence.
  function ScalarOf(tag: string, value: string): Tree { Tree(Scalar, tag, value, 0, "", "", "", null, None, []) }

  function MapOf(c: seq<Tree>): Tree { Tree(Mapping, "!!map", "", 0, "", "", "", null, None, c) }

  function SeqOf(ts: seq<Tree>): Tree { Tree(Sequence, "!!seq", "", 0, "", "", "", null, None, ts) }

  /** Where one is, entries are lost: the alias of a sequence of one mapping merges nothing. */
  lemma AliasedSequenceIsDropped(n: Node)
    ensures var base := MapOf([ScalarOf("!!str", "k"), ScalarOf("!!str", "v")]);
      var alias := Tree(Alias, "", "", 0, "", "", "", n, Some(SeqOf([base])), []);
      var t := MapOf([ScalarOf("!!merge", "<<"), alias]);
      Effective(t) == Some([]) && Lookup(t, "k") == Some(ScalarOf("!!str", "v"))
  {
    var c := [ScalarOf("!!str", "k"), ScalarOf("!!str", "v")];
    var base := MapOf(c);
    var alias := Tree(Alias, "", "", 0, "", "", "", n, Some(SeqOf([base])), []);
    var m := [ScalarOf("!!merge", "<<"), alias];
    assert m[2..] == [] && c[2..] == [];
    assert FindOwn(c, "k") == Some(ScalarOf("!!str", "v"));
    assert Lookup(base, "k") == Some(ScalarOf("!!str", "v"));
    assert [base][1..] == [];
    assert LookupIn([base], "k") == Some(ScalarOf("!!str", "v"));
    assert Followed(alias) == Some(SeqOf([base]));
    assert FindOwn(m, "k") == FindOwn([], "k") == None && OwnEntries(m) == OwnEntries([]) == [];
    assert AddOne(alias, []) == [];
    assert Gather(m, []) == Gather([], []);
  }

  // ----- no key twice

  predicate Distinct(c: seq<Tree>) {
    |c| < 2 || (c[0].value !in KeySet(c[2..]) && Distinct(c[2..]))
  }

  lemma {:induction false} DistinctGrows(out: seq<Tree>, pair: seq<Tree>)
    requires Distinct(out) && |out| % 2 == 0 && |pair| == 2 && pair[0].value !in KeySet(out)
    ensures Distinct(out + pair)
    decreases |out|
  {
    assert pair[2..] == [];
    if out == [] {
      assert out + pair == pair;
    } else {
      assert (out + pair)[2..] == out[2..] + pair;
      KeySetJoins(out[2..], pair);
      DistinctGrows(out[2..], pair);
    }
  }

  lemma {:induction false} AddNewStaysDistinct(out: seq<Tree>, e: seq<Tree>)
    requires Distinct(out) && |out| % 2 == 0
    ensures Distinct(AddNew(out, e)) && |AddNew(out, e)| % 2 == 0
    decreases |e|
  {
    if |e| >= 2 {
      if e[0].value !in KeySet(out) {
        DistinctGrows(out, e[..2]);
        AddNewStaysDistinct(out + e[..2], e[2..]);
      } else {
        AddNewStaysDistinct(out, e[2..]);
      }
    }
  }

  lemma {:induction false} AddAllStaysDistinct(ts: seq<Tree>, out: seq<Tree>)
    requires Distinct(out) && |out| % 2 == 0
    ensures Distinct(AddAll(ts, out)) && |AddAll(ts, out)| % 2 == 0
    decreases |ts|
  {
    if ts != [] {
      AddOneStaysDistinct(ts[0], out);
      AddAllStaysDistinct(ts[1..], AddOne(ts[0], out));
    }
  }

  lemma AddOneStaysDistinct(t: Tree, out: seq<Tree>)
    requires Distinct(out) && |out| % 2 == 0
    ensures Distinct(AddOne(t, out)) && |AddOne(t, out)| % 2 == 0
  {
    if Effective(t).Some? {
      AddNewStaysDistinct(out, Effective(t).value);
    }
  }

  lemma {:induction false} GatherStaysDistinct(c: seq<Tree>, out: seq<Tree>)
    requires Distinct(out) && |out| % 2 == 0
    ensures Distinct(Gather(c, out)) && |Gather(c, out)| % 2 == 0
    decreases |c|
  {
    if |c| >= 2 {
      if !IsMergeKey(c[0]) {
        GatherStaysDistinct(c[2..], out);
      } else if c[1].kind.Sequence? {
        AddAllStaysDistinct(c[1].content, out);
        GatherStaysDistinct(c[2..], AddAll(c[1].content, out));
      } else {
        AddOneStaysDistinct(c[1], out);
        GatherStaysDistinct(c[2..], AddOne(c[1], out));
      }
    }
  }

  /** Expanding merges never repeats a key: only a mapping that repeats one itself does. */
  lemma EffectiveKeysAreDistinct(t: Tree)
    requires Effective(t).Some? && Distinct(OwnEntries(Followed(t).value.content))
    ensures Distinct(Effective(t).value)
  {
    var c := Followed(t).value.content;
    EffectiveIsFirstSeen(t, "");
    OwnEntriesAreFound(c, "");
    GatherStaysDistinct(c, OwnEntries(c));
  }
}
