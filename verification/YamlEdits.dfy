/**
  The key edits of cmd/itervox/init_migrate_yaml.go: a mapping node is changed in
  place, and an alias or a mapping with merge keys is first replaced by the plain
  mapping it stands for.
 */
module YamlEdits {
  import opened Bytes
  import opened YamlTrees
  import opened YamlNodes

  // ----- positions of keys

  // The position of the first key with the value, from i on, or -1.
  function IndexFrom(c: seq<Node>, key: string, i: nat): (r: int)
    requires i <= |c|
    reads c`value
    ensures r == -1 || (i <= r && r + 1 < |c| && c[r].value == key)
    decreases |c| - i
  {
    if i + 1 >= |c| then -1 else if c[i].value == key then i else IndexFrom(c, key, i + 2)
  }

  function IndexOf(m: Node?, key: string): int
    reads m, if m == null then [] else m.content
  {
    if m == null || !m.kind.Mapping? then -1 else IndexFrom(m.content, key, 0)
  }

  // What the mapping holds under the key.
  function ValueOf(m: Node?, key: string): Node?
    reads m, if m == null then [] else m.content
  {
    var i := IndexOf(m, key);
    if i < 0 then null else m.content[i + 1]
  }

  // Two stretches with the same keys give the same position.
  lemma {:induction false} IndexSame(c: seq<Node>, d: seq<Node>, key: string, i: nat, j: nat)
    requires i <= |c| && j <= |d| && |c| - i == |d| - j
    requires forall p | i <= p < |c| && (p - i) % 2 == 0 :: c[p].value == d[p - i + j].value
    ensures IndexFrom(d, key, j) == if IndexFrom(c, key, i) < 0 then -1 else IndexFrom(c, key, i) - i + j
    decreases |c| - i
  {
    if i + 1 < |c| {
      assert c[i].value == d[j].value;
      IndexSame(c, d, key, i + 2, j + 2);
    }
  }

  // A pair at the end is found when nothing before it is.
  lemma {:induction false} IndexAppended(c: seq<Node>, k: Node, v: Node, key: string, i: nat)
    requires i <= |c| && (|c| - i) % 2 == 0
    ensures var was := IndexFrom(c, key, i);
      IndexFrom(c + [k, v], key, i) == if was >= 0 then was else if k.value == key then |c| else -1
    decreases |c| - i
  {
    if i < |c| {
      IndexAppended(c, k, v, key, i + 2);
    }
  }

  // Taking out the pair at d does not move the values of other keys.
  lemma {:induction false} IndexDropped(c: seq<Node>, e: seq<Node>, d: nat, key: string, i: nat)
    requires i <= d && d + 1 < |c| && (d - i) % 2 == 0 && c[d].value != key
    requires |e| == |c| - 2 && (forall p | 0 <= p < d :: e[p] == c[p]) && (forall p | d + 2 <= p < |c| :: c[p] == e[p - 2])
    ensures var a, b := IndexFrom(c, key, i), IndexFrom(e, key, i);
      (a < 0 <==> b < 0) && (a >= 0 ==> c[a + 1] == e[b + 1])
    decreases d - i
  {
    if i == d {
      IndexSame(c, e, key, d + 2, d);
    } else {
      assert e[i] == c[i] && e[i + 1] == c[i + 1];
      if c[i].value != key {
        IndexDropped(c, e, d, key, i + 2);
      }
    }
  }

  lemma DroppedKeeps(c: seq<Node>, i: nat, key: string, k: string)
    requires IndexFrom(c, key, 0) == i && k != key
    ensures i + 1 < |c|
    ensures var e := c[..i] + c[i + 2..];
      var a, b := IndexFrom(c, k, 0), IndexFrom(e, k, 0);
      (a < 0 <==> b < 0) && (a >= 0 ==> c[a + 1] == e[b + 1])
  {
    hide IndexFrom;
    IndexIsEven(c, key, 0);
    IndexDropped(c, c[..i] + c[i + 2..], i, k, 0);
  }

  // A new value for one key moves no key and changes no other value.
  lemma ReplacedKeeps(c: seq<Node>, i: nat, v: Node, key: string, k: string)
    requires IndexFrom(c, key, 0) == i
    ensures i + 1 < |c|
    ensures var r := IndexFrom(c, k, 0);
      IndexFrom(c[i + 1 := v], k, 0) == r && (k != key && r >= 0 ==> c[i + 1 := v][r + 1] == c[r + 1])
  {
    IndexIsEven(c, key, 0);
    IndexIsEven(c, k, 0);
    IndexSame(c, c[i + 1 := v], k, 0, 0);
  }

  // ----- reading

  // The position of a key: the first, counting keys only; none when i is -1.
  ghost predicate IsPosition(c: seq<Node>, key: string, i: int)
    reads c
  {
    && (i == -1 || (0 <= i < |c| - 1 && i % 2 == 0 && c[i].value == key))
    && forall j | 0 <= j < (if i < 0 then |c| - 1 else i) && j % 2 == 0 :: c[j].value != key
  }

  lemma {:induction false} IndexIsFirst(c: seq<Node>, key: string, i: nat)
    requires i <= |c| && i % 2 == 0 && forall j | 0 <= j < i && j % 2 == 0 :: c[j].value != key
    ensures IsPosition(c, key, IndexFrom(c, key, i))
    decreases |c| - i
  {
    if i + 1 < |c| && c[i].value != key {
      IndexIsFirst(c, key, i + 2);
    }
  }

  method NodeIndex(m: Node?, key: string) returns (i: int)
    ensures i == IndexOf(m, key)
    ensures if m == null || !m.kind.Mapping? then i == -1 else IsPosition(m.content, key, i)
  {
    if m != null && m.kind.Mapping? {
      IndexIsFirst(m.content, key, 0);
    }
    if m == null || !m.kind.Mapping? {
      return -1;
    }
    i := 0;
    while i + 1 < |m.content|
      invariant 0 <= i <= |m.content| && IndexOf(m, key) == IndexFrom(m.content, key, i)
    {
      if m.content[i].value == key {
        return;
      }
      i := i + 2;
    }
    i := -1;
  }

  method NodeGet(m: Node?, key: string) returns (v: Node?)
    ensures v == ValueOf(m, key)
  {
    var i := NodeIndex(m, key);
    if i < 0 {
      return null;
    }
    return m.content[i + 1];
  }

  // ----- writing

  /**
    The key has the value afterwards, in the key's place or at the end; every
    other key keeps its value. An old value passes its line comment on.
   */
  method NodeSet(m: Node, key: string, value: Node)
    requires m.kind.Mapping? && |m.content| % 2 == 0
    modifies m`content, value`line
    ensures ValueOf(m, key) == value && forall k | k != key :: ValueOf(m, k) == old(ValueOf(m, k))
    ensures var i := old(IndexOf(m, key));
      && (i >= 0 ==> m.content == old(m.content)[i + 1 := value])
      && (i < 0 ==> exists k :: fresh(k) && m.content == old(m.content) + [k, value] && IsKey(k, key))
      && value.line == if i >= 0 && old(value.line) == "" then old(m.content[i + 1].line) else old(value.line)
  {
    var i := NodeIndex(m, key);
    if i >= 0 {
      Replace(m, i, key, value);
    } else {
      Append(m, key, value);
    }
  }

  method Replace(m: Node, i: nat, key: string, value: Node)
    requires m.kind.Mapping? && IndexOf(m, key) == i
    modifies m`content, value`line
    ensures IndexOf(m, key) == i && m.content == old(m.content)[i + 1 := value]
    ensures forall k | k != key :: ValueOf(m, k) == old(ValueOf(m, k))
    ensures value.line == if old(value.line) == "" then old(m.content[i + 1].line) else old(value.line)
  {
    ghost var c := m.content;
    var was := m.content[i + 1];
    if value.line == "" {
      value.line := was.line;
    }
    m.content := m.content[i + 1 := value];
    ReplacedKeeps(c, i, value, key, key);
    forall k | k != key
      ensures ValueOf(m, k) == old(ValueOf(m, k))
    {
      ReplacedKeeps(c, i, value, key, k);
    }
  }

  method Append(m: Node, key: string, value: Node)
    requires m.kind.Mapping? && IndexOf(m, key) < 0 && |m.content| % 2 == 0
    modifies m`content
    ensures exists k :: fresh(k) && m.content == old(m.content) + [k, value] && IsKey(k, key)
    ensures ValueOf(m, key) == value && forall k | k != key :: ValueOf(m, k) == old(ValueOf(m, k))
  {
    ghost var c := m.content;
    var k := new Node(Scalar, "!!str", key);
    m.content := m.content + [k, value];
    IndexAppended(c, k, value, key, 0);
    forall k' | k' != key
      ensures ValueOf(m, k') == old(ValueOf(m, k'))
    {
      IndexAppended(c, k, value, k', 0);
    }
  }

  ghost predicate IsKey(k: Node, key: string)
    reads k
  {
    k.kind == Scalar && k.tag == "!!str" && k.value == key && k.content == [] && k.alias == null
  }

  lemma {:induction false} IndexIsEven(c: seq<Node>, key: string, i: nat)
    requires i <= |c| && i % 2 == 0
    ensures IndexFrom(c, key, i) >= 0 ==> IndexFrom(c, key, i) % 2 == 0
    decreases |c| - i
  {
    if i + 1 < |c| {
      IndexIsEven(c, key, i + 2);
    }
  }

  /** As NodeSet, but a new key comes first. */
  method NodeInsertFirst(m: Node, key: string, value: Node)
    requires m.kind.Mapping? && |m.content| % 2 == 0
    modifies m`content, value`line
    ensures ValueOf(m, key) == value && forall k | k != key :: ValueOf(m, k) == old(ValueOf(m, k))
    ensures old(IndexOf(m, key)) >= 0 ==> m.content == old(m.content)[old(IndexOf(m, key)) + 1 := value]
    ensures old(IndexOf(m, key)) < 0 ==> exists k :: fresh(k) && m.content == [k, value] + old(m.content) && IsKey(k, key)
    ensures value.line ==
      if old(IndexOf(m, key)) >= 0 && old(value.line) == "" then old(m.content[IndexOf(m, key) + 1].line) else old(value.line)
  {
    var i := NodeIndex(m, key);
    if i >= 0 {
      NodeSet(m, key, value);
      return;
    }
    ghost var c := m.content;
    var k := new Node(Scalar, "!!str", key);
    m.content := [k, value] + m.content;
    forall k' | k' != key
      ensures IndexOf(m, k') == if old(IndexOf(m, k')) < 0 then -1 else old(IndexOf(m, k')) + 2
    {
      IndexSame(c, m.content, k', 0, 2);
    }
  }

  /** The first pair with the key goes; every other key keeps its value. */
  method NodeDelete(m: Node?, key: string) returns (removed: bool)
    modifies (if m == null then {} else {m})`content
    ensures removed <==> old(IndexOf(m, key)) >= 0
    ensures removed ==>
      var i := old(IndexOf(m, key));
      m.content == old(m.content)[..i] + old(m.content)[i + 2..]
    ensures !removed && m != null ==> m.content == old(m.content)
    ensures forall k | k != key :: ValueOf(m, k) == old(ValueOf(m, k))
  {
    var i := NodeIndex(m, key);
    if i < 0 {
      return false;
    }
    ghost var c := m.content;
    hide IndexFrom;
    m.content := m.content[..i] + m.content[i + 2..];
    forall k | k != key
      ensures ValueOf(m, k) == old(ValueOf(m, k))
    {
      DroppedKeeps(c, i, key, k);
    }
    return true;
  }

  // ----- ensuring a plain mapping

  lemma {:induction false} PlainIsItsOwn(c: seq<Tree>, out: seq<Tree>)
    requires Plain(c)
    ensures OwnEntries(c) == c && Gather(c, out) == out
    decreases |c|
  {
    if c != [] {
      assert c[..2] + c[2..] == c;
      PlainIsItsOwn(c[2..], out);
    }
  }

  lemma MergeKeysShown(m: Node, rank: Rank)
    requires Graph(rank) && m in rank && m.kind.Mapping?
    ensures !Plain(TreeOf(m, rank).content) <==> exists i | 0 <= i < |m.content| && i % 2 == 0 ::
      m.content[i].kind == Scalar && m.content[i].value == "<<" && (m.content[i].tag == "!!merge" || m.content[i].tag == "")
  {
    EvenContent(m, rank);
    ghost var c := TreeOf(m, rank).content;
    PlainIs(c);
    ContentShown(m, rank);
    ShowsAll(m.content, c, rank);
    forall i | 0 <= i < |m.content|
      ensures c[i].kind == m.content[i].kind && c[i].value == m.content[i].value && c[i].tag == m.content[i].tag
    {
      ContentShown(m.content[i], rank);
    }
    hide TreeOf, Graph, Plain, Shows;
  }

  method HasMergeKey(m: Node, ghost rank: Rank) returns (has: bool)
    requires Graph(rank) && m in rank && m.kind.Mapping?
    ensures has <==> !Plain(TreeOf(m, rank).content)
    ensures has <==> exists i | 0 <= i < |m.content| && i % 2 == 0 ::
      m.content[i].kind == Scalar && m.content[i].value == "<<" && (m.content[i].tag == "!!merge" || m.content[i].tag == "")
  {
    hide TreeOf, Graph, Plain, Shows;
    MergeKeysShown(m, rank);
    EvenContent(m, rank);
    ghost var c := TreeOf(m, rank).content;
    assert c[0..] == c;
    var i := 0;
    while i + 1 < |m.content|
      invariant 0 <= i <= |m.content| && i % 2 == 0 && (Plain(c) <==> Plain(c[i..]))
    {
      PairShown(m, rank, i);
      MergeKeyShown(m.content[i], rank);
      PlainStep(c, i);
      if NodeIsMergeKey(m.content[i]) {
        return true;
      }
      i := i + 2;
    }
    assert c[i..] == [];
    NothingIsPlain();
    has := false;
  }

  lemma PlainStep(c: seq<Tree>, i: nat)
    requires i + 1 < |c|
    ensures Plain(c[i..]) <==> !IsMergeKey(c[i]) && Plain(c[i + 2..])
  {
    assert c[i..][2..] == c[i + 2..];
  }

  lemma NothingIsPlain()
    ensures Plain([])
  {
  }

  // The part of a graph below a rank.
  ghost function Below(rank: Rank, k: nat): Rank { map x | x in rank && rank[x] < k :: rank[x] }

  lemma BelowIsGraph(rank: Rank, k: nat)
    requires Graph(rank)
    ensures Graph(Below(rank, k)) && Below(rank, k).Keys <= rank.Keys
  {
    forall x | x in Below(rank, k)
      ensures NodeOk(x, Below(rank, k))
    {
      assert NodeOk(x, rank);
    }
  }

  lemma ShowsBelow(ns: seq<Node>, ts: seq<Tree>, rank: Rank, k: nat)
    requires Graph(rank) && Shows(ns, ts, rank) && forall n | n in ns :: n in rank && rank[n] < k
    ensures Graph(Below(rank, k)) && Shows(ns, ts, Below(rank, k))
  {
    BelowIsGraph(rank, k);
    forall i | 0 <= i < |ns|
      ensures ns[i] in Below(rank, k) && TreeOf(ns[i], Below(rank, k)) == ts[i]
    {
      RankDoesNotMatter(ns[i], rank, Below(rank, k));
    }
  }

  /** What EnsureMap leaves under a key that held the tree: its entries, or nothing. */
  function Ensured(t: Tree): seq<Tree> {
    match Effective(t) case Some(e) => e case None => []
  }

  predicate IsPlainMap(t: Tree) { t.kind.Mapping? && Plain(t.content) }

  // A plain mapping takes the place of an old value.
  method PutPlain(m: Node, key: string, plain: Node, ghost e: seq<Tree>, ghost r: Rank)
    requires Graph(r) && m in r && m.kind.Mapping? && IndexOf(m, key) >= 0
    requires plain in r && r[plain] < r[m] && plain.kind.Mapping? && Shows(plain.content, e, r)
    modifies m`content, plain`line
    ensures Graph(r) && Shows(plain.content, e, r)
    ensures m.content == old(m.content)[old(IndexOf(m, key)) + 1 := plain]
    ensures ValueOf(m, key) == plain && forall k | k != key :: ValueOf(m, k) == old(ValueOf(m, k))
    ensures plain.line == if old(plain.line) == "" then old(m.content[IndexOf(m, key) + 1].line) else old(plain.line)
  {
    hide TreeOf, Shows, IndexFrom, IndexOf, ValueOf, Graph, NodeOk;
    ghost var low := Below(r, r[plain]);
    ghost var was := m.content;
    ghost var i := IndexOf(m, key);
    ValueShown(m, key, r);
    NodesAreOk(plain, r);
    NodesAreOk(m, r);
    ShowsBelow(plain.content, e, r, r[plain]);
    NodeSet(m, key, plain);
    GraphWithValue(m, was, i + 1, plain, r);
    ShowsStays(plain.content, e, low, r);
  }

  // m's content changed to name another node below it.
  lemma GraphWithValue(m: Node, was: seq<Node>, i: nat, v: Node, r: Rank)
    requires m in r && v in r && r[v] < r[m] && i < |was| && m.content == was[i := v] && |was| % 2 == 0 && m.kind.Mapping?
    requires forall c | c in was :: c in r && r[c] < r[m]
    requires m.alias != null ==> m.alias in r && r[m.alias] < r[m]
    requires v.alias != null ==> v.alias in r && r[v.alias] < r[v]
    requires (forall c | c in v.content :: c in r && r[c] < r[v]) && v.kind.Mapping? && |v.content| % 2 == 0
    requires forall x | x in r && x != m && x != v :: NodeOk(x, r)
    ensures Graph(r)
  {
    forall x | x in r
      ensures NodeOk(x, r)
    {
      if x == m {
        forall c | c in m.content
          ensures c in r && r[c] < r[m]
        {
          if c != v {
            var k :| 0 <= k < |m.content| && m.content[k] == c;
            assert was[k] == c;
          }
        }
      }
    }
  }

  // The same graph with room below every rank, for new leaves.
  ghost function Raised(r: Rank, leaves: set<Node>): Rank {
    map x | x in r.Keys + leaves :: if x in leaves then 0 else r[x] + 1
  }

  // A new key with an empty mapping goes to the end.
  method PutEmpty(m: Node, key: string, ghost rank: Rank) returns (child: Node, ghost r: Rank)
    requires Graph(rank) && m in rank && m.kind.Mapping? && IndexOf(m, key) < 0
    modifies m`content
    ensures Graph(r) && rank.Keys <= r.Keys && fresh(child) && child in r
    ensures NewMapping(child) && child.style == 0 && child.content == []
    ensures exists k :: fresh(k) && m.content == old(m.content) + [k, child] && IsKey(k, key)
    ensures ValueOf(m, key) == child && forall k | k != key :: ValueOf(m, k) == old(ValueOf(m, k))
  {
    hide TreeOf, IndexFrom, IndexOf, ValueOf, Graph, NodeOk;
    NodesAreOk(m, rank);
    child := new Node(Mapping, "!!map", "");
    NodeSet(m, key, child);
    ghost var k :| fresh(k) && m.content == old(m.content) + [k, child] && IsKey(k, key);
    assert IsKey(k, key);
    r := Raised(rank, {k, child});
    GraphWithPair(m, old(m.content), k, child, rank);
  }

  lemma NodesAreOk(m: Node, rank: Rank)
    requires Graph(rank) && m in rank
    ensures forall x | x in rank :: NodeOk(x, rank)
    ensures forall c | c in m.content :: c in rank && rank[c] < rank[m]
    ensures m.alias != null ==> m.alias in rank && rank[m.alias] < rank[m]
    ensures m.kind.Mapping? ==> |m.content| % 2 == 0
  {
    assert NodeOk(m, rank);
  }

  lemma GraphWithPair(m: Node, was: seq<Node>, k: Node, v: Node, rank: Rank)
    requires m in rank && k !in rank && v !in rank && m.content == was + [k, v] && |was| % 2 == 0 && m.kind.Mapping?
    requires forall x | x in rank && x != m :: NodeOk(x, rank)
    requires forall c | c in was :: c in rank && rank[c] < rank[m]
    requires m.alias != null ==> m.alias in rank && rank[m.alias] < rank[m]
    requires k.content == [] && k.alias == null && v.content == [] && v.alias == null
    ensures Graph(Raised(rank, {k, v}))
  {
    var r := Raised(rank, {k, v});
    forall x | x in r
      ensures NodeOk(x, r)
    {
      if x in rank && x != m {
        assert NodeOk(x, rank);
      }
    }
  }

  // A node the program made for a mapping.
  predicate NewMapping(n: Node)
    reads n
  {
    n.kind == Mapping && n.tag == "!!map" && n.value == "" && n.anchor == "" && n.alias == null
  }

  // The style of the mapping t stands for, and the comments of t itself; plain
  // style and no comments when it stands for none.
  predicate Styled(n: Node, t: Tree)
    reads n
  {
    if Effective(t).Some? then n.style == Followed(t).value.style && n.head == t.head && n.foot == t.foot
    else n.style == 0 && n.head == "" && n.foot == ""
  }

  // What an old value becomes.
  method Replacement(existing: Node, ghost rank: Rank) returns (child: Node, ghost r: Rank)
    requires Graph(rank) && existing in rank
    ensures Graph(r) && Kept(rank, r) && child in r && child.kind.Mapping? && r[child] <= rank[existing]
    ensures if IsPlainMap(TreeOf(existing, rank)) then child == existing else fresh(child) && child !in rank
    ensures Shows(child.content, Ensured(TreeOf(existing, rank)), r)
    ensures child.line == existing.line || child.line == ""
    ensures Styled(child, TreeOf(existing, rank)) && (child != existing ==> NewMapping(child))
  {
    hide TreeOf, Shows, Plain, Gather, OwnEntries, NodeOk;
    ghost var t := TreeOf(existing, rank);
    ContentShown(existing, rank);
    if existing.kind.Mapping? {
      var has := HasMergeKey(existing, rank);
      if !has {
        PlainIsItsOwn(t.content, t.content);
        return existing, rank;
      }
    }
    var plain;
    plain, r := EffectiveMap(existing, rank);
    if plain != null {
      child := plain;
      ContentShown(child, r);
      return;
    }
    child := new Node(Mapping, "!!map", "");
    EmptyJoins(child, r);
    r := r[child := 0];
  }

  lemma EmptyJoins(n: Node, r: Rank)
    requires Graph(r) && n !in r && n.kind.Mapping? && n.content == [] && n.alias == null
    ensures Graph(r[n := 0]) && Shows(n.content, [], r[n := 0])
  {
    GraphGrows(r, n, 0);
  }

  /**
    The mapping under the key, safe to edit: a plain mapping as it is; an alias
    of a mapping, or a mapping with merge keys, replaced by a new plain mapping
    with its effective entries; else a new empty mapping. No
    other key's value changes, and nothing but m does.
   */
  method EnsureMap(m: Node, key: string, ghost rank: Rank) returns (child: Node, ghost r: Rank)
    requires Graph(rank) && m in rank && m.kind.Mapping?
    modifies m`content
    ensures Graph(r) && rank.Keys <= r.Keys && child in r && child.kind.Mapping?
    ensures ValueOf(m, key) == child && forall k | k != key :: ValueOf(m, k) == old(ValueOf(m, k))
    ensures fresh(child) ==> NewMapping(child)
    ensures old(ValueOf(m, key)) == null ==>
      fresh(child) && child.content == [] &&
      exists k :: fresh(k) && m.content == old(m.content) + [k, child] && IsKey(k, key)
    ensures old(ValueOf(m, key)) != null ==>
      old(ValueOf(m, key)) in rank &&
      m.content == old(m.content)[old(IndexOf(m, key)) + 1 := child] &&
      TreeOf(child, r).content == Ensured(old(TreeOf(ValueOf(m, key), rank))) &&
      child.line == old(ValueOf(m, key).line) && Styled(child, old(TreeOf(ValueOf(m, key), rank))) &&
      (if IsPlainMap(old(TreeOf(ValueOf(m, key), rank))) then child == old(ValueOf(m, key)) else fresh(child))
  {
    hide TreeOf, IndexFrom, Graph, NodeOk, Shows, IndexOf, ValueOf, Ensured, IsPlainMap;
    ValueShown(m, key, rank);
    ghost var i := IndexOf(m, key);
    var existing := NodeGet(m, key);
    if existing == null {
      child, r := PutEmpty(m, key, rank);
      return;
    }
    ghost var t := TreeOf(existing, rank);
    ContentShown(existing, rank);
    child, r := Replacement(existing, rank);
    ContentShown(child, r);
    if child == existing {
      assert m.content == m.content[i + 1 := child];
      SameContent(child.content, Ensured(t), TreeOf(child, r).content, r);
      return;
    }
    PutPlain(m, key, child, Ensured(t), r);
    ContentShown(child, r);
    SameContent(child.content, Ensured(t), TreeOf(child, r).content, r);
  }

  lemma SameContent(ns: seq<Node>, ts: seq<Tree>, us: seq<Tree>, r: Rank)
    requires Graph(r) && Shows(ns, ts, r) && Shows(ns, us, r)
    ensures ts == us
  {
    hide TreeOf, Graph;
  }

  lemma ValueShown(m: Node, key: string, rank: Rank)
    requires Graph(rank) && m in rank && m.kind.Mapping?
    ensures ValueOf(m, key) == null <==> IndexOf(m, key) < 0
    ensures var i := IndexOf(m, key); i >= 0 ==> i + 1 < |m.content| && m.content[i + 1] == ValueOf(m, key)
    ensures ValueOf(m, key) != null ==> ValueOf(m, key) in rank && rank[ValueOf(m, key)] < rank[m]
  {
    NodesAreOk(m, rank);
  }

  /**
    The entries left under the key hold no merge, and give for a key what the
    merge-key type gave exactly when no source of it is missed: for every key,
    when no merge value is an alias of a sequence.
   */
  lemma EnsuredIsLookup(t: Tree, key: string)
    ensures Plain(Ensured(t))
    ensures Find(Ensured(t), key) == Lookup(t, key) <==> NothingMissed(Sources(t, key))
    ensures MergesDirectly(t) ==> Find(Ensured(t), key) == Lookup(t, key)
  {
    EffectiveIsFirstSeen(t, key);
    LookupIsFirst(t, key);
    if MergesDirectly(t) {
      DirectSourcesAreSeen(t, key);
    }
  }

  // A later edit of the mapping.
  datatype Edit = Put(key: string, value: Node) | PutFirst(key: string, value: Node) | Gone(key: string)

  predicate IsOf(e: Edit, values: set<Node>) { e.Gone? || e.value in values }

  /**
    Editing a mapping that EnsureMap had to make reaches nobody else: whatever
    is set, put first or deleted in it, every node of the old graph but m is
    untouched, so what an anchor below m holds is the same after the edits.
   */
  method EditEnsured(m: Node, key: string, edits: seq<Edit>, ghost values: set<Node>, ghost rank: Rank)
    returns (child: Node, ghost r: Rank)
    requires Graph(rank) && m in rank && m.kind.Mapping?
    requires values !! rank.Keys && forall e | e in edits :: IsOf(e, values)
    requires ValueOf(m, key) != null ==> ValueOf(m, key) in rank && !IsPlainMap(TreeOf(ValueOf(m, key), rank))
    modifies m`content, values`line
    ensures ValueOf(m, key) == child
    ensures edits != [] ==>
      var last := edits[|edits| - 1];
      !last.Gone? ==> ValueOf(child, last.key) == last.value
    ensures forall x | x in rank && x != m :: unchanged(x)
    ensures Graph(Below(rank, rank[m]))
    ensures forall x | x in rank && rank[x] < rank[m] :: TreeOf(x, Below(rank, rank[m])) == old(TreeOf(x, rank))
  {
    hide TreeOf, IndexFrom, Graph, NodeOk, Shows, Ensured, IsPlainMap;
    ghost var low := Below(rank, rank[m]);
    BelowIsGraph(rank, rank[m]);
    forall x | x in low
      ensures TreeOf(x, low) == TreeOf(x, rank)
    {
      RankDoesNotMatter(x, rank, low);
    }
    child, r := EnsureMap(m, key, rank);
    NodesAreOk(child, r);
    EditAll(m, key, child, edits, values);
  }

  method EditAll(m: Node, key: string, child: Node, edits: seq<Edit>, ghost values: set<Node>)
    requires child != m && ValueOf(m, key) == child && child.kind.Mapping? && |child.content| % 2 == 0
    requires forall e | e in edits :: IsOf(e, values)
    modifies child`content, values`line
    ensures ValueOf(m, key) == child
    ensures edits != [] ==>
      var last := edits[|edits| - 1];
      !last.Gone? ==> ValueOf(child, last.key) == last.value
  {
    hide IndexFrom;
    for i := 0 to |edits|
      invariant ValueOf(m, key) == child && child.kind.Mapping? && |child.content| % 2 == 0
      invariant i > 0 && !edits[i - 1].Gone? ==> ValueOf(child, edits[i - 1].key) == edits[i - 1].value
    {
      assert IsOf(edits[i], values);
      EditOne(child, edits[i]);
    }
  }

  method EditOne(child: Node, e: Edit)
    requires child.kind.Mapping? && |child.content| % 2 == 0
    modifies child`content, (if e.Gone? then {} else {e.value})`line
    ensures |child.content| % 2 == 0 && (!e.Gone? ==> ValueOf(child, e.key) == e.value)
  {
    hide IndexFrom;
    match e {
      case Put(k, v) => NodeSet(child, k, v);
      case PutFirst(k, v) => NodeInsertFirst(child, k, v);
      case Gone(k) => var _ := NodeDelete(child, k);
    }
  }
}
