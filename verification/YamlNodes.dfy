/**
  The node-tree edits of cmd/itervox/init_migrate_yaml.go on the heap. The rank
  a method is given shows that the graph it works on has no cycle; the rank it
  returns shows the same of the graph it leaves.
 */
module YamlNodes {
  import opened Bytes
  import opened YamlTrees

  // ----- lists of nodes and their trees

  ghost predicate Shows(ns: seq<Node>, ts: seq<Tree>, rank: Rank)
    requires Graph(rank)
    reads rank.Keys
  {
    |ns| == |ts| && forall i | 0 <= i < |ns| :: ns[i] in rank && TreeOf(ns[i], rank) == ts[i]
  }

  ghost predicate Kept(r: Rank, r': Rank) { forall x | x in r :: x in r' && r'[x] == r[x] }

  // Nothing is lost, and the new nodes carry no anchor and hold only new nodes.
  ghost predicate Added(r: Rank, r': Rank)
    reads r'.Keys
  {
    && Kept(r, r')
    && (forall x | x in r' && x !in r :: x.anchor == "" && forall y | y in x.content :: y !in r)
  }

  lemma AddedJoins(r: Rank, r1: Rank, r2: Rank)
    requires Added(r, r1) && Added(r1, r2)
    ensures Added(r, r2)
  {
    forall x | x in r2 && x !in r
      ensures x.anchor == "" && forall y | y in x.content :: y !in r
    {
      if x in r1 {
        assert r2[x] == r1[x];
      }
    }
  }

  lemma AddedNothing(r: Rank)
    ensures Added(r, r)
  {
  }

  lemma ShowsStays(ns: seq<Node>, ts: seq<Tree>, r: Rank, r': Rank)
    requires Graph(r) && Graph(r') && Shows(ns, ts, r) && r.Keys <= r'.Keys
    ensures Shows(ns, ts, r')
  {
    hide Graph, TreeOf;
    forall i | 0 <= i < |ns|
      ensures ns[i] in r' && TreeOf(ns[i], r') == ts[i]
    {
      RankDoesNotMatter(ns[i], r, r');
    }
  }

  lemma ShowsAll(ns: seq<Node>, ts: seq<Tree>, r: Rank)
    requires Graph(r) && Shows(ns, ts, r)
    ensures |ns| == |ts| && forall i | 0 <= i < |ns| :: ns[i] in r && TreeOf(ns[i], r) == ts[i]
  {
  }

  lemma ShowsOne(ns: seq<Node>, ts: seq<Tree>, n: Node, t: Tree, r: Rank)
    requires Graph(r) && Shows(ns, ts, r) && n in r && TreeOf(n, r) == t
    ensures Shows(ns + [n], ts + [t], r)
  {
    hide Graph, TreeOf;
  }

  lemma ShowsNext(ns: seq<Node>, ts: seq<Tree>, i: nat, n: Node, r: Rank, r': Rank)
    requires Graph(r) && Graph(r') && Kept(r, r') && i < |ts| && Shows(ns, ts[..i], r)
    requires n in r' && TreeOf(n, r') == ts[i]
    ensures Shows(ns + [n], ts[..i + 1], r')
  {
    hide Graph, TreeOf, Shows;
    ShowsStays(ns, ts[..i], r, r');
    ShowsOne(ns, ts[..i], n, ts[i], r');
    assert ts[..i + 1] == ts[..i] + [ts[i]];
  }

  lemma ContentShown(n: Node, rank: Rank)
    requires Graph(rank) && n in rank
    ensures var t := TreeOf(n, rank);
      && Shows(n.content, t.content, rank)
      && t.kind == n.kind && t.tag == n.tag && t.value == n.value && t.style == n.style && t.alias == n.alias
      && t.head == n.head && t.line == n.line && t.foot == n.foot
      && (n.alias == null ==> t.target == None)
      && (n.alias != null ==> n.alias in rank && t.target == Some(TreeOf(n.alias, rank)))
    ensures NodeOk(n, rank)
  {
    assert NodeOk(n, rank);
    forall i | 0 <= i < |n.content|
      ensures n.content[i] in rank && TreeOf(n.content[i], rank) == TreeOf(n, rank).content[i]
    {
      assert n.content[i] in n.content;
    }
  }

  lemma GraphGrows(r: Rank, n: Node, k: nat)
    requires Graph(r) && n !in r
    requires forall c | c in n.content :: c in r && r[c] < k
    requires n.alias != null ==> n.alias in r && r[n.alias] < k
    requires (n.kind.Alias? ==> n.content == []) && (n.kind.Mapping? ==> |n.content| % 2 == 0)
    ensures Graph(r[n := k])
  {
    var r' := r[n := k];
    forall x | x in r'
      ensures NodeOk(x, r')
    {
      if x != n {
        assert NodeOk(x, r);
      }
    }
  }

  // A node's tree is determined by its fields and its children's trees.
  lemma TreeFrom(n: Node, t: Tree, rank: Rank)
    requires Graph(rank) && n in rank
    requires t.kind == n.kind && t.tag == n.tag && t.value == n.value && t.style == n.style && t.alias == n.alias
    requires t.head == n.head && t.line == n.line && t.foot == n.foot
    requires if n.alias == null then t.target == None else n.alias in rank && t.target == Some(TreeOf(n.alias, rank))
    requires Shows(n.content, t.content, rank)
    ensures TreeOf(n, rank) == t
  {
    ContentShown(n, rank);
    assert TreeOf(n, rank).content == t.content;
  }

  // The fields of a tree, its children and its target aside.
  ghost predicate Holds(n: Node, t: Tree)
    reads n
  {
    && t.kind == n.kind && t.tag == n.tag && t.value == n.value && t.style == n.style && t.alias == n.alias
    && t.head == n.head && t.line == n.line && t.foot == n.foot && (n.alias == null ==> t.target == None)
  }

  // A finished new node joins the graph.
  lemma NodeAdded(rank: Rank, r: Rank, n: Node, k: nat, t: Tree)
    requires Graph(r) && n !in r && Added(rank, r) && n.anchor == ""
    requires Holds(n, t) && Shows(n.content, t.content, r)
    requires forall c | c in n.content :: c in r && r[c] < k && c !in rank
    requires n.alias != null ==> n.alias in r && r[n.alias] < k && t.target == Some(TreeOf(n.alias, r))
    requires (n.kind.Alias? ==> n.content == []) && (n.kind.Mapping? ==> |n.content| % 2 == 0)
    ensures var r' := r[n := k]; Graph(r') && Added(rank, r') && TreeOf(n, r') == t
  {
    hide Graph, TreeOf, Shows;
    var r' := r[n := k];
    GraphGrows(r, n, k);
    ShowsStays(n.content, t.content, r, r');
    if n.alias != null {
      RankDoesNotMatter(n.alias, r, r');
    }
    TreeFrom(n, t, r');
  }

  // ----- copying

  /** A deep copy: the same tree, no anchors, made of new nodes only. */
  method CopyNode(n: Node, ghost rank: Rank) returns (c: Node, ghost r: Rank)
    requires Graph(rank) && n in rank
    ensures Graph(r) && Added(rank, r) && (forall x | x in r && x !in rank :: fresh(x))
    ensures c in r && c !in rank && r[c] == rank[n]
    ensures TreeOf(c, r) == TreeOf(n, rank)
    decreases rank[n], 1
  {
    hide Graph, TreeOf;
    ContentShown(n, rank);
    ghost var t := TreeOf(n, rank);
    var content := n.content;
    r := rank;
    if !n.kind.Alias? && |n.content| > 0 {
      content, r := CopyAll(n.content, t.content, rank, rank[n]);
    }
    c := new Node.Over(n, content);
    if n.alias != null {
      RankDoesNotMatter(n.alias, rank, r);
    }
    NodeAdded(rank, r, c, rank[n], t);
    r := r[c := rank[n]];
  }

  // A copy of an old node, made when some copies already stand.
  method CopyNext(n: Node, ghost rank: Rank, ghost r0: Rank) returns (c: Node, ghost r: Rank)
    requires Graph(rank) && Graph(r0) && Added(rank, r0) && n in rank
    ensures Graph(r) && Added(rank, r) && Kept(r0, r) && (forall x | x in r && x !in r0 :: fresh(x))
    ensures c in r && c !in rank && r[c] == rank[n]
    ensures TreeOf(c, r) == TreeOf(n, rank)
    decreases rank[n], 2
  {
    hide Graph, TreeOf;
    RankDoesNotMatter(n, rank, r0);
    c, r := CopyNode(n, r0);
    AddedJoins(rank, r0, r);
  }

  method CopyAll(ns: seq<Node>, ghost ts: seq<Tree>, ghost rank: Rank, ghost limit: nat)
    returns (cs: seq<Node>, ghost r: Rank)
    requires Graph(rank) && Shows(ns, ts, rank) && forall i | 0 <= i < |ns| :: ns[i] in rank && rank[ns[i]] < limit
    ensures Graph(r) && Added(rank, r) && (forall x | x in r && x !in rank :: fresh(x)) && Shows(cs, ts, r)
    ensures forall c | c in cs :: c in r && c !in rank && r[c] < limit
    decreases limit, 0
  {
    cs, r := [], rank;
    assert Shows(cs, ts[..0], r);
    hide Graph, TreeOf, Added, Shows;
    AddedNothing(rank);
    ShowsAll(ns, ts, rank);
    for i := 0 to |ns|
      modifies {}
      invariant Graph(r) && Added(rank, r) && (forall x | x in r && x !in rank :: fresh(x)) && |ts| == |ns| && Shows(cs, ts[..i], r)
      invariant forall c | c in cs :: c in r && c !in rank && r[c] < limit
    {
      ghost var r0 := r;
      var c;
      c, r := CopyNext(ns[i], rank, r0);
      ShowsNext(cs, ts, i, c, r0, r);
      cs := cs + [c];
    }
    assert ts[..|ns|] == ts;
  }

  // ----- expanding aliases and merge keys

  predicate NodeIsMergeKey(k: Node)
    reads k
  {
    k.kind.Scalar? && k.value == "<<" && (k.tag == "!!merge" || k.tag == "")
  }

  // The entries gathered so far: new nodes, ranked below limit, that show ts.
  ghost predicate Gathered(content: seq<Node>, seen: set<string>, ts: seq<Tree>, base: Rank, r: Rank, limit: nat)
    requires Graph(r)
    reads r.Keys
  {
    && Shows(content, ts, r) && seen == KeySet(ts) && |ts| % 2 == 0
    && forall x | x in content :: x in r && x !in base && r[x] < limit
  }

  lemma GatheredStays(content: seq<Node>, seen: set<string>, ts: seq<Tree>, base: Rank, r: Rank, r': Rank, limit: nat)
    requires Graph(r) && Graph(r') && Gathered(content, seen, ts, base, r, limit)
    requires Kept(r, r')
    ensures Gathered(content, seen, ts, base, r', limit)
  {
    ShowsStays(content, ts, r, r');
  }

  lemma GatheredWider(content: seq<Node>, seen: set<string>, ts: seq<Tree>, base: Rank, r: Rank, limit: nat, limit': nat)
    requires Graph(r) && Gathered(content, seen, ts, base, r, limit) && limit <= limit'
    ensures Gathered(content, seen, ts, base, r, limit')
  {
  }

  // One more pair.
  lemma GatheredMore(content: seq<Node>, seen: set<string>, ts: seq<Tree>, base: Rank, r: Rank, limit: nat,
                     k: Node, v: Node, pair: seq<Tree>)
    requires Graph(r) && Gathered(content, seen, ts, base, r, limit) && Shows([k, v], pair, r)
    requires k in r && v in r && k !in base && v !in base && r[k] < limit && r[v] < limit
    ensures |pair| == 2 && Gathered(content + [k, v], seen + {pair[0].value}, ts + pair, base, r, limit)
  {
    hide TreeOf, Graph;
    assert [k, v][0] == k && [k, v][1] == v;
    KeySetJoins(ts, pair);
    assert pair[2..] == [];
    forall i | 0 <= i < |content| + 2
      ensures (content + [k, v])[i] in r && TreeOf((content + [k, v])[i], r) == (ts + pair)[i]
    {
      if i >= |content| {
        assert (content + [k, v])[i] == [k, v][i - |content|];
      }
    }
  }

  lemma MergeKeyShown(k: Node, rank: Rank)
    requires Graph(rank) && k in rank
    ensures NodeIsMergeKey(k) == IsMergeKey(TreeOf(k, rank))
  {
  }

  // The pairs of c before i have become ts and ms.
  ghost predicate Split(c: seq<Tree>, i: nat, ts: seq<Tree>, ms: seq<Tree>) {
    i <= |c| && OwnEntries(c) == ts + OwnEntries(c[i..]) && MergeValues(c) == ms + MergeValues(c[i..])
  }

  lemma SplitStarts(c: seq<Tree>)
    ensures Split(c, 0, [], [])
  {
    assert c[0..] == c;
  }

  lemma SplitEnds(c: seq<Tree>, ts: seq<Tree>, ms: seq<Tree>)
    requires Split(c, |c|, ts, ms)
    ensures ts == OwnEntries(c) && ms == MergeValues(c)
  {
    assert c[|c|..] == [];
  }

  // One pair of a mapping: an own entry, or a merge.
  lemma PairStep(c: seq<Tree>, i: nat, ts: seq<Tree>, ms: seq<Tree>)
    requires i + 1 < |c| && Split(c, i, ts, ms)
    ensures IsMergeKey(c[i]) ==> Split(c, i + 2, ts, ms + [c[i + 1]])
    ensures !IsMergeKey(c[i]) ==> Split(c, i + 2, ts + [c[i], c[i + 1]], ms)
  {
    assert c[i..][2..] == c[i + 2..] && c[i..][..2] == [c[i], c[i + 1]];
  }

  // Merge values found so far: old nodes, ranked below limit, that show ms.
  ghost predicate Found(merges: seq<Node>, ms: seq<Tree>, rank: Rank, limit: nat)
    requires Graph(rank)
    reads rank.Keys
  {
    Shows(merges, ms, rank) && forall m | m in merges :: m in rank && rank[m] < limit
  }

  lemma FoundMore(merges: seq<Node>, ms: seq<Tree>, rank: Rank, limit: nat, v: Node, t: Tree)
    requires Graph(rank) && Found(merges, ms, rank, limit) && v in rank && rank[v] < limit && TreeOf(v, rank) == t
    ensures Found(merges + [v], ms + [t], rank, limit)
  {
    hide TreeOf, Graph;
    ShowsOne(merges, ms, v, t, rank);
  }

  lemma FoundAll(merges: seq<Node>, ms: seq<Tree>, rank: Rank, limit: nat)
    requires Graph(rank) && Found(merges, ms, rank, limit)
    ensures |merges| == |ms|
    ensures forall i | 0 <= i < |ms| :: merges[i] in rank && rank[merges[i]] < limit && TreeOf(merges[i], rank) == ms[i]
  {
  }

  lemma NothingYet(rank: Rank, limit: nat)
    requires Graph(rank)
    ensures Gathered([], {}, [], rank, rank, limit) && Found([], [], rank, limit) && Added(rank, rank)
  {
  }

  /** A mapping's own pairs, copied, and the values of its merge keys. */
  method CopyOwn(src: Node, ghost rank: Rank)
    returns (content: seq<Node>, merges: seq<Node>, seen: set<string>, ghost r: Rank)
    requires Graph(rank) && src in rank && src.kind.Mapping?
    ensures Graph(r) && Added(rank, r) && (forall x | x in r && x !in rank :: fresh(x))
    ensures Gathered(content, seen, OwnEntries(TreeOf(src, rank).content), rank, r, rank[src])
    ensures Found(merges, MergeValues(TreeOf(src, rank).content), rank, rank[src])
  {
    hide TreeOf, Graph, Gathered, Found, Added, Split, OwnEntries, MergeValues;
    content, merges, seen, r := [], [], {}, rank;
    ghost var ts: seq<Tree>, ms: seq<Tree> := [], [];
    NothingYet(rank, rank[src]);
    EvenContent(src, rank);
    ghost var c := TreeOf(src, rank).content;
    SplitStarts(c);
    var i := 0;
    while i + 1 < |src.content|
      modifies {}
      invariant 0 <= i <= |src.content| && i % 2 == 0
      invariant Graph(r) && Added(rank, r) && (forall x | x in r && x !in rank :: fresh(x))
      invariant Gathered(content, seen, ts, rank, r, rank[src]) && Found(merges, ms, rank, rank[src]) && Split(c, i, ts, ms)
    {
      content, merges, seen, r, ts, ms := CopyStep(src, i, content, merges, seen, ts, ms, rank, r);
      i := i + 2;
    }
    SplitEnds(c, ts, ms);
  }

  method CopyStep(src: Node, i: nat, content0: seq<Node>, merges0: seq<Node>, seen0: set<string>,
                  ghost ts0: seq<Tree>, ghost ms0: seq<Tree>, ghost rank: Rank, ghost r0: Rank)
    returns (content: seq<Node>, merges: seq<Node>, seen: set<string>, ghost r: Rank, ghost ts: seq<Tree>, ghost ms: seq<Tree>)
    requires Graph(rank) && Graph(r0) && Added(rank, r0) && src in rank && i + 1 < |src.content|
    requires Gathered(content0, seen0, ts0, rank, r0, rank[src]) && Found(merges0, ms0, rank, rank[src])
    requires Split(TreeOf(src, rank).content, i, ts0, ms0)
    ensures Graph(r) && Added(rank, r) && (forall x | x in r && x !in r0 :: fresh(x)) && Kept(r0, r)
    ensures Gathered(content, seen, ts, rank, r, rank[src]) && Found(merges, ms, rank, rank[src])
    ensures Split(TreeOf(src, rank).content, i + 2, ts, ms)
  {
    hide TreeOf, Graph, Gathered, Found, Added, IsMergeKey, KeySet, Split;
    PairShown(src, rank, i);
    ghost var c := TreeOf(src, rank).content;
    var k, v := src.content[i], src.content[i + 1];
    PairStep(c, i, ts0, ms0);
    MergeKeyShown(k, rank);
    content, merges, seen, r, ts, ms := content0, merges0, seen0, r0, ts0, ms0;
    if NodeIsMergeKey(k) {
      FoundMore(merges, ms, rank, rank[src], v, c[i + 1]);
      merges, ms := merges + [v], ms + [c[i + 1]];
      return;
    }
    content, seen, r := CopyPair(k, v, content, seen, ts, rank, r, rank[src]);
    ts := ts + [c[i], c[i + 1]];
  }

  method CopyPair(k: Node, v: Node, content0: seq<Node>, seen0: set<string>, ghost ts: seq<Tree>,
                  ghost rank: Rank, ghost r0: Rank, ghost limit: nat)
    returns (content: seq<Node>, seen: set<string>, ghost r: Rank)
    requires Graph(rank) && Graph(r0) && Added(rank, r0) && k in rank && v in rank && rank[k] < limit && rank[v] < limit
    requires Gathered(content0, seen0, ts, rank, r0, limit)
    ensures Graph(r) && Added(rank, r) && (forall x | x in r && x !in r0 :: fresh(x)) && Kept(r0, r)
    ensures Gathered(content, seen, ts + [TreeOf(k, rank), TreeOf(v, rank)], rank, r, limit)
  {
    hide TreeOf, Graph, Gathered, KeySet, Added;
    var k', r1 := CopyNext(k, rank, r0);
    var v', r2 := CopyNext(v, rank, r1);
    r := r2;
    RankDoesNotMatter(k', r1, r);
    GatheredStays(content0, seen0, ts, rank, r0, r, limit);
    GatheredMore(content0, seen0, ts, rank, r, limit, k', v', [TreeOf(k, rank), TreeOf(v, rank)]);
    seen := seen0 + {k.value};
    content := content0 + [k', v'];
    ContentShown(k, rank);
  }

  // The mapping nodes one merge value names.
  function MergedBy(m: Tree): seq<Tree> { if m.kind.Sequence? then m.content else [m] }

  // Merging the listed values in order.
  function AddValues(ms: seq<Tree>, out: seq<Tree>): seq<Tree>
    decreases |ms|
  {
    if ms == [] then out else AddValues(ms[1..], AddAll(MergedBy(ms[0]), out))
  }

  lemma {:induction false} GatherIsAddValues(c: seq<Tree>, out: seq<Tree>)
    ensures Gather(c, out) == AddValues(MergeValues(c), out)
    decreases |c|
  {
    if |c| >= 2 {
      if IsMergeKey(c[0]) {
        assert ([c[1]] + MergeValues(c[2..]))[1..] == MergeValues(c[2..]);
        assert [c[1]][1..] == [];
        assert AddAll([c[1]], out) == AddAll([], AddOne(c[1], out));
        GatherIsAddValues(c[2..], AddAll(MergedBy(c[1]), out));
      } else {
        GatherIsAddValues(c[2..], out);
      }
    }
  }

  // A pair joins when its key is new.
  function Joined(out: seq<Tree>, k: Tree, v: Tree): seq<Tree> { if k.value in KeySet(out) then out else out + [k, v] }

  lemma AddStep(out: seq<Tree>, e: seq<Tree>, j: nat)
    requires j + 1 < |e|
    ensures AddNew(out, e[j..]) == AddNew(Joined(out, e[j], e[j + 1]), e[j + 2..])
  {
    assert e[j..][..2] == [e[j], e[j + 1]] && e[j..][2..] == e[j + 2..];
  }

  lemma PairShown(n: Node, r: Rank, j: nat)
    requires Graph(r) && n in r && j + 1 < |n.content|
    ensures var e, k, v := TreeOf(n, r).content, n.content[j], n.content[j + 1];
      && |e| == |n.content| && k in r && v in r && r[k] < r[n] && r[v] < r[n] && k in n.content && v in n.content
      && k.value == e[j].value && Shows([k, v], [e[j], e[j + 1]], r)
      && TreeOf(k, r) == e[j] && TreeOf(v, r) == e[j + 1]
  {
    ContentShown(n, r);
    assert n.content[j] in n.content && n.content[j + 1] in n.content;
    ContentShown(n.content[j], r);
    hide TreeOf, Graph;
  }

  lemma EvenContent(n: Node, r: Rank)
    requires Graph(r) && n in r && n.kind.Mapping?
    ensures |TreeOf(n, r).content| == |n.content| && |n.content| % 2 == 0
  {
    ContentShown(n, r);
    hide TreeOf, Graph;
  }

  // The new entries of one merged mapping join the list.
  method AddNewEntries(eff: Node, content0: seq<Node>, seen0: set<string>, ghost ts: seq<Tree>,
                       ghost base: Rank, ghost r: Rank, ghost limit: nat)
    returns (content: seq<Node>, seen: set<string>)
    requires Graph(r) && eff in r && r[eff] < limit && eff.kind.Mapping? && forall x | x in eff.content :: x !in base
    requires Gathered(content0, seen0, ts, base, r, limit)
    ensures Gathered(content, seen, AddNew(ts, TreeOf(eff, r).content), base, r, limit)
  {
    hide TreeOf, Graph, Gathered, KeySet, Shows, AddNew, NodeOk;
    EvenContent(eff, r);
    ghost var e := TreeOf(eff, r).content;
    content, seen := content0, seen0;
    ghost var out := ts;
    var j := 0;
    assert e[0..] == e;
    while j + 1 < |eff.content|
      invariant 0 <= j <= |e| == |eff.content| && j % 2 == 0
      invariant Gathered(content, seen, out, base, r, limit) && AddNew(ts, e) == AddNew(out, e[j..])
    {
      AddStep(out, e, j);
      content, seen := AddNewPair(eff, j, content, seen, out, base, r, limit);
      out := Joined(out, e[j], e[j + 1]);
      j := j + 2;
    }
    assert e[j..] == [];
    NothingToAdd(out);
  }

  method AddNewPair(eff: Node, j: nat, content0: seq<Node>, seen0: set<string>, ghost out: seq<Tree>,
                    ghost base: Rank, ghost r: Rank, ghost limit: nat)
    returns (content: seq<Node>, seen: set<string>)
    requires Graph(r) && eff in r && r[eff] < limit && j + 1 < |eff.content| && forall x | x in eff.content :: x !in base
    requires Gathered(content0, seen0, out, base, r, limit)
    ensures |TreeOf(eff, r).content| == |eff.content|
    ensures Gathered(content, seen, Joined(out, TreeOf(eff, r).content[j], TreeOf(eff, r).content[j + 1]), base, r, limit)
  {
    hide TreeOf, Graph, Gathered, KeySet, Shows, NodeOk, AddNew;
    ghost var e := TreeOf(eff, r).content;
    content, seen := content0, seen0;
    var k, v := eff.content[j], eff.content[j + 1];
    PairShown(eff, r, j);
    GatheredSeen(content, seen, out, base, r, limit);
    if k.value !in seen {
      GatheredMore(content, seen, out, base, r, limit, k, v, [e[j], e[j + 1]]);
      seen := seen + {k.value};
      content := content + [k, v];
    }
  }

  lemma NothingToAdd(out: seq<Tree>)
    ensures AddNew(out, []) == out
  {
  }

  lemma GatheredSeen(content: seq<Node>, seen: set<string>, ts: seq<Tree>, base: Rank, r: Rank, limit: nat)
    requires Graph(r) && Gathered(content, seen, ts, base, r, limit)
    ensures seen == KeySet(ts) && |content| == |ts| && |ts| % 2 == 0 && Shows(content, ts, r)
    ensures forall x | x in content :: x in r && x !in base && r[x] < limit
  {
  }

  /** The plain mapping a node stands for, if it stands for one. */
  function Expanded(t: Tree): Option<Tree> {
    match Effective(t)
    case None => None
    case Some(e) =>
      Some(Tree(Mapping, "!!map", "", Followed(t).value.style, t.head, t.line, t.foot, null, None, e))
  }

  method Follow(n: Node, ghost rank: Rank) returns (src: Node?)
    requires Graph(rank) && n in rank
    ensures src == null ==> Followed(TreeOf(n, rank)) == None
    ensures src != null ==> src in rank && rank[src] <= rank[n] && Followed(TreeOf(n, rank)) == Some(TreeOf(src, rank))
  {
    hide Graph, TreeOf;
    src := n;
    while src != null && src.kind.Alias?
      invariant src == null ==> Followed(TreeOf(n, rank)) == None
      invariant src != null ==> src in rank && rank[src] <= rank[n]
      invariant src != null ==> Followed(TreeOf(n, rank)) == Followed(TreeOf(src, rank))
      decreases if src == null then 0 else rank[src] + 1
    {
      ContentShown(src, rank);
      src := src.alias;
    }
    if src != null {
      ContentShown(src, rank);
    }
  }

  /**
    A new plain mapping with the effective entries of n, made of new nodes;
    null when n is not a mapping or an alias of one.
   */
  method EffectiveMap(n: Node, ghost rank: Rank) returns (out: Node?, ghost r: Rank)
    requires Graph(rank) && n in rank
    ensures Graph(r) && Added(rank, r) && (forall x | x in r && x !in rank :: fresh(x))
    ensures out == null <==> Expanded(TreeOf(n, rank)) == None
    ensures out != null ==> out in r && out !in rank && r[out] == rank[n] && Expanded(TreeOf(n, rank)) == Some(TreeOf(out, r))
    decreases rank[n], 2
  {
    hide Graph, TreeOf, Gathered, KeySet, Gather, OwnEntries, Added, Shows;
    ghost var t := TreeOf(n, rank);
    ContentShown(n, rank);
    var src := Follow(n, rank);
    if src != null {
      ContentShown(src, rank);
    }
    if src == null || !src.kind.Mapping? {
      assert Added(rank, rank) by { AddedNothing(rank); }
      return null, rank;
    }
    ghost var c := TreeOf(src, rank).content;
    ghost var e := Gather(c, OwnEntries(c));
    assert Expanded(t) == Some(Tree(Mapping, "!!map", "", src.style, n.head, n.line, n.foot, null, None, e));
    var content, seen;
    content, seen, r := EffectiveEntries(src, rank, rank[n]);
    GatheredSeen(content, seen, e, rank, r, rank[n]);
    hide Expanded, Effective, Followed;
    out := new Node.OfPairs(src.style, n.head, n.line, n.foot, content);
    NodeAdded(rank, r, out, rank[n], Expanded(t).value);
    r := r[out := rank[n]];
  }

  method EffectiveEntries(src: Node, ghost rank: Rank, ghost limit: nat)
    returns (content: seq<Node>, seen: set<string>, ghost r: Rank)
    requires Graph(rank) && src in rank && src.kind.Mapping? && rank[src] <= limit
    ensures Graph(r) && Added(rank, r) && (forall x | x in r && x !in rank :: fresh(x))
    ensures var c := TreeOf(src, rank).content; Gathered(content, seen, Gather(c, OwnEntries(c)), rank, r, limit)
    decreases limit, 1
  {
    hide Graph, TreeOf, Gathered, KeySet, Gather, OwnEntries, Added, AddAll, Shows;
    ghost var c := TreeOf(src, rank).content;
    ghost var ms, ts := MergeValues(c), OwnEntries(c);
    var merges;
    content, merges, seen, r := CopyOwn(src, rank);
    GatherIsAddValues(c, ts);
    GatheredWider(content, seen, ts, rank, r, rank[src], limit);
    FoundAll(merges, ms, rank, rank[src]);
    hide MergeValues, MergedBy;
    for k := 0 to |merges|
      modifies {}
      invariant Graph(r) && Added(rank, r) && (forall x | x in r && x !in rank :: fresh(x))
      invariant Gathered(content, seen, ts, rank, r, limit)
      invariant Gather(c, OwnEntries(c)) == AddValues(ms[k..], ts)
    {
      assert ms[k..][1..] == ms[k + 1..];
      content, seen, r := AddMerge(merges[k], content, seen, ts, rank, r, limit);
      ts := AddAll(MergedBy(ms[k]), ts);
    }
  }

  lemma MergeSourcesShown(merge: Node, base: Rank, limit: nat)
    requires Graph(base) && merge in base && base[merge] < limit
    ensures var sources := if merge.kind.Sequence? then merge.content else [merge];
      var ss := MergedBy(TreeOf(merge, base));
      |ss| == |sources| &&
      forall i | 0 <= i < |ss| :: sources[i] in base && base[sources[i]] < limit && TreeOf(sources[i], base) == ss[i]
  {
    ContentShown(merge, base);
    hide TreeOf, Graph;
  }

  method AddMerge(merge: Node, content0: seq<Node>, seen0: set<string>, ghost ts: seq<Tree>,
                  ghost base: Rank, ghost r0: Rank, ghost limit: nat)
    returns (content: seq<Node>, seen: set<string>, ghost r: Rank)
    requires Graph(base) && Graph(r0) && Added(base, r0) && merge in base && base[merge] < limit
    requires Gathered(content0, seen0, ts, base, r0, limit)
    ensures Graph(r) && Added(base, r) && (forall x | x in r && x !in r0 :: fresh(x)) && Kept(r0, r)
    ensures Gathered(content, seen, AddAll(MergedBy(TreeOf(merge, base)), ts), base, r, limit)
    decreases limit, 0
  {
    hide Graph, TreeOf, Gathered, KeySet, Added, Shows, AddOne, MergedBy;
    ghost var ss := MergedBy(TreeOf(merge, base));
    MergeSourcesShown(merge, base, limit);
    var sources := if merge.kind.Sequence? then merge.content else [merge];
    content, seen, r := content0, seen0, r0;
    ghost var out := ts;
    for i := 0 to |sources|
      modifies {}
      invariant Graph(r) && Added(base, r) && (forall x | x in r && x !in r0 :: fresh(x)) && Kept(r0, r)
      invariant Gathered(content, seen, out, base, r, limit) && AddAll(ss, ts) == AddAll(ss[i..], out)
    {
      assert ss[i..][1..] == ss[i + 1..];
      content, seen, r := AddSource(sources[i], content, seen, out, base, r, limit);
      out := AddOne(ss[i], out);
    }
  }

  method AddSource(s: Node, content0: seq<Node>, seen0: set<string>, ghost ts: seq<Tree>,
                   ghost base: Rank, ghost r0: Rank, ghost limit: nat)
    returns (content: seq<Node>, seen: set<string>, ghost r: Rank)
    requires Graph(base) && Graph(r0) && Added(base, r0) && s in base && base[s] < limit
    requires Gathered(content0, seen0, ts, base, r0, limit)
    ensures Graph(r) && Added(base, r) && (forall x | x in r && x !in r0 :: fresh(x)) && Kept(r0, r)
    ensures Gathered(content, seen, AddOne(TreeOf(s, base), ts), base, r, limit)
    decreases base[s], 3
  {
    content, seen := content0, seen0;
    RankDoesNotMatter(s, base, r0);
    var eff;
    eff, r := EffectiveMap(s, r0);
    AddedJoins(base, r0, r);
    GatheredStays(content0, seen0, ts, base, r0, r, limit);
    if eff == null {
      return;
    }
    ContentShown(eff, r);
    hide Graph, TreeOf, Gathered, KeySet, Shows, AddNew;
    content, seen := AddNewEntries(eff, content, seen, ts, base, r, limit);
  }
}
