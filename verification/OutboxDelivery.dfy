/**
  Delivery of outbox entries to the tracker (cmd/itervox/outbox_flusher.go, with
  MarkFlushed, MarkFailed and Due of internal/outbox/outbox.go). `Outbox` and
  `Tracker` are the mutable objects; the methods are proved against functions on
  their values.
 */
module OutboxDelivery {
  import opened Bytes

  datatype Failure = RateLimited | OtherFailure

  // What the tracker answers. A create lands before its error, or never.
  datatype CreateAnswer = Succeeds | LandsThenFails(why: Failure) | NeverLands(why: Failure)
  datatype Answers = Answers(create: CreateAnswer, lookupError: Option<Failure>, persisted: bool, next: int)

  datatype Kind = UpdateState | CreateComment

  datatype Entry = Entry(
    id: string, kind: Kind, issue: string, key: string, attempts: nat, rateLimitedAttempts: nat, nextAttemptAt: int)
  {
    predicate NeverTried() { attempts == 0 && rateLimitedAttempts == 0 }
  }

  // How the tracker treats comment keys.
  datatype Keys = NoKeys | FindsKeys | RejectsRepeatedKeys

  datatype Result = Delivered | AlreadyDelivered | Failed(why: Failure)

  // ----- what one delivery does

  function Created(copies: nat, keys: Keys, a: CreateAnswer): (nat, Result) {
    if keys.RejectsRepeatedKeys? && copies > 0 && !a.NeverLands? then (copies, Failed(OtherFailure))
    else match a
      case Succeeds => (copies + 1, Delivered)
      case LandsThenFails(why) => (copies + 1, Failed(why))
      case NeverLands(why) => (copies, Failed(why))
  }

  predicate IsKeyed(keys: Keys, e: Entry) { !keys.NoKeys? && e.key != "" }

  /** `copies` is how many comments with the entry's key the tracker holds. */
  function Attempted(copies: nat, keys: Keys, e: Entry, a: Answers): (nat, Result)
    requires IsKeyed(keys, e)
  {
    if e.NeverTried() then Created(copies, keys, a.create)
    else if a.lookupError.Some? then (copies, Failed(a.lookupError.value))
    else if copies > 0 then (copies, AlreadyDelivered)
    else Created(copies, keys, a.create)
  }

  /**
    A first attempt posts unseen; any later one, after failures or rate limits,
    posts only when a lookup that works does not find the comment. An attempt
    says so exactly when the tracker confirmed the post or has the comment.
   */
  lemma AttemptPosts(copies: nat, keys: Keys, e: Entry, a: Answers)
    requires IsKeyed(keys, e)
    ensures var (copies', r) := Attempted(copies, keys, e, a);
      var first := e.attempts + e.rateLimitedAttempts == 0;
      var refuses := keys.RejectsRepeatedKeys? && copies > 0;
      && copies' == copies + (if (first || (a.lookupError.None? && copies == 0)) && !a.create.NeverLands? && !refuses then 1 else 0)
      && (r == AlreadyDelivered <==> !first && a.lookupError.None? && copies > 0)
      && (r == Delivered <==> (first || (a.lookupError.None? && copies == 0)) && a.create.Succeeds? && !refuses)
      && (!first && a.lookupError.Some? ==> r == Failed(a.lookupError.value))
  {
  }

  function AfterFailure(e: Entry, why: Failure, next: int): Entry {
    if why.RateLimited? then e.(rateLimitedAttempts := e.rateLimitedAttempts + 1, nextAttemptAt := next)
    else e.(attempts := e.attempts + 1, nextAttemptAt := next)
  }

  function IndexOf(es: seq<Entry>, id: string): (i: int)
    ensures -1 <= i < |es|
    ensures i >= 0 ==> es[i].id == id
    ensures forall k | 0 <= k < (if i < 0 then |es| else i) :: es[k].id != id
  {
    if es == [] then -1
    else if es[0].id == id then 0
    else var i := IndexOf(es[1..], id); if i < 0 then -1 else i + 1
  }

  function Marked(es: seq<Entry>, id: string, r: Result, next: int): seq<Entry> {
    var i := IndexOf(es, id);
    if i < 0 then es
    else if r.Failed? then es[i := AfterFailure(es[i], r.why, next)]
    else es[..i] + es[i + 1..]
  }

  // ----- the tracker and the outbox

  function Copies(comments: map<string, nat>, key: string): nat {
    if key in comments then comments[key] else 0
  }

  class Tracker {
    const keys: Keys
    var comments: map<string, nat>   // comments with a key, by key
    var unkeyed: nat                 // comments without one

    method CreateComment(a: CreateAnswer) returns (r: Result)
      modifies this`unkeyed
      ensures (unkeyed, r) == Created(old(unkeyed), NoKeys, a)
    {
      if !a.NeverLands? {
        unkeyed := unkeyed + 1;
      }
      r := if a.Succeeds? then Delivered else Failed(a.why);
    }

    method CreateCommentWithKey(key: string, a: CreateAnswer) returns (r: Result)
      modifies this`comments
      ensures (Copies(comments, key), r) == Created(Copies(old(comments), key), keys, a)
      ensures forall k | k != key :: Copies(comments, k) == Copies(old(comments), k)
    {
      var n := Copies(comments, key);
      if keys.RejectsRepeatedKeys? && n > 0 && !a.NeverLands? {
        return Failed(OtherFailure);
      }
      if !a.NeverLands? {
        comments := comments[key := n + 1];
      }
      r := if a.Succeeds? then Delivered else Failed(a.why);
    }

    // Exact lookup by key, when it answers at all.
    method FindCommentByKey(key: string, error: Option<Failure>) returns (found: bool, err: Option<Failure>)
      ensures err == error && (error.None? ==> (found <==> Copies(comments, key) > 0))
    {
      err := error;
      found := Copies(comments, key) > 0;
    }
  }

  /** Posts the comment, looking its key up first on any retry. */
  method DeliverComment(tr: Tracker, e: Entry, a: Answers) returns (r: Result)
    modifies tr
    ensures IsKeyed(tr.keys, e) ==>
      tr.unkeyed == old(tr.unkeyed) &&
      (Copies(tr.comments, e.key), r) == Attempted(Copies(old(tr.comments), e.key), tr.keys, e, a)
    ensures !IsKeyed(tr.keys, e) ==>
      tr.comments == old(tr.comments) && (tr.unkeyed, r) == Created(old(tr.unkeyed), NoKeys, a.create)
    ensures forall k | k != e.key :: Copies(tr.comments, k) == Copies(old(tr.comments), k)
  {
    if tr.keys.NoKeys? || e.key == "" {
      r := tr.CreateComment(a.create);
      return;
    }
    if e.attempts + e.rateLimitedAttempts > 0 {
      var found, err := tr.FindCommentByKey(e.key, a.lookupError);
      if err.Some? {
        return Failed(err.value);
      }
      if found {
        return AlreadyDelivered;
      }
    }
    r := tr.CreateCommentWithKey(e.key, a.create);
  }

  class Outbox {
    var entries: seq<Entry>
    var disk: seq<Entry>

    method IndexOfLocked(id: string) returns (i: int)
      ensures i == IndexOf(entries, id)
    {
      i := 0;
      while i < |entries|
        invariant 0 <= i <= |entries|
        invariant IndexOf(entries, id) == var j := IndexOf(entries[i..], id); if j < 0 then -1 else i + j
      {
        if entries[i].id == id {
          return;
        }
        assert entries[i..][1..] == entries[i + 1..];
        i := i + 1;
      }
      return -1;
    }

    method MarkFlushed(id: string, persisted: bool)
      modifies this
      ensures entries == Marked(old(entries), id, Delivered, 0)
      ensures forall k | 0 <= k < |old(entries)| && old(entries)[k].id == id && (forall j | 0 <= j < k :: old(entries)[j].id != id) ::
        entries == old(entries)[..k] + old(entries)[k + 1..]
      ensures disk == if persisted && IndexOf(old(entries), id) >= 0 then entries else old(disk)
    {
      var i := IndexOfLocked(id);
      if i < 0 {
        return;
      }
      entries := entries[..i] + entries[i + 1..];
      if persisted {
        disk := entries;
      }
    }

    /** A rate limit bumps one counter, any other failure the other. */
    method MarkFailed(id: string, why: Failure, next: int, persisted: bool)
      modifies this
      ensures entries == Marked(old(entries), id, Failed(why), next)
      ensures |entries| == |old(entries)| && forall k | 0 <= k < |entries| ::
        var was, e := old(entries)[k], entries[k];
        if k != IndexOf(old(entries), id) then e == was
        else if why == RateLimited then
          e == Entry(id, was.kind, was.issue, was.key, was.attempts, was.rateLimitedAttempts + 1, next)
        else e == Entry(id, was.kind, was.issue, was.key, was.attempts + 1, was.rateLimitedAttempts, next)
      ensures disk == if persisted && IndexOf(old(entries), id) >= 0 then entries else old(disk)
    {
      var i := IndexOfLocked(id);
      if i < 0 {
        return;
      }
      var e := entries[i];
      if why.RateLimited? {
        entries := entries[i := e.(rateLimitedAttempts := e.rateLimitedAttempts + 1, nextAttemptAt := next)];
      } else {
        entries := entries[i := e.(attempts := e.attempts + 1, nextAttemptAt := next)];
      }
      if persisted {
        disk := entries;
      }
    }

    /** The head of each issue's queue, when its time has come. */
    method Due(now: int) returns (due: seq<Entry>)
      ensures due == DueHeads(entries, {}, now)
      ensures AreTheDue(entries, due, now)
    {
      hide AreTheDue;
      DueAreHeads(entries, now);
      var seenHead: set<string> := {};
      due := [];
      for i := 0 to |entries|
        invariant DueHeads(entries, {}, now) == due + DueHeads(entries[i..], seenHead, now)
      {
        var e := entries[i];
        assert entries[i..][1..] == entries[i + 1..];
        if e.issue in seenHead {
          continue;
        }
        seenHead := seenHead + {e.issue};
        if e.nextAttemptAt <= now {
          assert due + ([e] + DueHeads(entries[i + 1..], seenHead, now)) == due + [e] + DueHeads(entries[i + 1..], seenHead, now);
          due := due + [e];
        }
      }
    }
  }

  function DueHeads(es: seq<Entry>, seenHead: set<string>, now: int): seq<Entry> {
    if es == [] then []
    else if es[0].issue in seenHead then DueHeads(es[1..], seenHead, now)
    else (if es[0].nextAttemptAt <= now then [es[0]] else []) + DueHeads(es[1..], seenHead + {es[0].issue}, now)
  }

  // The entries at these positions, in order.
  ghost predicate Picks(es: seq<Entry>, picked: seq<Entry>, ks: seq<nat>) {
    && |ks| == |picked| && (forall j | 0 <= j < |ks| :: ks[j] < |es| && picked[j] == es[ks[j]])
    && forall i, j | 0 <= i < j < |ks| :: ks[i] < ks[j]
  }

  /** No earlier entry of the same issue is pending. */
  predicate IsHead(es: seq<Entry>, k: nat)
    requires k < |es|
  {
    forall j | 0 <= j < k :: es[j].issue != es[k].issue
  }

  predicate IsDue(es: seq<Entry>, k: nat, now: int)
    requires k < |es|
  {
    IsHead(es, k) && es[k].nextAttemptAt <= now
  }

  // These entries are, in order, exactly those that are due.
  ghost predicate AreTheDue(es: seq<Entry>, due: seq<Entry>, now: int) {
    exists ks :: Picks(es, due, ks) && forall k | 0 <= k < |es| :: k in ks <==> IsDue(es, k, now)
  }

  ghost predicate DueIn(es: seq<Entry>, e: Entry, now: int) { exists k :: 0 <= k < |es| && es[k] == e && IsDue(es, k, now) }

  // Each of these was at the head of its issue's queue, and its time had come.
  ghost predicate AllDue(es: seq<Entry>, due: seq<Entry>, now: int) { forall j | 0 <= j < |due| :: DueIn(es, due[j], now) }

  lemma TheDueAreDue(es: seq<Entry>, due: seq<Entry>, now: int)
    requires AreTheDue(es, due, now)
    ensures AllDue(es, due, now)
  {
    hide IsDue;
    var ks :| Picks(es, due, ks) && forall k | 0 <= k < |es| :: k in ks <==> IsDue(es, k, now);
    forall j | 0 <= j < |due|
      ensures DueIn(es, due[j], now)
    {
      var k: nat := ks[j];
      assert k in ks && es[k] == due[j] && IsDue(es, k, now);
    }
  }

  // The issues before position n.
  ghost predicate Seen(es: seq<Entry>, n: nat, seenHead: set<string>)
    requires n <= |es|
  {
    forall x :: x in seenHead <==> exists j :: 0 <= j < n && es[j].issue == x
  }

  ghost predicate DueFrom(es: seq<Entry>, n: nat, due: seq<Entry>, ks: seq<nat>, now: int) {
    Picks(es, due, ks) && forall k :: k in ks <==> n <= k < |es| && IsDue(es, k, now)
  }

  // The due entries from position n on, the issues before it having been seen.
  lemma {:induction false} DueAreFrom(es: seq<Entry>, n: nat, seenHead: set<string>, now: int) returns (ks: seq<nat>)
    requires n <= |es| && Seen(es, n, seenHead)
    ensures DueFrom(es, n, DueHeads(es[n..], seenHead, now), ks, now)
    decreases |es| - n
  {
    if n == |es| {
      ks := [];
    } else {
      assert es[n..][0] == es[n] && es[n..][1..] == es[n + 1..];
      HeadIsNew(es, n, seenHead);
      hide Seen, DueFrom, IsHead;
      var rest := DueAreFrom(es, n + 1, seenHead + {es[n].issue}, now);
      assert es[n].issue in seenHead ==> seenHead + {es[n].issue} == seenHead;
      ks := (if IsDue(es, n, now) then [n] else []) + rest;
      PickOne(es, n, DueHeads(es[n + 1..], seenHead + {es[n].issue}, now), rest, now);
      assert [] + rest == rest;
    }
  }

  lemma HeadIsNew(es: seq<Entry>, n: nat, seenHead: set<string>)
    requires n < |es| && Seen(es, n, seenHead)
    ensures es[n].issue in seenHead <==> !IsHead(es, n)
    ensures Seen(es, n + 1, seenHead + {es[n].issue})
  {
  }

  lemma FirstPicked(es: seq<Entry>, n: nat, picked: seq<Entry>, ks: seq<nat>)
    requires n < |es| && Picks(es, picked, ks) && forall k | k in ks :: k > n
    ensures Picks(es, [es[n]] + picked, [n] + ks)
  {
    assert forall j | 0 <= j < |ks| :: ks[j] in ks;
  }

  lemma PickOne(es: seq<Entry>, n: nat, picked: seq<Entry>, ks: seq<nat>, now: int)
    requires n < |es| && DueFrom(es, n + 1, picked, ks, now)
    ensures IsDue(es, n, now) ==> DueFrom(es, n, [es[n]] + picked, [n] + ks, now)
    ensures !IsDue(es, n, now) ==> DueFrom(es, n, picked, ks, now)
  {
    hide IsDue;
    if IsDue(es, n, now) {
      FirstPicked(es, n, picked, ks);
      hide Picks;
      assert forall k :: k in [n] + ks <==> k == n || k in ks;
    }
  }

  /**
    The due entries are, in order, exactly those whose time has come and that no
    earlier entry of their issue keeps waiting.
   */
  lemma DueAreHeads(es: seq<Entry>, now: int)
    ensures AreTheDue(es, DueHeads(es, {}, now), now)
  {
    assert es[0..] == es;
    var ks := DueAreFrom(es, 0, {}, now);
    hide Picks, IsDue, DueHeads;
    assert forall k | 0 <= k < |es| :: k in ks <==> IsDue(es, k, now);
  }

  // What the tracker holds.
  datatype Posts = Posts(comments: map<string, nat>, unkeyed: nat)

  /** One attempt at one entry: what it posts, what else stays, and what it reports. */
  ghost predicate Delivers(before: Posts, after: Posts, keys: Keys, e: Entry, a: Answers, r: Result) {
    && (forall k | k != e.key :: Copies(after.comments, k) == Copies(before.comments, k))
    && (e.kind.UpdateState? ==> after == before && r == if a.create.Succeeds? then Delivered else Failed(a.create.why))
    && (e.kind.CreateComment? && keys != NoKeys && e.key != "" ==>
          after.unkeyed == before.unkeyed &&
          (Copies(after.comments, e.key), r) == Attempted(Copies(before.comments, e.key), keys, e, a))
    && (e.kind.CreateComment? && (keys == NoKeys || e.key == "") ==>
          after.comments == before.comments && (after.unkeyed, r) == Created(before.unkeyed, NoKeys, a.create))
  }

  /** Delivers one entry and records the result; no other entry or comment changes. */
  method FlushOutboxEntry(ob: Outbox, tr: Tracker, e: Entry, a: Answers) returns (r: Result)
    modifies ob, tr
    ensures ob.entries == Marked(old(ob.entries), e.id, r, a.next)
    ensures ob.disk == if a.persisted && IndexOf(old(ob.entries), e.id) >= 0 then ob.entries else old(ob.disk)
    ensures Delivers(Posts(old(tr.comments), old(tr.unkeyed)), Posts(tr.comments, tr.unkeyed), tr.keys, e, a, r)
  {
    if e.kind.UpdateState? {
      r := if a.create.Succeeds? then Delivered else Failed(a.create.why);
    } else {
      r := DeliverComment(tr, e, a);
    }
    if r.Failed? {
      ob.MarkFailed(e.id, r.why, a.next, a.persisted);
      return;
    }
    ob.MarkFlushed(e.id, a.persisted);
  }

  // The entries of one tick that are delivered before the rate-limit gate opens.
  function BeforeGate(gateOpen: seq<bool>): (n: nat)
    ensures n <= |gateOpen| && (n < |gateOpen| ==> gateOpen[n]) && forall k | 0 <= k < n :: !gateOpen[k]
  {
    if gateOpen == [] || gateOpen[0] then 0 else 1 + BeforeGate(gateOpen[1..])
  }

  function MarkedAll(es: seq<Entry>, due: seq<Entry>, results: seq<Result>, answers: seq<Answers>): seq<Entry>
    requires |due| == |results| <= |answers|
    decreases |due|
  {
    if due == [] then es
    else
      var k := |due| - 1;
      Marked(MarkedAll(es, due[..k], results[..k], answers), due[k].id, results[k], answers[k].next)
  }

  /** One tick delivers in order; from the first open gate on, entries are left exactly as they were. */
  method RunTick(ob: Outbox, tr: Tracker, now: int, answers: seq<Answers>, gateOpen: seq<bool>)
    returns (due: seq<Entry>, results: seq<Result>, ghost posts: seq<Posts>)
    requires |answers| == |gateOpen| == |DueHeads(ob.entries, {}, now)|
    modifies ob, tr
    ensures due == DueHeads(old(ob.entries), {}, now)[..BeforeGate(gateOpen)]
    // what is delivered was at the head of its issue's queue, and due
    ensures AllDue(old(ob.entries), due, now)
    ensures |results| == |due| && ob.entries == MarkedAll(old(ob.entries), due, results, answers)
    // each of these was attempted, one after the other, and nothing else was posted
    ensures |posts| == |due| + 1 && posts[0] == Posts(old(tr.comments), old(tr.unkeyed)) && posts[|due|] == Posts(tr.comments, tr.unkeyed)
    ensures forall j | 0 <= j < |due| :: Delivers(posts[j], posts[j + 1], tr.keys, due[j], answers[j], results[j])
    ensures forall e | e in old(ob.entries) && (forall k | 0 <= k < |due| :: due[k].id != e.id) :: e in ob.entries
  {
    hide Marked, DueHeads, Delivers, IndexOf, AreTheDue, DueIn;
    ghost var start := ob.entries;
    due := ob.Due(now);
    TheDueAreDue(start, due, now);
    results := [];
    posts := [Posts(tr.comments, tr.unkeyed)];
    for i := 0 to |due|
      invariant i == |results| <= BeforeGate(gateOpen) && ob.entries == MarkedAll(start, due[..i], results, answers)
      invariant |posts| == i + 1 && posts[0] == Posts(old(tr.comments), old(tr.unkeyed)) && posts[i] == Posts(tr.comments, tr.unkeyed)
      invariant forall j | 0 <= j < i :: Delivers(posts[j], posts[j + 1], tr.keys, due[j], answers[j], results[j])
    {
      if gateOpen[i] {
        due := due[..i];
        OthersStay(start, due, results, answers);
        return;
      }
      var r := FlushOutboxEntry(ob, tr, due[i], answers[i]);
      assert due[..i + 1][..i] == due[..i] && (results + [r])[..i] == results;
      results := results + [r];
      posts := posts + [Posts(tr.comments, tr.unkeyed)];
    }
    assert due[..|due|] == due;
    OthersStay(start, due, results, answers);
  }

  lemma {:induction false} OthersStay(es: seq<Entry>, due: seq<Entry>, results: seq<Result>, answers: seq<Answers>)
    requires |due| == |results| <= |answers|
    ensures forall e | e in es && (forall k | 0 <= k < |due| :: due[k].id != e.id) :: e in MarkedAll(es, due, results, answers)
    decreases |due|
  {
    hide Marked;
    if due != [] {
      var k := |due| - 1;
      OthersStay(es, due[..k], results[..k], answers);
      MarkKeepsOthers(MarkedAll(es, due[..k], results[..k], answers), due[k].id, results[k], answers[k].next);
    }
  }

  lemma MarkKeepsOthers(es: seq<Entry>, id: string, r: Result, next: int)
    ensures forall e | e in es && e.id != id :: e in Marked(es, id, r, next)
  {
    var i := IndexOf(es, id);
    var es' := Marked(es, id, r, next);
    forall e | e in es && e.id != id ensures e in es' {
      var k :| 0 <= k < |es| && es[k] == e;
      if i >= 0 {
        assert k != i;
        assert es'[if r.Failed? || k < i then k else k - 1] == e;
      }
    }
  }
}
