/** What the input-required replay guarantees over all ticks. */
module ReplayRuns {
  import opened Bytes
  import opened InputRequiredReplay

  datatype Round = Round(env: Env, order: seq<Identifier>)

  ghost predicate RoundsOk(rounds: seq<Round>) {
    forall r | r in rounds :: IsOrder(r.env, r.order) && r.env.Honest()
  }

  /** Every dispatch of a run, in order. */
  ghost function Log(s: ReplayState, rounds: seq<Round>): seq<Dispatch>
    requires RoundsOk(rounds)
    decreases |rounds|
  {
    if rounds == [] then []
    else
      assert rounds[0] in rounds;
      var (s', log, _) := Tick(rounds[0].env, s, rounds[0].order);
      log + Log(s', rounds[1..])
  }

  function Count(log: seq<Dispatch>, d: Dispatch): nat {
    if log == [] then 0 else (if log[0] == d then 1 else 0) + Count(log[1..], d)
  }

  lemma {:induction false} CountJoins(a: seq<Dispatch>, b: seq<Dispatch>, d: Dispatch)
    ensures Count(a + b, d) == Count(a, d) + Count(b, d)
    decreases |a|
  {
    if a == [] {
      assert a + b == b;
    } else {
      assert (a + b)[1..] == a[1..] + b;
      CountJoins(a[1..], b, d);
    }
  }

  /** From here on, this rule is not replayed for this blocked context while it stays active. */
  ghost predicate Spent(issues: map<Identifier, Context>, d: Dispatch) {
    d.identifier in issues && issues[d.identifier].key == d.key ==> d.rule in issues[d.identifier].fired
  }

  // ----- one tick

  lemma {:induction false} FireOnce(env: Env, rules: seq<RuleId>, issue: Issue, x: Identifier, c: Context,
                                    log: seq<Dispatch>, d: Dispatch)
    ensures var (c', log') := Fire(env, rules, issue, x, c, log);
      c'.key == c.key && c.fired <= c'.fired &&
      Count(log', d) <= Count(log, d) + 1 &&
      (Count(log', d) > Count(log, d) ==> d.identifier == x && d.key == c.key && d.rule !in c.fired && d.rule in c'.fired) &&
      Count(log', d) >= Count(log, d)
    decreases |rules|
  {
    if rules != [] {
      if rules[0] in c.fired || !env.matches(issue, rules[0], x) || !env.accepts(x, rules[0]) {
        FireOnce(env, rules[1..], issue, x, c, log, d);
      } else {
        var one := Dispatch(x, c.key, rules[0]);
        CountJoins(log, [one], d);
        assert Count([one], d) == if one == d then 1 else 0 by { assert [one][1..] == []; }
        FireOnce(env, rules[1..], issue, x, c.(fired := c.fired + {rules[0]}), log + [one], d);
      }
    }
  }

  // Visiting an issue dispatches only for it, once, and leaves the rule spent.
  lemma VisitOnce(env: Env, prev: ReplayState, x: Identifier, p: Progress, d: Dispatch)
    requires x in env.entries && x !in p.issues
    ensures var p' := VisitIssue(env, prev, x, p);
      && p.issues.Keys <= p'.issues.Keys <= p.issues.Keys + {x}
      && (forall y | y in p.issues :: p'.issues[y] == p.issues[y])
      && Count(p.log, d) <= Count(p'.log, d) <= Count(p.log, d) + 1
      && (d.identifier != x ==> Count(p'.log, d) == Count(p.log, d))
      && (Count(p'.log, d) > Count(p.log, d) ==> Spent(p'.issues, d))
      && (d.identifier == x && d.rule in env.Active() && prev.initialized && Spent(prev.issues, d) ==>
            Count(p'.log, d) == Count(p.log, d) && Spent(p'.issues, d))
  {
    hide Resolved, Fire;
    if env.entries[x].Some? {
      var e := env.entries[x].value;
      var (c, final) := Opening(env, prev, x, e);
      if !final && Pending(env, c.fired) {
        var (issue, details) := Resolved(env, prev.details, p.details, e);
        if issue.Some? {
          FireOnce(env, env.rules, issue.value, x, c, p.log, d);
        }
      }
    }
  }

  lemma {:induction false} VisitAllOnce(env: Env, prev: ReplayState, order: seq<Identifier>, p: Progress, d: Dispatch)
    requires forall x | x in order :: x in env.entries && x !in p.issues
    requires forall i, j | 0 <= i < j < |order| :: order[i] != order[j]
    ensures var p' := VisitAll(env, prev, order, p);
      && (forall y | y in p.issues :: y in p'.issues && p'.issues[y] == p.issues[y])
      && p'.issues.Keys <= p.issues.Keys + (set x | x in order)
      && Count(p.log, d) <= Count(p'.log, d) <= Count(p.log, d) + 1
      && (d.identifier !in order ==> Count(p'.log, d) == Count(p.log, d))
      && (Count(p'.log, d) > Count(p.log, d) ==> Spent(p'.issues, d))
      && (d.identifier in order && d.rule in env.Active() && prev.initialized && Spent(prev.issues, d) ==>
            Count(p'.log, d) == Count(p.log, d) && Spent(p'.issues, d))
    decreases |order|
  {
    hide VisitIssue;
    if order != [] {
      var x := order[0];
      VisitOnce(env, prev, x, p, d);
      var p1 := VisitIssue(env, prev, x, p);
      forall y | y in order[1..] ensures y in env.entries && y !in p1.issues {
        var k :| 0 <= k < |order[1..]| && order[1..][k] == y;
        assert order[k + 1] == y && order[0] != order[k + 1];
      }
      if d.identifier == x {
        assert forall k | 0 <= k < |order[1..]| :: order[1..][k] == order[k + 1] != x;
      }
      VisitAllOnce(env, prev, order[1..], p1, d);
    }
  }

  /** The rule is active whenever a tick runs. */
  ghost predicate StaysActive(rounds: seq<Round>, rule: RuleId) {
    forall r | r in rounds :: !r.env.paused ==> rule in r.env.Active()
  }

  lemma TickOnce(r: Round, s: ReplayState, d: Dispatch)
    requires IsOrder(r.env, r.order) && (!r.env.paused ==> d.rule in r.env.Active())
    ensures var (s', log, _) := Tick(r.env, s, r.order);
      && Count(log, d) <= 1
      && (Count(log, d) == 1 ==> s'.initialized && Spent(s'.issues, d))
      && (s.initialized && Spent(s.issues, d) ==> Count(log, d) == 0 && s'.initialized && Spent(s'.issues, d))
  {
    hide VisitAll, Prefetched;
    if !r.env.paused {
      VisitAllOnce(r.env, s, r.order, Progress(map[], Prefetched(r.env, s, r.order), [], []), d);
      if d.identifier !in r.order {
        assert d.identifier !in VisitAll(r.env, s, r.order, Progress(map[], Prefetched(r.env, s, r.order), [], [])).issues;
      }
    }
  }

  // ----- when a tick does replay

  /** The rule has not fired for the context, which is an old one or one found at the first tick. */
  ghost predicate Unfired(s: ReplayState, d: Dispatch) {
    if d.identifier in s.issues && s.issues[d.identifier].key == d.key
    then d.rule !in s.issues[d.identifier].fired
    else !s.initialized
  }

  /**
    The detail a tick has of a blocked entry: by issue id, the one resolution of
    that issue in the tick, which the next state keeps; else by identifier.
   */
  function DetailOf(env: Env, details: map<IssueId, Detail>, e: Entry): Option<Issue> {
    if e.issueId != "" then if e.issueId in details then details[e.issueId].issue else None
    else if e.identifier == "" then None
    else env.fetchByIdentifier(e.identifier)
  }

  /** A rule that is due for a blocked entry: it has not fired, its filter matches the detail, and it is accepted. */
  ghost predicate IsDue(env: Env, s: ReplayState, details: map<IssueId, Detail>, d: Dispatch) {
    && d.identifier in env.entries && env.entries[d.identifier].Some?
    && d.key == env.entries[d.identifier].value.key && d.rule in env.rules && Unfired(s, d)
    && var issue := DetailOf(env, details, env.entries[d.identifier].value);
    issue.Some? && env.matches(issue.value, d.rule, d.identifier) && env.accepts(d.identifier, d.rule)
  }

  lemma {:induction false} FireExactly(env: Env, rules: seq<RuleId>, issue: Issue, x: Identifier, c: Context,
                                       log: seq<Dispatch>, d: Dispatch)
    ensures Count(Fire(env, rules, issue, x, c, log).1, d) == Count(log, d) +
      if d.identifier == x && d.key == c.key && d.rule in rules && d.rule !in c.fired &&
         env.matches(issue, d.rule, x) && env.accepts(x, d.rule) then 1 else 0
    decreases |rules|
  {
    if rules != [] {
      if rules[0] in c.fired || !env.matches(issue, rules[0], x) || !env.accepts(x, rules[0]) {
        FireExactly(env, rules[1..], issue, x, c, log, d);
      } else {
        var one := Dispatch(x, c.key, rules[0]);
        CountJoins(log, [one], d);
        assert Count([one], d) == if one == d then 1 else 0 by { assert [one][1..] == []; }
        FireExactly(env, rules[1..], issue, x, c.(fired := c.fired + {rules[0]}), log + [one], d);
      }
    }
  }

  // What is resolved in a tick stays.
  predicate Extends(details: map<IssueId, Detail>, more: map<IssueId, Detail>) {
    forall id | id in details :: id in more && more[id] == details[id]
  }

  lemma ResolvedStays(env: Env, prev: map<IssueId, Detail>, next: map<IssueId, Detail>, e: Entry)
    ensures var (issue, details) := Resolved(env, prev, next, e);
      Extends(next, details) && issue == DetailOf(env, details, e) && (e.issueId != "" ==> e.issueId in details)
  {
  }

  lemma VisitExactly(env: Env, prev: ReplayState, x: Identifier, p: Progress, d: Dispatch)
    requires x in env.entries
    ensures var p' := VisitIssue(env, prev, x, p);
      && Extends(p.details, p'.details)
      && Count(p'.log, d) == Count(p.log, d) + (if d.identifier == x && IsDue(env, prev, p'.details, d) then 1 else 0)
      && forall more | Extends(p'.details, more) && d.identifier == x :: IsDue(env, prev, more, d) == IsDue(env, prev, p'.details, d)
  {
    hide Resolved, Fire;
    if env.entries[x].Some? {
      var e := env.entries[x].value;
      var (c, final) := Opening(env, prev, x, e);
      var own := d.identifier == x && d.key == e.key && d.rule in env.rules;
      assert own ==> (Unfired(prev, d) <==> !final && d.rule !in c.fired);
      if !final && Pending(env, c.fired) {
        ResolvedStays(env, prev.details, p.details, e);
        var (issue, details) := Resolved(env, prev.details, p.details, e);
        if issue.Some? {
          FireExactly(env, env.rules, issue.value, x, c, p.log, d);
        }
      }
    }
  }

  lemma {:induction false} VisitAllExactly(env: Env, prev: ReplayState, order: seq<Identifier>, p: Progress, d: Dispatch)
    requires forall x | x in order :: x in env.entries
    requires forall i, j | 0 <= i < j < |order| :: order[i] != order[j]
    ensures var p' := VisitAll(env, prev, order, p);
      && Extends(p.details, p'.details)
      && Count(p'.log, d) == Count(p.log, d) + if d.identifier in order && IsDue(env, prev, p'.details, d) then 1 else 0
    decreases |order|
  {
    hide VisitIssue, IsDue;
    if order != [] {
      var x := order[0];
      VisitExactly(env, prev, x, p, d);
      assert forall k | 0 <= k < |order[1..]| :: order[1..][k] == order[k + 1] != x;
      VisitAllExactly(env, prev, order[1..], VisitIssue(env, prev, x, p), d);
    }
  }

  /**
    A tick replays a rule for a blocked entry, once, exactly when it is due by the
    detail the tick has of that entry; paused, it replays nothing.
   */
  lemma UnfiredRulesAreReplayed(r: Round, s: ReplayState, d: Dispatch)
    requires IsOrder(r.env, r.order)
    ensures var (s', log, _) := Tick(r.env, s, r.order);
      Count(log, d) == if !r.env.paused && IsDue(r.env, s, s'.details, d) then 1 else 0
  {
    hide VisitAll, Prefetched, IsDue;
    if !r.env.paused {
      VisitAllExactly(r.env, s, r.order, Progress(map[], Prefetched(r.env, s, r.order), [], []), d);
      if d.identifier !in r.order {
        NotDueUnlessBlocked(r.env, s, Tick(r.env, s, r.order).0.details, d);
      }
    }
  }

  lemma NotDueUnlessBlocked(env: Env, s: ReplayState, details: map<IssueId, Detail>, d: Dispatch)
    ensures IsDue(env, s, details, d) ==> d.identifier in env.entries
  {
  }

  // ----- what the next tick knows

  /** Active rules that count as fired before a tick: of a known context its own, of a new one all of them. */
  ghost predicate FiredBefore(env: Env, s: ReplayState, x: Identifier, key: Key, rule: RuleId) {
    rule in env.rules &&
    if x in s.issues && s.issues[x].key == key then rule in s.issues[x].fired else s.initialized
  }

  // The context of a blocked entry after it has been visited.
  ghost predicate Marked(env: Env, s: ReplayState, x: Identifier, issues: map<Identifier, Context>, details: map<IssueId, Detail>) {
    && x in env.entries && env.entries[x].Some? && x in issues && issues[x].key == env.entries[x].value.key
    && forall rule :: rule in issues[x].fired <==>
         FiredBefore(env, s, x, issues[x].key, rule) || IsDue(env, s, details, Dispatch(x, issues[x].key, rule))
  }

  lemma {:induction false} FireMarks(env: Env, rules: seq<RuleId>, issue: Issue, x: Identifier, c: Context, log: seq<Dispatch>, rule: RuleId)
    ensures var c' := Fire(env, rules, issue, x, c, log).0;
      c'.key == c.key && (rule in c'.fired <==>
        rule in c.fired || (rule in rules && env.matches(issue, rule, x) && env.accepts(x, rule)))
    decreases |rules|
  {
    if rules != [] {
      if rules[0] in c.fired || !env.matches(issue, rules[0], x) || !env.accepts(x, rules[0]) {
        FireMarks(env, rules[1..], issue, x, c, log, rule);
      } else {
        FireMarks(env, rules[1..], issue, x, c.(fired := c.fired + {rules[0]}), log + [Dispatch(x, c.key, rules[0])], rule);
      }
    }
  }

  lemma VisitMarks(env: Env, s: ReplayState, x: Identifier, p: Progress, more: map<IssueId, Detail>)
    requires x in env.entries && env.entries[x].Some? && Extends(VisitIssue(env, s, x, p).details, more)
    ensures Marked(env, s, x, VisitIssue(env, s, x, p).issues, more)
  {
    hide Resolved, Fire;
    var e := env.entries[x].value;
    var (c, final) := Opening(env, s, x, e);
    assert forall rule :: rule in c.fired <==> FiredBefore(env, s, x, e.key, rule);
    ResolvedStays(env, s.details, p.details, e);
    var (issue, details) := Resolved(env, s.details, p.details, e);
    if !final && Pending(env, c.fired) && issue.Some? {
      forall rule {
        FireMarks(env, env.rules, issue.value, x, c, p.log, rule);
      }
    }
  }

  function BlockedIn(env: Env, order: seq<Identifier>): set<Identifier>
    requires forall x | x in order :: x in env.entries
  {
    set x | x in order && env.entries[x].Some?
  }

  lemma {:induction false} VisitAllMarks(env: Env, s: ReplayState, order: seq<Identifier>, p: Progress)
    requires forall x | x in order :: x in env.entries && x !in p.issues
    requires forall i, j | 0 <= i < j < |order| :: order[i] != order[j]
    ensures var p' := VisitAll(env, s, order, p);
      && (forall x | x in order && env.entries[x].Some? :: Marked(env, s, x, p'.issues, p'.details))
      && p'.issues.Keys == p.issues.Keys + BlockedIn(env, order)
      && (forall y | y in p.issues :: y in p'.issues && p'.issues[y] == p.issues[y]) && Extends(p.details, p'.details)
    decreases |order|
  {
    hide VisitIssue, Marked, IsDue;
    if order != [] {
      var x, rest := order[0], order[1..];
      var d := Dispatch(x, "", "");
      VisitExactly(env, s, x, p, d);
      VisitAddsItself(env, s, x, p);
      var p1 := VisitIssue(env, s, x, p);
      assert forall k | 0 <= k < |rest| :: rest[k] == order[k + 1] != x;
      VisitAllMarks(env, s, rest, p1);
      var p' := VisitAll(env, s, rest, p1);
      assert order == [x] + rest;
      assert BlockedIn(env, order) == (if env.entries[x].Some? then {x} else {}) + BlockedIn(env, rest);
      if env.entries[x].Some? {
        VisitMarks(env, s, x, p, p'.details);
        MarkStays(env, s, x, p1.issues, p'.issues, p'.details);
      }
    }
  }

  lemma VisitAddsItself(env: Env, s: ReplayState, x: Identifier, p: Progress)
    requires x in env.entries && x !in p.issues
    ensures var p' := VisitIssue(env, s, x, p);
      p'.issues.Keys == p.issues.Keys + (if env.entries[x].Some? then {x} else {}) &&
      forall y | y in p.issues :: y in p'.issues && p'.issues[y] == p.issues[y]
  {
    hide Resolved, Fire;
  }

  lemma MarkStays(env: Env, s: ReplayState, x: Identifier, issues: map<Identifier, Context>, more: map<Identifier, Context>,
                  details: map<IssueId, Detail>)
    requires Marked(env, s, x, issues, details) && x in more && more[x] == issues[x]
    ensures Marked(env, s, x, more, details)
  {
  }

  /**
    The next tick starts from exactly the contexts blocked now. A rule counts as
    fired there if it counted before and is still active, or was replayed now; one
    that did not match or was not accepted is tried again.
   */
  lemma NextContexts(r: Round, s: ReplayState)
    requires IsOrder(r.env, r.order) && !r.env.paused
    ensures var (s', log, _) := Tick(r.env, s, r.order);
      && s'.initialized
      && (forall x :: x in s'.issues <==> x in r.env.entries && r.env.entries[x].Some?)
      && (forall x | x in s'.issues :: s'.issues[x].key == r.env.entries[x].value.key)
      && (forall x, rule | x in s'.issues :: rule in s'.issues[x].fired <==>
            FiredBefore(r.env, s, x, s'.issues[x].key, rule) || Count(log, Dispatch(x, s'.issues[x].key, rule)) == 1)
  {
    hide VisitAll, Prefetched, IsDue, Unfired;
    VisitAllMarks(r.env, s, r.order, Progress(map[], Prefetched(r.env, s, r.order), [], []));
    var (s', log, _) := Tick(r.env, s, r.order);
    forall x, rule | x in s'.issues
      ensures rule in s'.issues[x].fired <==>
        FiredBefore(r.env, s, x, s'.issues[x].key, rule) || Count(log, Dispatch(x, s'.issues[x].key, rule)) == 1
    {
      UnfiredRulesAreReplayed(r, s, Dispatch(x, s'.issues[x].key, rule));
      assert Marked(r.env, s, x, s'.issues, s'.details);
    }
  }

  // ----- where a detail comes from

  // Reused from an earlier tick: fetched less than 60 s ago, for an entry of this issue under its blocked key.
  ghost predicate Reused(env: Env, s: ReplayState, id: IssueId, issue: Issue) {
    && id in s.details && s.details[id].issue == Some(issue) && env.now - s.details[id].fetchedAt < 60000000000
    && exists x :: x in env.entries && env.entries[x].Some? && env.entries[x].value.issueId == id &&
         env.entries[x].value.key == s.details[id].key
  }

  /** Asked for now, alone or with the tick's batch, or reused. */
  ghost predicate ItsOwn(env: Env, s: ReplayState, batch: map<IssueId, Issue>, id: IssueId, issue: Issue) {
    env.fetch(id) == Some(issue) || (id in batch && batch[id] == issue) || Reused(env, s, id, issue)
  }

  ghost predicate AllTheirOwn(env: Env, s: ReplayState, batch: map<IssueId, Issue>, details: map<IssueId, Detail>) {
    forall id | id in details && details[id].issue.Some? :: ItsOwn(env, s, batch, id, details[id].issue.value)
  }

  lemma VisitKeepsOwn(env: Env, s: ReplayState, batch: map<IssueId, Issue>, x: Identifier, p: Progress)
    requires x in env.entries && AllTheirOwn(env, s, batch, p.details)
    ensures AllTheirOwn(env, s, batch, VisitIssue(env, s, x, p).details)
  {
    hide Fire;
    if env.entries[x].Some? {
      var e := env.entries[x].value;
      if e.issueId in s.details && s.details[e.issueId].issue.Some? && s.details[e.issueId].key == e.key &&
         env.now - s.details[e.issueId].fetchedAt < DETAIL_TTL {
        assert Reused(env, s, e.issueId, s.details[e.issueId].issue.value);
      }
    }
  }

  lemma {:induction false} VisitAllKeepsOwn(env: Env, s: ReplayState, batch: map<IssueId, Issue>, order: seq<Identifier>, p: Progress)
    requires (forall x | x in order :: x in env.entries) && AllTheirOwn(env, s, batch, p.details)
    ensures AllTheirOwn(env, s, batch, VisitAll(env, s, order, p).details)
    decreases |order|
  {
    hide VisitIssue, AllTheirOwn;
    if order != [] {
      VisitKeepsOwn(env, s, batch, order[0], p);
      VisitAllKeepsOwn(env, s, batch, order[1..], VisitIssue(env, s, order[0], p));
    }
  }

  lemma {:induction false} SeedsAreTheirOwn(env: Env, s: ReplayState, batch: map<IssueId, Issue>, order: seq<Identifier>,
                                            details: map<IssueId, Detail>)
    requires (forall x | x in order :: x in env.entries) && AllTheirOwn(env, s, batch, details)
    ensures AllTheirOwn(env, s, batch, Seeded(env, batch, order, details))
    decreases |order|
  {
    hide Reused;
    if order != [] {
      var o := env.entries[order[0]];
      SeedsAreTheirOwn(env, s, batch, order[1..],
                       if o.None? || o.value.issueId == "" || o.value.issueId !in batch then details
                       else details[o.value.issueId := Detail(Some(batch[o.value.issueId]), o.value.key, env.now)]);
    }
  }

  // An id the cache does not answer for the entry.
  predicate Unanswered(env: Env, s: ReplayState, e: Entry) {
    e.issueId != "" &&
    !(e.issueId in s.details && s.details[e.issueId].issue.Some? && s.details[e.issueId].key == e.key &&
      env.now - s.details[e.issueId].fetchedAt < 60000000000)
  }

  // Those of all blocked entries.
  function UnansweredIds(env: Env, s: ReplayState): set<IssueId> {
    set x | x in env.entries && env.entries[x].Some? && Unanswered(env, s, env.entries[x].value) :: env.entries[x].value.issueId
  }

  // Those of these blocked entries.
  function UnansweredIn(env: Env, s: ReplayState, order: seq<Identifier>): set<IssueId>
    requires forall x | x in order :: x in env.entries
  {
    set x | x in order && env.entries[x].Some? && Unanswered(env, s, env.entries[x].value) :: env.entries[x].value.issueId
  }

  lemma {:induction false} BatchAsksForUnanswered(env: Env, s: ReplayState, order: seq<Identifier>)
    requires forall x | x in order :: x in env.entries
    ensures Distinct(ReplayIds(env, s, order)) == UnansweredIn(env, s, order)
    decreases |order|
  {
    if order != [] {
      var x, rest := order[0], order[1..];
      BatchAsksForUnanswered(env, s, rest);
      assert order == [x] + rest;
      assert UnansweredIn(env, s, order) == UnansweredIn(env, s, [x]) + UnansweredIn(env, s, rest);
      assert UnansweredIn(env, s, [x]) == Distinct(WantedId(env, s, x)) by {
        assert x in [x];
      }
    }
  }

  /**
    Every detail of a tick is of the issue asked for: fetched now, alone or in a
    batch of the ids the cache does not answer, or fetched less than 60 s ago for
    a blocked entry of that issue with the same key, the entry's own when it is
    the only one of its issue.
   */
  lemma DetailsAreTheirOwn(r: Round, s: ReplayState, id: IssueId)
    requires IsOrder(r.env, r.order) && !r.env.paused
    requires var details := Tick(r.env, s, r.order).0.details; id in details && details[id].issue.Some?
    ensures ItsOwn(r.env, s, r.env.prefetch(UnansweredIds(r.env, s)), id, Tick(r.env, s, r.order).0.details[id].issue.value)
  {
    hide VisitAll, Seeded, ReplayIds, Unanswered, Reused;
    var batch := r.env.prefetch(UnansweredIds(r.env, s));
    BatchAsksForUnanswered(r.env, s, r.order);
    assert UnansweredIn(r.env, s, r.order) == UnansweredIds(r.env, s);
    SeedsAreTheirOwn(r.env, s, batch, r.order, map[]);
    VisitAllKeepsOwn(r.env, s, batch, r.order, Progress(map[], Prefetched(r.env, s, r.order), [], []));
  }

  /**
    Own key is too much to ask when two entries are of one issue: where no batch
    answers, the second takes what the first reuses under its own key.
   */
  lemma SecondEntryTakesTheFirstsDetail(env: Env, s: ReplayState, a: Entry, b: Entry, rule: RuleId, issue: Issue)
    requires a.issueId == b.issueId != "" && a.key != b.key
    requires env.entries == map["a" := Some(a), "b" := Some(b)] && env.rules == [rule] && !env.paused
    requires forall ids :: env.prefetch(ids) == map[]
    requires s.issues == map["a" := Context(a.key, {}), "b" := Context(b.key, {})]
    requires s.details == map[a.issueId := Detail(Some(issue), a.key, env.now)]
    requires env.matches(issue, rule, "b") && env.accepts("b", rule)
    ensures IsOrder(env, ["a", "b"]) && Count(Tick(env, s, ["a", "b"]).1, Dispatch("b", b.key, rule)) == 1
    ensures Tick(env, s, ["a", "b"]).0.details == s.details
  {
    var none: map<IssueId, Issue> := map[];
    var order := ["a", "b"];
    assert order[1..] == ["b"] && order[1..][1..] == [];
    assert env.prefetch(Distinct(ReplayIds(env, s, order))) == none;
    assert Seeded(env, none, [], map[]) == Seeded(env, none, ["b"], map[]) == Seeded(env, none, order, map[]) == map[];
    assert Prefetched(env, s, order) == map[];
    var p0 := Progress(map[], map[], [], []);
    assert rule in env.rules && Pending(env, {});
    assert {} * env.Active() == {};
    var p1 := VisitIssue(env, s, "a", p0);
    assert p1.details == s.details;
    var p2 := VisitIssue(env, s, "b", p1);
    assert p2.details == s.details;
    assert VisitAll(env, s, order, p0) == VisitAll(env, s, ["b"], p1) == VisitAll(env, s, [], p2) == p2;
    UnfiredRulesAreReplayed(Round(env, order), s, Dispatch("b", b.key, rule));
  }

  // ----- all ticks

  /**
    A rule that was already active when the context was first observed, or that
    has been replayed for it, is never replayed for that context again.
   */
  lemma {:induction false} NeverReplayedAgain(s: ReplayState, rounds: seq<Round>, d: Dispatch)
    requires RoundsOk(rounds) && StaysActive(rounds, d.rule)
    requires s.initialized && Spent(s.issues, d)
    ensures Count(Log(s, rounds), d) == 0
    decreases |rounds|
  {
    hide Tick, Spent;
    if rounds != [] {
      assert rounds[0] in rounds;
      TickOnce(rounds[0], s, d);
      var (s', log, _) := Tick(rounds[0].env, s, rounds[0].order);
      NeverReplayedAgain(s', rounds[1..], d);
      CountJoins(log, Log(s', rounds[1..]), d);
    }
  }

  /** Over all ticks, one rule is replayed at most once for one blocked context. */
  lemma {:induction false} ReplayedAtMostOnce(s: ReplayState, rounds: seq<Round>, d: Dispatch)
    requires RoundsOk(rounds) && StaysActive(rounds, d.rule)
    ensures Count(Log(s, rounds), d) <= 1
    decreases |rounds|
  {
    hide Tick, Spent;
    if rounds != [] {
      assert rounds[0] in rounds;
      TickOnce(rounds[0], s, d);
      var (s', log, _) := Tick(rounds[0].env, s, rounds[0].order);
      CountJoins(log, Log(s', rounds[1..]), d);
      if Count(log, d) == 1 {
        NeverReplayedAgain(s', rounds[1..], d);
      } else {
        ReplayedAtMostOnce(s', rounds[1..], d);
      }
    }
  }

  /** A context that first shows up after the first tick is not replayed for the rules then active. */
  lemma NewContextIsNotReplayed(s: ReplayState, rounds: seq<Round>, d: Dispatch)
    requires RoundsOk(rounds) && StaysActive(rounds, d.rule) && s.initialized
    requires d.identifier !in s.issues || s.issues[d.identifier].key != d.key
    ensures Count(Log(s, rounds), d) == 0
  {
    NeverReplayedAgain(s, rounds, d);
  }

  /** "Stays active" is needed: a rule that is removed for one tick is replayed again. */
  lemma RemovedRuleIsReplayedAgain(x: Identifier, e: Entry, rule: RuleId, on: Env)
    requires e.issueId != "" && on.entries == map[x := Some(e)] && on.rules == [rule] && !on.paused
    requires forall ids :: on.prefetch(ids) == map[]
    requires on.fetch(e.issueId).Some? && on.accepts(x, rule)
    requires forall i :: on.matches(i, rule, x)
    ensures var off := on.(rules := []);
      var (s1, log1, _) := Tick(on, START, [x]);
      var (s2, log2, _) := Tick(off, s1, [x]);
      var (s3, log3, _) := Tick(on, s2, [x]);
      log1 == [Dispatch(x, e.key, rule)] && log2 == [] && log3 == [Dispatch(x, e.key, rule)]
  {
    TickAlone(x, e, rule, on, START);
    var off := on.(rules := []);
    var (s1, log1, _) := Tick(on, START, [x]);
    assert [x][1..] == [];
    var (s2, log2, _) := Tick(off, s1, [x]);
    assert off.Active() == {} && !Pending(off, {});
    assert Opening(off, s1, x, e).0 == Context(e.key, {});
    var p := Progress(map[], map[], [], []);
    assert VisitAll(off, s1, [x], p) == VisitAll(off, s1, [], VisitIssue(off, s1, x, p));
    assert s2.issues[x] == Context(e.key, {});
    TickAlone(x, e, rule, on, s2);
  }

  // A tick over one issue whose only rule has not fired.
  lemma TickAlone(x: Identifier, e: Entry, rule: RuleId, on: Env, s: ReplayState)
    requires e.issueId != "" && on.entries == map[x := Some(e)] && on.rules == [rule] && !on.paused
    requires forall ids :: on.prefetch(ids) == map[]
    requires on.fetch(e.issueId).Some? && on.accepts(x, rule)
    requires forall i :: on.matches(i, rule, x)
    requires s == START || (s.initialized && x in s.issues && s.issues[x] == Context(e.key, {}))
    ensures var (s', log, _) := Tick(on, s, [x]);
      log == [Dispatch(x, e.key, rule)] && s'.initialized && s'.issues == map[x := Context(e.key, {rule})]
  {
    var none: map<IssueId, Issue> := map[];
    assert [x][1..] == [] && [rule][1..] == [];
    assert on.prefetch(Distinct(ReplayIds(on, s, [x]))) == none;
    assert Seeded(on, none, [x], map[]) == Seeded(on, none, [], map[]) == map[];
    var details := Prefetched(on, s, [x]);
    assert details == map[];
    assert rule in on.rules && Pending(on, {});
    var c := Opening(on, s, x, e).0;
    assert c == Context(e.key, {});
    var issue := Resolved(on, s.details, details, e).0;
    assert issue.Some?;
    assert {} + {rule} == {rule} && [] + [Dispatch(x, e.key, rule)] == [Dispatch(x, e.key, rule)];
    assert Fire(on, [rule], issue.value, x, c, [])
        == Fire(on, [], issue.value, x, Context(e.key, {rule}), [Dispatch(x, e.key, rule)]);
    var p := Progress(map[], details, [], []);
    assert VisitAll(on, s, [x], p) == VisitAll(on, s, [], VisitIssue(on, s, x, p));
  }

  // ----- how old a detail can be

  /** Each cached detail carries the time it was fetched. */
  ghost predicate CacheOk(details: map<IssueId, Detail>) {
    forall id | id in details :: details[id].issue.Some? ==> details[id].issue.value.fetchedAt == details[id].fetchedAt
  }

  ghost predicate Fresh(issue: Issue, now: Time) { now - issue.fetchedAt < DETAIL_TTL }

  ghost predicate CacheFresh(details: map<IssueId, Detail>, now: Time) {
    CacheOk(details) && forall id | id in details :: details[id].issue.Some? ==> Fresh(details[id].issue.value, now)
  }

  lemma ResolvedIsFresh(env: Env, prev: map<IssueId, Detail>, next: map<IssueId, Detail>, e: Entry)
    requires env.Honest() && CacheOk(prev) && CacheFresh(next, env.now)
    ensures var (issue, details) := Resolved(env, prev, next, e);
      CacheFresh(details, env.now) && (issue.Some? ==> Fresh(issue.value, env.now))
  {
  }

  lemma VisitUsesFresh(env: Env, prev: ReplayState, x: Identifier, p: Progress)
    requires env.Honest() && x in env.entries && CacheOk(prev.details) && CacheFresh(p.details, env.now)
    requires forall i | i in p.used :: Fresh(i, env.now)
    ensures var p' := VisitIssue(env, prev, x, p);
      CacheFresh(p'.details, env.now) && forall i | i in p'.used :: Fresh(i, env.now)
  {
    hide Resolved, Fire, Fresh, CacheOk, CacheFresh;
    if env.entries[x].Some? {
      var e := env.entries[x].value;
      ResolvedIsFresh(env, prev.details, p.details, e);
      var issue := Resolved(env, prev.details, p.details, e).0;
      if issue.Some? {
        assert forall i | i in p.used + [issue.value] :: i in p.used || i == issue.value;
      }
    }
  }

  lemma {:induction false} VisitAllUsesFresh(env: Env, prev: ReplayState, order: seq<Identifier>, p: Progress)
    requires env.Honest() && (forall x | x in order :: x in env.entries)
    requires CacheOk(prev.details) && CacheFresh(p.details, env.now) && forall i | i in p.used :: Fresh(i, env.now)
    ensures var p' := VisitAll(env, prev, order, p);
      CacheFresh(p'.details, env.now) && forall i | i in p'.used :: Fresh(i, env.now)
    decreases |order|
  {
    hide VisitIssue, Fresh, CacheOk, CacheFresh;
    if order != [] {
      VisitUsesFresh(env, prev, order[0], p);
      VisitAllUsesFresh(env, prev, order[1..], VisitIssue(env, prev, order[0], p));
    }
  }

  lemma {:induction false} SeedsAreFresh(env: Env, got: map<IssueId, Issue>, order: seq<Identifier>, details: map<IssueId, Detail>)
    requires (forall x | x in order :: x in env.entries) && CacheFresh(details, env.now)
    requires forall id | id in got :: got[id].fetchedAt == env.now
    ensures CacheFresh(Seeded(env, got, order, details), env.now)
    decreases |order|
  {
    if order != [] {
      var o := env.entries[order[0]];
      SeedsAreFresh(env, got, order[1..],
                    if o.None? || o.value.issueId == "" || o.value.issueId !in got then details
                    else details[o.value.issueId := Detail(Some(got[o.value.issueId]), o.value.key, env.now)]);
    }
  }

  /**
    Every detail a tick uses was fetched less than 60 seconds before it, and
    what it caches carries its own fetch time, promoted entries included.
   */
  lemma TickUsesFreshDetails(r: Round, s: ReplayState)
    requires IsOrder(r.env, r.order) && r.env.Honest() && CacheOk(s.details)
    ensures var (s', _, used) := Tick(r.env, s, r.order);
      CacheOk(s'.details) && forall i | i in used :: Fresh(i, r.env.now)
  {
    hide VisitAll, Seeded, Fresh;
    var none: map<IssueId, Detail> := map[];
    assert CacheFresh(none, r.env.now);
    SeedsAreFresh(r.env, r.env.prefetch(Distinct(ReplayIds(r.env, s, r.order))), r.order, none);
    VisitAllUsesFresh(r.env, s, r.order, Progress(map[], Prefetched(r.env, s, r.order), [], []));
  }

  /** So it is at every tick of every run. */
  lemma {:induction false} AllDetailsAreFresh(s: ReplayState, rounds: seq<Round>, k: nat)
    requires RoundsOk(rounds) && CacheOk(s.details) && k < |rounds|
    ensures IsOrder(rounds[k].env, rounds[k].order) &&
      forall i | i in Tick(rounds[k].env, StateBefore(s, rounds, k), rounds[k].order).2 :: Fresh(i, rounds[k].env.now)
    decreases |rounds|
  {
    hide Tick, CacheOk, Fresh, IsOrder;
    assert rounds[0] in rounds && rounds[k] in rounds;
    TickUsesFreshDetails(rounds[0], s);
    if k > 0 {
      AllDetailsAreFresh(Tick(rounds[0].env, s, rounds[0].order).0, rounds[1..], k - 1);
    }
  }

  ghost function StateBefore(s: ReplayState, rounds: seq<Round>, k: nat): ReplayState
    requires RoundsOk(rounds) && k < |rounds|
    decreases |rounds|
  {
    assert rounds[0] in rounds;
    if k == 0 then s else StateBefore(Tick(rounds[0].env, s, rounds[0].order).0, rounds[1..], k - 1)
  }
}
