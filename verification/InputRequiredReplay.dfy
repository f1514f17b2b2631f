/**
  The input-required replay (cmd/itervox/automations_input_required.go): every
  automation tick it dispatches, for each blocked issue, the rules that have not
  fired yet for its blocked context. The tracker's and the orchestrator's
  answers are the parameters in `Env`.
 */
module InputRequiredReplay {
  import opened Bytes

  type Time = int
  const DETAIL_TTL: Time := 60000000000

  type Identifier = string
  type IssueId = string
  type RuleId = string
  type Key = string

  // A fetched issue; `fetchedAt` is when the tracker gave it.
  datatype Issue = Issue(id: IssueId, fetchedAt: Time, labels: seq<string>)

  // `identifier` is the entry's own; the entries are kept under one too.
  datatype Entry = Entry(issueId: IssueId, identifier: Identifier, key: Key)

  datatype Detail = Detail(issue: Option<Issue>, key: Key, fetchedAt: Time)

  datatype Context = Context(key: Key, fired: set<RuleId>)

  datatype ReplayState = ReplayState(
    initialized: bool, issues: map<Identifier, Context>, details: map<IssueId, Detail>)

  const START: ReplayState := ReplayState(false, map[], map[])

  datatype Env = Env(
    now: Time, paused: bool,
    entries: map<Identifier, Option<Entry>>,      // the blocked issues; an entry may be nil
    rules: seq<RuleId>,
    prefetch: set<IssueId> -> map<IssueId, Issue>,   // one request for several ids
    fetch: IssueId -> Option<Issue>,
    fetchByIdentifier: Identifier -> Option<Issue>,
    matches: (Issue, RuleId, Identifier) -> bool,
    accepts: (Identifier, RuleId) -> bool)
  {
    // Whatever the tracker returns now was fetched now.
    ghost predicate Honest() {
      && (forall ids, id :: id in prefetch(ids) ==> prefetch(ids)[id].fetchedAt == now)
      && (forall id :: fetch(id).Some? ==> fetch(id).value.fetchedAt == now)
      && (forall x :: fetchByIdentifier(x).Some? ==> fetchByIdentifier(x).value.fetchedAt == now)
    }

    function Active(): set<RuleId> { set r | r in rules }
  }

  datatype Dispatch = Dispatch(identifier: Identifier, key: Key, rule: RuleId)

  // ----- the detail cache

  /** Whether the two-tier cache answers, and with what. */
  function DetailCached(prev: map<IssueId, Detail>, next: map<IssueId, Detail>, id: IssueId, key: Key, now: Time)
    : Option<Option<Issue>>
  {
    if id in next then Some(next[id].issue)
    else if id in prev && prev[id].issue.Some? && prev[id].key == key && now - prev[id].fetchedAt < DETAIL_TTL
    then Some(prev[id].issue)
    else None
  }

  /** The detail of a blocked entry, and the cache after resolving it. */
  function Resolved(env: Env, prev: map<IssueId, Detail>, next: map<IssueId, Detail>, e: Entry)
    : (Option<Issue>, map<IssueId, Detail>)
  {
    if e.issueId != "" then
      match DetailCached(prev, next, e.issueId, e.key, env.now)
      case Some(issue) => (issue, if e.issueId in next then next else next[e.issueId := prev[e.issueId]])
      case None =>
        var issue := env.fetch(e.issueId);
        (issue, next[e.issueId := Detail(issue, e.key, env.now)])
    else if e.identifier == "" then (None, next)
    else (env.fetchByIdentifier(e.identifier), next)
  }

  // ----- one tick

  // What a tick has built so far: the next state, the dispatches, the details used.
  datatype Progress = Progress(
    issues: map<Identifier, Context>, details: map<IssueId, Detail>, log: seq<Dispatch>, used: seq<Issue>)

  function Fire(env: Env, rules: seq<RuleId>, issue: Issue, x: Identifier, c: Context, log: seq<Dispatch>)
    : (Context, seq<Dispatch>)
  {
    if rules == [] then (c, log)
    else if rules[0] in c.fired || !env.matches(issue, rules[0], x) || !env.accepts(x, rules[0])
    then Fire(env, rules[1..], issue, x, c, log)
    else Fire(env, rules[1..], issue, x, c.(fired := c.fired + {rules[0]}), log + [Dispatch(x, c.key, rules[0])])
  }

  predicate Pending(env: Env, fired: set<RuleId>) { exists r | r in env.rules :: r !in fired }

  /** The context an issue starts the tick with; it is final when the context is new. */
  function Opening(env: Env, prev: ReplayState, x: Identifier, e: Entry): (Context, bool) {
    if x in prev.issues && prev.issues[x].key == e.key then
      (Context(e.key, prev.issues[x].fired * env.Active()), false)
    else if prev.initialized then (Context(e.key, env.Active()), true)
    else (Context(e.key, {}), false)
  }

  function VisitIssue(env: Env, prev: ReplayState, x: Identifier, p: Progress): Progress
    requires x in env.entries
  {
    if env.entries[x].None? then p
    else
      var e := env.entries[x].value;
      var (c, final) := Opening(env, prev, x, e);
      if final || !Pending(env, c.fired) then p.(issues := p.issues[x := c])
      else
        var (issue, details) := Resolved(env, prev.details, p.details, e);
        if issue.None? then p.(issues := p.issues[x := c], details := details)
        else
          var (c', log) := Fire(env, env.rules, issue.value, x, c, p.log);
          Progress(p.issues[x := c'], details, log, p.used + [issue.value])
  }

  function VisitAll(env: Env, prev: ReplayState, order: seq<Identifier>, p: Progress): Progress
    requires forall x | x in order :: x in env.entries
    decreases |order|
  {
    if order == [] then p else VisitAll(env, prev, order[1..], VisitIssue(env, prev, order[0], p))
  }

  // The issue ids worth a request: those the cache does not answer.
  function ReplayIds(env: Env, prev: ReplayState, order: seq<Identifier>): seq<IssueId>
    requires forall x | x in order :: x in env.entries
    decreases |order|
  {
    if order == [] then [] else WantedId(env, prev, order[0]) + ReplayIds(env, prev, order[1..])
  }

  // The id, if any, that one blocked entry asks for.
  function WantedId(env: Env, prev: ReplayState, x: Identifier): seq<IssueId>
    requires x in env.entries
  {
    var o := env.entries[x];
    if o.None? || o.value.issueId == "" ||
       DetailCached(prev.details, map[], o.value.issueId, o.value.key, env.now).Some?
    then [] else [o.value.issueId]
  }

  // uniqueIssueIDs
  function Distinct(ids: seq<IssueId>): set<IssueId> { set id | id in ids }

  // Only ids the batch returned are seeded.
  function Seeded(env: Env, got: map<IssueId, Issue>, order: seq<Identifier>, details: map<IssueId, Detail>)
    : map<IssueId, Detail>
    requires forall x | x in order :: x in env.entries
    decreases |order|
  {
    if order == [] then details
    else
      var o := env.entries[order[0]];
      Seeded(env, got, order[1..],
             if o.None? || o.value.issueId == "" || o.value.issueId !in got then details
             else details[o.value.issueId := Detail(Some(got[o.value.issueId]), o.value.key, env.now)])
  }

  predicate IsOrder(env: Env, order: seq<Identifier>) {
    && (forall x | x in order :: x in env.entries)
    && (forall x | x in env.entries :: x in order)
    && (forall i, j | 0 <= i < j < |order| :: order[i] != order[j])
  }

  function Prefetched(env: Env, prev: ReplayState, order: seq<Identifier>): map<IssueId, Detail>
    requires forall x | x in order :: x in env.entries
  {
    if env.rules == [] then map[] else Seeded(env, env.prefetch(Distinct(ReplayIds(env, prev, order))), order, map[])
  }

  /** The next state, the dispatches of the tick, and the details its rules were matched against. */
  function Tick(env: Env, prev: ReplayState, order: seq<Identifier>): (ReplayState, seq<Dispatch>, seq<Issue>)
    requires IsOrder(env, order)
  {
    if env.paused then (prev, [], [])
    else
      var p := VisitAll(env, prev, order, Progress(map[], Prefetched(env, prev, order), [], []));
      (ReplayState(true, p.issues, p.details), p.log, p.used)
  }

  // ----- the tick as the source runs it

  class Orchestrator {
    var log: seq<Dispatch>

    method DispatchAutomation(env: Env, d: Dispatch) returns (accepted: bool)
      modifies this
      ensures accepted == env.accepts(d.identifier, d.rule)
      ensures log == if accepted then old(log) + [d] else old(log)
    {
      accepted := env.accepts(d.identifier, d.rule);
      if accepted {
        log := log + [d];
      }
    }
  }

  method IdsToFetch(env: Env, prev: ReplayState, order: seq<Identifier>) returns (ids: seq<IssueId>)
    requires forall x | x in order :: x in env.entries
    ensures ids == ReplayIds(env, prev, order)
  {
    ids := [];
    for i := 0 to |order|
      invariant ReplayIds(env, prev, order) == ids + ReplayIds(env, prev, order[i..])
    {
      hide DetailCached;
      IdsStep(env, prev, order, i, ids);
      var o := env.entries[order[i]];
      if o.None? || o.value.issueId == "" {
        continue;
      }
      var cached := DetailCached(prev.details, map[], o.value.issueId, o.value.key, env.now);
      if cached.Some? {
        continue;
      }
      ids := ids + [o.value.issueId];
    }
  }

  lemma IdsStep(env: Env, prev: ReplayState, order: seq<Identifier>, i: nat, ids: seq<IssueId>)
    requires i < |order| && forall x | x in order :: x in env.entries
    ensures ids + ReplayIds(env, prev, order[i..])
         == (ids + WantedId(env, prev, order[i])) + ReplayIds(env, prev, order[i + 1..])
    ensures ids + [] == ids
  {
    hide WantedId;
    assert order[i..][1..] == order[i + 1..];
    assert ReplayIds(env, prev, order[i..]) == WantedId(env, prev, order[i]) + ReplayIds(env, prev, order[i + 1..]);
  }

  method Seed(env: Env, got: map<IssueId, Issue>, order: seq<Identifier>) returns (details: map<IssueId, Detail>)
    requires forall x | x in order :: x in env.entries
    ensures details == Seeded(env, got, order, map[])
  {
    details := map[];
    for i := 0 to |order|
      invariant Seeded(env, got, order, map[]) == Seeded(env, got, order[i..], details)
    {
      assert order[i..][1..] == order[i + 1..];
      var o := env.entries[order[i]];
      if o.None? || o.value.issueId == "" || o.value.issueId !in got {
        continue;
      }
      details := details[o.value.issueId := Detail(Some(got[o.value.issueId]), o.value.key, env.now)];
    }
  }

  method ReplayInputRequiredAutomations(orch: Orchestrator, env: Env, order: seq<Identifier>, prev: ReplayState)
    returns (next: ReplayState, ghost used: seq<Issue>)
    requires IsOrder(env, order)
    modifies orch
    ensures var (s, log, us) := Tick(env, prev, order);
      next == s && orch.log == old(orch.log) + log && used == us
  {
    hide VisitIssue, Seeded, ReplayIds;
    used := [];
    if env.paused {
      assert orch.log == old(orch.log) + [];
      return prev, [];
    }
    var issues: map<Identifier, Context> := map[];
    var details: map<IssueId, Detail> := map[];
    if |env.rules| > 0 {
      var ids := IdsToFetch(env, prev, order);
      details := Seed(env, env.prefetch(Distinct(ids)), order);
    }
    ghost var base := orch.log;
    ghost var start := Progress(map[], details, [], []);
    ghost var log: seq<Dispatch> := [];
    for i := 0 to |order|
      invariant orch.log == base + log
      invariant VisitAll(env, prev, order, start)
             == VisitAll(env, prev, order[i..], Progress(issues, details, log, used))
    {
      assert order[i..][0] == order[i] && order[i..][1..] == order[i + 1..];
      issues, details, log, used := Visit(orch, env, prev, order[i], issues, details, base, log, used);
    }
    next := ReplayState(true, issues, details);
  }

  // One blocked issue of the tick.
  method Visit(orch: Orchestrator, env: Env, prev: ReplayState, x: Identifier,
               issues0: map<Identifier, Context>, details0: map<IssueId, Detail>,
               ghost base: seq<Dispatch>, ghost log0: seq<Dispatch>, ghost used0: seq<Issue>)
    returns (issues: map<Identifier, Context>, details: map<IssueId, Detail>, ghost log: seq<Dispatch>, ghost used: seq<Issue>)
    requires x in env.entries && orch.log == base + log0
    modifies orch
    ensures orch.log == base + log
    ensures Progress(issues, details, log, used) == VisitIssue(env, prev, x, Progress(issues0, details0, log0, used0))
  {
    hide Fire, Resolved;
    issues, details, log, used := issues0, details0, log0, used0;
    if env.entries[x].None? {
      return;
    }
    var e := env.entries[x].value;
    var c := Context(e.key, {});
    if x in prev.issues && prev.issues[x].key == e.key {
      c := Context(e.key, prev.issues[x].fired * env.Active());
    } else if prev.initialized {
      issues := issues[x := Context(e.key, env.Active())];
      return;
    }
    var pending := HasPending(env, c.fired);
    if !pending {
      issues := issues[x := c];
      return;
    }
    var issue: Option<Issue>;
    issue, details := IssueDetail(env, prev.details, details, e);
    if issue.None? {
      issues := issues[x := c];
      return;
    }
    used := used + [issue.value];
    c, log := FireRules(orch, env, issue.value, x, c, base, log);
    issues := issues[x := c];
  }

  method HasPending(env: Env, fired: set<RuleId>) returns (pending: bool)
    ensures pending == Pending(env, fired)
  {
    for i := 0 to |env.rules|
      invariant forall k | 0 <= k < i :: env.rules[k] in fired
    {
      if env.rules[i] !in fired {
        return true;
      }
    }
    return false;
  }

  method IssueDetail(env: Env, prev: map<IssueId, Detail>, next0: map<IssueId, Detail>, e: Entry)
    returns (issue: Option<Issue>, next: map<IssueId, Detail>)
    ensures (issue, next) == Resolved(env, prev, next0, e)
  {
    next := next0;
    if e.issueId != "" {
      var hit := DetailCached(prev, next, e.issueId, e.key, env.now);
      if hit.Some? {
        if e.issueId !in next {
          next := next[e.issueId := prev[e.issueId]];
        }
        return hit.value, next;
      }
      issue := env.fetch(e.issueId);
      next := next[e.issueId := Detail(issue, e.key, env.now)];
      return;
    }
    if e.identifier == "" {
      return None, next;
    }
    issue := env.fetchByIdentifier(e.identifier);
  }

  method FireRules(orch: Orchestrator, env: Env, issue: Issue, x: Identifier, c0: Context, ghost base: seq<Dispatch>,
                   ghost log0: seq<Dispatch>)
    returns (c: Context, ghost log: seq<Dispatch>)
    requires orch.log == base + log0
    modifies orch
    ensures orch.log == base + log && (c, log) == Fire(env, env.rules, issue, x, c0, log0)
  {
    c := c0;
    log := log0;
    for i := 0 to |env.rules|
      invariant orch.log == base + log && c.key == c0.key
      invariant Fire(env, env.rules, issue, x, c0, log0) == Fire(env, env.rules[i..], issue, x, c, log)
    {
      assert env.rules[i..][1..] == env.rules[i + 1..];
      var rule := env.rules[i];
      if rule in c.fired {
        continue;
      }
      if !env.matches(issue, rule, x) {
        continue;
      }
      var accepted := orch.DispatchAutomation(env, Dispatch(x, c.key, rule));
      if accepted {
        c := c.(fired := c.fired + {rule});
        log := log + [Dispatch(x, c.key, rule)];
      }
    }
  }
}
