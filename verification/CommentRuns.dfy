/**
  Whole runs of the comment-command handler: polls, failed saves, crashes at any
  point, and restarts. A step is one comment's record and save, one action, one
  cursor save; a crash may come between any two. The functions are those the
  handler's methods compute.
 */
module CommentRuns {
  import opened Bytes
  import opened CommentLedger

  datatype Phase =
    | Down
    | Idle
    | Polling(p: Progress, rest: seq<Comment>, retried: set<CommentId>)
    | Acting(c: Comment, p: Progress, rest: seq<Comment>, retried: set<CommentId>)

  /**
    `owed` remembers, for the theorems, the comments that were left for a later
    poll and have since been neither recorded nor passed over by a whole poll.
   */
  datatype System = System(w: World, phase: Phase, owed: set<CommentId>)

  datatype Event =
    | Start(now: Time)
    | BeginPoll(listed: seq<Comment>)
    | Visit(answers: Answers)
    | Act
    | EndPoll(saved: bool)
    | Crash

  predicate Enabled(s: System, e: Event) {
    match e
    case Start(_) => s.phase.Down?
    case BeginPoll(_) => s.phase.Idle?
    case Visit(_) => s.phase.Polling? && s.phase.rest != []
    case Act => s.phase.Acting?
    case EndPoll(_) => s.phase.Polling? && s.phase.rest == []
    case Crash => true
  }

  function Step(s: System, e: Event): System
    requires Enabled(s, e)
  {
    match e
    case Start(now) =>
      System(s.w.(mem := Loaded(s.w.disk, now)), Idle, if s.w.disk.Some? then s.owed else {})
    case BeginPoll(listed) => s.(phase := Polling(Started(s.w), listed, {}))
    case Visit(a) => StepVisit(s, a)
    case Act => System(Acted(s.w, s.phase.c), Polling(s.phase.p, s.phase.rest, s.phase.retried), s.owed)
    case EndPoll(saved) => System(Finished(s.w, s.phase.p, saved), Idle, s.owed * s.phase.retried)
    case Crash => s.(phase := Down)
  }

  function StepVisit(s: System, a: Answers): System
    requires s.phase.Polling? && s.phase.rest != []
  {
    var Polling(p, rest, retried) := s.phase;
    var c := rest[0];
    if Skips(s.w, p, c) then s.(phase := Polling(Seen(p, c), rest[1..], retried))
    else if Retries(s.w, c, a) then
      System(Handled(s.w, c, a), Polling(RetryNoted(Seen(p, c), c), rest[1..], retried + {c.id}), s.owed + {c.id})
    else
      System(Recorded(s.w, c, true),
             if a.check.Allowed? then Acting(c, Seen(p, c), rest[1..], retried) else Polling(Seen(p, c), rest[1..], retried),
             s.owed - {c.id})
  }

  function Run(s: System, es: seq<Event>): Option<System>
    decreases |es|
  {
    if es == [] then Some(s)
    else if !Enabled(s, es[0]) then None
    else Run(Step(s, es[0]), es[1..])
  }

  // ----- a poll of the handler is a run of these steps

  function PollEvents(w: World, p: Progress, cs: seq<Comment>, answers: seq<Answers>): seq<Event>
    requires |answers| == |cs|
    decreases |cs|
  {
    if cs == [] then []
    else
      [Visit(answers[0])] +
      (if !Skips(w, p, cs[0]) && !Retries(w, cs[0], answers[0]) && answers[0].check.Allowed? then [Act] else []) +
      PollEvents(WorldAfter(w, p, cs[0], answers[0]), ProgressAfter(w, p, cs[0], answers[0]), cs[1..], answers[1..])
  }

  lemma {:induction false} RunJoins(s: System, a: seq<Event>, b: seq<Event>)
    requires Run(s, a).Some?
    ensures Run(s, a + b) == Run(Run(s, a).value, b)
    decreases |a|
  {
    if a == [] {
      assert a + b == b;
    } else {
      assert (a + b)[1..] == a[1..] + b;
      RunJoins(Step(s, a[0]), a[1..], b);
    }
  }

  lemma OneOrTwoSteps(s: System, e: Event, acts: bool)
    requires Enabled(s, e) && (acts ==> Enabled(Step(s, e), Act))
    ensures Run(s, [e] + if acts then [Act] else [])
         == Some(if acts then Step(Step(s, e), Act) else Step(s, e))
  {
    hide Step, Enabled;
    var es := [e] + if acts then [Act] else [];
    assert es[1..] == if acts then [Act] else [];
    if acts {
      assert [Act][1..] == [];
      assert Run(Step(s, e), [Act]) == Run(Step(Step(s, e), Act), []);
    }
  }

  lemma {:induction false} VisitsAreARun(s: System, cs: seq<Comment>, answers: seq<Answers>)
    requires |answers| == |cs| && s.phase.Polling? && s.phase.rest == cs
    ensures var r := Run(s, PollEvents(s.w, s.phase.p, cs, answers));
      var (w, p) := Visited(s.w, s.phase.p, cs, answers);
      r.Some? && r.value.w == w && r.value.phase.Polling? && r.value.phase.p == p && r.value.phase.rest == []
    decreases |cs|
  {
    if cs != [] {
      var c, a := cs[0], answers[0];
      var acts := !Skips(s.w, s.phase.p, c) && !Retries(s.w, c, a) && a.check.Allowed?;
      var first := [Visit(a)] + if acts then [Act] else [];
      var s1 := Step(s, Visit(a));
      var s2 := if acts then Step(s1, Act) else s1;
      OneOrTwoSteps(s, Visit(a), acts);
      VisitsAreARun(s2, cs[1..], answers[1..]);
      RunJoins(s, first, PollEvents(s2.w, s2.phase.p, cs[1..], answers[1..]));
    }
  }

  /** What `Poll` computes is reached by the steps below. */
  lemma PollIsARun(s: System, cs: seq<Comment>, answers: seq<Answers>, lastSave: bool)
    requires |answers| == |cs| && s.phase.Idle?
    ensures var r := Run(s, [BeginPoll(cs)] + PollEvents(s.w, Started(s.w), cs, answers) + [EndPoll(lastSave)]);
      r.Some? && r.value.phase.Idle? && r.value.w == Polled(s.w, cs, answers, lastSave)
  {
    var s1 := Step(s, BeginPoll(cs));
    var visits := PollEvents(s.w, Started(s.w), cs, answers);
    VisitsAreARun(s1, cs, answers);
    var s2 := Run(s1, visits).value;
    assert Run(s, [BeginPoll(cs)] + visits) == Some(s2) by {
      assert ([BeginPoll(cs)] + visits)[1..] == visits;
    }
    RunJoins(s, [BeginPoll(cs)] + visits, [EndPoll(lastSave)]);
    assert [EndPoll(lastSave)][1..] == [];
  }

  // ----- at most once

  ghost predicate Distinct(ids: seq<CommentId>) {
    forall i, j | 0 <= i < j < |ids| :: ids[i] != ids[j]
  }

  /** Each comment acted on is on record or before the window. */
  ghost predicate Covers(l: Ledger, acted: seq<CommentId>, created: CommentId -> Time) {
    forall id | id in acted :: id in l.handled || created(id) < WindowStart(l)
  }

  ghost predicate TimesRight(l: Ledger, created: CommentId -> Time) {
    forall id | id in l.handled :: l.handled[id] == created(id)
  }

  ghost predicate LedgerOk(l: Ledger, acted: seq<CommentId>, created: CommentId -> Time) {
    TimesRight(l, created) && Covers(l, acted, created)
  }

  ghost predicate CommentsOk(cs: seq<Comment>, created: CommentId -> Time) {
    forall c | c in cs :: c.createdAt == created(c.id)
  }

  ghost predicate EventOk(e: Event, created: CommentId -> Time) {
    e.BeginPoll? ==> CommentsOk(e.listed, created)
  }

  ghost predicate PollOk(w: World, p: Progress, rest: seq<Comment>, created: CommentId -> Time) {
    p.windowStart == WindowStart(w.mem.ledger) && p.latest >= w.mem.ledger.cursor && CommentsOk(rest, created)
  }

  ghost predicate WorldOk(w: World, up: bool, created: CommentId -> Time) {
    && Distinct(w.acted)
    && (w.disk.None? ==> w.acted == [])
    && (w.disk.Some? ==> LedgerOk(w.disk.value, w.acted, created))
    && (up ==> LedgerOk(w.mem.ledger, w.acted, created))
    && (up && w.disk.Some? ==>
          w.disk.value.cursor <= w.mem.ledger.cursor && w.disk.value.floor == w.mem.ledger.floor &&
          forall id | id in w.disk.value.handled && created(id) >= WindowStart(w.mem.ledger) :: id in w.mem.ledger.handled)
  }

  ghost predicate Inv(s: System, created: CommentId -> Time) {
    && WorldOk(s.w, !s.phase.Down?, created)
    && (s.phase.Polling? || s.phase.Acting? ==> PollOk(s.w, s.phase.p, s.phase.rest, created))
    && (s.phase.Acting? ==>
          var id := s.phase.c.id;
          id in s.w.mem.ledger.handled && s.w.disk.Some? && id in s.w.disk.value.handled && id !in s.w.acted)
  }

  // A record just made is inside the window, so its own save keeps it.
  lemma RecordIsKept(w: World, c: Comment, created: CommentId -> Time)
    requires WorldOk(w, true, created) && c.createdAt == created(c.id)
    requires c.id !in w.mem.ledger.handled && c.createdAt >= WindowStart(w.mem.ledger)
    ensures WorldOk(Recorded(w, c, true), true, created) && WorldOk(Recorded(w, c, false), true, created)
    ensures c.id in Recorded(w, c, true).mem.ledger.handled
    ensures Recorded(w, c, true).disk == Some(Recorded(w, c, true).mem.ledger)
    ensures c.id !in w.acted
  {
  }

  lemma SaveKeepsWorld(w: World, saved: bool, created: CommentId -> Time)
    requires WorldOk(w, true, created)
    ensures WorldOk(Saved(w, saved), true, created)
  {
  }

  lemma VisitKeepsInv(s: System, a: Answers, created: CommentId -> Time)
    requires Inv(s, created) && s.phase.Polling? && s.phase.rest != []
    ensures Inv(StepVisit(s, a), created)
  {
    hide WorldOk, Recorded;
    var c, p := s.phase.rest[0], s.phase.p;
    assert c in s.phase.rest;
    assert CommentsOk(s.phase.rest[1..], created);
    if !Skips(s.w, p, c) {
      if Defers(s.w, c, a) {
        DeferKeepsWorld(s.w, c, created);
      } else {
        RecordIsKept(s.w, c, created);
        RecordKeepsWindow(s.w, c, a.saved);
      }
    }
  }

  lemma DeferKeepsWorld(w: World, c: Comment, created: CommentId -> Time)
    requires WorldOk(w, true, created)
    ensures WorldOk(Deferred(w, c), true, created)
  {
  }

  lemma RecordKeepsWindow(w: World, c: Comment, saved: bool)
    ensures Recorded(w, c, saved).mem.ledger.cursor == w.mem.ledger.cursor
    ensures Recorded(w, c, saved).mem.ledger.floor == w.mem.ledger.floor
    ensures Recorded(w, c, saved).acted == w.acted
  {
  }

  lemma StepKeepsInv(s: System, e: Event, created: CommentId -> Time)
    requires Inv(s, created) && Enabled(s, e) && EventOk(e, created)
    ensures Inv(Step(s, e), created)
  {
    match e
    case Start(now) =>
    case BeginPoll(listed) =>
    case Visit(a) =>
      VisitKeepsInv(s, a, created);
    case Act =>
    case EndPoll(saved) =>
      var l := s.w.mem.ledger;
      var w := s.w.(mem := s.w.mem.(ledger := l.(cursor := NextCursor(l.cursor, s.phase.p))));
      assert WorldOk(w, true, created);
      SaveKeepsWorld(w, saved, created);
    case Crash =>
  }

  ghost predicate Initial(s: System, created: CommentId -> Time) {
    s.phase.Down? && s.w.acted == [] && s.owed == {} &&
    (s.w.disk.Some? ==> TimesRight(s.w.disk.value, created))
  }

  lemma {:induction false} RunKeepsInv(s: System, es: seq<Event>, created: CommentId -> Time)
    requires Inv(s, created) && Run(s, es).Some? && forall e | e in es :: EventOk(e, created)
    ensures Inv(Run(s, es).value, created)
    decreases |es|
  {
    if es != [] {
      StepKeepsInv(s, es[0], created);
      RunKeepsInv(Step(s, es[0]), es[1..], created);
    }
  }

  /** No run, whatever crashes and restarts it holds, acts on a comment twice. */
  lemma AtMostOnce(s: System, es: seq<Event>, created: CommentId -> Time)
    requires Initial(s, created) && Run(s, es).Some? && forall e | e in es :: EventOk(e, created)
    ensures Distinct(Run(s, es).value.w.acted)
  {
    RunKeepsInv(s, es, created);
  }

  // ----- the window never moves back

  lemma WindowNeverMovesBack(s: System, e: Event, created: CommentId -> Time)
    requires Inv(s, created) && Enabled(s, e) && EventOk(e, created)
    ensures s.w.disk.Some? ==>
      var s' := Step(s, e);
      s'.w.disk.Some? && s'.w.disk.value.cursor >= s.w.disk.value.cursor && s'.w.disk.value.floor == s.w.disk.value.floor
    ensures !s.phase.Down? && !e.Crash? ==>
      Step(s, e).w.mem.ledger.cursor >= s.w.mem.ledger.cursor &&
      WindowStart(Step(s, e).w.mem.ledger) >= WindowStart(s.w.mem.ledger)
  {
  }

  // ----- no command is lost

  ghost predicate Kept(l: Ledger, id: CommentId, created: CommentId -> Time) {
    created(id) >= WindowStart(l) && id !in l.handled
  }

  // A comment created at the zero time reads as no comment to retry.
  ghost predicate NoneAtZero(cs: seq<Comment>) { forall c | c in cs :: c.createdAt != ZERO_TIME }

  ghost predicate ListsNoZero(e: Event) { e.BeginPoll? ==> NoneAtZero(e.listed) }

  /** An owed comment is unrecorded and inside every window: in memory and on disk. */
  ghost predicate OwedInv(s: System, created: CommentId -> Time) {
    && (forall id | id in s.owed ::
          (!s.phase.Down? ==> Kept(s.w.mem.ledger, id, created)) &&
          (s.w.disk.Some? ==> Kept(s.w.disk.value, id, created)))
    && (s.phase.Polling? || s.phase.Acting? ==>
          s.phase.p.retryFrom == ZERO_TIME || s.phase.p.retryFrom >= s.phase.p.windowStart)
    && (s.phase.Polling? || s.phase.Acting? ==>
          forall id | id in s.phase.retried :: s.phase.p.retryFrom != ZERO_TIME && s.phase.p.retryFrom <= created(id))
    && (s.phase.Polling? || s.phase.Acting? ==> s.phase.p.retryFrom <= s.phase.p.latest || s.phase.p.retryFrom == ZERO_TIME)
    && (s.phase.Polling? || s.phase.Acting? ==> NoneAtZero(s.phase.rest))
  }

  lemma StepKeepsOwed(s: System, e: Event, created: CommentId -> Time)
    requires Inv(s, created) && OwedInv(s, created) && Enabled(s, e) && EventOk(e, created) && ListsNoZero(e)
    ensures OwedInv(Step(s, e), created)
  {
    match e
    case Start(now) =>
    case BeginPoll(listed) =>
    case Visit(a) =>
      var c := s.phase.rest[0];
      assert c in s.phase.rest;
    case Act =>
    case EndPoll(saved) =>
    case Crash =>
  }

  /**
    After any run whose polls list no comment of the zero time, a comment left
    for a later poll is still unrecorded and inside the next window, of this
    process and of one started from the file.
   */
  lemma {:induction false} NothingOwedIsLost(s: System, es: seq<Event>, created: CommentId -> Time)
    requires Inv(s, created) && OwedInv(s, created) && Run(s, es).Some?
    requires forall e | e in es :: EventOk(e, created) && ListsNoZero(e)
    ensures OwedInv(Run(s, es).value, created)
    decreases |es|
  {
    if es != [] {
      StepKeepsInv(s, es[0], created);
      StepKeepsOwed(s, es[0], created);
      NothingOwedIsLost(Step(s, es[0]), es[1..], created);
    }
  }

  /** So when it is listed again as a command, the poll looks at it. */
  lemma OwedIsLookedAt(s: System, c: Comment, created: CommentId -> Time)
    requires Inv(s, created) && OwedInv(s, created) && s.phase.Polling?
    requires c.id in s.owed && c.createdAt == created(c.id)
    ensures Skips(s.w, s.phase.p, c) <==> c.managed || c.onPullRequest || !c.isCommand
  {
  }

  /**
    A restart without a ledger file starts from now: a comment owed until then
    stays in the window exactly when it was created no earlier.
   */
  lemma RestartWithoutLedger(s: System, now: Time, id: CommentId, created: CommentId -> Time)
    requires s.phase.Down? && s.w.disk.None? && now > ZERO_TIME
    ensures Kept(Step(s, Start(now)).w.mem.ledger, id, created) <==> created(id) >= now
  {
  }

  /**
    The condition is needed. When the earliest retry of a poll is of the zero
    time, the poll ends as if there were none, and any comment inside its window
    is outside the next one exactly when the cursor or a listed comment is more
    than the overlap after it. Else it is so when the retry time is.
   */
  lemma RetriedAtZeroIsLost(s: System, id: CommentId, saved: bool, created: CommentId -> Time)
    requires Inv(s, created) && s.phase.Polling? && s.phase.rest == []
    requires created(id) >= s.phase.p.windowStart
    ensures var p := s.phase.p;
      var end := if p.retryFrom == ZERO_TIME || p.latest <= p.retryFrom then p.latest
                 else Later(p.retryFrom, s.w.mem.ledger.cursor);
      created(id) < WindowStart(Step(s, EndPoll(saved)).w.mem.ledger) <==> end > created(id) + OVERLAP
  {
  }

  /**
    A whole poll that loses two comments so: one of the zero time, and one that
    was to be retried before it. The third is only listed.
   */
  lemma ZeroTimeIsLost(w: World, other: Comment, zero: Comment, later: Comment)
    requires WindowStart(w.mem.ledger) <= ZERO_TIME && w.mem.ledger.cursor >= ZERO_TIME
    requires zero.createdAt == ZERO_TIME && other.createdAt > ZERO_TIME && other.id != zero.id
    requires forall c | c == other || c == zero ::
      && !c.managed && !c.onPullRequest && c.isCommand
      && c.id !in w.mem.ledger.handled && FailureCount(w.mem, c.id) == 0
    requires later.managed && later.createdAt > other.createdAt + OVERLAP && later.createdAt > w.mem.ledger.cursor
    ensures var failed := Answers(CheckFailed, true);
      var w' := Polled(w, [other, zero, later], [failed, failed, failed], true);
      && Retries(w, other, failed) && Retries(Handled(w, other, failed), zero, failed)
      && w'.acted == w.acted && other.createdAt < WindowStart(w'.mem.ledger) && zero.createdAt < WindowStart(w'.mem.ledger)
  {
    var failed := Answers(CheckFailed, true);
    var p := Started(w);
    var w1, p1 := WorldAfter(w, p, other, failed), ProgressAfter(w, p, other, failed);
    var w2, p2 := WorldAfter(w1, p1, zero, failed), ProgressAfter(w1, p1, zero, failed);
    var w3, p3 := WorldAfter(w2, p2, later, failed), ProgressAfter(w2, p2, later, failed);
    assert [other, zero, later][1..] == [zero, later] && [zero, later][1..] == [later];
    assert [failed, failed, failed][1..] == [failed, failed] && [failed, failed][1..] == [failed];
    assert p1.retryFrom == other.createdAt;
    assert p2.retryFrom == ZERO_TIME && p3.retryFrom == ZERO_TIME && p3.latest == later.createdAt;
    assert Visited(w2, p2, [later], [failed]) == Visited(w3, p3, [], []);
    assert Visited(w1, p1, [zero, later], [failed, failed]) == Visited(w3, p3, [], []);
  }

  // ----- a bounded number of checks

  // This step is a failed check of `id`.
  predicate FailsCheck(s: System, e: Event, id: CommentId) {
    e.Visit? && s.phase.Polling? && s.phase.rest != [] && s.phase.rest[0].id == id &&
    !Skips(s.w, s.phase.p, s.phase.rest[0]) && e.answers.check.CheckFailed?
  }

  function FailedChecks(s: System, es: seq<Event>, id: CommentId): nat
    requires Run(s, es).Some?
    decreases |es|
  {
    if es == [] then 0
    else (if FailsCheck(s, es[0], id) then 1 else 0) + FailedChecks(Step(s, es[0]), es[1..], id)
  }

  ghost predicate OneProcessSavesSucceed(es: seq<Event>) {
    forall e | e in es :: !e.Start? && !e.Crash? && (e.Visit? ==> e.answers.saved) && (e.EndPoll? ==> e.saved)
  }

  ghost predicate FailuresInv(s: System) {
    forall id | id in s.w.mem.failures :: s.w.mem.failures[id] < MAX_CHECK_FAILURES
  }

  // On record, or before the window: no poll of this process looks at it again.
  ghost predicate Settled(l: Ledger, id: CommentId, created: CommentId -> Time) {
    id in l.handled || created(id) < WindowStart(l)
  }

  lemma StepCountsChecks(s: System, e: Event, id: CommentId, created: CommentId -> Time)
    requires Inv(s, created) && FailuresInv(s) && !s.phase.Down? && Enabled(s, e) && EventOk(e, created)
    requires OneProcessSavesSucceed([e])
    ensures FailuresInv(Step(s, e)) && !Step(s, e).phase.Down?
    ensures Settled(s.w.mem.ledger, id, created) ==>
      !FailsCheck(s, e, id) && Settled(Step(s, e).w.mem.ledger, id, created)
    ensures FailsCheck(s, e, id) ==>
      if FailureCount(s.w.mem, id) + 1 == MAX_CHECK_FAILURES then Settled(Step(s, e).w.mem.ledger, id, created)
      else FailureCount(Step(s, e).w.mem, id) == FailureCount(s.w.mem, id) + 1
    ensures !FailsCheck(s, e, id) ==>
      FailureCount(Step(s, e).w.mem, id) == FailureCount(s.w.mem, id) || Settled(Step(s, e).w.mem.ledger, id, created)
  {
    assert e in [e];
    if e.Visit? {
      var c := s.phase.rest[0];
      assert c in s.phase.rest;
    }
  }

  /**
    While one process runs and its saves succeed, a comment's check fails at
    most ten times, and the tenth failure puts it on record.
   */
  lemma {:induction false} AtMostTenFailedChecks(s: System, es: seq<Event>, id: CommentId, created: CommentId -> Time)
    requires Inv(s, created) && FailuresInv(s) && !s.phase.Down? && Run(s, es).Some?
    requires OneProcessSavesSucceed(es) && forall e | e in es :: EventOk(e, created)
    ensures Settled(s.w.mem.ledger, id, created) ==> FailedChecks(s, es, id) == 0
    ensures FailedChecks(s, es, id) + FailureCount(s.w.mem, id) <= MAX_CHECK_FAILURES || Settled(s.w.mem.ledger, id, created)
    ensures FailedChecks(s, es, id) + FailureCount(s.w.mem, id) == MAX_CHECK_FAILURES ==>
      Settled(Run(s, es).value.w.mem.ledger, id, created)
    decreases |es|
  {
    if es == [] {
    } else {
      assert OneProcessSavesSucceed([es[0]]);
      StepKeepsInv(s, es[0], created);
      StepCountsChecks(s, es[0], id, created);
      AtMostTenFailedChecks(Step(s, es[0]), es[1..], id, created);
      SettledStays(Step(s, es[0]), es[1..], id, created);
    }
  }

  lemma {:induction false} SettledStays(s: System, es: seq<Event>, id: CommentId, created: CommentId -> Time)
    requires Inv(s, created) && FailuresInv(s) && !s.phase.Down? && Run(s, es).Some?
    requires OneProcessSavesSucceed(es) && forall e | e in es :: EventOk(e, created)
    ensures Settled(s.w.mem.ledger, id, created) ==> Settled(Run(s, es).value.w.mem.ledger, id, created)
    decreases |es|
  {
    if es != [] {
      assert OneProcessSavesSucceed([es[0]]);
      StepKeepsInv(s, es[0], created);
      StepCountsChecks(s, es[0], id, created);
      SettledStays(Step(s, es[0]), es[1..], id, created);
    }
  }
}
