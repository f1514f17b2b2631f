/**
  Which comments the comment-command handler acts on: in one poll, from what is
  listed and answered, and over whole runs, from what is put on record.
 */
module CommentActions {
  import opened Bytes
  import opened CommentLedger
  import opened CommentRuns

  /** A command of an issue, not written by the daemon, created inside the window. */
  predicate Asks(l: Ledger, c: Comment) {
    && c.isCommand && !c.managed && !c.onPullRequest
    && c.createdAt >= l.floor && c.createdAt >= l.cursor - 120000000000
  }

  // A failed check that is not yet the tenth.
  predicate ChecksAgain(failed: map<CommentId, nat>, c: Comment, a: Answers) {
    a.check.CheckFailed? && (if c.id in failed then failed[c.id] else 0) < 9
  }

  // What is on record and how often checks have failed after one comment, and whether it is acted on.
  function AfterOne(l: Ledger, failed: map<CommentId, nat>, done: set<CommentId>, c: Comment, a: Answers)
    : (map<CommentId, nat>, set<CommentId>, seq<CommentId>)
  {
    if !Asks(l, c) || c.id in done then (failed, done, [])
    else if ChecksAgain(failed, c, a) then (failed[c.id := 1 + if c.id in failed then failed[c.id] else 0], done, [])
    else (failed - {c.id}, if a.saved then done + {c.id} else done, if a.saved && a.check.Allowed? then [c.id] else [])
  }

  /**
    The commands a poll carries out. `done` are the comments on record so far,
    `failed` how often each one's check has failed.
   */
  function ToAct(l: Ledger, failed: map<CommentId, nat>, done: set<CommentId>, cs: seq<Comment>, answers: seq<Answers>)
    : seq<CommentId>
    requires |answers| == |cs|
    decreases |cs|
  {
    if cs == [] then []
    else
      var (failed', done', now) := AfterOne(l, failed, done, cs[0], answers[0]);
      now + ToAct(l, failed', done', cs[1..], answers[1..])
  }

  /** The same when no comment is listed twice: each command is judged on its own. */
  function Called(l: Ledger, cs: seq<Comment>, answers: seq<Answers>): seq<CommentId>
    requires |answers| == |cs|
    decreases |cs|
  {
    if cs == [] then []
    else
      (if Asks(l, cs[0]) && cs[0].id !in l.handled && answers[0].check.Allowed? && answers[0].saved then [cs[0].id] else []) +
      Called(l, cs[1..], answers[1..])
  }

  // Inside the window the ledger's records are these.
  ghost predicate OnRecord(l: Ledger, done: set<CommentId>, created: CommentId -> Time) {
    TimesRight(l, created) && forall id | created(id) >= WindowStart(l) :: id in l.handled <==> id in done
  }

  lemma RecordIsNoted(w: World, c: Comment, saved: bool, done: set<CommentId>, created: CommentId -> Time)
    requires OnRecord(w.mem.ledger, done, created) && c.createdAt == created(c.id) && c.createdAt >= WindowStart(w.mem.ledger)
    requires c.id !in w.mem.ledger.handled
    ensures OnRecord(Recorded(w, c, saved).mem.ledger, if saved then done + {c.id} else done, created)
  {
  }

  lemma SkippedAre(w: World, p: Progress, l: Ledger, c: Comment, done: set<CommentId>, created: CommentId -> Time)
    requires p.windowStart == WindowStart(w.mem.ledger) && OnRecord(w.mem.ledger, done, created)
    requires l.cursor == w.mem.ledger.cursor && l.floor == w.mem.ledger.floor && c.createdAt == created(c.id)
    ensures Skips(w, p, c) <==> !Asks(l, c) || c.id in done
    ensures !Skips(w, p, c) ==> c.createdAt >= WindowStart(w.mem.ledger) && c.id !in w.mem.ledger.handled
  {
  }

  lemma RecordingForgets(w: World, c: Comment, saved: bool)
    ensures Recorded(w, c, saved).mem.failures == w.mem.failures - {c.id}
  {
  }

  // What one comment adds to the actions.
  lemma VisitActs(w: World, c: Comment, a: Answers)
    ensures ChecksAgain(w.mem.failures, c, a) <==> Defers(w, c, a)
    ensures Defers(w, c, a) ==>
      var w' := Handled(w, c, a);
      w'.acted == w.acted && w'.mem.ledger == w.mem.ledger &&
      w'.mem.failures == w.mem.failures[c.id := 1 + if c.id in w.mem.failures then w.mem.failures[c.id] else 0]
    ensures !Defers(w, c, a) ==>
      var w' := Handled(w, c, a);
      w'.acted == w.acted + (if a.saved && a.check.Allowed? then [c.id] else []) && w'.mem == Recorded(w, c, a.saved).mem
  {
    RecordKeepsWindow(w, c, a.saved);
    hide Recorded;
  }

  lemma OneComment(w: World, p: Progress, l: Ledger, done: set<CommentId>, c: Comment, a: Answers, created: CommentId -> Time)
    requires p.windowStart == WindowStart(w.mem.ledger) && OnRecord(w.mem.ledger, done, created)
    requires l.cursor == w.mem.ledger.cursor && l.floor == w.mem.ledger.floor && c.createdAt == created(c.id)
    ensures var w', p' := WorldAfter(w, p, c, a), ProgressAfter(w, p, c, a);
      var (failed, done', now) := AfterOne(l, w.mem.failures, done, c, a);
      && p'.windowStart == p.windowStart && w'.mem.ledger.cursor == l.cursor && w'.mem.ledger.floor == l.floor
      && OnRecord(w'.mem.ledger, done', created) && w'.mem.failures == failed && w'.acted == w.acted + now
  {
    hide Recorded, OnRecord, Skips, Asks, ChecksAgain, Defers, Handled;
    SkippedAre(w, p, l, c, done, created);
    VisitActs(w, c, a);
    if !Skips(w, p, c) && !Defers(w, c, a) {
      RecordIsNoted(w, c, a.saved, done, created);
      RecordKeepsWindow(w, c, a.saved);
      RecordingForgets(w, c, a.saved);
    }
  }

  lemma {:induction false} VisitsAct(w: World, p: Progress, l: Ledger, done: set<CommentId>, cs: seq<Comment>,
                                     answers: seq<Answers>, created: CommentId -> Time)
    requires |answers| == |cs| && CommentsOk(cs, created)
    requires p.windowStart == WindowStart(w.mem.ledger) && OnRecord(w.mem.ledger, done, created)
    requires l.cursor == w.mem.ledger.cursor && l.floor == w.mem.ledger.floor
    ensures Visited(w, p, cs, answers).0.acted == w.acted + ToAct(l, w.mem.failures, done, cs, answers)
    decreases |cs|
  {
    hide OnRecord, WorldAfter, ProgressAfter, AfterOne;
    if cs != [] {
      var c, a := cs[0], answers[0];
      assert c in cs && CommentsOk(cs[1..], created);
      OneComment(w, p, l, done, c, a, created);
      var (failed, done', now) := AfterOne(l, w.mem.failures, done, c, a);
      VisitsAct(WorldAfter(w, p, c, a), ProgressAfter(w, p, c, a), l, done', cs[1..], answers[1..], created);
    }
  }

  /**
    A poll acts on exactly these, in the order they are listed: the commands not
    on record whose check allows them and whose record is saved.
   */
  lemma PollActs(w: World, cs: seq<Comment>, answers: seq<Answers>, lastSave: bool, created: CommentId -> Time)
    requires |answers| == |cs| && CommentsOk(cs, created) && TimesRight(w.mem.ledger, created)
    ensures var l := w.mem.ledger;
      Polled(w, cs, answers, lastSave).acted == w.acted + ToAct(l, w.mem.failures, l.handled.Keys, cs, answers)
    ensures (forall i, j | 0 <= i < j < |cs| :: cs[i].id != cs[j].id) ==>
      Polled(w, cs, answers, lastSave).acted == w.acted + Called(w.mem.ledger, cs, answers)
  {
    var l := w.mem.ledger;
    VisitsAct(w, Started(w), l, l.handled.Keys, cs, answers, created);
    if forall i, j | 0 <= i < j < |cs| :: cs[i].id != cs[j].id {
      EachIsJudgedAlone(l, w.mem.failures, l.handled.Keys, cs, answers);
    }
  }

  lemma {:induction false} EachIsJudgedAlone(l: Ledger, failed: map<CommentId, nat>, done: set<CommentId>,
                                             cs: seq<Comment>, answers: seq<Answers>)
    requires |answers| == |cs| && forall i, j | 0 <= i < j < |cs| :: cs[i].id != cs[j].id
    requires forall c | c in cs :: c.id in done <==> c.id in l.handled
    ensures ToAct(l, failed, done, cs, answers) == Called(l, cs, answers)
    decreases |cs|
  {
    hide Asks;
    if cs != [] {
      var c, a := cs[0], answers[0];
      var rest := cs[1..];
      forall c' | c' in rest ensures c' in cs && c'.id != c.id {
        var k :| 0 <= k < |rest| && rest[k] == c';
        assert cs[k + 1] == c';
      }
      var (failed', done', _) := AfterOne(l, failed, done, c, a);
      EachIsJudgedAlone(l, failed', done', rest, answers[1..]);
    }
  }

  // ----- the window of the next poll

  // The latest time of these comments and before.
  function LatestOf(cs: seq<Comment>, t: Time): Time
    decreases |cs|
  {
    if cs == [] then t else LatestOf(cs[1..], if cs[0].createdAt > t then cs[0].createdAt else t)
  }

  lemma {:induction false} NoRetryIsNoted(w: World, p: Progress, cs: seq<Comment>, answers: seq<Answers>)
    requires |answers| == |cs| && p.retryFrom == ZERO_TIME
    requires forall a | a in answers :: a.saved && !a.check.CheckFailed?
    ensures var (w', p') := Visited(w, p, cs, answers);
      && p'.retryFrom == ZERO_TIME && p'.latest == LatestOf(cs, p.latest)
      && w'.mem.ledger.cursor == w.mem.ledger.cursor && w'.mem.ledger.floor == w.mem.ledger.floor
    decreases |cs|
  {
    if cs != [] {
      var c, a := cs[0], answers[0];
      assert a in answers;
      RecordKeepsWindow(w, c, true);
      hide Recorded, Skips;
      NoRetryIsNoted(WorldAfter(w, p, c, a), ProgressAfter(w, p, c, a), cs[1..], answers[1..]);
    }
  }

  /**
    A poll that leaves nothing for later moves the cursor to the latest comment
    listed, whatever it is, and keeps no record from before the window.
   */
  lemma PollMovesOn(w: World, cs: seq<Comment>, answers: seq<Answers>, lastSave: bool)
    requires |answers| == |cs| && forall a | a in answers :: a.saved && !a.check.CheckFailed?
    ensures var l := Polled(w, cs, answers, lastSave).mem.ledger;
      && l.cursor == LatestOf(cs, w.mem.ledger.cursor) && l.floor == w.mem.ledger.floor
      && forall id | id in l.handled :: l.handled[id] >= l.cursor - 120000000000 && l.handled[id] >= l.floor
    ensures lastSave ==> Polled(w, cs, answers, lastSave).disk == Some(Polled(w, cs, answers, lastSave).mem.ledger)
  {
    NoRetryIsNoted(w, Started(w), cs, answers);
  }

  // ----- whole runs

  /** At this step a comment goes on record, in memory and in the file. */
  predicate PutsOnRecord(s: System, e: Event) {
    e.Visit? && s.phase.Polling? && s.phase.rest != [] &&
    var id := s.phase.rest[0].id;
    id !in s.w.mem.ledger.handled && id in Step(s, e).w.mem.ledger.handled
  }

  /** Exactly a command not on record yet, with a saved record and a check that decides or fails for the tenth time. */
  lemma RecordedExactlyWhen(s: System, a: Answers, created: CommentId -> Time)
    requires Inv(s, created) && s.phase.Polling? && s.phase.rest != []
    ensures var c, m := s.phase.rest[0], s.w.mem;
      PutsOnRecord(s, Visit(a)) <==>
        Asks(m.ledger, c) && c.id !in m.ledger.handled && a.saved && !ChecksAgain(m.failures, c, a)
    ensures PutsOnRecord(s, Visit(a)) ==>
      var w := Step(s, Visit(a)).w; w.disk == Some(w.mem.ledger)
    ensures forall id | id in Step(s, Visit(a)).w.mem.ledger.handled :: id in s.w.mem.ledger.handled || id == s.phase.rest[0].id
  {
    var c := s.phase.rest[0];
    assert c in s.phase.rest;
  }

  /** The comments recorded as allowed during a run, in order, but for those the process died before acting on. */
  function Accepted(s: System, es: seq<Event>): seq<CommentId>
    requires Run(s, es).Some?
    decreases |es|
  {
    if es == [] then []
    else
      (if PutsOnRecord(s, es[0]) && es[0].answers.check.Allowed? && !(|es| > 1 && es[1].Crash?)
       then [s.phase.rest[0].id] else []) +
      Accepted(Step(s, es[0]), es[1..])
  }

  // The comment recorded and about to be acted on.
  function Pending(s: System): seq<CommentId> { if s.phase.Acting? then [s.phase.c.id] else [] }

  /**
    Over every run, the comments acted on are those accepted, in that order:
    all of them but one whose action is the next step.
   */
  lemma {:induction false} AcceptedAreActedOn(s: System, es: seq<Event>, created: CommentId -> Time)
    requires Inv(s, created) && Run(s, es).Some? && forall e | e in es :: EventOk(e, created)
    ensures var r := Run(s, es).value;
      r.w.acted + Pending(r) == s.w.acted + (if es != [] && es[0].Crash? then [] else Pending(s)) + Accepted(s, es)
    decreases |es|
  {
    hide Inv, EventOk;
    if es != [] {
      var e := es[0];
      var s' := Step(s, e);
      StepKeepsInv(s, e, created);
      AcceptedAreActedOn(s', es[1..], created);
      OneStepActs(s, e, created);
    }
  }

  lemma OneStepActs(s: System, e: Event, created: CommentId -> Time)
    requires Inv(s, created) && Enabled(s, e)
    ensures var s' := Step(s, e);
      && s'.w.acted == s.w.acted + (if e.Act? then Pending(s) else [])
      && Pending(s') == if PutsOnRecord(s, e) && e.answers.check.Allowed? then [s.phase.rest[0].id] else []
    ensures s.phase.Acting? ==> e.Act? || e.Crash?
  {
    if e.Visit? {
      RecordedExactlyWhen(s, e.answers, created);
    }
  }

  // ----- what is refused

  // The same state with earlier actions than its own.
  function WithPast(s: System, past: seq<CommentId>): System { s.(w := s.w.(acted := past + s.w.acted)) }

  lemma StepIgnoresPast(s: System, e: Event, past: seq<CommentId>)
    ensures Enabled(WithPast(s, past), e) <==> Enabled(s, e)
    ensures Enabled(s, e) ==> Step(WithPast(s, past), e) == WithPast(Step(s, e), past)
  {
    if e.Act? && s.phase.Acting? {
      assert past + (s.w.acted + [s.phase.c.id]) == past + s.w.acted + [s.phase.c.id];
    }
  }

  lemma {:induction false} RunIgnoresPast(s: System, es: seq<Event>, past: seq<CommentId>)
    requires Run(s, es).Some?
    ensures Run(WithPast(s, past), es) == Some(WithPast(Run(s, es).value, past))
    decreases |es|
  {
    hide Step, Enabled, WithPast;
    if es != [] {
      StepIgnoresPast(s, es[0], past);
      RunIgnoresPast(Step(s, es[0]), es[1..], past);
    }
  }

  lemma RecordedAsIfActed(s: System, a: Answers, created: CommentId -> Time)
    requires Inv(s, created) && PutsOnRecord(s, Visit(a)) && !a.check.Allowed?
    ensures Inv(WithPast(Step(s, Visit(a)), [s.phase.rest[0].id]), created)
  {
    var c := s.phase.rest[0];
    assert c in s.phase.rest;
    RecordedExactlyWhen(s, a, created);
    StepKeepsInv(s, Visit(a), created);
    RecordIsKept(s.w, c, created);
    hide Recorded;
    var s' := Step(s, Visit(a));
    assert s'.w.acted == s.w.acted;
    assert c.id !in s'.w.acted;
  }

  /** A comment recorded without being allowed was never acted on, and never will be. */
  lemma RefusedIsNeverActedOn(s: System, e: Event, es: seq<Event>, created: CommentId -> Time)
    requires Inv(s, created) && PutsOnRecord(s, e) && !e.answers.check.Allowed?
    requires Run(Step(s, e), es).Some? && forall e' | e' in es :: EventOk(e', created)
    ensures s.phase.rest[0].id !in Run(Step(s, e), es).value.w.acted
  {
    var id, s' := s.phase.rest[0].id, Step(s, e);
    RecordedAsIfActed(s, e.answers, created);
    hide Inv, Step, PutsOnRecord;
    RunIgnoresPast(s', es, [id]);
    RunKeepsInv(WithPast(s', [id]), es, created);
    NeverAgain(Run(s', es).value, id, created);
  }

  lemma NeverAgain(s: System, id: CommentId, created: CommentId -> Time)
    requires Inv(WithPast(s, [id]), created)
    ensures id !in s.w.acted
  {
    var all := [id] + s.w.acted;
    assert Distinct(all);
    forall k | 0 <= k < |s.w.acted| ensures s.w.acted[k] != id {
      assert all[0] == id && all[k + 1] == s.w.acted[k];
    }
  }
}
