/**
  Whole runs of one comment entry: attempts, lost responses, rate limits, failed
  lookups, failed writes of the outbox file, writes made for other entries,
  crashes and restarts. An attempt is two steps, the tracker's and the outbox's,
  so a crash or another entry's write can come between them.
 */
module OutboxRuns {
  import opened Bytes
  import opened OutboxDelivery

  datatype Phase = Down | Idle | InFlight(result: Result)

  /**
    The entry in memory and on disk, the comments the tracker holds, and what
    the theorems count: `sent` says that this process has posted, `blindCrashes`
    counts the crashes that leave an entry posted but, on disk, never tried.
   */
  datatype System = System(
    mem: Option<Entry>, disk: Option<Entry>, copies: nat, phase: Phase,
    sent: bool, blindCrashes: nat, flushed: bool)

  // Persist is a write made for another entry: the file always holds them all.
  datatype Event = Attempt(answers: Answers) | Mark(persisted: bool, next: int) | Persist | Crash | Restart

  predicate Enabled(s: System, e: Event) {
    match e
    case Attempt(_) => s.phase.Idle? && s.mem.Some?
    case Mark(_, _) => s.phase.InFlight? && s.mem.Some?
    case Persist => !s.phase.Down?
    case Crash => !s.phase.Down?
    case Restart => s.phase.Down?
  }

  // What the outbox does with an entry after an attempt.
  function MarkedEntry(e: Entry, r: Result, next: int): Option<Entry> {
    if r.Failed? then Some(AfterFailure(e, r.why, next)) else None
  }

  // A create request goes out unless the lookup fails or finds the comment.
  predicate Posts(copies: nat, e: Entry, a: Answers) {
    e.NeverTried() || (a.lookupError.None? && copies == 0)
  }

  function Step(s: System, e: Event, keys: Keys): System
    requires Enabled(s, e)
    requires s.mem.Some? ==> IsKeyed(keys, s.mem.value)
  {
    match e
    case Attempt(a) =>
      var (copies, r) := Attempted(s.copies, keys, s.mem.value, a);
      s.(copies := copies, phase := InFlight(r), sent := s.sent || Posts(s.copies, s.mem.value, a))
    case Mark(persisted, next) =>
      var mem := MarkedEntry(s.mem.value, s.phase.result, next);
      s.(mem := mem, disk := if persisted then mem else s.disk, phase := Idle, flushed := s.flushed || mem.None?)
    case Persist => s.(disk := s.mem)
    case Crash =>
      s.(phase := Down, mem := None,
         blindCrashes := s.blindCrashes + if s.sent && s.disk.Some? && s.disk.value.NeverTried() then 1 else 0)
    case Restart => s.(phase := Idle, mem := s.disk, sent := false)
  }

  ghost predicate Typed(s: System, keys: Keys) {
    (s.mem.Some? ==> IsKeyed(keys, s.mem.value)) && (s.disk.Some? ==> IsKeyed(keys, s.disk.value))
  }

  ghost predicate Inv(s: System, keys: Keys) {
    && Typed(s, keys)
    && s.copies <= 1 + s.blindCrashes
    && (keys.RejectsRepeatedKeys? ==> s.copies <= 1)
    && (s.flushed ==> s.copies > 0)
    && (s.phase.InFlight? ==> s.mem.Some? && (!s.phase.result.Failed? ==> s.copies > 0))
    && (s.phase.InFlight? && s.mem.value.NeverTried() ==> s.sent)
    // an entry that looks untried has posted nothing since the last blind crash
    && (s.phase.Idle? && s.mem.Some? && s.mem.value.NeverTried() ==> !s.sent && s.copies <= s.blindCrashes)
    && (!s.phase.Down? && !s.sent && s.disk.Some? && s.disk.value.NeverTried() ==> s.copies <= s.blindCrashes)
    && (s.phase.Down? && s.disk.Some? && s.disk.value.NeverTried() ==> s.copies <= s.blindCrashes)
  }

  lemma StepKeepsInv(s: System, e: Event, keys: Keys)
    requires Inv(s, keys) && Enabled(s, e)
    ensures Inv(Step(s, e, keys), keys)
  {
  }

  ghost predicate Initial(s: System, keys: Keys) {
    s.phase.Down? && s.mem.None? && s.copies == 0 && s.blindCrashes == 0 && !s.flushed && Typed(s, keys)
  }

  function Run(s: System, es: seq<Event>, keys: Keys): (r: Option<System>)
    requires Typed(s, keys)
    ensures r.Some? ==> Typed(r.value, keys)
    decreases |es|
  {
    if es == [] then Some(s)
    else if !Enabled(s, es[0]) then None
    else Run(Step(s, es[0], keys), es[1..], keys)
  }

  lemma {:induction false} RunKeepsInv(s: System, es: seq<Event>, keys: Keys)
    requires Inv(s, keys) && Run(s, es, keys).Some?
    ensures Inv(Run(s, es, keys).value, keys)
    decreases |es|
  {
    if es != [] {
      StepKeepsInv(s, es[0], keys);
      RunKeepsInv(Step(s, es[0], keys), es[1..], keys);
    }
  }

  /**
    Every run: at most one comment, plus one for each blind crash, and never a
    second one on a tracker that rejects a repeated key. A flushed entry is on
    the tracker.
   */
  lemma CopiesAreBounded(s: System, es: seq<Event>, keys: Keys)
    requires Initial(s, keys) && Run(s, es, keys).Some?
    ensures var r := Run(s, es, keys).value;
      r.copies <= 1 + r.blindCrashes && (keys.RejectsRepeatedKeys? ==> r.copies <= 1) && (r.flushed ==> r.copies > 0)
  {
    RunKeepsInv(s, es, keys);
  }

  lemma {:induction false} NoCrashNoBlindCrash(s: System, es: seq<Event>, keys: Keys)
    requires Typed(s, keys) && Run(s, es, keys).Some? && forall e | e in es :: !e.Crash?
    ensures Run(s, es, keys).value.blindCrashes == s.blindCrashes
    decreases |es|
  {
    if es != [] {
      NoCrashNoBlindCrash(Step(s, es[0], keys), es[1..], keys);
    }
  }

  /** Without crashes a comment is created at most once, whatever is lost or limited. */
  lemma ExactlyOnceWithoutCrashes(s: System, es: seq<Event>, keys: Keys)
    requires Initial(s, keys) && Run(s, es, keys).Some? && forall e | e in es :: !e.Crash?
    ensures var r := Run(s, es, keys).value; r.copies <= 1 && (r.flushed ==> r.copies == 1)
  {
    CopiesAreBounded(s, es, keys);
    NoCrashNoBlindCrash(s, es, keys);
  }

  // ----- the flusher's method is such a run

  function Found(es: seq<Entry>, id: string): Option<Entry> {
    var i := IndexOf(es, id);
    if i < 0 then None else Some(es[i])
  }

  ghost predicate DistinctIds(es: seq<Entry>) { forall i, j | 0 <= i < j < |es| :: es[i].id != es[j].id }

  lemma FoundIn(es: seq<Entry>, i: nat, id: string)
    requires i < |es| && es[i].id == id && forall k | 0 <= k < i :: es[k].id != id
    ensures IndexOf(es, id) == i && Found(es, id) == Some(es[i])
  {
  }

  lemma FoundNowhere(es: seq<Entry>, id: string)
    requires forall k | 0 <= k < |es| :: es[k].id != id
    ensures IndexOf(es, id) < 0 && Found(es, id).None?
  {
  }

  // What marking does to the entry itself and to every other.
  lemma MarkedFound(es: seq<Entry>, e: Entry, r: Result, next: int)
    requires DistinctIds(es) && e in es
    ensures Found(es, e.id) == Some(e) && IndexOf(es, e.id) >= 0
    ensures Found(Marked(es, e.id, r, next), e.id) == MarkedEntry(e, r, next)
    ensures forall id | id != e.id :: Found(Marked(es, e.id, r, next), id) == Found(es, id)
  {
    hide IndexOf, Found;
    var i :| 0 <= i < |es| && es[i] == e;
    FoundIn(es, i, e.id);
    var es' := Marked(es, e.id, r, next);
    if r.Failed? {
      FoundIn(es', i, e.id);
    } else {
      FoundNowhere(es', e.id);
    }
    forall id | id != e.id
      ensures Found(es', id) == Found(es, id)
    {
      var j := IndexOf(es, id);
      if j < 0 {
        FoundNowhere(es, id);
        FoundNowhere(es', id);
      } else {
        FoundIn(es, j, id);
        FoundIn(es', if r.Failed? || j < i then j else j - 1, id);
      }
    }
  }

  /**
    What `FlushOutboxEntry` does with a keyed comment is an attempt and a mark of
    that entry; for every other entry it is at most a write of the file.
   */
  lemma FlushIsARun(es: seq<Entry>, disk: seq<Entry>, e: Entry, other: string, keys: Keys, copies: nat, a: Answers, s: System)
    requires DistinctIds(es) && e in es && IsKeyed(keys, e) && other != e.id
    requires s.phase.Idle? && Typed(s, keys)
    ensures var (copies', r) := Attempted(copies, keys, e, a);
      var es' := Marked(es, e.id, r, a.next);
      var disk' := if a.persisted && IndexOf(es, e.id) >= 0 then es' else disk;
      && (s.mem == Found(es, e.id) && s.disk == Found(disk, e.id) && s.copies == copies ==>
            Run(s, [Attempt(a), Mark(a.persisted, a.next)], keys) ==
            Some(s.(mem := Found(es', e.id), disk := Found(disk', e.id), copies := copies',
                    sent := s.sent || Posts(copies, e, a), flushed := s.flushed || !r.Failed?)))
      && (s.mem == Found(es, other) && s.disk == Found(disk, other) ==>
            Run(s, if a.persisted then [Persist] else [], keys) ==
            Some(s.(mem := Found(es', other), disk := Found(disk', other))))
  {
    hide IndexOf, Found, Marked, DistinctIds;
    var (copies', r) := Attempted(copies, keys, e, a);
    MarkedFound(es, e, r, a.next);
    assert [Persist][1..] == [];
    if s.mem == Found(es, e.id) && s.disk == Found(disk, e.id) && s.copies == copies {
      var s1 := Step(s, Attempt(a), keys);
      var s2 := Step(s1, Mark(a.persisted, a.next), keys);
      var es2 := [Attempt(a), Mark(a.persisted, a.next)];
      assert es2[1..] == [Mark(a.persisted, a.next)] && es2[1..][1..] == [];
      assert Run(s2, [], keys) == Some(s2);
      assert Run(s1, es2[1..], keys) == Some(s2);
    }
  }

  // ----- which crashes are blind

  ghost predicate Synced(s: System) {
    && (!s.phase.Down? ==> s.mem == s.disk)
    && (s.phase.Idle? && s.mem.Some? && s.mem.value.NeverTried() ==> !s.sent)
  }

  /**
    While every write of the outbox file succeeds, a crash is blind exactly when
    it comes during an attempt whose entry has both counters at zero.
   */
  lemma {:induction false} BlindCrashesAreDuringFirstAttempts(s: System, es: seq<Event>, keys: Keys)
    requires Typed(s, keys) && Synced(s) && Run(s, es, keys).Some?
    requires forall e | e in es :: e.Mark? ==> e.persisted
    requires s.phase.InFlight? && s.mem.Some? && s.mem.value.NeverTried() ==> s.sent
    ensures var r := Run(s, es, keys).value;
      Enabled(r, Crash) ==>
        (Step(r, Crash, keys).blindCrashes > r.blindCrashes
         <==> r.phase.InFlight? && r.mem.Some? && r.mem.value.NeverTried())
    decreases |es|
  {
    if es != [] {
      BlindCrashesAreDuringFirstAttempts(Step(s, es[0], keys), es[1..], keys);
    }
  }

  /** The bound is reached: one crash after a first post duplicates the comment when keys can repeat. */
  lemma OneBlindCrashDuplicates(entry: Entry, ok: Answers)
    requires IsKeyed(FindsKeys, entry) && entry.NeverTried() && ok.create.Succeeds?
    ensures var s := System(Some(entry), Some(entry), 0, Idle, false, 0, false);
      var r := Run(s, [Attempt(ok), Crash, Restart, Attempt(ok)], FindsKeys);
      r.Some? && r.value.copies == 2 && r.value.blindCrashes == 1
  {
    var s0 := System(Some(entry), Some(entry), 0, Idle, false, 0, false);
    var s1 := Step(s0, Attempt(ok), FindsKeys);
    var s2 := Step(s1, Crash, FindsKeys);
    var s3 := Step(s2, Restart, FindsKeys);
    var s4 := Step(s3, Attempt(ok), FindsKeys);
    var es := [Attempt(ok), Crash, Restart, Attempt(ok)];
    assert es[1..] == [Crash, Restart, Attempt(ok)] && es[1..][1..] == [Restart, Attempt(ok)];
    assert es[1..][1..][1..] == [Attempt(ok)] && es[1..][1..][1..][1..] == [];
    assert Run(s4, [], FindsKeys) == Some(s4);
    assert Run(s3, es[1..][1..][1..], FindsKeys) == Some(s4);
    assert Run(s2, es[1..][1..], FindsKeys) == Some(s4);
    assert Run(s1, es[1..], FindsKeys) == Some(s4);
  }
}
