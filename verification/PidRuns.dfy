/** What every interleaving of claimants, crashes and stops guarantees. */
module PidRuns {
  import opened Bytes
  import opened PidProtocol

  type Trace = seq<(Proc, Event)>

  function Run(s: State, t: Trace, pid: Proc -> Pid): Option<State>
    decreases |t|
  {
    if t == [] then Some(s)
    else if !Enabled(s, t[0].0, t[0].1) then None
    else Run(Step(s, t[0].0, t[0].1, pid), t[1..], pid)
  }

  /** Any pid file; every process that wrote one before is gone. */
  predicate Initial(s: State, pid: Proc -> Pid) {
    && s.shared.lock.None? && s.signals == {}
    && (forall p | p in s.pc :: s.pc[p].Gone?)
    && WriterOk(s, pid)
  }

  lemma {:induction false} RunKeepsInv(s: State, t: Trace, pid: Proc -> Pid)
    requires Inv(s, pid) && Run(s, t, pid).Some?
    ensures Inv(Run(s, t, pid).value, pid)
    decreases |t|
  {
    hide Inv, Step;
    if t != [] {
      StepKeepsInv(s, t[0].0, t[0].1, pid);
      RunKeepsInv(Step(s, t[0].0, t[0].1, pid), t[1..], pid);
    }
  }

  lemma Reached(s: State, t: Trace, pid: Proc -> Pid)
    requires Initial(s, pid) && Run(s, t, pid).Some?
    ensures Inv(Run(s, t, pid).value, pid)
  {
    RunKeepsInv(s, t, pid);
  }

  /**
    At most one process holds the claim, and its own record is the one on disk
    exactly when no stop has removed the file without the lock since it was linked.
   */
  lemma OneClaimWithItsRecord(s: State, t: Trace, p: Proc, q: Proc, pid: Proc -> Pid)
    requires Initial(s, pid) && Run(s, t, pid).Some?
    requires var r := Run(s, t, pid).value; p in r.pc && q in r.pc && r.pc[p].Claimed? && r.pc[q].Claimed?
    ensures p == q
    ensures var r := Run(s, t, pid).value; !r.shared.unlockedRemoval <==> r.shared.file == Some(Locked(pid(p), p))
  {
    Reached(s, t, pid);
    var r := Run(s, t, pid).value;
    assert ProcOk(r.shared, p, r.pc[p], pid) && ProcOk(r.shared, q, r.pc[q], pid);
  }

  /** A lock-marked record met while holding the lock was written by a process that is gone. */
  lemma LockedRecordIsStale(s: State, t: Trace, p: Proc, pid: Proc -> Pid)
    requires Initial(s, pid) && Run(s, t, pid).Some?
    requires var r := Run(s, t, pid).value;
      p in r.pc && r.shared.lock == Some(p) && !Owns(r.pc[p]) && IsLocked(r.shared.file)
    ensures var r := Run(s, t, pid).value;
      r.shared.file.value.writer in r.pc && r.pc[r.shared.file.value.writer].Gone?
  {
    Reached(s, t, pid);
    var r := Run(s, t, pid).value;
    var w := r.shared.file.value.writer;
    assert ProcOk(r.shared, w, r.pc[w], pid);
  }

  // ----- a claimant that takes the lock over a reclaimable file

  predicate OnItsWay(pc: Pc) {
    (pc.Linking? || pc.Reading? || pc.Removing?) && pc.stale
  }

  // The system calls still needed: link, read, remove, link.
  function CallsLeft(pc: Pc): nat {
    match pc
    case Linking(i, _) => if i == 0 then 4 else 1
    case Reading(i, _) => if i == 0 then 3 else 1
    case Removing(i, _, _) => if i == 0 then 2 else 1
    case _ => 0
  }

  predicate Undisturbed(t: Trace, p: Proc) {
    forall k | 0 <= k < |t| :: t[k].0 == p ==> t[k].1.Turn? && !t[k].1.choice.ioError
  }

  function OwnTurns(t: Trace, p: Proc): nat {
    if t == [] then 0 else (if t[0].0 == p then 1 else 0) + OwnTurns(t[1..], p)
  }

  lemma OwnTurnGetsCloser(s: State, p: Proc, c: Choice, pid: Proc -> Pid)
    requires Inv(s, pid) && p in s.pc && OnItsWay(s.pc[p]) && !c.ioError
    ensures var pc := Step(s, p, Turn(c), pid).pc[p];
      pc.Claimed? || (OnItsWay(pc) && CallsLeft(pc) < CallsLeft(s.pc[p]))
  {
    assert ProcOk(s.shared, p, s.pc[p], pid);
  }

  /**
    It claims: whatever the others do, four of its own system calls are enough,
    two of them links. It is never refused.
   */
  lemma {:induction false} ReclaimSucceeds(s: State, t: Trace, p: Proc, pid: Proc -> Pid)
    requires Inv(s, pid) && Run(s, t, pid).Some? && p in s.pc && Undisturbed(t, p)
    requires s.pc[p].Claimed? || OnItsWay(s.pc[p])
    ensures var r := Run(s, t, pid).value;
      p in r.pc && (r.pc[p].Claimed? || OnItsWay(r.pc[p]))
    ensures OwnTurns(t, p) >= CallsLeft(s.pc[p]) || s.pc[p].Claimed? ==> Run(s, t, pid).value.pc[p].Claimed?
    decreases |t|
  {
    hide Inv, LocalStep, Calm;
    if t != [] {
      var (q, e) := t[0];
      assert t[0].0 == p ==> t[0].1.Turn? && !t[0].1.choice.ioError;
      StepKeepsInv(s, q, e, pid);
      if q == p {
        if s.pc[p].Claimed? {
          ClaimedTurnStays(s, p, e.choice, pid);
        } else {
          OwnTurnGetsCloser(s, p, e.choice, pid);
        }
      }
      assert Undisturbed(t[1..], p) by {
        forall k | 0 <= k < |t[1..]| ensures t[1..][k].0 == p ==> t[1..][k].1.Turn? && !t[1..][k].1.choice.ioError {
          assert t[1..][k] == t[k + 1];
        }
      }
      ReclaimSucceeds(Step(s, q, e, pid), t[1..], p, pid);
    }
  }

  lemma ClaimedTurnStays(s: State, p: Proc, c: Choice, pid: Proc -> Pid)
    requires p in s.pc && s.pc[p].Claimed?
    ensures Step(s, p, Turn(c), pid).pc[p].Claimed?
  {
  }

  /** Taking a free lock over an absent, malformed, lock-marked or own-pid record starts such a claim. */
  lemma LockOverReclaimable(s: State, p: Proc, c: Choice, pid: Proc -> Pid)
    requires p in s.pc && s.pc[p].Locking? && s.shared.lock.None? && !c.ioError
    ensures var pc := Step(s, p, Turn(c), pid).pc[p];
      pc.Linking? && (OnItsWay(pc) <==> s.shared.file.None? || s.shared.file.value.Malformed? || s.shared.file.value.Locked? ||
                                        s.shared.file == Some(Legacy(pid(p))))
  {
  }

  // ----- whom a claim respects

  /** A claimant goes on to remove what it reads unless that is a live older daemon's record. */
  lemma ReadDecides(s: State, p: Proc, c: Choice, pid: Proc -> Pid)
    requires p in s.pc && s.pc[p].Reading?
    ensures var s' := Step(s, p, Turn(c), pid);
      && s'.shared == s.shared
      && (s'.pc[p].Releasing? <==> LiveOlder(Read(s.shared.file, c.alive, c.ioError), pid(p)))
      && (!s'.pc[p].Releasing? ==> s'.pc[p].Removing? && s'.pc[p].read == Read(s.shared.file, c.alive, c.ioError))
  {
  }

  /**
    Over every run, the record of an older daemon that a claimant removes is its
    own pid's, or one it found dead or could not read; and it holds the lock.
   */
  lemma NoLiveRecordIsRemoved(s: State, t: Trace, p: Proc, e: Event, pid: Proc -> Pid)
    requires Initial(s, pid) && Run(s, t, pid).Some?
    requires var r := Run(s, t, pid).value; p in r.pc && !r.pc[p].Stopping? && Enabled(r, p, e)
    ensures var r := Run(s, t, pid).value;
      r.shared.file.Some? && r.shared.file.value.Legacy? && Step(r, p, e, pid).shared.file != r.shared.file ==>
        && r.shared.lock == Some(p) && r.pc[p].Removing? && r.pc[p].read.file == r.shared.file
        && (r.shared.file.value.pid == pid(p) || !r.pc[p].read.alive || r.pc[p].read.failed)
  {
    Reached(s, t, pid);
    var r := Run(s, t, pid).value;
    assert ProcOk(r.shared, p, r.pc[p], pid);
  }

  // ----- what stop signals

  /**
    Without --legacy, every signal follows a probe that met another process's
    lock; a pid taken from a record that was read in calm is that holder's; and
    a SIGKILL after the grace period follows a second such probe and a file that
    still named the pid, which is the second holder's when nobody took the lock
    in between.
   */
  lemma StopIsSafe(s: State, t: Trace, pid: Proc -> Pid)
    requires Initial(s, pid) && Run(s, t, pid).Some?
    ensures var r := Run(s, t, pid).value; forall g | g in r.signals :: SignalOk(g, pid)
  {
    Reached(s, t, pid);
  }

  const QUIET_TURN: Event := Turn(Choice(false, false, false, {}, false))

  /**
    Calm is needed, and it is not only about claims: while a second stop holds
    the lock for its own check, the first one takes it for a daemon's and
    signals the pid of a stale record, with no daemon anywhere.
   */
  lemma TwoStopsSignalAStalePid(pid: Proc -> Pid)
    requires pid(0) > 0
    ensures var s := State(Shared(Some(Locked(pid(0), 0)), None, 0, false), map[0 := Gone], {});
      Initial(s, pid) &&
      exists t, r ::
        Run(s, t, pid) == Some(r) && (forall p | p in r.pc :: r.pc[p].Gone? || r.pc[p].Stopping?) &&
        (exists g :: g in r.signals && g.pid == pid(0))
  {
    var s := State(Shared(Some(Locked(pid(0), 0)), None, 0, false), map[0 := Gone], {});
    var s5 := TwoStopsMeet(s, pid);
    var t, r := ProbeMeetsAHolder(s5, 1, pid);
    var stop := Spawn(true, false, false);
    var t5 := [(1, stop), (2, stop), (1, QUIET_TURN), (2, QUIET_TURN), (2, QUIET_TURN)];
    RunJoins(s, t5, t, pid);
  }

  // Both stops have read the record; the second one holds the lock.
  lemma TwoStopsMeet(s: State, pid: Proc -> Pid) returns (s5: State)
    requires s == State(Shared(Some(Locked(pid(0), 0)), None, 0, false), map[0 := Gone], {})
    ensures var stop := Spawn(true, false, false);
      Run(s, [(1, stop), (2, stop), (1, QUIET_TURN), (2, QUIET_TURN), (2, QUIET_TURN)], pid) == Some(s5)
    ensures s5.pc.Keys == {0, 1, 2} && s5.pc[0].Gone? && s5.pc[2].Stopping? && s5.shared.lock == Some(2)
    ensures s5.pc[1].Stopping? && s5.pc[1].stop.at.Probe? && !s5.pc[1].stop.holds && !s5.pc[1].stop.found.force
    ensures s5.pc[1].stop.found.record == Some(Locked(pid(0), 0))
  {
    hide Calm;
    var stop := Spawn(true, false, false);
    var t5 := [(1, stop), (2, stop), (1, QUIET_TURN), (2, QUIET_TURN), (2, QUIET_TURN)];
    var s1 := Step(s, 1, stop, pid);
    var s2 := Step(s1, 2, stop, pid);
    var s3 := Step(s2, 1, QUIET_TURN, pid);
    assert s3.pc[2] == s2.pc[2] && s3.shared == s.shared;
    var s4 := Step(s3, 2, QUIET_TURN, pid);
    assert s4.pc[1] == s3.pc[1] && s4.pc[2].stop.at.Probe? && s4.shared == s.shared;
    s5 := Step(s4, 2, QUIET_TURN, pid);
    assert s5.pc[1] == s3.pc[1];
    RunStepByStep(s, t5, [s, s1, s2, s3, s4, s5], pid);
  }

  // A stop whose probe meets any holder signals the pid it has read.
  lemma ProbeMeetsAHolder(s: State, p: Proc, pid: Proc -> Pid) returns (t: Trace, r: State)
    requires p in s.pc && s.pc[p].Stopping? && s.pc[p].stop.at.Probe? && !s.pc[p].stop.holds
    requires s.shared.lock.Some? && IsLocked(s.pc[p].stop.found.record) && s.pc[p].stop.found.record.value.pid > 0
    ensures Run(s, t, pid) == Some(r)
    ensures r.pc.Keys == s.pc.Keys && r.pc[p].Stopping? && forall q | q in s.pc && q != p :: r.pc[q] == s.pc[q]
    ensures exists g :: g in r.signals && g.pid == s.pc[p].stop.found.record.value.pid
  {
    hide Calm;
    var x := s.pc[p].stop.found.record.value.pid;
    t := [(p, QUIET_TURN), (p, QUIET_TURN), (p, QUIET_TURN), (p, QUIET_TURN), (p, QUIET_TURN)];
    var s1 := Step(s, p, QUIET_TURN, pid);
    assert s1.pc[p].stop.at.Settle? && s1.pc[p].stop.found.probe.HeldByOther?;
    var s2 := Step(s1, p, QUIET_TURN, pid);
    assert s2.pc[p].stop.at.Release? && x in s2.pc[p].stop.found.verified;
    var s3 := Step(s2, p, QUIET_TURN, pid);
    var s4 := Step(s3, p, QUIET_TURN, pid);
    assert s4.pc[p].stop.at.Signalling? && x in Targets(s4.pc[p].stop.found);
    r := Step(s4, p, QUIET_TURN, pid);
    var st := s4.pc[p].stop;
    assert Signal(st.found.force, x, false, p, st) in r.signals;
    RunStepByStep(s, t, [s, s1, s2, s3, s4, r], pid);
  }

  lemma {:induction false} RunJoins(s: State, a: Trace, b: Trace, pid: Proc -> Pid)
    requires Run(s, a, pid).Some?
    ensures Run(s, a + b, pid) == Run(Run(s, a, pid).value, b, pid)
    decreases |a|
  {
    hide Step, Enabled;
    if a == [] {
      assert a + b == b;
    } else {
      assert (a + b)[1..] == a[1..] + b;
      RunJoins(Step(s, a[0].0, a[0].1, pid), a[1..], b, pid);
    }
  }

  // A run given step by step.
  lemma {:induction false} RunStepByStep(s: State, t: Trace, states: seq<State>, pid: Proc -> Pid)
    requires |states| == |t| + 1 && states[0] == s
    requires forall k | 0 <= k < |t| :: Enabled(states[k], t[k].0, t[k].1) && states[k + 1] == Step(states[k], t[k].0, t[k].1, pid)
    ensures Run(s, t, pid) == Some(states[|t|])
    decreases |t|
  {
    hide Step, Enabled;
    if t != [] {
      var t', states' := t[1..], states[1..];
      forall k | 0 <= k < |t'|
        ensures Enabled(states'[k], t'[k].0, t'[k].1) && states'[k + 1] == Step(states'[k], t'[k].0, t'[k].1, pid)
      {
        assert t'[k] == t[k + 1] && states'[k] == states[k + 1] && states'[k + 1] == states[k + 2];
      }
      RunStepByStep(states[1], t', states', pid);
    }
  }

  /**
    The clean-up removes the record without the lock when its probe fails, even
    from under a daemon that has claimed. Every other removal is under the lock.
   */
  lemma FailedProbeRemovesALiveRecord(s: State, p: Proc, q: Proc, c: Choice, c': Choice, pid: Proc -> Pid)
    requires p in s.pc && q in s.pc && s.pc[q].Claimed? && c.ioError && !c'.ioError
    requires s.pc[p].Stopping? && s.pc[p].stop.at.CleanProbe?
    ensures var s' := Step(Step(s, p, Turn(c), pid), p, Turn(c'), pid);
      s'.shared.file.None? && s'.pc[q].Claimed?
  {
  }

  lemma RemovalsWithoutTheLock(s: State, p: Proc, e: Event, pid: Proc -> Pid)
    requires Inv(s, pid) && Enabled(s, p, e)
    ensures s.shared.file != Step(s, p, e, pid).shared.file && s.shared.lock != Some(p) ==>
      && p in s.pc && s.pc[p].Stopping? && s.pc[p].stop.at.CleanRemove? && !s.pc[p].stop.holds
      && Step(s, p, e, pid).shared.file.None? && Step(s, p, e, pid).shared.unlockedRemoval
  {
    OwnStep(s, p, e, pid);
    if p in s.pc && s.shared.lock != Some(p) {
      assert ProcOk(s.shared, p, s.pc[p], pid);
      assert !Holds(s.pc[p]);
      assert s.pc[p].Stopping? ==> !s.pc[p].stop.holds;
      LocalWrites(s.shared, p, s.pc[p], e, pid(p), Calm(s, p));
      UnlockedRemovals(s.shared, p, s.pc[p], e, pid, Calm(s, p));
      hide Inv, LocalStep, Calm, ProcOk, Writes;
    }
  }

  lemma UnlockedRemovals(sh: Shared, p: Proc, pc: Pc, e: Event, pid: Proc -> Pid, calm: bool)
    requires !Holds(pc) && ProcOk(sh, p, pc, pid) && (e.Exit? ==> pc.Claimed?) && !e.Spawn?
    ensures LocalStep(sh, p, pc, e, pid(p), calm).shared.file != sh.file ==> pc.Stopping? && pc.stop.at.CleanRemove?
  {
    if e.Turn? && pc.Stopping? {
      var st := pc.stop;
      if Later(st.at) {
        SignalWrites(sh, p, st, e.choice, calm, pid(p));
      } else {
        SearchWrites(sh, p, st, e.choice, calm, pid(p));
      }
      hide SearchStep, SignalStep;
    } else {
      hide SearchStep, SignalStep;
    }
  }
}
