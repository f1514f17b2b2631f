/** What one `itervox stop` does with nobody in between (cmd/itervox/stop.go). */
module PidStops {
  import opened Bytes
  import opened PidProtocol
  import opened PidRuns

  /**
    What a search starts from and is told: the file and the lock, whether the
    record is of another project, whether the lock could be probed, whether the
    record's process answers, and what the directory scan finds.
   */
  datatype Scene = Scene(file: Option<Record>, lock: Option<Proc>, other: bool, probed: bool, alive: bool, scan: set<Pid>) {
    predicate Held() { probed && lock.Some? }

    predicate IsFree() { probed && lock.None? }

    // A record that can be parsed and is this project's.
    predicate HasRecord() { file.Some? && !file.value.Malformed? && !other }

    predicate NamesLocker() { file.Some? && file.value.Locked? }

    // It names a process that the lock says nothing about, but that answers.
    predicate Suspect(x: Pid) {
      HasRecord() && file.value.pid == x && alive && (file.value.Legacy? || !probed)
    }

    /** The lock proves a live daemon: the recorded one, or where none is recorded whoever the scan finds. */
    predicate Verified(x: Pid) {
      x > 0 && Held() && if NamesLocker() then HasRecord() && x == file.value.pid else x in scan && !Suspect(x)
    }

    /** Nothing vouches for these; they are signalled only with --legacy. */
    predicate Unverified(x: Pid) { x > 0 && !Verified(x) && (Suspect(x) || x in scan) }

    // A stale record: the lock is free, and its process held the lock or does not answer.
    predicate Stale() { HasRecord() && IsFree() && (file.value.Locked? || !alive) }
  }

  // After the record has been read and the lock probed.
  predicate Probing(s: Scene, st: Stop, sh: Shared) {
    && st.found.record == (if s.HasRecord() then s.file else None)
    && st.found.accounted == (s.other && s.NamesLocker())
    && st.found.probe == (if s.Held() then HeldByOther else if s.IsFree() then Free else Unknown)
    && st.found.verified == {} && st.found.unverified == {} && st.holds == s.IsFree() && sh.file == s.file
    && (s.IsFree() || sh.lock == s.lock)
  }

  lemma ProbeFinds(s: Scene, sh: Shared, p: Proc, st: Stop, c0: Choice, c1: Choice, calm0: bool, calm1: bool)
    requires st.at.ReadRecord? && !st.holds && st.found.verified == {} && st.found.unverified == {} && sh.lock == s.lock
    requires s.file == sh.file && s.other == c0.mismatch && s.probed == !c1.ioError
    ensures var l := SearchStep(sh, p, st, c0, calm0);
      l.pc.Stopping? && l.pc.stop.at.Probe? && l.signals == {} &&
      var m := SearchStep(l.shared, p, l.pc.stop, c1, calm1);
      m.pc.Stopping? && m.pc.stop.at.Settle? && m.signals == {} && Probing(s, m.pc.stop, m.shared) &&
      m.pc.stop.found.legacy == st.found.legacy && m.pc.stop.found.force == st.found.force
  {
  }

  // After the record has been judged and the lock released.
  ghost predicate Judged(s: Scene, st: Stop, sh: Shared, removed: bool) {
    && (forall x :: x in st.found.verified <==> x > 0 && s.Held() && s.NamesLocker() && s.HasRecord() && x == s.file.value.pid)
    && (forall x :: x in st.found.unverified <==> x > 0 && s.Suspect(x))
    && st.found.accounted == (s.NamesLocker() && (s.other || s.Held()))
    && st.found.probe == (if s.Held() then HeldByOther else if s.IsFree() then Free else Unknown)
    && !st.holds && sh.lock == s.lock && sh.file == (if s.Stale() && removed then None else s.file)
  }

  lemma SettleFinds(s: Scene, sh: Shared, p: Proc, st: Stop, c2: Choice, c3: Choice, calm2: bool, calm3: bool)
    requires st.at.Settle? && Probing(s, st, sh) && s.alive == c2.alive
    ensures var l := SearchStep(sh, p, st, c2, calm2);
      l.pc.Stopping? && l.pc.stop.at.Release? && l.signals == {} &&
      var m := SearchStep(l.shared, p, l.pc.stop, c3, calm3);
      m.pc.Stopping? && m.pc.stop.at.Scan? && m.signals == {} && Judged(s, m.pc.stop, m.shared, !c2.ioError) &&
      m.pc.stop.found.legacy == st.found.legacy && m.pc.stop.found.force == st.found.force
  {
  }

  lemma ScanFinds(s: Scene, sh: Shared, p: Proc, st: Stop, c4: Choice, calm: bool, removed: bool)
    requires st.at.Scan? && Judged(s, st, sh, removed) && s.scan == c4.pids
    ensures var l := SearchStep(sh, p, st, c4, calm);
      && l.pc.Stopping? && l.signals == {} && l.shared == sh
      && var f := l.pc.stop.found;
      && f.legacy == st.found.legacy && f.force == st.found.force
      && (forall x :: x in f.verified <==> s.Verified(x))
      && (forall x :: x in f.unverified <==> f.legacy && s.Unverified(x))
      && l.pc.stop.at == (if Targets(f) == {} then Finished else Signalling)
  {
  }

  function TurnsOf(p: Proc, cs: seq<Choice>): Trace
    requires |cs| == 5
  {
    [(p, Turn(cs[0])), (p, Turn(cs[1])), (p, Turn(cs[2])), (p, Turn(cs[3])), (p, Turn(cs[4]))]
  }

  /**
    The search of a stop: whom it will signal, when the record goes, and that the
    lock is as it was.
   */
  lemma SearchFinds(s: State, p: Proc, cs: seq<Choice>, pid: Proc -> Pid)
    requires |cs| == 5 && p in s.pc && s.pc[p].Stopping? && s.pc[p].stop.at.ReadRecord? && !s.pc[p].stop.holds
    requires s.pc[p].stop.found.verified == {} && s.pc[p].stop.found.unverified == {}
    ensures var scene := Scene(s.shared.file, s.shared.lock, cs[0].mismatch, !cs[1].ioError, cs[2].alive, cs[4].pids);
      var r := Run(s, TurnsOf(p, cs), pid);
      && r.Some? && p in r.value.pc && r.value.pc[p].Stopping?
      && r.value.shared.lock == s.shared.lock && r.value.signals == s.signals
      && r.value.shared.file == (if scene.Stale() && !cs[2].ioError then None else s.shared.file)
      && var f := r.value.pc[p].stop.found;
      && f.force == s.pc[p].stop.found.force && f.legacy == s.pc[p].stop.found.legacy
      && (forall x :: x in f.verified <==> scene.Verified(x))
      && (forall x :: x in f.unverified <==> f.legacy && scene.Unverified(x))
      && r.value.pc[p].stop.at == (if Targets(f) == {} then Finished else Signalling)
  {
    hide Calm, SearchStep, Probing, Judged, Targets, Step, Scene.Verified, Scene.Unverified, Scene.Stale;
    var scene := Scene(s.shared.file, s.shared.lock, cs[0].mismatch, !cs[1].ioError, cs[2].alive, cs[4].pids);
    ProbeSteps(scene, s, p, cs[0], cs[1], pid);
    var s1 := Step(s, p, Turn(cs[0]), pid);
    var s2 := Step(s1, p, Turn(cs[1]), pid);
    SettleSteps(scene, s2, p, cs[2], cs[3], pid);
    var s3 := Step(s2, p, Turn(cs[2]), pid);
    var s4 := Step(s3, p, Turn(cs[3]), pid);
    ScanStep(scene, s4, p, cs[4], !cs[2].ioError, pid);
    FiveSteps(s, p, cs, s1, s2, s3, s4, Step(s4, p, Turn(cs[4]), pid), pid);
  }

  // The same three parts, as steps of the protocol.
  predicate SameOrders(s: State, s': State, p: Proc) {
    p in s.pc && s.pc[p].Stopping? && p in s'.pc && s'.pc[p].Stopping? && s'.signals == s.signals &&
    s'.pc[p].stop.found.legacy == s.pc[p].stop.found.legacy && s'.pc[p].stop.found.force == s.pc[p].stop.found.force
  }

  lemma ProbeSteps(scene: Scene, s: State, p: Proc, c0: Choice, c1: Choice, pid: Proc -> Pid)
    requires p in s.pc && s.pc[p].Stopping? && s.pc[p].stop.at.ReadRecord? && !s.pc[p].stop.holds
    requires s.pc[p].stop.found.verified == {} && s.pc[p].stop.found.unverified == {} && s.shared.lock == scene.lock
    requires scene.file == s.shared.file && scene.other == c0.mismatch && scene.probed == !c1.ioError
    ensures Enabled(s, p, Turn(c0)) && Enabled(Step(s, p, Turn(c0), pid), p, Turn(c1))
    ensures var s2 := Step(Step(s, p, Turn(c0), pid), p, Turn(c1), pid);
      SameOrders(s, s2, p) && s2.pc[p].stop.at.Settle? && Probing(scene, s2.pc[p].stop, s2.shared)
  {
    hide Calm, SearchStep, Probing, Step;
    SearchMoves(s, p, c0, pid);
    var s1 := Step(s, p, Turn(c0), pid);
    ProbeFinds(scene, s.shared, p, s.pc[p].stop, c0, c1, Calm(s, p), Calm(s1, p));
    SearchMoves(s1, p, c1, pid);
  }

  lemma SettleSteps(scene: Scene, s: State, p: Proc, c2: Choice, c3: Choice, pid: Proc -> Pid)
    requires p in s.pc && s.pc[p].Stopping? && s.pc[p].stop.at.Settle?
    requires Probing(scene, s.pc[p].stop, s.shared) && scene.alive == c2.alive
    ensures Enabled(s, p, Turn(c2)) && Enabled(Step(s, p, Turn(c2), pid), p, Turn(c3))
    ensures var s2 := Step(Step(s, p, Turn(c2), pid), p, Turn(c3), pid);
      SameOrders(s, s2, p) && s2.pc[p].stop.at.Scan? && Judged(scene, s2.pc[p].stop, s2.shared, !c2.ioError)
  {
    hide Calm, SearchStep, Probing, Judged, Step;
    SearchMoves(s, p, c2, pid);
    var s1 := Step(s, p, Turn(c2), pid);
    SettleFinds(scene, s.shared, p, s.pc[p].stop, c2, c3, Calm(s, p), Calm(s1, p));
    SearchMoves(s1, p, c3, pid);
  }

  lemma ScanStep(scene: Scene, s: State, p: Proc, c4: Choice, removed: bool, pid: Proc -> Pid)
    requires p in s.pc && s.pc[p].Stopping? && s.pc[p].stop.at.Scan?
    requires Judged(scene, s.pc[p].stop, s.shared, removed) && scene.scan == c4.pids
    ensures Enabled(s, p, Turn(c4))
    ensures var s' := Step(s, p, Turn(c4), pid);
      && SameOrders(s, s', p) && s'.shared.lock == scene.lock
      && s'.shared.file == (if scene.Stale() && removed then None else scene.file)
      && var f := s'.pc[p].stop.found;
      && (forall x :: x in f.verified <==> scene.Verified(x))
      && (forall x :: x in f.unverified <==> f.legacy && scene.Unverified(x))
      && s'.pc[p].stop.at == (if Targets(f) == {} then Finished else Signalling)
  {
    hide Calm, SearchStep, Step, Targets, Scene.Verified, Scene.Unverified, Scene.Stale;
    SearchMoves(s, p, c4, pid);
    ScanFinds(scene, s.shared, p, s.pc[p].stop, c4, Calm(s, p), removed);
  }

  lemma SearchMoves(s: State, p: Proc, c: Choice, pid: Proc -> Pid)
    requires p in s.pc && s.pc[p].Stopping? && !Later(s.pc[p].stop.at)
    ensures Enabled(s, p, Turn(c))
    ensures var l := SearchStep(s.shared, p, s.pc[p].stop, c, Calm(s, p));
      Step(s, p, Turn(c), pid) == State(l.shared, s.pc[p := l.pc], s.signals + l.signals)
  {
    hide SearchStep, Calm;
  }

  lemma FiveSteps(s: State, p: Proc, cs: seq<Choice>, s1: State, s2: State, s3: State, s4: State, s5: State, pid: Proc -> Pid)
    requires |cs| == 5 && p in s.pc && p in s1.pc && p in s2.pc && p in s3.pc && p in s4.pc
    requires s1 == Step(s, p, Turn(cs[0]), pid) && s2 == Step(s1, p, Turn(cs[1]), pid) && s3 == Step(s2, p, Turn(cs[2]), pid)
    requires s4 == Step(s3, p, Turn(cs[3]), pid) && s5 == Step(s4, p, Turn(cs[4]), pid)
    ensures Run(s, TurnsOf(p, cs), pid) == Some(s5)
  {
    hide Step;
    RunStepByStep(s, TurnsOf(p, cs), [s, s1, s2, s3, s4, s5], pid);
  }

  // ----- the signals

  // A signal of this stop, after the grace period or before.
  ghost predicate Signalled(s: State, p: Proc, x: Pid, escalation: bool) {
    exists g :: g in s.signals && g.sender == p && g.pid == x && g.escalation == escalation
  }

  lemma SignalMoves(s: State, p: Proc, c: Choice, pid: Proc -> Pid)
    requires p in s.pc && s.pc[p].Stopping? && Later(s.pc[p].stop.at)
    ensures Enabled(s, p, Turn(c))
    ensures var l := SignalStep(s.shared, p, s.pc[p].stop, c, Calm(s, p));
      Step(s, p, Turn(c), pid) == State(l.shared, s.pc[p := l.pc], s.signals + l.signals)
  {
    hide SignalStep, Calm;
  }

  lemma SentTo(signals: set<Signal>, pids: set<Pid>, kill: bool, escalation: bool, p: Proc, st: Stop)
    requires forall g | g in signals :: g.sender != p || g.escalation != escalation
    ensures forall x :: x in pids <==>
      exists g :: g in signals + Sent(pids, kill, escalation, p, st) && g.sender == p && g.pid == x && g.escalation == escalation
  {
    forall x | x in pids
      ensures exists g :: g in signals + Sent(pids, kill, escalation, p, st) && g.sender == p && g.pid == x && g.escalation == escalation
    {
      assert Signal(kill, x, escalation, p, st) in signals + Sent(pids, kill, escalation, p, st);
    }
  }

  /** Every target gets the first signal, and nobody else. */
  lemma TargetsAreSignalled(s: State, p: Proc, c: Choice, pid: Proc -> Pid)
    requires p in s.pc && s.pc[p].Stopping? && s.pc[p].stop.at.Signalling?
    requires forall g | g in s.signals :: g.sender != p
    ensures var f := s.pc[p].stop.found;
      forall x :: Signalled(Step(s, p, Turn(c), pid), p, x, false) <==> x in f.verified || x in f.unverified
  {
    SignalMoves(s, p, c, pid);
    var st := s.pc[p].stop;
    SentTo(s.signals, Targets(st.found), st.found.force, false, p, st);
    hide Calm, Step, Sent;
  }

  function LastTurns(p: Proc, cs: seq<Choice>): Trace
    requires |cs| == 4
  {
    [(p, Turn(cs[0])), (p, Turn(cs[1])), (p, Turn(cs[2])), (p, Turn(cs[3]))]
  }

  /**
    When the grace period is over and the lock is still another's: SIGKILL goes to
    the recorded pid exactly when the file still names it, and to those of the
    unverified that still answer.
   */
  lemma SurvivorsAreKilled(s: State, p: Proc, cs: seq<Choice>, pid: Proc -> Pid)
    requires |cs| == 4 && forall k | 0 <= k < 4 :: !cs[k].ioError
    requires p in s.pc && s.pc[p].Stopping? && s.pc[p].stop.at.LastCheck? && s.shared.lock.Some? && s.shared.lock != Some(p)
    requires IsLocked(s.pc[p].stop.found.record) && s.pc[p].stop.found.verified != {}
    requires forall g | g in s.signals :: g.sender != p || !g.escalation
    ensures Run(s, LastTurns(p, cs), pid).Some?
    ensures var f, s' := s.pc[p].stop.found, Run(s, LastTurns(p, cs), pid).value;
      && s'.shared == s.shared
      && (forall x :: Signalled(s', p, x, true) <==>
            || (x in f.verified && Usable(s.shared.file) && s.shared.file.value.pid == f.record.value.pid)
            || (x in f.unverified && x in cs[3].pids))
      && forall g | g in s'.signals && g !in s.signals :: g.kill
  {
    hide Calm, Step, Signalled;
    ChecksAreMade(s, p, cs[0], cs[1], cs[2], pid);
    var s1 := Step(s, p, Turn(cs[0]), pid);
    var s2 := Step(s1, p, Turn(cs[1]), pid);
    var s3 := Step(s2, p, Turn(cs[2]), pid);
    KillSends(s3, p, cs[3], pid);
    FourSteps(s, p, cs, s1, s2, s3, Step(s3, p, Turn(cs[3]), pid), pid);
  }

  // The last look at the lock, the one before the kill, and the file read again.
  lemma ChecksAreMade(s: State, p: Proc, c0: Choice, c1: Choice, c2: Choice, pid: Proc -> Pid)
    requires !c0.ioError && !c1.ioError && !c2.ioError
    requires p in s.pc && s.pc[p].Stopping? && s.pc[p].stop.at.LastCheck? && s.shared.lock.Some? && s.shared.lock != Some(p)
    requires IsLocked(s.pc[p].stop.found.record) && s.pc[p].stop.found.verified != {}
    ensures Enabled(s, p, Turn(c0)) && Enabled(Step(s, p, Turn(c0), pid), p, Turn(c1))
    ensures Enabled(Step(Step(s, p, Turn(c0), pid), p, Turn(c1), pid), p, Turn(c2))
    ensures var s3 := Step(Step(Step(s, p, Turn(c0), pid), p, Turn(c1), pid), p, Turn(c2), pid);
      && s3.shared == s.shared && s3.signals == s.signals && p in s3.pc && s3.pc[p].Stopping? && s3.pc[p].stop.at.Kill?
      && var st := s3.pc[p].stop;
      && st.found == s.pc[p].stop.found && st.check.held
      && (st.check.named <==> Usable(s.shared.file) && s.shared.file.value.pid == st.found.record.value.pid)
  {
    hide Calm, Step, Sent, Targets;
    SignalMoves(s, p, c0, pid);
    var s1 := Step(s, p, Turn(c0), pid);
    SignalMoves(s1, p, c1, pid);
    SignalMoves(Step(s1, p, Turn(c1), pid), p, c2, pid);
  }

  lemma KillSends(s: State, p: Proc, c: Choice, pid: Proc -> Pid)
    requires p in s.pc && s.pc[p].Stopping? && s.pc[p].stop.at.Kill?
    requires forall g | g in s.signals :: g.sender != p || !g.escalation
    ensures Enabled(s, p, Turn(c))
    ensures var st, s' := s.pc[p].stop, Step(s, p, Turn(c), pid);
      && s'.shared == s.shared
      && (forall x :: Signalled(s', p, x, true) <==> x in (if Vouched(st) then st.found.verified else {}) + st.found.unverified * c.pids)
      && (forall g | g in s'.signals && g !in s.signals :: g.kill)
  {
    SignalMoves(s, p, c, pid);
    var st := s.pc[p].stop;
    SentTo(s.signals, (if Vouched(st) then st.found.verified else {}) + st.found.unverified * c.pids, true, true, p, st);
    hide Calm, Step;
  }

  lemma FourSteps(s: State, p: Proc, cs: seq<Choice>, s1: State, s2: State, s3: State, s4: State, pid: Proc -> Pid)
    requires |cs| == 4 && p in s.pc && p in s1.pc && p in s2.pc && p in s3.pc
    requires s1 == Step(s, p, Turn(cs[0]), pid) && s2 == Step(s1, p, Turn(cs[1]), pid) && s3 == Step(s2, p, Turn(cs[2]), pid)
    requires s4 == Step(s3, p, Turn(cs[3]), pid)
    ensures Run(s, LastTurns(p, cs), pid) == Some(s4)
  {
    hide Step;
    RunStepByStep(s, LastTurns(p, cs), [s, s1, s2, s3, s4], pid);
  }

  /** Where no record names the lock's holder, all verified pids get it. */
  lemma ScannedSurvivorsAreKilled(s: State, p: Proc, c0: Choice, c1: Choice, c2: Choice, pid: Proc -> Pid)
    requires !c0.ioError && !c1.ioError
    requires p in s.pc && s.pc[p].Stopping? && s.pc[p].stop.at.LastCheck? && s.shared.lock.Some? && s.shared.lock != Some(p)
    requires !IsLocked(s.pc[p].stop.found.record) && s.pc[p].stop.found.verified != {}
    requires forall g | g in s.signals :: g.sender != p || !g.escalation
    ensures var f := s.pc[p].stop.found;
      var s' := Step(Step(Step(s, p, Turn(c0), pid), p, Turn(c1), pid), p, Turn(c2), pid);
      s'.shared == s.shared &&
      forall x :: Signalled(s', p, x, true) <==> x in f.verified || (x in f.unverified && x in c2.pids)
  {
    hide Calm, Step, Signalled, Sent, Targets;
    SignalMoves(s, p, c0, pid);
    var s1 := Step(s, p, Turn(c0), pid);
    SignalMoves(s1, p, c1, pid);
    var s2 := Step(s1, p, Turn(c1), pid);
    assert s2.pc[p].stop.at.Kill? && Vouched(s2.pc[p].stop) && s2.pc[p].stop.found == s.pc[p].stop.found;
    assert s2.signals == s.signals && s2.shared == s.shared;
    KillSends(s2, p, c2, pid);
  }

  // The lock is free and no unverified pid answers, as far as there is anyone to look for.
  predicate AllGone(s: State, p: Proc, c: Choice)
    requires p in s.pc && s.pc[p].Stopping?
  {
    var f := s.pc[p].stop.found;
    f.unverified * c.pids == {} && (f.verified == {} || (!c.ioError && s.shared.lock.None?))
  }

  /** While time is left and a target is there, nothing is sent; then it is looked at once more. */
  lemma WaitsWhileTimeIsLeft(s: State, p: Proc, c: Choice, pid: Proc -> Pid)
    requires p in s.pc && s.pc[p].Stopping? && s.pc[p].stop.at.Wait? && !s.pc[p].stop.holds
    ensures var s' := Step(s, p, Turn(c), pid);
      && s'.signals == s.signals && s'.pc[p].Stopping?
      && (s'.pc[p].stop.at.Wait? <==> !AllGone(s, p, c) && c.again)
      && (!s'.pc[p].stop.at.Wait? ==> s'.pc[p].stop.at.LastCheck? || s'.pc[p].stop.at.WaitRelease?)
  {
    hide Calm;
  }

  /** The clean-up removes the record exactly while nobody else holds the lock, and gives the lock back. */
  lemma CleanUpRemoves(s: State, p: Proc, c0: Choice, c1: Choice, c2: Choice, pid: Proc -> Pid)
    requires p in s.pc && s.pc[p].Stopping? && s.pc[p].stop.at.CleanProbe? && !s.pc[p].stop.holds && s.shared.lock != Some(p)
    requires !c0.ioError && !c1.ioError
    ensures var s' := Step(Step(Step(s, p, Turn(c0), pid), p, Turn(c1), pid), p, Turn(c2), pid);
      && s'.pc[p].Stopping? && s'.pc[p].stop.at.Finished? && s'.signals == s.signals && s'.shared.lock == s.shared.lock
      && s'.shared.file == if s.shared.lock.None? then None else s.shared.file
  {
    hide Calm, Step, Sent, Targets;
    SignalMoves(s, p, c0, pid);
    var s1 := Step(s, p, Turn(c0), pid);
    SignalMoves(s1, p, c1, pid);
    SignalMoves(Step(s1, p, Turn(c1), pid), p, c2, pid);
  }

  /** When they are all gone there is no second signal: the clean-up is next. */
  lemma GoneIsNotKilled(s: State, p: Proc, c: Choice, c': Choice, pid: Proc -> Pid)
    requires p in s.pc && s.pc[p].Stopping? && s.pc[p].stop.at.LastCheck? && !s.pc[p].stop.holds && AllGone(s, p, c)
    ensures var s1 := Step(s, p, Turn(c), pid);
      var s' := if s.pc[p].stop.found.verified == {} then s1 else Step(s1, p, Turn(c'), pid);
      s'.signals == s.signals && s'.shared.lock == s.shared.lock && s'.pc[p].Stopping? && s'.pc[p].stop.at.CleanProbe?
  {
    hide Calm;
  }
}
