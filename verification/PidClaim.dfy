/**
  claimPIDFile and removePIDFile as the source runs them (cmd/itervox/pidfile.go),
  and that each is a run of the protocol's steps with nobody in between.
 */
module PidClaim {
  import opened Bytes
  import opened PidProtocol
  import opened PidRuns

  // The pid file and its lock; each method is one system call.
  class PidDir {
    var shared: Shared

    method TryLock(p: Proc, c: Choice) returns (acquired: bool)
      modifies this
      ensures acquired == (old(shared).lock.None? && !c.ioError)
      ensures shared == if acquired then Taken(old(shared), p) else old(shared)
    {
      acquired := shared.lock.None? && !c.ioError;
      if acquired {
        shared := Taken(shared, p);
      }
    }

    method LinkClaim(p: Proc, me: Pid, c: Choice) returns (linked: bool, taken: bool)
      modifies this
      ensures linked == (!c.ioError && old(shared).file.None?) && taken == (!c.ioError && old(shared).file.Some?)
      ensures shared == if linked then Linked(old(shared), p, me) else old(shared)
    {
      linked, taken := !c.ioError && shared.file.None?, !c.ioError && shared.file.Some?;
      if linked {
        shared := Linked(shared, p, me);
      }
    }

    method Remove(c: Choice) returns (failed: bool)
      modifies this
      ensures failed == c.ioError && shared == if failed then old(shared) else old(shared).(file := None)
    {
      failed := c.ioError;
      if !failed {
        shared := shared.(file := None);
      }
    }

    method Release()
      modifies this
      ensures shared == old(shared).(lock := None)
    {
      shared := shared.(lock := None);
    }
  }

  // ----- a claimant with nobody in between

  /** The claimant's own steps, until it has the claim or is gone. */
  function Alone(sh: Shared, p: Proc, pc: Pc, cs: seq<Choice>, me: Pid): (Shared, Pc)
    requires !pc.Stopping?
    decreases |cs|
  {
    if cs == [] || pc.Claimed? || pc.Gone? then (sh, pc)
    else
      var l := ClaimStep(sh, p, pc, cs[0], me);
      Alone(l.shared, p, l.pc, cs[1..], me)
  }

  // One more step of its own.
  lemma AloneStep(sh: Shared, p: Proc, pc: Pc, cs: seq<Choice>, k: nat, me: Pid)
    requires k < |cs| && !pc.Stopping? && !pc.Claimed? && !pc.Gone?
    ensures var l := ClaimStep(sh, p, pc, cs[k], me);
      !l.pc.Stopping? && Alone(sh, p, pc, cs[k..], me) == Alone(l.shared, p, l.pc, cs[k + 1..], me)
  {
    assert cs[k..][1..] == cs[k + 1..];
  }

  lemma AloneEnds(sh: Shared, p: Proc, pc: Pc, cs: seq<Choice>, me: Pid)
    requires pc.Claimed? || pc.Gone?
    ensures Alone(sh, p, pc, cs, me) == (sh, pc)
  {
  }

  /** The file names another process, which is alive, as an older daemon. */
  predicate OlderDaemonLives(file: Option<Record>, me: Pid, alive: bool) {
    alive && file.Some? && file.value.Legacy? && file.value.pid != me
  }

  /**
    What a claim comes to with nobody in between. A held lock refuses it; a free
    one does exactly when an older daemon of another pid is found alive. Refused,
    it leaves file and lock as they were; else file and lock are its own.
   */
  lemma ClaimDecides(sh: Shared, p: Proc, cs: seq<Choice>, me: Pid)
    requires |cs| >= CALLS && forall k | 0 <= k < |cs| :: !cs[k].ioError
    ensures var (sh', pc) := Alone(sh, p, Locking, cs, me);
      if sh.lock.Some? || OlderDaemonLives(sh.file, me, cs[2].alive)
      then pc.Gone? && sh'.file == sh.file && sh'.lock == sh.lock
      else pc.Claimed? && sh'.file == Some(Locked(me, p)) && sh'.lock == Some(p)
  {
    assert cs[0..] == cs;
    AloneStep(sh, p, Locking, cs, 0, me);
    if sh.lock.None? {
      var stale := Reclaimable(sh.file, me);
      var sh1 := Taken(sh, p);
      AloneStep(sh1, p, Linking(0, stale), cs, 1, me);
      if sh.file.Some? {
        AloneStep(sh1, p, Reading(0, stale), cs, 2, me);
        if OlderDaemonLives(sh.file, me, cs[2].alive) {
          AloneStep(sh1, p, Releasing(stale, false), cs, 3, me);
        } else {
          AloneStep(sh1, p, Removing(0, stale, Read(sh.file, cs[2].alive, false)), cs, 3, me);
          AloneStep(sh1.(file := None), p, Linking(1, stale), cs, 4, me);
        }
      }
    }
  }

  // Whatever fails, a claim that is not made gives the lock back.
  lemma {:induction false} ClaimIsWholeOrGone(sh: Shared, p: Proc, pc: Pc, cs: seq<Choice>, me: Pid)
    requires !pc.Stopping? && !pc.Deleting? && !pc.Unlocking?
    requires match pc
      case Locking => sh.lock != Some(p)
      case Gone => sh.lock != Some(p)
      case Claimed => sh.lock == Some(p) && sh.file == Some(Locked(me, p))
      case _ => sh.lock == Some(p)
    ensures var (sh', pc') := Alone(sh, p, pc, cs, me);
      && (pc'.Claimed? ==> sh'.lock == Some(p) && sh'.file == Some(Locked(me, p)))
      && (pc'.Gone? ==> sh'.lock != Some(p))
    decreases |cs|
  {
    if cs != [] && !pc.Claimed? && !pc.Gone? {
      var l := ClaimStep(sh, p, pc, cs[0], me);
      ClaimIsWholeOrGone(l.shared, p, l.pc, cs[1..], me);
    }
  }

  // The lock, two attempts of three calls, the release.
  const CALLS := 8

  // Where the claimant is before its i-th attempt.
  function BeforeAttempt(i: nat, stale: bool): Pc { if i < 2 then Linking(i, stale) else Releasing(stale, false) }

  datatype Outcome = Again | Holding | Refused

  method ClaimPidFile(dir: PidDir, p: Proc, me: Pid, cs: seq<Choice>) returns (claimed: bool)
    requires |cs| >= CALLS
    modifies dir
    ensures (dir.shared, if claimed then Claimed else Gone) == Alone(old(dir.shared), p, Locking, cs, me)
    ensures (forall k | 0 <= k < |cs| :: !cs[k].ioError) ==>
      (claimed <==> old(dir.shared).lock.None? && !OlderDaemonLives(old(dir.shared).file, me, cs[2].alive)) &&
      (!claimed ==> dir.shared.file == old(dir.shared).file && dir.shared.lock == old(dir.shared).lock)
    ensures old(dir.shared).lock != Some(p) ==>
      if claimed then dir.shared.file == Some(Locked(me, p)) && dir.shared.lock == Some(p) else dir.shared.lock != Some(p)
  {
    if forall k | 0 <= k < |cs| :: !cs[k].ioError {
      ClaimDecides(dir.shared, p, cs, me);
    }
    if dir.shared.lock != Some(p) {
      ClaimIsWholeOrGone(dir.shared, p, Locking, cs, me);
    }
    hide Alone, Reclaimable;
    ghost var start := dir.shared;
    ghost var stale := Reclaimable(start.file, me);
    assert cs[0..] == cs;
    AloneStep(start, p, Locking, cs, 0, me);
    var acquired := dir.TryLock(p, cs[0]);
    if !acquired {
      AloneEnds(dir.shared, p, Gone, cs[1..], me);
      return false;
    }
    for i := 0 to 2
      invariant Alone(start, p, Locking, cs, me) == Alone(dir.shared, p, BeforeAttempt(i, stale), cs[1 + 3 * i..], me)
    {
      var outcome := Attempt(dir, p, me, cs, i, stale);
      if !outcome.Again? {
        return outcome.Holding?;
      }
    }
    AloneStep(dir.shared, p, Releasing(stale, false), cs, 7, me);
    dir.Release();
    AloneEnds(dir.shared, p, Gone, cs[8..], me);
    return false;
  }

  // One turn of the loop: link, else read, else remove; what fails lets the lock go.
  method Attempt(dir: PidDir, p: Proc, me: Pid, cs: seq<Choice>, i: nat, ghost stale: bool) returns (outcome: Outcome)
    requires i < 2 && 1 + 3 * i + 3 < |cs|
    modifies dir
    ensures var before := Alone(old(dir.shared), p, BeforeAttempt(i, stale), cs[1 + 3 * i..], me);
      match outcome
      case Again => before == Alone(dir.shared, p, BeforeAttempt(i + 1, stale), cs[1 + 3 * (i + 1)..], me)
      case Holding => before == (dir.shared, Claimed)
      case Refused => before == (dir.shared, Gone)
  {
    hide Alone;
    var k := 1 + 3 * i;
    AloneStep(dir.shared, p, Linking(i, stale), cs, k, me);
    var linked, taken := dir.LinkClaim(p, me, cs[k]);
    if linked {
      AloneEnds(dir.shared, p, Claimed, cs[k + 1..], me);
      return Holding;
    }
    if !taken {
      outcome := LetGo(dir, p, me, cs, k + 1, stale, true);
      return;
    }
    AloneStep(dir.shared, p, Reading(i, stale), cs, k + 1, me);
    if dir.shared.file.Some? && !cs[k + 1].ioError && RecordHolderAlive(dir.shared.file.value, me, cs[k + 1].alive) {
      outcome := LetGo(dir, p, me, cs, k + 2, stale, false);
      return;
    }
    ghost var read := Read(dir.shared.file, cs[k + 1].alive, cs[k + 1].ioError);
    AloneStep(dir.shared, p, Removing(i, stale, read), cs, k + 2, me);
    var failed := dir.Remove(cs[k + 2]);
    if failed {
      outcome := LetGo(dir, p, me, cs, k + 3, stale, true);
      return;
    }
    outcome := Again;
  }

  // The deferred release of a claim that was not made.
  method LetGo(dir: PidDir, p: Proc, me: Pid, cs: seq<Choice>, k: nat, ghost stale: bool, ghost ioFailed: bool)
    returns (outcome: Outcome)
    requires k < |cs|
    modifies dir
    ensures outcome == Refused
    ensures Alone(old(dir.shared), p, Releasing(stale, ioFailed), cs[k..], me) == (dir.shared, Gone)
  {
    hide Alone;
    AloneStep(dir.shared, p, Releasing(stale, ioFailed), cs, k, me);
    dir.Release();
    AloneEnds(dir.shared, p, Gone, cs[k + 1..], me);
    outcome := Refused;
  }

  /** The file goes before the lock, which goes in any case. */
  method RemovePidFile(dir: PidDir, p: Proc, me: Pid, cs: seq<Choice>)
    requires |cs| == 2
    modifies dir
    ensures (dir.shared, Gone) == Alone(old(dir.shared), p, Deleting, cs, me)
    ensures dir.shared.lock.None? && dir.shared.file == if cs[0].ioError then old(dir.shared).file else None
  {
    hide Alone;
    assert cs[0..] == cs;
    AloneStep(dir.shared, p, Deleting, cs, 0, me);
    var _ := dir.Remove(cs[0]);
    AloneStep(dir.shared, p, Unlocking, cs, 1, me);
    dir.Release();
    AloneEnds(dir.shared, p, Gone, cs[2..], me);
  }

  // ----- the steps of the protocol

  function Turns(p: Proc, cs: seq<Choice>): Trace { if cs == [] then [] else [(p, Turn(cs[0]))] + Turns(p, cs[1..]) }

  // The protocol's state with this process where it is and the rest as they were.
  function With(s: State, sh: Shared, p: Proc, pc: Pc): State { State(sh, s.pc[p := pc], s.signals) }

  /**
    What a claimant does alone is a run of its turns in the protocol: some
    number of them, until it has the claim or is gone.
   */
  lemma {:induction false} AloneIsARun(s: State, p: Proc, sh: Shared, pc: Pc, cs: seq<Choice>, pid: Proc -> Pid)
    returns (n: nat)
    requires !pc.Stopping?
    ensures n <= |cs|
    ensures var (sh', pc') := Alone(sh, p, pc, cs, pid(p));
      Run(With(s, sh, p, pc), Turns(p, cs[..n]), pid) == Some(With(s, sh', p, pc'))
    decreases |cs|
  {
    hide ClaimStep, Calm;
    if cs == [] || pc.Claimed? || pc.Gone? {
      n := 0;
      assert cs[..0] == [];
    } else {
      var l := ClaimStep(sh, p, pc, cs[0], pid(p));
      ClaimStepIsOwn(sh, p, pc, cs[0], pid(p));
      var m := AloneIsARun(s, p, l.shared, l.pc, cs[1..], pid);
      n := m + 1;
      assert cs[..n][1..] == cs[1..][..m] && cs[..n][0] == cs[0];
      var t := Turns(p, cs[..n]);
      assert t == [(p, Turn(cs[0]))] + Turns(p, cs[1..][..m]) && t[1..] == Turns(p, cs[1..][..m]);
      StepAlone(s, p, sh, pc, cs[0], pid);
    }
  }

  lemma ClaimStepIsOwn(sh: Shared, p: Proc, pc: Pc, c: Choice, me: Pid)
    requires !pc.Stopping?
    ensures !ClaimStep(sh, p, pc, c, me).pc.Stopping? && ClaimStep(sh, p, pc, c, me).signals == {}
  {
  }

  lemma StepAlone(s: State, p: Proc, sh: Shared, pc: Pc, c: Choice, pid: Proc -> Pid)
    requires !pc.Stopping?
    ensures var l := ClaimStep(sh, p, pc, c, pid(p));
      Enabled(With(s, sh, p, pc), p, Turn(c)) && Step(With(s, sh, p, pc), p, Turn(c), pid) == With(s, l.shared, p, l.pc)
  {
    hide Calm;
    ClaimStepIsOwn(sh, p, pc, c, pid(p));
    var w := With(s, sh, p, pc);
    var l := ClaimStep(sh, p, pc, c, pid(p));
    assert w.pc[p := l.pc] == s.pc[p := l.pc];
    assert w.signals + {} == s.signals;
  }
}
