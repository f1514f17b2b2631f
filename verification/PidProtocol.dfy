/**
  The pid-file claim and `itervox stop` (cmd/itervox/pidfile.go,
  pidlock_flock.go, stop.go) as interleaved steps. A step is one system call:
  a try of the lock, a hard link, a read, a removal, an unlock, a signal. Any
  process may crash between any two, and the kernel then drops its lock.
  Process identities are never reused; pids are.
 */
module PidProtocol {
  import opened Bytes

  type Proc = nat
  type Pid = int

  /** The pid file. `writer` is not in the file; it says who linked the record. */
  datatype Record = Malformed | Legacy(pid: Pid) | Locked(pid: Pid, writer: Proc)

  datatype LockState = HeldByOther | Free | Unknown

  // Where a stop is, between two system calls.
  datatype StopAt =
    | ReadRecord | Probe | Settle | Release | Scan | Signalling
    | Wait | WaitRelease | LastCheck | LastRelease | KillProbe | KillRelease | Reread | Kill
    | CleanProbe | CleanRemove | CleanRelease | Finished

  // What a stop has found out.
  datatype Findings = Findings(
    legacy: bool, force: bool,
    record: Option<Record>,     // haveRecord and rec
    accounted: bool,            // lockAccounted
    probe: LockState,
    verified: set<Pid>, unverified: set<Pid>,
    // for the theorems: whether no claim was under way when the record was read,
    // how often the lock had been taken by then, and whose lock the probe met
    calm: bool, readAt: nat, holder: Option<Proc>, byRecord: bool)

  // The two checks before a SIGKILL: what the code concludes, and what the lock,
  // its history and the file were when it looked.
  datatype KillCheck = KillCheck(
    held: bool, named: bool,
    holder: Option<Proc>, probedAt: nat, calm: bool,
    file: Option<Record>, rereadAt: nat)

  datatype Stop = Stop(
    at: StopAt,
    holds: bool,                // stop has the lock now
    check: KillCheck,
    found: Findings)

  // A claimant's look at the file: the record, whether its process answers, and
  // whether the file could be read.
  datatype Read = Read(file: Option<Record>, alive: bool, failed: bool)

  datatype Pc =
    // a claimant; `stale` says the file was reclaimable when the lock was taken
    | Locking
    | Linking(attempt: nat, stale: bool)
    | Reading(attempt: nat, stale: bool)
    | Removing(attempt: nat, stale: bool, read: Read)   // what the read before it said
    | Releasing(stale: bool, ioFailed: bool)
    | Claimed
    | Deleting
    | Unlocking
    | Gone
    | Stopping(stop: Stop)

  datatype Signal = Signal(kill: bool, pid: Pid, escalation: bool, sender: Proc, stop: Stop)

  /** What processes share. `grabs` counts how often the lock was taken. */
  datatype Shared = Shared(
    file: Option<Record>, lock: Option<Proc>, grabs: nat,
    unlockedRemoval: bool)      // a stop removed the file without the lock since it was last linked

  datatype State = State(shared: Shared, pc: map<Proc, Pc>, signals: set<Signal>)

  // What the system answers at one step: a failed call, a live pid, another
  // project's path in the record, the pids a scan finds or that answer, time left.
  datatype Choice = Choice(ioError: bool, alive: bool, mismatch: bool, pids: set<Pid>, again: bool)

  datatype Event = Spawn(stop: bool, legacy: bool, force: bool) | Turn(choice: Choice) | Exit | Crash

  // ----- the source's decisions

  /** Consulted only with the lock held. */
  predicate RecordHolderAlive(r: Record, me: Pid, alive: bool) {
    match r
    case Locked(_, _) => false
    case Legacy(pid) => pid != me && alive
    case Malformed => false
  }

  /** Absent, malformed, lock-marked, or this process's own pid. */
  predicate Reclaimable(file: Option<Record>, me: Pid) {
    file.None? || !file.value.Legacy? || file.value.pid == me
  }

  predicate Holds(pc: Pc) {
    match pc
    case Locking => false
    case Gone => false
    case Stopping(stop) => stop.holds
    case _ => true
  }

  // A lock holder other than a daemon with its record in place.
  predicate InTransit(pc: Pc) { Holds(pc) && !pc.Claimed? && !pc.Deleting? && !pc.Unlocking? }

  predicate Usable(file: Option<Record>) { file.Some? && !file.value.Malformed? }

  predicate IsLocked(r: Option<Record>) { r.Some? && r.value.Locked? }

  function Positive(pids: set<Pid>): set<Pid> { set x | x in pids && x > 0 }

  // ----- one process's step

  datatype Local = Local(shared: Shared, pc: Pc, signals: set<Signal>)

  function Taken(sh: Shared, p: Proc): Shared { sh.(lock := Some(p), grabs := sh.grabs + 1) }

  function Linked(sh: Shared, p: Proc, me: Pid): Shared {
    sh.(file := Some(Locked(me, p)), unlockedRemoval := false)
  }

  /** claimPIDFile, then removePIDFile. */
  function ClaimStep(sh: Shared, p: Proc, pc: Pc, c: Choice, me: Pid): Local
    requires !pc.Stopping?
  {
    match pc
    case Locking =>
      if sh.lock.None? && !c.ioError then Local(Taken(sh, p), Linking(0, Reclaimable(sh.file, me)), {})
      else Local(sh, Gone, {})
    case Linking(i, stale) =>
      if c.ioError then Local(sh, Releasing(stale, true), {})
      else if sh.file.None? then Local(Linked(sh, p, me), Claimed, {})
      else Local(sh, Reading(i, stale), {})
    case Reading(i, stale) =>
      if sh.file.Some? && !c.ioError && RecordHolderAlive(sh.file.value, me, c.alive) then Local(sh, Releasing(stale, false), {})
      else Local(sh, Removing(i, stale, Read(sh.file, c.alive, c.ioError)), {})
    case Removing(i, stale, _) =>
      if c.ioError then Local(sh, Releasing(stale, true), {})
      else Local(sh.(file := None), if i == 0 then Linking(1, stale) else Releasing(stale, false), {})
    case Releasing(_, _) => Local(sh.(lock := None), Gone, {})
    case Deleting => Local(if c.ioError then sh else sh.(file := None), Unlocking, {})
    case Unlocking => Local(sh.(lock := None), Gone, {})
    case Claimed => Local(sh, pc, {})
    case Gone => Local(sh, pc, {})
  }

  // probePIDLock: the lock is taken when it is free.
  function Probed(sh: Shared, p: Proc, st: Stop, error: bool, free: StopAt, held: StopAt, unknown: StopAt): Local {
    if error then Local(sh, Stopping(st.(at := unknown)), {})
    else if sh.lock.None? then Local(Taken(sh, p), Stopping(st.(holds := true, at := free)), {})
    else Local(sh, Stopping(st.(at := held)), {})
  }

  function Released(sh: Shared, st: Stop, next: StopAt): Local {
    Local(if st.holds then sh.(lock := None) else sh, Stopping(st.(holds := false, at := next)), {})
  }

  function Stays(sh: Shared, st: Stop): Local { Local(sh, Stopping(st), {}) }

  // os.Remove, which may fail.
  function Removed(sh: Shared, error: bool): Shared { if error then sh else sh.(file := None) }

  /** The first switch of stopProject: whom the record vouches for, or whether it goes. */
  function Settled(sh: Shared, f: Findings, c: Choice): (Shared, Findings) {
    if !Usable(f.record) then (sh, f)
    else if f.record.value.Locked? && f.probe.HeldByOther? then
      (sh, f.(verified := Positive({f.record.value.pid}), accounted := true, byRecord := true))
    else if f.record.value.Locked? && f.probe.Free? then (Removed(sh, c.ioError), f.(record := None))
    else if c.alive then (sh, f.(unverified := Positive({f.record.value.pid})))
    else if f.probe.Free? then (Removed(sh, c.ioError), f.(record := None))
    else (sh, f)
  }

  // The directory scan, and what --legacy allows.
  function Scanned(f: Findings, scanned: set<Pid>): Findings {
    var fresh' := Positive(scanned) - f.verified - f.unverified;
    var vouched := f.probe.HeldByOther? && !f.accounted;
    f.(verified := if vouched then f.verified + fresh' else f.verified,
       unverified := if !f.legacy then {} else if vouched then f.unverified else f.unverified + fresh')
  }

  // lockStillVouches, once its two checks have been made.
  predicate Vouched(st: Stop) { st.check.held && (st.check.named || !IsLocked(st.found.record)) }

  function Sent(pids: set<Pid>, kill: bool, escalation: bool, p: Proc, st: Stop): set<Signal> {
    set x | x in pids :: Signal(kill, x, escalation, p, st)
  }

  function Targets(f: Findings): set<Pid> { f.verified + f.unverified }

  predicate Later(at: StopAt) {
    !at.ReadRecord? && !at.Probe? && !at.Settle? && !at.Release? && !at.Scan?
  }

  /** stopProject up to its targets; `calm` says that no claim is under way. */
  function SearchStep(sh: Shared, p: Proc, st: Stop, c: Choice, calm: bool): Local
    requires !Later(st.at)
  {
    var f := st.found;
    match st.at
    case ReadRecord =>
      Stays(sh, st.(found := f.(record := if Usable(sh.file) && !c.mismatch then sh.file else None,
                                accounted := c.mismatch && IsLocked(sh.file),
                                calm := calm, readAt := sh.grabs), at := Probe))
    case Probe =>
      var state := if c.ioError then Unknown else if sh.lock.None? then Free else HeldByOther;
      Probed(sh, p, st.(found := f.(probe := state, holder := sh.lock, calm := f.calm && f.readAt == sh.grabs)),
             c.ioError, Settle, Settle, Settle)
    case Settle =>
      var (sh', f') := Settled(sh, f, c);
      Stays(sh', st.(found := f', at := Release))
    case Release => Released(sh, st, Scan)
    case Scan =>
      var f' := Scanned(f, c.pids);
      Stays(sh, st.(found := f', at := if Targets(f') == {} then Finished else Signalling))
  }

  // stopTargetsGone: no unverified pid answers, and the lock is free if any pid is verified.
  function GoneStep(sh: Shared, p: Proc, st: Stop, c: Choice, free: StopAt, gone: StopAt, still: StopAt): Local {
    if st.found.unverified * c.pids != {} then Stays(sh, st.(at := still))
    else if st.found.verified == {} then Stays(sh, st.(at := gone))
    else Probed(sh, p, st, c.ioError, free, still, still)
  }

  /** The signals, the grace period, the escalation and the clean-up. */
  function SignalStep(sh: Shared, p: Proc, st: Stop, c: Choice, calm: bool): Local
    requires Later(st.at)
  {
    match st.at
    case Signalling =>
      Local(sh, Stopping(st.(at := if st.found.force then CleanProbe else if c.again then Wait else LastCheck)),
            Sent(Targets(st.found), st.found.force, false, p, st))
    // stopTargetsGone, until the grace period is over; then once more
    case Wait => GoneStep(sh, p, st, c, WaitRelease, LastCheck, if c.again then Wait else LastCheck)
    case WaitRelease => Released(sh, st, LastCheck)
    case LastCheck => GoneStep(sh, p, st, c, LastRelease, CleanProbe, KillProbe)
    case LastRelease => Released(sh, st, CleanProbe)
    case KillProbe =>
      if st.found.verified == {} then Stays(sh, st.(at := Kill))
      else
        var check := KillCheck(!c.ioError && sh.lock.Some?, false, sh.lock, sh.grabs, calm, None, 0);
        Probed(sh, p, st.(check := check), c.ioError,
               KillRelease, if IsLocked(st.found.record) then Reread else Kill, Kill)
    case KillRelease => Released(sh, st, Kill)
    case Reread =>
      var names := Usable(sh.file) && Usable(st.found.record) && sh.file.value.pid == st.found.record.value.pid;
      Stays(sh, st.(check := st.check.(named := names && !c.ioError, file := sh.file, rereadAt := sh.grabs), at := Kill))
    case Kill =>
      Local(sh, Stopping(st.(at := CleanProbe)),
            Sent((if Vouched(st) then st.found.verified else {}) + st.found.unverified * c.pids, true, true, p, st))
    case CleanProbe => Probed(sh, p, st, c.ioError, CleanRemove, Finished, CleanRemove)
    case CleanRemove =>
      Local(if c.ioError then sh else sh.(file := None, unlockedRemoval := sh.unlockedRemoval || !st.holds),
            Stopping(st.(at := CleanRelease)), {})
    case CleanRelease => Released(sh, st, Finished)
    case Finished => Stays(sh, st)
  }

  // ----- all processes

  predicate Enabled(s: State, p: Proc, e: Event) {
    match e
    case Spawn(_, _, _) => p !in s.pc
    case Turn(_) => p in s.pc
    case Exit => p in s.pc && s.pc[p].Claimed?
    case Crash => p in s.pc
  }

  predicate Calm(s: State, p: Proc) {
    forall q | q in s.pc :: q != p ==> !InTransit(s.pc[q])
  }

  function NewStop(legacy: bool, force: bool): Stop {
    Stop(ReadRecord, false, KillCheck(false, false, None, 0, false, None, 0),
         Findings(legacy, force, None, false, Unknown, {}, {}, false, 0, None, false))
  }

  function LocalStep(sh: Shared, p: Proc, pc: Pc, e: Event, me: Pid, calm: bool): Local
    requires !e.Spawn?
  {
    match e
    case Exit => Local(sh, if pc.Claimed? then Deleting else pc, {})
    case Crash => Local(if Holds(pc) then sh.(lock := None) else sh, Gone, {})
    case Turn(c) =>
      if !pc.Stopping? then ClaimStep(sh, p, pc, c, me)
      else if Later(pc.stop.at) then SignalStep(sh, p, pc.stop, c, calm)
      else SearchStep(sh, p, pc.stop, c, calm)
  }

  function Step(s: State, p: Proc, e: Event, pid: Proc -> Pid): State
    requires Enabled(s, p, e)
  {
    if e.Spawn? then
      s.(pc := s.pc[p := if e.stop then Stopping(NewStop(e.legacy, e.force)) else Locking])
    else
      var l := LocalStep(s.shared, p, s.pc[p], e, pid(p), Calm(s, p));
      State(l.shared, s.pc[p := l.pc], s.signals + l.signals)
  }

  // ----- the invariant, process by process

  predicate Owns(pc: Pc) { pc.Claimed? || pc.Deleting? || pc.Unlocking? }

  predicate ClaimOk(sh: Shared, p: Proc, pc: Pc, me: Pid) {
    match pc
    // the record of a daemon that has claimed is the one on disk, unless a stop
    // has removed it without the lock
    case Claimed => if sh.unlockedRemoval then sh.file.None? else sh.file == Some(Locked(me, p))
    case Deleting => if sh.unlockedRemoval then sh.file.None? else sh.file == Some(Locked(me, p))
    case Unlocking => sh.file.None? || sh.file == Some(Locked(me, p))
    // a lock taken over a reclaimable file meets no live holder and needs no third link
    case Linking(i, stale) => i <= 1 && (stale ==> if i == 0 then Reclaimable(sh.file, me) else sh.file.None?)
    case Reading(i, stale) => i <= 1 && (stale ==> i == 0 && Reclaimable(sh.file, me))
    // what it is about to remove is what it read, and not a live older daemon's
    case Removing(i, stale, read) =>
      i <= 1 && (stale ==> i == 0) && (sh.file.None? || sh.file == read.file) && !LiveOlder(read, me)
    case Releasing(stale, ioFailed) => stale ==> ioFailed
    case _ => true
  }

  /** The record of an older daemon, another process that was found alive. */
  predicate LiveOlder(read: Read, me: Pid) {
    !read.failed && read.file.Some? && read.file.value.Legacy? && read.file.value.pid != me && read.alive
  }

  // The record read while no claim was under way names the lock's holder.
  predicate NamesHolder(f: Findings, holder: Option<Proc>, pid: Proc -> Pid) {
    IsLocked(f.record) && holder == Some(f.record.value.writer) && f.record.value.pid == pid(f.record.value.writer)
  }

  predicate FindingsOk(f: Findings, p: Proc, pid: Proc -> Pid) {
    && (f.calm && IsLocked(f.record) && f.probe.HeldByOther? ==> NamesHolder(f, f.holder, pid))
    && (f.probe.HeldByOther? ==> f.holder.Some? && f.holder != Some(p))
    && (f.byRecord ==>
          IsLocked(f.record) && f.probe.HeldByOther? && f.accounted && f.verified == Positive({f.record.value.pid}))
    && (f.verified != {} ==> f.probe.HeldByOther?)
  }

  predicate MayHold(at: StopAt) {
    at.Settle? || at.Release? || at.WaitRelease? || at.LastRelease? || at.KillRelease? || at.CleanRemove? || at.CleanRelease?
  }

  // After the first signals, unless they were SIGKILLs.
  predicate InGrace(at: StopAt) {
    at.Wait? || at.WaitRelease? || at.LastCheck? || at.LastRelease? || at.KillProbe? || at.KillRelease? || at.Reread? || at.Kill?
  }

  // What the holder h of the lock, not under way, can leave in the file.
  predicate LeftBy(file: Option<Record>, h: Proc, pid: Proc -> Pid) { file.None? || file == Some(Locked(pid(h), h)) }

  // Between the two checks: no other holder, and if all was calm only its record.
  predicate Checking(sh: Shared, k: KillCheck, p: Proc, pid: Proc -> Pid) {
    && k.held && k.holder.Some? && k.holder != Some(p) && k.probedAt <= sh.grabs
    && (k.probedAt == sh.grabs ==> sh.lock.None? || sh.lock == k.holder)
    && (k.probedAt == sh.grabs && k.calm ==> LeftBy(sh.file, k.holder.value, pid))
  }

  // After both: another process had the lock, and the file named the record's pid.
  predicate Checked(k: KillCheck, f: Findings, p: Proc, pid: Proc -> Pid) {
    && (k.held ==> k.holder.Some? && k.holder != Some(p))
    && (k.named ==> k.held && Usable(k.file) && Usable(f.record) && k.file.value.pid == f.record.value.pid)
    && (k.named && k.calm && k.rereadAt == k.probedAt ==> LeftBy(k.file, k.holder.value, pid))
  }

  predicate StopOk(sh: Shared, p: Proc, st: Stop, pid: Proc -> Pid) {
    var f := st.found;
    && f.readAt <= sh.grabs
    && (st.holds ==> MayHold(st.at))
    && (st.at.ReadRecord? || st.at.Probe? ==> f.verified == {} && f.unverified == {} && !f.byRecord)
    && (st.at.Probe? && f.calm && f.readAt == sh.grabs && IsLocked(f.record) && sh.lock.Some? ==>
          NamesHolder(f, sh.lock, pid))
    && (!st.at.ReadRecord? && !st.at.Probe? ==> FindingsOk(f, p, pid))
    && (st.at.Settle? && f.probe.Free? ==> st.holds)
    && (Later(st.at) && !f.legacy ==> f.unverified == {})
    && (InGrace(st.at) ==> !f.force)
    && (!Later(st.at) ==> !st.check.named)
    && (if st.at.Reread? then Checking(sh, st.check, p, pid) else Checked(st.check, f, p, pid))
  }

  predicate ProcOk(sh: Shared, p: Proc, pc: Pc, pid: Proc -> Pid) {
    (Holds(pc) <==> sh.lock == Some(p)) && ClaimOk(sh, p, pc, pid(p)) && (pc.Stopping? ==> StopOk(sh, p, pc.stop, pid))
  }

  // A lock-marked record was linked by a process that still owns it or is gone.
  predicate WriterOk(s: State, pid: Proc -> Pid) {
    IsLocked(s.shared.file) ==>
      s.shared.file.value.pid == pid(s.shared.file.value.writer) && s.shared.file.value.writer in s.pc &&
      (Owns(s.pc[s.shared.file.value.writer]) || s.pc[s.shared.file.value.writer].Gone?)
  }

  ghost predicate Inv(s: State, pid: Proc -> Pid) {
    && (s.shared.lock.Some? ==> s.shared.lock.value in s.pc)
    && (forall p | p in s.pc :: ProcOk(s.shared, p, s.pc[p], pid))
    && WriterOk(s, pid)
    && (forall g | g in s.signals :: SignalOk(g, pid))
  }

  /** What holds of every signal that is sent. */
  predicate SignalOk(g: Signal, pid: Proc -> Pid) {
    var f, k := g.stop.found, g.stop.check;
    && g.pid in f.verified + f.unverified
    // SIGKILL at once when forced, else SIGTERM first
    && g.kill == (f.force || g.escalation) && !(f.force && g.escalation)
    && (!f.legacy ==>
      // only when the probe met the lock of another process
      && f.probe.HeldByOther? && f.holder.Some? && f.holder != Some(g.sender) && g.pid in f.verified
      // a pid taken from the record is the lock holder's
      && (f.byRecord && f.calm ==> NamesHolder(f, f.holder, pid) && g.pid == f.record.value.pid)
      // SIGKILL after the grace period: the second probe met another process's
      // lock, the file read after it still named the pid, and when nobody took
      // the lock in between the pid is that process's
      && (f.byRecord && g.escalation ==>
            && k.holder.Some? && k.holder != Some(g.sender)
            && Usable(k.file) && k.file.value.pid == g.pid
            && (k.calm && k.rereadAt == k.probedAt ==>
                  k.file == Some(Locked(pid(k.holder.value), k.holder.value)) && g.pid == pid(k.holder.value))))
  }

  // What one process may do to the rest.
  predicate Confined(sh: Shared, sh': Shared, p: Proc, pid: Proc -> Pid) {
    && (sh'.lock == sh.lock || (sh.lock.None? && sh'.lock == Some(p) && sh'.grabs > sh.grabs) ||
        (sh.lock == Some(p) && sh'.lock.None?))
    && sh'.grabs >= sh.grabs
    && (sh'.file != sh.file ==>
          sh'.file.None? || (sh.lock == Some(p) && sh'.file == Some(Locked(pid(p), p)) && !sh'.unlockedRemoval))
    && (sh.lock != Some(p) ==>
          (sh'.file != sh.file ==> sh'.unlockedRemoval) &&
          (sh'.unlockedRemoval != sh.unlockedRemoval ==> sh'.unlockedRemoval && sh'.file.None?))
  }

  lemma OthersStayOk(sh: Shared, sh': Shared, p: Proc, q: Proc, pc: Pc, pid: Proc -> Pid)
    requires p != q && Confined(sh, sh', p, pid) && ProcOk(sh, q, pc, pid)
    ensures ProcOk(sh', q, pc, pid)
  {
  }

  lemma ClaimStaysOk(sh: Shared, p: Proc, pc: Pc, c: Choice, pid: Proc -> Pid)
    requires ProcOk(sh, p, pc, pid) && !pc.Stopping?
    ensures var l := ClaimStep(sh, p, pc, c, pid(p));
      Confined(sh, l.shared, p, pid) && ProcOk(l.shared, p, l.pc, pid) && l.signals == {}
  {
  }

  // Reading the record while no claim is under way: the holder is its writer.
  lemma ReadStaysOk(s: State, p: Proc, c: Choice, pid: Proc -> Pid)
    requires Inv(s, pid) && p in s.pc && s.pc[p].Stopping? && s.pc[p].stop.at.ReadRecord?
    ensures var l := SearchStep(s.shared, p, s.pc[p].stop, c, Calm(s, p));
      Confined(s.shared, l.shared, p, pid) && ProcOk(l.shared, p, l.pc, pid)
  {
    assert ProcOk(s.shared, p, s.pc[p], pid);
    if s.shared.lock.Some? {
      assert ProcOk(s.shared, s.shared.lock.value, s.pc[s.shared.lock.value], pid);
    }
  }

  lemma ProbeStaysOk(sh: Shared, p: Proc, st: Stop, c: Choice, calm: bool, pid: Proc -> Pid)
    requires ProcOk(sh, p, Stopping(st), pid) && (st.at.Probe? || st.at.Release?)
    ensures var l := SearchStep(sh, p, st, c, calm); Confined(sh, l.shared, p, pid) && ProcOk(l.shared, p, l.pc, pid)
  {
  }

  lemma SettleStaysOk(sh: Shared, p: Proc, st: Stop, c: Choice, calm: bool, pid: Proc -> Pid)
    requires ProcOk(sh, p, Stopping(st), pid) && st.at.Settle?
    ensures var l := SearchStep(sh, p, st, c, calm); Confined(sh, l.shared, p, pid) && ProcOk(l.shared, p, l.pc, pid)
  {
    hide Positive;
  }

  lemma ScanStaysOk(sh: Shared, p: Proc, st: Stop, c: Choice, calm: bool, pid: Proc -> Pid)
    requires ProcOk(sh, p, Stopping(st), pid) && st.at.Scan?
    ensures var l := SearchStep(sh, p, st, c, calm); Confined(sh, l.shared, p, pid) && ProcOk(l.shared, p, l.pc, pid)
  {
    hide Positive;
  }

  // Every later step but the checks keeps what the stop has found out.
  lemma SignalStaysOk(s: State, p: Proc, c: Choice, pid: Proc -> Pid)
    requires Inv(s, pid) && p in s.pc && s.pc[p].Stopping? && Later(s.pc[p].stop.at)
    ensures var l := SignalStep(s.shared, p, s.pc[p].stop, c, Calm(s, p));
      Confined(s.shared, l.shared, p, pid) && ProcOk(l.shared, p, l.pc, pid)
  {
    var sh, st, calm := s.shared, s.pc[p].stop, Calm(s, p);
    assert ProcOk(sh, p, s.pc[p], pid);
    if st.at.KillProbe? {
      KillProbeStaysOk(s, p, c, pid);
    } else if st.at.Reread? {
      RereadStaysOk(sh, p, st, c, calm, pid);
    } else {
      LockStaysOk(sh, p, st, c, calm, pid);
      hide FindingsOk, NamesHolder, SignalStep, Checked, Calm;
    }
  }

  // The lock is met while no claim is under way: only its holder's record is there.
  lemma KillProbeStaysOk(s: State, p: Proc, c: Choice, pid: Proc -> Pid)
    requires Inv(s, pid) && p in s.pc && s.pc[p].Stopping? && s.pc[p].stop.at.KillProbe?
    ensures var l := SignalStep(s.shared, p, s.pc[p].stop, c, Calm(s, p));
      Confined(s.shared, l.shared, p, pid) && ProcOk(l.shared, p, l.pc, pid)
  {
    hide FindingsOk, NamesHolder;
    assert ProcOk(s.shared, p, s.pc[p], pid);
    if s.shared.lock.Some? {
      assert ProcOk(s.shared, s.shared.lock.value, s.pc[s.shared.lock.value], pid);
    }
  }

  lemma RereadStaysOk(sh: Shared, p: Proc, st: Stop, c: Choice, calm: bool, pid: Proc -> Pid)
    requires ProcOk(sh, p, Stopping(st), pid) && st.at.Reread?
    ensures var l := SignalStep(sh, p, st, c, calm); Confined(sh, l.shared, p, pid) && ProcOk(l.shared, p, l.pc, pid)
  {
    hide FindingsOk, NamesHolder;
  }

  // The step keeps the findings and the checks, and accounts for the lock.
  predicate MovesOn(sh: Shared, p: Proc, st: Stop, l: Local, pid: Proc -> Pid) {
    l.pc.Stopping? && l.pc.stop.found == st.found && l.pc.stop.check == st.check &&
    Later(l.pc.stop.at) && !l.pc.stop.at.Reread? && Confined(sh, l.shared, p, pid) &&
    (l.pc.stop.holds <==> l.shared.lock == Some(p)) && (l.pc.stop.holds ==> MayHold(l.pc.stop.at)) &&
    (InGrace(l.pc.stop.at) ==> !st.found.force)
  }

  lemma ProbedMovesOn(sh: Shared, p: Proc, st: Stop, error: bool, free: StopAt, held: StopAt, unknown: StopAt, pid: Proc -> Pid)
    requires !st.holds && sh.lock != Some(p)
    requires InGrace(free) || InGrace(held) || InGrace(unknown) ==> !st.found.force
    requires Later(free) && MayHold(free) && Later(held) && Later(unknown) && !held.Reread? && !unknown.Reread?
    ensures MovesOn(sh, p, st, Probed(sh, p, st, error, free, held, unknown), pid)
  {
  }

  lemma ReleasedMovesOn(sh: Shared, p: Proc, st: Stop, next: StopAt, pid: Proc -> Pid)
    requires (st.holds <==> sh.lock == Some(p)) && Later(next) && !next.Reread? && (InGrace(next) ==> !st.found.force)
    ensures MovesOn(sh, p, st, Released(sh, st, next), pid)
  {
  }

  lemma StaysMovesOn(sh: Shared, p: Proc, st0: Stop, st: Stop, pid: Proc -> Pid)
    requires !st.holds && sh.lock != Some(p) && st.found == st0.found && st.check == st0.check
    requires Later(st.at) && !st.at.Reread? && (InGrace(st.at) ==> !st.found.force)
    ensures MovesOn(sh, p, st0, Stays(sh, st), pid)
  {
  }

  lemma GoneMovesOn(sh: Shared, p: Proc, st: Stop, c: Choice, free: StopAt, gone: StopAt, still: StopAt, pid: Proc -> Pid)
    requires !st.holds && sh.lock != Some(p) && !st.found.force
    requires Later(free) && MayHold(free) && Later(gone) && Later(still) && !gone.Reread? && !still.Reread?
    ensures MovesOn(sh, p, st, GoneStep(sh, p, st, c, free, gone, still), pid)
  {
    hide MovesOn, Probed;
    ProbedMovesOn(sh, p, st, c.ioError, free, still, still, pid);
    StaysMovesOn(sh, p, st, st.(at := still), pid);
    StaysMovesOn(sh, p, st, st.(at := gone), pid);
  }

  lemma LockStaysOk(sh: Shared, p: Proc, st: Stop, c: Choice, calm: bool, pid: Proc -> Pid)
    requires Later(st.at) && !st.at.KillProbe? && !st.at.Reread?
    requires (st.holds <==> sh.lock == Some(p)) && (st.holds ==> MayHold(st.at)) && (InGrace(st.at) ==> !st.found.force)
    ensures MovesOn(sh, p, st, SignalStep(sh, p, st, c, calm), pid)
  {
    if st.at.Wait? || st.at.LastCheck? {
      GoneMovesOn(sh, p, st, c, WaitRelease, LastCheck, if c.again then Wait else LastCheck, pid);
      GoneMovesOn(sh, p, st, c, LastRelease, CleanProbe, KillProbe, pid);
      hide MovesOn, GoneStep;
    } else if st.at.CleanProbe? {
      hide MovesOn, Probed, Targets;
      ProbedMovesOn(sh, p, st, c.ioError, CleanRemove, Finished, CleanRemove, pid);
    } else if MayHold(st.at) && !st.at.CleanRemove? {
      hide MovesOn, Released;
      ReleasedMovesOn(sh, p, st, CleanProbe, pid);
      if st.at.KillRelease? || st.at.WaitRelease? {
        ReleasedMovesOn(sh, p, st, LastCheck, pid);
        ReleasedMovesOn(sh, p, st, Kill, pid);
      }
      ReleasedMovesOn(sh, p, st, Finished, pid);
    } else {
      hide Targets, Sent, Vouched, IsLocked, Usable, Probed, Released;
    }
  }

  lemma SignalsAreOk(sh: Shared, p: Proc, st: Stop, c: Choice, calm: bool, pid: Proc -> Pid)
    requires StopOk(sh, p, st, pid) && Later(st.at)
    ensures forall g | g in SignalStep(sh, p, st, c, calm).signals :: SignalOk(g, pid)
  {
  }

  lemma SearchStaysOk(s: State, p: Proc, c: Choice, pid: Proc -> Pid)
    requires Inv(s, pid) && p in s.pc && s.pc[p].Stopping? && !Later(s.pc[p].stop.at)
    ensures var l := SearchStep(s.shared, p, s.pc[p].stop, c, Calm(s, p));
      Confined(s.shared, l.shared, p, pid) && ProcOk(l.shared, p, l.pc, pid) && l.signals == {}
  {
    hide ProcOk, Settled, Scanned, Calm, WriterOk, Confined;
    var st, calm := s.pc[p].stop, Calm(s, p);
    assert s.pc[p] == Stopping(st);
    match st.at {
      case ReadRecord => ReadStaysOk(s, p, c, pid);
      case Settle => SettleStaysOk(s.shared, p, st, c, calm, pid);
      case Scan => ScanStaysOk(s.shared, p, st, c, calm, pid);
      case _ => ProbeStaysOk(s.shared, p, st, c, calm, pid);
    }
  }

  // What a step does to the file: nothing, a removal, or a claimant's own record.
  predicate Writes(sh: Shared, p: Proc, l: Local, me: Pid) {
    l.shared.file == sh.file || l.shared.file.None? || (l.shared.file == Some(Locked(me, p)) && Owns(l.pc))
  }

  lemma ClaimWrites(sh: Shared, p: Proc, pc: Pc, c: Choice, me: Pid)
    requires !pc.Stopping?
    ensures Writes(sh, p, ClaimStep(sh, p, pc, c, me), me)
    ensures Owns(pc) || pc.Gone? ==> var pc' := ClaimStep(sh, p, pc, c, me).pc; Owns(pc') || pc'.Gone?
  {
  }

  lemma SearchWrites(sh: Shared, p: Proc, st: Stop, c: Choice, calm: bool, me: Pid)
    requires !Later(st.at)
    ensures Writes(sh, p, SearchStep(sh, p, st, c, calm), me)
    ensures !st.at.Settle? ==> SearchStep(sh, p, st, c, calm).shared.file == sh.file
  {
    hide Scanned, Positive;
  }

  lemma SignalWrites(sh: Shared, p: Proc, st: Stop, c: Choice, calm: bool, me: Pid)
    requires Later(st.at)
    ensures Writes(sh, p, SignalStep(sh, p, st, c, calm), me)
    ensures !st.at.CleanRemove? ==> SignalStep(sh, p, st, c, calm).shared.file == sh.file
  {
    hide Sent, Targets, Vouched;
  }

  lemma LocalWrites(sh: Shared, p: Proc, pc: Pc, e: Event, me: Pid, calm: bool)
    requires !e.Spawn?
    ensures var l := LocalStep(sh, p, pc, e, me, calm);
      Writes(sh, p, l, me) && (Owns(pc) || pc.Gone? ==> Owns(l.pc) || l.pc.Gone?)
  {
    hide Writes, ClaimStep, SearchStep, SignalStep;
    if e.Turn? {
      if !pc.Stopping? {
        ClaimWrites(sh, p, pc, e.choice, me);
      } else if Later(pc.stop.at) {
        SignalWrites(sh, p, pc.stop, e.choice, calm, me);
      } else {
        SearchWrites(sh, p, pc.stop, e.choice, calm, me);
      }
    } else {
      assert Writes(sh, p, LocalStep(sh, p, pc, e, me, calm), me) by { FileStays(sh, p, LocalStep(sh, p, pc, e, me, calm), me); }
    }
  }

  lemma FileStays(sh: Shared, p: Proc, l: Local, me: Pid)
    requires l.shared.file == sh.file
    ensures Writes(sh, p, l, me)
  {
  }

  lemma WriterStaysOk(s: State, p: Proc, e: Event, pid: Proc -> Pid)
    requires Inv(s, pid) && Enabled(s, p, e)
    ensures WriterOk(Step(s, p, e, pid), pid)
  {
    hide LocalStep, Calm, ProcOk, SignalOk;
    if !e.Spawn? { LocalWrites(s.shared, p, s.pc[p], e, pid(p), Calm(s, p)); }
  }

  lemma StepKeepsInv(s: State, p: Proc, e: Event, pid: Proc -> Pid)
    requires Inv(s, pid) && Enabled(s, p, e)
    ensures Inv(Step(s, p, e, pid), pid)
  {
    hide ProcOk, WriterOk, LocalStep, SignalOk, Confined;
    var s' := Step(s, p, e, pid);
    WriterStaysOk(s, p, e, pid);
    OwnStep(s, p, e, pid);
    forall q | q in s'.pc ensures ProcOk(s'.shared, q, s'.pc[q], pid) {
      if q != p { OthersStayOk(s.shared, s'.shared, p, q, s.pc[q], pid); }
    }
  }

  lemma OwnStep(s: State, p: Proc, e: Event, pid: Proc -> Pid)
    requires Inv(s, pid) && Enabled(s, p, e)
    ensures var s' := Step(s, p, e, pid);
      Confined(s.shared, s'.shared, p, pid) && ProcOk(s'.shared, p, s'.pc[p], pid) &&
      (s'.shared.lock.Some? ==> s'.shared.lock.value in s'.pc) &&
      (forall g | g in s'.signals && g !in s.signals :: SignalOk(g, pid))
  {
    hide SearchStep, SignalStep, ClaimStep, SignalOk, Calm;
    if e.Turn? {
      var pc := s.pc[p];
      assert ProcOk(s.shared, p, pc, pid);
      if !pc.Stopping? {
        ClaimStaysOk(s.shared, p, pc, e.choice, pid);
      } else if Later(pc.stop.at) {
        assert pc == Stopping(pc.stop);
        SignalStaysOk(s, p, e.choice, pid);
        SignalsAreOk(s.shared, p, pc.stop, e.choice, Calm(s, p), pid);
      } else {
        SearchStaysOk(s, p, e.choice, pid);
      }
    } else if p in s.pc {
      assert ProcOk(s.shared, p, s.pc[p], pid);
    }
  }
}
