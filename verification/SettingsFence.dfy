/**
  Saving settings under the settings gate (cmd/itervox/settings_lock.go and the
  write-then-apply setters of cmd/itervox/adapter_settings.go).
 */
module SettingsFence {
  import opened Bytes

  datatype Field = Workers | Reviewer | AutoClear | DepsMode

  // The settings these setters save, as the file or the orchestrator holds them.
  datatype Config = Config(workers: int, profile: string, autoReview: bool, autoClear: bool, depsMode: string)

  datatype Request =
    | SetWorkers(n: int)
    | BumpWorkers(delta: int)
    | SetReviewerConfig(profile: string, autoReview: bool)
    | SetAutoClearWorkspace(enabled: bool)
    | SetDepsAnalysisMode(mode: string)

  function FieldOf(q: Request): Field {
    match q
    case SetWorkers(_) => Workers
    case BumpWorkers(_) => Workers
    case SetReviewerConfig(_, _) => Reviewer
    case SetAutoClearWorkspace(_) => AutoClear
    case SetDepsAnalysisMode(_) => DepsMode
  }

  predicate Same(a: Config, b: Config, f: Field) {
    match f
    case Workers => a.workers == b.workers
    case Reviewer => a.profile == b.profile && a.autoReview == b.autoReview
    case AutoClear => a.autoClear == b.autoClear
    case DepsMode => a.depsMode == b.depsMode
  }

  /** c with one setting taken from d. */
  function Take(c: Config, d: Config, f: Field): (r: Config)
    ensures Same(r, d, f)
    ensures forall g | g != f :: Same(r, c, g)
  {
    match f
    case Workers => c.(workers := d.workers)
    case Reviewer => c.(profile := d.profile, autoReview := d.autoReview)
    case AutoClear => c.(autoClear := d.autoClear)
    case DepsMode => c.(depsMode := d.depsMode)
  }

  function Clamp(n: int): (r: int)
    ensures 1 <= r <= 50 && (1 <= n <= 50 ==> r == n) && (n < 1 ==> r == 1) && (n > 50 ==> r == 50)
  {
    if n < 1 then 1 else if n > 50 then 50 else n
  }

  /** The running config as the request wants it. */
  function Wanted(mem: Config, q: Request): Config {
    match q
    case SetWorkers(n) => mem.(workers := Clamp(n))
    case BumpWorkers(delta) => mem.(workers := Clamp(mem.workers + delta))
    case SetReviewerConfig(profile, autoReview) => mem.(profile := profile, autoReview := autoReview)
    case SetAutoClearWorkspace(enabled) => mem.(autoClear := enabled)
    case SetDepsAnalysisMode(mode) => mem.(depsMode := mode)
  }

  // SetMaxWorkers cannot refuse a value.
  predicate Fallible(q: Request) { !q.SetWorkers? && !q.BumpWorkers? }

  datatype Outcome =
    | Saved
    | Superseded                // the save's generation is over
    | Invalid                   // refused before anything was written
    | WriteFailed
    | ApplyFailed               // the file has the old value back
    | ApplyAndRollbackFailed    // the error carries both failures

  // What the world outside answers during one save.
  datatype Answers = Answers(valid: bool, written: bool, applied: bool, rolledBack: bool)

  /** One save: the file, the running config and the outcome it leaves. */
  function Save(file: Config, mem: Config, current: bool, q: Request, a: Answers): (Config, Config, Outcome) {
    var f, want := FieldOf(q), Wanted(mem, q);
    if !current then (file, mem, Superseded)
    else if Fallible(q) && !a.valid then (file, mem, Invalid)
    else if !a.written then (file, mem, WriteFailed)
    else if !Fallible(q) || a.applied then (Take(file, want, f), want, Saved)
    else if a.rolledBack then (Take(file, mem, f), mem, ApplyFailed)
    else (Take(file, want, f), mem, ApplyAndRollbackFailed)
  }

  /** c has what the request asks for, counted from the running config before it. */
  predicate Granted(c: Config, before: Config, q: Request) {
    match q
    case SetWorkers(n) => 1 <= c.workers <= 50 && (c.workers == n || (n < 1 && c.workers == 1) || (n > 50 && c.workers == 50))
    case BumpWorkers(delta) =>
      var n := before.workers + delta;
      1 <= c.workers <= 50 && (c.workers == n || (n < 1 && c.workers == 1) || (n > 50 && c.workers == 50))
    case SetReviewerConfig(profile, autoReview) => c.profile == profile && c.autoReview == autoReview
    case SetAutoClearWorkspace(enabled) => c.autoClear == enabled
    case SetDepsAnalysisMode(mode) => c.depsMode == mode
  }

  // Everything but what the request asks for is as in b.
  predicate ElseSame(c: Config, b: Config, q: Request) {
    && (q.SetWorkers? || q.BumpWorkers? || c.workers == b.workers)
    && (q.SetReviewerConfig? || (c.profile == b.profile && c.autoReview == b.autoReview))
    && (q.SetAutoClearWorkspace? || c.autoClear == b.autoClear)
    && (q.SetDepsAnalysisMode? || c.depsMode == b.depsMode)
  }

  /**
    Which save succeeds, and what it does then: the file and the running config
    have what was asked for, and nothing else of either changes. The two workers
    settings cannot be rejected. Any other outcome leaves the running config; the
    file is as it was unless the rollback failed, when it holds what was asked for.
   */
  lemma SaveGrants(file: Config, mem: Config, current: bool, q: Request, a: Answers)
    ensures var (file', mem', outcome) := Save(file, mem, current, q, a);
      var workers := q.SetWorkers? || q.BumpWorkers?;
      && (outcome == Saved <==> current && a.written && (workers || (a.valid && a.applied)))
      && (outcome == Superseded <==> !current)
      && (outcome == Invalid <==> current && !workers && !a.valid)
      && (outcome == WriteFailed <==> current && (workers || a.valid) && !a.written)
      && (outcome == ApplyFailed ==> a.rolledBack) && (outcome == ApplyAndRollbackFailed ==> !a.rolledBack)
      && (outcome == Saved ==> Granted(mem', mem, q) && ElseSame(mem', mem, q))
      && (outcome != Saved ==> mem' == mem)
      && (outcome == Saved || outcome == ApplyAndRollbackFailed ==> Granted(file', mem, q))
      && (outcome == Superseded || outcome == Invalid || outcome == WriteFailed ==> file' == file)
      && (outcome == ApplyFailed && file == mem ==> file' == file)
      && ElseSame(file', file, q)
  {
  }

  // ----- the setters as the source writes them

  class Disk {
    var file: Config

    // The workflow patchers replace the file or leave it as it was.
    method Patch(c: Config, f: Field, ok: bool) returns (err: bool)
      modifies this
      ensures err == !ok && file == if ok then Take(old(file), c, f) else old(file)
    {
      if ok {
        file := Take(file, c, f);
      }
      err := !ok;
    }
  }

  class Orchestrator {
    var mem: Config

    method SetMaxWorkers(n: int)
      modifies this
      ensures mem == old(mem).(workers := Clamp(n))
    {
      mem := mem.(workers := Clamp(n));
    }

    // The setters that validate once more.
    method Apply(c: Config, f: Field, ok: bool) returns (err: bool)
      modifies this
      ensures err == !ok && mem == if ok then Take(old(mem), c, f) else old(mem)
    {
      if ok {
        mem := Take(mem, c, f);
      }
      err := !ok;
    }
  }

  class SettingsGate {
    var held: bool
    var gen: nat

    // mu.Lock; the caller waits while it is held.
    method Lock()
      requires !held
      modifies `held
      ensures held
    {
      held := true;
    }

    method Unlock()
      requires held
      modifies `held
      ensures !held
    {
      held := false;
    }

    method BeginSettingsSave(mine: nat) returns (ok: bool)
      requires !held
      modifies `held
      ensures ok == (gen == mine) && held == ok
    {
      Lock();
      if gen != mine {
        Unlock();
        return false;
      }
      return true;
    }
  }

  class Adapter {
    const gate: SettingsGate
    const disk: Disk
    const orch: Orchestrator
    const settingsGen: nat

    constructor (gate: SettingsGate, disk: Disk, orch: Orchestrator, settingsGen: nat)
      ensures this.gate == gate && this.disk == disk && this.orch == orch && this.settingsGen == settingsGen
    {
      this.gate, this.disk, this.orch, this.settingsGen := gate, disk, orch, settingsGen;
    }

    method SetWorkers(n: int, a: Answers) returns (outcome: Outcome)
      requires !gate.held
      modifies gate`held, disk, orch
      ensures !gate.held
      ensures (disk.file, orch.mem, outcome) ==
        Save(old(disk.file), old(orch.mem), gate.gen == settingsGen, Request.SetWorkers(n), a)
    {
      var ok := gate.BeginSettingsSave(settingsGen);
      if !ok {
        return Superseded;
      }
      var clamped := Clamp(n);
      var err := disk.Patch(orch.mem.(workers := clamped), Workers, a.written);
      if err {
        gate.Unlock();
        return WriteFailed;
      }
      orch.SetMaxWorkers(clamped);
      gate.Unlock();
      return Saved;
    }

    method BumpWorkers(delta: int, a: Answers) returns (outcome: Outcome)
      requires !gate.held
      modifies gate`held, disk, orch
      ensures !gate.held
      ensures (disk.file, orch.mem, outcome) ==
        Save(old(disk.file), old(orch.mem), gate.gen == settingsGen, Request.BumpWorkers(delta), a)
    {
      var ok := gate.BeginSettingsSave(settingsGen);
      if !ok {
        return Superseded;
      }
      var next := Clamp(orch.mem.workers + delta);
      var err := disk.Patch(orch.mem.(workers := next), Workers, a.written);
      if err {
        gate.Unlock();
        return WriteFailed;
      }
      orch.SetMaxWorkers(next);
      gate.Unlock();
      return Saved;
    }

    // SetReviewerConfig, SetAutoClearWorkspace and SetDepsAnalysisMode have one shape.
    method SetOrRollBack(q: Request, a: Answers) returns (outcome: Outcome)
      requires !gate.held && Fallible(q)
      modifies gate`held, disk, orch
      ensures !gate.held
      ensures (disk.file, orch.mem, outcome) == Save(old(disk.file), old(orch.mem), gate.gen == settingsGen, q, a)
    {
      var ok := gate.BeginSettingsSave(settingsGen);
      if !ok {
        return Superseded;
      }
      var prev, want, f := orch.mem, Wanted(orch.mem, q), FieldOf(q);
      if !a.valid {
        gate.Unlock();
        return Invalid;
      }
      var err := disk.Patch(want, f, a.written);
      if err {
        gate.Unlock();
        return WriteFailed;
      }
      var applyErr := orch.Apply(want, f, a.applied);
      outcome := Saved;
      if applyErr {
        outcome := RollbackSettingsWrite(f, prev, a.rolledBack);
      }
      gate.Unlock();
    }

    method RollbackSettingsWrite(f: Field, prev: Config, ok: bool) returns (outcome: Outcome)
      modifies disk
      ensures disk.file == if ok then Take(old(disk.file), prev, f) else old(disk.file)
      ensures outcome == if ok then ApplyFailed else ApplyAndRollbackFailed
    {
      var rbErr := disk.Patch(prev, f, ok);
      outcome := if rbErr then ApplyAndRollbackFailed else ApplyFailed;
    }
  }
}
