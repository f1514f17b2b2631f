/**
  Every interleaving of saves and reloads of one WORKFLOW.md, one step at a time:
  taking the gate, writing, applying, rolling back, letting go; and the reload,
  which advances the generation and loads the file while it holds the gate.
 */
module SettingsRuns {
  import opened Bytes
  import opened SettingsFence

  datatype Pc =
    | Waiting
    | Entered                  // holds the gate, nothing written
    | Written(prev: Config)    // the file has the new value; prev is what memory held
    | Rejected(prev: Config)   // memory refused it
    | Leaving(outcome: Outcome)
    | Done(outcome: Outcome)

  datatype Saver = Saver(gen: nat, request: Request, pc: Pc)

  datatype Holder = Free | HeldBy(id: nat) | HeldByReload

  /**
    live is the generation of the last load that succeeded; mems holds the
    running config of every generation that ran. diverged are the settings whose
    last rollback failed and that nothing has brought back together since.
   */
  datatype World = World(
    gate: Holder, gen: nat, live: nat, file: Config, mems: map<nat, Config>, savers: map<nat, Saver>,
    diverged: set<Field>)

  datatype Step =
    | Call(id: nat, gen: nat, request: Request)
    | Acquire(id: nat)
    | Refuse(id: nat)
    | Write(id: nat, ok: bool)
    | Apply(id: nat, ok: bool)
    | Rollback(id: nat, ok: bool)
    | Release(id: nat)
    | BeginReload
    | EndReload(ok: bool)

  predicate At(w: World, id: nat, pc: Pc) { id in w.savers && w.savers[id].pc == pc }

  predicate Holds(w: World, id: nat) { w.gate == HeldBy(id) && id in w.savers && w.savers[id].gen in w.mems }

  predicate Enabled(w: World, s: Step) {
    match s
    case Call(id, g, _) => id !in w.savers && g in w.mems
    case Acquire(id) => w.gate == Free && At(w, id, Waiting)
    case Refuse(id) => Holds(w, id) && At(w, id, Entered) && Fallible(w.savers[id].request)
    case Write(id, _) => Holds(w, id) && At(w, id, Entered)
    case Apply(id, ok) => Holds(w, id) && w.savers[id].pc.Written? && (ok || Fallible(w.savers[id].request))
    case Rollback(id, _) => Holds(w, id) && w.savers[id].pc.Rejected?
    case Release(id) => Holds(w, id) && w.savers[id].pc.Leaving?
    case BeginReload => w.gate == Free
    case EndReload(_) => w.gate == HeldByReload
  }

  function Moved(w: World, id: nat, pc: Pc): World
    requires id in w.savers
  {
    w.(savers := w.savers[id := w.savers[id].(pc := pc)])
  }

  function Next(w: World, s: Step): World
    requires Enabled(w, s)
  {
    match s
    case Call(id, g, q) => w.(savers := w.savers[id := Saver(g, q, Waiting)])
    case Acquire(id) =>
      if w.savers[id].gen == w.gen then Moved(w, id, Entered).(gate := HeldBy(id)) else Moved(w, id, Done(Superseded))
    case Refuse(id) => Moved(w, id, Leaving(Invalid))
    case Write(id, ok) =>
      var mem, q := w.mems[w.savers[id].gen], w.savers[id].request;
      if ok then Moved(w, id, Written(mem)).(file := Take(w.file, Wanted(mem, q), FieldOf(q)))
      else Moved(w, id, Leaving(WriteFailed))
    case Apply(id, ok) =>
      var g, q := w.savers[id].gen, w.savers[id].request;
      if ok then
        Moved(w, id, Leaving(Saved)).(mems := w.mems[g := Wanted(w.mems[g], q)], diverged := w.diverged - {FieldOf(q)})
      else Moved(w, id, Rejected(w.savers[id].pc.prev))
    case Rollback(id, ok) =>
      var f := FieldOf(w.savers[id].request);
      if ok then
        Moved(w, id, Leaving(ApplyFailed)).(
          file := Take(w.file, w.savers[id].pc.prev, f), diverged := w.diverged - {f})
      else Moved(w, id, Leaving(ApplyAndRollbackFailed)).(diverged := w.diverged + {f})
    case Release(id) => Moved(w, id, Done(w.savers[id].pc.outcome)).(gate := Free)
    case BeginReload => w.(gate := HeldByReload, gen := w.gen + 1)
    case EndReload(ok) =>
      if ok then w.(gate := Free, live := w.gen, mems := w.mems[w.gen := w.file], diverged := {}) else w.(gate := Free)
  }

  // ----- what always holds

  predicate Holding(pc: Pc) { !pc.Waiting? && !pc.Done? }

  // Exactly the holder is inside, and it belongs to the current generation.
  ghost predicate GateInv(w: World) {
    && (forall id | id in w.savers :: Holding(w.savers[id].pc) <==> w.gate == HeldBy(id))
    && (w.gate.HeldBy? ==> w.gate.id in w.savers && w.savers[w.gate.id].gen == w.gen == w.live)
    && (forall id | id in w.savers :: w.savers[id].gen in w.mems)
  }

  ghost predicate MemInv(w: World) {
    && w.live in w.mems && w.live <= w.gen
    && (forall g | g in w.mems :: g <= w.live)
    && (w.gate == HeldByReload ==> w.live < w.gen)
  }

  ghost predicate Agree(w: World, except: set<Field>) {
    w.live in w.mems && forall f | f !in except :: Same(w.file, w.mems[w.live], f)
  }

  // How file and memory relate while a save is under way.
  ghost predicate FileInv(w: World) {
    if w.gate.HeldBy? && w.gate.id in w.savers then
      var s := w.savers[w.gate.id];
      var f := FieldOf(s.request);
      if s.pc.Written? || s.pc.Rejected? then
        && w.live in w.mems && s.pc.prev == w.mems[w.live]
        && Agree(w, w.diverged + {f}) && Same(w.file, Wanted(s.pc.prev, s.request), f)
      else Agree(w, w.diverged)
    else Agree(w, w.diverged)
  }

  ghost predicate Inv(w: World) { GateInv(w) && MemInv(w) && FileInv(w) }

  function Start(file: Config): World { World(Free, 0, 0, file, map[0 := file], map[], {}) }

  lemma StartInv(file: Config)
    ensures Inv(Start(file))
  {
  }

  lemma StepKeepsGate(w: World, s: Step)
    requires Inv(w) && Enabled(w, s)
    ensures GateInv(Next(w, s)) && MemInv(Next(w, s))
  {
    hide Agree, FileInv, Wanted, Take, FieldOf;
  }

  // Wanting a setting changes that setting only.
  lemma WantedIsLocal(mem: Config, q: Request, g: Field)
    requires g != FieldOf(q)
    ensures Same(Wanted(mem, q), mem, g)
  {
  }

  lemma WriteKeepsFile(w: World, id: nat, ok: bool)
    requires Inv(w) && Enabled(w, Write(id, ok))
    ensures FileInv(Next(w, Write(id, ok)))
  {
    var mem, q := w.mems[w.live], w.savers[id].request;
    assert w.savers[id].gen == w.live;
    hide Wanted, FieldOf, Same, Take;
    if ok {
      var w' := Next(w, Write(id, ok));
      var f := FieldOf(q);
      assert Same(w'.file, Wanted(mem, q), f);
      forall g | g !in w.diverged + {f}
        ensures Same(w'.file, mem, g)
      {
        SameJoins(w'.file, w.file, mem, g);
      }
    }
  }

  lemma ApplyKeepsFile(w: World, id: nat, ok: bool)
    requires Inv(w) && Enabled(w, Apply(id, ok))
    ensures FileInv(Next(w, Apply(id, ok)))
  {
    var mem, q := w.mems[w.live], w.savers[id].request;
    assert w.savers[id].gen == w.live;
    hide Wanted, FieldOf, Same, Take;
    if ok {
      var w' := Next(w, Apply(id, ok));
      var f := FieldOf(q);
      assert w'.mems[w'.live] == Wanted(mem, q) && w'.file == w.file;
      assert Same(w.file, Wanted(mem, q), f);
      forall g | g !in w'.diverged
        ensures Same(w'.file, Wanted(mem, q), g)
      {
        if g != f {
          assert Same(w.file, mem, g);
          WantedIsLocal(mem, q, g);
          SameJoins(w.file, mem, Wanted(mem, q), g);
        }
      }
    }
  }

  lemma SameJoins(a: Config, b: Config, c: Config, f: Field)
    requires Same(a, b, f) && (Same(b, c, f) || Same(c, b, f))
    ensures Same(a, c, f)
  {
  }

  lemma StepKeepsFile(w: World, s: Step)
    requires Inv(w) && Enabled(w, s)
    ensures FileInv(Next(w, s))
  {
    match s {
      case Write(id, ok) => WriteKeepsFile(w, id, ok);
      case Apply(id, ok) => ApplyKeepsFile(w, id, ok);
      case Rollback(id, ok) => RollbackKeepsFile(w, id, ok);
      case _ => hide Wanted, FieldOf, Take;
    }
  }

  lemma RollbackKeepsFile(w: World, id: nat, ok: bool)
    requires Inv(w) && Enabled(w, Rollback(id, ok))
    ensures FileInv(Next(w, Rollback(id, ok)))
  {
    var mem, q := w.mems[w.live], w.savers[id].request;
    assert w.savers[id].gen == w.live;
    hide Wanted, FieldOf, Same, Take;
    if ok {
      var w' := Next(w, Rollback(id, ok));
      forall g | g !in w'.diverged
        ensures Same(w'.file, mem, g)
      {
        if g != FieldOf(q) {
          SameJoins(w'.file, w.file, mem, g);
        }
      }
    }
  }

  lemma StepKeepsInv(w: World, s: Step)
    requires Inv(w) && Enabled(w, s)
    ensures Inv(Next(w, s))
  {
    StepKeepsGate(w, s);
    StepKeepsFile(w, s);
  }

  // ----- runs

  ghost predicate Run(w: World, steps: seq<Step>)
    decreases |steps|
  {
    steps == [] || (Enabled(w, steps[0]) && Run(Next(w, steps[0]), steps[1..]))
  }

  ghost function After(w: World, steps: seq<Step>): World
    requires Run(w, steps)
    decreases |steps|
  {
    if steps == [] then w else After(Next(w, steps[0]), steps[1..])
  }

  lemma {:induction false} RunKeepsInv(w: World, steps: seq<Step>)
    requires Inv(w) && Run(w, steps)
    ensures Inv(After(w, steps))
    decreases |steps|
  {
    hide Inv, Enabled, Next;
    if steps != [] {
      StepKeepsInv(w, steps[0]);
      RunKeepsInv(Next(w, steps[0]), steps[1..]);
    }
  }

  /**
    Whenever the gate is free, the file and the running config agree on every
    setting, except one whose rollback failed and that has not been saved since.
   */
  lemma FileAndMemoryAgree(file: Config, steps: seq<Step>, f: Field)
    requires Run(Start(file), steps)
    ensures var w := After(Start(file), steps);
      w.gate == Free && f !in w.diverged ==> w.live in w.mems && Same(w.file, w.mems[w.live], f)
  {
    hide Same;
    StartInv(file);
    RunKeepsInv(Start(file), steps);
  }

  /** With no failed rollback in the run, they agree on everything. */
  lemma {:induction false} OnlyFailedRollbacksDiverge(w: World, steps: seq<Step>)
    requires Run(w, steps) && w.diverged == {}
    requires forall i | 0 <= i < |steps| :: !(steps[i].Rollback? && !steps[i].ok)
    ensures After(w, steps).diverged == {}
    ensures Inv(w) && After(w, steps).gate == Free ==>
      var w' := After(w, steps); w'.live in w'.mems && w'.file == w'.mems[w'.live]
    decreases |steps|
  {
    if steps != [] {
      assert !(steps[0].Rollback? && !steps[0].ok);
      assert forall i | 0 <= i < |steps[1..]| :: steps[1..][i] == steps[i + 1];
      OnlyFailedRollbacksDiverge(Next(w, steps[0]), steps[1..]);
      if Inv(w) { StepKeepsInv(w, steps[0]); }
    } else if Inv(w) && w.gate == Free {
      AllSame(w);
    }
  }

  lemma AllSame(w: World)
    requires Agree(w, {})
    ensures w.file == w.mems[w.live]
  {
    assert Same(w.file, w.mems[w.live], Workers) && Same(w.file, w.mems[w.live], Reviewer);
    assert Same(w.file, w.mems[w.live], AutoClear) && Same(w.file, w.mems[w.live], DepsMode);
  }

  // ----- the fence

  predicate StepOf(s: Step, id: nat) {
    match s
    case Acquire(i) => i == id
    case Refuse(i) => i == id
    case Write(i, _) => i == id
    case Apply(i, _) => i == id
    case Rollback(i, _) => i == id
    case Release(i) => i == id
    case _ => false
  }

  /**
    A save of a superseded generation can only be turned away: its one step
    finds the generation moved on, and neither file nor memory changes.
   */
  lemma StaleSaveChangesNothing(w: World, s: Step, id: nat)
    requires Inv(w) && Enabled(w, s) && StepOf(s, id) && id in w.savers && w.savers[id].gen != w.gen
    ensures s == Acquire(id) && Next(w, s).savers[id].pc == Done(Superseded)
    ensures Next(w, s).file == w.file && Next(w, s).mems == w.mems
  {
  }

  /** Once a generation is superseded it stays so: generations never come back. */
  lemma {:induction false} GenerationsOnlyGrow(w: World, steps: seq<Step>)
    requires Run(w, steps)
    ensures After(w, steps).gen >= w.gen
    decreases |steps|
  {
    if steps != [] {
      GenerationsOnlyGrow(Next(w, steps[0]), steps[1..]);
    }
  }

  // ----- reloads

  /** No reload step, and no load that succeeded, in these steps. */
  predicate NoNewLoad(steps: seq<Step>) { forall i | 0 <= i < |steps| :: steps[i] != EndReload(true) }

  /**
    A load sees every completed save: what the last running config held, with the
    gate free or already taken by a reload, is what the next successful load puts
    in memory, for every setting that has not diverged.
   */
  lemma LoadSeesEverySave(w: World, f: Field)
    requires Inv(w) && w.gate == HeldByReload && f !in w.diverged
    ensures var w' := Next(w, EndReload(true));
      w'.live == w.gen && Same(w'.mems[w'.live], w.mems[w.live], f) && w'.diverged == {}
      && w'.file == w'.mems[w'.live]
  {
  }

  /** Between the end of a generation and the next successful load nothing changes file or memory. */
  lemma {:induction false} NothingIsLostWhileReloading(w: World, steps: seq<Step>)
    requires Inv(w) && w.live < w.gen && Run(w, steps) && NoNewLoad(steps)
    ensures After(w, steps).file == w.file && After(w, steps).mems == w.mems
    ensures After(w, steps).live == w.live < After(w, steps).gen
    decreases |steps|
  {
    if steps != [] {
      StepKeepsInv(w, steps[0]);
      assert steps[0] != EndReload(true);
      assert forall i | 0 <= i < |steps[1..]| :: steps[1..][i] == steps[i + 1];
      StepWhileReloading(w, steps[0]);
      NothingIsLostWhileReloading(Next(w, steps[0]), steps[1..]);
    }
  }

  lemma StepWhileReloading(w: World, s: Step)
    requires Inv(w) && w.live < w.gen && Enabled(w, s) && s != EndReload(true)
    ensures Next(w, s).file == w.file && Next(w, s).mems == w.mems && Next(w, s).live == w.live < Next(w, s).gen
  {
  }

  // This step saves the setting: writes it, applies it or rolls it back.
  ghost predicate Touches(w: World, s: Step, f: Field) {
    (s.Write? || s.Apply? || s.Rollback?) && s.id in w.savers && FieldOf(w.savers[s.id].request) == f
  }

  ghost predicate Untouched(w: World, steps: seq<Step>, f: Field)
    requires Run(w, steps)
    decreases |steps|
  {
    steps == [] || (!Touches(w, steps[0], f) && Untouched(Next(w, steps[0]), steps[1..], f))
  }

  // The file and the running config have this value of the setting.
  ghost predicate Has(w: World, value: Config, f: Field) {
    w.live in w.mems && f !in w.diverged && Same(w.file, value, f) && Same(w.mems[w.live], value, f)
  }

  lemma StepKeepsValue(w: World, s: Step, value: Config, f: Field)
    requires Inv(w) && Enabled(w, s) && !Touches(w, s, f) && Has(w, value, f)
    ensures Has(Next(w, s), value, f)
  {
    hide Same, Take, Wanted, FieldOf;
    var w' := Next(w, s);
    match s {
      case Write(id, ok) =>
        if ok {
          var mem, q := w.mems[w.savers[id].gen], w.savers[id].request;
          SameJoins(w'.file, w.file, value, f);
        }
      case Apply(id, ok) =>
        if ok {
          var mem, q := w.mems[w.savers[id].gen], w.savers[id].request;
          WantedIsLocal(mem, q, f);
          SameJoins(Wanted(mem, q), mem, value, f);
        }
      case Rollback(id, ok) =>
        if ok {
          SameJoins(w'.file, w.file, value, f);
        }
      case _ =>
    }
  }

  /**
    A saved setting lasts: until it is saved again, whatever other saves and
    reloads run, it is what the file holds and what every load puts in memory.
   */
  lemma {:induction false} SavedSettingLasts(w: World, steps: seq<Step>, value: Config, f: Field)
    requires Inv(w) && Run(w, steps) && Untouched(w, steps, f) && Has(w, value, f)
    ensures Has(After(w, steps), value, f)
    decreases |steps|
  {
    hide Inv, Enabled, Next, Has, Touches;
    if steps != [] {
      StepKeepsInv(w, steps[0]);
      StepKeepsValue(w, steps[0], value, f);
      SavedSettingLasts(Next(w, steps[0]), steps[1..], value, f);
    }
  }

  /** And a save that succeeds starts it: file and memory have what was asked for. */
  lemma SaveSetsTheValue(w: World, id: nat)
    requires Inv(w) && Enabled(w, Apply(id, true))
    ensures var q, w' := w.savers[id].request, Next(w, Apply(id, true));
      && w'.live == w.live && w.live in w'.mems && Has(w', w'.mems[w'.live], FieldOf(q))
      && Granted(w'.mems[w'.live], w.mems[w.live], q) && ElseSame(w'.mems[w'.live], w.mems[w.live], q)
      && Granted(w'.file, w.mems[w.live], q)
  {
    assert w.savers[id].gen == w.live;
  }

  // ----- one save, alone, is the method

  function Answered(q: Request, a: Answers, id: nat): seq<Step> {
    [Acquire(id)] +
    if Fallible(q) && !a.valid then [Refuse(id), Release(id)]
    else if !a.written then [Write(id, false), Release(id)]
    else if !Fallible(q) || a.applied then [Write(id, true), Apply(id, true), Release(id)]
    else [Write(id, true), Apply(id, false), Rollback(id, a.rolledBack), Release(id)]
  }

  /** The setters' methods, run from a free gate in the current generation, are runs of these steps. */
  lemma SaveIsARun(w: World, id: nat, a: Answers)
    requires Inv(w) && w.gate == Free && At(w, id, Waiting) && w.savers[id].gen == w.gen
    ensures var steps := Answered(w.savers[id].request, a, id);
      Run(w, steps) &&
      var w' := After(w, steps);
      var (file, mem, outcome) := Save(w.file, w.mems[w.gen], true, w.savers[id].request, a);
      w'.gate == Free && w'.file == file && w'.mems == w.mems[w.gen := mem] && At(w', id, Done(outcome))
  {
    hide Take, Wanted, FieldOf, Inv;
    GenIsLive(w, id);
    var q := w.savers[id].request;
    var w1 := Next(w, Acquire(id));
    assert w.mems[w.gen := w.mems[w.gen]] == w.mems;
    if Fallible(q) && !a.valid {
      Run3(w, Acquire(id), Refuse(id), Release(id));
    } else if !a.written {
      Run3(w, Acquire(id), Write(id, false), Release(id));
    } else if !Fallible(q) || a.applied {
      var rest := [Write(id, true), Apply(id, true), Release(id)];
      Run3(w1, Write(id, true), Apply(id, true), Release(id));
      RunMore(w, Acquire(id), rest);
    } else {
      RejectedRun(w1, id, a.rolledBack);
      TakeTwice(w.file, Wanted(w.mems[w.gen], q), w.mems[w.gen], FieldOf(q));
      RunMore(w, Acquire(id), [Write(id, true), Apply(id, false), Rollback(id, a.rolledBack), Release(id)]);
    }
  }

  lemma TakeTwice(c: Config, d: Config, e: Config, f: Field)
    ensures Take(Take(c, d, f), e, f) == Take(c, e, f)
  {
  }

  lemma RejectedRun(w: World, id: nat, ok: bool)
    requires Holds(w, id) && At(w, id, Entered) && Fallible(w.savers[id].request)
    ensures var steps := [Write(id, true), Apply(id, false), Rollback(id, ok), Release(id)];
      var f, mem := FieldOf(w.savers[id].request), w.mems[w.savers[id].gen];
      Run(w, steps) &&
      var w' := After(w, steps);
      var file := Take(w.file, Wanted(mem, w.savers[id].request), f);
      && w'.gate == Free && w'.mems == w.mems
      && w'.file == (if ok then Take(file, mem, f) else file)
      && At(w', id, Done(if ok then ApplyFailed else ApplyAndRollbackFailed))
  {
    hide Take, Wanted, FieldOf;
    var w1 := Next(w, Write(id, true));
    Run3(w1, Apply(id, false), Rollback(id, ok), Release(id));
    RunMore(w, Write(id, true), [Apply(id, false), Rollback(id, ok), Release(id)]);
  }

  lemma RunMore(w: World, s: Step, rest: seq<Step>)
    requires Enabled(w, s) && Run(Next(w, s), rest)
    ensures Run(w, [s] + rest) && After(w, [s] + rest) == After(Next(w, s), rest)
  {
    hide Enabled, Next;
    assert ([s] + rest)[1..] == rest;
  }

  lemma GenIsLive(w: World, id: nat)
    requires Inv(w) && id in w.savers
    ensures w.savers[id].gen in w.mems
  {
  }

  lemma Run3(w: World, a: Step, b: Step, c: Step)
    requires Enabled(w, a) && Enabled(Next(w, a), b) && Enabled(Next(Next(w, a), b), c)
    ensures Run(w, [a, b, c]) && After(w, [a, b, c]) == Next(Next(Next(w, a), b), c)
  {
    hide Enabled, Next;
    var w2 := Next(Next(w, a), b);
    RunMore(w2, c, []);
    RunMore(Next(w, a), b, [c]);
    RunMore(w, a, [b, c]);
  }

  // ----- outcomes

  /**
    A rejected save leaves the file agreeing with memory on its setting, with
    memory as it was; when the rollback failed the file has the new value.
   */
  lemma RejectedSaveRestores(file: Config, mem: Config, q: Request, a: Answers)
    ensures var (file', mem', outcome) := Save(file, mem, true, q, a);
      && (outcome == Saved ==> Same(file', mem', FieldOf(q)) && mem' == Wanted(mem, q))
      && (outcome != Saved ==> mem' == mem)
      && (outcome == ApplyFailed ==> Same(file', mem, FieldOf(q)))
      && (outcome == ApplyFailed && Same(file, mem, FieldOf(q)) ==> file' == file)
      && (outcome == Invalid || outcome == WriteFailed ==> file' == file)
      && (outcome == ApplyAndRollbackFailed ==> Same(file', Wanted(mem, q), FieldOf(q)))
      && (forall g | g != FieldOf(q) :: Same(file', file, g) && Same(mem', mem, g))
  {
    forall g | g != FieldOf(q)
      ensures Same(Wanted(mem, q), mem, g)
    {
      WantedIsLocal(mem, q, g);
    }
  }
}
