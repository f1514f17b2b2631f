/**
  The scheduler of automatic dependency analysis (cmd/itervox/deps_auto_analyze.go):
  which issues count as changed, the fingerprint of that set, and one tick.
 */
module AutoAnalyze {
  import opened Bytes
  import opened Text

  // Nanoseconds; zero is the zero time.
  type Time = int
  const MINUTE: Time := 60000000000
  const DEFAULT_DEBOUNCE_MINUTES := 5
  const DEFAULT_FLOOR_MINUTES := 60

  // ----- the order of identifiers

  predicate Less(a: string, b: string) {
    b != "" && (a == "" || a[0] < b[0] || (a[0] == b[0] && Less(a[1..], b[1..])))
  }

  lemma {:induction false} LessIsTotal(a: string, b: string)
    ensures Less(a, b) || a == b || Less(b, a)
    decreases |a|
  {
    if a != "" && b != "" && a[0] == b[0] {
      LessIsTotal(a[1..], b[1..]);
      if a[1..] == b[1..] {
        assert a == [a[0]] + a[1..] && b == [b[0]] + b[1..];
      }
    }
  }

  lemma {:induction false} LessIsTransitive(a: string, b: string, c: string)
    requires Less(a, b) && Less(b, c)
    ensures Less(a, c)
    decreases |a|
  {
    if a != "" && a[0] == b[0] && b[0] == c[0] {
      LessIsTransitive(a[1..], b[1..], c[1..]);
    }
  }

  lemma {:induction false} LessIsStrict(a: string)
    ensures !Less(a, a)
    decreases |a|
  {
    if a != "" {
      LessIsStrict(a[1..]);
    }
  }

  // Every later element is greater.
  predicate Ascending(ids: seq<string>) { forall i, j | 0 <= i < j < |ids| :: Less(ids[i], ids[j]) }

  /** sort.Strings on distinct strings. */
  function Sorted(ids: seq<string>): seq<string> { if ids == [] then [] else Inserted(ids[0], Sorted(ids[1..])) }

  function Inserted(x: string, s: seq<string>): seq<string> {
    if s == [] || Less(x, s[0]) then [x] + s else [s[0]] + Inserted(x, s[1..])
  }

  function Elements(s: seq<string>): set<string> { set x | x in s }

  lemma {:induction false} InsertedAscends(x: string, s: seq<string>)
    requires Ascending(s) && x !in s
    ensures Ascending(Inserted(x, s)) && Elements(Inserted(x, s)) == Elements(s) + {x}
    decreases |s|
  {
    if s != [] {
      if Less(x, s[0]) {
        forall j | 0 < j < |s|
          ensures Less(x, s[j])
        {
          LessIsTransitive(x, s[0], s[j]);
        }
      } else {
        LessIsTotal(x, s[0]);
        InsertedAscends(x, s[1..]);
        var r := Inserted(x, s[1..]);
        forall j | 0 <= j < |r|
          ensures Less(s[0], r[j])
        {
          assert r[j] in Elements(s[1..]) + {x};
          if r[j] != x {
            var k :| 0 <= k < |s[1..]| && s[1..][k] == r[j];
            assert s[k + 1] == r[j];
          }
        }
        assert s == [s[0]] + s[1..];
        assert Elements([s[0]] + r) == {s[0]} + Elements(r);
      }
    }
  }

  lemma {:induction false} SortedAscends(ids: seq<string>)
    requires forall i, j | 0 <= i < j < |ids| :: ids[i] != ids[j]
    ensures Ascending(Sorted(ids)) && Elements(Sorted(ids)) == Elements(ids)
    decreases |ids|
  {
    if ids != [] {
      SortedAscends(ids[1..]);
      assert ids[0] !in ids[1..];
      assert ids[0] !in Elements(Sorted(ids[1..]));
      InsertedAscends(ids[0], Sorted(ids[1..]));
      assert ids == [ids[0]] + ids[1..];
    }
  }

  /** The order in which a map was walked does not show: a set has one ascending list. */
  lemma {:induction false} AscendingIsUnique(a: seq<string>, b: seq<string>)
    requires Ascending(a) && Ascending(b) && Elements(a) == Elements(b)
    ensures a == b
    decreases |a|
  {
    assert a != [] ==> a[0] in Elements(a);
    assert b != [] ==> b[0] in Elements(b);
    if a != [] {
      FirstIsLeast(a, b);
      FirstIsLeast(b, a);
      if Less(a[0], b[0]) && Less(b[0], a[0]) {
        LessIsTransitive(a[0], b[0], a[0]);
        LessIsStrict(a[0]);
      }
      TailElements(a);
      TailElements(b);
      AscendingIsUnique(a[1..], b[1..]);
      assert a == [a[0]] + a[1..] && b == [b[0]] + b[1..];
    }
  }

  lemma FirstIsLeast(a: seq<string>, b: seq<string>)
    requires Ascending(a) && a != [] && b != [] && b[0] in Elements(a)
    ensures a[0] == b[0] || Less(a[0], b[0])
  {
  }

  lemma TailElements(a: seq<string>)
    requires Ascending(a) && a != []
    ensures Elements(a[1..]) == Elements(a) - {a[0]} && Ascending(a[1..])
  {
    forall x | x in a[1..]
      ensures x != a[0]
    {
      var k :| 0 <= k < |a[1..]| && a[1..][k] == x;
      assert Less(a[0], a[k + 1]);
      LessIsStrict(x);
    }
    assert a == [a[0]] + a[1..];
  }

  // ----- the fingerprint

  // strings.Join(ids, "\x00")
  function Fingerprint(ids: seq<string>): string { Join(ids, '\0') }

  predicate Clean(id: string) { id != "" && forall i | 0 <= i < |id| :: id[i] != '\0' }

  predicate AllClean(ids: seq<string>) { forall i | 0 <= i < |ids| :: Clean(ids[i]) }

  // What follows the first identifier.
  function Rest(ids: seq<string>): string { if |ids| <= 1 then "" else "\0" + Fingerprint(ids[1..]) }

  // Where the first identifier ends.
  function UpToNul(s: string): nat { if s == "" || s[0] == '\0' then 0 else 1 + UpToNul(s[1..]) }

  lemma {:induction false} UpToNulOfHead(a: string, s: string)
    requires (forall i | 0 <= i < |a| :: a[i] != '\0') && (s == "" || s[0] == '\0')
    ensures UpToNul(a + s) == |a|
    decreases |a|
  {
    if a == "" {
      assert a + s == s;
    } else {
      assert (a + s)[1..] == a[1..] + s;
      UpToNulOfHead(a[1..], s);
    }
  }

  lemma HeadIsReadBack(a: string, b: string, s: string, t: string)
    requires Clean(a) && Clean(b) && a + s == b + t
    requires (s == "" || s[0] == '\0') && (t == "" || t[0] == '\0')
    ensures a == b && s == t
  {
    UpToNulOfHead(a, s);
    UpToNulOfHead(b, t);
    assert a == (a + s)[..|a|] && b == (b + t)[..|b|];
    assert s == (a + s)[|a|..] && t == (b + t)[|b|..];
  }

  lemma FingerprintIsNotEmpty(ids: seq<string>)
    requires AllClean(ids) && ids != []
    ensures Fingerprint(ids) == ids[0] + Rest(ids) && Fingerprint(ids) != ""
  {
    assert Clean(ids[0]);
  }

  lemma RestIs(ids: seq<string>)
    ensures |ids| > 1 ==> Rest(ids) != "" && Rest(ids)[0] == '\0' && Rest(ids)[1..] == Fingerprint(ids[1..])
    ensures |ids| <= 1 ==> Rest(ids) == ""
  {
    hide Fingerprint;
  }

  /** Different lists of non-empty, NUL-free identifiers have different fingerprints. */
  lemma {:induction false} FingerprintIsInjective(a: seq<string>, b: seq<string>)
    requires AllClean(a) && AllClean(b) && Fingerprint(a) == Fingerprint(b)
    ensures a == b
    decreases |a|
  {
    if a == [] || b == [] {
      assert Fingerprint([]) == "";
      if a != [] { FingerprintIsNotEmpty(a); }
      if b != [] { FingerprintIsNotEmpty(b); }
    } else {
      hide Fingerprint, Rest, Clean;
      FingerprintIsNotEmpty(a);
      FingerprintIsNotEmpty(b);
      RestIs(a);
      RestIs(b);
      HeadIsReadBack(a[0], b[0], Rest(a), Rest(b));
      if |a| > 1 {
        FingerprintIsInjective(a[1..], b[1..]);
      }
      assert a == [a[0]] + a[1..] && b == [b[0]] + b[1..];
    }
  }

  /** Both conditions are needed. */
  lemma UncleanFingerprintsCollide()
    ensures Fingerprint([""]) == Fingerprint([])
    ensures Fingerprint(["a\0b"]) == Fingerprint(["a", "b"]) && Ascending(["a", "b"])
  {
    assert Less("a", "b");
    assert ["a", "b"][1..] == ["b"];
    assert "a" + "\0" + "b" == "a\0b";
  }

  // ----- which issues changed

  datatype Candidate = Candidate(identifier: string, updatedAt: Time)

  // The recorded state of each analyzed issue.
  datatype Sidecar = Sidecar(analyzed: map<string, string>, generatedAt: Time)

  datatype View = View(candidates: seq<Candidate>, sidecar: Option<Sidecar>, activeStates: seq<string>, norm: string -> string)
  {
    function Analyzed(): map<string, string> { if sidecar.Some? then sidecar.value.analyzed else map[] }

    function GeneratedAt(): Time { if sidecar.Some? then sidecar.value.generatedAt else 0 }

    // norm lower-cases and trims a state name.
    predicate IsActive(state: string) {
      state == "" || (norm(state) != "" && exists i | 0 <= i < |activeStates| :: norm(activeStates[i]) == norm(state))
    }

    predicate Present(id: string) { id != "" && exists c | c in candidates :: c.identifier == id }

    predicate Updated(id: string) {
      id != "" && exists c | c in candidates :: c.identifier == id && c.updatedAt != 0 && c.updatedAt > GeneratedAt()
    }

    /**
      An issue is a change when it is new, was updated after the analysis, or
      was analyzed as active and is gone.
     */
    predicate Changed(id: string) {
      if id in Analyzed() then Updated(id) || (!Present(id) && IsActive(Analyzed()[id])) else Present(id)
    }

    ghost function Signals(): set<string> {
      set id | id in (set c | c in candidates :: c.identifier) + Analyzed().Keys && Changed(id)
    }

    ghost predicate AllNamesClean() { forall id | id in Signals() :: Clean(id) }
  }

  /**
    The changed issues: a candidate that was never analyzed, or has a time of
    update after the analysis; and an analyzed issue that is no candidate and was
    recorded with an active state, or with none.
   */
  lemma ChangesAre(v: View, id: string)
    ensures id in v.Signals() <==>
      var analyzed := if v.sidecar.Some? then v.sidecar.value.analyzed else map[];
      var since := if v.sidecar.Some? then v.sidecar.value.generatedAt else 0;
      || (exists c | c in v.candidates :: c.identifier == id != "" && (id !in analyzed || (c.updatedAt != 0 && c.updatedAt > since)))
      || (id in analyzed && (id == "" || forall c | c in v.candidates :: c.identifier != id) &&
          (analyzed[id] == "" ||
           exists state | state in v.activeStates :: v.norm(state) == v.norm(analyzed[id]) != ""))
  {
    if id in v.Signals() {
      assert v.Changed(id);
    }
    if id != "" && exists c :: c in v.candidates && c.identifier == id {
      var c :| c in v.candidates && c.identifier == id;
      assert id in set c' | c' in v.candidates :: c'.identifier;
    }
  }

  method ActiveSet(v: View) returns (active: set<string>)
    ensures forall s :: s != "" && v.norm(s) != "" ==> (v.IsActive(s) <==> v.norm(s) in active)
    ensures "" !in active
  {
    active := {};
    for i := 0 to |v.activeStates|
      invariant forall x :: x in active <==> x != "" && exists k | 0 <= k < i :: v.norm(v.activeStates[k]) == x
    {
      var s := v.norm(v.activeStates[i]);
      if s == "" {
        continue;
      }
      active := active + {s};
    }
  }

  method SignalIdentifiers(v: View) returns (ids: seq<string>)
    ensures Ascending(ids) && Elements(ids) == v.Signals()
  {
    var active := ActiveSet(v);
    var present, signal := CandidateSignals(v);
    var rest := v.Analyzed().Keys;
    ghost var base := signal;
    while rest != {}
      invariant rest <= v.Analyzed().Keys
      invariant forall id :: id in signal <==>
        id in base || (id in v.Analyzed() && id !in rest && id !in present && v.IsActive(v.Analyzed()[id]))
      decreases |rest|
    {
      var id :| id in rest;
      rest := rest - {id};
      if id in present {
        continue;
      }
      var state := v.Analyzed()[id];
      if state == "" || v.norm(state) in active {
        signal := signal + {id};
      }
    }
    assert signal == v.Signals();
    ids := SortedKeys(signal);
  }

  method SortedKeys(keys: set<string>) returns (ids: seq<string>)
    ensures Ascending(ids) && Elements(ids) == keys
  {
    ids := [];
    var left := keys;
    while left != {}
      invariant left <= keys && Elements(ids) == keys - left
      invariant forall i, j | 0 <= i < j < |ids| :: ids[i] != ids[j]
      decreases |left|
    {
      var id :| id in left;
      assert id !in Elements(ids) && Elements(ids + [id]) == Elements(ids) + {id};
      ids := ids + [id];
      left := left - {id};
    }
    SortedAscends(ids);
    ids := Sorted(ids);
  }

  // Rules 1 and 3: new and updated candidates.
  method CandidateSignals(v: View) returns (present: set<string>, signal: set<string>)
    ensures forall id :: id in present <==> v.Present(id)
    ensures forall id :: id in signal <==> if id in v.Analyzed() then v.Updated(id) else v.Present(id)
  {
    present, signal := {}, {};
    for i := 0 to |v.candidates|
      invariant forall id :: id in present <==> id != "" && exists k | 0 <= k < i :: v.candidates[k].identifier == id
      invariant forall id :: id in signal <==>
        id != "" && exists k | 0 <= k < i ::
          v.candidates[k].identifier == id &&
          (id in v.Analyzed() ==> v.candidates[k].updatedAt != 0 && v.candidates[k].updatedAt > v.GeneratedAt())
    {
      var c := v.candidates[i];
      if c.identifier == "" {
        continue;
      }
      present := present + {c.identifier};
      if c.identifier !in v.Analyzed() {
        signal := signal + {c.identifier};
        continue;
      }
      if c.updatedAt == 0 {
        continue;
      }
      if c.updatedAt > v.GeneratedAt() {
        signal := signal + {c.identifier};
      }
    }
  }

  // ----- the decision

  datatype Settings = Settings(debounceMinutes: int, floorMinutes: int)
  {
    function Debounce(): Time { PositiveOrDefault(debounceMinutes, DEFAULT_DEBOUNCE_MINUTES) * MINUTE }

    function Floor(): Time { PositiveOrDefault(floorMinutes, DEFAULT_FLOOR_MINUTES) * MINUTE }
  }

  function PositiveOrDefault(v: int, def: int): int { if v <= 0 then def else v }

  // What one tick finds: the mode is automatic, the profile resolves, a job
  // runs, and whether an enqueue would succeed.
  datatype Input = Input(now: Time, auto: bool, resolves: bool, running: bool, view: View, accepts: bool)

  datatype State = State(lastAutoRun: Time, changeFirstSeen: Time, warnedNoProfile: bool, fingerprint: string)

  const START: State := State(0, 0, false, "")

  function Decide(st: State, settings: Settings, x: Input, ids: seq<string>): (bool, State) {
    if !x.auto then (false, st)
    else if !x.resolves then (false, st.(warnedNoProfile := true))
    else
      var fingerprint := Fingerprint(ids);
      if ids == [] then (false, st.(fingerprint := fingerprint, changeFirstSeen := 0))
      else
        var next :=
          if fingerprint != st.fingerprint then st.(fingerprint := fingerprint, changeFirstSeen := x.now) else st;
        (&& !x.running
         && next.changeFirstSeen != 0 && x.now - next.changeFirstSeen >= settings.Debounce()
         && (st.lastAutoRun == 0 || x.now - st.lastAutoRun >= settings.Floor()),
         next)
  }

  lemma {:induction false} HasAscendingList(s: set<string>)
    ensures exists ids :: Ascending(ids) && Elements(ids) == s
    decreases |s|
  {
    if s == {} {
      var none: seq<string> := [];
      assert Ascending(none) && Elements(none) == s;
    } else {
      var x :| x in s;
      HasAscendingList(s - {x});
      var ids :| Ascending(ids) && Elements(ids) == s - {x};
      assert x !in Elements(ids);
      InsertedAscends(x, ids);
    }
  }

  // The one ascending list of the changed issues.
  ghost function Ids(v: View): (ids: seq<string>)
    ensures Ascending(ids) && Elements(ids) == v.Signals()
  {
    HasAscendingList(v.Signals());
    var ids :| Ascending(ids) && Elements(ids) == v.Signals();
    ids
  }

  ghost function Ticked(st: State, settings: Settings, x: Input): State {
    var (fire, next) := Decide(st, settings, x, Ids(x.view));
    if fire && x.accepts then next.(lastAutoRun := x.now) else next
  }

  ghost predicate Fires(st: State, settings: Settings, x: Input) { Decide(st, settings, x, Ids(x.view)).0 }

  method EvaluateAutoAnalyze(st: State, settings: Settings, x: Input) returns (fire: bool, next: State)
    ensures (fire, next) == Decide(st, settings, x, Ids(x.view))
  {
    next := st;
    if !x.auto {
      return false, next;
    }
    if !x.resolves {
      next := next.(warnedNoProfile := true);
      return false, next;
    }
    var ids := SignalIdentifiers(x.view);
    AscendingIsUnique(ids, Ids(x.view));
    var fingerprint := Fingerprint(ids);
    if |ids| == 0 {
      next := next.(fingerprint := fingerprint, changeFirstSeen := 0);
      return false, next;
    }
    if fingerprint != st.fingerprint {
      next := next.(fingerprint := fingerprint, changeFirstSeen := x.now);
    }
    if x.running {
      return false, next;
    }
    if next.changeFirstSeen == 0 || x.now - next.changeFirstSeen < settings.Debounce() {
      return false, next;
    }
    if st.lastAutoRun != 0 && x.now - st.lastAutoRun < settings.Floor() {
      return false, next;
    }
    return true, next;
  }

  class AutoAnalyzer {
    var state: State
    var enqueued: seq<Time>

    constructor ()
      ensures state == START && enqueued == []
    {
      state := START;
      enqueued := [];
    }

    method RunTick(settings: Settings, x: Input)
      modifies this
      ensures state == Ticked(old(state), settings, x)
      ensures enqueued == if Fires(old(state), settings, x) && x.accepts then old(enqueued) + [x.now] else old(enqueued)
    {
      var fire, next := EvaluateAutoAnalyze(state, settings, x);
      state := next;
      if !fire {
        return;
      }
      if !x.accepts {
        return;
      }
      enqueued := enqueued + [x.now];
      state := state.(lastAutoRun := x.now);
    }
  }
}
