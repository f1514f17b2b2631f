/** When automatic analysis runs, over every run of ticks. */
module AutoAnalyzeRuns {
  import opened Bytes
  import opened AutoAnalyze

  // Time is positive and does not go back.
  predicate Timed(ticks: seq<Input>) {
    && (forall i | 0 <= i < |ticks| :: ticks[i].now > 0)
    && (forall i, j | 0 <= i < j < |ticks| :: ticks[i].now <= ticks[j].now)
  }

  ghost predicate NamesClean(ticks: seq<Input>) { forall i | 0 <= i < |ticks| :: ticks[i].view.AllNamesClean() }

  ghost function StateAfter(settings: Settings, ticks: seq<Input>): State {
    if ticks == [] then START
    else Ticked(StateAfter(settings, ticks[..|ticks| - 1]), settings, ticks[|ticks| - 1])
  }

  ghost predicate FiresAt(settings: Settings, ticks: seq<Input>, k: nat)
    requires k < |ticks|
  {
    Fires(StateAfter(settings, ticks[..k]), settings, ticks[k])
  }

  ghost predicate RunsAt(settings: Settings, ticks: seq<Input>, k: nat)
    requires k < |ticks|
  {
    FiresAt(settings, ticks, k) && ticks[k].accepts
  }

  // ----- the history itself, without the scheduler's state

  predicate Evaluated(x: Input) { x.auto && x.resolves }

  // The changed issues at the last evaluated tick.
  ghost function LastSeen(ticks: seq<Input>): set<string> {
    if ticks == [] then {}
    else if Evaluated(ticks[|ticks| - 1]) then ticks[|ticks| - 1].view.Signals()
    else LastSeen(ticks[..|ticks| - 1])
  }

  // Since when the evaluated ticks have all seen what the last one saw.
  ghost function SeenSince(ticks: seq<Input>): Time {
    if ticks == [] then 0
    else
      var x, before := ticks[|ticks| - 1], ticks[..|ticks| - 1];
      if !Evaluated(x) || x.view.Signals() == LastSeen(before) then SeenSince(before) else x.now
  }

  ghost function LastRun(settings: Settings, ticks: seq<Input>): Time {
    if ticks == [] then 0
    else
      var before := ticks[..|ticks| - 1];
      assert ticks[..|ticks| - 1] == before;
      if RunsAt(settings, ticks, |ticks| - 1) then ticks[|ticks| - 1].now else LastRun(settings, before)
  }

  lemma SameFingerprint(v: View, s: set<string>)
    requires v.AllNamesClean() && forall id | id in s :: Clean(id)
    ensures forall ids | Ascending(ids) && Elements(ids) == s :: (Fingerprint(Ids(v)) == Fingerprint(ids) <==> v.Signals() == s)
    ensures v.Signals() == {} <==> Ids(v) == []
  {
    hide Fingerprint, Ascending;
    var mine := Ids(v);
    AllCleanIn(mine);
    assert mine != [] ==> mine[0] in Elements(mine);
    forall ids | Ascending(ids) && Elements(ids) == s
      ensures Fingerprint(mine) == Fingerprint(ids) <==> v.Signals() == s
    {
      AllCleanIn(ids);
      if Fingerprint(mine) == Fingerprint(ids) {
        FingerprintIsInjective(mine, ids);
      } else if v.Signals() == s {
        AscendingIsUnique(mine, ids);
      }
    }
  }

  lemma AllCleanIn(ids: seq<string>)
    requires forall id | id in Elements(ids) :: Clean(id)
    ensures AllClean(ids)
  {
    forall i | 0 <= i < |ids|
      ensures Clean(ids[i])
    {
      assert ids[i] in Elements(ids);
    }
  }

  // What the state holds of the history.
  ghost predicate Remembers(settings: Settings, ticks: seq<Input>) {
    var st := StateAfter(settings, ticks);
    && (forall id | id in LastSeen(ticks) :: Clean(id))
    && (exists ids :: Ascending(ids) && Elements(ids) == LastSeen(ticks) && st.fingerprint == Fingerprint(ids))
    && st.changeFirstSeen == (if LastSeen(ticks) == {} then 0 else SeenSince(ticks))
    && (LastSeen(ticks) != {} ==> SeenSince(ticks) > 0)
    && st.lastAutoRun == LastRun(settings, ticks)
  }

  lemma {:induction false} StateRemembers(settings: Settings, ticks: seq<Input>)
    requires Timed(ticks) && NamesClean(ticks)
    ensures Remembers(settings, ticks)
    decreases |ticks|
  {
    if ticks == [] {
      var none: seq<string> := [];
      assert Ascending(none) && Elements(none) == {} && Fingerprint(none) == "";
    } else {
      var x, before := ticks[|ticks| - 1], ticks[..|ticks| - 1];
      StateRemembers(settings, before);
      hide Fingerprint, Ascending;
      if Evaluated(x) {
        SameFingerprint(x.view, LastSeen(before));
        assert Ascending(Ids(x.view)) && Elements(Ids(x.view)) == LastSeen(ticks);
      }
    }
  }

  // ----- when a tick fires

  /**
    A tick fires exactly when it is evaluated with no job running, something has
    changed, every evaluated tick for at least the debounce (5 minutes if none is
    set) has seen the same changes, and the last automatic run is at least the
    floor (60 minutes if none is set) ago.
   */
  lemma FiresExactlyWhen(settings: Settings, ticks: seq<Input>, k: nat)
    requires Timed(ticks) && NamesClean(ticks) && k < |ticks|
    ensures FiresAt(settings, ticks, k) <==>
      && Evaluated(ticks[k]) && !ticks[k].running && ticks[k].view.Signals() != {}
      && ticks[k].now - SeenSince(ticks[..k + 1]) >=
           (if settings.debounceMinutes > 0 then settings.debounceMinutes else 5) * 60000000000
      && (LastRun(settings, ticks[..k]) == 0 ||
          ticks[k].now - LastRun(settings, ticks[..k]) >= (if settings.floorMinutes > 0 then settings.floorMinutes else 60) * 60000000000)
  {
    hide Fingerprint, Ascending;
    var before := ticks[..k];
    var x := ticks[k];
    StateRemembers(settings, before);
    assert ticks[..k + 1][..k] == before;
    if Evaluated(x) {
      SameFingerprint(x.view, LastSeen(before));
    }
  }

  // Every evaluated tick from i on saw these changes, the first of them at i.
  ghost predicate Stable(ticks: seq<Input>, i: nat, changes: set<string>) {
    && i < |ticks| && Evaluated(ticks[i])
    && forall j | i <= j < |ticks| && Evaluated(ticks[j]) :: ticks[j].view.Signals() == changes
  }

  lemma StableStays(before: seq<Input>, ticks: seq<Input>, i: nat, changes: set<string>)
    requires ticks != [] && before == ticks[..|ticks| - 1] && Stable(before, i, changes)
    requires Evaluated(ticks[|ticks| - 1]) ==> ticks[|ticks| - 1].view.Signals() == changes
    ensures Stable(ticks, i, changes)
  {
    forall j | i <= j < |ticks| && Evaluated(ticks[j])
      ensures ticks[j].view.Signals() == changes
    {
      if j < |before| {
        assert before[j] == ticks[j];
      }
    }
  }

  /** What "since" means: a tick at that time, and the same changes at every evaluated tick from it on. */
  lemma {:induction false} SeenSinceIsStable(ticks: seq<Input>) returns (i: nat)
    requires LastSeen(ticks) != {}
    ensures Stable(ticks, i, LastSeen(ticks)) && ticks[i].now == SeenSince(ticks)
    decreases |ticks|
  {
    var n := |ticks| - 1;
    var x, before := ticks[n], ticks[..n];
    if !Evaluated(x) || x.view.Signals() == LastSeen(before) {
      i := SeenSinceIsStable(before);
      StableStays(before, ticks, i, LastSeen(ticks));
      assert ticks[i] == before[i];
    } else {
      i := n;
    }
  }

  /** A fire means the changes were stable for the whole debounce. */
  lemma FireMeansStable(settings: Settings, ticks: seq<Input>, k: nat) returns (i: nat)
    requires Timed(ticks) && NamesClean(ticks) && k < |ticks| && FiresAt(settings, ticks, k)
    ensures Stable(ticks[..k + 1], i, ticks[k].view.Signals()) && ticks[k].now - ticks[i].now >= settings.Debounce()
  {
    FiresExactlyWhen(settings, ticks, k);
    i := SeenSinceIsStable(ticks[..k + 1]);
  }

  // ----- the floor

  // The last run is a run, and no run is later.
  lemma {:induction false} LastRunIsLast(settings: Settings, ticks: seq<Input>, i: nat)
    requires Timed(ticks) && i < |ticks| && RunsAt(settings, ticks, i)
    ensures LastRun(settings, ticks) >= ticks[i].now
    decreases |ticks|
  {
    var n := |ticks| - 1;
    var before := ticks[..n];
    if i < n {
      assert before[..i] == ticks[..i] && before[i] == ticks[i];
      LastRunIsLast(settings, before, i);
      LastRunIsPast(settings, before, ticks[n].now);
    }
  }

  lemma {:induction false} LastRunIsPast(settings: Settings, ticks: seq<Input>, now: Time)
    requires now >= 0 && forall i | 0 <= i < |ticks| :: ticks[i].now <= now
    ensures LastRun(settings, ticks) <= now
    decreases |ticks|
  {
    if ticks != [] {
      LastRunIsPast(settings, ticks[..|ticks| - 1], now);
    }
  }

  /** Two successful automatic runs are at least the floor apart. */
  lemma RunsAreFloorApart(settings: Settings, ticks: seq<Input>, i: nat, k: nat)
    requires Timed(ticks) && NamesClean(ticks) && i < k < |ticks|
    requires RunsAt(settings, ticks, i) && RunsAt(settings, ticks, k)
    ensures ticks[k].now - ticks[i].now >= settings.Floor()
  {
    FiresExactlyWhen(settings, ticks, k);
    var before := ticks[..k];
    assert before[..i] == ticks[..i] && before[i] == ticks[i];
    LastRunIsLast(settings, before, i);
  }

  /** A failed enqueue costs nothing: the next tick that finds the same changes fires again. */
  lemma FailedEnqueueIsRetried(settings: Settings, ticks: seq<Input>, k: nat)
    requires Timed(ticks) && NamesClean(ticks) && k + 1 < |ticks|
    requires FiresAt(settings, ticks, k) && !ticks[k].accepts
    requires Evaluated(ticks[k + 1]) && !ticks[k + 1].running && ticks[k + 1].view.Signals() == ticks[k].view.Signals()
    ensures FiresAt(settings, ticks, k + 1)
  {
    FiresExactlyWhen(settings, ticks, k);
    FiresExactlyWhen(settings, ticks, k + 1);
    assert ticks[..k + 2][..k + 1] == ticks[..k + 1] && ticks[..k + 1][..k] == ticks[..k];
  }

  // ----- the warning

  /** The warning about the profile is given once one automatic tick has found none, and never again. */
  lemma {:induction false} WarnedExactlyWhen(settings: Settings, ticks: seq<Input>)
    ensures StateAfter(settings, ticks).warnedNoProfile <==> exists k | 0 <= k < |ticks| :: ticks[k].auto && !ticks[k].resolves
    decreases |ticks|
  {
    if ticks != [] {
      var n := |ticks| - 1;
      WarnedExactlyWhen(settings, ticks[..n]);
      if k :| 0 <= k < |ticks| && ticks[k].auto && !ticks[k].resolves {
        assert k < n ==> ticks[..n][k].auto && !ticks[..n][k].resolves;
      }
    }
  }

  // ----- manual mode

  lemma {:induction false} ManualTicksKeepTheState(settings: Settings, before: seq<Input>, manual: seq<Input>)
    requires forall x | x in manual :: !x.auto
    ensures StateAfter(settings, before + manual) == StateAfter(settings, before)
    decreases |manual|
  {
    if manual == [] {
      assert before + manual == before;
    } else {
      var n := |manual| - 1;
      ManualTicksKeepTheState(settings, before, manual[..n]);
      assert (before + manual)[..|before + manual| - 1] == before + manual[..n];
    }
  }

  /** After any history, a tick fires as if the manual ticks before it had not been. */
  lemma ManualTicksDoNotMatter(settings: Settings, before: seq<Input>, manual: seq<Input>, back: Input)
    requires forall x | x in manual :: !x.auto
    ensures FiresAt(settings, before + manual + [back], |before| + |manual|) <==>
            FiresAt(settings, before + [back], |before|)
  {
    ManualTicksKeepTheState(settings, before, manual);
    assert (before + manual + [back])[..|before| + |manual|] == before + manual;
    assert (before + [back])[..|before|] == before;
  }

  /**
    Switching back to automatic can fire at once: however many manual ticks lie
    between, the quiet period counts from the last change seen before them, and
    may have passed unobserved.
   */
  lemma ManualTimeCountsAsQuiet(settings: Settings, first: Input, manual: seq<Input>, back: Input)
    requires Timed([first] + manual + [back]) && first.view.AllNamesClean() && back.view.AllNamesClean()
    requires Evaluated(first) && (forall x | x in manual :: !x.auto) && Evaluated(back) && !back.running
    requires first.view.Signals() == back.view.Signals() != {} && settings.Debounce() > 0
    ensures FiresAt(settings, [first] + manual + [back], 1 + |manual|) <==> back.now - first.now >= settings.Debounce()
  {
    ManualTicksDoNotMatter(settings, [first], manual, back);
    var all := [first] + manual + [back];
    assert all[0] == first && all[|all| - 1] == back;
    var ticks := [first, back];
    assert [first] + [back] == ticks;
    FiresExactlyWhen(settings, ticks, 1);
    FiresExactlyWhen(settings, ticks, 0);
    assert ticks[..2] == ticks && ticks[..1] == [first] && [first][..0] == [] && ticks[..0] == [];
    assert SeenSince([first]) == first.now && SeenSince(ticks) == first.now;
    assert LastRun(settings, [first]) == 0;
  }
}
