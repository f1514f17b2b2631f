/**
  What the reaper can signal, over every run: processes are forked, run and exit,
  pids are used again, daemons record their groups and die at any point, ledger
  writes fail, and a new daemon reaps what the last ledger names.
 */
module ReaperRuns {
  import opened Bytes
  import opened OrphanReaper

  // A process is its pid and start time, for ever.
  datatype Id = Id(pid: Pid, start: string)

  datatype Live = Live(start: string, pgid: Pid, command: string)

  /**
    unwaited are the group leaders the daemon has started and not waited for:
    their pids cannot be used again. starting and listing are process lists the
    daemon has taken and not recorded yet.
   */
  datatype Daemon = Daemon(entries: map<Pid, Entry>, unwaited: set<Pid>, starting: map<Pid, Option<seq<Proc>>>,
                           listing: Option<Option<seq<Proc>>>)

  /**
    past has every process there ever was, with its group; ours are those that
    descend from a group some daemon of this workflow started.
   */
  datatype World = World(
    live: map<Pid, Live>, past: map<Id, Pid>, ours: set<Id>, daemon: Option<Daemon>, file: Option<set<Entry>>)

  datatype Step =
    | Fork(pid: Pid, parent: Pid, ownGroup: bool, start: string, command: string)
    | Exec(pid: Pid, command: string)
    | Exit(pid: Pid)
    | StartGroup(pid: Pid, start: string, command: string)
    | ListForStart(pid: Pid, listing: Option<seq<Proc>>)
    | RecordStart(pid: Pid, ok: bool)
    | Wait(pid: Pid)
    | GroupExited(pid: Pid, ok: bool)
    | ListForRefresh(listing: Option<seq<Proc>>)
    | RecordRefresh(ok: bool)
    | DaemonDies
    | NewDaemon(removed: bool)    // after its reap, which only sends signals

  // What ps can print: live processes, each once.
  ghost predicate Listing(live: map<Pid, Live>, procs: seq<Proc>) {
    && PidsAreUnique(procs)
    && forall p | p in procs :: p.pid in live && live[p.pid] == Live(p.start, p.pgid, p.command)
  }

  ghost predicate CanList(live: map<Pid, Live>, listing: Option<seq<Proc>>) {
    listing.Some? ==> Listing(live, listing.value)
  }

  // A pid is free when no process has it, no group has it, and no unwaited child holds it.
  ghost predicate FreePid(w: World, pid: Pid) {
    && pid !in w.live
    && (forall q | q in w.live :: w.live[q].pgid != pid)
    && (w.daemon.Some? ==> pid !in w.daemon.value.unwaited)
  }

  ghost predicate Enabled(w: World, s: Step) {
    match s
    case Fork(pid, parent, _, start, _) => FreePid(w, pid) && parent in w.live && Id(pid, start) !in w.past && start != ""
    case Exec(pid, _) => pid in w.live
    case Exit(pid) => pid in w.live
    case StartGroup(pid, start, _) => w.daemon.Some? && FreePid(w, pid) && Id(pid, start) !in w.past && start != ""
    case ListForStart(pid, listing) => w.daemon.Some? && pid in w.daemon.value.unwaited && CanList(w.live, listing)
    case RecordStart(pid, _) =>
      w.daemon.Some? && pid in w.daemon.value.unwaited && pid in w.daemon.value.starting
    case Wait(pid) => w.daemon.Some? && pid in w.daemon.value.unwaited && pid !in w.live
    case GroupExited(pid, _) => w.daemon.Some?
    case ListForRefresh(listing) => w.daemon.Some? && CanList(w.live, listing)
    case RecordRefresh(_) => w.daemon.Some? && w.daemon.value.listing.Some?
    case DaemonDies => w.daemon.Some?
    case NewDaemon(_) => w.daemon.None?
  }

  /**
    GroupExited runs before a pid is used again: no process is started with the
    pid of a group the ledger still has.
   */
  ghost predicate Timely(w: World, s: Step) {
    w.daemon.Some? && (s.Fork? || s.StartGroup?) ==> s.pid !in w.daemon.value.entries
  }

  function Written(file: Option<set<Entry>>, entries: map<Pid, Entry>, ok: bool): Option<set<Entry>> {
    if !ok then file else if entries == map[] then None else Some(entries.Values)
  }

  ghost function Next(w: World, s: Step): World
    requires Enabled(w, s)
  {
    match s
    case Fork(pid, parent, own, start, command) =>
      var g := if own then pid else w.live[parent].pgid;
      w.(live := w.live[pid := Live(start, g, command)], past := w.past[Id(pid, start) := g],
         ours := if Id(parent, w.live[parent].start) in w.ours then w.ours + {Id(pid, start)} else w.ours)
    case Exec(pid, command) => w.(live := w.live[pid := w.live[pid].(command := command)])
    case Exit(pid) => w.(live := w.live - {pid})
    case StartGroup(pid, start, command) =>
      w.(live := w.live[pid := Live(start, pid, command)], past := w.past[Id(pid, start) := pid],
         ours := w.ours + {Id(pid, start)},
         daemon := Some(w.daemon.value.(unwaited := w.daemon.value.unwaited + {pid})))
    case ListForStart(pid, listing) =>
      w.(daemon := Some(w.daemon.value.(starting := w.daemon.value.starting[pid := listing])))
    case RecordStart(pid, ok) =>
      var d := w.daemon.value;
      var entries := d.entries[pid := EntryFor(pid, pid, d.starting[pid])];
      w.(daemon := Some(d.(entries := entries, starting := d.starting - {pid})), file := Written(w.file, entries, ok))
    case Wait(pid) =>
      var d := w.daemon.value;
      w.(daemon := Some(d.(unwaited := d.unwaited - {pid}, starting := d.starting - {pid})))
    case GroupExited(pid, ok) =>
      var d := w.daemon.value;
      var entries := d.entries - {pid};
      w.(daemon := Some(d.(entries := entries)), file := if pid in d.entries then Written(w.file, entries, ok) else w.file)
    case ListForRefresh(listing) => w.(daemon := Some(w.daemon.value.(listing := Some(listing))))
    case RecordRefresh(ok) =>
      var d := w.daemon.value;
      var entries := Refreshed(d.entries, d.listing.value);
      w.(daemon := Some(d.(entries := entries, listing := None)),
         file := if d.entries == map[] then w.file else Written(w.file, entries, ok))
    case DaemonDies => w.(daemon := None)
    case NewDaemon(removed) =>
      w.(daemon := Some(Daemon(map[], {}, map[], None)), file := if removed then None else w.file)
  }

  // ----- what always holds

  predicate Ours(w: World, pid: Pid)
    requires pid in w.live
  {
    Id(pid, w.live[pid].start) in w.ours
  }

  // Live processes are on record, and a group is all ours or not at all.
  ghost predicate TableInv(w: World) {
    && (forall p | p in w.live ::
          Id(p, w.live[p].start) in w.past && w.past[Id(p, w.live[p].start)] == w.live[p].pgid && w.live[p].start != "")
    && (forall p, q | p in w.live && q in w.live && w.live[p].pgid == w.live[q].pgid :: Ours(w, p) <==> Ours(w, q))
    && (forall i | i in w.ours :: i in w.past)
  }

  // A group whose leader's pid is held is ours.
  ghost predicate HeldInv(w: World, held: set<Pid>) {
    forall p | p in w.live && w.live[p].pgid in held :: Ours(w, p)
  }

  // The recorded leader is ours, and a recorded member that lives in the group is.
  ghost predicate EntryOk(w: World, e: Entry) {
    && (e.leaderStart != "" ==> Id(e.pid, e.leaderStart) in w.ours)
    && (forall m | m in e.members :: MemberOk(w, e.pgid, m))
  }

  ghost predicate MemberOk(w: World, pgid: Pid, m: Member) {
    && Id(m.pid, m.start) in w.past
    && (m.pid in w.live && w.live[m.pid].start == m.start && w.live[m.pid].pgid == pgid ==> Ours(w, m.pid))
  }

  ghost predicate ListOk(w: World, listing: Option<seq<Proc>>) {
    listing.Some? ==> forall p | p in listing.value :: Id(p.pid, p.start) in w.past
  }

  // A leader listed before its start was recorded is ours.
  ghost predicate StartOk(w: World, pid: Pid, listing: Option<seq<Proc>>) {
    && ListOk(w, listing)
    && (listing.Some? ==> forall p | p in listing.value && p.pid == pid :: Id(p.pid, p.start) in w.ours)
  }

  ghost predicate DaemonInv(w: World, d: Daemon) {
    && HeldInv(w, d.unwaited + d.entries.Keys)
    && (forall p | p in d.unwaited && p in w.live :: Ours(w, p))
    && (forall g | g in d.entries :: d.entries[g].pgid == g && EntryOk(w, d.entries[g]))
    && (forall pid | pid in d.starting :: StartOk(w, pid, d.starting[pid]))
    && (d.listing.Some? ==> ListOk(w, d.listing.value))
  }

  ghost predicate Inv(w: World) {
    && TableInv(w)
    && (w.daemon.Some? ==> DaemonInv(w, w.daemon.value))
    && FileInv(w, w.file)
  }

  ghost predicate FileInv(w: World, file: Option<set<Entry>>) {
    file.Some? ==> forall e | e in file.value :: EntryOk(w, e)
  }

  // ----- steps that change the process table

  // Nobody of the past comes back, and what is ours stays ours.
  ghost predicate Later(w: World, w': World) {
    && (forall i | i in w.past :: i in w'.past && w'.past[i] == w.past[i])
    && w.ours <= w'.ours
    && (forall p | p in w'.live && Id(p, w'.live[p].start) in w.past ::
          p in w.live && w.live[p].start == w'.live[p].start && w.live[p].pgid == w'.live[p].pgid)
  }

  lemma EntryStaysOk(w: World, w': World, e: Entry)
    requires Later(w, w') && EntryOk(w, e)
    ensures EntryOk(w', e)
  {
    forall m | m in e.members
      ensures MemberOk(w', e.pgid, m)
    {
      assert MemberOk(w, e.pgid, m);
    }
  }

  lemma ListingStaysOk(w: World, w': World, pid: Pid, listing: Option<seq<Proc>>)
    requires Later(w, w')
    ensures ListOk(w, listing) ==> ListOk(w', listing)
    ensures StartOk(w, pid, listing) ==> StartOk(w', pid, listing)
  {
  }

  lemma ForkKeepsTable(w: World, s: Step)
    requires Inv(w) && Enabled(w, s) && (s.Fork? || s.StartGroup?)
    ensures TableInv(Next(w, s)) && Later(w, Next(w, s))
  {
    hide DaemonInv, EntryOk, Listing;
    var w' := Next(w, s);
    var g := w'.live[s.pid].pgid;
    assert forall q | q in w.live :: w'.live[q] == w.live[q] && (Ours(w', q) <==> Ours(w, q));
    forall p, q | p in w'.live && q in w'.live && w'.live[p].pgid == w'.live[q].pgid
      ensures Ours(w', p) <==> Ours(w', q)
    {
    }
  }

  lemma ExecAndExitKeepTable(w: World, s: Step)
    requires Inv(w) && Enabled(w, s) && (s.Exec? || s.Exit?)
    ensures TableInv(Next(w, s)) && Later(w, Next(w, s))
  {
    hide DaemonInv, EntryOk, ListOk, Refreshed, EntryFor, Listing;
  }

  lemma HeldSteps(w: World, s: Step)
    requires Inv(w) && Enabled(w, s) && Timely(w, s) && w.daemon.Some?
    requires s.Fork? || s.Exec? || s.Exit? || s.StartGroup?
    ensures var d, w' := w.daemon.value, Next(w, s);
      && w'.daemon.Some? && HeldInv(w', w'.daemon.value.unwaited + w'.daemon.value.entries.Keys)
      && (forall p | p in w'.daemon.value.unwaited && p in w'.live :: Ours(w', p))
  {
    hide EntryOk, ListOk, Refreshed, EntryFor, Listing;
    assert DaemonInv(w, w.daemon.value);
  }

  lemma TableStepShape(w: World, s: Step)
    requires Enabled(w, s) && (s.Fork? || s.Exec? || s.Exit? || s.StartGroup?)
    ensures var w' := Next(w, s);
      && w'.file == w.file && (w.daemon.Some? <==> w'.daemon.Some?)
      && (w.daemon.Some? ==>
            w.daemon.value.entries == w'.daemon.value.entries && w.daemon.value.starting == w'.daemon.value.starting &&
            w.daemon.value.listing == w'.daemon.value.listing)
  {
  }

  lemma TableStepKeepsDaemon(w: World, s: Step)
    requires Inv(w) && Enabled(w, s) && Timely(w, s) && w.daemon.Some?
    requires s.Fork? || s.Exec? || s.Exit? || s.StartGroup?
    requires Later(w, Next(w, s))
    ensures Next(w, s).daemon.Some? && DaemonInv(Next(w, s), Next(w, s).daemon.value)
  {
    var w' := Next(w, s);
    HeldSteps(w, s);
    TableStepShape(w, s);
    assert DaemonInv(w, w.daemon.value);
    hide HeldInv, EntryOk, TableInv, Listing, Enabled, Next, Timely, FileInv, StartOk, ListOk;
    var d, d' := w.daemon.value, w'.daemon.value;
    forall pid | pid in d'.starting
      ensures StartOk(w', pid, d'.starting[pid])
    {
      ListingStaysOk(w, w', pid, d.starting[pid]);
    }
    if d.listing.Some? {
      ListingStaysOk(w, w', 0, d.listing.value);
    }
    forall g | g in d'.entries
      ensures d'.entries[g].pgid == g && EntryOk(w', d'.entries[g])
    {
      EntryStaysOk(w, w', d.entries[g]);
    }
  }

  lemma TableStepKeepsInv(w: World, s: Step)
    requires Inv(w) && Enabled(w, s) && Timely(w, s)
    requires s.Fork? || s.Exec? || s.Exit? || s.StartGroup?
    ensures Inv(Next(w, s))
  {
    var w' := Next(w, s);
    if s.Fork? || s.StartGroup? {
      ForkKeepsTable(w, s);
    } else {
      ExecAndExitKeepTable(w, s);
    }
    TableStepShape(w, s);
    if w.daemon.Some? {
      TableStepKeepsDaemon(w, s);
    }
    hide Enabled, Next, Timely, TableInv, DaemonInv, Later, EntryOk;
    FileStaysOk(w, w');
  }

  lemma FileStaysOk(w: World, w': World)
    requires Later(w, w') && w'.file == w.file && FileInv(w, w.file)
    ensures FileInv(w', w'.file)
  {
    hide EntryOk;
    if w.file.Some? {
      forall e | e in w.file.value
        ensures EntryOk(w', e)
      {
        EntryStaysOk(w, w', e);
      }
    }
  }

  // ----- steps of the daemon

  lemma StartedEntryIsOk(w: World, pid: Pid, listing: Option<seq<Proc>>)
    requires ListOk(w, listing)
    requires listing.Some? ==> forall p | p in listing.value && p.pid == pid :: Id(p.pid, p.start) in w.ours
    requires forall i | i in w.ours :: i in w.past
    ensures EntryOk(w, EntryFor(pid, pid, listing))
  {
    hide Listed;
    if listing.Some? {
      ListedIsListed(listing.value, pid);
    }
  }

  lemma RefreshedEntryIsOk(w: World, e: Entry, held: set<Pid>, listing: Option<seq<Proc>>)
    requires HeldInv(w, held) && e.pgid in held && EntryOk(w, e) && ListOk(w, listing)
    ensures EntryOk(w, RefreshedEntry(e, e.pgid, listing)) && RefreshedEntry(e, e.pgid, listing).pgid == e.pgid
  {
    hide MembersIn;
    if listing.Some? {
      MembersAreListed(listing.value, e.pgid);
    }
  }

  // The entries are in order, so is the file that is written from them.
  lemma WrittenIsOk(w: World, file: Option<set<Entry>>, entries: map<Pid, Entry>, ok: bool)
    requires FileInv(w, file)
    requires forall g | g in entries :: EntryOk(w, entries[g])
    ensures FileInv(w, Written(file, entries, ok))
  {
    hide EntryOk;
  }

  // The process table is as it was, and what the daemon has is in order for it.
  lemma SameTable(w: World, w': World)
    requires TableInv(w) && w'.live == w.live && w'.past == w.past && w'.ours == w.ours
    requires (w'.daemon.Some? ==> DaemonInv(w, w'.daemon.value)) && FileInv(w, w'.file)
    ensures Inv(w')
  {
    assert forall g, m :: MemberOk(w', g, m) == MemberOk(w, g, m);
    assert forall e :: EntryOk(w', e) == EntryOk(w, e);
    hide EntryOk, MemberOk;
  }

  lemma EntriesStepShape(w: World, s: Step)
    requires Enabled(w, s) && (s.RecordStart? || s.GroupExited? || s.RecordRefresh?)
    ensures var d, w' := w.daemon.value, Next(w, s);
      && w'.live == w.live && w'.past == w.past && w'.ours == w.ours && w'.daemon.Some?
      && (w'.file == w.file || w'.file == Written(w.file, w'.daemon.value.entries, s.ok))
      && w'.daemon.value.unwaited == d.unwaited
      && w'.daemon.value.unwaited + w'.daemon.value.entries.Keys <= d.unwaited + d.entries.Keys
      && (forall p | p in w'.daemon.value.starting :: p in d.starting && w'.daemon.value.starting[p] == d.starting[p])
      && (w'.daemon.value.listing.Some? ==> w'.daemon.value.listing == d.listing)
  {
    hide EntryFor, RefreshedEntry, Written;
  }

  lemma EntriesStepKeepsInv(w: World, s: Step)
    requires Inv(w) && Enabled(w, s) && (s.RecordStart? || s.GroupExited? || s.RecordRefresh?)
    ensures Inv(Next(w, s))
  {
    var d, w' := w.daemon.value, Next(w, s);
    var d' := w'.daemon.value;
    EntriesAreOk(w, s);
    EntriesStepShape(w, s);
    assert DaemonInv(w, d) && TableInv(w) && FileInv(w, w.file);
    hide EntryOk, EntryFor, RefreshedEntry, TableInv, Listing, HeldInv, Enabled, Next, Written, FileInv, Inv;
    WrittenIsOk(w, w.file, d'.entries, s.ok);
    HeldShrinks(w, d.unwaited + d.entries.Keys, d'.unwaited + d'.entries.Keys);
    assert DaemonInv(w, d');
    hide DaemonInv;
    SameTable(w, w');
  }

  lemma HeldShrinks(w: World, held: set<Pid>, held': set<Pid>)
    requires HeldInv(w, held) && held' <= held
    ensures HeldInv(w, held')
  {
  }

  lemma EntriesAreOk(w: World, s: Step)
    requires Inv(w) && Enabled(w, s) && (s.RecordStart? || s.GroupExited? || s.RecordRefresh?)
    ensures var d' := Next(w, s).daemon.value;
      forall g | g in d'.entries :: d'.entries[g].pgid == g && EntryOk(w, d'.entries[g])
  {
    hide EntryOk, Listing, Listed, MembersIn, Later;
    var d := w.daemon.value;
    var d' := Next(w, s).daemon.value;
    forall g | g in d'.entries
      ensures d'.entries[g].pgid == g && EntryOk(w, d'.entries[g])
    {
      if s.RecordStart? && g == s.pid {
        StartedEntryIsOk(w, s.pid, d.starting[s.pid]);
      } else if s.RecordRefresh? {
        RefreshedEntryIsOk(w, d.entries[g], d.unwaited + d.entries.Keys, d.listing.value);
      }
    }
  }

  lemma ListStepKeepsInv(w: World, s: Step)
    requires Inv(w) && Enabled(w, s)
    requires s.ListForStart? || s.ListForRefresh? || s.Wait? || s.DaemonDies? || s.NewDaemon?
    ensures Inv(Next(w, s))
  {
    var w' := Next(w, s);
    ListStepShape(w, s);
    assert TableInv(w) && FileInv(w, w.file) && FileInv(w, None);
    if s.ListForStart? || s.ListForRefresh? {
      ListingIsOk(w, s.listing);
    }
    if s.NewDaemon? {
      NothingHeld(w);
      assert DaemonInv(w, w'.daemon.value);
    } else if w'.daemon.Some? {
      ListStepKeepsDaemon(w, s);
    }
    hide DaemonInv, TableInv, FileInv, Enabled, Next;
    SameTable(w, w');
  }

  lemma ListStepKeepsDaemon(w: World, s: Step)
    requires Inv(w) && Enabled(w, s) && (s.ListForStart? || s.ListForRefresh? || s.Wait?)
    ensures Next(w, s).daemon.Some? && DaemonInv(w, Next(w, s).daemon.value)
  {
    var d, d' := w.daemon.value, Next(w, s).daemon.value;
    ListStepShape(w, s);
    assert DaemonInv(w, d);
    if s.ListForStart? || s.ListForRefresh? {
      ListingIsOk(w, s.listing);
    }
    if s.ListForStart? {
      assert s.pid in d.unwaited;
    }
    hide EntryOk, TableInv, Listing, HeldInv, Next, Enabled, Inv, FileInv;
    HeldShrinks(w, d.unwaited + d.entries.Keys, d'.unwaited + d'.entries.Keys);
  }

  lemma ListStepShape(w: World, s: Step)
    requires Enabled(w, s) && (s.ListForStart? || s.ListForRefresh? || s.Wait? || s.DaemonDies? || s.NewDaemon?)
    ensures var w' := Next(w, s);
      && w'.live == w.live && w'.past == w.past && w'.ours == w.ours && (w'.file == w.file || w'.file == None)
      && (s.DaemonDies? ==> w'.daemon == None)
      && (s.NewDaemon? ==> w'.daemon == Some(Daemon(map[], {}, map[], None)))
      && (!s.DaemonDies? && !s.NewDaemon? ==>
            var d := w.daemon.value;
            && w'.daemon.Some? && w'.daemon.value.entries == d.entries && w'.daemon.value.unwaited <= d.unwaited
            && (forall p | p in w'.daemon.value.starting ::
                  if s.ListForStart? && p == s.pid then w'.daemon.value.starting[p] == s.listing
                  else p in d.starting && w'.daemon.value.starting[p] == d.starting[p])
            && w'.daemon.value.listing == if s.ListForRefresh? then Some(s.listing) else d.listing)
  {
  }

  lemma NothingHeld(w: World)
    ensures HeldInv(w, {})
  {
  }

  lemma ListingIsOk(w: World, listing: Option<seq<Proc>>)
    requires TableInv(w) && CanList(w.live, listing)
    ensures ListOk(w, listing)
    ensures listing.Some? ==> forall p | p in listing.value :: p.pid in w.live && w.live[p.pid].start == p.start
  {
  }

  lemma StepKeepsInv(w: World, s: Step)
    requires Inv(w) && Enabled(w, s) && Timely(w, s)
    ensures Inv(Next(w, s))
  {
    hide Inv, Enabled, Next, Timely;
    if s.Fork? || s.Exec? || s.Exit? || s.StartGroup? {
      TableStepKeepsInv(w, s);
    } else if s.RecordStart? || s.GroupExited? || s.RecordRefresh? {
      EntriesStepKeepsInv(w, s);
    } else {
      ListStepKeepsInv(w, s);
    }
  }

  // ----- runs

  ghost predicate Run(w: World, steps: seq<Step>)
    decreases |steps|
  {
    steps == [] || (Enabled(w, steps[0]) && Run(Next(w, steps[0]), steps[1..]))
  }

  ghost function After(w: World, steps: seq<Step>): World
    requires Run(w, steps)
    decreases |steps|
  {
    if steps == [] then w else After(Next(w, steps[0]), steps[1..])
  }

  ghost predicate AllTimely(w: World, steps: seq<Step>)
    requires Run(w, steps)
    decreases |steps|
  {
    steps == [] || (Timely(w, steps[0]) && AllTimely(Next(w, steps[0]), steps[1..]))
  }

  /** A machine where no daemon of this workflow has run: one first process, nothing ours. */
  function Start(init: Pid, start: string): World
  {
    World(map[init := Live(start, init, "init")], map[Id(init, start) := init], {}, None, None)
  }

  lemma {:induction false} RunKeepsInv(w: World, steps: seq<Step>)
    requires Inv(w) && Run(w, steps) && AllTimely(w, steps)
    ensures Inv(After(w, steps))
    decreases |steps|
  {
    hide Inv, Enabled, Next, Timely;
    if steps != [] {
      StepKeepsInv(w, steps[0]);
      RunKeepsInv(Next(w, steps[0]), steps[1..]);
    }
  }

  // Whom a signal reaches.
  predicate Reaches(w: World, s: Signal, pid: Pid)
    requires pid in w.live
  {
    match s case ToProcess(p) => p == pid case ToGroup(g) => w.live[pid].pgid == g
  }

  /**
    Whatever ran before, every process the reaper signals descends from a group a
    daemon of this workflow started.
   */
  lemma OnlyOursAreSignalled(init: Pid, start: string, steps: seq<Step>, e: Entry, procs: seq<Proc>, self: Pid, selfGroup: Pid,
                             s: Signal, pid: Pid)
    requires start != "" && Run(Start(init, start), steps) && AllTimely(Start(init, start), steps)
    requires var w := After(Start(init, start), steps);
      && w.file.Some? && e in w.file.value && Listing(w.live, procs) && Signals(e, procs, self, selfGroup, s)
      && pid in w.live && Reaches(w, s, pid)
    ensures Ours(After(Start(init, start), steps), pid)
  {
    var w := After(Start(init, start), steps);
    assert Inv(Start(init, start));
    RunKeepsInv(Start(init, start), steps);
    hide Run, After, AllTimely;
    assert EntryOk(w, e);
    if LeaderMatches(e, procs) {
      assert Proc(e.pid, e.pgid, e.leaderStart, e.leaderCmd) in procs;
      assert Ours(w, e.pid);
    } else {
      var m :| m in e.members && MemberMatches(e, m, procs) && s == ToProcess(m.pid);
      assert MemberOk(w, e.pgid, m);
    }
  }

  // ----- a late GroupExited

  lemma RunMore(w: World, s: Step, rest: seq<Step>)
    requires Enabled(w, s) && Run(Next(w, s), rest)
    ensures Run(w, [s] + rest) && After(w, [s] + rest) == After(Next(w, s), rest)
  {
    hide Enabled, Next;
    assert ([s] + rest)[1..] == rest;
  }

  lemma {:induction false} RunJoins(w: World, first: seq<Step>, rest: seq<Step>)
    requires Run(w, first) && Run(After(w, first), rest)
    ensures Run(w, first + rest) && After(w, first + rest) == After(After(w, first), rest)
    decreases |first|
  {
    hide Enabled, Next;
    if first == [] {
      assert first + rest == rest;
    } else {
      RunJoins(Next(w, first[0]), first[1..], rest);
      assert (first + rest)[1..] == first[1..] + rest;
    }
  }

  const AGENT: Proc := Proc(10, 10, "a", "agent")
  const STRANGER: Proc := Proc(10, 10, "b", "editor")
  const OLD_ENTRY: Entry := Entry(10, 10, "a", "agent", [Member(10, "a")])
  const NEW_ENTRY: Entry := Entry(10, 10, "a", "agent", [Member(10, "b")])

  // What the machine looks like along the way.
  function WithAgent(unwaited: set<Pid>, alive: bool, starting: map<Pid, Option<seq<Proc>>>, recorded: bool): World {
    World(if alive then map[1 := Live("boot", 1, "init"), 10 := Live("a", 10, "agent")] else map[1 := Live("boot", 1, "init")],
          map[Id(1, "boot") := 1, Id(10, "a") := 10], {Id(10, "a")},
          Some(Daemon(if recorded then map[10 := OLD_ENTRY] else map[], unwaited, starting, None)),
          if recorded then Some({OLD_ENTRY}) else None)
  }

  // An agent ran, its group was recorded, it exited and was waited for.
  function AgentIsGone(): World { WithAgent({}, false, map[], true) }

  lemma OneValue(k: Pid, e: Entry)
    ensures map[k := e].Values == {e}
  {
    assert k in map[k := e];
  }

  lemma AgentStarts()
    ensures var w := Start(1, "boot");
      && Enabled(w, NewDaemon(true)) && Enabled(Next(w, NewDaemon(true)), StartGroup(10, "a", "agent"))
      && Next(Next(w, NewDaemon(true)), StartGroup(10, "a", "agent")) == WithAgent({10}, true, map[], false)
  {
    var w := Next(Next(Start(1, "boot"), NewDaemon(true)), StartGroup(10, "a", "agent"));
    assert w.daemon.value.unwaited == {10} && w.ours == {Id(10, "a")};
  }

  lemma AgentIsListed()
    ensures var w := WithAgent({10}, true, map[], false);
      Enabled(w, ListForStart(10, Some([AGENT]))) &&
      Next(w, ListForStart(10, Some([AGENT]))) == WithAgent({10}, true, map[10 := Some([AGENT])], false)
  {
  }

  lemma AgentIsRecorded()
    ensures var w := WithAgent({10}, true, map[10 := Some([AGENT])], false);
      Enabled(w, RecordStart(10, true)) && Next(w, RecordStart(10, true)) == WithAgent({10}, true, map[], true)
  {
    var w := WithAgent({10}, true, map[10 := Some([AGENT])], false);
    assert EntryFor(10, 10, Some([AGENT])) == OLD_ENTRY;
    var entries := map[10 := OLD_ENTRY];
    assert w.daemon.value.entries[10 := OLD_ENTRY] == entries;
    OneValue(10, OLD_ENTRY);
    assert w.daemon.value.starting - {10} == map[];
  }

  lemma AgentEnds()
    ensures var w := WithAgent({10}, true, map[], true);
      && Enabled(w, Exit(10)) && Enabled(Next(w, Exit(10)), Wait(10))
      && Next(Next(w, Exit(10)), Wait(10)) == AgentIsGone()
  {
    var w := WithAgent({10}, true, map[], true);
    assert w.live - {10} == map[1 := Live("boot", 1, "init")];
    var none: map<Pid, Option<seq<Proc>>> := map[];
    assert none - {10} == none;
    var w' := Next(Next(w, Exit(10)), Wait(10));
    assert w'.daemon.value.unwaited == {} && w'.daemon.value.starting == none && w'.live == AgentIsGone().live;
  }

  const AGENTS_LIFE: seq<Step> :=
    [NewDaemon(true), StartGroup(10, "a", "agent"), ListForStart(10, Some([AGENT])), RecordStart(10, true), Exit(10), Wait(10)]

  lemma AgentComesAndGoes()
    ensures Run(Start(1, "boot"), AGENTS_LIFE) && After(Start(1, "boot"), AGENTS_LIFE) == AgentIsGone()
  {
    AgentStarts();
    AgentIsListed();
    AgentIsRecorded();
    AgentEnds();
    hide Enabled, Next, WithAgent, Start, AgentIsGone;
    var w0 := Start(1, "boot");
    var w1 := Next(w0, NewDaemon(true));
    var w2, w3, w4 :=
      WithAgent({10}, true, map[], false), WithAgent({10}, true, map[10 := Some([AGENT])], false), WithAgent({10}, true, map[], true);
    RunMore(Next(w4, Exit(10)), Wait(10), []);
    RunMore(w4, Exit(10), [Wait(10)]);
    RunMore(w3, RecordStart(10, true), [Exit(10), Wait(10)]);
    RunMore(w2, ListForStart(10, Some([AGENT])), [RecordStart(10, true), Exit(10), Wait(10)]);
    RunMore(w1, StartGroup(10, "a", "agent"), [ListForStart(10, Some([AGENT])), RecordStart(10, true), Exit(10), Wait(10)]);
    RunMore(w0, NewDaemon(true),
            [StartGroup(10, "a", "agent"), ListForStart(10, Some([AGENT])), RecordStart(10, true), Exit(10), Wait(10)]);
  }

  function WithStranger(daemon: Option<Daemon>, e: Entry): World {
    World(map[1 := Live("boot", 1, "init"), 10 := Live("b", 10, "editor")],
          map[Id(1, "boot") := 1, Id(10, "a") := 10, Id(10, "b") := 10], {Id(10, "a")}, daemon, Some({e}))
  }

  const LISTED: Option<Option<seq<Proc>>> := Some(Some([STRANGER]))

  lemma StrangerIsListed()
    ensures var w := AgentIsGone();
      Enabled(w, Fork(10, 1, true, "b", "editor")) &&
      var w1 := Next(w, Fork(10, 1, true, "b", "editor"));
      Enabled(w1, ListForRefresh(LISTED.value)) &&
      Next(w1, ListForRefresh(LISTED.value)) == WithStranger(Some(Daemon(map[10 := OLD_ENTRY], {}, map[], LISTED)), OLD_ENTRY)
  {
  }

  lemma StrangerIsRecorded()
    ensures var w := WithStranger(Some(Daemon(map[10 := OLD_ENTRY], {}, map[], LISTED)), OLD_ENTRY);
      && Enabled(w, RecordRefresh(true)) && Enabled(Next(w, RecordRefresh(true)), DaemonDies)
      && Next(Next(w, RecordRefresh(true)), DaemonDies) == WithStranger(None, NEW_ENTRY)
  {
    assert [STRANGER][1..] == [] && MembersIn([STRANGER], 10) == [Member(10, "b")];
    var entries := map[10 := NEW_ENTRY];
    assert Refreshed(map[10 := OLD_ENTRY], LISTED.value) == entries;
    OneValue(10, NEW_ENTRY);
  }

  /**
    The pid is free once the agent is waited for, but its group leaves the ledger
    only afterwards. A stranger that takes the pid in between, and is seen by a
    refresh before the daemon dies, is signalled by the next daemon.
   */
  lemma LateGroupExitedReachesAStranger()
    ensures var steps := [Fork(10, 1, true, "b", "editor"), ListForRefresh(Some([STRANGER])), RecordRefresh(true), DaemonDies];
      Run(Start(1, "boot"), AGENTS_LIFE + steps) &&
      var w := After(Start(1, "boot"), AGENTS_LIFE + steps);
      && w.file == Some({NEW_ENTRY}) && w.live.Keys == {1, 10} && w.live[10] == Live("b", 10, "editor")
      && !Ours(w, 10) && Listing(w.live, [STRANGER])
      && Signals(NEW_ENTRY, [STRANGER], 20, 20, ToProcess(10))
  {
    StrangerIsListed();
    StrangerIsRecorded();
    StrangerIsSignalled();
    AgentComesAndGoes();
    hide Enabled, Next, Signals, AgentIsGone, Start, AGENTS_LIFE;
    var w0 := AgentIsGone();
    var w1 := Next(w0, Fork(10, 1, true, "b", "editor"));
    var w2 := Next(w1, ListForRefresh(LISTED.value));
    RunMore(Next(w2, RecordRefresh(true)), DaemonDies, []);
    RunMore(w2, RecordRefresh(true), [DaemonDies]);
    RunMore(w1, ListForRefresh(Some([STRANGER])), [RecordRefresh(true), DaemonDies]);
    RunMore(w0, Fork(10, 1, true, "b", "editor"), [ListForRefresh(Some([STRANGER])), RecordRefresh(true), DaemonDies]);
    RunJoins(Start(1, "boot"), AGENTS_LIFE,
             [Fork(10, 1, true, "b", "editor"), ListForRefresh(Some([STRANGER])), RecordRefresh(true), DaemonDies]);
  }

  lemma StrangerIsSignalled()
    ensures Signals(NEW_ENTRY, [STRANGER], 20, 20, ToProcess(10))
  {
    var m := Member(10, "b");
    assert STRANGER in [STRANGER] && STRANGER.pgid == 10;
    assert m in NEW_ENTRY.members && MemberMatches(NEW_ENTRY, m, [STRANGER]);
    assert GroupIsAlive([STRANGER], 10);
  }
}
