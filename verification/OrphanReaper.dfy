/**
  The ledger of agent process groups and the reaper of groups a dead daemon left
  behind (cmd/itervox/agent_pgids.go).
 */
module OrphanReaper {
  import opened Bytes

  type Pid = nat

  // One live process as ps reports it; start is the kernel's start time.
  datatype Proc = Proc(pid: Pid, pgid: Pid, start: string, command: string)

  datatype Member = Member(pid: Pid, start: string)

  datatype Entry = Entry(pgid: Pid, pid: Pid, leaderStart: string, leaderCmd: string, members: seq<Member>)

  // ----- what the ledger records

  // The first process listed with the pid.
  function Listed(procs: seq<Proc>, pid: Pid): Option<Proc> {
    if procs == [] then None else if procs[0].pid == pid then Some(procs[0]) else Listed(procs[1..], pid)
  }

  function EntryFor(pgid: Pid, pid: Pid, listing: Option<seq<Proc>>): Entry {
    var leader := if listing.Some? then Listed(listing.value, pid) else None;
    match leader
    case None => Entry(pgid, pid, "", "", [])
    case Some(p) => Entry(pgid, pid, p.start, p.command, if p.start == "" then [] else [Member(pid, p.start)])
  }

  function MembersIn(procs: seq<Proc>, pgid: Pid): seq<Member> {
    if procs == [] then []
    else (if procs[0].pgid == pgid then [Member(procs[0].pid, procs[0].start)] else []) + MembersIn(procs[1..], pgid)
  }

  function RefreshedEntry(e: Entry, pgid: Pid, listing: Option<seq<Proc>>): Entry {
    if listing.Some? && MembersIn(listing.value, pgid) != [] then e.(members := MembersIn(listing.value, pgid)) else e
  }

  function Refreshed(entries: map<Pid, Entry>, listing: Option<seq<Proc>>): map<Pid, Entry> {
    map g | g in entries :: RefreshedEntry(entries[g], g, listing)
  }

  lemma {:induction false} MembersAreListed(procs: seq<Proc>, pgid: Pid)
    ensures forall m :: m in MembersIn(procs, pgid) <==> exists p | p in procs :: p.pgid == pgid && m == Member(p.pid, p.start)
    decreases |procs|
  {
    if procs != [] {
      MembersAreListed(procs[1..], pgid);
      assert forall p :: p in procs <==> p == procs[0] || p in procs[1..];
    }
  }

  lemma {:induction false} ListedIsListed(procs: seq<Proc>, pid: Pid)
    ensures Listed(procs, pid).Some? ==> Listed(procs, pid).value in procs && Listed(procs, pid).value.pid == pid
    decreases |procs|
  {
    if procs != [] && procs[0].pid != pid {
      ListedIsListed(procs[1..], pid);
    }
  }

  /** A group is recorded with its leader's start time and command, the leader its first member; or with none of them. */
  lemma LeaderIsRecorded(pgid: Pid, pid: Pid, procs: seq<Proc>)
    requires PidsAreUnique(procs)
    ensures forall p | p in procs && p.pid == pid ::
      EntryFor(pgid, pid, Some(procs)) ==
        Entry(pgid, pid, p.start, p.command, if p.start == "" then [] else [Member(pid, p.start)])
    ensures (forall p | p in procs :: p.pid != pid) ==> EntryFor(pgid, pid, Some(procs)) == Entry(pgid, pid, "", "", [])
    ensures EntryFor(pgid, pid, None) == Entry(pgid, pid, "", "", [])
  {
    forall p | p in procs && p.pid == pid
      ensures Listed(procs, pid) == Some(p)
    {
      ListedIsOnly(procs, p);
    }
    ListedIsListed(procs, pid);
  }

  // ----- the ledger as the daemon keeps it

  class PgidLedger {
    var entries: map<Pid, Entry>
    var file: Option<set<Entry>>

    constructor ()
      ensures entries == map[] && file == None
    {
      entries, file := map[], None;
    }

    // An empty ledger has no file; a failed write leaves the old file.
    method Persist(ok: bool)
      modifies `file
      ensures file == if !ok then old(file) else if entries == map[] then None else Some(entries.Values)
    {
      if ok {
        file := if |entries| == 0 then None else Some(entries.Values);
      }
    }

    method GroupStarted(pgid: Pid, pid: Pid, listing: Option<seq<Proc>>, ok: bool)
      modifies this
      ensures entries == old(entries)[pgid := EntryFor(pgid, pid, listing)]
      ensures file == if ok then Some(entries.Values) else old(file)
    {
      hide Listed;
      var start, cmd := "", "";
      if listing.Some? {
        start, cmd := LeaderIdentity(listing.value, pid);
      }
      var e := Entry(pgid, pid, start, cmd, []);
      if start != "" {
        e := e.(members := [Member(pid, start)]);
      }
      EmptyIdentity(listing, pgid, pid);
      entries := entries[pgid := e];
      assert pgid in entries;
      Persist(ok);
    }

    method LeaderIdentity(procs: seq<Proc>, pid: Pid) returns (start: string, cmd: string)
      ensures Listed(procs, pid).None? ==> start == "" && cmd == ""
      ensures Listed(procs, pid).Some? ==> start == Listed(procs, pid).value.start && cmd == Listed(procs, pid).value.command
    {
      start, cmd := "", "";
      for i := 0 to |procs|
        invariant Listed(procs, pid) == Listed(procs[i..], pid)
      {
        assert procs[i..][1..] == procs[i + 1..];
        if procs[i].pid == pid {
          return procs[i].start, procs[i].command;
        }
      }
    }

    // What the entry is when the leader has no start time.
    lemma EmptyIdentity(listing: Option<seq<Proc>>, pgid: Pid, pid: Pid)
      ensures EntryFor(pgid, pid, listing).leaderStart == "" ==> EntryFor(pgid, pid, listing).members == []
    {
    }

    method GroupExited(pgid: Pid, ok: bool)
      modifies this
      ensures entries == old(entries) - {pgid}
      ensures file ==
        if pgid !in old(entries) || !ok then old(file) else if entries == map[] then None else Some(entries.Values)
    {
      if pgid !in entries {
        return;
      }
      entries := entries - {pgid};
      Persist(ok);
    }

    method Refresh(listing: Option<seq<Proc>>, ok: bool)
      modifies this
      ensures entries == Refreshed(old(entries), listing)
      ensures file == if old(entries) == map[] || !ok then old(file) else Some(entries.Values)
    {
      if |entries| == 0 {
        return;
      }
      if listing.Some? {
        RecordMembers(listing.value);
      }
      assert entries.Keys == old(entries.Keys);
      assert entries == Refreshed(old(entries), listing);
      if |entries| > 0 {
        Persist(ok);
      }
    }

    method RecordMembers(procs: seq<Proc>)
      modifies `entries
      ensures entries == Refreshed(old(entries), Some(procs))
    {
      var left: set<Pid> := entries.Keys;
      ghost var was := entries;
      while left != {}
        invariant left <= was.Keys == entries.Keys
        invariant forall g | g in was :: entries[g] == if g in left then was[g] else RefreshedEntry(was[g], g, Some(procs))
        decreases |left|
      {
        var g :| g in left;
        left := left - {g};
        var m := MembersOf(procs, g);
        if |m| > 0 {
          entries := entries[g := entries[g].(members := m)];
        }
      }
      assert entries == Refreshed(was, Some(procs));
    }

    method MembersOf(procs: seq<Proc>, pgid: Pid) returns (ms: seq<Member>)
      ensures ms == MembersIn(procs, pgid)
    {
      ms := [];
      for i := 0 to |procs|
        invariant MembersIn(procs, pgid) == ms + MembersIn(procs[i..], pgid)
      {
        assert procs[i..][1..] == procs[i + 1..];
        if procs[i].pgid == pgid {
          ms := ms + [Member(procs[i].pid, procs[i].start)];
        }
      }
    }
  }

  // ----- the reaper

  datatype Signal = ToGroup(pgid: Pid) | ToProcess(pid: Pid)

  datatype Action = Reaped | ReapedMembers | Gone | SkippedIdentity | SkippedSelf

  /** The recorded leader still lives, still leads the group, and is the same process. */
  ghost predicate LeaderMatches(e: Entry, procs: seq<Proc>) {
    && e.leaderStart != "" && e.leaderCmd != ""
    && Proc(e.pid, e.pgid, e.leaderStart, e.leaderCmd) in procs
  }

  // A recorded member that is still the same process in the same group.
  ghost predicate MemberMatches(e: Entry, m: Member, procs: seq<Proc>) {
    m in e.members && m.start != "" && m.pid > 1 &&
    exists p | p in procs :: p.pid == m.pid && p.pgid == e.pgid && p.start == m.start
  }

  ghost predicate GroupIsAlive(procs: seq<Proc>, g: Pid) { exists p | p in procs :: p.pgid == g }

  ghost predicate IsOwn(e: Entry, procs: seq<Proc>, self: Pid, selfGroup: Pid) {
    e.pgid <= 1 || e.pgid == selfGroup || exists p | p in procs :: p.pgid == e.pgid && p.pid == self
  }

  /** What the reaper signals for one entry. */
  ghost predicate Signals(e: Entry, procs: seq<Proc>, self: Pid, selfGroup: Pid, s: Signal) {
    GroupIsAlive(procs, e.pgid) && !IsOwn(e, procs, self, selfGroup) &&
    if LeaderMatches(e, procs) then s == ToGroup(e.pgid)
    else exists m | m in e.members :: MemberMatches(e, m, procs) && s == ToProcess(m.pid)
  }

  predicate PidsAreUnique(procs: seq<Proc>) {
    forall i, j | 0 <= i < j < |procs| :: procs[i].pid != procs[j].pid
  }

  lemma ListedIsOnly(procs: seq<Proc>, p: Proc)
    requires PidsAreUnique(procs) && p in procs
    ensures Listed(procs, p.pid) == Some(p)
    decreases |procs|
  {
    if procs[0] != p {
      var k :| 0 <= k < |procs| && procs[k] == p;
      assert procs[0].pid != procs[k].pid;
      assert procs[1..][k - 1] == p;
      assert forall i, j | 0 <= i < j < |procs[1..]| :: procs[1..][i] == procs[i + 1] && procs[1..][j] == procs[j + 1];
      ListedIsOnly(procs[1..], p);
    }
  }

  method LeaderMatchesNow(e: Entry, procs: seq<Proc>) returns (r: bool)
    requires PidsAreUnique(procs)
    ensures r <==> LeaderMatches(e, procs)
  {
    hide Listed;
    if e.leaderStart == "" || e.leaderCmd == "" {
      return false;
    }
    var p := Listed(procs, e.pid);
    ListedIsListed(procs, e.pid);
    var same := Proc(e.pid, e.pgid, e.leaderStart, e.leaderCmd);
    if same in procs {
      ListedIsOnly(procs, same);
    }
    r := p.Some? && p.value.pgid == e.pgid && p.value.start == e.leaderStart && p.value.command == e.leaderCmd;
  }

  method ReapRecordedMembers(e: Entry, procs: seq<Proc>) returns (sent: seq<Signal>)
    requires PidsAreUnique(procs)
    ensures forall s :: s in sent <==> exists m | m in e.members :: MemberMatches(e, m, procs) && s == ToProcess(m.pid)
  {
    sent := [];
    for i := 0 to |e.members|
      invariant forall s :: s in sent <==>
        exists k | 0 <= k < i :: MemberMatches(e, e.members[k], procs) && s == ToProcess(e.members[k].pid)
    {
      var m := e.members[i];
      var same := MemberMatchesNow(e, m, procs);
      if same {
        sent := sent + [ToProcess(m.pid)];
      }
    }
  }

  method MemberMatchesNow(e: Entry, m: Member, procs: seq<Proc>) returns (r: bool)
    requires PidsAreUnique(procs) && m in e.members
    ensures r <==> MemberMatches(e, m, procs)
  {
    hide Listed;
    if m.start == "" || m.pid <= 1 {
      return false;
    }
    ListedIsListed(procs, m.pid);
    forall p | p in procs && p.pid == m.pid
      ensures Listed(procs, m.pid) == Some(p)
    {
      ListedIsOnly(procs, p);
    }
    var p := Listed(procs, m.pid);
    r := p.Some? && p.value.pgid == e.pgid && p.value.start == m.start;
  }

  /** What is reported for one entry. */
  ghost predicate Describes(e: Entry, procs: seq<Proc>, self: Pid, selfGroup: Pid, action: Action) {
    && (action.Gone? <==> !GroupIsAlive(procs, e.pgid))
    && (action.SkippedSelf? <==> GroupIsAlive(procs, e.pgid) && IsOwn(e, procs, self, selfGroup))
    && (action.Reaped? ==> LeaderMatches(e, procs))
    && (action.ReapedMembers? ==> !LeaderMatches(e, procs))
    && (action.Reaped? || action.ReapedMembers? <==> exists s :: Signals(e, procs, self, selfGroup, s))
  }

  /** One entry of the ledger. */
  method ReapEntry(e: Entry, procs: seq<Proc>, self: Pid, selfGroup: Pid) returns (action: Action, sent: seq<Signal>)
    requires PidsAreUnique(procs)
    ensures forall s :: s in sent <==> Signals(e, procs, self, selfGroup, s)
    ensures Describes(e, procs, self, selfGroup, action)
  {
    hide MemberMatches, LeaderMatches, Listed;
    sent := [];
    var alive, own := GroupState(e, procs, self, selfGroup);
    if !alive {
      return Gone, [];
    }
    if own {
      return SkippedSelf, [];
    }
    var leads := LeaderMatchesNow(e, procs);
    if leads {
      assert Signals(e, procs, self, selfGroup, ToGroup(e.pgid));
      return Reaped, [ToGroup(e.pgid)];
    }
    sent := ReapRecordedMembers(e, procs);
    assert sent != [] ==> sent[0] in sent;
    assert forall s :: s in sent ==> sent != [];
    action := if |sent| > 0 then ReapedMembers else SkippedIdentity;
  }

  method GroupState(e: Entry, procs: seq<Proc>, self: Pid, selfGroup: Pid) returns (alive: bool, own: bool)
    ensures alive <==> GroupIsAlive(procs, e.pgid)
    ensures own <==> IsOwn(e, procs, self, selfGroup)
  {
    alive, own := false, e.pgid <= 1 || e.pgid == selfGroup;
    for i := 0 to |procs|
      invariant alive <==> exists k | 0 <= k < i :: procs[k].pgid == e.pgid
      invariant own <==>
        (e.pgid <= 1 || e.pgid == selfGroup || exists k | 0 <= k < i :: procs[k].pgid == e.pgid && procs[k].pid == self)
    {
      if procs[i].pgid == e.pgid {
        alive := true;
        own := own || procs[i].pid == self;
      }
    }
  }

  /**
    Whom an entry is signalled for, written out: a group that is not init's, not
    the reaper's and does not hold it; the whole of it when the recorded leader is
    there with its start time and command, else the recorded members that are
    there with theirs. What is not identified is left alone.
   */
  lemma SignalsAre(e: Entry, procs: seq<Proc>, self: Pid, selfGroup: Pid, s: Signal)
    ensures Signals(e, procs, self, selfGroup, s) <==>
      var leads := e.leaderStart != "" && e.leaderCmd != "" && Proc(e.pid, e.pgid, e.leaderStart, e.leaderCmd) in procs;
      && e.pgid > 1 && e.pgid != selfGroup && (forall p | p in procs && p.pgid == e.pgid :: p.pid != self)
      && match s
         case ToGroup(g) => leads && g == e.pgid
         case ToProcess(x) =>
           && !leads && x > 1
           && exists m, p | m in e.members && p in procs ::
                m.pid == p.pid == x && m.start == p.start != "" && p.pgid == e.pgid
  {
    if LeaderMatches(e, procs) {
      assert GroupIsAlive(procs, e.pgid);
    }
    if s.ToProcess? {
      if m, p :| m in e.members && p in procs && m.pid == p.pid == s.pid && m.start == p.start != "" && p.pgid == e.pgid {
        assert GroupIsAlive(procs, e.pgid);
        assert s.pid > 1 ==> MemberMatches(e, m, procs);
      }
      if Signals(e, procs, self, selfGroup, s) {
        var m :| m in e.members && MemberMatches(e, m, procs) && s == ToProcess(m.pid);
        var p :| p in procs && p.pid == m.pid && p.pgid == e.pgid && p.start == m.start;
      }
    }
  }

  ghost function TheAction(e: Entry, procs: seq<Proc>, self: Pid, selfGroup: Pid): Action {
    if forall p | p in procs :: p.pgid != e.pgid then Gone
    else if e.pgid <= 1 || e.pgid == selfGroup || exists p | p in procs :: p.pgid == e.pgid && p.pid == self then SkippedSelf
    else if Signals(e, procs, self, selfGroup, ToGroup(e.pgid)) then Reaped
    else if exists x :: Signals(e, procs, self, selfGroup, ToProcess(x)) then ReapedMembers
    else SkippedIdentity
  }

  /** One action describes an entry: gone, its own, its leader's group, its members, or unknown, in this order. */
  lemma OneActionDescribes(e: Entry, procs: seq<Proc>, self: Pid, selfGroup: Pid, action: Action)
    ensures Describes(e, procs, self, selfGroup, action) <==> action == TheAction(e, procs, self, selfGroup)
  {
    hide MemberMatches, LeaderMatches;
  }

  /** The whole reap: every entry in turn. */
  method ReapOrphanedAgentGroups(groups: seq<Entry>, procs: seq<Proc>, self: Pid, selfGroup: Pid)
    returns (results: seq<Action>, sent: seq<Signal>)
    requires PidsAreUnique(procs)
    ensures |results| == |groups| && forall i | 0 <= i < |groups| :: Describes(groups[i], procs, self, selfGroup, results[i])
    ensures forall s :: s in sent <==> exists e | e in groups :: Signals(e, procs, self, selfGroup, s)
  {
    hide Signals, PidsAreUnique, Describes;
    results, sent := [], [];
    for i := 0 to |groups|
      invariant |results| == i && forall k | 0 <= k < i :: Describes(groups[k], procs, self, selfGroup, results[k])
      invariant forall s :: s in sent <==> exists k | 0 <= k < i :: Signals(groups[k], procs, self, selfGroup, s)
    {
      var action, more := ReapEntry(groups[i], procs, self, selfGroup);
      results := results + [action];
      sent := sent + more;
    }
  }

  // A group the reaper may signal: not init's, and the reaper is not in it.
  predicate Foreign(g: Pid, procs: seq<Proc>, self: Pid, selfGroup: Pid) {
    g > 1 && g != selfGroup && forall p | p in procs && p.pgid == g :: p.pid != self
  }

  /**
    A group recorded at its start, whose leader lives on after the daemon, is
    signalled as a group.
   */
  lemma OrphanedGroupIsReaped(leader: Proc, before: seq<Proc>, procs: seq<Proc>, self: Pid, selfGroup: Pid)
    requires PidsAreUnique(before) && leader in before && leader in procs && leader.start != "" && leader.command != ""
    requires Foreign(leader.pgid, procs, self, selfGroup)
    ensures Signals(EntryFor(leader.pgid, leader.pid, Some(before)), procs, self, selfGroup, ToGroup(leader.pgid))
  {
    LeaderIsRecorded(leader.pgid, leader.pid, before);
  }

  /**
    A member recorded by a refresh that lives on in its group without the leader
    is signalled itself.
   */
  lemma OrphanedMemberIsReaped(e: Entry, member: Proc, listing: seq<Proc>, procs: seq<Proc>, self: Pid, selfGroup: Pid)
    requires member in listing && member in procs && member.pgid == e.pgid && member.start != "" && member.pid > 1
    requires Foreign(e.pgid, procs, self, selfGroup) && forall p | p in procs :: p.pid != e.pid
    ensures Signals(RefreshedEntry(e, e.pgid, Some(listing)), procs, self, selfGroup, ToProcess(member.pid))
  {
    MembersAreListed(listing, e.pgid);
    var m := Member(member.pid, member.start);
    assert m in MembersIn(listing, e.pgid);
    var e' := RefreshedEntry(e, e.pgid, Some(listing));
    assert MemberMatches(e', m, procs) && GroupIsAlive(procs, e.pgid);
  }

  /** The daemon never signals itself, nor a group it is in. */
  lemma NeverSignalsItself(e: Entry, procs: seq<Proc>, self: Proc, s: Signal)
    requires PidsAreUnique(procs) && self in procs && Signals(e, procs, self.pid, self.pgid, s)
    ensures s != ToProcess(self.pid) && s != ToGroup(self.pgid)
  {
    forall m | m in e.members && MemberMatches(e, m, procs)
      ensures m.pid != self.pid
    {
      var p :| p in procs && p.pid == m.pid && p.pgid == e.pgid && p.start == m.start;
    }
  }
}
