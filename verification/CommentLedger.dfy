/**
  The `/itervox` comment-command ledger (cmd/itervox/comment_commands.go): a
  durable record of handled comments, a sliding window over creation times, and
  retries of failed permission checks. `CommentCommandHandler` is the handler;
  its methods are proved equal to functions on `World`, and CommentRuns runs
  those functions with crashes and restarts at every point.
 */
module CommentLedger {
  import opened Bytes

  type Time = int          // nanoseconds; 0 is Go's zero time
  const ZERO_TIME: Time := 0
  const OVERLAP: Time := 120000000000
  const MAX_CHECK_FAILURES: nat := 10

  type CommentId = string

  datatype Comment = Comment(id: CommentId, createdAt: Time, managed: bool, onPullRequest: bool, isCommand: bool)

  datatype Ledger = Ledger(cursor: Time, handled: map<CommentId, Time>, floor: Time)

  // What the tracker and the file system answer for one comment.
  datatype Check = Allowed | Refused | CheckFailed
  datatype Answers = Answers(check: Check, saved: bool)

  datatype Memory = Memory(ledger: Ledger, failures: map<CommentId, nat>)

  /** Memory, the ledger file, and the comments acted on, oldest first. */
  datatype World = World(mem: Memory, disk: Option<Ledger>, acted: seq<CommentId>)

  // One poll's local variables.
  datatype Progress = Progress(windowStart: Time, latest: Time, retryFrom: Time)

  function Later(a: Time, b: Time): Time { if b > a then b else a }

  function WindowStart(l: Ledger): Time { Later(l.cursor - OVERLAP, l.floor) }

  function Pruned(l: Ledger): Ledger {
    l.(handled := map id | id in l.handled && l.handled[id] >= WindowStart(l) :: l.handled[id])
  }

  function FreshLedger(now: Time): Ledger { Ledger(now, map[], now) }

  function Loaded(disk: Option<Ledger>, now: Time): Memory {
    Memory(if disk.Some? then disk.value else FreshLedger(now), map[])
  }

  // ----- one comment of a poll, as functions of the world

  function Saved(w: World, saved: bool): World {
    var l := Pruned(w.mem.ledger);
    World(w.mem.(ledger := l), if saved then Some(l) else w.disk, w.acted)
  }

  predicate Skips(w: World, p: Progress, c: Comment) {
    c.id in w.mem.ledger.handled || c.createdAt < p.windowStart || c.managed || c.onPullRequest || !c.isCommand
  }

  function FailureCount(m: Memory, id: CommentId): nat {
    if id in m.failures then m.failures[id] else 0
  }

  /** The check failed and may be tried again. */
  predicate Defers(w: World, c: Comment, a: Answers) {
    a.check.CheckFailed? && FailureCount(w.mem, c.id) + 1 < MAX_CHECK_FAILURES
  }

  function Deferred(w: World, c: Comment): World {
    w.(mem := w.mem.(failures := w.mem.failures[c.id := FailureCount(w.mem, c.id) + 1]))
  }

  // The record is made and saved; a record that cannot be saved is withdrawn.
  function Recorded(w: World, c: Comment, saved: bool): World {
    var l := w.mem.ledger;
    var w' := Saved(w.(mem := Memory(l.(handled := l.handled[c.id := c.createdAt]), w.mem.failures - {c.id})), saved);
    if saved then w'
    else w'.(mem := w'.mem.(ledger := w'.mem.ledger.(handled := w'.mem.ledger.handled - {c.id})))
  }

  function Acted(w: World, c: Comment): World { w.(acted := w.acted + [c.id]) }

  predicate Retries(w: World, c: Comment, a: Answers) { Defers(w, c, a) || !a.saved }

  /** `handle`: the world after it, whether or not the comment was acted on. */
  function Handled(w: World, c: Comment, a: Answers): World {
    if Defers(w, c, a) then Deferred(w, c)
    else
      var w' := Recorded(w, c, a.saved);
      if a.saved && a.check.Allowed? then Acted(w', c) else w'
  }

  function Seen(p: Progress, c: Comment): Progress {
    p.(latest := Later(p.latest, c.createdAt))
  }

  function RetryNoted(p: Progress, c: Comment): Progress {
    if p.retryFrom == ZERO_TIME || c.createdAt < p.retryFrom then p.(retryFrom := c.createdAt) else p
  }

  function ProgressAfter(w: World, p: Progress, c: Comment, a: Answers): Progress {
    if !Skips(w, p, c) && Retries(w, c, a) then RetryNoted(Seen(p, c), c) else Seen(p, c)
  }

  function WorldAfter(w: World, p: Progress, c: Comment, a: Answers): World {
    if Skips(w, p, c) then w else Handled(w, c, a)
  }

  function Started(w: World): Progress {
    Progress(WindowStart(w.mem.ledger), w.mem.ledger.cursor, ZERO_TIME)
  }

  function NextCursor(cursor: Time, p: Progress): Time {
    if p.retryFrom != ZERO_TIME && p.retryFrom < p.latest then Later(cursor, p.retryFrom) else p.latest
  }

  function Finished(w: World, p: Progress, saved: bool): World {
    var l := w.mem.ledger;
    Saved(w.(mem := w.mem.(ledger := l.(cursor := NextCursor(l.cursor, p)))), saved)
  }

  /** A poll's loop over the listed comments. */
  function Visited(w: World, p: Progress, cs: seq<Comment>, answers: seq<Answers>): (World, Progress)
    requires |answers| == |cs|
    decreases |cs|
  {
    if cs == [] then (w, p)
    else Visited(WorldAfter(w, p, cs[0], answers[0]), ProgressAfter(w, p, cs[0], answers[0]), cs[1..], answers[1..])
  }

  function Polled(w: World, cs: seq<Comment>, answers: seq<Answers>, lastSave: bool): World
    requires |answers| == |cs|
  {
    var (w', p) := Visited(w, Started(w), cs, answers);
    Finished(w', p, lastSave)
  }

  // ----- the handler

  /** What outlives a handler: the ledger file and the actions taken. */
  class Host {
    var disk: Option<Ledger>
    var acted: seq<CommentId>
  }

  class CommentCommandHandler {
    const host: Host
    var ledger: Ledger
    var failures: map<CommentId, nat>

    ghost function Value(): World
      reads this, host
    {
      World(Memory(ledger, failures), host.disk, host.acted)
    }

    /** Reads the ledger; without one, commands start from now. */
    constructor (host: Host, now: Time)
      ensures this.host == host && Value() == World(Loaded(host.disk, now), host.disk, host.acted)
    {
      this.host := host;
      ledger := if host.disk.Some? then host.disk.value else FreshLedger(now);
      failures := map[];
    }

    /** Prunes the records before the window, then writes the file, if it can be written. */
    method SaveLedger(writable: bool)
      modifies this`ledger, host`disk
      ensures Value() == Saved(old(Value()), writable)
      ensures ledger.cursor == old(ledger).cursor && ledger.floor == old(ledger).floor
      ensures forall id | id in ledger.handled :: id in old(ledger).handled && ledger.handled[id] == old(ledger).handled[id]
      ensures forall id | id in old(ledger).handled :: id in ledger.handled <==>
        old(ledger).handled[id] >= ledger.floor && old(ledger).handled[id] >= ledger.cursor - 120000000000
    {
      var ids := ledger.handled.Keys;
      while ids != {}
        modifies this`ledger
        invariant ids <= old(ledger).handled.Keys
        invariant ledger == old(ledger).(handled := ledger.handled)
        invariant forall id | id in ledger.handled ::
          id in old(ledger).handled && ledger.handled[id] == old(ledger).handled[id]
        invariant forall id | id in old(ledger).handled ::
          id in ledger.handled <==> id in ids || old(ledger).handled[id] >= WindowStart(old(ledger))
        decreases ids
      {
        var id :| id in ids;
        if ledger.handled[id] < WindowStart(ledger) {
          ledger := ledger.(handled := ledger.handled - {id});
        }
        ids := ids - {id};
      }
      assert ledger.handled == Pruned(old(ledger)).handled;
      assert ledger == Pruned(old(ledger));
      if writable {
        host.disk := Some(ledger);
      }
    }

    /** Records the comment durably, then acts on it; true when it must be looked at again. */
    method Handle(c: Comment, a: Answers) returns (retry: bool)
      requires c.id !in ledger.handled
      modifies this, host
      ensures Value() == Handled(old(Value()), c, a)
      ensures retry == Retries(old(Value()), c, a)
    {
      if a.check.CheckFailed? {
        failures := failures[c.id := (if c.id in failures then failures[c.id] else 0) + 1];
        if failures[c.id] < MAX_CHECK_FAILURES {
          return true;
        }
      }
      failures := failures - {c.id};
      ghost var before := old(failures) - {c.id};
      assert failures == before;
      ledger := ledger.(handled := ledger.handled[c.id := c.createdAt]);
      SaveLedger(a.saved);
      if !a.saved {
        ledger := ledger.(handled := ledger.handled - {c.id});
        return true;
      }
      if a.check.Allowed? {
        host.acted := host.acted + [c.id];
      }
      return false;
    }

    /** One poll over the comments the tracker listed. */
    method Poll(cs: seq<Comment>, answers: seq<Answers>, lastSave: bool)
      requires |answers| == |cs|
      modifies this, host
      ensures Value() == Polled(old(Value()), cs, answers, lastSave)
    {
      var windowStart := WindowStart(ledger);
      var retryFrom := ZERO_TIME;
      var latest := ledger.cursor;
      for k := 0 to |cs|
        invariant Visited(old(Value()), Started(old(Value())), cs, answers)
               == Visited(Value(), Progress(windowStart, latest, retryFrom), cs[k..], answers[k..])
      {
        var c := cs[k];
        assert cs[k..][1..] == cs[k + 1..] && answers[k..][1..] == answers[k + 1..];
        if c.createdAt > latest {
          latest := c.createdAt;
        }
        if c.id in ledger.handled {
          continue;
        }
        if c.createdAt < windowStart || c.managed || c.onPullRequest || !c.isCommand {
          continue;
        }
        var retry := Handle(c, answers[k]);
        if retry && (retryFrom == ZERO_TIME || c.createdAt < retryFrom) {
          retryFrom := c.createdAt;
        }
      }
      if retryFrom != ZERO_TIME && retryFrom < latest {
        latest := Later(ledger.cursor, retryFrom);
      }
      ledger := ledger.(cursor := latest);
      SaveLedger(lastSave);
    }
  }
}
