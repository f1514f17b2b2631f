/**
  The listener that outlives reloads (cmd/itervox/persistent_listener.go), as the
  steps of the accept pump, of the generations' Accept calls and of Close.
  Connections are numbered in the order the socket accepts them.
 */
module PersistentListener {
  import opened Bytes

  // Milliseconds.
  type Time = nat
  const FIRST_DELAY: Time := 5
  const MAX_DELAY: Time := 1000

  type Conn = nat
  type GenId = nat
  type CallId = nat

  datatype Error = ErrClosed | AcceptError(code: int)

  datatype Pump =
    | Accepting
    | Offering(conn: Conn)      // blocked on the channel or on closed
    | BackingOff(error: Error)
    | Exited

  datatype Pc =
    | Called                    // Accept was called
    | Waiting                   // its first look found the generation open
    | Got(conn: Conn)
    | Failed(error: Error)

  // wasOpen: the generation was open when the call was made.
  datatype Call = Call(gen: GenId, wasOpen: bool, pc: Pc)

  datatype Delivery = Delivery(conn: Conn, call: CallId)

  datatype World = World(
    accepted: nat, pump: Pump, delay: Time, acceptErr: Option<Error>, closed: bool, rawClosed: bool,
    gens: map<GenId, bool>,               // whether the generation is open
    calls: map<CallId, Call>,
    delivered: seq<Delivery>, dropped: seq<Conn>)

  datatype Step =
    | AcceptConn
    | AcceptFails(error: Error, temporary: bool)
    | Retry
    | StopBackingOff
    | Drop
    | Close
    | CloseRaw
    | NewGeneration(gen: GenId)
    | CloseGeneration(gen: GenId)
    | CallAccept(call: CallId, gen: GenId)
    | Look(call: CallId)
    | Take(call: CallId)
    | SeeClosed(call: CallId)
    | SeePumpDone(call: CallId)

  function NextDelay(delay: Time): Time {
    var d := if delay == 0 then FIRST_DELAY else 2 * delay;
    if d < MAX_DELAY then d else MAX_DELAY
  }

  function TakeErr(w: World): Error { if w.acceptErr.Some? then w.acceptErr.value else ErrClosed }

  predicate At(w: World, call: CallId, pc: Pc) { call in w.calls && w.calls[call].pc == pc }

  predicate Enabled(w: World, s: Step) {
    match s
    case AcceptConn => w.pump.Accepting? && !w.rawClosed
    case AcceptFails(_, _) => w.pump.Accepting?
    case Retry => w.pump.BackingOff?
    case StopBackingOff => w.pump.BackingOff? && w.closed
    case Drop => w.pump.Offering? && w.closed
    case Close => true
    case CloseRaw => w.closed
    case NewGeneration(g) => g !in w.gens
    case CloseGeneration(g) => g in w.gens
    case CallAccept(c, g) => c !in w.calls && g in w.gens
    case Look(c) => At(w, c, Called) && w.calls[c].gen in w.gens
    case Take(c) => At(w, c, Waiting) && w.pump.Offering?
    case SeeClosed(c) => At(w, c, Waiting) && w.calls[c].gen in w.gens && !w.gens[w.calls[c].gen]
    case SeePumpDone(c) => At(w, c, Waiting) && w.pump.Exited?
  }

  function Moved(w: World, c: CallId, pc: Pc): World
    requires c in w.calls
  {
    w.(calls := w.calls[c := w.calls[c].(pc := pc)])
  }

  function Next(w: World, s: Step): World
    requires Enabled(w, s)
  {
    match s
    case AcceptConn => w.(pump := Offering(w.accepted), accepted := w.accepted + 1, delay := 0)
    case AcceptFails(error, temporary) =>
      if temporary then w.(pump := BackingOff(error), delay := NextDelay(w.delay))
      else w.(pump := Exited, acceptErr := Some(error))
    case Retry => w.(pump := Accepting)
    case StopBackingOff => w.(pump := Exited, acceptErr := Some(w.pump.error))
    case Drop => w.(pump := Exited, dropped := w.dropped + [w.pump.conn])
    case Close => w.(closed := true)
    case CloseRaw => w.(rawClosed := true)
    case NewGeneration(g) => w.(gens := w.gens[g := true])
    case CloseGeneration(g) => w.(gens := w.gens[g := false])
    case CallAccept(c, g) => w.(calls := w.calls[c := Call(g, w.gens[g], Called)])
    case Look(c) => Moved(w, c, if w.gens[w.calls[c].gen] then Waiting else Failed(ErrClosed))
    case Take(c) =>
      Moved(w, c, Got(w.pump.conn)).(pump := Accepting, delivered := w.delivered + [Delivery(w.pump.conn, c)])
    case SeeClosed(c) => Moved(w, c, Failed(ErrClosed))
    case SeePumpDone(c) => Moved(w, c, Failed(TakeErr(w)))
  }

  const START: World := World(0, Accepting, 0, None, false, false, map[], map[], [], [])

  // ----- what always holds

  // The connections, in accept order: delivered, then the one held or dropped.
  predicate ConnInv(w: World) {
    && (forall i | 0 <= i < |w.delivered| :: w.delivered[i].conn == i)
    && w.accepted == |w.delivered| + |w.dropped| + (if w.pump.Offering? then 1 else 0)
    && (w.pump.Offering? ==> w.pump.conn == |w.delivered|)
    && (w.dropped == [] || (w.dropped == [|w.delivered|] && w.closed && w.pump.Exited?))
  }

  // A call holds a connection exactly when it was delivered to it.
  predicate CallInv(w: World) {
    && (forall i | 0 <= i < |w.delivered| ::
          w.delivered[i].call in w.calls && w.calls[w.delivered[i].call].pc == Got(w.delivered[i].conn))
    && (forall c | c in w.calls && w.calls[c].pc.Got? ::
          w.calls[c].pc.conn < |w.delivered| && w.delivered[w.calls[c].pc.conn].call == c)
  }

  predicate GenInv(w: World) {
    forall c | c in w.calls ::
      w.calls[c].gen in w.gens &&
      if w.calls[c].wasOpen then true
      else !w.gens[w.calls[c].gen] && (w.calls[c].pc == Called || w.calls[c].pc == Failed(ErrClosed))
  }

  predicate PumpInv(w: World) {
    && (w.pump.BackingOff? ==> FIRST_DELAY <= w.delay <= MAX_DELAY)
    && (w.acceptErr.Some? ==> w.pump.Exited?)
    && (w.pump.Exited? && w.acceptErr.None? ==> w.closed)
    && (w.rawClosed ==> w.closed) && (w.delay == 0 || FIRST_DELAY <= w.delay <= MAX_DELAY)
  }

  predicate Inv(w: World) { ConnInv(w) && CallInv(w) && GenInv(w) && PumpInv(w) }

  lemma StepKeepsConns(w: World, s: Step)
    requires Inv(w) && Enabled(w, s)
    ensures ConnInv(Next(w, s)) && PumpInv(Next(w, s))
  {
    hide CallInv, GenInv;
  }

  lemma StepKeepsCalls(w: World, s: Step)
    requires Inv(w) && Enabled(w, s)
    ensures CallInv(Next(w, s))
  {
    hide GenInv, PumpInv;
  }

  lemma StepKeepsGens(w: World, s: Step)
    requires Inv(w) && Enabled(w, s)
    ensures GenInv(Next(w, s))
  {
    hide ConnInv, CallInv, PumpInv;
  }

  lemma StepKeepsInv(w: World, s: Step)
    requires Inv(w) && Enabled(w, s)
    ensures Inv(Next(w, s))
  {
    StepKeepsConns(w, s);
    StepKeepsCalls(w, s);
    StepKeepsGens(w, s);
  }

  // ----- runs

  predicate Run(w: World, steps: seq<Step>)
    decreases |steps|
  {
    steps == [] || (Enabled(w, steps[0]) && Run(Next(w, steps[0]), steps[1..]))
  }

  function After(w: World, steps: seq<Step>): World
    requires Run(w, steps)
    decreases |steps|
  {
    if steps == [] then w else After(Next(w, steps[0]), steps[1..])
  }

  lemma {:induction false} RunKeepsInv(w: World, steps: seq<Step>)
    requires Inv(w) && Run(w, steps)
    ensures Inv(After(w, steps))
    decreases |steps|
  {
    hide Inv, Enabled, Next;
    if steps != [] {
      StepKeepsInv(w, steps[0]);
      RunKeepsInv(Next(w, steps[0]), steps[1..]);
    }
  }

  // ----- conservation

  // Where a connection is.
  ghost predicate ReturnedBy(w: World, conn: Conn, call: CallId) { At(w, call, Got(conn)) }

  ghost predicate Held(w: World, conn: Conn) { w.pump == Offering(conn) }

  /**
    Each accepted connection was returned by exactly one Accept, or is held by
    the pump, or was closed by the pump after Close; and never two of these.
   */
  lemma EachConnectionIsAccountedFor(steps: seq<Step>, conn: Conn)
    requires Run(START, steps) && conn < After(START, steps).accepted
    ensures var w := After(START, steps);
      && (forall c, d | ReturnedBy(w, conn, c) && ReturnedBy(w, conn, d) :: c == d)
      && ((exists c :: ReturnedBy(w, conn, c)) <==> !Held(w, conn) && conn !in w.dropped)
      && !(Held(w, conn) && conn in w.dropped) && (conn in w.dropped ==> w.closed)
  {
    var w := After(START, steps);
    RunKeepsInv(START, steps);
    hide Run, After, GenInv, PumpInv;
    if conn < |w.delivered| {
      assert w.delivered[conn].conn == conn;
      assert ReturnedBy(w, conn, w.delivered[conn].call);
    }
  }

  // Nothing is delivered that was not accepted.
  lemma OnlyAcceptedAreReturned(steps: seq<Step>, conn: Conn, call: CallId)
    requires Run(START, steps) && ReturnedBy(After(START, steps), conn, call)
    ensures conn < After(START, steps).accepted
  {
    RunKeepsInv(START, steps);
    hide Run, After, GenInv, PumpInv;
  }

  /** Connections are returned in the order they were accepted, none left out. */
  lemma ReturnedInOrder(steps: seq<Step>, i: nat)
    requires Run(START, steps) && i < |After(START, steps).delivered|
    ensures After(START, steps).delivered[i].conn == i
  {
    RunKeepsInv(START, steps);
  }

  /** An Accept that starts after its generation closed never returns a connection. */
  lemma ClosedGenerationReturnsNothing(steps: seq<Step>, call: CallId)
    requires Run(START, steps)
    requires var w := After(START, steps); call in w.calls && !w.calls[call].wasOpen
    ensures var w := After(START, steps); w.calls[call].pc == Called || w.calls[call].pc == Failed(ErrClosed)
  {
    RunKeepsInv(START, steps);
    hide Run, After;
  }

  /** One that was already waiting may: the two cases of the select race. */
  lemma WaitingAcceptMayStillReturn()
    ensures var steps := [NewGeneration(0), CallAccept(0, 0), Look(0), AcceptConn, CloseGeneration(0), Take(0)];
      Run(START, steps) && ReturnedBy(After(START, steps), 0, 0) && !After(START, steps).gens[0]
  {
    var w1 := Next(START, NewGeneration(0));
    var w2 := Next(w1, CallAccept(0, 0));
    var w3 := Next(w2, Look(0));
    var w4 := Next(w3, AcceptConn);
    var w5 := Next(w4, CloseGeneration(0));
    var w6 := Next(w5, Take(0));
    assert At(w6, 0, Got(0)) && !w6.gens[0];
    hide Enabled, Next;
    RunMore(w5, Take(0), []);
    RunMore(w4, CloseGeneration(0), [Take(0)]);
    RunMore(w3, AcceptConn, [CloseGeneration(0), Take(0)]);
    RunMore(w2, Look(0), [AcceptConn, CloseGeneration(0), Take(0)]);
    RunMore(w1, CallAccept(0, 0), [Look(0), AcceptConn, CloseGeneration(0), Take(0)]);
    RunMore(START, NewGeneration(0), [CallAccept(0, 0), Look(0), AcceptConn, CloseGeneration(0), Take(0)]);
  }

  lemma RunMore(w: World, s: Step, rest: seq<Step>)
    requires Enabled(w, s) && Run(Next(w, s), rest)
    ensures Run(w, [s] + rest) && After(w, [s] + rest) == After(Next(w, s), rest)
  {
    hide Enabled, Next;
    assert ([s] + rest)[1..] == rest;
  }

  // ----- reloads do not lose connections or end the pump

  /** A step before Close that is not a fatal accept error. */
  predicate Harmless(s: Step) { s != Close && !(s.AcceptFails? && !s.temporary) }

  /**
    Whatever generations come and go, the pump stays alive until Close or a fatal
    accept error, and a connection it holds stays held until some Accept takes it.
   */
  lemma {:induction false} ReloadsKeepThePump(w: World, steps: seq<Step>)
    requires Inv(w) && !w.closed && !w.pump.Exited? && Run(w, steps)
    requires forall i | 0 <= i < |steps| :: Harmless(steps[i])
    ensures !After(w, steps).pump.Exited? && After(w, steps).dropped == w.dropped && !After(w, steps).closed
    ensures w.pump.Offering? ==>
      After(w, steps).pump == w.pump || exists c :: ReturnedBy(After(w, steps), w.pump.conn, c)
    decreases |steps|
  {
    if steps != [] {
      var w1 := Next(w, steps[0]);
      StepKeepsInv(w, steps[0]);
      assert Harmless(steps[0]);
      assert forall i | 0 <= i < |steps[1..]| :: steps[1..][i] == steps[i + 1];
      HarmlessStep(w, steps[0]);
      hide Inv, Enabled, Next;
      ReloadsKeepThePump(w1, steps[1..]);
      if w.pump.Offering? && w1.pump != w.pump {
        var c :| ReturnedBy(w1, w.pump.conn, c);
        GotStays(w1, steps[1..], w.pump.conn, c);
      }
    }
  }

  lemma HarmlessStep(w: World, s: Step)
    requires Inv(w) && !w.closed && !w.pump.Exited? && Enabled(w, s) && Harmless(s)
    ensures var w' := Next(w, s);
      && !w'.pump.Exited? && w'.dropped == w.dropped && !w'.closed
      && (w.pump.Offering? ==> w'.pump == w.pump || exists c :: ReturnedBy(w', w.pump.conn, c))
  {
    if s.Take? {
      assert ReturnedBy(Next(w, s), w.pump.conn, s.call);
    }
  }

  lemma {:induction false} GotStays(w: World, steps: seq<Step>, conn: Conn, call: CallId)
    requires Run(w, steps) && ReturnedBy(w, conn, call)
    ensures ReturnedBy(After(w, steps), conn, call)
    decreases |steps|
  {
    if steps != [] {
      assert ReturnedBy(Next(w, steps[0]), conn, call);
      GotStays(Next(w, steps[0]), steps[1..], conn, call);
    }
  }

  // ----- closing

  /** Once the socket is closed nothing more is accepted. */
  lemma {:induction false} ClosedSocketAcceptsNothing(w: World, steps: seq<Step>)
    requires w.rawClosed && Run(w, steps)
    ensures After(w, steps).rawClosed && After(w, steps).accepted == w.accepted
    decreases |steps|
  {
    if steps != [] {
      ClosedSocketAcceptsNothing(Next(w, steps[0]), steps[1..]);
    }
  }

  // The pump's own steps once Close has been called.
  function LastPumpSteps(pump: Pump, e: Error): seq<Step> {
    match pump
    case Accepting => [AcceptFails(e, true), StopBackingOff]
    case Offering(_) => [Drop]
    case BackingOff(_) => [StopBackingOff]
    case Exited => []
  }

  lemma PumpEnds(w: World, e: Error, call: CallId)
    requires w.closed && w.rawClosed && At(w, call, Waiting)
    ensures var steps := LastPumpSteps(w.pump, e) + [SeePumpDone(call)];
      Run(w, steps) &&
      var w' := After(w, steps); w'.closed && w'.rawClosed && w'.pump.Exited? && call in w'.calls && w'.calls[call].pc.Failed?
  {
    var last := LastPumpSteps(w.pump, e);
    var w1 := if last == [] then w else Next(w, last[0]);
    var w2 := if |last| < 2 then w1 else Next(w1, last[1]);
    assert w2.pump.Exited? && At(w2, call, Waiting);
    hide Enabled, Next;
    RunMore(w2, SeePumpDone(call), []);
    match |last| {
      case 0 => assert last + [SeePumpDone(call)] == [SeePumpDone(call)];
      case 1 =>
        assert last + [SeePumpDone(call)] == [last[0]] + [SeePumpDone(call)];
        RunMore(w, last[0], [SeePumpDone(call)]);
      case _ =>
        assert last + [SeePumpDone(call)] == [last[0]] + ([last[1]] + [SeePumpDone(call)]);
        RunMore(w1, last[1], [SeePumpDone(call)]);
        RunMore(w, last[0], [last[1]] + [SeePumpDone(call)]);
    }
  }

  /**
    Close can be called at any time, and from there the pump ends by its own steps,
    at most two, whatever the socket answers, and a waiting Accept then fails.
   */
  lemma CloseEndsThePump(w: World, e: Error, call: CallId)
    requires At(w, call, Waiting)
    ensures var steps := [Close] + ([CloseRaw] + (LastPumpSteps(w.pump, e) + [SeePumpDone(call)]));
      Run(w, steps) &&
      var w' := After(w, steps); w'.closed && w'.rawClosed && w'.pump.Exited? && call in w'.calls && w'.calls[call].pc.Failed?
  {
    var w1 := Next(w, Close);
    var w2 := Next(w1, CloseRaw);
    var rest := LastPumpSteps(w.pump, e) + [SeePumpDone(call)];
    PumpEnds(w2, e, call);
    hide Next, Run, After, LastPumpSteps;
    RunMore(w1, CloseRaw, rest);
    RunMore(w, Close, [CloseRaw] + rest);
  }

  // ----- why an Accept fails

  /**
    A failed Accept means its generation is closed or the pump has ended; with
    the socket's own error if there was one.
   */
  lemma FailureHasAReason(w: World, s: Step, call: CallId)
    requires Inv(w) && Enabled(w, s) && call in w.calls && !w.calls[call].pc.Failed?
    requires call in Next(w, s).calls && Next(w, s).calls[call].pc.Failed?
    ensures !w.gens[w.calls[call].gen] || w.pump.Exited?
    ensures var e := Next(w, s).calls[call].pc.error;
      e == ErrClosed || (w.pump.Exited? && w.acceptErr == Some(e))
    // while its generation is open: the socket's error, or closed when it had none
    ensures w.gens[w.calls[call].gen] ==>
      Next(w, s).calls[call].pc.error == (if w.acceptErr.Some? then w.acceptErr.value else ErrClosed)
    ensures w.gens[w.calls[call].gen] && w.acceptErr.None? ==> w.closed
  {
  }

  // ----- the back-off

  function Pow2(n: nat): nat { if n == 0 then 1 else 2 * Pow2(n - 1) }

  // Five milliseconds doubled with each failure in a row, at most a second.
  function BackOff(n: nat): Time {
    if n == 0 then 0
    else if 5 * Pow2(n - 1) < MAX_DELAY then 5 * Pow2(n - 1)
    else MAX_DELAY
  }

  // Temporary failures since the last accepted connection, with n before these steps.
  function FailuresInARow(steps: seq<Step>, n: nat): nat {
    if steps == [] then n
    else if steps[0].AcceptConn? then FailuresInARow(steps[1..], 0)
    else if steps[0].AcceptFails? && steps[0].temporary then FailuresInARow(steps[1..], n + 1)
    else FailuresInARow(steps[1..], n)
  }

  lemma {:induction false} Pow2IsPositive(n: nat)
    ensures Pow2(n) > 0
  {
    if n > 0 {
      Pow2IsPositive(n - 1);
    }
  }

  lemma OneMoreFailure(n: nat)
    ensures NextDelay(BackOff(n)) == BackOff(n + 1)
  {
    if n > 0 {
      assert Pow2(n) == 2 * Pow2(n - 1);
      Pow2IsPositive(n - 1);
    }
  }

  /** In every run the pump's delay is that of the failures in a row, whatever happens between them. */
  lemma {:induction false} DelaysDouble(w: World, steps: seq<Step>, n: nat)
    requires Run(w, steps) && w.delay == BackOff(n)
    ensures After(w, steps).delay == BackOff(FailuresInARow(steps, n))
    decreases |steps|
  {
    if steps != [] {
      var s := steps[0];
      OneMoreFailure(n);
      DelaysDouble(Next(w, s), steps[1..],
                   if s.AcceptConn? then 0 else if s.AcceptFails? && s.temporary then n + 1 else n);
    }
  }
}
