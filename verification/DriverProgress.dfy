/**
  What start, stop, replacement and leases achieve: how a stop's answer follows from its own drain, in
  every run, and which calls go through when nothing stands in their way.
  */
module DriverProgress {
  import opened Octets
  import opened Driver
  import opened DriverSafety
  import opened DriverFence

  // ---- The answer of a stop and its own drain ----

  /** What became of the generation a stop or replacement withdrew: nothing was there, or how its drain went. */
  datatype Drain = Barred | Nothing | Pending | InTime | Late

  /** The drain of each thread, as its own steps settle it. */
  function Follow(r: Runtime, h: map<nat, Drain>, a: Action): map<nat, Drain> {
    match a
    case Withdraws(t) => h[t := if r.quarantined then Barred else if r.current.None? then Nothing else Pending]
    case DrainEnds(t) => h[t := InTime]
    case DrainTimesOut(t) => h[t := Late]
    case _ => h
  }

  function Drains(r: Runtime, h: map<nat, Drain>, trace: seq<Action>): map<nat, Drain>
    decreases |trace|
  {
    if trace == [] then h
    else Drains(if Enabled(r, trace[0]) then Next(r, trace[0]) else r, Follow(r, h, trace[0]), trace[1..])
  }

  predicate Settled(h: map<nat, Drain>, t: nat, d: Drain) {
    t in h && h[t] == d
  }

  /** Where a thread stands agrees with its own drain. */
  ghost predicate Agrees(r: Runtime, h: map<nat, Drain>, t: nat)
    requires t in r.threads
  {
    match r.threads[t]
    case Overdue(_, _) => Settled(h, t, Late)
    case Retiring(_, _, late, _) => Settled(h, t, if late then Late else InTime)
    case Proved(late, _) => Settled(h, t, if late then Late else InTime)
    case Stopped(ok, _) =>
      if ok then Settled(h, t, InTime) || Settled(h, t, Nothing) else Settled(h, t, Late) || (Settled(h, t, Barred) && r.quarantined)
    case Clearing => Settled(h, t, Late)
    case _ => true
  }

  ghost predicate AllAgree(r: Runtime, h: map<nat, Drain>) {
    forall t :: t in r.threads ==> Agrees(r, h, t)
  }

  /** Who moves in a step. */
  function Mover(a: Action): Option<nat> {
    match a
    case StartRegisters(t) => Some(t)
    case StartChecks(t) => Some(t)
    case FactoryReturns(t, _) => Some(t)
    case Admits(t) => Some(t)
    case AdmissionRefused(t) => Some(t)
    case UndoAsks(t) => Some(t)
    case UndoProves(t) => Some(t)
    case UndoFails(t) => Some(t)
    case Quarantines(t) => Some(t)
    case Finishes(t) => Some(t)
    case StopBegins(t, _) => Some(t)
    case CancelsDone(t) => Some(t)
    case CancelsTimeOut(t) => Some(t)
    case Locks(t) => Some(t)
    case Withdraws(t) => Some(t)
    case DrainEnds(t) => Some(t)
    case DrainTimesOut(t) => Some(t)
    case ChecksCallbacks(t) => Some(t)
    case StopAsks(t) => Some(t)
    case StopProves(t) => Some(t)
    case StopFails(t) => Some(t)
    case LowersFence(t) => Some(t)
    case Ends(t) => Some(t)
    case Clears(t) => Some(t)
    case _ => None
  }

  /** Only the mover's position changes, and quarantine never ends. */
  ghost predicate Moves(r: Runtime, n: Runtime, a: Action) {
    && (r.quarantined ==> n.quarantined)
    && (Mover(a).None? ==> n.threads == r.threads)
    && (Mover(a).Some? ==> Mover(a).value in n.threads && n.threads == r.threads[Mover(a).value := n.threads[Mover(a).value]])
  }

  lemma FactoryMoves(r: Runtime, t: nat, o: Outcome)
    ensures var n := AfterFactory(r, t, o);
      && n.quarantined == r.quarantined && t in n.threads && n.threads == r.threads[t := n.threads[t]]
      && (n.threads[t].Leaving? || n.threads[t].Undoing? || n.threads[t].Failing? || n.threads[t].Built?)
  {
  }

  /** After a step of its own a construction is under way or over. */
  ghost predicate Builds(n: Runtime, a: Action) {
    Mover(a).Some? ==> Mover(a).value in n.threads && (IsStarting(n.threads[Mover(a).value]) || n.threads[Mover(a).value].Ended?)
  }

  lemma BuildingMoves(r: Runtime, a: Action)
    requires EnabledStart(r, a) && WhileBuilding(a)
    ensures Moves(r, NextStart(r, a), a) && Builds(NextStart(r, a), a)
  {
    hide AfterFactory, FactoryMayRun;
    if a.FactoryReturns? { FactoryMoves(r, a.t, a.outcome); }
  }

  lemma UndoingMoves(r: Runtime, a: Action)
    requires EnabledStart(r, a) && !WhileBuilding(a)
    ensures Moves(r, NextStart(r, a), a) && Builds(NextStart(r, a), a)
  {
    hide AfterFactory, FactoryMayRun;
  }

  lemma StartMoves(r: Runtime, a: Action)
    requires EnabledStart(r, a)
    ensures Moves(r, NextStart(r, a), a) && Builds(NextStart(r, a), a)
  {
    hide EnabledStart, NextStart, Moves, Builds;
    if WhileBuilding(a) { BuildingMoves(r, a); } else { UndoingMoves(r, a); }
  }

  lemma StopMoves(r: Runtime, a: Action)
    requires EnabledStop(r, a)
    ensures Moves(r, NextStop(r, a), a)
  {
    hide CancelAll;
  }

  lemma LeaseMoves(r: Runtime, a: Action)
    requires EnabledLease(r, a)
    ensures Moves(r, NextLease(r, a), a)
  {
  }

  lemma StepMoves(r: Runtime, a: Action)
    requires Enabled(r, a)
    ensures Moves(r, Next(r, a), a)
  {
    hide EnabledStart, EnabledStop, EnabledLease, NextStart, NextStop, NextLease, Moves;
    if EnabledStart(r, a) {
      StartMoves(r, a);
    } else if EnabledStop(r, a) {
      StopMoves(r, a);
    } else {
      LeaseMoves(r, a);
    }
  }

  lemma StartAgrees(r: Runtime, h: map<nat, Drain>, a: Action)
    requires EnabledStart(r, a) && Mover(a).Some?
    ensures Mover(a).value in NextStart(r, a).threads && Agrees(NextStart(r, a), h, Mover(a).value) && Follow(r, h, a) == h
  {
    hide EnabledStart, NextStart, Moves, Settled;
    StartMoves(r, a);
    StartFollows(r, h, a);
  }

  lemma StartFollows(r: Runtime, h: map<nat, Drain>, a: Action)
    requires EnabledStart(r, a)
    ensures Follow(r, h, a) == h
  {
  }

  /** From withdrawal to the lowered fence. */
  predicate Drainwise(a: Action) {
    a.Withdraws? || a.DrainEnds? || a.DrainTimesOut? || a.ChecksCallbacks? || a.StopAsks? || a.StopProves? || a.LowersFence?
  }

  lemma DrainAgrees(r: Runtime, h: map<nat, Drain>, a: Action)
    requires EnabledStop(r, a) && Drainwise(a) && (a.t in r.threads ==> Agrees(r, h, a.t))
    ensures a.t in NextStop(r, a).threads && Agrees(NextStop(r, a), Follow(r, h, a), a.t)
  {
  }

  /** Up to the lock. */
  predicate Before(a: Action) {
    a.StopBegins? || a.CancelsDone? || a.CancelsTimeOut? || a.Locks?
  }

  lemma BeforeAgrees(r: Runtime, h: map<nat, Drain>, a: Action)
    requires EnabledStop(r, a) && Before(a)
    ensures a.t in NextStop(r, a).threads && Agrees(NextStop(r, a), Follow(r, h, a), a.t)
  {
    hide CancelAll, Settled;
  }

  lemma StoppedAgrees(r: Runtime, h: map<nat, Drain>, t: nat, n: Runtime)
    requires t in r.threads && r.threads[t].Stopped? && Agrees(r, h, t) && t in n.threads
    requires n.threads[t].Ended? || n.threads[t].Reserved? || (n.threads[t].Clearing? && !r.threads[t].ok && !r.quarantined)
    ensures Agrees(n, h, t)
  {
    hide Settled;
  }

  /** Where the end of a stop or replacement leads. */
  lemma EndLeads(r: Runtime, t: nat)
    requires t in r.threads && r.threads[t].Stopped? && EnabledStop(r, Ends(t))
    ensures var n, pc := NextStop(r, Ends(t)), r.threads[t];
      && t in n.threads
      && (n.threads[t] == Ended || n.threads[t] == Reserved || (n.threads[t] == Clearing && !pc.ok && !r.quarantined))
  {
    hide Registers, EnabledStop, CancelAll, Withdraw;
    var pc := r.threads[t];
    if pc.again && !pc.ok && !r.quarantined {
      assert NextStop(r, Ends(t)) == SetThread(r, t, Clearing);
    } else if pc.again && pc.ok && Registers(r, true) {
      assert NextStop(r, Ends(t)) == Register(r.(holder := None), t, true);
    } else {
      assert NextStop(r, Ends(t)) == EndThread(r.(holder := None), t);
    }
  }

  lemma EndAgrees(r: Runtime, h: map<nat, Drain>, t: nat)
    requires t in r.threads && r.threads[t].Stopped? && Agrees(r, h, t) && EnabledStop(r, Ends(t))
    ensures var n := NextStop(r, Ends(t));
            t in n.threads && Agrees(n, h, t)
  {
    hide NextStop, Agrees, EnabledStop;
    EndLeads(r, t);
    StoppedAgrees(r, h, t, NextStop(r, Ends(t)));
  }

  lemma EdgeAgrees(r: Runtime, h: map<nat, Drain>, a: Action)
    requires EnabledStop(r, a) && !Drainwise(a) && !Before(a) && Mover(a).Some? && (Mover(a).value in r.threads ==> Agrees(r, h, Mover(a).value))
    ensures Mover(a).value in NextStop(r, a).threads && Agrees(NextStop(r, a), Follow(r, h, a), Mover(a).value)
  {
    hide Settled, Register, Registers;
    match a
    case Ends(t) => EndAgrees(r, h, t);
    case StopFails(t) =>
    case Clears(t) =>
    case _ =>
  }

  lemma StopAgrees(r: Runtime, h: map<nat, Drain>, a: Action)
    requires EnabledStop(r, a) && Mover(a).Some? && (Mover(a).value in r.threads ==> Agrees(r, h, Mover(a).value))
    ensures Mover(a).value in NextStop(r, a).threads && Agrees(NextStop(r, a), Follow(r, h, a), Mover(a).value)
  {
    hide EnabledStop, NextStop, Agrees, Follow;
    if Drainwise(a) {
      DrainAgrees(r, h, a);
    } else if Before(a) {
      BeforeAgrees(r, h, a);
    } else {
      EdgeAgrees(r, h, a);
    }
  }

  lemma MoverAgrees(r: Runtime, h: map<nat, Drain>, a: Action)
    requires Enabled(r, a) && Mover(a).Some? && (Mover(a).value in r.threads ==> Agrees(r, h, Mover(a).value))
    ensures Mover(a).value in Next(r, a).threads && Agrees(Next(r, a), Follow(r, h, a), Mover(a).value)
  {
    hide EnabledStart, EnabledStop, NextStart, NextStop, NextLease, Agrees, Follow;
    if EnabledStart(r, a) {
      StartAgrees(r, h, a);
    } else {
      LeaseMovesNobody(r, a);
      StopAgrees(r, h, a);
    }
  }

  lemma LeaseMovesNobody(r: Runtime, a: Action)
    ensures EnabledLease(r, a) ==> Mover(a).None?
  {
  }

  lemma AgreesNow(r: Runtime, h: map<nat, Drain>, t: nat)
    requires AllAgree(r, h)
    ensures t in r.threads ==> Agrees(r, h, t)
  {
  }

  lemma StepAgrees(r: Runtime, h: map<nat, Drain>, a: Action)
    requires AllAgree(r, h) && Enabled(r, a)
    ensures AllAgree(Next(r, a), Follow(r, h, a))
  {
    hide EnabledStart, EnabledStop, EnabledLease, NextStart, NextStop, NextLease, Agrees, Next, Enabled;
    var n := Next(r, a);
    forall t | t in n.threads
      ensures Agrees(n, Follow(r, h, a), t)
    {
      StepMoves(r, a);
      if Mover(a) == Some(t) {
        AgreesNow(r, h, t);
        MoverAgrees(r, h, a);
      } else {
        OtherAgrees(r, h, a, t);
      }
    }
  }

  lemma OtherAgrees(r: Runtime, h: map<nat, Drain>, a: Action, t: nat)
    requires Enabled(r, a) && t in r.threads && Agrees(r, h, t) && Mover(a) != Some(t)
    requires t in Next(r, a).threads && Next(r, a).threads[t] == r.threads[t] && (r.quarantined ==> Next(r, a).quarantined)
    ensures Agrees(Next(r, a), Follow(r, h, a), t)
  {
    hide Enabled, Next;
  }

  lemma {:induction false} RunAgrees(r: Runtime, h: map<nat, Drain>, trace: seq<Action>, end: Runtime)
    requires AllAgree(r, h) && Run(r, trace, end)
    ensures AllAgree(end, Drains(r, h, trace))
    decreases |trace|
  {
    hide AllAgree, Next, Enabled, Follow;
    if trace != [] {
      StepAgrees(r, h, trace[0]);
      RunAgrees(Next(r, trace[0]), Follow(r, h, trace[0]), trace[1..], end);
    }
  }

  /**
    Over every run: outside quarantine, a stop or replacement is about to succeed exactly when its own
    generation drained in time or there was none, and to report its timeout exactly when that drain
    was overdue.
    */
  lemma StopAnswersDrain(trace: seq<Action>, r: Runtime, t: nat)
    requires Run(DORMANT, trace, r) && t in r.threads && r.threads[t].Stopped? && !r.quarantined
    ensures var h := Drains(DORMANT, map[], trace);
      && t in h
      && (r.threads[t].ok <==> h[t] == InTime || h[t] == Nothing)
      && (!r.threads[t].ok <==> h[t] == Late)
  {
    hide Run, Drains;
    RunAgrees(DORMANT, map[], trace, r);
    AgreesNow(r, Drains(DORMANT, map[], trace), t);
  }

  /**
    What follows: a stop returns with the fence down, a replacement in time goes on to build when
    nothing took its place, and an overdue one gives up with the fence lowered.
    */
  lemma ReplacementFollowsDrain(trace: seq<Action>, r: Runtime, t: nat)
    requires Run(DORMANT, trace, r) && t in r.threads && r.threads[t].Stopped? && !r.quarantined
    ensures var h := Drains(DORMANT, map[], trace);
      && t in h && EnabledStop(r, Ends(t))
      && var n := NextStop(r, Ends(t));
      && (!r.threads[t].again ==> n.threads[t].Ended? && !n.retiring && n.holder.None?)
      && (r.threads[t].again && h[t] != Late && r.retiring && r.current.None? && r.constructions == map[] ==>
            n.threads[t].Reserved? && n.constructions == map[t := Building(true, true)] && n.holder.None?)
      && (r.threads[t].again && h[t] == Late ==>
            && n.threads[t].Clearing? && EnabledStop(n, Clears(t))
            && var c := NextStop(n, Clears(t)); c.threads[t].Ended? && !c.retiring && c.holder.None?)
  {
    hide Run, Drains;
    StopAnswersDrain(trace, r, t);
    assert Reachable(r);
    if !r.threads[t].again { StopLowersFence(r, t); }
  }

  // ---- Calls with nothing in their way ----

  lemma {:induction false} Extends(r: Runtime, trace: seq<Action>, mid: Runtime, a: Action)
    requires Run(r, trace, mid) && Enabled(mid, a)
    ensures Run(r, trace + [a], Next(mid, a))
    decreases |trace|
  {
    hide Enabled, Next;
    if trace == [] {
      assert [a][1..] == [] && trace + [a] == [a];
      assert Run(Next(mid, a), [], Next(mid, a));
    } else {
      assert (trace + [a])[1..] == trace[1..] + [a];
      Extends(Next(r, trace[0]), trace[1..], mid, a);
    }
  }

  /** Every step is this thread's own, or its adapter closing; no wait runs out. */
  predicate Smooth(trace: seq<Action>, t: nat) {
    forall i :: 0 <= i < |trace| ==>
      && (Mover(trace[i]) == Some(t) || trace[i].AdapterCloses?)
      && !trace[i].DrainTimesOut? && !trace[i].CancelsTimeOut? && !trace[i].StopFails?
  }

  lemma StartOn(r: Runtime, trace: seq<Action>, mid: Runtime, t: nat, a: Action) returns (longer: seq<Action>)
    requires Run(r, trace, mid) && Smooth(trace, t) && EnabledStart(mid, a) && Mover(a) == Some(t)
    ensures Run(r, longer, NextStart(mid, a)) && Smooth(longer, t)
  {
    hide EnabledStart, NextStart, Run, EnabledStop, EnabledLease, NextStop, NextLease;
    longer := trace + [a];
    Extends(r, trace, mid, a);
    NotAStop(mid, a);
  }

  lemma NotAStop(r: Runtime, a: Action)
    requires EnabledStart(r, a)
    ensures !a.DrainTimesOut? && !a.CancelsTimeOut? && !a.StopFails?
  {
  }

  lemma StopOn(r: Runtime, trace: seq<Action>, mid: Runtime, t: nat, a: Action) returns (longer: seq<Action>)
    requires Run(r, trace, mid) && Smooth(trace, t) && EnabledStop(mid, a) && Mover(a) == Some(t)
    requires !a.DrainTimesOut? && !a.CancelsTimeOut? && !a.StopFails?
    ensures Run(r, longer, NextStop(mid, a)) && Smooth(longer, t)
  {
    hide EnabledStart, NextStart, Run, EnabledStop, EnabledLease, NextStop, NextLease;
    longer := trace + [a];
    Extends(r, trace, mid, a);
    StopIsStop(mid, a);
  }

  lemma StopIsStop(r: Runtime, a: Action)
    requires EnabledStop(r, a)
    ensures !EnabledStart(r, a)
  {
  }

  /**
    From its reservation, with a factory that delivers and nobody cancelling, a construction becomes
    the current generation: open for calls, its transport live, and the fence it held down.
    */
  lemma ConstructionCompletes(r: Runtime, t: nat, transport: nat) returns (trace: seq<Action>, end: Runtime)
    requires At(r, t, Reserved) && t in r.constructions && r.constructions[t].provisional && FactoryMayRun(r, t)
    requires transport !in r.transports
    ensures Run(r, trace, end) && Smooth(trace, t)
    ensures end == r.(
              threads := r.threads[t := Ended], transports := r.transports[transport := Live], constructions := r.constructions - {t},
              top := r.top + 1, current := Some(r.top + 1),
              generations := r.generations[r.top + 1 := Generation(transport, true, 0, 0, 0)],
              retiring := r.retiring && !r.constructions[t].releasesFence)
    ensures Callable(end, r.top + 1)
  {
    hide Run, Smooth;
    trace := [];
    NoSteps(r, t);
    trace := StartOn(r, trace, r, t, StartChecks(t));
    var a := NextStart(r, StartChecks(t));
    trace := StartOn(r, trace, a, t, FactoryReturns(t, Valid(transport)));
    var b := NextStart(a, FactoryReturns(t, Valid(transport)));
    trace := StartOn(r, trace, b, t, Admits(t));
    end := NextStart(b, Admits(t));
    assert b.threads[t := Ended] == r.threads[t := Ended];
  }

  lemma NoSteps(r: Runtime, t: nat)
    ensures Run(r, [], r) && Smooth([], t)
  {
  }

  /** A start of an idle runtime builds the next generation. */
  lemma StartCompletes(r: Runtime, t: nat, transport: nat) returns (trace: seq<Action>, end: Runtime)
    requires t !in r.threads && Registers(r, false) && transport !in r.transports
    ensures Run(r, trace, end) && Smooth(trace, t)
    ensures Callable(end, r.top + 1) && end.top == r.top + 1 && At(end, t, Ended) && !end.retiring
    ensures end.generations == r.generations[r.top + 1 := Generation(transport, true, 0, 0, 0)] && end.constructions == map[]
    ensures end.transports == r.transports[transport := Live]
  {
    hide Run, Smooth;
    NoSteps(r, t);
    var first := StartOn(r, [], r, t, StartRegisters(t));
    var reserved := NextStart(r, StartRegisters(t));
    var rest;
    rest, end := ConstructionCompletes(reserved, t, transport);
    assert end.constructions == map[];
    trace := Joined(r, first, reserved, rest, end, t);
  }

  lemma {:induction false} RunJoins(r: Runtime, a: seq<Action>, mid: Runtime, b: seq<Action>, end: Runtime)
    requires Run(r, a, mid) && Run(mid, b, end)
    ensures Run(r, a + b, end)
    decreases |a|
  {
    hide Enabled, Next;
    if a == [] {
      assert a + b == b;
    } else {
      assert (a + b)[0] == a[0] && (a + b)[1..] == a[1..] + b;
      RunJoins(Next(r, a[0]), a[1..], mid, b, end);
    }
  }

  lemma Joined(r: Runtime, a: seq<Action>, mid: Runtime, b: seq<Action>, end: Runtime, t: nat) returns (trace: seq<Action>)
    requires Run(r, a, mid) && Run(mid, b, end) && Smooth(a, t) && Smooth(b, t)
    ensures Run(r, trace, end) && Smooth(trace, t)
  {
    hide Run;
    RunJoins(r, a, mid, b, end);
    trace := a + b;
  }

  /** A generation with nothing in flight, nobody else at the lifecycle, and its adapter live. */
  predicate AtRest(r: Runtime, t: nat, g: nat) {
    && !r.quarantined && r.current == Some(g) && g in r.generations && r.constructions == map[] && r.holder.None? && t !in r.threads
    && r.generations[g].inFlight == 0 && r.generations[g].drains == 0
    && r.generations[g].transport in r.transports && r.transports[r.generations[g].transport] != Closed
  }

  /** The runtime once a stop or replacement has withdrawn and drained a generation at rest. */
  function Emptied(r: Runtime, g: nat, t: nat, again: bool, status: Adapter, pc: Thread, retiring: bool): Runtime
    requires g in r.generations
  {
    r.(retiring := retiring, current := None, holder := Some(t),
       generations := r.generations[g := r.generations[g].(accepting := false, drains := r.generations[g].drains + 1)],
       transports := r.transports[r.generations[g].transport := status], threads := r.threads[t := pc])
  }

  lemma NothingToCancel(r: Runtime)
    requires r.constructions == map[]
    ensures CancelAll(r.constructions) == r.constructions && r.constructions.Keys == {}
  {
  }

  lemma MovesInside(r: Runtime, g: nat, t: nat, again: bool, status: Adapter, pc: Thread, retiring: bool, next: Thread)
    requires g in r.generations
    ensures SetThread(Emptied(r, g, t, again, status, pc, retiring), t, next) == Emptied(r, g, t, again, status, next, retiring)
  {
  }

  lemma AdapterInside(r: Runtime, g: nat, t: nat, again: bool, status: Adapter, pc: Thread, retiring: bool, next: Adapter)
    requires g in r.generations
    ensures var m := Emptied(r, g, t, again, status, pc, retiring);
            m.(transports := m.transports[r.generations[g].transport := next]) == Emptied(r, g, t, again, next, pc, retiring)
  {
  }

  lemma WithdrawsAtRest(r: Runtime, t: nat, g: nat, again: bool)
    requires AtRest(r, t, g)
    ensures var c := r.(holder := Some(t), threads := r.threads[t := Locked(again)]);
      EnabledStop(c, Withdraws(t)) &&
      NextStop(c, Withdraws(t)) == Emptied(r, g, t, again, r.transports[r.generations[g].transport], Draining(g, again), true)
  {
    var c := r.(holder := Some(t), threads := r.threads[t := Locked(again)]);
    var d := Emptied(r, g, t, again, r.transports[r.generations[g].transport], Draining(g, again), true);
    assert NextStop(c, Withdraws(t)).threads == d.threads;
    assert NextStop(c, Withdraws(t)).transports == d.transports;
  }

  /** With the lifecycle lock free and nothing to cancel, a stop gets the lock. */
  lemma Locking(r: Runtime, t: nat, g: nat, again: bool) returns (trace: seq<Action>)
    requires AtRest(r, t, g)
    ensures Run(r, trace, r.(holder := Some(t), threads := r.threads[t := Locked(again)])) && Smooth(trace, t)
  {
    hide Run, Smooth;
    NoSteps(r, t);
    hide EnabledStop, NextStop;
    StopAtRest(r, t, g, again);
    trace := StopOn(r, [], r, t, StopBegins(t, again));
    CancelAtRest(r, t, g, again);
    trace := StopOn(r, trace, r.(threads := r.threads[t := Cancelling({}, again)]), t, CancelsDone(t));
    LockAtRest(r, t, g, again);
    trace := StopOn(r, trace, r.(threads := r.threads[t := Waiting(again)]), t, Locks(t));
  }

  lemma StopAtRest(r: Runtime, t: nat, g: nat, again: bool)
    requires AtRest(r, t, g)
    ensures EnabledStop(r, StopBegins(t, again))
    ensures NextStop(r, StopBegins(t, again)) == r.(threads := r.threads[t := Cancelling({}, again)])
  {
    hide CancelAll;
    NothingToCancel(r);
  }

  lemma CancelAtRest(r: Runtime, t: nat, g: nat, again: bool)
    requires AtRest(r, t, g)
    ensures var a := r.(threads := r.threads[t := Cancelling({}, again)]);
      EnabledStop(a, CancelsDone(t)) && NextStop(a, CancelsDone(t)) == r.(threads := r.threads[t := Waiting(again)])
  {
  }

  lemma LockAtRest(r: Runtime, t: nat, g: nat, again: bool)
    requires AtRest(r, t, g)
    ensures var b := r.(threads := r.threads[t := Waiting(again)]);
      EnabledStop(b, Locks(t)) && NextStop(b, Locks(t)) == r.(holder := Some(t), threads := r.threads[t := Locked(again)])
  {
  }

  lemma Withdrawn(r: Runtime, t: nat, g: nat, again: bool) returns (trace: seq<Action>)
    requires AtRest(r, t, g)
    ensures Run(r, trace, Emptied(r, g, t, again, r.transports[r.generations[g].transport], Draining(g, again), true)) && Smooth(trace, t)
  {
    hide Run, Smooth, NextStop, EnabledStop;
    trace := Locking(r, t, g, again);
    WithdrawsAtRest(r, t, g, again);
    trace := StopOn(r, trace, r.(holder := Some(t), threads := r.threads[t := Locked(again)]), t, Withdraws(t));
  }

  /** The steps of a stop inside, each from where the one before left it. */
  lemma DrainInTime(r: Runtime, t: nat, g: nat, again: bool, status: Adapter)
    requires AtRest(r, t, g)
    ensures var d := Emptied(r, g, t, again, status, Draining(g, again), true);
      EnabledStop(d, DrainEnds(t)) &&
      NextStop(d, DrainEnds(t)) == Emptied(r, g, t, again, status, Retiring(g, Ready, false, again), true)
  {
    hide SetThread;
    MovesInside(r, g, t, again, status, Draining(g, again), true, Retiring(g, Ready, false, again));
  }

  lemma AskInTime(r: Runtime, t: nat, g: nat, again: bool)
    requires AtRest(r, t, g)
    ensures var status := r.transports[r.generations[g].transport];
      var e := Emptied(r, g, t, again, status, Retiring(g, Ready, false, again), true);
      EnabledStop(e, StopAsks(t)) &&
      NextStop(e, StopAsks(t)) == Emptied(r, g, t, again, Asked, Retiring(g, Sent, false, again), true)
  {
    hide SetThread;
    var status := r.transports[r.generations[g].transport];
    AdapterInside(r, g, t, again, status, Retiring(g, Ready, false, again), true, Asked);
    MovesInside(r, g, t, again, Asked, Retiring(g, Ready, false, again), true, Retiring(g, Sent, false, again));
  }

  lemma ProveInTime(r: Runtime, t: nat, g: nat, again: bool)
    requires AtRest(r, t, g)
    ensures var h := Emptied(r, g, t, again, Closed, Retiring(g, Sent, false, again), true);
      EnabledStop(h, StopProves(t)) &&
      NextStop(h, StopProves(t)) == Emptied(r, g, t, again, Closed, Proved(false, again), true)
  {
    hide SetThread;
    MovesInside(r, g, t, again, Closed, Retiring(g, Sent, false, again), true, Proved(false, again));
  }

  lemma LowerInTime(r: Runtime, t: nat, g: nat, again: bool)
    requires AtRest(r, t, g)
    ensures var i := Emptied(r, g, t, again, Closed, Proved(false, again), true);
      EnabledStop(i, LowersFence(t)) &&
      NextStop(i, LowersFence(t)) == Emptied(r, g, t, again, Closed, Stopped(true, again), again)
  {
    hide SetThread;
    MovesInside(r, g, t, again, Closed, Proved(false, again), again, Stopped(true, again));
  }

  /** A withdrawn generation that is drained is closed and proved retired, and the answer is success. */
  lemma ClosedInTime(r: Runtime, t: nat, g: nat, again: bool, start: Runtime, before: seq<Action>) returns (trace: seq<Action>)
    requires AtRest(r, t, g) && Smooth(before, t)
    requires Run(start, before, Emptied(r, g, t, again, r.transports[r.generations[g].transport], Draining(g, again), true))
    ensures Run(start, trace, Emptied(r, g, t, again, Closed, Stopped(true, again), again)) && Smooth(trace, t)
  {
    hide Run, Smooth, EnabledStop, NextStop;
    var tr := r.generations[g].transport;
    DrainInTime(r, t, g, again, r.transports[tr]);
    trace := StopOn(start, before, Emptied(r, g, t, again, r.transports[tr], Draining(g, again), true), t, DrainEnds(t));
    AskInTime(r, t, g, again);
    trace := StopOn(start, trace, Emptied(r, g, t, again, r.transports[tr], Retiring(g, Ready, false, again), true), t, StopAsks(t));
    AdapterInside(r, g, t, again, Asked, Retiring(g, Sent, false, again), true, Closed);
    trace := AdapterOn(start, trace, Emptied(r, g, t, again, Asked, Retiring(g, Sent, false, again), true), t, tr);
    ProveInTime(r, t, g, again);
    trace := StopOn(start, trace, Emptied(r, g, t, again, Closed, Retiring(g, Sent, false, again), true), t, StopProves(t));
    LowerInTime(r, t, g, again);
    trace := StopOn(start, trace, Emptied(r, g, t, again, Closed, Proved(false, again), true), t, LowersFence(t));
  }

  lemma AdapterOn(r: Runtime, trace: seq<Action>, mid: Runtime, t: nat, tr: nat) returns (longer: seq<Action>)
    requires Run(r, trace, mid) && Smooth(trace, t) && tr in mid.transports
    ensures Run(r, longer, NextLease(mid, AdapterCloses(tr))) && Smooth(longer, t)
  {
    hide Run;
    longer := trace + [AdapterCloses(tr)];
    Extends(r, trace, mid, AdapterCloses(tr));
  }

  /** A stop of a generation at rest succeeds: nothing is current, its transport is closed, the fence down, the lock free. */
  lemma StopCompletes(r: Runtime, t: nat, g: nat) returns (trace: seq<Action>, end: Runtime)
    requires AtRest(r, t, g)
    ensures Run(r, trace, end) && Smooth(trace, t)
    ensures end.current.None? && !end.retiring && end.holder.None? && At(end, t, Ended) && !end.quarantined
    ensures end.transports == r.transports[r.generations[g].transport := Closed] && g in end.generations && !end.generations[g].accepting
    ensures Registers(end, false)
  {
    hide Run, Smooth;
    trace := Withdrawn(r, t, g, false);
    trace := ClosedInTime(r, t, g, false, r, trace);
    var s := Emptied(r, g, t, false, Closed, Stopped(true, false), false);
    trace := StopOn(r, trace, s, t, Ends(t));
    end := NextStop(s, Ends(t));
  }

  /** A replacement of a generation at rest builds the next one, and the fence is down again. */
  lemma ReplacementCompletes(r: Runtime, t: nat, g: nat, transport: nat) returns (trace: seq<Action>, end: Runtime)
    requires AtRest(r, t, g) && transport !in r.transports && g <= r.top
    ensures Run(r, trace, end) && Smooth(trace, t)
    ensures Callable(end, r.top + 1) && end.top == r.top + 1 && !end.retiring && end.holder.None? && At(end, t, Ended)
    ensures end.transports == r.transports[r.generations[g].transport := Closed][transport := Live]
    ensures g in end.generations && !end.generations[g].accepting && end.generations[end.top].transport == transport
  {
    hide Run, Smooth;
    var first := Withdrawn(r, t, g, true);
    first := ClosedInTime(r, t, g, true, r, first);
    var s := Emptied(r, g, t, true, Closed, Stopped(true, true), true);
    first := StopOn(r, first, s, t, Ends(t));
    var reserved := NextStop(s, Ends(t));
    assert reserved.constructions == map[t := Building(true, true)] && At(reserved, t, Reserved);
    var rest;
    rest, end := ConstructionCompletes(reserved, t, transport);
    trace := Joined(r, first, reserved, rest, end, t);
  }

  // ---- Leases ----

  /** An admission's call goes through exactly while its generation is still the effective one. */
  lemma CallsExactly(r: Runtime, l: nat)
    requires LeaseAt(r, l, Claimed)
    ensures EnabledLease(r, LeaseCalls(l))
    ensures var n, g := NextLease(r, LeaseCalls(l)), r.leases[l].generation;
      && (n.leases[l].phase == Calling <==> !r.quarantined && r.current == Some(g) && r.generations[g].accepting)
      && (n.leases[l].phase != Calling ==> n.leases[l].phase == Over && n.generations == r.generations)
  {
  }

  /** One admission of generation g under way, in this phase. */
  function Under(r: Runtime, l: nat, g: nat, phase: Phase, invoked: bool, active: int): Runtime
    requires g in r.generations
  {
    var gen := r.generations[g];
    r.(leases := r.leases[l := Lease(g, phase, invoked, false)],
       generations := r.generations[g := gen.(inFlight := gen.inFlight + 1, active := active)])
  }

  lemma CallBegins(r: Runtime, l: nat, g: nat)
    requires l !in r.leases && Callable(r, g)
    ensures EnabledLease(r, LeaseAdmits(l)) && NextLease(r, LeaseAdmits(l)) == Under(r, l, g, Idle, false, r.generations[g].active)
  {
  }

  lemma CallClaimed(r: Runtime, l: nat, g: nat, active: int)
    requires l !in r.leases && Callable(r, g)
    ensures EnabledLease(Under(r, l, g, Idle, false, active), LeaseClaims(l))
    ensures NextLease(Under(r, l, g, Idle, false, active), LeaseClaims(l)) == Under(r, l, g, Claimed, true, active)
  {
  }

  lemma CallRuns(r: Runtime, l: nat, g: nat, active: int)
    requires l !in r.leases && Callable(r, g)
    ensures EnabledLease(Under(r, l, g, Claimed, true, active), LeaseCalls(l))
    ensures NextLease(Under(r, l, g, Claimed, true, active), LeaseCalls(l)) == Under(r, l, g, Calling, true, active + 1)
  {
  }

  lemma CallOver(r: Runtime, l: nat, g: nat, active: int)
    requires l !in r.leases && Callable(r, g)
    ensures EnabledLease(Under(r, l, g, Calling, true, active + 1), CallbackEnds(l))
    ensures NextLease(Under(r, l, g, Calling, true, active + 1), CallbackEnds(l)) == Under(r, l, g, Over, true, active)
  {
  }

  lemma CallAccounted(r: Runtime, l: nat, g: nat, active: int)
    requires l !in r.leases && Callable(r, g)
    ensures EnabledLease(Under(r, l, g, Over, true, active), LeaseAccounts(l))
    ensures NextLease(Under(r, l, g, Over, true, active), LeaseAccounts(l)) == Under(r, l, g, Idle, true, active)
  {
  }

  /** A second call of the same admission is refused; its release is not. */
  lemma CallReleased(r: Runtime, l: nat, g: nat, active: int)
    requires l !in r.leases && Callable(r, g)
    ensures !EnabledLease(Under(r, l, g, Idle, true, active), LeaseClaims(l))
    ensures EnabledLease(Under(r, l, g, Idle, true, active), LeaseReleases(l))
    ensures NextLease(Under(r, l, g, Idle, true, active), LeaseReleases(l)) == Under(r, l, g, Releasing, true, active)
  {
  }

  lemma CallGivesBack(r: Runtime, l: nat, g: nat)
    requires l !in r.leases && Callable(r, g)
    ensures var i := Under(r, l, g, Releasing, true, r.generations[g].active);
      EnabledLease(i, LeaseReturns(l)) && NextLease(i, LeaseReturns(l)) == r.(leases := r.leases[l := Lease(g, Done, true, false)])
  {
    var i := Under(r, l, g, Releasing, true, r.generations[g].active);
    assert NextLease(i, LeaseReturns(l)).generations == r.generations;
  }

  lemma LeaseOn(r: Runtime, trace: seq<Action>, mid: Runtime, a: Action) returns (longer: seq<Action>)
    requires Run(r, trace, mid) && EnabledLease(mid, a)
    ensures Run(r, longer, NextLease(mid, a))
  {
    hide EnabledStart, NextStart, Run, EnabledStop, EnabledLease, NextStop, NextLease;
    longer := trace + [a];
    Extends(r, trace, mid, a);
    LeaseIsLease(mid, a);
  }

  lemma LeaseIsLease(r: Runtime, a: Action)
    requires EnabledLease(r, a)
    ensures !EnabledStart(r, a) && !EnabledStop(r, a)
  {
  }

  /** While a generation is effective a call of it goes through: it runs once, and afterwards nothing is left of it but its end. */
  lemma CallCompletes(r: Runtime, l: nat, g: nat) returns (before: seq<Action>, calling: Runtime, rest: seq<Action>, end: Runtime)
    requires l !in r.leases && Callable(r, g)
    ensures Run(r, before, calling) && LeaseAt(calling, l, Calling)
    ensures calling.generations == r.generations[g := r.generations[g].(inFlight := r.generations[g].inFlight + 1, active := r.generations[g].active + 1)]
    ensures Run(calling, rest, end) && end == r.(leases := r.leases[l := Lease(g, Done, true, false)])
  {
    hide Run, EnabledLease, NextLease;
    var active := r.generations[g].active;
    NoSteps(r, 0);
    CallBegins(r, l, g);
    before := LeaseOn(r, [], r, LeaseAdmits(l));
    CallClaimed(r, l, g, active);
    before := LeaseOn(r, before, Under(r, l, g, Idle, false, active), LeaseClaims(l));
    CallRuns(r, l, g, active);
    before := LeaseOn(r, before, Under(r, l, g, Claimed, true, active), LeaseCalls(l));
    calling := Under(r, l, g, Calling, true, active + 1);
    NoSteps(calling, 0);
    CallOver(r, l, g, active);
    rest := LeaseOn(calling, [], calling, CallbackEnds(l));
    CallAccounted(r, l, g, active);
    rest := LeaseOn(calling, rest, Under(r, l, g, Over, true, active), LeaseAccounts(l));
    CallReleased(r, l, g, active);
    rest := LeaseOn(calling, rest, Under(r, l, g, Idle, true, active), LeaseReleases(l));
    CallGivesBack(r, l, g);
    rest := LeaseOn(calling, rest, Under(r, l, g, Releasing, true, active), LeaseReturns(l));
    end := r.(leases := r.leases[l := Lease(g, Done, true, false)]);
  }
}
