/**
  The retirement fence. A replacement raises it, and normally its own reservation lowers it again;
  when the reservation is refused because something was built meanwhile, the fence stays up.
  */
module DriverFence {
  import opened Octets
  import opened Driver
  import opened DriverSafety

  // ---- What registration answers ----

  datatype Reply = Quarantined | Unavailable | Already(generation: nat) | ReservedFor

  /** The guards of registerConstruction, in their order. */
  function Answer(r: Runtime, replacing: bool): Reply {
    if r.quarantined then Quarantined
    else if r.retiring != replacing then Unavailable
    else if r.current.Some? then Already(r.top)
    else if r.constructions != map[] then Unavailable
    else ReservedFor
  }

  /** Some construction will lower the fence when it is admitted or given up. */
  ghost predicate HasLowerer(constructions: map<nat, Building>) {
    exists c :: c in constructions && constructions[c].releasesFence
  }

  /** The fence is up with nobody left to lower it. */
  ghost predicate Stuck(r: Runtime) {
    r.retiring && !r.quarantined && r.holder.None? && !HasLowerer(r.constructions)
  }

  // ---- One step ----

  /** Exactly when a replacement returns with the fence up: its reservation meets a generation or a construction. */
  lemma ReplaceReturnsFenced(r: Runtime, t: nat)
    requires At(r, t, Stopped(true, true)) && !r.quarantined
    ensures var n := NextStop(r, Ends(t));
      && EnabledStop(r, Ends(t))
      && (n.retiring && n.threads[t].Ended? <==> r.retiring && (r.current.Some? || r.constructions != map[]))
      && (n.threads[t].Reserved? <==> Answer(r, true).ReservedFor?)
  {
  }

  /** A stop about to return has lowered the fence, unless the runtime is quarantined. */
  ghost predicate FenceSound(r: Runtime) {
    forall t :: t in r.threads && r.threads[t].Stopped? && !r.threads[t].again && !r.quarantined ==> !r.retiring
  }

  /** Reservations of replacements only: no two constructions, so lowering the fence leaves none behind. */
  ghost predicate Sole(r: Runtime) {
    forall a, b :: a in r.constructions && b in r.constructions ==> a == b
  }

  lemma FenceStart(r: Runtime, a: Action)
    requires OneStopper(r) && FenceSound(r) && EnabledStart(r, a)
    ensures FenceSound(NextStart(r, a))
  {
    hide AfterFactory;
    if a.FactoryReturns? { Untouched(r, a.t, a.outcome); }
  }

  lemma Untouched(r: Runtime, t: nat, o: Outcome)
    ensures var n := AfterFactory(r, t, o);
      && n.quarantined == r.quarantined && n.retiring == r.retiring && n.holder == r.holder && n.constructions == r.constructions
      && n.current == r.current && t in n.threads && !n.threads[t].Stopped? && n.threads == r.threads[t := n.threads[t]]
  {
  }

  lemma FenceStop(r: Runtime, a: Action)
    requires OneStopper(r) && FenceSound(r) && EnabledStop(r, a)
    ensures FenceSound(NextStop(r, a))
  {
    hide CancelAll;
  }

  lemma FenceLease(r: Runtime, a: Action)
    requires FenceSound(r) && EnabledLease(r, a)
    ensures FenceSound(NextLease(r, a))
  {
  }

  /** The steps at which the fence is left up. */
  ghost predicate LeavesFence(r: Runtime, a: Action) {
    && a.Ends? && At(r, a.t, Stopped(true, true)) && !r.quarantined && r.retiring
    && (r.current.Some? || r.constructions != map[]) && !HasLowerer(r.constructions)
  }

  /** Cancelling a construction does not change whether it lowers the fence. */
  lemma CancelKeepsLowerer(constructions: map<nat, Building>, t: nat)
    ensures HasLowerer(CancelAll(constructions)) == HasLowerer(constructions)
    ensures t in constructions ==> HasLowerer(constructions[t := constructions[t].(provisional := false)]) == HasLowerer(constructions)
  {
    if HasLowerer(constructions) {
      var c :| c in constructions && constructions[c].releasesFence;
      assert c in CancelAll(constructions) && CancelAll(constructions)[c].releasesFence;
      if t in constructions {
        var later := constructions[t := constructions[t].(provisional := false)];
        assert c in later && later[c].releasesFence;
      }
    }
  }

  /** The only construction, leaving, takes the lowerer with it exactly if it is one. */
  lemma SoleLeaves(r: Runtime, t: nat)
    requires Sole(r) && t in r.constructions
    ensures HasLowerer(r.constructions) == r.constructions[t].releasesFence
  {
  }

  lemma StuckStart(r: Runtime, a: Action)
    requires Sole(r) && EnabledStart(r, a) && !Stuck(r)
    ensures !Stuck(NextStart(r, a))
  {
    hide AfterFactory, HasLowerer;
    if a.FactoryReturns? { Untouched(r, a.t, a.outcome); }
    if a.CallerCancels? { CancelKeepsLowerer(r.constructions, a.t); }
    if a.Admits? || a.Finishes? { SoleLeaves(r, a.t); }
  }

  lemma StuckStop(r: Runtime, a: Action)
    requires OneStopper(r) && FenceSound(r) && EnabledStop(r, a) && !Stuck(r)
    ensures Stuck(NextStop(r, a)) <==> LeavesFence(r, a)
  {
    hide HasLowerer, CancelAll;
    if a.StopBegins? { CancelKeepsLowerer(r.constructions, a.t); }
    if a.Ends? { ReservationLowers(r, a.t); }
  }

  lemma ReservationLowers(r: Runtime, t: nat)
    ensures HasLowerer(r.constructions[t := Building(true, true)])
  {
    assert r.constructions[t := Building(true, true)][t].releasesFence;
  }

  lemma StuckLease(r: Runtime, a: Action)
    requires EnabledLease(r, a)
    ensures Stuck(NextLease(r, a)) <==> Stuck(r)
  {
  }

  // ---- Every run ----

  ghost predicate Kept(r: Runtime) {
    Inv(r) && FenceSound(r)
  }

  lemma StepKeeps(r: Runtime, a: Action)
    requires Kept(r) && Enabled(r, a)
    ensures Kept(Next(r, a))
  {
    hide Inv, FenceSound, EnabledStart, EnabledStop, EnabledLease, NextStart, NextStop, NextLease;
    StepSound(r, a);
    StopperOf(r);
    if EnabledStart(r, a) {
      FenceStart(r, a);
    } else if EnabledStop(r, a) {
      FenceStop(r, a);
    } else {
      FenceLease(r, a);
    }
  }

  lemma StopperOf(r: Runtime)
    requires Inv(r)
    ensures OneStopper(r) && Sole(r)
  {
  }

  lemma {:induction false} RunKeeps(r: Runtime, trace: seq<Action>, end: Runtime)
    requires Kept(r) && Run(r, trace, end)
    ensures Kept(end)
    decreases trace
  {
    hide Kept, Next, Enabled;
    if trace != [] {
      StepKeeps(r, trace[0]);
      RunKeeps(Next(r, trace[0]), trace[1..], end);
    }
  }

  lemma ReachableKept(r: Runtime)
    requires Reachable(r)
    ensures Kept(r)
  {
    hide Run;
    var trace :| Run(DORMANT, trace, r);
    RunKeeps(DORMANT, trace, r);
  }

  /**
    In every run, the fence is left up with nobody to lower it exactly by the return of a replacement
    that found the fence up and a generation or a construction in its place.
    */
  lemma StuckExactly(r: Runtime, a: Action)
    requires Reachable(r) && Enabled(r, a) && !Stuck(r)
    ensures Stuck(Next(r, a)) <==> LeavesFence(r, a)
  {
    hide Reachable, Inv, FenceSound, Stuck, EnabledStart, EnabledLease, NextStart, NextStop, NextLease;
    ReachableKept(r);
    StopperOf(r);
    if EnabledStart(r, a) {
      StuckStart(r, a);
      EndsIsStop(r, a);
    } else if EnabledStop(r, a) {
      StuckStop(r, a);
    } else {
      StuckLease(r, a);
      EndsIsStop(r, a);
    }
  }

  lemma EndsIsStop(r: Runtime, a: Action)
    requires EnabledStart(r, a) || EnabledLease(r, a)
    ensures !a.Ends? && !a.Locks?
  {
  }

  /** Behind a standing fence every start is refused, even one that should find the current generation. */
  lemma StuckRefusesStart(r: Runtime)
    requires Stuck(r)
    ensures Answer(r, false) == Unavailable && !Registers(r, false)
    ensures forall t :: t in r.constructions ==> !FactoryMayRun(r, t)
    ensures r.current.Some? ==> Answer(r, true) == Already(r.top) && Answer(r.(retiring := false), false) == Already(r.top)
  {
  }

  lemma StuckStaysStart(r: Runtime, a: Action)
    requires EnabledStart(r, a) && Stuck(r) && !a.Quarantines?
    ensures Stuck(NextStart(r, a))
  {
    hide AfterFactory, HasLowerer;
    if a.FactoryReturns? { Untouched(r, a.t, a.outcome); }
    if a.CallerCancels? { CancelKeepsLowerer(r.constructions, a.t); }
    if a.Admits? || a.Finishes? { NoLowererLeaves(r.constructions, a.t); }
  }

  lemma NoLowererLeaves(constructions: map<nat, Building>, t: nat)
    requires !HasLowerer(constructions) && t in constructions
    ensures !HasLowerer(constructions - {t}) && !constructions[t].releasesFence
  {
  }

  lemma StuckStaysStop(r: Runtime, a: Action)
    requires OneStopper(r) && EnabledStop(r, a) && Stuck(r) && !a.Locks?
    ensures Stuck(NextStop(r, a))
  {
    hide HasLowerer, CancelAll;
    if a.StopBegins? { CancelKeepsLowerer(r.constructions, a.t); }
  }

  /** It stays up, and starts stay refused, until a stop or a replacement gets the lock, or quarantine. */
  lemma {:induction false} StuckUntilLocked(r: Runtime, trace: seq<Action>, end: Runtime)
    requires Inv(r) && Stuck(r) && Run(r, trace, end)
    requires forall i :: 0 <= i < |trace| ==> !trace[i].Locks? && !trace[i].Quarantines?
    ensures Stuck(end) && Answer(end, false) == Unavailable
    decreases trace
  {
    hide Inv, EnabledStart, EnabledStop, EnabledLease, NextStart, NextStop, NextLease, HasLowerer;
    if trace != [] {
      var a := trace[0];
      StepSound(r, a);
      StopperOf(r);
      if EnabledStart(r, a) {
        StuckStaysStart(r, a);
      } else if EnabledStop(r, a) {
        StuckStaysStop(r, a);
      } else {
        StuckLease(r, a);
      }
      StuckUntilLocked(Next(r, a), trace[1..], end);
    }
  }

  /** A stop that returns outside quarantine has lowered the fence. */
  lemma StopLowersFence(r: Runtime, t: nat)
    requires Reachable(r) && t in r.threads && r.threads[t].Stopped? && !r.threads[t].again && !r.quarantined
    ensures !r.retiring && !NextStop(r, Ends(t)).retiring && !Stuck(NextStop(r, Ends(t)))
  {
    hide Reachable, Inv;
    ReachableKept(r);
  }

  /** A replacement that got its reservation lowers the fence whether it is admitted or given up. */
  lemma ReplacementLowersFence(r: Runtime, a: Action)
    requires Reachable(r) && !r.quarantined && (a.Admits? || a.Finishes?) && EnabledStart(r, a)
    requires a.t in r.constructions && r.constructions[a.t].releasesFence
    ensures !NextStart(r, a).retiring && !HasLowerer(NextStart(r, a).constructions)
  {
    hide Reachable, Counted, OneStopper, AllOwned;
    ReachableSound(r);
  }

  // ---- Both ways into it ----

  lemma RunNothing(r: Runtime)
    ensures Run(r, [], r)
  {
  }

  lemma OneStep(r: Runtime, a: Action, rest: seq<Action>, end: Runtime) returns (trace: seq<Action>)
    requires Enabled(r, a) && Run(Next(r, a), rest, end)
    ensures Run(r, trace, end)
  {
    hide Enabled, Next;
    trace := [a] + rest;
    assert trace[1..] == rest;
  }

  const LATE := map[2 := Building(true, false)]

  function Racing(first: Thread, second: Thread, holder: Option<nat>, retiring: bool): Runtime {
    Runtime(false, retiring, None, 0, map[], LATE, holder, map[1 := first, 2 := second], map[], map[])
  }

  lemma ReplaceLooks()
    ensures Enabled(DORMANT, StopBegins(1, true))
    ensures Next(DORMANT, StopBegins(1, true)) == Runtime(false, false, None, 0, map[], map[], None, map[1 := Cancelling({}, true)], map[], map[])
  {
    assert CancelAll(DORMANT.constructions) == map[] && DORMANT.constructions.Keys == {};
    assert DORMANT.threads[1 := Cancelling({}, true)] == map[1 := Cancelling({}, true)];
  }

  lemma StartSlipsIn()
    ensures Enabled(Runtime(false, false, None, 0, map[], map[], None, map[1 := Cancelling({}, true)], map[], map[]), StartRegisters(2))
    ensures Next(Runtime(false, false, None, 0, map[], map[], None, map[1 := Cancelling({}, true)], map[], map[]), StartRegisters(2)) == Racing(Cancelling({}, true), Reserved, None, false)
  {
    var r := Runtime(false, false, None, 0, map[], map[], None, map[1 := Cancelling({}, true)], map[], map[]);
    assert r.constructions[2 := Building(true, false)] == LATE;
    assert r.threads[2 := Reserved] == map[1 := Cancelling({}, true), 2 := Reserved];
  }

  /** Whatever the construction is doing, the replacement goes on to raise the fence. */
  lemma ReplaceGoesOn(second: Thread)
    ensures Enabled(Racing(Cancelling({}, true), second, None, false), CancelsDone(1))
    ensures Next(Racing(Cancelling({}, true), second, None, false), CancelsDone(1)) == Racing(Waiting(true), second, None, false)
  {
    var r := Racing(Cancelling({}, true), second, None, false);
    assert r.threads[1 := Waiting(true)] == Racing(Waiting(true), second, None, false).threads;
  }

  lemma ReplaceLocks(second: Thread)
    ensures Enabled(Racing(Waiting(true), second, None, false), Locks(1))
    ensures Next(Racing(Waiting(true), second, None, false), Locks(1)) == Racing(Locked(true), second, Some(1), false)
  {
    var r := Racing(Waiting(true), second, None, false);
    assert r.threads[1 := Locked(true)] == Racing(Locked(true), second, Some(1), false).threads;
  }

  lemma ReplaceRaisesFence(second: Thread)
    ensures Enabled(Racing(Locked(true), second, Some(1), false), Withdraws(1))
    ensures Next(Racing(Locked(true), second, Some(1), false), Withdraws(1)) == Racing(Stopped(true, true), second, Some(1), true)
  {
    var r := Racing(Locked(true), second, Some(1), false);
    assert r.threads[1 := Stopped(true, true)] == Racing(Stopped(true, true), second, Some(1), true).threads;
  }

  lemma FactoryStarts()
    ensures Enabled(Racing(Cancelling({}, true), Reserved, None, false), StartChecks(2))
    ensures Next(Racing(Cancelling({}, true), Reserved, None, false), StartChecks(2)) == Racing(Cancelling({}, true), Constructing, None, false)
  {
    var r := Racing(Cancelling({}, true), Reserved, None, false);
    assert r.threads[2 := Constructing] == Racing(Cancelling({}, true), Constructing, None, false).threads;
  }

  lemma FactoryDelivers()
    ensures Enabled(Racing(Stopped(true, true), Constructing, Some(1), true), FactoryReturns(2, Valid(0)))
    ensures Next(Racing(Stopped(true, true), Constructing, Some(1), true), FactoryReturns(2, Valid(0))) == Racing(Stopped(true, true), Built(0), Some(1), true).(transports := map[0 := Live])
  {
    var r := Racing(Stopped(true, true), Constructing, Some(1), true);
    assert r.threads[2 := Built(0)] == Racing(Stopped(true, true), Built(0), Some(1), true).(transports := map[0 := Live]).threads;
    assert r.transports[0 := Live] == map[0 := Live];
  }

  lemma ConstructionAdmitted()
    ensures Enabled(Racing(Stopped(true, true), Built(0), Some(1), true).(transports := map[0 := Live]), Admits(2))
    ensures Next(Racing(Stopped(true, true), Built(0), Some(1), true).(transports := map[0 := Live]), Admits(2)) == Runtime(false, true, Some(1), 1, map[1 := Generation(0, true, 0, 0, 0)], map[], Some(1), map[1 := Stopped(true, true), 2 := Ended], map[0 := Live], map[])
  {
    var r := Racing(Stopped(true, true), Built(0), Some(1), true).(transports := map[0 := Live]);
    assert r.constructions - {2} == map[] && r.threads[2 := Ended] == map[1 := Stopped(true, true), 2 := Ended];
    assert r.generations[1 := Generation(0, true, 0, 0, 0)] == map[1 := Generation(0, true, 0, 0, 0)];
  }

  /** A construction under way: the replacement is told it is unavailable, and the fence stays up. */
  lemma FenceLeftByConstruction() returns (trace: seq<Action>, r: Runtime)
    ensures Run(DORMANT, trace, r) && Enabled(r, Ends(1)) && LeavesFence(r, Ends(1)) && r.current.None? && Answer(r, true) == Unavailable
  {
    hide Run, Enabled, Next;
    r := Racing(Stopped(true, true), Reserved, Some(1), true);
    assert 2 in r.constructions;
    assert Enabled(r, Ends(1)) by { ReplaceReturnsFenced(r, 1); EndsEnabled(r, 1); }
    RunNothing(r);
    ReplaceRaisesFence(Reserved);
    trace := OneStep(Racing(Locked(true), Reserved, Some(1), false), Withdraws(1), [], r);
    ReplaceGoesOn(Reserved);
    ReplaceLocks(Reserved);
    trace := OneStep(Racing(Waiting(true), Reserved, None, false), Locks(1), trace, r);
    trace := OneStep(Racing(Cancelling({}, true), Reserved, None, false), CancelsDone(1), trace, r);
    StartSlipsIn();
    trace := OneStep(Runtime(false, false, None, 0, map[], map[], None, map[1 := Cancelling({}, true)], map[], map[]), StartRegisters(2), trace, r);
    ReplaceLooks();
    trace := OneStep(DORMANT, StopBegins(1, true), trace, r);
  }

  lemma EndsEnabled(r: Runtime, t: nat)
    requires t in r.threads && r.threads[t].Stopped?
    ensures Enabled(r, Ends(t))
  {
  }

  /** A generation admitted meanwhile: the replacement reports success, yet the fence stays up behind it. */
  lemma FenceLeftByGeneration() returns (trace: seq<Action>, r: Runtime)
    ensures Run(DORMANT, trace, r) && Enabled(r, Ends(1)) && LeavesFence(r, Ends(1)) && r.current.Some? && Answer(r, true) == Already(r.top)
  {
    hide Run, Enabled, Next;
    r := Runtime(false, true, Some(1), 1, map[1 := Generation(0, true, 0, 0, 0)], map[], Some(1), map[1 := Stopped(true, true), 2 := Ended], map[0 := Live], map[]);
    EndsEnabled(r, 1);
    RunNothing(r);
    ConstructionAdmitted();
    trace := OneStep(Racing(Stopped(true, true), Built(0), Some(1), true).(transports := map[0 := Live]), Admits(2), [], r);
    FactoryDelivers();
    trace := OneStep(Racing(Stopped(true, true), Constructing, Some(1), true), FactoryReturns(2, Valid(0)), trace, r);
    ReplaceRaisesFence(Constructing);
    trace := OneStep(Racing(Locked(true), Constructing, Some(1), false), Withdraws(1), trace, r);
    ReplaceGoesOn(Constructing);
    ReplaceLocks(Constructing);
    trace := OneStep(Racing(Waiting(true), Constructing, None, false), Locks(1), trace, r);
    trace := OneStep(Racing(Cancelling({}, true), Constructing, None, false), CancelsDone(1), trace, r);
    FactoryStarts();
    trace := OneStep(Racing(Cancelling({}, true), Reserved, None, false), StartChecks(2), trace, r);
    StartSlipsIn();
    trace := OneStep(Runtime(false, false, None, 0, map[], map[], None, map[1 := Cancelling({}, true)], map[], map[]), StartRegisters(2), trace, r);
    ReplaceLooks();
    trace := OneStep(DORMANT, StopBegins(1, true), trace, r);
  }
}
