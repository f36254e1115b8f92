/** What every interleaving of the driver lifecycle keeps. */
module DriverSafety {
  import opened Octets
  import opened Driver

  /** The transport a construction still answers for. */
  function Carried(pc: Thread): Option<nat> {
    match pc
    case Built(tr) => Some(tr)
    case Undoing(tr, _) => Some(tr)
    case Failing(left) => left
    case Leaving(left) => left
    case _ => None
  }

  predicate HasLock(pc: Thread) {
    pc.Locked? || pc.Draining? || pc.Overdue? || pc.Retiring? || pc.Unproved? || pc.Proved? || pc.Stopped? || pc.Clearing?
  }

  /** Between withdrawal and proof. */
  predicate IsStopping(pc: Thread) {
    pc.Draining? || pc.Overdue? || pc.Retiring? || pc.Unproved?
  }

  predicate Unclosed(r: Runtime, tr: nat) {
    tr in r.transports && r.transports[tr] != Closed
  }

  ghost predicate OneBuilder(r: Runtime) {
    && (forall a, b :: a in r.constructions && b in r.constructions ==> a == b)
    && (forall t :: t in r.constructions ==> t in r.threads && IsStarting(r.threads[t]))
    && (forall t :: t in r.threads && IsStarting(r.threads[t]) ==> t in r.constructions)
    && (r.constructions != map[] ==> r.current.None?)
  }

  ghost predicate OneStopper(r: Runtime) {
    && (forall t :: t in r.threads && HasLock(r.threads[t]) ==> r.holder == Some(t))
    && (r.holder.Some? ==> r.holder.value in r.threads && HasLock(r.threads[r.holder.value]))
    && (forall t :: t in r.threads && IsStopping(r.threads[t]) ==>
          r.retiring && r.current.None? && r.constructions == map[] && r.threads[t].generation in r.generations)
  }

  ghost predicate Owned(r: Runtime, tr: nat) {
    if r.constructions != map[] then forall c :: c in r.constructions && c in r.threads ==> Carried(r.threads[c]) == Some(tr)
    else if r.current.Some? then r.current.value in r.generations && r.generations[r.current.value].transport == tr
    else r.quarantined || StopperOwns(r, tr)
  }

  ghost predicate StopperOwns(r: Runtime, tr: nat) {
    && r.holder.Some? && r.holder.value in r.threads && IsStopping(r.threads[r.holder.value])
    && r.threads[r.holder.value].generation in r.generations
    && r.generations[r.threads[r.holder.value].generation].transport == tr
  }

  /** Every transport not proved closed has one owner; abandoned ones exist only in quarantine. */
  ghost predicate AllOwned(r: Runtime) {
    && (forall tr :: Unclosed(r, tr) ==> Owned(r, tr))
    && (forall t :: t in r.threads && r.threads[t].Leaving? && r.threads[t].left.Some? ==> r.quarantined)
    && (forall t :: t in r.threads && Carried(r.threads[t]).Some? ==> Carried(r.threads[t]).value in r.transports)
  }

  ghost predicate Lifecycle(r: Runtime) {
    OneBuilder(r) && OneStopper(r) && AllOwned(r)
  }

  // ---- Generations and leases ----

  ghost function OpenLeases(leases: map<nat, Lease>, g: nat): set<nat> {
    set l | l in leases && leases[l].generation == g && leases[l].phase != Done
  }

  ghost function RunningLeases(leases: map<nat, Lease>, g: nat): set<nat> {
    set l | l in leases && leases[l].generation == g && leases[l].phase == Calling
  }

  ghost predicate GenerationSound(r: Runtime, g: nat)
    requires g in r.generations
  {
    var gen := r.generations[g];
    && g <= r.top && gen.transport in r.transports
    && gen.accepting == (r.current == Some(g))
    && gen.inFlight == |OpenLeases(r.leases, g)| && gen.active == |RunningLeases(r.leases, g)|
    && gen.drains == (if !gen.accepting && gen.inFlight == 0 then 1 else 0)
  }

  ghost predicate Counted(r: Runtime) {
    && (forall g :: g in r.generations ==> GenerationSound(r, g))
    && (forall l :: l in r.leases ==> r.leases[l].generation in r.generations)
    && (r.current.Some? ==> r.current.value in r.generations)
    && (forall t :: t in r.threads && r.threads[t].Retiring? && r.threads[t].generation in r.generations ==>
          r.generations[r.threads[t].generation].active == 0)
  }

  ghost predicate Inv(r: Runtime) {
    Lifecycle(r) && Counted(r)
  }

  // ---- Lifecycle: one thread moves ----

  function Pc(r: Runtime, t: nat): Thread {
    if t in r.threads then r.threads[t] else Ended
  }

  /** A move that neither takes nor gives up a construction, the lock, a generation or a transport. */
  lemma MoveKeeps(r: Runtime, t: nat, pc: Thread)
    requires Lifecycle(r)
    requires IsStarting(pc) == IsStarting(Pc(r, t)) && HasLock(pc) == HasLock(Pc(r, t)) && Carried(pc) == Carried(Pc(r, t))
    requires IsStopping(pc) == IsStopping(Pc(r, t)) && (IsStopping(pc) ==> pc.generation == Pc(r, t).generation)
    requires pc.Leaving? && pc.left.Some? ==> r.quarantined
    ensures Lifecycle(SetThread(r, t, pc))
  {
    var s := SetThread(r, t, pc);
    forall tr | Unclosed(s, tr)
      ensures Owned(s, tr)
    {
      assert Unclosed(r, tr) && Owned(r, tr);
    }
  }

  lemma StatusKeeps(r: Runtime, tr: nat, s: Adapter)
    requires Lifecycle(r) && tr in r.transports && (s == Closed || r.transports[tr] != Closed)
    ensures Lifecycle(r.(transports := r.transports[tr := s]))
  {
    var n := r.(transports := r.transports[tr := s]);
    forall x | Unclosed(n, x)
      ensures Owned(n, x)
    {
      assert Unclosed(r, x) && Owned(r, x);
    }
  }

  lemma QuarantineKeeps(r: Runtime)
    requires Lifecycle(r)
    ensures Lifecycle(r.(quarantined := true))
  {
    var n := r.(quarantined := true);
    forall x | Unclosed(n, x)
      ensures Owned(n, x)
    {
      assert Unclosed(r, x) && Owned(r, x);
    }
  }

  lemma FenceKeeps(r: Runtime, fence: bool)
    requires Lifecycle(r)
    requires fence || forall t :: t in r.threads ==> !IsStopping(r.threads[t])
    ensures Lifecycle(r.(retiring := fence))
  {
    var n := r.(retiring := fence);
    forall x | Unclosed(n, x)
      ensures Owned(n, x)
    {
      assert Unclosed(r, x) && Owned(r, x);
    }
  }

  /** Only one thread has the lock, so if its holder is not stopping, nobody is. */
  lemma NobodyStops(r: Runtime, t: nat)
    requires OneStopper(r) && t in r.threads && HasLock(r.threads[t]) && !IsStopping(r.threads[t])
    ensures forall x :: x in r.threads ==> !IsStopping(r.threads[x])
  {
  }

  lemma SameKeysKeep(r: Runtime, constructions: map<nat, Building>)
    requires Lifecycle(r) && constructions.Keys == r.constructions.Keys
    ensures Lifecycle(r.(constructions := constructions))
  {
    assert constructions == map[] <==> constructions.Keys == {};
    assert r.constructions == map[] <==> r.constructions.Keys == {};
    var n := r.(constructions := constructions);
    forall x | Unclosed(n, x)
      ensures Owned(n, x)
    {
      assert Unclosed(r, x) && Owned(r, x);
    }
  }

  // ---- Constructions ----

  ghost predicate AllClosed(r: Runtime) {
    forall tr :: tr in r.transports ==> r.transports[tr] == Closed
  }

  lemma RegisterKeeps(r: Runtime, t: nat, replacing: bool)
    requires Lifecycle(r) && AllClosed(r) && r.constructions == map[] && r.current.None? && !HasLock(Pc(r, t))
    requires forall x :: x in r.threads ==> !IsStopping(r.threads[x])
    ensures Lifecycle(Register(r, t, replacing))
  {
  }

  lemma NewTransportKeeps(r: Runtime, t: nat, tr: nat, pc: Thread)
    requires Lifecycle(r) && t in r.threads && r.threads[t].Constructing? && tr !in r.transports
    requires IsStarting(pc) && !pc.Leaving? && Carried(pc) == Some(tr)
    ensures Lifecycle(SetThread(r.(transports := r.transports[tr := Live]), t, pc))
  {
    FactoryHasAllClosed(r, t);
  }

  /** While a factory runs no other transport is open: the heart of single ownership. */
  lemma FactoryHasAllClosed(r: Runtime, t: nat)
    requires Lifecycle(r) && t in r.threads && IsStarting(r.threads[t]) && Carried(r.threads[t]).None?
    ensures AllClosed(r)
  {
    forall tr | tr in r.transports
      ensures r.transports[tr] == Closed
    {
      assert Unclosed(r, tr) ==> Owned(r, tr);
    }
  }

  lemma PublishKeeps(r: Runtime, t: nat)
    requires Lifecycle(r) && t in r.threads && r.threads[t].Built? && t in r.constructions
    ensures Lifecycle(Publish(r, t, r.threads[t].transport))
  {
    var n := Publish(r, t, r.threads[t].transport);
    assert n.constructions == map[];
    forall tr | Unclosed(n, tr)
      ensures Owned(n, tr)
    {
      assert Unclosed(r, tr) && Owned(r, tr);
    }
  }

  lemma UndoneKeeps(r: Runtime, t: nat)
    requires Lifecycle(r) && t in r.threads && r.threads[t].Undoing? && !Unclosed(r, r.threads[t].transport)
    ensures Lifecycle(SetThread(r, t, Leaving(None)))
  {
    var n := SetThread(r, t, Leaving(None));
    forall tr | Unclosed(n, tr)
      ensures Owned(n, tr)
    {
      assert Unclosed(r, tr) && Owned(r, tr);
    }
  }

  lemma FinishKeeps(r: Runtime, t: nat, fence: bool)
    requires Lifecycle(r) && t in r.threads && r.threads[t].Leaving? && t in r.constructions
    ensures Lifecycle(EndThread(r.(constructions := r.constructions - {t}, retiring := fence), t))
  {
    var n := EndThread(r.(constructions := r.constructions - {t}, retiring := fence), t);
    assert n.constructions == map[];
    forall tr | Unclosed(n, tr)
      ensures Owned(n, tr)
    {
      assert Unclosed(r, tr) && Owned(r, tr);
    }
  }

  // ---- The lock ----

  lemma LockKeeps(r: Runtime, t: nat, again: bool)
    requires Lifecycle(r) && t in r.threads && r.threads[t].Waiting? && r.holder.None?
    ensures Lifecycle(SetThread(r.(holder := Some(t)), t, Locked(again)))
  {
    var n := SetThread(r.(holder := Some(t)), t, Locked(again));
    forall tr | Unclosed(n, tr)
      ensures Owned(n, tr)
    {
      assert Unclosed(r, tr) && Owned(r, tr);
    }
  }

  lemma UnlockKeeps(r: Runtime, t: nat)
    requires Lifecycle(r) && t in r.threads && HasLock(r.threads[t]) && (IsStopping(r.threads[t]) ==> r.quarantined)
    ensures Lifecycle(EndThread(r.(holder := None), t))
  {
    var n := EndThread(r.(holder := None), t);
    forall tr | Unclosed(n, tr)
      ensures Owned(n, tr)
    {
      assert Unclosed(r, tr) && Owned(r, tr);
    }
  }

  lemma WithdrawKeeps(r: Runtime, t: nat, again: bool)
    requires Lifecycle(r) && t in r.threads && r.threads[t].Locked? && r.current.Some? && r.current.value in r.generations
    ensures Lifecycle(Withdraw(r, t, r.current.value, again))
  {
    var n := Withdraw(r, t, r.current.value, again);
    forall tr | Unclosed(n, tr)
      ensures Owned(n, tr)
    {
      assert Unclosed(r, tr) && Owned(r, tr);
    }
  }

  lemma ProvedKeeps(r: Runtime, t: nat, late: bool, again: bool)
    requires Lifecycle(r) && t in r.threads && r.threads[t].Retiring? && r.threads[t].generation in r.generations
    requires !Unclosed(r, r.generations[r.threads[t].generation].transport)
    ensures Lifecycle(SetThread(r, t, Proved(late, again)))
  {
    var n := SetThread(r, t, Proved(late, again));
    forall tr | Unclosed(n, tr)
      ensures Owned(n, tr)
    {
      assert Unclosed(r, tr) && Owned(r, tr);
    }
  }

  // ---- Lifecycle: every action ----

  lemma Reserves(r: Runtime, t: nat)
    requires Lifecycle(r) && Registers(r, false) && t !in r.threads
    ensures Lifecycle(Register(r, t, false))
  {
    hide OneBuilder, Owned, StopperOwns;
    assert AllClosed(r) by { IdleIsClosed(r); }
    RegisterKeeps(r, t, false);
  }

  /** Idle and outside any retirement, every transport is closed. */
  lemma IdleIsClosed(r: Runtime)
    requires Lifecycle(r) && !r.quarantined && r.current.None? && r.constructions == map[]
    requires forall x :: x in r.threads ==> !IsStopping(r.threads[x])
    ensures AllClosed(r)
  {
    forall tr | tr in r.transports
      ensures r.transports[tr] == Closed
    {
      assert Unclosed(r, tr) ==> Owned(r, tr);
    }
  }

  lemma FactoryReturnKeeps(r: Runtime, t: nat, o: Outcome)
    requires Lifecycle(r) && At(r, t, Constructing) && Produces(r, o)
    ensures Lifecycle(AfterFactory(r, t, o))
  {
    hide Lifecycle;
    match o
    case NoTransport => MoveKeeps(r, t, Leaving(None));
    case ErrorWith(tr) => NewTransportKeeps(r, t, tr, Undoing(tr, Ready));
    case Invalid(tr) =>
      if tr.Some? { NewTransportKeeps(r, t, tr.value, Failing(tr)); } else { MoveKeeps(r, t, Failing(None)); }
    case Valid(tr) => NewTransportKeeps(r, t, tr, Built(tr));
  }

  lemma QuarantinesKeeps(r: Runtime, t: nat)
    requires Lifecycle(r) && EnabledStart(r, Quarantines(t))
    ensures Lifecycle(NextStart(r, Quarantines(t)))
  {
    hide Lifecycle;
    QuarantineKeeps(r);
    var q := r.(quarantined := true);
    if r.threads[t].Failing? {
      MoveKeeps(q, t, Leaving(r.threads[t].left));
    } else if r.threads[t].Unproved? {
      UnlockKeeps(q, t);
    } else {
      MoveKeeps(q, t, Ended);
    }
  }

  predicate WhileBuilding(a: Action) {
    a.StartRegisters? || a.StartChecks? || a.FactoryReturns? || a.Admits? || a.AdmissionRefused?
  }

  lemma StartLifecycle(r: Runtime, a: Action)
    requires Lifecycle(r) && EnabledStart(r, a)
    ensures Lifecycle(NextStart(r, a))
  {
    hide Lifecycle, EnabledStart, NextStart;
    if WhileBuilding(a) { BuildingLifecycle(r, a); } else { UndoingLifecycle(r, a); }
  }

  lemma BuildingLifecycle(r: Runtime, a: Action)
    requires Lifecycle(r) && EnabledStart(r, a) && WhileBuilding(a)
    ensures Lifecycle(NextStart(r, a))
  {
    hide Lifecycle, AfterFactory, Publish, Register;
    match a
    case StartRegisters(t) => Reserves(r, t);
    case StartChecks(t) => MoveKeeps(r, t, if FactoryMayRun(r, t) then Constructing else Leaving(None));
    case FactoryReturns(t, o) => FactoryReturnKeeps(r, t, o);
    case Admits(t) => PublishKeeps(r, t);
    case AdmissionRefused(t) => MoveKeeps(r, t, Undoing(r.threads[t].transport, Ready));
    case _ => assert false;
  }

  lemma UndoingLifecycle(r: Runtime, a: Action)
    requires Lifecycle(r) && EnabledStart(r, a) && !WhileBuilding(a)
    ensures Lifecycle(NextStart(r, a))
  {
    hide Lifecycle;
    match a
    case UndoAsks(t) =>
      var tr := r.threads[t].transport;
      StatusKeeps(r, tr, Asked);
      MoveKeeps(r.(transports := r.transports[tr := Asked]), t, Undoing(tr, Sent));
    case UndoProves(t) => UndoneKeeps(r, t);
    case UndoFails(t) => MoveKeeps(r, t, Failing(Some(r.threads[t].transport)));
    case Quarantines(t) => QuarantinesKeeps(r, t);
    case Finishes(t) => FinishKeeps(r, t, r.retiring && (r.quarantined || !r.constructions[t].releasesFence));
    case CallerCancels(t) => SameKeysKeep(r, r.constructions[t := r.constructions[t].(provisional := false)]);
    case _ => assert false;
  }

  lemma WithdrawsKeeps(r: Runtime, t: nat)
    requires Lifecycle(r) && EnabledStop(r, Withdraws(t))
    ensures Lifecycle(NextStop(r, Withdraws(t)))
  {
    hide OneBuilder, AllOwned, Withdraw;
    var again := r.threads[t].again;
    if r.quarantined {
      MoveKeeps(r, t, Stopped(false, again));
    } else if r.current.None? {
      NobodyStops(r, t);
      FenceKeeps(r, again);
      MoveKeeps(r.(retiring := again), t, Stopped(true, again));
    } else {
      WithdrawKeeps(r, t, again);
    }
  }

  lemma LowersKeeps(r: Runtime, t: nat)
    requires Lifecycle(r) && EnabledStop(r, LowersFence(t))
    ensures Lifecycle(NextStop(r, LowersFence(t)))
  {
    hide OneBuilder, AllOwned;
    var pc := r.threads[t];
    NobodyStops(r, t);
    FenceKeeps(r, r.retiring && pc.again);
    MoveKeeps(r.(retiring := r.retiring && pc.again), t, Stopped(!pc.late, pc.again));
  }

  lemma EndsKeeps(r: Runtime, t: nat)
    requires Lifecycle(r) && EnabledStop(r, Ends(t))
    ensures Lifecycle(NextStop(r, Ends(t)))
  {
    hide OneBuilder, AllOwned, Register;
    var pc := r.threads[t];
    var unlocked := EndThread(r.(holder := None), t);
    UnlockKeeps(r, t);
    NobodyStops(r, t);
    if pc.again && !pc.ok && !r.quarantined {
      MoveKeeps(r, t, Clearing);
    } else if pc.again && pc.ok && Registers(r, true) {
      IdleIsClosed(r);
      assert AllClosed(unlocked);
      RegisterKeeps(unlocked, t, true);
      assert Register(unlocked, t, true) == Register(r.(holder := None), t, true) by { Overwritten(r.(holder := None), t); }
    }
  }

  lemma Overwritten(r: Runtime, t: nat)
    ensures Register(EndThread(r, t), t, true) == Register(r, t, true)
  {
  }

  lemma ClearsKeeps(r: Runtime, t: nat)
    requires Lifecycle(r) && EnabledStop(r, Clears(t))
    ensures Lifecycle(NextStop(r, Clears(t)))
  {
    hide OneBuilder, AllOwned;
    NobodyStops(r, t);
    FenceKeeps(r, false);
    UnlockKeeps(r.(retiring := false), t);
  }

  lemma StopAsksKeeps(r: Runtime, t: nat)
    requires Lifecycle(r) && EnabledStop(r, StopAsks(t))
    ensures Lifecycle(NextStop(r, StopAsks(t)))
  {
    hide Lifecycle;
    var pc := r.threads[t];
    var tr := r.generations[pc.generation].transport;
    StatusKeeps(r, tr, Asked);
    MoveKeeps(r.(transports := r.transports[tr := Asked]), t, Retiring(pc.generation, Sent, pc.late, pc.again));
  }

  lemma StopLifecycle(r: Runtime, a: Action)
    requires Lifecycle(r) && EnabledStop(r, a)
    ensures Lifecycle(NextStop(r, a))
  {
    hide Lifecycle, EnabledStop, NextStop;
    if BeforeDrain(a) { EarlyLifecycle(r, a); } else { LateLifecycle(r, a); }
  }

  lemma EarlyLifecycle(r: Runtime, a: Action)
    requires Lifecycle(r) && EnabledStop(r, a) && BeforeDrain(a)
    ensures Lifecycle(NextStop(r, a))
  {
    hide Lifecycle;
    match a
    case StopBegins(t, again) =>
      assert CancelAll(r.constructions).Keys == r.constructions.Keys;
      SameKeysKeep(r, CancelAll(r.constructions));
      MoveKeeps(r.(constructions := CancelAll(r.constructions)), t, Cancelling(r.constructions.Keys, again));
    case CancelsDone(t) => MoveKeeps(r, t, Waiting(r.threads[t].again));
    case CancelsTimeOut(t) => MoveKeeps(r, t, TimedOut);
    case Locks(t) => LockKeeps(r, t, r.threads[t].again);
    case Withdraws(t) => WithdrawsKeeps(r, t);
    case DrainEnds(t) => MoveKeeps(r, t, Retiring(r.threads[t].generation, Ready, false, r.threads[t].again));
    case DrainTimesOut(t) => MoveKeeps(r, t, Overdue(r.threads[t].generation, r.threads[t].again));
    case _ => assert false;
  }

  lemma LateLifecycle(r: Runtime, a: Action)
    requires Lifecycle(r) && EnabledStop(r, a) && !BeforeDrain(a)
    ensures Lifecycle(NextStop(r, a))
  {
    hide Lifecycle;
    match a
    case ChecksCallbacks(t) => 
      var g := r.threads[t].generation;
      MoveKeeps(r, t, if r.generations[g].active > 0 then Unproved(g) else Retiring(g, Ready, true, r.threads[t].again));
    case StopAsks(t) => StopAsksKeeps(r, t);
    case StopProves(t) => ProvedKeeps(r, t, r.threads[t].late, r.threads[t].again);
    case StopFails(t) => MoveKeeps(r, t, Unproved(r.threads[t].generation));
    case LowersFence(t) => LowersKeeps(r, t);
    case Ends(t) => EndsKeeps(r, t);
    case Clears(t) => ClearsKeeps(r, t);
    case _ => assert false;
  }

  lemma CountsApart(r: Runtime, g: nat, gen: Generation)
    requires Lifecycle(r) && g in r.generations && gen.transport == r.generations[g].transport
    ensures Lifecycle(SetGeneration(r, g, gen))
  {
    var n := SetGeneration(r, g, gen);
    forall tr | Unclosed(n, tr)
      ensures Owned(n, tr)
    {
      assert Unclosed(r, tr) && Owned(r, tr);
    }
  }

  lemma LeaseApart(r: Runtime, l: nat, lease: Lease)
    requires Lifecycle(r)
    ensures Lifecycle(SetLease(r, l, lease))
  {
    var n := SetLease(r, l, lease);
    forall tr | Unclosed(n, tr)
      ensures Owned(n, tr)
    {
      assert Unclosed(r, tr) && Owned(r, tr);
    }
  }

  lemma LeaseLifecycle(r: Runtime, a: Action)
    requires Lifecycle(r) && EnabledLease(r, a)
    ensures Lifecycle(NextLease(r, a))
  {
    hide Lifecycle;
    match a
    case AdapterCloses(tr) => StatusKeeps(r, tr, Closed);
    case LeaseAdmits(l) =>
      var g := r.current.value;
      var gen := r.generations[g].(inFlight := r.generations[g].inFlight + 1);
      CountsApart(r, g, gen);
      LeaseApart(SetGeneration(r, g, gen), l, Lease(g, Idle, false, false));
    case LeaseClaims(l) => LeaseApart(r, l, r.leases[l].(phase := Claimed, invoked := true));
    case LeaseCalls(l) =>
      var g := r.leases[l].generation;
      var gen := r.generations[g].(active := r.generations[g].active + 1);
      CountsApart(r, g, gen);
      LeaseApart(SetGeneration(r, g, gen), l, r.leases[l].(phase := Calling));
      LeaseApart(r, l, r.leases[l].(phase := Over));
    case CallbackEnds(l) =>
      var g := r.leases[l].generation;
      var gen := r.generations[g].(active := r.generations[g].active - 1);
      CountsApart(r, g, gen);
      LeaseApart(SetGeneration(r, g, gen), l, r.leases[l].(phase := Over));
    case LeaseAccounts(l) => LeaseApart(r, l, r.leases[l].(phase := if r.leases[l].pending then Releasing else Idle));
    case LeaseReleases(l) =>
      LeaseApart(r, l, r.leases[l].(phase := Releasing));
      LeaseApart(r, l, r.leases[l].(pending := true));
    case LeaseReturns(l) =>
      var g := r.leases[l].generation;
      CountsApart(r, g, GiveBack(r.generations[g]));
      LeaseApart(SetGeneration(r, g, GiveBack(r.generations[g])), l, r.leases[l].(phase := Done));
    case _ => assert false;
  }

  // ---- Counts ----

  function One(b: bool): nat {
    if b then 1 else 0
  }

  predicate IsOpen(leases: map<nat, Lease>, l: nat, g: nat) {
    l in leases && leases[l].generation == g && leases[l].phase != Done
  }

  predicate IsRunning(leases: map<nat, Lease>, l: nat, g: nat) {
    l in leases && leases[l].generation == g && leases[l].phase == Calling
  }

  lemma SizeSplits(s: set<nat>, l: nat)
    ensures |s| == |s - {l}| + One(l in s)
  {
    if l in s {
      assert s == (s - {l}) + {l};
    } else {
      assert s == s - {l};
    }
  }

  /** One lease changes; every count moves by that lease alone. */
  lemma Recounted(leases: map<nat, Lease>, l: nat, lease: Lease, g: nat)
    ensures var n := leases[l := lease];
      && |OpenLeases(n, g)| - One(IsOpen(n, l, g)) == |OpenLeases(leases, g)| - One(IsOpen(leases, l, g))
      && |RunningLeases(n, g)| - One(IsRunning(n, l, g)) == |RunningLeases(leases, g)| - One(IsRunning(leases, l, g))
  {
    hide OpenLeases, RunningLeases, IsOpen, IsRunning;
    RecountedOpen(leases, l, lease, g);
    RecountedRunning(leases, l, lease, g);
  }

  lemma Elsewhere(leases: map<nat, Lease>, l: nat, lease: Lease)
    ensures forall x, g :: x != l ==> IsOpen(leases[l := lease], x, g) == IsOpen(leases, x, g)
    ensures forall x, g :: x != l ==> IsRunning(leases[l := lease], x, g) == IsRunning(leases, x, g)
  {
  }

  lemma RecountedOpen(leases: map<nat, Lease>, l: nat, lease: Lease, g: nat)
    ensures var n := leases[l := lease];
      |OpenLeases(n, g)| - One(IsOpen(n, l, g)) == |OpenLeases(leases, g)| - One(IsOpen(leases, l, g))
  {
    var n := leases[l := lease];
    var had, has := OpenLeases(leases, g), OpenLeases(n, g);
    Elsewhere(leases, l, lease);
    assert forall x :: x in had <==> IsOpen(leases, x, g);
    assert forall x :: x in has <==> IsOpen(n, x, g);
    assert had - {l} == has - {l};
    SizeSplits(had, l);
    SizeSplits(has, l);
  }

  lemma RecountedRunning(leases: map<nat, Lease>, l: nat, lease: Lease, g: nat)
    ensures var n := leases[l := lease];
      |RunningLeases(n, g)| - One(IsRunning(n, l, g)) == |RunningLeases(leases, g)| - One(IsRunning(leases, l, g))
  {
    var n := leases[l := lease];
    var had, has := RunningLeases(leases, g), RunningLeases(n, g);
    Elsewhere(leases, l, lease);
    assert forall x :: x in had <==> IsRunning(leases, x, g);
    assert forall x :: x in has <==> IsRunning(n, x, g);
    assert had - {l} == has - {l};
    SizeSplits(had, l);
    SizeSplits(has, l);
  }

  lemma SameLeaseCounts(r: Runtime, l: nat, lease: Lease)
    requires Counted(r) && l in r.leases && lease.generation == r.leases[l].generation
    requires (lease.phase == Done <==> r.leases[l].phase == Done) && (lease.phase == Calling <==> r.leases[l].phase == Calling)
    ensures Counted(SetLease(r, l, lease))
  {
    hide OpenLeases, RunningLeases;
    var n := SetLease(r, l, lease);
    forall g | g in n.generations
      ensures GenerationSound(n, g)
    {
      assert GenerationSound(r, g);
      Recounted(r.leases, l, lease, g);
    }
  }

  lemma AdmitsCounts(r: Runtime, l: nat)
    requires Counted(r) && EnabledLease(r, LeaseAdmits(l))
    ensures Counted(NextLease(r, LeaseAdmits(l)))
  {
    hide OpenLeases, RunningLeases;
    var n := NextLease(r, LeaseAdmits(l));
    forall g | g in n.generations
      ensures GenerationSound(n, g)
    {
      assert GenerationSound(r, g);
      Recounted(r.leases, l, n.leases[l], g);
    }
  }

  /** The three steps that move a count: a call begins, a call ends, an admission is given back. */
  lemma RephaseCounts(r: Runtime, l: nat, p: Phase, gen: Generation)
    requires Counted(r) && l in r.leases && r.leases[l].phase != Done
    requires var was := r.generations[r.leases[l].generation];
      && gen.transport == was.transport && gen.accepting == was.accepting
      && gen.active == was.active + (if p == Calling then 1 else 0) - (if r.leases[l].phase == Calling then 1 else 0)
      && gen.inFlight == was.inFlight - (if p == Done then 1 else 0)
      && gen.drains == (if !gen.accepting && gen.inFlight == 0 then 1 else 0)
    requires p == Calling ==> r.generations[r.leases[l].generation].accepting
    requires p == Calling ==> forall t :: t in r.threads && r.threads[t].Retiring? ==> r.threads[t].generation != r.leases[l].generation
    ensures Counted(SetLease(SetGeneration(r, r.leases[l].generation, gen), l, r.leases[l].(phase := p)))
  {
    hide OpenLeases, RunningLeases;
    var n := SetLease(SetGeneration(r, r.leases[l].generation, gen), l, r.leases[l].(phase := p));
    forall g | g in n.generations
      ensures GenerationSound(n, g)
    {
      assert GenerationSound(r, g);
      Recounted(r.leases, l, n.leases[l], g);
    }
  }

  /** Someone who is not counted cannot be running; someone counted is. */
  lemma OpenIsCounted(r: Runtime, l: nat)
    requires Counted(r) && l in r.leases && r.leases[l].phase != Done
    ensures r.generations[r.leases[l].generation].inFlight > 0
    ensures r.leases[l].phase == Calling ==> r.generations[r.leases[l].generation].active > 0
  {
    var g := r.leases[l].generation;
    assert GenerationSound(r, g);
    assert l in OpenLeases(r.leases, g);
    assert r.leases[l].phase == Calling ==> l in RunningLeases(r.leases, g);
  }

  lemma LeaseCounts(r: Runtime, a: Action)
    requires Inv(r) && EnabledLease(r, a)
    ensures Counted(NextLease(r, a))
  {
    hide Counted, Lifecycle;
    match a
    case AdapterCloses(tr) => ApartCounts(r, NextLease(r, a));
    case LeaseAdmits(l) => AdmitsCounts(r, l);
    case LeaseClaims(l) => SameLeaseCounts(r, l, r.leases[l].(phase := Claimed, invoked := true));
    case LeaseCalls(l) => CallsCounts(r, l);
    case CallbackEnds(l) => CallEndsCounts(r, l);
    case LeaseAccounts(l) => SameLeaseCounts(r, l, r.leases[l].(phase := if r.leases[l].pending then Releasing else Idle));
    case LeaseReleases(l) => ReleasesCounts(r, l);
    case LeaseReturns(l) => ReturnsCounts(r, l);
    case _ => assert false;
  }

  lemma ReleasesCounts(r: Runtime, l: nat)
    requires Counted(r) && l in r.leases
    ensures Counted(NextLease(r, LeaseReleases(l)))
  {
    hide Counted;
    var lease := r.leases[l];
    if lease.phase == Idle { SameLeaseCounts(r, l, lease.(phase := Releasing)); }
    SameLeaseCounts(r, l, lease.(pending := true));
  }

  lemma CallsCounts(r: Runtime, l: nat)
    requires Inv(r) && EnabledLease(r, LeaseCalls(l))
    ensures Counted(NextLease(r, LeaseCalls(l)))
  {
    hide OneBuilder, AllOwned, OpenLeases, RunningLeases;
    var g := r.leases[l].generation;
    assert GenerationSound(r, g);
    if Callable(r, g) {
      RephaseCounts(r, l, Calling, r.generations[g].(active := r.generations[g].active + 1));
    } else {
      SameLeaseCounts(r, l, r.leases[l].(phase := Over));
    }
  }

  lemma CallEndsCounts(r: Runtime, l: nat)
    requires Inv(r) && EnabledLease(r, CallbackEnds(l))
    ensures Counted(NextLease(r, CallbackEnds(l)))
  {
    hide OneBuilder, AllOwned, OneStopper, OpenLeases, RunningLeases;
    var g := r.leases[l].generation;
    assert GenerationSound(r, g);
    RephaseCounts(r, l, Over, r.generations[g].(active := r.generations[g].active - 1));
  }

  lemma ReturnsCounts(r: Runtime, l: nat)
    requires Inv(r) && EnabledLease(r, LeaseReturns(l))
    ensures Counted(NextLease(r, LeaseReturns(l)))
  {
    hide OneBuilder, AllOwned, OneStopper, OpenLeases, RunningLeases;
    var g := r.leases[l].generation;
    assert GenerationSound(r, g);
    OpenIsCounted(r, l);
    RephaseCounts(r, l, Done, GiveBack(r.generations[g]));
  }

  /** Steps that touch neither generations nor leases, and start no retirement. */
  lemma ApartCounts(r: Runtime, n: Runtime)
    requires Counted(r)
    requires n.generations == r.generations && n.leases == r.leases && n.current == r.current && n.top == r.top
    requires r.transports.Keys <= n.transports.Keys
    requires forall t :: t in n.threads && n.threads[t].Retiring? ==>
               (t in r.threads && r.threads[t].Retiring? && r.threads[t].generation == n.threads[t].generation) ||
               (n.threads[t].generation in r.generations && r.generations[n.threads[t].generation].active == 0)
    ensures Counted(n)
  {
    hide OpenLeases, RunningLeases;
    forall g | g in n.generations
      ensures GenerationSound(n, g)
    {
      assert GenerationSound(r, g);
      assert r.generations[g].transport in r.transports.Keys;
    }
  }

  lemma PublishCounts(r: Runtime, t: nat)
    requires Inv(r) && EnabledStart(r, Admits(t))
    ensures Counted(Publish(r, t, r.threads[t].transport))
  {
    hide OneStopper, StopperOwns;
    var n := Publish(r, t, r.threads[t].transport);
    forall g | g in n.generations
      ensures GenerationSound(n, g)
    {
      if g in r.generations {
        assert GenerationSound(r, g);
      } else {
        assert OpenLeases(r.leases, g) == {};
        assert RunningLeases(r.leases, g) == {};
      }
    }
  }

  lemma ThreadCounts(r: Runtime, t: nat, pc: Thread)
    requires Counted(r)
    requires pc.Retiring? ==> pc.generation in r.generations && r.generations[pc.generation].active == 0
    ensures Counted(SetThread(r, t, pc))
  {
    hide GenerationSound;
    ApartCounts(r, SetThread(r, t, pc));
  }

  lemma FlagCounts(r: Runtime, quarantined: bool, retiring: bool, holder: Option<nat>, constructions: map<nat, Building>)
    requires Counted(r)
    ensures Counted(r.(quarantined := quarantined, retiring := retiring, holder := holder, constructions := constructions))
  {
    ApartCounts(r, r.(quarantined := quarantined, retiring := retiring, holder := holder, constructions := constructions));
  }

  lemma TransportCounts(r: Runtime, tr: nat, s: Adapter)
    requires Counted(r)
    ensures Counted(r.(transports := r.transports[tr := s]))
  {
    ApartCounts(r, r.(transports := r.transports[tr := s]));
  }

  lemma FactoryCounts(r: Runtime, t: nat, o: Outcome)
    requires Counted(r)
    ensures Counted(AfterFactory(r, t, o))
  {
    hide Counted;
    match o
    case NoTransport => ThreadCounts(r, t, Leaving(None));
    case ErrorWith(tr) =>
      TransportCounts(r, tr, Live);
      ThreadCounts(r.(transports := r.transports[tr := Live]), t, Undoing(tr, Ready));
    case Invalid(tr) =>
      if tr.Some? {
        TransportCounts(r, tr.value, Live);
        ThreadCounts(r.(transports := r.transports[tr.value := Live]), t, Failing(tr));
      } else {
        ThreadCounts(r, t, Failing(tr));
      }
    case Valid(tr) =>
      TransportCounts(r, tr, Live);
      ThreadCounts(r.(transports := r.transports[tr := Live]), t, Built(tr));
  }

  lemma QuarantinesCounts(r: Runtime, t: nat)
    requires Counted(r) && EnabledStart(r, Quarantines(t))
    ensures Counted(NextStart(r, Quarantines(t)))
  {
    hide Counted;
    FlagCounts(r, true, r.retiring, r.holder, r.constructions);
    FlagCounts(r, true, r.retiring, None, r.constructions);
    var q := r.(quarantined := true);
    if r.threads[t].Failing? { ThreadCounts(q, t, Leaving(r.threads[t].left)); }
    ThreadCounts(q.(holder := None), t, Ended);
    ThreadCounts(q, t, Ended);
  }

  lemma StartCounts(r: Runtime, a: Action)
    requires Inv(r) && EnabledStart(r, a)
    ensures Counted(NextStart(r, a))
  {
    hide Lifecycle, Counted, AfterFactory, Publish;
    match a
    case StartRegisters(t) =>
      var c := r.constructions[t := Building(true, false)];
      FlagCounts(r, r.quarantined, r.retiring, r.holder, c);
      ThreadCounts(r.(constructions := c), t, Reserved);
    case StartChecks(t) => ThreadCounts(r, t, if FactoryMayRun(r, t) then Constructing else Leaving(None));
    case FactoryReturns(t, o) => FactoryCounts(r, t, o);
    case Admits(t) => PublishCounts(r, t);
    case AdmissionRefused(t) => ThreadCounts(r, t, Undoing(r.threads[t].transport, Ready));
    case UndoAsks(t) =>
      var tr := r.threads[t].transport;
      TransportCounts(r, tr, Asked);
      ThreadCounts(r.(transports := r.transports[tr := Asked]), t, Undoing(tr, Sent));
    case UndoProves(t) => ThreadCounts(r, t, Leaving(None));
    case UndoFails(t) => ThreadCounts(r, t, Failing(Some(r.threads[t].transport)));
    case Quarantines(t) => QuarantinesCounts(r, t);
    case Finishes(t) =>
      var fence := r.retiring && (r.quarantined || !r.constructions[t].releasesFence);
      FlagCounts(r, r.quarantined, fence, r.holder, r.constructions - {t});
      ThreadCounts(r.(constructions := r.constructions - {t}, retiring := fence), t, Ended);
    case CallerCancels(t) =>
      FlagCounts(r, r.quarantined, r.retiring, r.holder, r.constructions[t := r.constructions[t].(provisional := false)]);
    case _ => assert false;
  }

  // ---- Stopping ----

  /** Closing the drained channel at withdrawal is its first close, and only if nothing is in flight. */
  lemma WithdrawCounts(r: Runtime, t: nat)
    requires Counted(r) && r.current.Some?
    ensures Counted(Withdraw(r, t, r.current.value, r.retiring)) && Counted(Withdraw(r, t, r.current.value, !r.retiring))
  {
    hide OpenLeases, RunningLeases;
    var n := Withdraw(r, t, r.current.value, r.retiring);
    forall g | g in n.generations
      ensures GenerationSound(n, g) && GenerationSound(Withdraw(r, t, r.current.value, !r.retiring), g)
    {
      assert GenerationSound(r, g);
    }
  }

  lemma WithdrawsCounts(r: Runtime, t: nat)
    requires Counted(r) && EnabledStop(r, Withdraws(t))
    ensures Counted(NextStop(r, Withdraws(t)))
  {
    hide Counted, Withdraw;
    var again := r.threads[t].again;
    ThreadCounts(r, t, Stopped(false, again));
    FlagCounts(r, r.quarantined, again, r.holder, r.constructions);
    ThreadCounts(r.(retiring := again), t, Stopped(true, again));
    if r.current.Some? { WithdrawCounts(r, t); }
  }

  /** A drained generation has no lease left, so no callback either. */
  lemma DrainedIsQuiet(r: Runtime, g: nat)
    requires Counted(r) && g in r.generations && r.generations[g].drains > 0
    ensures r.generations[g].active == 0
  {
    assert GenerationSound(r, g);
    assert RunningLeases(r.leases, g) <= OpenLeases(r.leases, g);
    assert OpenLeases(r.leases, g) == {};
  }

  lemma EndsCounts(r: Runtime, t: nat)
    requires Counted(r) && EnabledStop(r, Ends(t))
    ensures Counted(NextStop(r, Ends(t)))
  {
    hide Counted;
    ThreadCounts(r, t, Clearing);
    FlagCounts(r, r.quarantined, r.retiring, None, r.constructions);
    ThreadCounts(r.(holder := None), t, Ended);
    var c := r.constructions[t := Building(true, true)];
    FlagCounts(r, r.quarantined, r.retiring, None, c);
    ThreadCounts(r.(holder := None, constructions := c), t, Reserved);
  }

  lemma StopCounts(r: Runtime, a: Action)
    requires Inv(r) && EnabledStop(r, a)
    ensures Counted(NextStop(r, a))
  {
    hide Lifecycle, Counted, CancelAll;
    match a
    case StopBegins(t, again) =>
      FlagCounts(r, r.quarantined, r.retiring, r.holder, CancelAll(r.constructions));
      ThreadCounts(r.(constructions := CancelAll(r.constructions)), t, Cancelling(r.constructions.Keys, again));
    case CancelsDone(t) => ThreadCounts(r, t, Waiting(r.threads[t].again));
    case CancelsTimeOut(t) => ThreadCounts(r, t, TimedOut);
    case Locks(t) =>
      FlagCounts(r, r.quarantined, r.retiring, Some(t), r.constructions);
      ThreadCounts(r.(holder := Some(t)), t, Locked(r.threads[t].again));
    case Withdraws(t) => WithdrawsCounts(r, t);
    case DrainEnds(t) =>
      DrainedIsQuiet(r, r.threads[t].generation);
      ThreadCounts(r, t, Retiring(r.threads[t].generation, Ready, false, r.threads[t].again));
    case DrainTimesOut(t) => ThreadCounts(r, t, Overdue(r.threads[t].generation, r.threads[t].again));
    case ChecksCallbacks(t) => ChecksCounts(r, t);
    case StopAsks(t) => AsksCounts(r, t);
    case StopProves(t) => ThreadCounts(r, t, Proved(r.threads[t].late, r.threads[t].again));
    case StopFails(t) => ThreadCounts(r, t, Unproved(r.threads[t].generation));
    case LowersFence(t) =>
      var pc := r.threads[t];
      FlagCounts(r, r.quarantined, r.retiring && pc.again, r.holder, r.constructions);
      ThreadCounts(r.(retiring := r.retiring && pc.again), t, Stopped(!pc.late, pc.again));
    case Ends(t) => EndsCounts(r, t);
    case Clears(t) =>
      FlagCounts(r, r.quarantined, false, None, r.constructions);
      ThreadCounts(r.(retiring := false, holder := None), t, Ended);
    case _ => assert false;
  }

  lemma ChecksCounts(r: Runtime, t: nat)
    requires Counted(r) && EnabledStop(r, ChecksCallbacks(t))
    ensures Counted(NextStop(r, ChecksCallbacks(t)))
  {
    hide OpenLeases, RunningLeases;
    var g := r.threads[t].generation;
    assert GenerationSound(r, g);
    ThreadCounts(r, t, if r.generations[g].active > 0 then Unproved(g) else Retiring(g, Ready, true, r.threads[t].again));
  }

  lemma AsksCounts(r: Runtime, t: nat)
    requires Counted(r) && EnabledStop(r, StopAsks(t))
    ensures Counted(NextStop(r, StopAsks(t)))
  {
    hide GenerationSound;
    var pc := r.threads[t];
    var tr := r.generations[pc.generation].transport;
    TransportCounts(r, tr, Asked);
    ThreadCounts(r.(transports := r.transports[tr := Asked]), t, Retiring(pc.generation, Sent, pc.late, pc.again));
  }

  // ---- Every run ----

  lemma StepSound(r: Runtime, a: Action)
    requires Inv(r) && Enabled(r, a)
    ensures Inv(Next(r, a))
  {
    hide Lifecycle, Counted, EnabledStart, EnabledStop, EnabledLease, NextStart, NextStop, NextLease;
    if EnabledStart(r, a) {
      StartLifecycle(r, a);
      StartCounts(r, a);
    } else if EnabledStop(r, a) {
      StopLifecycle(r, a);
      StopCounts(r, a);
    } else {
      LeaseLifecycle(r, a);
      LeaseCounts(r, a);
    }
  }

  const DORMANT := Runtime(false, false, None, 0, map[], map[], None, map[], map[], map[])

  predicate Run(r: Runtime, trace: seq<Action>, end: Runtime)
    decreases trace
  {
    if trace == [] then r == end else Enabled(r, trace[0]) && Run(Next(r, trace[0]), trace[1..], end)
  }

  ghost predicate Reachable(r: Runtime) {
    exists trace :: Run(DORMANT, trace, r)
  }

  lemma {:induction false} RunSound(r: Runtime, trace: seq<Action>, end: Runtime)
    requires Inv(r) && Run(r, trace, end)
    ensures Inv(end)
    decreases trace
  {
    hide Inv, Next, Enabled;
    if trace != [] {
      StepSound(r, trace[0]);
      RunSound(Next(r, trace[0]), trace[1..], end);
    }
  }

  lemma ReachableSound(r: Runtime)
    requires Reachable(r)
    ensures Inv(r)
  {
    hide Run;
    var trace :| Run(DORMANT, trace, r);
    RunSound(DORMANT, trace, r);
  }

  /** A factory starts, and runs, only while every transport ever built is closed. */
  lemma FactoryRunsAlone(r: Runtime, t: nat)
    requires Reachable(r) && t in r.threads && r.threads[t].Constructing?
    ensures AllClosed(r) && r.current.None?
    ensures forall x :: x in r.threads && r.threads[x].Constructing? ==> x == t
  {
    hide Reachable, Counted, OneStopper, AllOwned;
    ReachableSound(r);
    FactoryHasAllClosed(r, t);
  }

  /**
    A close request reaches an admitted generation only when no callback runs on it, and from then
    on none can start.
    */
  lemma CloseRequestIsQuiet(r: Runtime, t: nat, l: nat)
    requires Reachable(r) && EnabledStop(r, StopAsks(t))
    ensures var g := r.threads[t].generation;
      && !Callable(r, g) && !r.generations[g].accepting
      && (l in r.leases && r.leases[l].generation == g ==> r.leases[l].phase != Calling)
  {
    hide Reachable, OneBuilder, AllOwned, OpenLeases, RunningLeases;
    ReachableSound(r);
    assert GenerationSound(r, r.threads[t].generation);
    if l in r.leases && r.leases[l].phase == Calling { OpenIsCounted(r, l); }
  }

  /** Withdrawn is withdrawn: no later state lets a callback of that generation start. */
  lemma {:induction false} WithdrawnForGood(r: Runtime, trace: seq<Action>, end: Runtime, g: nat)
    requires Inv(r) && Run(r, trace, end) && g in r.generations && !r.generations[g].accepting
    ensures g in end.generations && !end.generations[g].accepting && !Callable(end, g)
    decreases trace
  {
    hide Inv, Next, Enabled;
    if trace != [] {
      StepSound(r, trace[0]);
      WithdrawnStays(r, trace[0], g);
      WithdrawnForGood(Next(r, trace[0]), trace[1..], end, g);
    }
  }

  lemma WithdrawnStays(r: Runtime, a: Action, g: nat)
    requires Inv(r) && Enabled(r, a) && g in r.generations && !r.generations[g].accepting
    ensures g in Next(r, a).generations && !Next(r, a).generations[g].accepting
  {
    hide Lifecycle, Counted, EnabledStart, EnabledStop, EnabledLease, NextStart, NextStop, NextLease;
    if EnabledStart(r, a) {
      WithdrawnStart(r, a, g);
    } else if EnabledStop(r, a) {
      WithdrawnStop(r, a, g);
    } else {
      WithdrawnLease(r, a, g);
    }
  }

  lemma WithdrawnStart(r: Runtime, a: Action, g: nat)
    requires Counted(r) && EnabledStart(r, a) && g in r.generations && !r.generations[g].accepting
    ensures g in NextStart(r, a).generations && !NextStart(r, a).generations[g].accepting
  {
    hide OpenLeases, RunningLeases;
    if a.Admits? {
      assert GenerationSound(r, g);
    } else {
      hide *;
      OnlyAdmissionMakes(r, a);
    }
  }

  lemma OnlyAdmissionMakes(r: Runtime, a: Action)
    requires EnabledStart(r, a) && !a.Admits?
    ensures NextStart(r, a).generations == r.generations
  {
    hide AfterFactory, FactoryMayRun, Produces;
    if a.FactoryReturns? { FactoryReturnsOnce(r, a.t, a.outcome); }
  }

  lemma WithdrawnStop(r: Runtime, a: Action, g: nat)
    requires EnabledStop(r, a) && g in r.generations && !r.generations[g].accepting
    ensures g in NextStop(r, a).generations && !NextStop(r, a).generations[g].accepting
  {
    if !a.Withdraws? {
      hide *;
      OnlyWithdrawalChanges(r, a);
    }
  }

  lemma OnlyWithdrawalChanges(r: Runtime, a: Action)
    requires EnabledStop(r, a) && !a.Withdraws?
    ensures NextStop(r, a).generations == r.generations
  {
    hide CancelAll, Registers, EnabledStop, NextStop;
    if BeforeDrain(a) { EarlyChangesNone(r, a); } else if a.Ends? { EndChangesNone(r, a); } else { LateChangesNone(r, a); }
  }

  predicate BeforeDrain(a: Action) {
    a.StopBegins? || a.CancelsDone? || a.CancelsTimeOut? || a.Locks? || a.Withdraws? || a.DrainEnds? || a.DrainTimesOut?
  }

  lemma EarlyChangesNone(r: Runtime, a: Action)
    requires EnabledStop(r, a) && BeforeDrain(a) && !a.Withdraws?
    ensures NextStop(r, a).generations == r.generations
  {
    hide CancelAll, EnabledStop;
  }

  lemma EndChangesNone(r: Runtime, a: Action)
    requires EnabledStop(r, a) && a.Ends?
    ensures NextStop(r, a).generations == r.generations
  {
    hide Registers, Register, EndThread, SetThread;
    MovesAlone(r, a.t, Clearing);
    MovesAlone(r.(holder := None), a.t, Ended);
    RegisterAlone(r.(holder := None), a.t);
  }

  lemma MovesAlone(r: Runtime, t: nat, pc: Thread)
    ensures SetThread(r, t, pc).generations == r.generations && EndThread(r, t).generations == r.generations
  {
  }

  lemma RegisterAlone(r: Runtime, t: nat)
    ensures Register(r, t, true).generations == r.generations
  {
  }

  lemma LateChangesNone(r: Runtime, a: Action)
    requires EnabledStop(r, a) && !BeforeDrain(a) && !a.Ends?
    ensures NextStop(r, a).generations == r.generations
  {
  }

  lemma WithdrawnLease(r: Runtime, a: Action, g: nat)
    requires EnabledLease(r, a) && g in r.generations && !r.generations[g].accepting
    ensures g in NextLease(r, a).generations && !NextLease(r, a).generations[g].accepting
  {
  }

  /** The drained channel of a generation is closed at most once. */
  lemma DrainedClosesOnce(r: Runtime, g: nat)
    requires Reachable(r) && g in r.generations
    ensures r.generations[g].drains <= 1
    ensures r.generations[g].drains == 1 <==> !r.generations[g].accepting && r.generations[g].inFlight == 0
  {
    hide Reachable, Lifecycle, OpenLeases, RunningLeases;
    ReachableSound(r);
    assert GenerationSound(r, g);
  }

  /** Quarantine is permanent: nothing lifts it, and it admits, builds and calls nothing more. */
  lemma {:induction false} QuarantineIsPermanent(r: Runtime, trace: seq<Action>, end: Runtime)
    requires r.quarantined && Run(r, trace, end)
    ensures Shut(r, end)
    decreases trace
  {
    hide Next, Enabled;
    if trace != [] {
      QuarantineStays(r, trace[0]);
      QuarantineIsPermanent(Next(r, trace[0]), trace[1..], end);
    }
  }

  /** No factory and no callback that did not run before, and no new generation. */
  ghost predicate Shut(r: Runtime, n: Runtime) {
    && n.quarantined && n.top == r.top
    && (forall t :: t in n.threads && n.threads[t].Constructing? ==> At(r, t, Constructing))
    && (forall l :: l in n.leases && n.leases[l].phase == Calling ==> l in r.leases && r.leases[l].phase == Calling)
  }

  lemma QuarantineStays(r: Runtime, a: Action)
    requires r.quarantined && Enabled(r, a)
    ensures Shut(r, Next(r, a))
  {
    hide EnabledStart, EnabledStop, EnabledLease, NextStart, NextStop, NextLease;
    if EnabledStart(r, a) {
      QuarantinedStart(r, a);
    } else if EnabledStop(r, a) {
      QuarantinedStop(r, a);
    } else {
      QuarantinedLease(r, a);
    }
  }

  lemma QuarantinedStart(r: Runtime, a: Action)
    requires r.quarantined && EnabledStart(r, a)
    ensures Shut(r, NextStart(r, a))
  {
    hide AfterFactory, NextStart;
    if a.FactoryReturns? {
      QuarantinedReturn(r, a);
    } else if a.Quarantines? || a.Finishes? || a.Admits? || a.CallerCancels? || a.StartRegisters? {
      QuarantinedEdges(r, a);
    } else {
      QuarantinedMoves(r, a);
    }
  }

  lemma QuarantinedReturn(r: Runtime, a: Action)
    requires r.quarantined && EnabledStart(r, a) && a.FactoryReturns?
    ensures Shut(r, NextStart(r, a))
  {
    hide AfterFactory;
    FactoryReturnsOnce(r, a.t, a.outcome);
  }

  lemma QuarantinedEdges(r: Runtime, a: Action)
    requires r.quarantined && EnabledStart(r, a)
    requires a.Quarantines? || a.Finishes? || a.Admits? || a.CallerCancels? || a.StartRegisters?
    ensures Shut(r, NextStart(r, a))
  {
  }

  lemma QuarantinedMoves(r: Runtime, a: Action)
    requires r.quarantined && EnabledStart(r, a)
    requires a.StartChecks? || a.AdmissionRefused? || a.UndoAsks? || a.UndoProves? || a.UndoFails?
    ensures Shut(r, NextStart(r, a))
  {
  }

  lemma FactoryReturnsOnce(r: Runtime, t: nat, o: Outcome)
    ensures var n := AfterFactory(r, t, o);
      && n.quarantined == r.quarantined && n.top == r.top && n.leases == r.leases && n.generations == r.generations
      && t in n.threads && !n.threads[t].Constructing? && n.threads == r.threads[t := n.threads[t]]
  {
  }

  lemma QuarantinedStop(r: Runtime, a: Action)
    requires r.quarantined && EnabledStop(r, a)
    ensures Shut(r, NextStop(r, a))
  {
    hide EnabledStop, NextStop;
    if BeforeDrain(a) { QuarantinedEarly(r, a); } else if a.Ends? { QuarantinedEnd(r, a); } else { QuarantinedLate(r, a); }
  }

  lemma QuarantinedEarly(r: Runtime, a: Action)
    requires r.quarantined && EnabledStop(r, a) && BeforeDrain(a)
    ensures Shut(r, NextStop(r, a))
  {
    hide CancelAll, EnabledStop;
  }

  lemma QuarantinedEnd(r: Runtime, a: Action)
    requires r.quarantined && EnabledStop(r, a) && a.Ends?
    ensures Shut(r, NextStop(r, a))
  {
  }

  lemma QuarantinedLate(r: Runtime, a: Action)
    requires r.quarantined && EnabledStop(r, a) && !BeforeDrain(a) && !a.Ends?
    ensures Shut(r, NextStop(r, a))
  {
    hide EnabledStop;
  }

  lemma QuarantinedLease(r: Runtime, a: Action)
    requires r.quarantined && EnabledLease(r, a)
    ensures Shut(r, NextLease(r, a))
  {
  }
}
