/**
  The lifecycle of one eBUS driver runtime. Start, Stop, Replace and the leases of admitted work run
  on any number of threads; every section under a mutex, and every wait, is one step of the machine.
  Which waits time out, and when an adapter closes, is left to the environment.
  */
module Driver {
  import opened Octets

  /** What the adapter behind a transport has done. */
  datatype Adapter = Live | Asked | Closed

  /** drains counts how often the drained channel was closed; a second time would panic. */
  datatype Generation = Generation(transport: nat, accepting: bool, inFlight: nat, active: int, drains: nat)

  datatype Building = Building(provisional: bool, releasesFence: bool)

  /**
    One admission: idle, its call claimed but not checked, running the callback, over but not
    accounted, or giving its admission back.
    */
  datatype Phase = Idle | Claimed | Calling | Over | Releasing | Done

  datatype Lease = Lease(generation: nat, phase: Phase, invoked: bool, pending: bool)

  /** Whose close is being proved: a generation that was admitted, or a transport that was not. */
  datatype Closing = Ready | Sent

  datatype Thread =
    // Start, and Replace once it has reserved its construction
    | Reserved
    | Constructing
    | Built(transport: nat)
    | Undoing(transport: nat, closing: Closing)
    | Failing(left: Option<nat>)
    | Leaving(left: Option<nat>)
    // Stop and Replace
    | Cancelling(awaited: set<nat>, again: bool)
    | TimedOut
    | Waiting(again: bool)
    | Locked(again: bool)
    | Draining(generation: nat, again: bool)
    | Overdue(generation: nat, again: bool)
    | Retiring(generation: nat, closing: Closing, late: bool, again: bool)
    | Unproved(generation: nat)
    | Proved(late: bool, again: bool)
    | Stopped(ok: bool, again: bool)
    | Clearing
    | Ended

  datatype Runtime = Runtime(
    quarantined: bool, retiring: bool, current: Option<nat>, top: nat, generations: map<nat, Generation>,
    constructions: map<nat, Building>, holder: Option<nat>, threads: map<nat, Thread>, transports: map<nat, Adapter>,
    leases: map<nat, Lease>)

  datatype Outcome = NoTransport | ErrorWith(transport: nat) | Invalid(left: Option<nat>) | Valid(transport: nat)

  datatype Action =
    | StartRegisters(t: nat)
    | StartChecks(t: nat)
    | FactoryReturns(t: nat, outcome: Outcome)
    | Admits(t: nat)
    | AdmissionRefused(t: nat)
    | UndoAsks(t: nat)
    | UndoProves(t: nat)
    | UndoFails(t: nat)
    | Quarantines(t: nat)
    | Finishes(t: nat)
    | CallerCancels(t: nat)
    | StopBegins(t: nat, again: bool)
    | CancelsDone(t: nat)
    | CancelsTimeOut(t: nat)
    | Locks(t: nat)
    | Withdraws(t: nat)
    | DrainEnds(t: nat)
    | DrainTimesOut(t: nat)
    | ChecksCallbacks(t: nat)
    | StopAsks(t: nat)
    | StopProves(t: nat)
    | StopFails(t: nat)
    | LowersFence(t: nat)
    | Ends(t: nat)
    | Clears(t: nat)
    | AdapterCloses(transport: nat)
    | LeaseAdmits(l: nat)
    | LeaseClaims(l: nat)
    | LeaseCalls(l: nat)
    | CallbackEnds(l: nat)
    | LeaseAccounts(l: nat)
    | LeaseReleases(l: nat)
    | LeaseReturns(l: nat)

  function SetThread(r: Runtime, t: nat, pc: Thread): Runtime {
    r.(threads := r.threads[t := pc])
  }

  function EndThread(r: Runtime, t: nat): Runtime {
    SetThread(r, t, Ended)
  }

  predicate At(r: Runtime, t: nat, pc: Thread) {
    t in r.threads && r.threads[t] == pc
  }

  /** registerConstruction succeeds; otherwise the caller returns without any effect. */
  predicate Registers(r: Runtime, replacing: bool) {
    !r.quarantined && r.retiring == replacing && r.current.None? && r.constructions == map[]
  }

  function Register(r: Runtime, t: nat, replacing: bool): Runtime {
    SetThread(r.(constructions := r.constructions[t := Building(true, replacing)]), t, Reserved)
  }

  predicate FactoryMayRun(r: Runtime, t: nat)
    requires t in r.constructions
  {
    !r.quarantined && (r.retiring ==> r.constructions[t].releasesFence) && r.current.None?
  }

  predicate Produces(r: Runtime, o: Outcome) {
    match o
    case NoTransport => true
    case ErrorWith(tr) => tr !in r.transports
    case Invalid(tr) => tr.Some? ==> tr.value !in r.transports
    case Valid(tr) => tr !in r.transports
  }

  function AfterFactory(r: Runtime, t: nat, o: Outcome): Runtime {
    match o
    case NoTransport => SetThread(r, t, Leaving(None))
    case ErrorWith(tr) => SetThread(r.(transports := r.transports[tr := Live]), t, Undoing(tr, Ready))
    case Invalid(tr) =>
      SetThread(if tr.Some? then r.(transports := r.transports[tr.value := Live]) else r, t, Failing(tr))
    case Valid(tr) => SetThread(r.(transports := r.transports[tr := Live]), t, Built(tr))
  }

  function Publish(r: Runtime, t: nat, transport: nat): Runtime
    requires t in r.constructions
  {
    EndThread(r.(constructions := r.constructions - {t}, top := r.top + 1, current := Some(r.top + 1),
                 generations := r.generations[r.top + 1 := Generation(transport, true, 0, 0, 0)],
                 retiring := r.retiring && !r.constructions[t].releasesFence), t)
  }

  function CancelAll(constructions: map<nat, Building>): map<nat, Building> {
    map c | c in constructions :: constructions[c].(provisional := false)
  }

  /** The withdrawal boundary: from here on no invocation of this generation can begin. */
  function Withdraw(r: Runtime, t: nat, g: nat, again: bool): Runtime
    requires g in r.generations
  {
    var gen := r.generations[g];
    var withdrawn := gen.(accepting := false, drains := if gen.inFlight == 0 then gen.drains + 1 else gen.drains);
    SetThread(r.(retiring := true, current := None, generations := r.generations[g := withdrawn]), t, Draining(g, again))
  }

  function SetGeneration(r: Runtime, g: nat, gen: Generation): Runtime {
    r.(generations := r.generations[g := gen])
  }

  function SetLease(r: Runtime, l: nat, lease: Lease): Runtime {
    r.(leases := r.leases[l := lease])
  }

  /** releaseGeneration. */
  function GiveBack(gen: Generation): Generation {
    if gen.inFlight == 0 then gen
    else gen.(inFlight := gen.inFlight - 1,
              drains := if gen.inFlight == 1 && !gen.accepting then gen.drains + 1 else gen.drains)
  }

  predicate Callable(r: Runtime, g: nat) {
    !r.quarantined && r.current == Some(g) && g in r.generations && r.generations[g].accepting
  }

  predicate LeaseAt(r: Runtime, l: nat, p: Phase) {
    l in r.leases && r.leases[l].phase == p && r.leases[l].generation in r.generations
  }

  predicate IsStarting(p: Thread) {
    p.Reserved? || p.Constructing? || p.Built? || p.Undoing? || p.Failing? || p.Leaving?
  }

  predicate EnabledStart(r: Runtime, a: Action) {
    match a
    case StartRegisters(t) => t !in r.threads && Registers(r, false)
    case StartChecks(t) => At(r, t, Reserved) && t in r.constructions
    case FactoryReturns(t, o) => At(r, t, Constructing) && Produces(r, o)
    case Admits(t) =>
      t in r.threads && r.threads[t].Built? && t in r.constructions && r.constructions[t].provisional && !r.quarantined
    case AdmissionRefused(t) => t in r.threads && r.threads[t].Built?
    case UndoAsks(t) =>
      t in r.threads && r.threads[t].Undoing? && r.threads[t].closing.Ready? && r.threads[t].transport in r.transports &&
      r.transports[r.threads[t].transport] != Closed
    case UndoProves(t) =>
      t in r.threads && r.threads[t].Undoing? && r.threads[t].closing.Sent? && r.threads[t].transport in r.transports &&
      r.transports[r.threads[t].transport] == Closed
    case UndoFails(t) => t in r.threads && r.threads[t].Undoing?
    case Quarantines(t) => t in r.threads && (r.threads[t].Failing? || r.threads[t].TimedOut? || r.threads[t].Unproved?)
    case Finishes(t) => t in r.threads && r.threads[t].Leaving? && t in r.constructions
    case CallerCancels(t) => t in r.constructions
    case _ => false
  }

  predicate EnabledStop(r: Runtime, a: Action) {
    match a
    case StopBegins(t, _) => t !in r.threads
    case CancelsDone(t) =>
      t in r.threads && r.threads[t].Cancelling? && r.threads[t].awaited !! r.constructions.Keys
    case CancelsTimeOut(t) => t in r.threads && r.threads[t].Cancelling?
    case Locks(t) => t in r.threads && r.threads[t].Waiting? && r.holder.None?
    case Withdraws(t) => t in r.threads && r.threads[t].Locked? && (r.current.Some? ==> r.current.value in r.generations)
    case DrainEnds(t) =>
      t in r.threads && r.threads[t].Draining? && r.threads[t].generation in r.generations &&
      r.generations[r.threads[t].generation].drains > 0
    case DrainTimesOut(t) => t in r.threads && r.threads[t].Draining?
    case ChecksCallbacks(t) => t in r.threads && r.threads[t].Overdue? && r.threads[t].generation in r.generations
    case StopAsks(t) =>
      t in r.threads && r.threads[t].Retiring? && r.threads[t].closing.Ready? && r.threads[t].generation in r.generations &&
      r.generations[r.threads[t].generation].transport in r.transports &&
      r.transports[r.generations[r.threads[t].generation].transport] != Closed
    case StopProves(t) =>
      t in r.threads && r.threads[t].Retiring? && r.threads[t].closing.Sent? && r.threads[t].generation in r.generations &&
      r.generations[r.threads[t].generation].transport in r.transports &&
      r.transports[r.generations[r.threads[t].generation].transport] == Closed
    case StopFails(t) => t in r.threads && r.threads[t].Retiring?
    case LowersFence(t) => t in r.threads && r.threads[t].Proved?
    case Ends(t) => t in r.threads && r.threads[t].Stopped?
    case Clears(t) => t in r.threads && r.threads[t].Clearing?
    case _ => false
  }

  predicate EnabledLease(r: Runtime, a: Action) {
    match a
    case AdapterCloses(tr) => tr in r.transports
    case LeaseAdmits(l) => l !in r.leases && r.current.Some? && Callable(r, r.current.value)
    case LeaseClaims(l) => LeaseAt(r, l, Idle) && !r.leases[l].invoked
    case LeaseCalls(l) => LeaseAt(r, l, Claimed)
    case CallbackEnds(l) => LeaseAt(r, l, Calling)
    case LeaseAccounts(l) => LeaseAt(r, l, Over)
    case LeaseReleases(l) => l in r.leases
    case LeaseReturns(l) => LeaseAt(r, l, Releasing)
    case _ => false
  }

  function NextStart(r: Runtime, a: Action): Runtime
    requires EnabledStart(r, a)
  {
    match a
    case StartRegisters(t) => Register(r, t, false)
    case StartChecks(t) => SetThread(r, t, if FactoryMayRun(r, t) then Constructing else Leaving(None))
    case FactoryReturns(t, o) => AfterFactory(r, t, o)
    case Admits(t) => Publish(r, t, r.threads[t].transport)
    case AdmissionRefused(t) => SetThread(r, t, Undoing(r.threads[t].transport, Ready))
    case UndoAsks(t) =>
      var tr := r.threads[t].transport;
      SetThread(r.(transports := r.transports[tr := Asked]), t, Undoing(tr, Sent))
    case UndoProves(t) => SetThread(r, t, Leaving(None))
    case UndoFails(t) => SetThread(r, t, Failing(Some(r.threads[t].transport)))
    case Quarantines(t) =>
      var q := r.(quarantined := true);
      if r.threads[t].Failing? then SetThread(q, t, Leaving(r.threads[t].left))
      else if r.threads[t].Unproved? then EndThread(q.(holder := None), t)
      else EndThread(q, t)
    case Finishes(t) =>
      EndThread(r.(constructions := r.constructions - {t},
                   retiring := r.retiring && (r.quarantined || !r.constructions[t].releasesFence)), t)
    case CallerCancels(t) => r.(constructions := r.constructions[t := r.constructions[t].(provisional := false)])
  }

  function NextStop(r: Runtime, a: Action): Runtime
    requires EnabledStop(r, a)
  {
    match a
    case StopBegins(t, again) =>
      SetThread(r.(constructions := CancelAll(r.constructions)), t, Cancelling(r.constructions.Keys, again))
    case CancelsDone(t) => SetThread(r, t, Waiting(r.threads[t].again))
    case CancelsTimeOut(t) => SetThread(r, t, TimedOut)
    case Locks(t) => SetThread(r.(holder := Some(t)), t, Locked(r.threads[t].again))
    case Withdraws(t) =>
      var again := r.threads[t].again;
      if r.quarantined then SetThread(r, t, Stopped(false, again))
      else if r.current.None? then SetThread(r.(retiring := again), t, Stopped(true, again))
      else Withdraw(r, t, r.current.value, again)
    case DrainEnds(t) => SetThread(r, t, Retiring(r.threads[t].generation, Ready, false, r.threads[t].again))
    case DrainTimesOut(t) => SetThread(r, t, Overdue(r.threads[t].generation, r.threads[t].again))
    case ChecksCallbacks(t) =>
      var g := r.threads[t].generation;
      SetThread(r, t, if r.generations[g].active > 0 then Unproved(g) else Retiring(g, Ready, true, r.threads[t].again))
    case StopAsks(t) =>
      var pc := r.threads[t];
      SetThread(r.(transports := r.transports[r.generations[pc.generation].transport := Asked]), t,
                Retiring(pc.generation, Sent, pc.late, pc.again))
    case StopProves(t) => SetThread(r, t, Proved(r.threads[t].late, r.threads[t].again))
    case StopFails(t) => SetThread(r, t, Unproved(r.threads[t].generation))
    case LowersFence(t) =>
      var pc := r.threads[t];
      SetThread(r.(retiring := r.retiring && pc.again), t, Stopped(!pc.late, pc.again))
    case Ends(t) =>
      var pc := r.threads[t];
      var unlocked := r.(holder := None);
      if !pc.again then EndThread(unlocked, t)
      else if !pc.ok then (if r.quarantined then EndThread(unlocked, t) else SetThread(r, t, Clearing))
      else if Registers(r, true) then Register(unlocked, t, true)
      else EndThread(unlocked, t)
    case Clears(t) => EndThread(r.(retiring := false, holder := None), t)
  }

  function NextLease(r: Runtime, a: Action): Runtime
    requires EnabledLease(r, a)
  {
    match a
    case AdapterCloses(tr) => r.(transports := r.transports[tr := Closed])
    case LeaseAdmits(l) =>
      var g := r.current.value;
      SetLease(SetGeneration(r, g, r.generations[g].(inFlight := r.generations[g].inFlight + 1)), l, Lease(g, Idle, false, false))
    case LeaseClaims(l) => SetLease(r, l, r.leases[l].(phase := Claimed, invoked := true))
    case LeaseCalls(l) =>
      var g := r.leases[l].generation;
      if Callable(r, g)
      then SetLease(SetGeneration(r, g, r.generations[g].(active := r.generations[g].active + 1)), l, r.leases[l].(phase := Calling))
      else SetLease(r, l, r.leases[l].(phase := Over))
    case CallbackEnds(l) =>
      var g := r.leases[l].generation;
      var gen := r.generations[g];
      SetLease(SetGeneration(r, g, gen.(active := gen.active - 1)), l, r.leases[l].(phase := Over))
    case LeaseAccounts(l) =>
      SetLease(r, l, r.leases[l].(phase := if r.leases[l].pending then Releasing else Idle))
    case LeaseReleases(l) =>
      var lease := r.leases[l];
      if lease.phase == Releasing || lease.phase == Done then r
      else if lease.phase == Idle then SetLease(r, l, lease.(phase := Releasing))
      else SetLease(r, l, lease.(pending := true))
    case LeaseReturns(l) =>
      var g := r.leases[l].generation;
      SetLease(SetGeneration(r, g, GiveBack(r.generations[g])), l, r.leases[l].(phase := Done))
  }

  predicate Enabled(r: Runtime, a: Action) {
    EnabledStart(r, a) || EnabledStop(r, a) || EnabledLease(r, a)
  }

  function Next(r: Runtime, a: Action): Runtime
    requires Enabled(r, a)
  {
    if EnabledStart(r, a) then NextStart(r, a) else if EnabledStop(r, a) then NextStop(r, a) else NextLease(r, a)
  }
}
