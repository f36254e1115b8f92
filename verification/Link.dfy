/**
  The AA24 link as a state machine: host and worker take turns in any order, one shared-memory
  effect at a time. A worker call that first drains the control lane is several steps; a host poll
  samples the data head, looks at the control lane and only then at the data lane.
  */
module Link {
  import opened Octets
  import opened LinkLedger

  /** Lane capacities and the plan table size, as the layout validator admits them. */
  datatype Config = Config(hostControl: nat, workerControl: nat, hostData: nat, workerData: nat, maxPlans: nat) {
    predicate Valid() {
      hostControl > RESERVED && workerControl > RESERVED && hostData > 0 && workerData > 0 && maxPlans > 0
    }
  }

  /** The slot of each control lane that ordinary control never takes. */
  const RESERVED := 1

  datatype Fence =
    | Open | DataFull | ControlSaturated | ControlDeadline | WorkerGap | Discontinuity
    | Corruption | Counter | Clock | Stopped | Terminated

  datatype HostRecord = Publish(ref: PlanRef) | Revoke(ref: PlanRef) | Stop

  /** What a worker call does once the control lane is drained. */
  datatype Goal = PollOnly | NextCommand | AdmitOutput(command: Command) | AcknowledgeRevocation(ref: PlanRef)

  /** snapshot is the number of host control records published when the drain started. */
  datatype WorkerPc =
    | Ready
    | Draining(budget: nat, snapshot: nat, goal: Goal)
    | Releasing(budget: nat, snapshot: nat, goal: Goal)
    | Drained(snapshot: nat, goal: Goal)

  datatype Adopted = Adopted(ref: PlanRef, revoked: bool)

  datatype Worker = Worker(
    next: nat, fence: Fence, gapLatched: bool, gapOrdinal: nat, gapWritten: bool,
    adopted: seq<Adopted>, refused: seq<PlanRef>, planFloor: nat, tokenFloor: nat,
    active: Option<Command>, pc: WorkerPc)

  datatype HostPlan = HostPlan(ref: PlanRef, revoking: bool)

  datatype HostPc = Idle | Sampled(head: nat) | Checked(head: nat)

  /** accepted lists the ordinals of the data records taken while the host was open. */
  datatype Host = Host(
    fence: Fence, stopSent: bool, plans: seq<HostPlan>, planFloor: nat, tokenFloor: nat,
    ledger: Ledger, pc: HostPc, accepted: seq<nat>)

  /** A command or output symbol the worker admitted, and the snapshot its drain started from. */
  datatype Admission = Admission(command: Command, snapshot: nat)

  datatype System = System(
    cfg: Config, up: Up, hostControl: Fifo<HostRecord>, hostData: Fifo<Command>,
    worker: Worker, host: Host, log: seq<Admission>, tokens: seq<nat>)

  function Fresh<T>(): Fifo<T> {
    Fifo([], 0, 0)
  }

  /** A fresh mapping whose endpoints carry the given identity floors. */
  function Attach(cfg: Config, planFloor: nat, workerTokenFloor: nat, hostTokenFloor: nat, tokens: seq<nat>): System {
    System(
      cfg, Up(Fresh(), Fresh(), []), Fresh(), Fresh(),
      Worker(1, Open, false, 0, false, [], [], planFloor, workerTokenFloor, None, Ready),
      Host(Open, false, [], planFloor, hostTokenFloor, Ledger(1, []), Idle, []),
      [], tokens)
  }

  // ---- Worker ----

  function CloseWorker(w: Worker, reason: Fence): Worker {
    w.(fence := if w.fence == Open then reason else w.fence, active := None)
  }

  function FlushGap(s: System): System {
    var w := s.worker;
    if w.gapLatched && !w.gapWritten && s.up.control.HasRoom(s.cfg.workerControl, 0) then
      s.(up := PostControl(s.up, Gap(w.gapOrdinal)), worker := w.(gapWritten := true))
    else s
  }

  /** Output closes before any lane is touched; the first gap of a stream is latched. */
  function RaiseGap(s: System, reason: Fence, ordinal: nat): System {
    var w := CloseWorker(s.worker, reason);
    FlushGap(s.(worker := if w.gapLatched then w else w.(gapLatched := true, gapOrdinal := ordinal)))
  }

  function RaiseLocalGap(s: System, reason: Fence): System {
    if s.worker.gapLatched then FlushGap(s)
    else RaiseGap(s.(worker := s.worker.(next := s.worker.next + 1)), reason, s.worker.next)
  }

  function LoadUp(s: System, controlIndex: nat, dataIndex: nat): System {
    s.(up := s.up.(control := s.up.control.Load(controlIndex), data := s.up.data.Load(dataIndex)))
  }

  /** A record that carries the ordinal just allocated; a full lane loses it and raises the gap. */
  function WriteData(s: System, record: DataRecord): System {
    if s.up.data.HasRoom(s.cfg.workerData, 0) then s.(up := PostData(s.up, record))
    else RaiseGap(s, DataFull, record.ordinal)
  }

  function ObserveRaw(s: System, octet: byte, selection: Option<Command>): System {
    var w := s.worker;
    if w.pc != Ready || w.fence != Open || (selection.Some? && selection != w.active) then s
    else WriteData(s.(worker := w.(next := w.next + 1)), Raw(w.next, octet, selection))
  }

  function Complete(s: System, command: Command, now: nat): System {
    var w := s.worker;
    if w.pc != Ready || w.active != Some(command) then s
    else if !command.Live(now) then s.(worker := w.(active := None))
    else WriteData(s.(worker := w.(next := w.next + 1, active := None)), Completion(w.next, command))
  }

  /** The exact retirement acknowledgement, never in the slot kept for the gap. */
  function PostRetired(s: System, ref: PlanRef): (System, bool) {
    var w := s.worker;
    if !s.up.control.HasRoom(s.cfg.workerControl, RESERVED) then (RaiseLocalGap(s, ControlSaturated), false)
    else (s.(up := PostControl(s.up, Acknowledge(w.next, ref)), worker := w.(next := w.next + 1)), true)
  }

  function FindAdopted(adopted: seq<Adopted>, ref: PlanRef): (i: nat)
    ensures i <= |adopted|
    ensures i < |adopted| ==> adopted[i].ref == ref
    ensures i == |adopted| ==> forall k :: 0 <= k < |adopted| ==> adopted[k].ref != ref
  {
    if adopted == [] then 0 else if adopted[0].ref == ref then 0 else 1 + FindAdopted(adopted[1..], ref)
  }

  function DropRef(refs: seq<PlanRef>, ref: PlanRef): seq<PlanRef> {
    if refs == [] then [] else if refs[0] == ref then refs[1..] else [refs[0]] + DropRef(refs[1..], ref)
  }

  /** aa24CheckPlan: the plan is adopted and not revoked. */
  predicate PlanUsable(w: Worker, ref: PlanRef) {
    var i := FindAdopted(w.adopted, ref);
    i < |w.adopted| && !w.adopted[i].revoked
  }

  function HandleRevoke(s: System, ref: PlanRef): (System, bool) {
    var w := s.worker;
    var i := FindAdopted(w.adopted, ref);
    if i < |w.adopted| then
      (s.(worker := w.(
         adopted := w.adopted[i := Adopted(ref, true)],
         active := if w.active.Some? && w.active.value.ref == ref then None else w.active)), true)
    else if ref in w.refused then
      var (posted, ok) := PostRetired(s, ref);
      if ok then (posted.(worker := posted.worker.(refused := DropRef(w.refused, ref))), true) else (posted, false)
    else (s, true)
  }

  function HandlePublish(s: System, ref: PlanRef, now: nat): System {
    var w := s.worker;
    if w.fence != Open then
      if |w.refused| < s.cfg.maxPlans then s.(worker := w.(refused := w.refused + [ref])) else s
    else if ref.plan <= w.planFloor || now >= ref.expiry || |w.adopted| == s.cfg.maxPlans then
      if |w.refused| < s.cfg.maxPlans then s.(worker := w.(refused := w.refused + [ref]))
      else RaiseLocalGap(s, ControlSaturated)
    else s.(worker := w.(planFloor := ref.plan, adopted := w.adopted + [Adopted(ref, false)]))
  }

  /** False when the record must stay queued. */
  function HandleHostControl(s: System, record: HostRecord, now: nat): (System, bool) {
    match record
    case Stop => (s.(worker := CloseWorker(s.worker, Stopped)), true)
    case Revoke(ref) => HandleRevoke(s, ref)
    case Publish(ref) => (HandlePublish(s, ref, now), true)
  }

  function SetPc(s: System, pc: WorkerPc): System {
    s.(worker := s.worker.(pc := pc))
  }

  function StartCall(s: System, goal: Goal): System {
    if s.worker.pc == Ready then SetPc(s, Draining(s.cfg.hostControl, |s.hostControl.sent|, goal)) else s
  }

  /** One turn of the bounded drain: peek and handle, or notice that nothing is left. */
  function DrainOne(s: System, now: nat): System {
    match s.worker.pc
    case Draining(budget, snapshot, goal) =>
      if budget == 0 || s.hostControl.Empty() then SetPc(s, Drained(snapshot, goal))
      else
        var (handled, ok) := HandleHostControl(s, s.hostControl.sent[s.hostControl.read], now);
        SetPc(handled, if ok then Releasing(budget, snapshot, goal) else Drained(snapshot, goal))
    case _ => s
  }

  function ReleaseControl(s: System): System {
    match s.worker.pc
    case Releasing(budget, snapshot, goal) =>
      if budget == 0 then s
      else SetPc(s, Draining(budget - 1, snapshot, goal)).(hostControl := s.hostControl.Release())
    case _ => s
  }

  function TakeCommand(s: System, snapshot: nat, now: nat): System {
    var w := s.worker;
    if w.fence != Open || (w.active.Some? && w.active.value.Live(now)) then s
    else
      var idle := s.(worker := w.(active := None));
      if s.hostData.Empty() then idle
      else
        var command := s.hostData.sent[s.hostData.read];
        var taken := idle.(hostData := s.hostData.Release());
        if command.token <= w.tokenFloor then taken
        else
          var floored := taken.(worker := taken.worker.(tokenFloor := command.token));
          if !PlanUsable(w, command.ref) || !command.Live(now) then floored
          else floored.(
              worker := floored.worker.(active := Some(command)),
              log := s.log + [Admission(command, snapshot)],
              tokens := s.tokens + [command.token])
  }

  function AdmitSymbol(s: System, command: Command, snapshot: nat, now: nat): System {
    var w := s.worker;
    if w.fence != Open || !PlanUsable(w, command.ref) || w.active != Some(command) then s
    else if !command.Live(now) then s.(worker := w.(active := None))
    else s.(log := s.log + [Admission(command, snapshot)])
  }

  function AcknowledgeRevoked(s: System, ref: PlanRef): System {
    var w := s.worker;
    var i := FindAdopted(w.adopted, ref);
    if i == |w.adopted| || !w.adopted[i].revoked then s
    else
      var (posted, ok) := PostRetired(s, ref);
      if ok then posted.(worker := posted.worker.(adopted := w.adopted[..i] + w.adopted[i + 1..])) else posted
  }

  function FinishCall(s: System, now: nat): System {
    match s.worker.pc
    case Drained(snapshot, goal) =>
      var done := match goal {
        case PollOnly => s
        case NextCommand => TakeCommand(s, snapshot, now)
        case AdmitOutput(command) => AdmitSymbol(s, command, snapshot, now)
        case AcknowledgeRevocation(ref) => AcknowledgeRevoked(s, ref)
      };
      SetPc(done, Ready)
    case _ => s
  }

  // ---- Host ----

  function CloseHost(h: Host, reason: Fence): Host {
    h.(fence := if h.fence == Open || reason == WorkerGap then reason else h.fence)
  }

  function FindPlan(plans: seq<HostPlan>, ref: PlanRef): (i: nat)
    ensures i <= |plans|
    ensures i < |plans| ==> plans[i].ref == ref
  {
    if plans == [] then 0 else if plans[0].ref == ref then 0 else 1 + FindPlan(plans[1..], ref)
  }

  function LoadDown(s: System, controlIndex: nat, dataIndex: nat): System {
    s.(hostControl := s.hostControl.Load(controlIndex), hostData := s.hostData.Load(dataIndex))
  }

  function PublishPlan(s: System, ref: PlanRef, now: nat): System {
    var h := s.host;
    if h.fence != Open || ref.plan <= h.planFloor || now >= ref.expiry || |h.plans| >= s.cfg.maxPlans then s
    else if !s.hostControl.HasRoom(s.cfg.hostControl, RESERVED) then s.(host := CloseHost(h, ControlSaturated))
    else s.(
        hostControl := s.hostControl.Send(Publish(ref)),
        host := h.(planFloor := ref.plan, plans := h.plans + [HostPlan(ref, false)]))
  }

  function RevokePlan(s: System, ref: PlanRef): System {
    var h := s.host;
    var i := FindPlan(h.plans, ref);
    if i == |h.plans| || h.plans[i].revoking then s
    else if !s.hostControl.HasRoom(s.cfg.hostControl, RESERVED) then s.(host := CloseHost(h, ControlSaturated))
    else s.(
        hostControl := s.hostControl.Send(Revoke(ref)),
        host := h.(plans := h.plans[i := HostPlan(ref, true)]))
  }

  function SendCommand(s: System, command: Command, now: nat): System {
    var h := s.host;
    var i := FindPlan(h.plans, command.ref);
    if h.fence != Open || i == |h.plans| || command.token <= h.tokenFloor || h.plans[i].revoking || !command.Live(now) then s
    else if !s.hostData.HasRoom(s.cfg.hostData, 0) then s
    else s.(hostData := s.hostData.Send(command), host := h.(tokenFloor := command.token))
  }

  function SendStop(s: System): System {
    if s.host.stopSent || !s.hostControl.HasRoom(s.cfg.hostControl, 0) then s
    else s.(hostControl := s.hostControl.Send(Stop), host := s.host.(stopSent := true))
  }

  function RequestStop(s: System): System {
    SendStop(s.(host := CloseHost(s.host, Stopped)))
  }

  function AcknowledgeGap(s: System): System {
    if s.host.fence == Open then s else SendStop(s)
  }

  function SetHostPc(h: Host, pc: HostPc): Host {
    h.(pc := pc)
  }

  function SampleHead(s: System): System {
    if s.host.pc == Idle then s.(host := SetHostPc(s.host, Sampled(|s.up.data.sent|))) else s
  }

  function AccountRecord(s: System, h: Host, ordinal: nat, control: bool): (bool, Host) {
    var (ok, l) := Account(h.ledger, ordinal, control, s.cfg.workerControl);
    (ok, h.(ledger := l))
  }

  function HandleControl(s: System, h: Host, record: ControlRecord, regressed: bool): Host {
    match record
    case Gap(ordinal) => CloseHost(AccountRecord(s, h, ordinal, true).1, WorkerGap)
    case Acknowledge(ordinal, ref) =>
      if regressed then CloseHost(h, Clock)
      else
        var (ok, counted) := if h.fence == Open then AccountRecord(s, h, ordinal, true) else (true, h);
        var checked := if ok then counted else CloseHost(counted, Discontinuity);
        var i := FindPlan(h.plans, ref);
        if i == |h.plans| || !h.plans[i].revoking then checked
        else checked.(plans := h.plans[..i] + h.plans[i + 1..])
  }

  function HandleData(s: System, h: Host, record: DataRecord, regressed: bool): Host {
    if regressed then CloseHost(h, Clock)
    else if h.fence != Open then h
    else
      var (ok, counted) := AccountRecord(s, h, record.ordinal, false);
      if ok then counted.(accepted := h.accepted + [record.ordinal]) else CloseHost(counted, Discontinuity)
  }

  /** A full early-control list with older data in sight is drained before more control is read. */
  predicate DataFirst(s: System, head: nat) {
    |s.host.ledger.explained| == s.cfg.workerControl && s.up.data.read < head
  }

  function TakeControl(s: System, regressed: bool): System
    requires !s.up.control.Empty()
  {
    s.(up := s.up.(control := s.up.control.Release()),
       host := SetHostPc(HandleControl(s, s.host, s.up.control.sent[s.up.control.read], regressed), Idle))
  }

  function PollControl(s: System, regressed: bool): System {
    match s.host.pc
    case Sampled(head) =>
      if DataFirst(s, head) || s.up.control.Empty() then s.(host := SetHostPc(s.host, Checked(head)))
      else TakeControl(s, regressed)
    case _ => s
  }

  function PollData(s: System, regressed: bool): System {
    match s.host.pc
    case Checked(head) =>
      if s.up.data.read >= head || s.up.data.Empty() then s.(host := SetHostPc(s.host, Idle))
      else s.(up := s.up.(data := s.up.data.Release()),
              host := SetHostPc(HandleData(s, s.host, s.up.data.sent[s.up.data.read], regressed), Idle))
    case _ => s
  }

  /** After a clock fence the host still drains control, without trusting capture times. */
  function PollFenced(s: System): System {
    if s.host.fence == Open || s.host.pc != Idle || s.up.control.Empty() then s else TakeControl(s, false)
  }

  // ---- Runs ----

  datatype Action =
    // the worker; the indices are the consumer positions it happens to load
    | WRaw(octet: byte, selection: Option<Command>, c: nat, d: nat)
    | WComplete(command: Command, now: nat, c: nat, d: nat)
    | WFault(reason: Fence, c: nat)
    | WStart(goal: Goal)
    | WDrain(now: nat, c: nat)
    | WRelease
    | WFinish(now: nat, c: nat)
    // the host
    | HPublish(ref: PlanRef, now: nat, c: nat)
    | HRevoke(ref: PlanRef, c: nat)
    | HSend(command: Command, now: nat, d: nat)
    | HStop(c: nat)
    | HAcknowledgeGap(c: nat)
    | HFault(reason: Fence)
    | HSample
    | HPollControl(regressed: bool)
    | HPollData(regressed: bool)
    | HPollFenced
    // a successor mapping, after a resynchronization or a restart
    | Successor(cfg: Config)

  function Max(a: nat, b: nat): nat {
    if a < b then b else a
  }

  function Next(s: System, a: Action): System {
    match a
    case WRaw(octet, selection, c, d) => ObserveRaw(LoadUp(s, c, d), octet, selection)
    case WComplete(command, now, c, d) => Complete(LoadUp(s, c, d), command, now)
    case WFault(reason, c) => if reason == Open then s else RaiseLocalGap(LoadUp(s, c, 0), reason)
    case WStart(goal) => StartCall(s, goal)
    case WDrain(now, c) => DrainOne(LoadUp(s, c, 0), now)
    case WRelease => ReleaseControl(s)
    case WFinish(now, c) => FinishCall(LoadUp(s, c, 0), now)
    case HPublish(ref, now, c) => if s.host.pc == Idle then PublishPlan(LoadDown(s, c, 0), ref, now) else s
    case HRevoke(ref, c) => if s.host.pc == Idle then RevokePlan(LoadDown(s, c, 0), ref) else s
    case HSend(command, now, d) => if s.host.pc == Idle then SendCommand(LoadDown(s, 0, d), command, now) else s
    case HStop(c) => if s.host.pc == Idle then RequestStop(LoadDown(s, c, 0)) else s
    case HAcknowledgeGap(c) => if s.host.pc == Idle then AcknowledgeGap(LoadDown(s, c, 0)) else s
    case HFault(reason) =>
      if reason == Open || reason == Discontinuity || reason == WorkerGap then s
      else s.(host := CloseHost(s.host, reason))
    case HSample => SampleHead(s)
    case HPollControl(regressed) => PollControl(s, regressed)
    case HPollData(regressed) => PollData(s, regressed)
    case HPollFenced => PollFenced(s)
    case Successor(cfg) =>
      if !cfg.Valid() then s
      else Attach(cfg, Max(s.worker.planFloor, s.host.planFloor), Max(s.worker.tokenFloor, s.host.tokenFloor),
                  s.host.tokenFloor, s.tokens)
  }

  function Run(s: System, actions: seq<Action>): System {
    if actions == [] then s else Next(Run(s, actions[..|actions| - 1]), actions[|actions| - 1])
  }
}
