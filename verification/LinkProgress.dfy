/**
  What the link does for a call that is in order: which step accepts a record, adopts or drops a
  plan, admits a command or fences, and what it leaves alone.
  */
module LinkProgress {
  import opened Octets
  import opened LinkLedger
  import opened Link
  import opened LinkSafety

  // ---- Plans are listed once ----

  /** The host lists its plans in the order of their numbers, so no plan is listed twice. */
  ghost predicate PlansOrdered(h: Host) {
    && (forall i :: 0 <= i < |h.plans| ==> h.plans[i].ref.plan <= h.planFloor)
    && (forall i, k :: 0 <= i < k < |h.plans| ==> h.plans[i].ref.plan < h.plans[k].ref.plan)
  }

  lemma TakeControlOrdered(s: System, regressed: bool)
    requires PlansOrdered(s.host) && !s.up.control.Empty()
    ensures PlansOrdered(TakeControl(s, regressed).host)
  {
    hide Account;
  }

  lemma PublishOrdered(s: System, ref: PlanRef, now: nat)
    requires PlansOrdered(s.host)
    ensures PlansOrdered(PublishPlan(s, ref, now).host)
  {
  }

  lemma RevokeOrdered(s: System, ref: PlanRef)
    requires PlansOrdered(s.host)
    ensures PlansOrdered(RevokePlan(s, ref).host)
  {
  }

  lemma SendOrdered(s: System, command: Command, now: nat)
    requires PlansOrdered(s.host)
    ensures PlansOrdered(SendCommand(s, command, now).host)
  {
  }

  lemma StopOrdered(s: System)
    requires PlansOrdered(s.host)
    ensures PlansOrdered(RequestStop(s).host) && PlansOrdered(AcknowledgeGap(s).host)
  {
  }

  lemma PollsOrdered(s: System, regressed: bool)
    requires PlansOrdered(s.host)
    ensures PlansOrdered(PollControl(s, regressed).host) && PlansOrdered(PollData(s, regressed).host)
    ensures PlansOrdered(PollFenced(s).host) && PlansOrdered(SampleHead(s).host)
  {
    hide Account, TakeControl;
    if !s.up.control.Empty() {
      TakeControlOrdered(s, regressed);
      TakeControlOrdered(s, false);
    }
  }

  lemma OneStepOrdered(s: System, a: Action)
    requires PlansOrdered(s.host)
    ensures PlansOrdered(Next(s, a).host)
  {
    hide RaiseLocalGap, DrainOne, FinishCall, ObserveRaw, Complete, ReleaseControl, StartCall,
         PublishPlan, RevokePlan, SendCommand, RequestStop, AcknowledgeGap, PollControl, PollData, PollFenced, SampleHead;
    if IsWorkerAction(a) {
      WorkerLeavesHost(s, a);
    } else {
      match a
      case HPublish(ref, now, c) => PublishOrdered(LoadDown(s, c, 0), ref, now);
      case HRevoke(ref, c) => RevokeOrdered(LoadDown(s, c, 0), ref);
      case HSend(command, now, d) => SendOrdered(LoadDown(s, 0, d), command, now);
      case HStop(c) => StopOrdered(LoadDown(s, c, 0));
      case HAcknowledgeGap(c) => StopOrdered(LoadDown(s, c, 0));
      case HPollControl(regressed) => PollsOrdered(s, regressed);
      case HPollData(regressed) => PollsOrdered(s, regressed);
      case _ => PollsOrdered(s, false);
    }
  }

  lemma {:induction false} RunOrdered(s: System, actions: seq<Action>)
    requires PlansOrdered(s.host)
    ensures PlansOrdered(Run(s, actions).host)
    decreases actions
  {
    hide Next, PlansOrdered;
    if actions != [] {
      RunOrdered(s, actions[..|actions| - 1]);
      OneStepOrdered(Run(s, actions[..|actions| - 1]), actions[|actions| - 1]);
    }
  }

  lemma ReachableOrdered(s: System)
    requires Reachable(s)
    ensures PlansOrdered(s.host)
  {
    hide Run;
    var cfg: Config, planFloor: nat, tokenFloor: nat, actions: seq<Action> :|
      cfg.Valid() && s == Run(Attach(cfg, planFloor, tokenFloor, tokenFloor, []), actions);
    RunOrdered(Attach(cfg, planFloor, tokenFloor, tokenFloor, []), actions);
  }

  /** x stands in s at some place other than i. */
  ghost predicate Elsewhere<T>(s: seq<T>, i: nat, x: T) {
    exists k :: 0 <= k < |s| && k != i && s[k] == x
  }

  lemma CutMembers<T>(s: seq<T>, i: nat, x: T)
    requires i < |s|
    ensures x in s[..i] + s[i + 1..] <==> Elsewhere(s, i, x)
  {
    var rest := s[..i] + s[i + 1..];
    if x in rest {
      var k :| 0 <= k < |rest| && rest[k] == x;
      assert s[if k < i then k else k + 1] == x;
    }
    if Elsewhere(s, i, x) {
      var k :| 0 <= k < |s| && k != i && s[k] == x;
      assert rest[if k < i then k else k - 1] == x;
    }
  }

  lemma SwapMembers<T>(s: seq<T>, i: nat, y: T, x: T)
    requires i < |s|
    ensures x in s[i := y] <==> x == y || Elsewhere(s, i, x)
  {
    var next := s[i := y];
    assert next[i] == y;
    if x in next {
      var k :| 0 <= k < |next| && next[k] == x;
      assert k != i ==> s[k] == x;
    }
    if Elsewhere(s, i, x) {
      var k :| 0 <= k < |s| && k != i && s[k] == x;
      assert next[k] == x;
    }
  }

  // ---- The host poll ----

  predicate DataReady(s: System) {
    s.host.pc.Checked? && s.up.data.read < s.host.pc.head && s.up.data.read < |s.up.data.sent|
  }

  predicate ControlReady(s: System) {
    s.host.pc.Sampled? && !DataFirst(s, s.host.pc.head) && s.up.control.read < |s.up.control.sent|
  }

  /**
    An open host takes the data record it meets exactly when its capture time did not regress: its
    ordinal joins the accepted ones and the host stays open. A regressed one fences the clock and is
    not accepted.
    */
  lemma TimelyDataTaken(s: System, regressed: bool)
    requires Reachable(s) && s.host.fence == Open && s.host.pc.Checked? && s.up.data.read < s.host.pc.head
    ensures DataReady(s)
    ensures var t := Next(s, HPollData(regressed));
      && t == s.(up := t.up, host := t.host)
      && t.up == s.up.(data := s.up.data.(read := s.up.data.read + 1))
      && t.host.fence == (if regressed then Clock else Open)
      && t.host.accepted == s.host.accepted + (if regressed then [] else [s.up.data.sent[s.up.data.read].ordinal])
      && t.host == s.host.(fence := t.host.fence, accepted := t.host.accepted, ledger := t.host.ledger, pc := Idle)
      && (regressed ==> t.host.ledger == s.host.ledger)
      && (!regressed ==> t.host.ledger.next > s.host.ledger.next)
  {
    hide Account, Balanced, Run, Reachable;
    ReachableSound(s);
    DataAccounted(s);
    BoundaryMoves(s.host.ledger, s.cfg.workerControl);
  }

  lemma BoundaryMoves(l: Ledger, capacity: nat)
    ensures Account(l, l.next, false, capacity).1.next > l.next
  {
    AdvanceForward(l.(next := l.next + 1));
  }

  lemma {:induction false} AdvanceForward(l: Ledger)
    ensures Advance(l).next >= l.next
    decreases |l.explained|
  {
    var i := IndexOf(l.explained, l.next);
    if i < |l.explained| {
      var rest := Ledger(l.next + 1, Without(l.explained, i));
      AdvanceForward(rest);
      assert Advance(l) == Advance(rest);
    }
  }

  /** A fenced host reads data on without accepting it, and with no data in sight nothing is read. */
  lemma OtherDataPolls(s: System, regressed: bool)
    requires Reachable(s) && s.host.pc.Checked?
    ensures var t := Next(s, HPollData(regressed));
      && (!DataReady(s) ==> t == s.(host := s.host.(pc := Idle)))
      && (DataReady(s) && s.host.fence != Open ==>
            t == s.(up := s.up.(data := s.up.data.(read := s.up.data.read + 1)), host := s.host.(pc := Idle)))
  {
    hide Account, Balanced, Run, Reachable;
    ReachableSound(s);
    PollInSight(s);
  }

  lemma PollInSight(s: System)
    requires Inv(s)
    ensures s.up.data.read <= |s.up.data.sent|
  {
  }

  /**
    A timely acknowledgement leaves an open host open and takes exactly the plan being revoked under
    its reference off the host's list.
    */
  lemma TimelyAcknowledgement(s: System)
    requires Reachable(s) && ControlReady(s) && s.up.control.sent[s.up.control.read].Acknowledge?
    ensures var t, ref := Next(s, HPollControl(false)), s.up.control.sent[s.up.control.read].ref;
      && t == s.(up := s.up.(control := s.up.control.(read := s.up.control.read + 1)), host := t.host)
      && t.host == s.host.(plans := t.host.plans, ledger := t.host.ledger, pc := Idle)
      && PlansOrdered(t.host)
      && (forall p :: p in t.host.plans <==> p in s.host.plans && p != HostPlan(ref, true))
      && |t.host.plans| == |s.host.plans| - (if HostPlan(ref, true) in s.host.plans then 1 else 0)
  {
    hide Account, Balanced, Run, Reachable, DownSound;
    ReachableSound(s);
    ReachableOrdered(s);
    OneStepOrdered(s, HPollControl(false));
    if s.host.fence == Open {
      ControlAccounted(s);
    }
    var ref := s.up.control.sent[s.up.control.read].ref;
    PlanFound(s.host, ref, true);
    if HostPlan(ref, true) in s.host.plans {
      PlanDropped(s.host, ref);
    }
  }

  /** In a list ordered by plan number the found entry is the only one with its reference. */
  lemma PlanElsewhere(h: Host, ref: PlanRef, p: HostPlan)
    requires PlansOrdered(h) && FindPlan(h.plans, ref) < |h.plans|
    ensures Elsewhere(h.plans, FindPlan(h.plans, ref), p) <==> p in h.plans && p.ref != ref
  {
    var i := FindPlan(h.plans, ref);
    assert h.plans[i].ref == ref;
    if p in h.plans {
      var k :| 0 <= k < |h.plans| && h.plans[k] == p;
      assert k != i ==> h.plans[k].ref.plan != h.plans[i].ref.plan;
    }
  }

  lemma PlanFound(h: Host, ref: PlanRef, revoking: bool)
    requires PlansOrdered(h)
    ensures var i := FindPlan(h.plans, ref);
            HostPlan(ref, revoking) in h.plans <==> i < |h.plans| && h.plans[i] == HostPlan(ref, revoking)
  {
    var i := FindPlan(h.plans, ref);
    FindPlanFirst(h.plans, ref);
    if HostPlan(ref, revoking) in h.plans {
      var k :| 0 <= k < |h.plans| && h.plans[k] == HostPlan(ref, revoking);
      assert h.plans[i].ref.plan == h.plans[k].ref.plan;
      assert i == k;
    }
  }

  lemma PlanDropped(h: Host, ref: PlanRef)
    requires PlansOrdered(h) && HostPlan(ref, true) in h.plans
    ensures var i := FindPlan(h.plans, ref);
      && i < |h.plans| && h.plans[i] == HostPlan(ref, true)
      && forall p :: p in h.plans[..i] + h.plans[i + 1..] <==> p in h.plans && p != HostPlan(ref, true)
  {
    hide PlansOrdered;
    var i := FindPlan(h.plans, ref);
    PlanFound(h, ref, true);
    forall p
      ensures p in h.plans[..i] + h.plans[i + 1..] <==> p in h.plans && p != HostPlan(ref, true)
    {
      hide Elsewhere;
      CutMembers(h.plans, i, p);
      PlanElsewhere(h, ref, p);
      if p in h.plans && p.ref == ref {
        PlanFound(h, ref, p.revoking);
      }
    }
  }

  lemma FindPlanFirst(plans: seq<HostPlan>, ref: PlanRef)
    ensures FindPlan(plans, ref) < |plans| <==> exists k :: 0 <= k < |plans| && plans[k].ref == ref
  {
    if plans != [] && plans[0].ref != ref {
      FindPlanFirst(plans[1..], ref);
      forall k | 0 <= k < |plans| && plans[k].ref == ref
        ensures plans[1..][k - 1].ref == ref
      {
      }
    }
  }

  /** A regressed acknowledgement fences an open host on the clock and drops no plan. */
  lemma RegressedAcknowledgement(s: System)
    requires ControlReady(s) && s.up.control.sent[s.up.control.read].Acknowledge?
    ensures Next(s, HPollControl(true)) ==
            s.(up := s.up.(control := s.up.control.(read := s.up.control.read + 1)),
               host := s.host.(fence := if s.host.fence == Open then Clock else s.host.fence, pc := Idle))
  {
  }

  /** A gap fences the host whatever its capture time and whatever fence it had. */
  lemma GapFences(s: System, regressed: bool)
    requires ControlReady(s) && s.up.control.sent[s.up.control.read].Gap?
    ensures var t := Next(s, HPollControl(regressed));
      && t == s.(up := s.up.(control := s.up.control.(read := s.up.control.read + 1)), host := t.host)
      && t.host == s.host.(fence := WorkerGap, ledger := t.host.ledger, pc := Idle)
  {
  }

  /** Without a control record to take, the poll turns to the data in sight and does nothing else. */
  lemma ControlPassedOver(s: System, regressed: bool)
    requires s.host.pc.Sampled? && !ControlReady(s)
    ensures Next(s, HPollControl(regressed)) == s.(host := s.host.(pc := Checked(s.host.pc.head)))
  {
  }

  /** The clock fence comes from a clock fault or a regressed record, and from nothing else. */
  lemma ClockFenceExactly(s: System, a: Action)
    requires Reachable(s) && !a.Successor? && s.host.fence != Clock
    ensures Next(s, a).host.fence == Clock <==>
            s.host.fence == Open
            && (|| a == HFault(Clock)
                || (a == HPollData(true) && DataReady(s))
                || (a == HPollControl(true) && ControlReady(s) && s.up.control.sent[s.up.control.read].Acknowledge?))
  {
    hide Account, Run, Reachable, Inv, RaiseLocalGap, DrainOne, FinishCall, ObserveRaw, Complete, ReleaseControl, StartCall;
    ReachableSound(s);
    if IsWorkerAction(a) {
      WorkerLeavesHost(s, a);
    } else if a.HPollData? && s.host.pc.Checked? && s.host.fence == Open && DataReady(s) {
      TimelyDataTaken(s, a.regressed);
    }
  }

  // ---- Whole rounds of polling ----

  const ROUND := [HSample, HPollControl(false), HPollData(false)]

  function Rounds(s: System, n: nat): System
    decreases n
  {
    if n == 0 then s else Rounds(Run(s, ROUND), n - 1)
  }

  function Unread(up: Up): int {
    |up.control.sent| - up.control.read + |up.data.sent| - up.data.read
  }

  ghost predicate NoGapUnread(up: Up) {
    forall j :: up.control.read <= j < |up.control.sent| ==> up.control.sent[j].Acknowledge?
  }

  lemma RoundSteps(s: System)
    ensures Run(s, ROUND) == Next(Next(Next(s, HSample), HPollControl(false)), HPollData(false))
  {
    hide Next;
    assert ROUND[..2] == [HSample, HPollControl(false)];
    assert ROUND[..2][..1] == [HSample];
    assert Run(s, []) == s;
    assert Run(s, [HSample]) == Next(s, HSample) by { assert [HSample][..0] == []; }
  }

  /** One timely round takes exactly one record whenever one is unread, and the host stays open. */
  lemma RoundTakesOne(s: System)
    requires Reachable(s) && s.host.pc == Idle && s.host.fence == Open && NoGapUnread(s.up) && Unread(s.up) > 0
    ensures var t := Run(s, ROUND);
      && Reachable(t) && t.host.pc == Idle && t.host.fence == Open && NoGapUnread(t.up)
      && Unread(t.up) == Unread(s.up) - 1
      && t.up.data.sent == s.up.data.sent && t.up.control.sent == s.up.control.sent
  {
    hide Next, Run, Reachable, DataFirst, PlansOrdered;
    RoundSteps(s);
    RunReachable(s, ROUND);
    ReachableOn(s, HSample);
    var u := Next(s, HSample);
    SampledHead(s);
    ReachableOn(u, HPollControl(false));
    var v := Next(u, HPollControl(false));
    PollInBounds(s);
    if ControlReady(u) {
      TimelyAcknowledgement(u);
      DataPollWaits(v);
    } else {
      ControlPassedOver(u, false);
      SightedIsReady(u);
      TimelyDataTaken(v, false);
    }
  }

  lemma SampledHead(s: System)
    requires s.host.pc == Idle
    ensures Next(s, HSample) == s.(host := s.host.(pc := Sampled(|s.up.data.sent|)))
  {
  }

  lemma PollInBounds(s: System)
    requires Reachable(s)
    ensures s.up.data.read <= |s.up.data.sent| && s.up.control.read <= |s.up.control.sent|
  {
    hide Run;
    ReachableSound(s);
  }

  lemma DataPollWaits(s: System)
    requires s.host.pc == Idle
    ensures Next(s, HPollData(false)) == s
  {
  }

  /** With something unread and no control record to take, there is data in sight. */
  lemma SightedIsReady(u: System)
    requires u.host.pc.Sampled? && !ControlReady(u) && Unread(u.up) > 0
    requires u.host.pc.head == |u.up.data.sent|
    ensures u.up.data.read < u.host.pc.head
  {
  }

  /**
    Nothing on the worker lanes is lost: as many timely rounds as records are unread deliver all of
    them, every data record is accepted in order, and the host is still open.
    */
  lemma {:induction false} AllDelivered(s: System, n: nat)
    requires Reachable(s) && s.host.pc == Idle && s.host.fence == Open && NoGapUnread(s.up) && Unread(s.up) == n
    ensures var t := Rounds(s, n);
      && t.host.fence == Open && t.up.data.sent == s.up.data.sent
      && t.up.data.read == |s.up.data.sent| && t.up.control.read == |s.up.control.sent|
      && |t.host.accepted| == |s.up.data.sent|
      && forall k :: 0 <= k < |s.up.data.sent| ==> t.host.accepted[k] == s.up.data.sent[k].ordinal
    decreases n
  {
    hide Reachable, Run, NoGapUnread;
    if n == 0 {
      PollInBounds(s);
      AcceptedSoFar(s);
    } else {
      RoundTakesOne(s);
      AllDelivered(Run(s, ROUND), n - 1);
    }
  }

  lemma AcceptedSoFar(s: System)
    requires Reachable(s) && s.host.fence == Open
    ensures |s.host.accepted| == s.up.data.read <= |s.up.data.sent|
    ensures forall k :: 0 <= k < |s.host.accepted| ==> s.host.accepted[k] == s.up.data.sent[k].ordinal
  {
    hide Run;
    ReachableSound(s);
  }

  // ---- Worker calls ----

  /** The worker's plans carry increasing numbers, so no plan is adopted twice. */
  ghost predicate AdoptedInOrder(adopted: seq<Adopted>) {
    forall i, k :: 0 <= i < k < |adopted| ==> adopted[i].ref.plan < adopted[k].ref.plan
  }

  lemma AdoptedFound(adopted: seq<Adopted>, ref: PlanRef, revoked: bool)
    requires AdoptedInOrder(adopted)
    ensures var i := FindAdopted(adopted, ref);
            Adopted(ref, revoked) in adopted <==> i < |adopted| && adopted[i] == Adopted(ref, revoked)
  {
    var i := FindAdopted(adopted, ref);
    if Adopted(ref, revoked) in adopted {
      var k :| 0 <= k < |adopted| && adopted[k] == Adopted(ref, revoked);
      assert adopted[i].ref.plan == adopted[k].ref.plan;
      assert i == k;
    }
  }

  lemma AdoptedElsewhere(adopted: seq<Adopted>, ref: PlanRef, a: Adopted)
    requires AdoptedInOrder(adopted) && FindAdopted(adopted, ref) < |adopted|
    ensures Elsewhere(adopted, FindAdopted(adopted, ref), a) <==> a in adopted && a.ref != ref
  {
    var i := FindAdopted(adopted, ref);
    assert adopted[i].ref == ref;
    if a in adopted {
      var k :| 0 <= k < |adopted| && adopted[k] == a;
      assert k != i ==> adopted[k].ref.plan != adopted[i].ref.plan;
    }
  }

  /** Adopted and not revoked, as a listed pair. */
  lemma UsableMeansListed(w: Worker, ref: PlanRef)
    requires AdoptedInOrder(w.adopted)
    ensures PlanUsable(w, ref) <==> Adopted(ref, false) in w.adopted
  {
    hide AdoptedInOrder;
    AdoptedFound(w.adopted, ref, false);
  }

  /** The worker may take a new command: open, and no command of its own still live. */
  ghost predicate MayTake(s: System, now: nat) {
    s.worker.fence == Open && (s.worker.active.Some? ==> !s.worker.active.value.Live(now))
  }

  ghost predicate Admissible(s: System, command: Command, now: nat) {
    command.token > s.worker.tokenFloor && Adopted(command.ref, false) in s.worker.adopted && command.Live(now)
  }

  lemma AdoptedOrder(s: System)
    requires Reachable(s)
    ensures AdoptedInOrder(s.worker.adopted)
    ensures s.worker.pc.Drained? && s.worker.fence == Open ==> s.worker.pc.snapshot <= s.hostControl.read
    ensures s.worker.active.Some? ==> s.worker.fence == Open
  {
    hide Run;
    ReachableSound(s);
  }

  /**
    The command a drained call takes: the oldest one queued, exactly when the worker may take one, and
    admitted exactly when its token is new, its plan adopted and not revoked, and its deadlines ahead.
    A command refused is consumed all the same, and one with a new token uses that token up.
    */
  lemma CommandTakenExactly(s: System, now: nat, c: nat)
    requires Reachable(s) && s.worker.pc.Drained? && s.worker.pc.goal == NextCommand
    ensures var t := Next(s, WFinish(now, c));
      && t == LoadUp(s, c, 0).(hostData := t.hostData, worker := t.worker, log := t.log, tokens := t.tokens)
      && t.worker == s.worker.(active := t.worker.active, tokenFloor := t.worker.tokenFloor, pc := Ready)
      && (!MayTake(s, now) || s.hostData.Empty() ==>
            && t.hostData == s.hostData && t.log == s.log && t.tokens == s.tokens
            && t.worker.tokenFloor == s.worker.tokenFloor
            && t.worker.active == (if MayTake(s, now) then None else s.worker.active))
      && (MayTake(s, now) && !s.hostData.Empty() ==>
            var command := s.hostData.sent[s.hostData.read];
            && t.hostData == s.hostData.(read := s.hostData.read + 1)
            && t.worker.tokenFloor == Max(s.worker.tokenFloor, command.token)
            && t.worker.active == (if Admissible(s, command, now) then Some(command) else None)
            && t.log == s.log + (if Admissible(s, command, now) then [Admission(command, s.worker.pc.snapshot)] else [])
            && t.tokens == s.tokens + (if Admissible(s, command, now) then [command.token] else []))
  {
    hide Run, Reachable, PlanUsable, AdoptedInOrder;
    AdoptedOrder(s);
    if !s.hostData.Empty() {
      UsableMeansListed(s.worker, s.hostData.sent[s.hostData.read].ref);
    }
  }

  /** An output symbol is admitted exactly for the active live command of a plan adopted and not revoked. */
  lemma SymbolAdmittedExactly(s: System, command: Command, now: nat, c: nat)
    requires Reachable(s) && s.worker.pc.Drained? && s.worker.pc.goal == AdmitOutput(command)
    ensures var t := Next(s, WFinish(now, c));
      var mine := s.worker.active == Some(command) && Adopted(command.ref, false) in s.worker.adopted;
      && t == LoadUp(s, c, 0).(worker := t.worker, log := t.log)
      && t.log == s.log + (if mine && command.Live(now) then [Admission(command, s.worker.pc.snapshot)] else [])
      && t.worker == s.worker.(pc := Ready, active := if mine && !command.Live(now) then None else s.worker.active)
  {
    hide Run, Reachable, PlanUsable, AdoptedInOrder;
    AdoptedOrder(s);
    UsableMeansListed(s.worker, command.ref);
  }

  /** A record posted, or the lane full: output closes and the lost ordinal is named by the one gap. */
  ghost predicate PostedOrGap(s: System, t: System, record: DataRecord, room: bool) {
    && t == s.(up := t.up, worker := t.worker)
    && t.up.data.read == s.up.data.read && t.up.control.read == s.up.control.read
    && t.up.data.sent == s.up.data.sent + (if room then [record] else [])
    && t.up.control.sent == s.up.control.sent + (if room then [] else [Gap(record.ordinal)])
    && t.worker.fence == (if room then Open else DataFull)
    && t.worker.adopted == s.worker.adopted && t.worker.next == record.ordinal + 1
  }

  /**
    An open worker between calls posts each octet it observes, under the next ordinal; a selection
    that is not its active command, and every octet of a fenced worker, is passed over.
    */
  lemma OctetPosted(s: System, octet: byte, selection: Option<Command>, c: nat, d: nat)
    requires Reachable(s)
    ensures var t, w := Next(s, WRaw(octet, selection, c, d)), s.worker;
      var inOrder := w.pc == Ready && w.fence == Open && (selection == None || selection == w.active);
      && (inOrder ==>
            && PostedOrGap(s, t, Raw(w.next, octet, selection), s.up.data.Load(d).HasRoom(s.cfg.workerData, 0))
            && t.worker.active == (if t.worker.fence == Open then w.active else None))
      && (!inOrder ==> t == LoadUp(s, c, d))
  {
    hide Run, Reachable, Inv, UpSound;
    ReachableSound(s);
    LoadUpSound(s, c, d);
    if s.worker.fence == Open {
      GapHasRoom(LoadUp(s, c, d));
    }
  }

  lemma GapHasRoom(s: System)
    requires Inv(s) && s.worker.fence == Open
    ensures !s.worker.gapLatched && !s.worker.gapWritten && s.up.control.HasRoom(s.cfg.workerControl, 0)
  {
  }

  /** The active command completes once: with a record while it lives, silently when it has lapsed. */
  lemma CompletionPosted(s: System, command: Command, now: nat, c: nat, d: nat)
    requires Reachable(s)
    ensures var t, w := Next(s, WComplete(command, now, c, d)), s.worker;
      var mine := w.pc == Ready && w.active == Some(command);
      && (mine ==> t.worker.active == None)
      && (mine && command.Live(now) ==>
            PostedOrGap(s, t, Completion(w.next, command), s.up.data.Load(d).HasRoom(s.cfg.workerData, 0)))
      && (mine && !command.Live(now) ==> t == LoadUp(s, c, d).(worker := w.(active := None)))
      && (!mine ==> t == LoadUp(s, c, d))
  {
    hide Run, Reachable, Inv, UpSound;
    ReachableSound(s);
    LoadUpSound(s, c, d);
    AdoptedOrder(s);
    if s.worker.active.Some? {
      GapHasRoom(LoadUp(s, c, d));
    }
  }

  /** The drain's handling of the oldest unread host control record. */
  function Handle(s: System, goal: Goal, now: nat): (System, bool)
    requires s.hostControl.read < |s.hostControl.sent|
  {
    HandleHostControl(SetPc(s, Draining(s.cfg.hostControl, |s.hostControl.sent|, goal)),
                      s.hostControl.sent[s.hostControl.read], now)
  }

  /**
    A publication is adopted exactly by an open worker with room for it, while it is newer than every
    plan before it and not expired; any other is remembered as refused while there is room for that.
    */
  lemma PublicationHandled(s: System, ref: PlanRef, now: nat, goal: Goal)
    requires Reachable(s) && s.hostControl.read < |s.hostControl.sent| && s.worker.pc == Ready
    requires s.hostControl.sent[s.hostControl.read] == Publish(ref)
    ensures var (t, ok) := Handle(s, goal, now);
      var w := s.worker;
      var taken := w.fence == Open && ref.plan > w.planFloor && now < ref.expiry && |w.adopted| != s.cfg.maxPlans;
      && ok
      && t.worker.adopted == w.adopted + (if taken then [Adopted(ref, false)] else [])
      && t.worker.planFloor == (if taken then ref.plan else w.planFloor)
      && t.worker.refused == w.refused + (if !taken && |w.refused| < s.cfg.maxPlans then [ref] else [])
      && (t.worker.fence != w.fence <==> w.fence == Open && !taken && |w.refused| >= s.cfg.maxPlans)
      && (t.worker.fence != w.fence ==> t.worker.fence == ControlSaturated && t.worker.gapWritten)
  {
    hide Run, Reachable, Inv, UpSound;
    ReachableSound(s);
    if s.worker.fence == Open {
      GapHasRoom(s);
    }
  }

  /** A stop read by the worker fences it, if nothing else had, and drops its active command. */
  lemma StopHandled(s: System, now: nat, goal: Goal)
    requires s.hostControl.read < |s.hostControl.sent| && s.hostControl.sent[s.hostControl.read] == Stop
    ensures var (t, ok) := Handle(s, goal, now);
      && ok && t.worker.active == None && t.worker.fence == (if s.worker.fence == Open then Stopped else s.worker.fence)
      && t.worker.adopted == s.worker.adopted && t.worker.refused == s.worker.refused && t.up == s.up
  {
  }

  // ---- Host calls ----

  /**
    A plan is published exactly by an open host, newer than every plan before it, not expired and with
    room in the table; a full control lane fences the host instead.
    */
  lemma PublishedExactly(s: System, ref: PlanRef, now: nat, c: nat)
    requires Reachable(s) && s.host.pc == Idle
    ensures var t, h, lane := Next(s, HPublish(ref, now, c)), s.host, s.hostControl.Load(c);
      var asked := h.fence == Open && ref.plan > h.planFloor && now < ref.expiry && |h.plans| < s.cfg.maxPlans;
      var room := |lane.sent| - lane.seen + 1 < s.cfg.hostControl;
      && t == s.(hostControl := t.hostControl, host := t.host)
      && t.hostControl == lane.(sent := s.hostControl.sent + if asked && room then [Publish(ref)] else [])
      && t.host == (if asked && room then h.(planFloor := ref.plan, plans := h.plans + [HostPlan(ref, false)])
                    else if asked then h.(fence := ControlSaturated) else h)
  {
    hide Reachable, Run;
  }

  /** A command is queued exactly by an open host under a listed plan it is not revoking, with a new token, live, and room for it. */
  lemma SentExactly(s: System, command: Command, now: nat, d: nat)
    requires Reachable(s) && s.host.pc == Idle
    ensures var t, h, lane := Next(s, HSend(command, now, d)), s.host, s.hostData.Load(d);
      var sent := h.fence == Open && HostPlan(command.ref, false) in h.plans && command.token > h.tokenFloor && command.Live(now)
        && |lane.sent| - lane.seen < s.cfg.hostData;
      && t == s.(hostData := t.hostData, host := t.host)
      && t.hostData == lane.(sent := s.hostData.sent + if sent then [command] else [])
      && t.host == (if sent then h.(tokenFloor := command.token) else h)
  {
    hide Reachable, Run;
    ReachableOrdered(s);
    PlanFound(s.host, command.ref, false);
  }

  /** A revocation is queued exactly once for a listed plan; a full control lane fences the host instead. */
  lemma RevokedExactly(s: System, ref: PlanRef, c: nat)
    requires Reachable(s) && s.host.pc == Idle
    ensures var t, h, lane := Next(s, HRevoke(ref, c)), s.host, s.hostControl.Load(c);
      var asked := HostPlan(ref, false) in h.plans;
      var room := |lane.sent| - lane.seen + 1 < s.cfg.hostControl;
      && t == s.(hostControl := t.hostControl, host := t.host)
      && t.hostControl == lane.(sent := s.hostControl.sent + if asked && room then [Revoke(ref)] else [])
      && t.host == h.(plans := t.host.plans, fence := if asked && !room && h.fence == Open then ControlSaturated else h.fence)
      && (!(asked && room) ==> t.host.plans == h.plans)
      && (asked && room ==> forall p :: p in t.host.plans <==> p == HostPlan(ref, true) || (p in h.plans && p.ref != ref))
  {
    hide Reachable, Run;
    ReachableOrdered(s);
    PlanFound(s.host, ref, false);
    if HostPlan(ref, false) in s.host.plans { PlanMarked(s.host, ref); }
  }

  // ---- A plan's life over the link ----

  /** Both ends open and between calls, and the worker has read all host control. */
  ghost predicate Settled(s: System) {
    && Reachable(s) && s.host.fence == Open && s.worker.fence == Open
    && s.host.pc == Idle && s.worker.pc == Ready
    && s.hostControl.read == |s.hostControl.sent|
  }

  /** A worker call that finds nothing on the host control lane. */
  function Serve(s: System, goal: Goal, now: nat): System {
    Next(Next(Next(s, WStart(goal)), WDrain(now, 0)), WFinish(now, s.up.control.read))
  }

  /** A worker call that handles one host control record on the way. */
  function ServeOne(s: System, goal: Goal, now: nat): System {
    var handled := Next(Next(s, WStart(goal)), WDrain(now, 0));
    Next(Next(Next(handled, WRelease), WDrain(now, 0)), WFinish(now, s.up.control.read))
  }

  /** After the start and the drain of an undisturbed call nothing but the worker's position has changed. */
  lemma DrainsNothing(s: System, goal: Goal, now: nat)
    requires s.worker.pc == Ready && s.hostControl.read == |s.hostControl.sent|
    ensures var t := Next(Next(s, WStart(goal)), WDrain(now, 0));
            t == s.(worker := s.worker.(pc := Drained(|s.hostControl.sent|, goal)))
  {
  }

  lemma LoadNothing(s: System)
    ensures LoadUp(s, 0, 0) == s && s.hostData.Load(0) == s.hostData && s.hostControl.Load(0) == s.hostControl
  {
  }

  /** The call up to its end, with one record to handle. */
  lemma DrainsOne(s: System, goal: Goal, now: nat)
    requires s.worker.pc == Ready && s.hostControl.read + 1 == |s.hostControl.sent| && s.cfg.hostControl > 1
    requires Handle(s, goal, now).1 && Handle(s, goal, now).0.hostControl == s.hostControl
    ensures var t := Next(Next(s, WStart(goal)), WDrain(now, 0));
            Next(Next(t, WRelease), WDrain(now, 0)) == Handle(s, goal, now).0.(
              hostControl := s.hostControl.(read := |s.hostControl.sent|),
              worker := Handle(s, goal, now).0.worker.(pc := Drained(|s.hostControl.sent|, goal)))
  {
    hide HandleHostControl, LoadUp;
    var h := Handle(s, goal, now).0;
    LoadNothing(s);
    var started := Next(s, WStart(goal));
    LoadNothing(started);
    var drained := Next(started, WDrain(now, 0));
    assert drained == SetPc(h, Releasing(s.cfg.hostControl, |s.hostControl.sent|, goal));
    var released := Next(drained, WRelease);
    LoadNothing(released);
  }

  lemma ServesReachable(s: System, goal: Goal, now: nat)
    requires Reachable(s)
    ensures Reachable(Serve(s, goal, now)) && Reachable(ServeOne(s, goal, now))
    ensures Reachable(Next(Next(s, WStart(goal)), WDrain(now, 0)))
  {
    hide Next, Reachable;
    ReachableOn(s, WStart(goal));
    var started := Next(s, WStart(goal));
    ReachableOn(started, WDrain(now, 0));
    var drained := Next(started, WDrain(now, 0));
    ReachableOn(drained, WFinish(now, s.up.control.read));
    ReachableOn(drained, WRelease);
    ReachableOn(Next(drained, WRelease), WDrain(now, 0));
    ReachableOn(Next(Next(drained, WRelease), WDrain(now, 0)), WFinish(now, s.up.control.read));
  }

  lemma LastStep(s: System, goal: Goal, now: nat)
    ensures ServeOne(s, goal, now) ==
            Next(Next(Next(Next(Next(s, WStart(goal)), WDrain(now, 0)), WRelease), WDrain(now, 0)), WFinish(now, s.up.control.read))
  {
  }

  lemma SettledBounds(s: System)
    requires Settled(s)
    ensures s.hostControl.seen <= s.hostControl.read && s.cfg.Valid()
    ensures s.hostData.seen <= s.hostData.read <= |s.hostData.sent|
    ensures s.up.control.seen <= s.up.control.read <= |s.up.control.sent|
    ensures s.worker.tokenFloor <= s.host.tokenFloor
  {
    hide Run;
    ReachableSound(s);
  }

  /** A plan published while both ends are settled is adopted by the worker's next call. */
  lemma PlanReachesWorker(s: System, ref: PlanRef, now: nat)
    requires Settled(s) && |s.host.plans| < s.cfg.maxPlans && |s.worker.adopted| < s.cfg.maxPlans
    requires ref.plan > s.host.planFloor && ref.plan > s.worker.planFloor && now < ref.expiry
    ensures var t := ServeOne(Next(s, HPublish(ref, now, s.hostControl.read)), PollOnly, now);
      && Settled(t)
      && t.host.plans == s.host.plans + [HostPlan(ref, false)]
      && t.worker.adopted == s.worker.adopted + [Adopted(ref, false)]
      && t.worker.active == s.worker.active && t.log == s.log
      && t.up.data.sent == s.up.data.sent && t.up.control.sent == s.up.control.sent && t.hostData == s.hostData
  {
    hide Reachable, Run;
    SettledBounds(s);
    var published := Next(s, HPublish(ref, now, s.hostControl.read));
    ReachableOn(s, HPublish(ref, now, s.hostControl.read));
    ServesReachable(published, PollOnly, now);
    assert published == s.(
        hostControl := s.hostControl.(sent := s.hostControl.sent + [Publish(ref)], seen := s.hostControl.read),
        host := s.host.(planFloor := ref.plan, plans := s.host.plans + [HostPlan(ref, false)]));
    DrainsOne(published, PollOnly, now);
    hide Next;
    LastStep(published, PollOnly, now);
  }

  lemma CommandSent(s: System, command: Command, now: nat)
    requires Settled(s) && s.hostData.read == |s.hostData.sent| && HostPlan(command.ref, false) in s.host.plans
    requires command.token > s.host.tokenFloor && command.Live(now)
    ensures Next(s, HSend(command, now, s.hostData.read)) == s.(
              hostData := s.hostData.(sent := s.hostData.sent + [command], seen := s.hostData.read),
              host := s.host.(tokenFloor := command.token))
  {
    hide Reachable, Run;
    SettledBounds(s);
    ReachableOrdered(s);
    PlanFound(s.host, command.ref, false);
  }

  /**
    A command sent under an adopted plan, with both ends settled, becomes the worker's active command
    at its next call, and every output symbol asked for while it lives is admitted.
    */
  lemma CommandIsServed(s: System, command: Command, now: nat, later: nat)
    requires Settled(s) && s.hostData.read == |s.hostData.sent| && MayTake(s, now)
    requires HostPlan(command.ref, false) in s.host.plans && Adopted(command.ref, false) in s.worker.adopted
    requires command.token > s.host.tokenFloor && command.Live(now)
    ensures var t := Serve(Next(s, HSend(command, now, s.hostData.read)), NextCommand, now);
      && Settled(t) && t.worker.active == Some(command) && t.hostData.read == |t.hostData.sent|
      && t.log == s.log + [Admission(command, |s.hostControl.sent|)] && t.tokens == s.tokens + [command.token]
      && t.worker.adopted == s.worker.adopted && t.host.plans == s.host.plans
      && (command.Live(later) ==>
            var u := Serve(t, AdmitOutput(command), later);
            Settled(u) && u.worker == t.worker && u.log == t.log + [Admission(command, |s.hostControl.sent|)])
  {
    hide Reachable, Run, Next;
    SettledBounds(s);
    var sent := Next(s, HSend(command, now, s.hostData.read));
    CommandSent(s, command, now);
    ReachableOn(s, HSend(command, now, s.hostData.read));
    ServesReachable(sent, NextCommand, now);
    DrainsNothing(sent, NextCommand, now);
    CommandTakenExactly(Next(Next(sent, WStart(NextCommand)), WDrain(now, 0)), now, sent.up.control.read);
    var t := Serve(sent, NextCommand, now);
    assert Settled(t);
    if command.Live(later) {
      ServesReachable(t, AdmitOutput(command), later);
      DrainsNothing(t, AdmitOutput(command), later);
      SymbolAdmittedExactly(Next(Next(t, WStart(AdmitOutput(command))), WDrain(later, 0)), command, later, t.up.control.read);
    }
  }

  // ---- Withdrawal ----

  /** The worker's plans without one reference: the one pair that named it is gone, nothing else is. */
  lemma AdoptedDropped(adopted: seq<Adopted>, ref: PlanRef)
    requires AdoptedInOrder(adopted) && FindAdopted(adopted, ref) < |adopted|
    ensures var i := FindAdopted(adopted, ref);
            forall a :: a in adopted[..i] + adopted[i + 1..] <==> a in adopted && a.ref != ref
  {
    hide AdoptedInOrder, Elsewhere;
    var i := FindAdopted(adopted, ref);
    forall a
      ensures a in adopted[..i] + adopted[i + 1..] <==> a in adopted && a.ref != ref
    {
      CutMembers(adopted, i, a);
      AdoptedElsewhere(adopted, ref, a);
    }
  }

  lemma AdoptedMarked(adopted: seq<Adopted>, ref: PlanRef)
    requires AdoptedInOrder(adopted) && FindAdopted(adopted, ref) < |adopted|
    ensures forall a :: a in adopted[FindAdopted(adopted, ref) := Adopted(ref, true)] <==>
                        a == Adopted(ref, true) || (a in adopted && a.ref != ref)
  {
    hide AdoptedInOrder, Elsewhere;
    forall a
      ensures a in adopted[FindAdopted(adopted, ref) := Adopted(ref, true)] <==>
              a == Adopted(ref, true) || (a in adopted && a.ref != ref)
    {
      SwapMembers(adopted, FindAdopted(adopted, ref), Adopted(ref, true), a);
      AdoptedElsewhere(adopted, ref, a);
    }
  }

  /** The worker handles a revocation it finds: the plan is marked and its active command dropped. */
  lemma RevocationHandled(s: System, ref: PlanRef, now: nat, goal: Goal)
    requires Reachable(s) && s.hostControl.read < |s.hostControl.sent| && s.worker.pc == Ready
    requires s.hostControl.sent[s.hostControl.read] == Revoke(ref) && Adopted(ref, false) in s.worker.adopted
    ensures var (t, ok) := Handle(s, goal, now);
      && ok && t == s.(worker := t.worker)
      && t.worker == s.worker.(adopted := t.worker.adopted, active := t.worker.active, pc := t.worker.pc)
      && t.worker.active == (if s.worker.active.Some? && s.worker.active.value.ref == ref then None else s.worker.active)
      && (forall a :: a in t.worker.adopted <==> a == Adopted(ref, true) || (a in s.worker.adopted && a.ref != ref))
  {
    hide Reachable, Run, AdoptedInOrder;
    AdoptedOrder(s);
    AdoptedFound(s.worker.adopted, ref, false);
    AdoptedMarked(s.worker.adopted, ref);
  }

  /** A retirement acknowledgement leaves exactly for a plan the worker holds as revoked. */
  lemma RetirementAcknowledged(s: System, ref: PlanRef, now: nat, c: nat)
    requires Reachable(s) && s.worker.pc.Drained? && s.worker.pc.goal == AcknowledgeRevocation(ref)
    requires s.up.control.Load(c).HasRoom(s.cfg.workerControl, RESERVED)
    ensures var t := Next(s, WFinish(now, c));
      var mine := Adopted(ref, true) in s.worker.adopted;
      && t == s.(up := t.up, worker := t.worker)
      && t.up.data.sent == s.up.data.sent && t.up.control.read == s.up.control.read && t.up.data.read == s.up.data.read
      && t.up.control.sent == s.up.control.sent + (if mine then [Acknowledge(s.worker.next, ref)] else [])
      && t.worker == s.worker.(adopted := t.worker.adopted, next := t.worker.next, pc := Ready)
      && (forall a :: a in t.worker.adopted <==> a in s.worker.adopted && !(mine && a.ref == ref))
  {
    hide Reachable, Run, AdoptedInOrder;
    AdoptedOrder(s);
    AdoptedFound(s.worker.adopted, ref, true);
    if Adopted(ref, true) in s.worker.adopted {
      AdoptedDropped(s.worker.adopted, ref);
    }
  }

  /** The host asks for a plan it lists: the revocation is queued and the plan marked, once. */
  lemma RevocationSent(s: System, ref: PlanRef)
    requires Settled(s) && HostPlan(ref, false) in s.host.plans
    ensures var t := Next(s, HRevoke(ref, s.hostControl.read));
      && t == s.(hostControl := s.hostControl.(sent := s.hostControl.sent + [Revoke(ref)], seen := s.hostControl.read),
                 host := t.host)
      && t.host == s.host.(plans := t.host.plans)
      && (forall p :: p in t.host.plans <==> p == HostPlan(ref, true) || (p in s.host.plans && p.ref != ref))
  {
    hide Reachable, Run;
    SettledBounds(s);
    ReachableOrdered(s);
    PlanFound(s.host, ref, false);
    PlanMarked(s.host, ref);
  }

  lemma PlanMarked(h: Host, ref: PlanRef)
    requires PlansOrdered(h) && FindPlan(h.plans, ref) < |h.plans|
    ensures forall p :: p in h.plans[FindPlan(h.plans, ref) := HostPlan(ref, true)] <==>
                        p == HostPlan(ref, true) || (p in h.plans && p.ref != ref)
  {
    hide PlansOrdered, Elsewhere;
    forall p
      ensures p in h.plans[FindPlan(h.plans, ref) := HostPlan(ref, true)] <==>
              p == HostPlan(ref, true) || (p in h.plans && p.ref != ref)
    {
      SwapMembers(h.plans, FindPlan(h.plans, ref), HostPlan(ref, true), p);
      PlanElsewhere(h, ref, p);
    }
  }

  /**
    Withdrawal comes full circle: the host revokes, the worker's next call drops its active command
    under the plan and acknowledges, and the host's next round takes the plan off its list. Both ends
    stay open and every other plan is untouched.
    */
  lemma RevocationCompletes(s: System, ref: PlanRef, now: nat)
    requires Settled(s) && s.up.control.read == |s.up.control.sent| && s.up.data.read == |s.up.data.sent|
    requires HostPlan(ref, false) in s.host.plans && Adopted(ref, false) in s.worker.adopted
    ensures var t := Run(ServeOne(Next(s, HRevoke(ref, s.hostControl.read)), AcknowledgeRevocation(ref), now), ROUND);
      && Settled(t)
      && (forall p :: p in t.host.plans <==> p in s.host.plans && p.ref != ref)
      && (forall a :: a in t.worker.adopted <==> a in s.worker.adopted && a.ref != ref)
      && t.worker.active == (if s.worker.active.Some? && s.worker.active.value.ref == ref then None else s.worker.active)
      && t.up.control.read == |t.up.control.sent| && t.host.accepted == s.host.accepted
  {
    hide Reachable, Run, Next, PlansOrdered, Handle;
    SettledBounds(s);
    var goal := AcknowledgeRevocation(ref);
    var r := Next(s, HRevoke(ref, s.hostControl.read));
    RevocationSent(s, ref);
    ReachableOn(s, HRevoke(ref, s.hostControl.read));
    RevocationHandled(r, ref, now, goal);
    DrainsOne(r, goal, now);
    var drained := Next(Next(Next(Next(r, WStart(goal)), WDrain(now, 0)), WRelease), WDrain(now, 0));
    ServesReachable(r, goal, now);
    DrainedReachable(r, goal, now);
    LastStep(r, goal, now);
    RetirementAcknowledged(drained, ref, now, r.up.control.read);
    AcknowledgedRound(ServeOne(r, goal, now), ref);
    assert forall p :: p in r.host.plans && p != HostPlan(ref, true) ==> p.ref != ref;
  }

  lemma DrainedReachable(s: System, goal: Goal, now: nat)
    requires Reachable(s)
    ensures Reachable(Next(Next(Next(Next(s, WStart(goal)), WDrain(now, 0)), WRelease), WDrain(now, 0)))
  {
    hide Next, Reachable;
    ServesReachable(s, goal, now);
    var drained := Next(Next(s, WStart(goal)), WDrain(now, 0));
    ReachableOn(drained, WRelease);
    ReachableOn(Next(drained, WRelease), WDrain(now, 0));
  }

  /** A round that meets one acknowledgement and no data. */
  lemma AcknowledgedRound(s: System, ref: PlanRef)
    requires Settled(s) && s.up.data.read == |s.up.data.sent|
    requires s.up.control.read + 1 == |s.up.control.sent| && s.up.control.sent[s.up.control.read].Acknowledge?
    requires s.up.control.sent[s.up.control.read].ref == ref
    ensures var t := Run(s, ROUND);
      && Settled(t) && t == s.(up := t.up, host := t.host)
      && t.up.control.read == |t.up.control.sent| && t.host.accepted == s.host.accepted
      && (forall p :: p in t.host.plans <==> p in s.host.plans && p != HostPlan(ref, true))
  {
    hide Reachable, Run, Next, PlansOrdered;
    RoundSteps(s);
    RunReachable(s, ROUND);
    ReachableOn(s, HSample);
    SampledHead(s);
    var u := Next(s, HSample);
    TimelyAcknowledgement(u);
    DataPollWaits(Next(u, HPollControl(false)));
  }
}
