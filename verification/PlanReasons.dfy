/** No step, on the host or at a worker, weakens the reason a plan was withdrawn for. */
module PlanReasons {
  import opened Octets
  import opened Registry
  import opened WorkerView
  import opened RegistrySafety
  import opened Withdrawals
  import opened PlanEffects
  import opened PlanSafety

  // ---- Host operations ----

  /** A withdrawn plan stays as it is, and its reason is at least as strong. */
  ghost predicate NotWeaker(a: Slot, b: Slot) {
    a.state == Retained ==> b == a.(reason := b.reason) && Rank(b.reason) >= Rank(a.reason)
  }

  lemma RetiredNotWeaker(s: Slot, t: Slot, reason: Reason)
    requires t == s || RetiredFor(s, t, reason)
    ensures NotWeaker(s, t)
  {
  }

  lemma JustNotWeaker(a: seq<Slot>, b: seq<Slot>, reason: Reason, k: nat, chosen: bool)
    requires k < |a| && RetiresJust(a, b, reason, k, chosen)
    ensures k < |b| && NotWeaker(a[k], b[k])
  {
    RetiredNotWeaker(a[k], b[k], reason);
  }

  lemma ClockNotWeaker(r: Registry, now: Reading, k: nat)
    requires k < |r.slots|
    ensures k < |ObserveClock(r, now).slots| && NotWeaker(r.slots[k], ObserveClock(r, now).slots[k])
  {
    ClockFaultRevokes(r, now, k);
    JustNotWeaker(r.slots, ObserveClock(r, now).slots, Revoked, k, !r.clock.closed && r.clock.Observe(now).closed);
  }

  /** No host operation weakens a reason. */
  lemma OperationKeepsReason(r: Registry, h: History, op: Op, k: nat)
    requires Inv(r, h) && k < |r.slots|
    ensures k < |Apply(r, op).slots| && NotWeaker(r.slots[k], Apply(r, op).slots[k])
  {
    hide NotWeaker, RetiresJust, ObserveClock, MarkConflict, Unregister, BindWorker, AdvanceSource, Disconnect, Reset, ExpireDue,
      Publish, Register, Renew, Prepare, Abort, Reclaim, Inv, KeySwept;
    InvPlaces(r, h);
    match op
    case Open => SameNotWeaker(r.slots[k]);
    case Clear(_) => SameNotWeaker(r.slots[k]);
    case Claim(c, now) => ClockNotWeaker(r, now, k); RegisterSlots(r, c, now);
    case Extend(key, expiry, now) => ClockNotWeaker(r, now, k); RenewSlots(r, key, expiry, now);
    case Withdraw(key) =>
      UnregisterRevokes(r, key, k);
      JustNotWeaker(r.slots, Unregister(r, key).slots, Revoked, k, HasRecord(r, key) && r.records[key.address].active && r.slots[k].identity.key == key);
    case Drop(id) =>
      DisconnectRevokes(r, id, k);
      JustNotWeaker(r.slots, Disconnect(r, id).slots, Revoked, k, id in r.subscribers && KeySwept(r, OfSubscriber(id), r.slots[k].identity.key));
    case Restart =>
      ResetRevokes(r, k);
      JustNotWeaker(r.slots, Reset(r).slots, Revoked, k, KeySwept(r, All, r.slots[k].identity.key));
    case Conflict(address) =>
      ConflictRevokes(r, address, k);
      JustNotWeaker(r.slots, MarkConflict(r, address).slots, Revoked, k, r.slots[k].identity.key.address == address);
    case Refresh(key, source, expiry, now) => RefreshNotWeaker(r, key, source, expiry, now, k);
    case Expire(now) => ExpireNotWeaker(r, h, now, k);
    case Bind(worker, stream) => BindNotWeaker(r, worker, stream, k);
    case Write(plan, now) => ClockNotWeaker(r, now, k); WriteNotWeaker(r, plan, now, k);
    case Cancel(ref) => FreesNotWeaker(r, ref, k);
    case Recycle(ref) => FreesNotWeaker(r, ref, k);
    case Show(ref, now) => ShowNotWeaker(r, h, ref, now, k);
  }

  lemma InvPlaces(r: Registry, h: History)
    requires Inv(r, h)
    ensures Placed(r)
  {
    assert forall a :: a in r.records ==> RecordSound(r.records[a], a, r.slots);
  }

  lemma SameNotWeaker(s: Slot)
    ensures NotWeaker(s, s)
  {
  }

  lemma RegisterSlots(r: Registry, c: Registration, now: Reading)
    ensures Register(r, c, now).slots == ObserveClock(r, now).slots
  {
    hide ObserveClock;
  }

  lemma RenewSlots(r: Registry, key: Key, expiry: nat, now: Reading)
    ensures Renew(r, key, expiry, now).slots == ObserveClock(r, now).slots
  {
    hide ObserveClock;
  }

  lemma RefreshNotWeaker(r: Registry, key: Key, source: nat, expiry: nat, now: Reading, k: nat)
    requires k < |r.slots|
    ensures k < |AdvanceSource(r, key, source, expiry, now).slots|
    ensures NotWeaker(r.slots[k], AdvanceSource(r, key, source, expiry, now).slots[k])
  {
    hide ObserveClock, AdvanceSource;
    ClockNotWeaker(r, now, k);
    AdvanceRevokes(r, key, source, expiry, now, k);
    RetiredNotWeaker(ObserveClock(r, now).slots[k], AdvanceSource(r, key, source, expiry, now).slots[k], Revoked);
  }

  lemma ExpireNotWeaker(r: Registry, h: History, now: Reading, k: nat)
    requires Inv(r, h) && k < |r.slots|
    ensures k < |ExpireDue(r, now).slots| && NotWeaker(r.slots[k], ExpireDue(r, now).slots[k])
  {
    hide ObserveClock, ExpireDue, Inv, Evolves;
    ClockNotWeaker(r, now, k);
    ObserveClockKeeps(r, h, now);
    InvPlaces(ObserveClock(r, now), h);
    ExpiryExpires(r, now, k);
    RetiredNotWeaker(ObserveClock(r, now).slots[k], ExpireDue(r, now).slots[k], Expired);
  }

  lemma BindNotWeaker(r: Registry, worker: nat, stream: nat, k: nat)
    requires k < |r.slots|
    ensures k < |BindWorker(r, worker, stream).slots| && NotWeaker(r.slots[k], BindWorker(r, worker, stream).slots[k])
  {
    hide BindWorker;
    BindRevokes(r, worker, stream, k);
    RetiredNotWeaker(r.slots[k], BindWorker(r, worker, stream).slots[k], Revoked);
  }

  lemma WriteNotWeaker(r: Registry, c: Candidate, now: Reading, k: nat)
    requires k < |ObserveClock(r, now).slots| && k < |r.slots| && NotWeaker(r.slots[k], ObserveClock(r, now).slots[k])
    ensures k < |Prepare(r, c, now).slots| && NotWeaker(r.slots[k], Prepare(r, c, now).slots[k])
  {
    hide ObserveClock, FirstFree, StoreFrom, Content, CandidateOk, LeaseOk;
  }

  lemma FreesNotWeaker(r: Registry, ref: SlotRef, k: nat)
    requires k < |r.slots|
    ensures k < |Abort(r, ref).slots| && NotWeaker(r.slots[k], Abort(r, ref).slots[k])
    ensures k < |Reclaim(r, ref).slots| && NotWeaker(r.slots[k], Reclaim(r, ref).slots[k])
  {
  }

  lemma ShowNotWeaker(r: Registry, h: History, ref: SlotRef, now: Reading, k: nat)
    requires Inv(r, h) && k < |r.slots|
    ensures k < |Publish(r, ref, now).0.slots| && NotWeaker(r.slots[k], Publish(r, ref, now).0.slots[k])
  {
    hide ObserveClock, Publish, Inv;
    ClockNotWeaker(r, now, k);
    var a, b := ObserveClock(r, now).slots, Publish(r, ref, now).0.slots;
    if Publish(r, ref, now).1.None? {
      StalePublicationDrops(r, ref, now, k);
      RetiredNotWeaker(a[k], b[k], NoReason);
    } else {
      PublicationSupersedes(r, h, ref, now, k);
      PublishedWasWriting(r, ref, now);
      if k != ref.index { RetiredNotWeaker(a[k], b[k], Superseded); }
    }
  }

  lemma PublishedWasWriting(r: Registry, ref: SlotRef, now: Reading)
    requires Publish(r, ref, now).1.Some?
    ensures var seen := ObserveClock(r, now); ref.index < |seen.slots| && seen.slots[ref.index].state == Writing
  {
    hide ObserveClock, MakeCurrent;
  }

  // ---- Whole runs ----

  /**
    A withdrawn plan is withdrawn for good, and for no weaker reason: within its incarnation the slot
    goes on to reclaimable at most, and only from there to the next incarnation.
    */
  ghost predicate Onward(a: Slot, b: Slot) {
    && a.incarnation <= b.incarnation
    && (a.incarnation == b.incarnation ==>
          && (a.state == Retained ==> b.state == Reclaimable || (b.state == Retained && Rank(b.reason) >= Rank(a.reason)))
          && (a.state == Reclaimable ==> b.state == Reclaimable))
  }

  lemma HostOnward(r: Registry, h: History, op: Op, k: nat)
    requires Inv(r, h) && k < |r.slots|
    ensures k < |Apply(r, op).slots| && Onward(r.slots[k], Apply(r, op).slots[k])
  {
    hide Apply, Inv;
    OperationKeepsReason(r, h, op, k);
    ApplySound(r, h, op);
    assert SlotEvolves(r.slots[k], Apply(r, op).slots[k], k in {});
  }

  lemma EndOnward(r: Registry, h: History, worker: nat, k: nat)
    requires Inv(r, h) && k < |r.slots|
    ensures k < |Terminate(r, worker).slots| && Onward(r.slots[k], Terminate(r, worker).slots[k])
  {
    hide Terminate, Inv;
    TerminationStores(r, worker, k);
    var out := TerminateSound(r, h, worker);
    assert SlotEvolves(r.slots[k], Terminate(r, worker).slots[k], k in out);
  }

  lemma StepOnward(w: World, a: Action, k: nat)
    requires WorldInv(w) && Enabled(w, a) && k < |w.reg.slots|
    ensures k < |Next(w, a).reg.slots| && Onward(w.reg.slots[k], Next(w, a).reg.slots[k])
  {
    hide Inv, ViewsSound, ObservationsSound, AcksSound, Apply, Remember, ObserveAck, Terminate, Adopt, ObserveRevocation, Heeded;
    match a
    case Host(op) => HostOnward(w.reg, w.history, op, k);
    case Acknowledged(ack) => AcknowledgementLetsOut(w.reg, ack, k);
    case Ended(worker) => EndOnward(w.reg, w.history, worker, k);
    case _ =>
  }

  /** Over every run. */
  lemma {:induction false} ReasonsOnlyStrengthen(w: World, trace: seq<Action>, end: World, k: nat)
    requires WorldInv(w) && Run(w, trace, end) && k < |w.reg.slots|
    ensures k < |end.reg.slots| && Onward(w.reg.slots[k], end.reg.slots[k])
    decreases trace
  {
    hide WorldInv, Next, Enabled, Onward;
    if trace == [] {
      OnwardItself(w.reg.slots[k]);
    } else {
      StepSound(w, trace[0]);
      StepOnward(w, trace[0], k);
      ReasonsOnlyStrengthen(Next(w, trace[0]), trace[1..], end, k);
      OnwardChains(w.reg.slots[k], Next(w, trace[0]).reg.slots[k], end.reg.slots[k]);
    }
  }

  lemma OnwardItself(s: Slot)
    ensures Onward(s, s)
  {
  }

  lemma OnwardChains(a: Slot, b: Slot, c: Slot)
    requires Onward(a, b) && Onward(b, c)
    ensures Onward(a, c)
  {
  }

  /** In particular a revoked plan is never again shown to a worker as merely superseded or expired. */
  lemma RevokedStaysRevoked(w: World, trace: seq<Action>, end: World, k: nat)
    requires Reachable(w) && Run(w, trace, end) && k < |w.reg.slots|
    requires w.reg.slots[k].state == Retained && w.reg.slots[k].reason == Revoked
    ensures k < |end.reg.slots| && end.reg.slots[k].incarnation >= w.reg.slots[k].incarnation
    ensures end.reg.slots[k].incarnation == w.reg.slots[k].incarnation ==>
              end.reg.slots[k].state == Reclaimable || (end.reg.slots[k].state == Retained && end.reg.slots[k].reason == Revoked)
  {
    hide Reachable, Run, WorldInv;
    ReachableSound(w);
    ReasonsOnlyStrengthen(w, trace, end, k);
  }
}
