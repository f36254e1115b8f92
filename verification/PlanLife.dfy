/**
  A plan's whole life: claimed, written, shown, adopted, selected and served to the last byte; then
  withdrawn, acknowledged, and its storage and address free again.
  */
module PlanLife {
  import opened Octets
  import opened Overlap
  import opened Registry
  import opened WorkerView
  import opened RegistrySafety
  import opened Withdrawals
  import opened PlanEffects
  import opened PlanSafety
  import opened PlanTheorems
  import opened ViewEffects
  import Address

  /** The host clock takes the reading, so the pool is as it was. */
  lemma QuietClock(r: Registry, now: Reading)
    requires ClockTakes(r.clock, now)
    ensures ObserveClock(r, now) == r.(clock := Clock(true, false, now.domain, now.tick))
  {
    ClockTakesExactly(r.clock, now);
  }

  /** What a claim needs of an otherwise arbitrary registry. */
  ghost predicate Claimable(r: Registry, c: Registration, now: Reading) {
    && ClockTakes(r.clock, now)
    && c.key.subscriber in r.subscribers && r.subscribers[c.key.subscriber].open
    && r.subscribers[c.key.subscriber].epochHigh < c.key.epoch && r.subscribers[c.key.subscriber].epochHigh < MAX64
    && c.key.subscriber > 0 && c.source > 0 && c.failure == (Silence, Silence, Silence)
    && Address.IsTarget(c.key.address) && c.key.address !in r.records && c.key.address !in r.conflicts
    && |r.records| < r.limits.maxRegistrations
    && now.tick < c.leaseExpiry <= now.tick + r.limits.maxLease
    && now.tick < c.sourceExpiry <= now.tick + r.limits.maxLease
  }

  /** A claim is admitted exactly under these conditions; a refused one changes nothing but the clock. */
  lemma ClaimedExactly(r: Registry, c: Registration, now: Reading)
    requires ClockTakes(r.clock, now)
    ensures var seen := r.(clock := Clock(true, false, now.domain, now.tick));
      var t := Register(r, c, now);
      && (Claimable(r, c, now) ==>
            var sub := r.subscribers[c.key.subscriber];
            t == seen.(records := r.records[c.key.address := Record(true, c, c.leaseExpiry, c.source, c.sourceExpiry, -1, 0)],
                       subscribers := r.subscribers[c.key.subscriber := Subscriber(true, c.key.epoch, sub.registrations + 1)]))
      && (!Claimable(r, c, now) ==> t == seen)
  {
    hide Address.IsTarget;
    QuietClock(r, now);
  }

  /** A lease is renewed exactly while it runs, to a later end within the limit. */
  lemma RenewedExactly(r: Registry, key: Key, expiry: nat, now: Reading)
    requires ClockTakes(r.clock, now)
    ensures var seen := r.(clock := Clock(true, false, now.domain, now.tick));
      var a := key.address;
      Renew(r, key, expiry, now) ==
        if a in r.records && r.records[a].registered.key == key && r.records[a].active
           && now.tick < r.records[a].leaseExpiry <= expiry <= now.tick + r.limits.maxLease
        then seen.(records := r.records[a := r.records[a].(leaseExpiry := expiry)]) else seen
  {
    QuietClock(r, now);
  }

  /** What a plan needs to be written for a registration. */
  ghost predicate Writable(r: Registry, p: Candidate, now: Reading) {
    var id, a := p.identity, p.identity.key.address;
    && ClockTakes(r.clock, now) && CandidateOk(r.limits, p)
    && r.workerBound && id.worker == r.worker && id.stream == r.stream
    && a in r.records && r.records[a].registered.key == id.key && r.records[a].active && r.records[a].source == id.source
    && a !in r.conflicts
    && now.tick < r.records[a].leaseExpiry && now.tick < r.records[a].sourceLease
    && now.tick < p.planExpiry <= now.tick + r.limits.maxLease
    && r.planTop < MAX64 && id.plan > r.planTop
    && exists j :: 0 <= j < |r.slots| && r.slots[j].state == Free
  }

  lemma {:induction false} FreeFound(slots: seq<Slot>, j: nat)
    requires j <= |slots|
    ensures FirstFree(slots, j) < |slots| <==> exists k :: j <= k < |slots| && slots[k].state == Free
    decreases |slots| - j
  {
    if j < |slots| && slots[j].state != Free { FreeFound(slots, j + 1); }
  }

  /** A plan is written exactly under these conditions, into the first free slot. */
  lemma WrittenExactly(r: Registry, p: Candidate, now: Reading)
    requires ClockTakes(r.clock, now)
    ensures PrepareSucceeds(r, p, now) <==> Writable(r, p, now)
    ensures !Writable(r, p, now) ==> Prepare(r, p, now) == r.(clock := Clock(true, false, now.domain, now.tick))
  {
    hide CandidateOk, FirstFree;
    QuietClock(r, now);
    FreeFound(r.slots, 0);
  }

  // ---- On the host: written and shown ----

  /** No plan as new was ever shown for the key. */
  ghost predicate NewestForKey(r: Registry, id: Identity)
    requires id.key.address in r.records
  {
    && id.plan > r.records[id.key.address].publishTop
    && forall j :: 0 <= j < |r.slots| && r.slots[j].state == Published && r.slots[j].identity.key == id.key ==>
         r.slots[j].identity.plan < id.plan
  }

  ghost function Freeze(r: Registry, p: Candidate, now: Reading): Validity
    requires p.identity.key.address in r.records
  {
    var rec := r.records[p.identity.key.address];
    Validity(now.domain, p.planExpiry, rec.leaseExpiry, rec.sourceLease)
  }

  /** The registry after a plan was written. */
  lemma WrittenState(r: Registry, p: Candidate, now: Reading, j: nat)
    requires Writable(r, p, now) && j == FirstFree(r.slots, 0)
    ensures j < |r.slots| && r.slots[j].state == Free
    ensures var t := Prepare(r, p, now);
      && t == r.(clock := Clock(true, false, now.domain, now.tick), slots := t.slots, planTop := p.identity.plan)
      && t.slots == r.slots[j := t.slots[j]]
      && t.slots[j].state == Writing && t.slots[j].incarnation == r.slots[j].incarnation
      && t.slots[j].identity == p.identity && t.slots[j].validity == Freeze(r, p, now)
  {
    hide CandidateOk, FirstFree, StoreFrom, Content, Overlay;
    QuietClock(r, now);
    FreeFound(r.slots, 0);
  }

  /** A plan just written under these conditions can be shown with the same reading. */
  lemma WrittenIsShowable(r: Registry, h: History, p: Candidate, now: Reading)
    requires Inv(r, h) && Writable(r, p, now) && NewestForKey(r, p.identity)
    ensures var j, t := FirstFree(r.slots, 0), Prepare(r, p, now);
            j < |r.slots| && Publish(t, SlotRef(j, r.slots[j].incarnation), now).1.Some?
  {
    hide CandidateOk, FirstFree, Prepare, Inv, Publish, ObserveClock, Evolves, Address.IsTarget;
    var j := FirstFree(r.slots, 0);
    WrittenState(r, p, now, j);
    var t := Prepare(r, p, now);
    PrepareSound(r, h, p, now);
    QuietClock(t, now);
    PublishedExactly(t, PreparedHistory(r, h, p, now), SlotRef(j, r.slots[j].incarnation), now);
  }

  /**
    Written and shown at one reading: the first free slot carries the plan, published under its
    identity with the deadlines frozen; the plan it replaces is superseded; nothing else moves.
    */
  lemma PlanIsShown(w: World, p: Candidate, now: Reading, k: nat)
    requires Reachable(w) && Writable(w.reg, p, now) && NewestForKey(w.reg, p.identity) && k < |w.reg.slots|
    ensures var j := FirstFree(w.reg.slots, 0);
      && j < |w.reg.slots|
      && var t := Next(Next(w, Host(Write(p, now))), Host(Show(SlotRef(j, w.reg.slots[j].incarnation), now)));
      && Reachable(t) && |t.reg.slots| == |w.reg.slots| && t.views == w.views
      && p.identity in t.history.prepared && t.history.prepared[p.identity] == Plan(p, Freeze(w.reg, p, now))
      && (k == j ==>
            && t.reg.slots[k].state == Published && t.reg.slots[k].incarnation == w.reg.slots[k].incarnation
            && t.reg.slots[k].identity == p.identity && t.reg.slots[k].validity == Freeze(w.reg, p, now))
      && (k != j ==> RetiresJust(w.reg.slots, t.reg.slots, Superseded, k,
            w.reg.slots[k].state == Published && w.reg.slots[k].identity.key == p.identity.key))
  {
    hide CandidateOk, FirstFree, WorldInv, Reachable, Writable, NewestForKey, RetiredFor, Next, Publish;
    ReachableSound(w);
    InvOf(w);
    var j := FirstFree(w.reg.slots, 0);
    WrittenState(w.reg, p, now, j);
    var ref := SlotRef(j, w.reg.slots[j].incarnation);
    var u := Next(w, Host(Write(p, now)));
    WriteStep(w, p, now);
    WrittenIsShowable(w.reg, w.history, p, now);
    ReachableOn(w, Host(Write(p, now)));
    ReachableOn(u, Host(Show(ref, now)));
    ReachableSound(u);
    ShowStep(u, ref, now, k);
  }

  lemma WriteStep(w: World, p: Candidate, now: Reading)
    requires Writable(w.reg, p, now) && WorldInv(w)
    ensures var t := Next(w, Host(Write(p, now)));
      && t == w.(reg := Prepare(w.reg, p, now), history := t.history)
      && p.identity in t.history.prepared && t.history.prepared[p.identity] == Plan(p, Freeze(w.reg, p, now))
      && now.domain != 0
  {
    hide CandidateOk, FirstFree, Prepare, WorldInv, ObserveClock, PrepareSucceeds;
    WrittenExactlyThen(w.reg, p, now);
  }

  lemma ShowStep(u: World, ref: SlotRef, now: Reading, k: nat)
    requires WorldInv(u) && u.reg.clock == Clock(true, false, now.domain, now.tick) && now.domain != 0
    requires Publish(u.reg, ref, now).1.Some? && k < |u.reg.slots| && ref.index < |u.reg.slots|
    ensures var t := Next(u, Host(Show(ref, now)));
      var key := u.reg.slots[ref.index].identity.key;
      && t == u.(reg := t.reg) && |t.reg.slots| == |u.reg.slots|
      && (k == ref.index ==> t.reg.slots[k] == u.reg.slots[k].(state := Published))
      && (k != ref.index ==> RetiresJust(u.reg.slots, t.reg.slots, Superseded, k,
            u.reg.slots[k].state == Published && u.reg.slots[k].identity.key == key))
  {
    hide WorldInv, Publish, ObserveClock, RetiredFor;
    InvOf(u);
    QuietClockAgain(u.reg, now);
    PublicationSupersedes(u.reg, u.history, ref, now, k);
  }

  lemma InvOf(w: World)
    requires WorldInv(w)
    ensures Inv(w.reg, w.history)
  {
  }

  lemma WrittenExactlyThen(r: Registry, p: Candidate, now: Reading)
    requires Writable(r, p, now)
    ensures PrepareSucceeds(r, p, now) && HasRecord(r, p.identity.key) && now.domain != 0
    ensures Frozen(ObserveClock(r, now), p.identity, p.planExpiry) == Freeze(r, p, now)
  {
    hide CandidateOk;
    WrittenExactly(r, p, now);
    QuietClock(r, now);
  }

  lemma QuietClockAgain(t: Registry, now: Reading)
    requires t.clock == Clock(true, false, now.domain, now.tick) && now.domain != 0
    ensures ObserveClock(t, now) == t
  {
    QuietClock(t, now);
  }

  // ---- At the worker: adopted, selected, served ----

  /**
    A worker that is offered a plan newer than any it had for the address, and holds nothing, adopts
    it and pins it for the next transaction.
    */
  lemma PlanIsPinned(w: World, worker: nat, n: Notice, transaction: nat, now: Reading)
    requires Reachable(w) && worker in w.views && w.views[worker].pin == None
    requires ClockTakes(w.views[worker].clock, now) && Offered(w.reg.slots, w.views[worker], n, now)
    requires n.identity.plan > Top(w.views[worker], n.identity.key.address) && transaction > w.views[worker].transactionTop
    ensures var t := Next(Next(w, Adopts(worker, n, now)), Chooses(worker, n.identity.key.address, transaction, now));
      && Reachable(t) && worker in t.views
      && t.views[worker].pin == Some(Pin(WireKey(n.identity, transaction), n.slot))
      && t.views[worker].clock == Clock(true, false, now.domain, now.tick)
      && !NoteOf(t.views[worker], n.slot).revoked
      && t.history == w.history
  {
    hide Reachable, WorldInv, Adopt, Select;
    ReachableSound(w);
    NamedView(w, worker);
    var v := w.views[worker];
    UnnotedWhilePublished(w, worker, n.slot);
    AdoptedExactly(w.reg.slots, v, n, now);
    AdoptWorker(w.reg.slots, v, n, now);
    ReachableOn(w, Adopts(worker, n, now));
    var u := Next(w, Adopts(worker, n, now));
    ReachableOn(u, Chooses(worker, n.identity.key.address, transaction, now));
    SelectedExactly(u.reg.slots, u.views[worker], n.identity.key.address, transaction, now);
    ClockTakesExactly(v.clock, now);
    ClockTakesExactly(u.views[worker].clock, now);
  }

  lemma NamedView(w: World, worker: nat)
    requires WorldInv(w) && worker in w.views
    ensures w.views[worker].worker == worker
  {
  }

  /** Adoption keeps the view's name, and marks a note revoked for no slot. */
  lemma AdoptWorker(slots: seq<Slot>, v: View, n: Notice, now: Reading)
    ensures Adopt(slots, v, n, now).0.worker == v.worker
    ensures !NoteOf(v, n.slot).revoked ==> !NoteOf(Adopt(slots, v, n, now).0, n.slot).revoked
  {
  }

  lemma UnnotedWhilePublished(w: World, worker: nat, ref: SlotRef)
    requires WorldInv(w) && worker in w.views && Resolves(w.reg.slots, ref) && w.reg.slots[ref.index].state == Published
    ensures !NoteOf(w.views[worker], ref).revoked
  {
    hide Inv, ObservationsSound, AcksSound;
    assert ViewSound(w.reg.slots, w.views[worker]);
    assert ref.index in w.views[worker].notes ==> NoteSound(w.reg.slots, w.views[worker], ref.index);
  }

  /**
    From the pin on, until a revocation is observed, every reading the clock takes before the frozen
    deadlines gives out every byte of the reply to a request the plan answers.
    */
  lemma ReplyIsServed(w: World, worker: nat, pin: Pin, q: Query, offset: nat, now: Reading)
    requires Reachable(w) && worker in w.views && w.views[worker].pin == Some(pin) && !NoteOf(w.views[worker], pin.slot).revoked
    requires pin.key.identity in w.history.prepared && ClockTakes(w.views[worker].clock, now)
    requires w.history.prepared[pin.key.identity].validity.Holds(now) && Address.IsInitiator(q.source)
    ensures var entries := w.history.prepared[pin.key.identity].candidate.entries;
      var m := Match(w.reg.slots, w.views[worker], pin.key, pin.key, q, now);
      && (m == None <==> forall i: nat :: i < |entries| ==> !Answers(entries[i], q))
      && (m.Some? ==>
            && m.value < |entries| && Answers(entries[m.value], q)
            && Symbol(w.reg.slots, w.views[worker], pin.key, pin.key, m.value, offset, PhaseResponse, now)
               == if offset < |entries[m.value].response| then Some(entries[m.value].response[offset]) else None)
  {
    hide Reachable, Match, Symbol, Live, Answers, ClockTakes;
    PinLiveExactly(w, worker, pin.key, pin.key, now);
    MatchIsTheOnlyOne(w, worker, pin.key, pin.key, q, now);
    var m := Match(w.reg.slots, w.views[worker], pin.key, pin.key, q, now);
    if m.Some? { ReplyServedExactly(w, worker, pin.key, m.value, offset, PhaseResponse, now); }
  }

  // ---- Withdrawal, acknowledgement, reuse ----

  /** The one plan of a registration still with a worker, and a transaction holding it. */
  ghost predicate Serving(w: World, worker: nat, pin: Pin) {
    var id := pin.key.identity;
    && Reachable(w) && worker in w.views && w.views[worker].pin == Some(pin)
    && id.stream <= w.views[worker].stream
    && HasRecord(w.reg, id.key) && w.reg.records[id.key.address].active
    && Resolves(w.reg.slots, pin.slot) && w.reg.slots[pin.slot.index].state == Published
    && forall j :: 0 <= j < |w.reg.slots| && Held(w.reg.slots[j]) && w.reg.slots[j].identity.key == id.key ==> j == pin.slot.index
  }

  /** After the registration is withdrawn and the worker has seen it, the pin gives out nothing more. */
  lemma WithdrawalStopsService(w: World, worker: nat, pin: Pin, now: Reading)
    requires Serving(w, worker, pin)
    ensures var id := pin.key.identity;
      var t := Next(Next(w, Host(Withdraw(id.key))), Observes(worker, Revocation(pin.slot, id, Revoked)));
      && Reachable(t) && PinnedAndNoted(t, worker, pin) && t.acks == w.acks
      && !Live(t.reg.slots, t.views[worker], pin.key, pin.key, now)
      && |t.reg.slots| == |w.reg.slots|
      && t.reg.slots[pin.slot.index] == w.reg.slots[pin.slot.index].(state := Retained, reason := Revoked)
      && t.views[worker].worker == worker
  {
    hide Reachable, WorldInv, Unregister, ObserveRevocation;
    var id := pin.key.identity;
    ReachableSound(w);
    NamedView(w, worker);
    PinIdentity(w, worker);
    var u := Next(w, Host(Withdraw(id.key)));
    ReachableOn(w, Host(Withdraw(id.key)));
    UnregisterRevokes(w.reg, id.key, pin.slot.index);
    ReachableOn(u, Observes(worker, Revocation(pin.slot, id, Revoked)));
    WithdrawalHeededExactly(u.reg.slots, u.views[worker], Revocation(pin.slot, id, Revoked));
    ObserveName(u.reg.slots, u.views[worker], Revocation(pin.slot, id, Revoked));
  }

  lemma PinIdentity(w: World, worker: nat)
    requires WorldInv(w) && worker in w.views && w.views[worker].pin.Some?
    ensures var pin := w.views[worker].pin.value;
      Resolves(w.reg.slots, pin.slot) && Held(w.reg.slots[pin.slot.index]) &&
      w.reg.slots[pin.slot.index].identity == pin.key.identity && pin.key.identity.worker == worker && w.reg.slots[pin.slot.index].pinned
  {
    hide Inv, ObservationsSound, AcksSound;
    assert ViewSound(w.reg.slots, w.views[worker]);
  }

  /**
    A withdrawn slot whose transaction lets go comes back: the release acknowledges it, the host
    accepts and frees it under the next incarnation, and with the last plan of an ended registration
    the address is free too. No other slot moves.
    */
  lemma WithdrawnSlotReturns(w: World, worker: nat, pin: Pin)
    requires Reachable(w) && PinnedAndNoted(w, worker, pin)
    requires Resolves(w.reg.slots, pin.slot) && w.reg.slots[pin.slot.index].state == Retained
    requires w.reg.slots[pin.slot.index].incarnation != MAX64
    ensures var released, ack := Next(w, Releases(worker, pin.key)), Notice(pin.slot, pin.key.identity);
      && Enabled(released, Acknowledged(ack))
      && var t := Next(Next(released, Acknowledged(ack)), Host(Recycle(pin.slot)));
      && Reachable(t)
      && var s, key := w.reg.slots[pin.slot.index], pin.key.identity.key;
      && t.reg.slots == w.reg.slots[pin.slot.index :=
           Slot(Free, s.incarnation + 1, NO_IDENTITY, NO_VALIDITY, NoReason, false, [], s.bytes)]
      && (HasRecord(w.reg, key) && !w.reg.records[key.address].active && SoleHeld(w.reg.slots, pin.slot.index, key) ==>
            key.address !in t.reg.records)
  {
    hide Reachable, WorldInv, Noted, ReleasePin, Settle;
    ReachableSound(w);
    NamedView(w, worker);
    PinIdentity(w, worker);
    ReleaseAcknowledges(w, worker, pin);
    ReleasedExactly(w.reg.slots, w.views[worker], pin.key);
    ReachableOn(w, Releases(worker, pin.key));
    var released, ack := Next(w, Releases(worker, pin.key)), Notice(pin.slot, pin.key.identity);
    ReleaseSlots(w, worker, pin);
    ReachableOn(released, Acknowledged(ack));
    AcknowledgedSlots(released.reg, ack);
    ReachableOn(Next(released, Acknowledged(ack)), Host(Recycle(pin.slot)));
    FreedForReuse(ObserveAck(released.reg, ack), pin.slot);
    if SoleHeld(w.reg.slots, pin.slot.index, pin.key.identity.key) {
      AcknowledgementLetsOut(released.reg, ack, pin.slot.index);
    }
  }

  ghost predicate SoleHeld(slots: seq<Slot>, k: nat, key: Key) {
    forall j :: 0 <= j < |slots| && Held(slots[j]) && slots[j].identity.key == key ==> j == k
  }

  lemma ReleaseSlots(w: World, worker: nat, pin: Pin)
    requires worker in w.views && w.views[worker].pin == Some(pin) && Resolves(w.reg.slots, pin.slot)
    ensures var t := Next(w, Releases(worker, pin.key));
      && t.reg == w.reg.(slots := w.reg.slots[pin.slot.index := w.reg.slots[pin.slot.index].(pinned := false)])
  {
  }

  lemma AcknowledgedSlots(r: Registry, ack: Notice)
    requires AckAccepted(r, ack)
    ensures ObserveAck(r, ack).slots == r.slots[ack.slot.index := r.slots[ack.slot.index].(state := Reclaimable)]
  {
    hide StillHeld, ForgetRegistration;
  }
}
