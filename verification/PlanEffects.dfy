/**
  What a retirement leaves in each slot, stated field by field: which reason a withdrawn plan carries
  after each host operation, that no operation weakens it, and what an observed one does to a worker.
  */
module PlanEffects {
  import opened Octets
  import opened Registry
  import opened RegistrySafety
  import opened Withdrawals

  // ---- One slot ----

  /**
    A published plan is retained for the reason given, with its incarnation, identity, deadlines,
    content and pin; a retained one keeps the stronger reason; a plan still being written is dropped
    under the next incarnation, or its exhausted slot goes out of service.
    */
  ghost predicate RetiredFor(s: Slot, t: Slot, reason: Reason) {
    match s.state
    case Published => t == Slot(Retained, s.incarnation, s.identity, s.validity, reason, s.pinned, s.entries, s.bytes)
    case Retained => t == s.(reason := t.reason) && t.reason == Stronger(s.reason, reason)
    case Writing =>
      if s.incarnation != MAX64 then t == Slot(Free, s.incarnation + 1, NO_IDENTITY, NO_VALIDITY, NoReason, s.pinned, [], s.bytes)
      else t == s.(state := Reclaimable)
    case _ => t == s
  }

  /** Revoked beats Expired, Expired beats Superseded. */
  function Stronger(a: Reason, b: Reason): Reason {
    if a == Revoked || b == Revoked then Revoked
    else if a == Expired || b == Expired then Expired
    else if a == Superseded || b == Superseded then Superseded
    else NoReason
  }

  lemma RetiredStores(s: Slot, reason: Reason)
    ensures RetiredFor(s, Retired(s, reason), reason)
  {
  }

  /** A second retirement for the same reason changes nothing more. */
  lemma RetiredTwice(s: Slot, t: Slot, u: Slot, reason: Reason)
    requires RetiredFor(s, t, reason) && (u == t || RetiredFor(t, u, reason))
    ensures RetiredFor(s, u, reason)
  {
  }

  /** The loop over the pool: the chosen slots are retired for the given reason, the others untouched. */
  lemma RetirementStores(r: Registry, reason: Reason, c: Choice, k: nat)
    requires k < |r.slots|
    ensures |RetireWhere(r, reason, c, 0).slots| == |r.slots|
    ensures Picked(c, r.slots[k]) ==> RetiredFor(r.slots[k], RetireWhere(r, reason, c, 0).slots[k], reason)
    ensures !Picked(c, r.slots[k]) ==> RetireWhere(r, reason, c, 0).slots[k] == r.slots[k]
  {
    hide Picked, Retired, RetiredFor, RetireWhere;
    RetiredPointwise(r, reason, c, 0, k);
    RetiredStores(r.slots[k], reason);
  }

  // ---- Which reason each operation leaves ----

  /** Slots of the addressed plans are retired for the reason, all others are left alone. */
  ghost predicate RetiresJust(a: seq<Slot>, b: seq<Slot>, reason: Reason, k: nat, chosen: bool)
    requires k < |a|
  {
    && |b| == |a|
    && (chosen ==> RetiredFor(a[k], b[k], reason))
    && (!chosen ==> b[k] == a[k])
  }

  /** A clock fault revokes every plan. */
  lemma ClockFaultRevokes(r: Registry, now: Reading, k: nat)
    requires k < |r.slots|
    ensures RetiresJust(r.slots, ObserveClock(r, now).slots, Revoked, k,
                        !r.clock.closed && r.clock.Observe(now).closed)
  {
    hide RetireWhere;
    RetirementStores(r.(clock := r.clock.Observe(now)), Revoked, Every, k);
  }

  /** A conflict revokes the plans of its address and no others. */
  lemma ConflictRevokes(r: Registry, address: byte, k: nat)
    requires k < |r.slots|
    ensures RetiresJust(r.slots, MarkConflict(r, address).slots, Revoked, k, r.slots[k].identity.key.address == address)
    ensures MarkConflict(r, address).conflicts == r.conflicts + {address}
  {
    hide RetireWhere;
    var marked := r.(conflicts := r.conflicts + {address});
    RetirementStores(marked, Revoked, AtAddress(address), k);
    RetireWhereOnly(marked, Revoked, AtAddress(address), 0);
  }

  lemma RetireRevokes(r: Registry, address: byte, reason: Reason, k: nat)
    requires address in r.records && k < |r.slots|
    ensures RetiresJust(r.slots, Retire(r, address, reason).slots, reason, k,
                        r.slots[k].identity.key == r.records[address].registered.key)
  {
    hide RetireWhere, StillHeld, ForgetRegistration;
    var retiring := r.(records := r.records[address := r.records[address].(active := false)]);
    RetirementStores(retiring, reason, OfKey(r.records[address].registered.key), k);
  }

  /** Unregistering revokes the plans of its key and no others. */
  lemma UnregisterRevokes(r: Registry, key: Key, k: nat)
    requires k < |r.slots|
    ensures RetiresJust(r.slots, Unregister(r, key).slots, Revoked, k,
                        HasRecord(r, key) && r.records[key.address].active && r.slots[k].identity.key == key)
  {
    hide Retire, RetiredFor;
    if HasRecord(r, key) && r.records[key.address].active {
      RetireRevokes(r, key.address, Revoked, k);
    }
  }

  /** Binding a newer worker or stream revokes every plan; any other binding does nothing. */
  lemma BindRevokes(r: Registry, worker: nat, stream: nat, k: nat)
    requires k < |r.slots|
    ensures var t := BindWorker(r, worker, stream);
      var bound := worker != 0 && stream != 0 && (worker > r.workerTop || (worker == r.workerTop && r.workerBound && stream > r.stream));
      && RetiresJust(r.slots, t.slots, Revoked, k, bound)
      && (bound ==> t.workerBound && t.worker == t.workerTop == worker && t.stream == stream)
      && (bound ==> t.planTop == if worker > r.workerTop then 0 else r.planTop)
      && (!bound ==> t == r)
  {
    hide RetireWhere, RetiredFor;
    RetirementStores(r, Revoked, Every, k);
    RetireWhereOnly(r, Revoked, Every, 0);
    EveryStores(r, Revoked, k);
  }

  lemma EveryStores(r: Registry, reason: Reason, k: nat)
    requires k < |r.slots|
    ensures RetiresJust(r.slots, RetireWhere(r, reason, Every, 0).slots, reason, k, true)
  {
    hide RetireWhere;
    RetirementStores(r, reason, Every, k);
  }

  /** A newer source under a live lease revokes the plans made from the older one and no others. */
  lemma AdvanceRevokes(r: Registry, key: Key, source: nat, expiry: nat, now: Reading, k: nat)
    requires k < |ObserveClock(r, now).slots|
    ensures var t, seen := AdvanceSource(r, key, source, expiry, now), ObserveClock(r, now);
      var moved := !seen.clock.closed && HasRecord(seen, key) && seen.records[key.address].active
        && source > seen.records[key.address].source && now.tick < expiry <= now.tick + r.limits.maxLease;
      && RetiresJust(seen.slots, t.slots, Revoked, k, moved && seen.slots[k].identity.key == key)
      && (moved ==> HasRecord(t, key) && t.records[key.address].source == source && t.records[key.address].sourceLease == expiry)
      && (!moved ==> t == seen)
  {
    hide RetireWhere, ObserveClock, RetiredFor;
    var seen := ObserveClock(r, now);
    SeenLimits(r, now);
    if HasRecord(seen, key) {
      var moved := seen.(records := seen.records[key.address := seen.records[key.address].(source := source, sourceLease := expiry)]);
      KeyStores(moved, Revoked, key, k);
      RetireWhereOnly(moved, Revoked, OfKey(key), 0);
    }
  }

  lemma KeyStores(r: Registry, reason: Reason, key: Key, k: nat)
    requires k < |r.slots|
    ensures RetiresJust(r.slots, RetireWhere(r, reason, OfKey(key), 0).slots, reason, k, r.slots[k].identity.key == key)
  {
    hide RetireWhere;
    RetirementStores(r, reason, OfKey(key), k);
  }

  lemma SeenLimits(r: Registry, now: Reading)
    ensures ObserveClock(r, now).limits == r.limits
  {
    hide RetireWhere;
    RetireWhereOnly(r.(clock := r.clock.Observe(now)), Revoked, Every, 0);
  }

  // ---- Sweeps ----

  /** The key's record is active and about to be swept. */
  predicate KeySwept(r: Registry, s: Sweep, key: Key) {
    HasRecord(r, key) && Swept(s, r.records[key.address])
  }

  /**
    A sweep retires the plans of every swept key for its reason and leaves all others: a record swept
    earlier takes no part in a later one.
    */
  lemma {:induction false} SweepRetires(r: Registry, s: Sweep, reason: Reason, address: nat, k: nat)
    requires address <= 256 && k < |r.slots| && Placed(r)
    ensures var t, key := SweepRecords(r, s, reason, address), r.slots[k].identity.key;
            RetiresJust(r.slots, t.slots, reason, k, address <= key.address && KeySwept(r, s, key))
    decreases 256 - address
  {
    hide Retire, RetiredFor, Swept;
    if address < 256 && address in r.records && Swept(s, r.records[address]) {
      var next := Retire(r, address, reason);
      RetireRevokes(r, address, reason, k);
      RetireEnds(r, address, reason);
      PlacedAfter(r, next, address);
      SweepRetires(next, s, reason, address + 1, k);
      RetireSparesRecords(r, address, reason);
      var key := r.slots[k].identity.key;
      assert key.address != address ==> Alike(r, next, key.address);
      if key.address != address { SweptAlike(s, r, next, key); }
      RetiredIdentity(r.slots[k], next.slots[k], reason);
    } else if address < 256 {
      SweepRetires(r, s, reason, address + 1, k);
    }
  }

  lemma SweptAlike(s: Sweep, r: Registry, next: Registry, key: Key)
    requires key.address in next.records <==> key.address in r.records
    requires Alike(r, next, key.address)
    ensures KeySwept(r, s, key) <==> KeySwept(next, s, key)
  {
  }

  lemma RetiredIdentity(s: Slot, t: Slot, reason: Reason)
    requires t == s || RetiredFor(s, t, reason)
    ensures t.identity == s.identity || t.identity == NO_IDENTITY
  {
  }

  lemma RetireSparesRecords(r: Registry, address: byte, reason: Reason)
    requires address in r.records && r.records[address].registered.key.address == address
    ensures forall b :: b != address ==> (b in Retire(r, address, reason).records <==> b in r.records)
  {
    hide RetireWhere, ForgetRegistration, StillHeld, AllRetire;
    var retiring := r.(records := r.records[address := r.records[address].(active := false)]);
    RetireWhereOnly(retiring, reason, OfKey(r.records[address].registered.key), 0);
  }

  lemma PlacedAfter(r: Registry, next: Registry, address: byte)
    requires Placed(r) && address in r.records
    requires address in next.records ==> next.records[address].registered == r.records[address].registered
    requires forall b :: b != address ==> Alike(r, next, b)
    ensures Placed(next)
  {
    forall a | a in next.records
      ensures next.records[a].registered.key.address == a
    {
      assert a != address ==> Alike(r, next, a);
    }
  }

  /** A disconnect revokes the plans of the subscriber's active registrations and no others. */
  lemma DisconnectRevokes(r: Registry, id: nat, k: nat)
    requires k < |r.slots| && Placed(r)
    ensures RetiresJust(r.slots, Disconnect(r, id).slots, Revoked, k,
                        id in r.subscribers && KeySwept(r, OfSubscriber(id), r.slots[k].identity.key))
  {
    hide SweepRecords, RetiredFor;
    if id in r.subscribers {
      SweepRetires(r.(subscribers := r.subscribers[id := r.subscribers[id].(open := false)]), OfSubscriber(id), Revoked, 0, k);
    }
  }

  /** A reset revokes the plans of every active registration. */
  lemma ResetRevokes(r: Registry, k: nat)
    requires k < |r.slots| && Placed(r)
    ensures RetiresJust(r.slots, Reset(r).slots, Revoked, k, KeySwept(r, All, r.slots[k].identity.key))
  {
    hide SweepRecords, RetiredFor;
    SweepRetires(r, All, Revoked, 0, k);
  }

  /** Expiry takes the published plans whose deadlines passed and all plans under a lapsed lease, as expired. */
  lemma ExpiryExpires(r: Registry, now: Reading, k: nat)
    requires k < |ObserveClock(r, now).slots| && Placed(ObserveClock(r, now))
    ensures var seen := ObserveClock(r, now);
      var s := seen.slots[k];
      var due := s.state == Published && !s.validity.Holds(now);
      RetiresJust(seen.slots, ExpireDue(r, now).slots, Expired, k,
                  !seen.clock.closed && (due || KeySwept(seen, LapsedAt(now), s.identity.key)))
  {
    hide SweepRecords, RetiredFor, RetireWhere, ObserveClock, Swept;
    var seen := ObserveClock(r, now);
    if !seen.clock.closed {
      var s := seen.slots[k];
      RetirementStores(seen, Expired, DueAt(now), k);
      RetireWhereOnly(seen, Expired, DueAt(now), 0);
      var x := RetireWhere(seen, Expired, DueAt(now), 0);
      SameKeysSwept(seen, x, LapsedAt(now), s.identity.key);
      assert Placed(x);
      SweepRetires(x, LapsedAt(now), Expired, 0, k);
      if s.state == Published && !s.validity.Holds(now) {
        PublishedKeepsIdentity(s, x.slots[k]);
        var t := ExpireDue(r, now).slots[k];
        RetiredTwice(s, x.slots[k], t, Expired);
      }
    }
  }

  lemma PublishedKeepsIdentity(s: Slot, t: Slot)
    requires s.state == Published && RetiredFor(s, t, Expired)
    ensures t.identity == s.identity
  {
  }

  lemma SameKeysSwept(r: Registry, t: Registry, s: Sweep, key: Key)
    requires SameRecords(r.records, t.records)
    ensures KeySwept(r, s, key) <==> KeySwept(t, s, key)
  {
  }

  /**
    A publication succeeds exactly under the running clock, for a plan just written whose worker,
    stream, source and registration are still the current ones, no conflict, all deadlines ahead and
    no plan as new shown for its key. It leaves the plan it replaces as superseded and no other trace.
    */
  lemma PublishedExactly(r: Registry, h: History, ref: SlotRef, now: Reading)
    requires Inv(r, h)
    ensures var (t, n) := Publish(r, ref, now);
      var seen := ObserveClock(r, now);
      n.Some? <==>
        && !seen.clock.closed && Resolves(seen.slots, ref) && seen.slots[ref.index].state == Writing
        && var s := seen.slots[ref.index];
           var id := s.identity;
           && seen.workerBound && id.worker == seen.worker && id.stream == seen.stream
           && HasRecord(seen, id.key) && seen.records[id.key.address].active && id.source == seen.records[id.key.address].source
           && id.key.address !in seen.conflicts && s.validity.Holds(now)
           && now.tick < seen.records[id.key.address].leaseExpiry && now.tick < seen.records[id.key.address].sourceLease
           && id.plan > seen.records[id.key.address].publishTop
           && forall j :: 0 <= j < |seen.slots| && seen.slots[j].state == Published && seen.slots[j].identity.key == id.key ==>
                seen.slots[j].identity.plan < id.plan
  {
    hide KeysSound, PairsSound, SlotsSound, Evolves, RetireWhere, MakeCurrent, Discard;
    ObserveClockKeeps(r, h, now);
    ObservedDomain(r, now);
    var seen := ObserveClock(r, now);
    hide ObserveClock;
    if Resolves(seen.slots, ref) && HasRecord(seen, seen.slots[ref.index].identity.key) {
      assert RecordSound(seen.records[seen.slots[ref.index].identity.key.address], seen.slots[ref.index].identity.key.address, seen.slots);
    }
  }

  lemma ObservedDomain(r: Registry, now: Reading)
    ensures !ObserveClock(r, now).clock.closed ==> ObserveClock(r, now).clock.domain == now.domain
  {
    hide RetireWhere;
    RetireWhereOnly(r.(clock := r.clock.Observe(now)), Revoked, Every, 0);
  }

  /** What a successful publication does to every slot. */
  lemma PublicationSupersedes(r: Registry, h: History, ref: SlotRef, now: Reading, k: nat)
    requires Inv(r, h) && Publish(r, ref, now).1.Some? && k < |ObserveClock(r, now).slots|
    ensures var t, seen := Publish(r, ref, now).0, ObserveClock(r, now);
      var key := seen.slots[ref.index].identity.key;
      && |t.slots| == |seen.slots|
      && (k == ref.index ==> t.slots[k] == seen.slots[k].(state := Published))
      && (k != ref.index ==> RetiresJust(seen.slots, t.slots, Superseded, k,
            seen.slots[k].state == Published && seen.slots[k].identity.key == key))
  {
    hide KeysSound, PairsSound, SlotsSound, Evolves, ObserveClock;
    ObserveClockKeeps(r, h, now);
    var seen := ObserveClock(r, now);
    var a := seen.slots[ref.index].identity.key.address;
    assert RecordSound(seen.records[a], a, seen.slots);
  }

  /** A plan found stale at publication is dropped; a publication refused for any other cause changes no slot. */
  lemma StalePublicationDrops(r: Registry, ref: SlotRef, now: Reading, k: nat)
    requires Publish(r, ref, now).1.None? && k < |ObserveClock(r, now).slots|
    ensures var t, seen := Publish(r, ref, now).0, ObserveClock(r, now);
      && t == seen.(slots := t.slots)
      && RetiresJust(seen.slots, t.slots, NoReason, k,
           !seen.clock.closed && Resolves(seen.slots, ref) && k == ref.index && seen.slots[k].state == Writing)
  {
    hide ObserveClock, StillCurrent, MakeCurrent;
  }

  /** What the end of a worker leaves in a slot. */
  function Ended(s: Slot, worker: nat): Slot {
    if Held(s) && s.identity.worker == worker then s.(state := Reclaimable, pinned := false, reason := Revoked) else s
  }

  lemma EndedOne(r: Registry, j: nat, worker: nat)
    requires j < |r.slots| && Held(r.slots[j]) && r.slots[j].identity.worker == worker
    ensures var retired := RetireSlot(r, j, Revoked);
      && |retired.slots| == |r.slots|
      && var freed := SetSlot(retired, j, retired.slots[j].(pinned := false, state := Reclaimable));
         Settle(freed, r.slots[j].identity.key).slots == r.slots[j := Ended(r.slots[j], worker)]
  {
    hide Unpublish, ForgetRegistration, StillHeld;
  }

  lemma {:induction false} ReclaimStores(r: Registry, worker: nat, j: nat, k: nat)
    requires j <= |r.slots| && k < |r.slots|
    ensures |ReclaimWorker(r, worker, j).slots| == |r.slots|
    ensures ReclaimWorker(r, worker, j).slots[k] == if j <= k then Ended(r.slots[k], worker) else r.slots[k]
    decreases |r.slots| - j
  {
    hide Settle, RetireSlot;
    if j < |r.slots| {
      var s := r.slots[j];
      if Held(s) && s.identity.worker == worker {
        EndedOne(r, j, worker);
        var retired := RetireSlot(r, j, Revoked);
        var freed := SetSlot(retired, j, retired.slots[j].(pinned := false, state := Reclaimable));
        ReclaimStores(Settle(freed, s.identity.key), worker, j + 1, k);
      } else {
        ReclaimStores(r, worker, j + 1, k);
      }
    }
  }

  /** Termination lets out the worker's shown plans, drops what was being written for it, and nothing else. */
  lemma TerminationStores(r: Registry, worker: nat, k: nat)
    requires k < |r.slots|
    ensures var t, s := Terminate(r, worker).slots, r.slots[k];
      var ended := 0 < worker <= r.workerTop;
      && |t| == |r.slots|
      && (ended && Held(s) && s.identity.worker == worker ==> t[k] == s.(state := Reclaimable, pinned := false, reason := Revoked))
      && (ended && s.state == Writing && r.workerBound && r.worker == worker ==> RetiredFor(s, t[k], Revoked))
      && (!ended || (!(Held(s) && s.identity.worker == worker) && !(s.state == Writing && r.workerBound && r.worker == worker)) ==>
            t[k] == s)
  {
    hide RetireWhere, ReclaimWorker;
    if 0 < worker <= r.workerTop {
      var loose := r.(workerBound := false);
      RetirementStores(loose, Revoked, StillWriting, k);
      var unbound := if r.workerBound && r.worker == worker then RetireWhere(loose, Revoked, StillWriting, 0) else r;
      ReclaimStores(unbound, worker, 0, k);
    }
  }

  /**
    An acknowledgement lets its slot out exactly when the slot is retained under that identity and
    incarnation and unpinned; the record goes with the last plan of an ended registration.
    */
  lemma AcknowledgementLetsOut(r: Registry, ack: Notice, k: nat)
    requires k < |r.slots|
    ensures var t, s := ObserveAck(r, ack), r.slots[k];
      var named := k == ack.slot.index && s.incarnation == ack.slot.incarnation
        && s.state == Retained && s.identity == ack.identity && !s.pinned;
      && |t.slots| == |r.slots|
      && t.slots[k] == (if named then s.(state := Reclaimable) else s)
      && (named && HasRecord(r, s.identity.key) ==>
            (s.identity.key.address !in t.records <==>
              !r.records[s.identity.key.address].active
              && forall j :: 0 <= j < |r.slots| && Held(r.slots[j]) && r.slots[j].identity.key == s.identity.key ==> j == k))
  {
    hide ForgetRegistration;
    if AckAccepted(r, ack) && k == ack.slot.index {
      var s := r.slots[k];
      var out := SetSlot(r, k, s.(state := Reclaimable));
      StillHeldElsewhere(r.slots, out.slots, k, s.identity.key);
    }
  }

  lemma StillHeldElsewhere(a: seq<Slot>, b: seq<Slot>, k: nat, key: Key)
    requires |a| == |b| && k < |a| && !Held(b[k]) && forall j :: 0 <= j < |a| && j != k ==> b[j] == a[j]
    ensures StillHeld(b, key) <==> exists j :: 0 <= j < |a| && j != k && Held(a[j]) && a[j].identity.key == key
  {
    if StillHeld(b, key) {
      var j :| 0 <= j < |b| && (b[j].state == Published || b[j].state == Retained) && b[j].identity.key == key;
      assert Held(a[j]);
    }
    if exists j :: 0 <= j < |a| && j != k && Held(a[j]) && a[j].identity.key == key {
      var j :| 0 <= j < |a| && j != k && Held(a[j]) && a[j].identity.key == key;
      assert b[j] == a[j];
    }
  }

  /** Reclaiming and aborting free exactly a reclaimable, a written slot, under the next incarnation. */
  lemma FreedForReuse(r: Registry, ref: SlotRef)
    requires Resolves(r.slots, ref) && r.slots[ref.index].incarnation != MAX64
    ensures var s := r.slots[ref.index];
      var freed := Slot(Free, s.incarnation + 1, NO_IDENTITY, NO_VALIDITY, NoReason, s.pinned, [], s.bytes);
      && Reclaim(r, ref) == (if s.state == Reclaimable then r.(slots := r.slots[ref.index := freed]) else r)
      && Abort(r, ref) == (if s.state == Writing then r.(slots := r.slots[ref.index := freed]) else r)
  {
  }
}
