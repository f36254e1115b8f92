/** Fail-closed: what each host operation takes away from selection, with nothing left over. */
module Withdrawals {
  import opened Octets
  import opened Overlap
  import opened Registry
  import opened RegistrySafety
  import Address

  /** The loop over the pool acts on each slot alone: chosen slots retire, the others stay as they are. */
  lemma {:induction false} RetiredPointwise(r: Registry, reason: Reason, c: Choice, j: nat, k: nat)
    requires j <= |r.slots| && k < |r.slots|
    ensures |RetireWhere(r, reason, c, j).slots| == |r.slots|
    ensures RetireWhere(r, reason, c, j).slots[k] == if j <= k && Picked(c, r.slots[k]) then Retired(r.slots[k], reason) else r.slots[k]
    decreases |r.slots| - j
  {
    hide Picked, Retired;
    if j < |r.slots| {
      var next := if Picked(c, r.slots[j]) then RetireSlot(r, j, reason) else r;
      RetiredPointwise(next, reason, c, j + 1, k);
    }
  }

  /** Neither shown to a worker nor on the way there. */
  predicate Withheld(s: Slot) {
    s.state != Published && s.state != Writing
  }

  lemma RetireLeaves(r: Registry, reason: Reason, c: Choice, k: nat)
    requires k < |r.slots|
    ensures |RetireWhere(r, reason, c, 0).slots| == |r.slots|
    ensures Withheld(RetireWhere(r, reason, c, 0).slots[k]) || (!Picked(c, r.slots[k]) && RetireWhere(r, reason, c, 0).slots[k] == r.slots[k])
  {
    RetiredPointwise(r, reason, c, 0, k);
  }

  /** A clock fault withholds every plan. */
  lemma ClockFaultWithholdsAll(r: Registry, now: Reading, k: nat)
    requires ObserveClock(r, now).clock.closed && !r.clock.closed && k < |r.slots|
    ensures |ObserveClock(r, now).slots| == |r.slots| && Withheld(ObserveClock(r, now).slots[k])
  {
    hide RetireWhere;
    RetireLeaves(r.(clock := r.clock.Observe(now)), Revoked, Every, k);
    RetireWhereOnly(r.(clock := r.clock.Observe(now)), Revoked, Every, 0);
  }

  /** A physical conflict withholds every plan of its address and no other. */
  lemma ConflictWithholdsAddress(r: Registry, address: byte, k: nat)
    requires k < |r.slots|
    ensures |MarkConflict(r, address).slots| == |r.slots|
    ensures r.slots[k].identity.key.address == address ==> Withheld(MarkConflict(r, address).slots[k])
    ensures r.slots[k].identity.key.address != address ==> MarkConflict(r, address).slots[k] == r.slots[k]
  {
    hide RetireWhere;
    RetiredPointwise(r.(conflicts := r.conflicts + {address}), Revoked, AtAddress(address), 0, k);
  }

  /** A newer source generation withholds every plan made from the older one. */
  lemma SourceAdvanceWithholdsKey(r: Registry, key: Key, source: nat, expiry: nat, now: Reading, k: nat)
    requires var seen := ObserveClock(r, now);
      !seen.clock.closed && HasRecord(seen, key) && seen.records[key.address].active &&
      source > seen.records[key.address].source && LeaseOk(seen, expiry, now)
    requires k < |AdvanceSource(r, key, source, expiry, now).slots|
    ensures AdvanceSource(r, key, source, expiry, now).slots[k].identity.key == key ==>
      Withheld(AdvanceSource(r, key, source, expiry, now).slots[k])
  {
    hide RetireWhere, ObserveClock, LeaseOk;
    var seen := ObserveClock(r, now);
    var moved := seen.(records := seen.records[key.address := seen.records[key.address].(source := source, sourceLease := expiry)]);
    RetireWhereOnly(moved, Revoked, OfKey(key), 0);
    RetireLeaves(moved, Revoked, OfKey(key), k);
  }

  /** Binding a new worker or stream withholds every plan of the old one. */
  lemma BindWithholdsAll(r: Registry, worker: nat, stream: nat, k: nat)
    requires worker != 0 && stream != 0 && k < |r.slots|
    requires worker > r.workerTop || (worker == r.workerTop && r.workerBound && stream > r.stream)
    ensures var t := BindWorker(r, worker, stream);
      |t.slots| == |r.slots| && Withheld(t.slots[k]) && t.worker == t.workerTop == worker && t.stream == stream
  {
    hide RetireWhere;
    RetireLeaves(r, Revoked, Every, k);
  }

  // ---- Registrations ----

  /** Record b of t is record b of r, up to its published mark. */
  ghost predicate Alike(r: Registry, t: Registry, b: byte) {
    b in t.records ==> b in r.records && t.records[b] == r.records[b].(published := t.records[b].published)
  }

  /** Retiring a registration ends its activity and withholds its plans; other records stay. */
  lemma RetireEnds(r: Registry, address: byte, reason: Reason)
    requires address in r.records && r.records[address].registered.key.address == address
    ensures var t := Retire(r, address, reason);
      && (address in t.records ==> !t.records[address].active && t.records[address].registered == r.records[address].registered)
      && (forall b :: b != address ==> Alike(r, t, b))
      && |t.slots| == |r.slots|
  {
    hide RetireWhere, ForgetRegistration, StillHeld, AllRetire;
    var key := r.records[address].registered.key;
    var retiring := r.(records := r.records[address := r.records[address].(active := false)]);
    RetireWhereOnly(retiring, reason, OfKey(key), 0);
    RetireKeepsLength(retiring, reason, OfKey(key));
    var retired := RetireWhere(retiring, reason, OfKey(key), 0);
    assert retired.records.Keys == retiring.records.Keys;
  }

  lemma RetireKeepsLength(r: Registry, reason: Reason, c: Choice)
    ensures |RetireWhere(r, reason, c, 0).slots| == |r.slots|
  {
    hide SlotRetires, RetireWhere;
    RetireWhereOnly(r, reason, c, 0);
  }

  lemma RetireWithholdsKey(r: Registry, address: byte, reason: Reason, k: nat)
    requires address in r.records && k < |Retire(r, address, reason).slots|
    ensures Retire(r, address, reason).slots[k].identity.key == r.records[address].registered.key ==>
      Withheld(Retire(r, address, reason).slots[k])
  {
    hide RetireWhere, ForgetRegistration, StillHeld, AllRetire;
    var key := r.records[address].registered.key;
    var retiring := r.(records := r.records[address := r.records[address].(active := false)]);
    RetireKeepsLength(retiring, reason, OfKey(key));
    RetireLeaves(retiring, reason, OfKey(key), k);
  }

  /** Unregistering ends the registration: it is gone or inactive, and none of its plans is selectable. */
  lemma UnregisterEnds(r: Registry, key: Key, k: nat)
    requires HasRecord(r, key) && r.records[key.address].active && k < |Unregister(r, key).slots|
    ensures HasRecord(Unregister(r, key), key) ==> !Unregister(r, key).records[key.address].active
    ensures Unregister(r, key).slots[k].identity.key == key ==> Withheld(Unregister(r, key).slots[k])
  {
    hide Retire;
    RetireEnds(r, key.address, Revoked);
    RetireWithholdsKey(r, key.address, Revoked, k);
  }

  /** Every record stands under its own address. */
  ghost predicate Placed(r: Registry) {
    forall a :: a in r.records ==> r.records[a].registered.key.address == a
  }

  /** A sweep leaves no record it was meant to retire. */
  lemma {:induction false} SweepComplete(r: Registry, s: Sweep, reason: Reason, address: nat, b: byte)
    requires address <= 256 && Placed(r)
    ensures b in SweepRecords(r, s, reason, address).records && Swept(s, SweepRecords(r, s, reason, address).records[b]) ==>
      b < address && b in r.records && Swept(s, r.records[b])
    decreases 256 - address
  {
    hide Retire;
    if address < 256 {
      var next := if address in r.records && Swept(s, r.records[address]) then Retire(r, address, reason) else r;
      if address in r.records { RetireEnds(r, address, reason); }
      assert b != address ==> Alike(r, next, b);
      forall a | a in next.records
        ensures next.records[a].registered.key.address == a
      {
        assert a != address ==> Alike(r, next, a);
      }
      SweepComplete(next, s, reason, address + 1, b);
    }
  }

  /** After a disconnect no registration of that subscriber is active. */
  lemma DisconnectEnds(r: Registry, id: nat, b: byte)
    requires Placed(r) && id in r.subscribers && b in Disconnect(r, id).records
    ensures Disconnect(r, id).records[b].registered.key.subscriber == id ==> !Disconnect(r, id).records[b].active
  {
    hide SweepRecords;
    SweepComplete(r.(subscribers := r.subscribers[id := r.subscribers[id].(open := false)]), OfSubscriber(id), Revoked, 0, b);
  }

  /** A reset leaves no active registration. */
  lemma ResetEndsAll(r: Registry, b: byte)
    requires Placed(r) && b in Reset(r).records
    ensures !Reset(r).records[b].active
  {
    hide SweepRecords;
    SweepComplete(r, All, Revoked, 0, b);
  }

  /** After expiry at now no active registration has a lapsed lease. */
  lemma ExpiryLeavesNoLapsedLease(r: Registry, now: Reading, b: byte)
    requires Placed(ObserveClock(r, now)) && !ObserveClock(r, now).clock.closed && b in ExpireDue(r, now).records
    ensures ExpireDue(r, now).records[b].active ==> now.tick < ExpireDue(r, now).records[b].leaseExpiry
  {
    hide SweepRecords, RetireWhere, ObserveClock, AllRetire;
    var seen := ObserveClock(r, now);
    RetireWhereOnly(seen, Expired, DueAt(now), 0);
    SweepComplete(RetireWhere(seen, Expired, DueAt(now), 0), LapsedAt(now), Expired, 0, b);
  }

  // ---- Termination and publication ----

  /** Observed termination leaves no published or retained slot of the worker that ended. */
  lemma {:induction false} ReclaimComplete(r: Registry, worker: nat, j: nat, k: nat)
    requires j <= |r.slots| && k < |r.slots|
    ensures |ReclaimWorker(r, worker, j).slots| == |r.slots|
    ensures j <= k && Held(ReclaimWorker(r, worker, j).slots[k]) ==> ReclaimWorker(r, worker, j).slots[k].identity.worker != worker
    ensures k < j ==> ReclaimWorker(r, worker, j).slots[k] == r.slots[k]
    decreases |r.slots| - j
  {
    hide Retired, Unpublish, ForgetRegistration, StillHeld;
    if j < |r.slots| {
      var s := r.slots[j];
      if (s.state != Published && s.state != Retained) || s.identity.worker != worker {
        ReclaimComplete(r, worker, j + 1, k);
      } else {
        var retired := RetireSlot(r, j, Revoked);
        var freed := SetSlot(retired, j, retired.slots[j].(pinned := false, state := Reclaimable));
        ReclaimComplete(Settle(freed, s.identity.key), worker, j + 1, k);
      }
    }
  }

  lemma TerminationFreesWorker(r: Registry, worker: nat, k: nat)
    requires 0 < worker <= r.workerTop && k < |r.slots|
    ensures |Terminate(r, worker).slots| == |r.slots|
    ensures Held(Terminate(r, worker).slots[k]) ==> Terminate(r, worker).slots[k].identity.worker != worker
  {
    hide RetireWhere, ReclaimWorker;
    var loose := r.(workerBound := false);
    RetireKeepsLength(loose, Revoked, StillWriting);
    var unbound := if r.workerBound && r.worker == worker then RetireWhere(loose, Revoked, StillWriting, 0) else r;
    ReclaimComplete(unbound, worker, 0, k);
  }

  /** A publication shows exactly the slot it names, under a newer plan than any shown for its key before. */
  lemma PublicationShows(r: Registry, h: History, ref: SlotRef, now: Reading)
    requires Inv(r, h) && Publish(r, ref, now).1.Some?
    ensures var (t, n) := Publish(r, ref, now);
      var seen := ObserveClock(r, now);
      var a := n.value.identity.key.address;
      && n.value == Notice(ref, seen.slots[ref.index].identity)
      && Resolves(t.slots, ref) && t.slots[ref.index] == seen.slots[ref.index].(state := Published)
      && HasRecord(t, n.value.identity.key) && t.records[a].published == ref.index
      && t.records[a].publishTop == n.value.identity.plan > seen.records[a].publishTop
      && t.slots[ref.index].validity.Holds(now)
      && seen.records[a].active && n.value.identity.source == seen.records[a].source && a !in seen.conflicts
      && seen.workerBound && n.value.identity.worker == seen.worker && n.value.identity.stream == seen.stream
      && (forall k :: 0 <= k < |t.slots| && t.slots[k].state == Published && t.slots[k].identity.key.address == a ==> k == ref.index)
  {
    hide ObserveClock, KeysSound, PairsSound, SlotsSound, Evolves;
    PublishKeeps(r, h, ref, now);
    ObserveClockKeeps(r, h, now);
    var seen := ObserveClock(r, now);
    var a := seen.slots[ref.index].identity.key.address;
    assert RecordSound(seen.records[a], a, seen.slots);
  }

  /** A preparation freezes the plan's own deadline, its registration's lease and its source's lease, all still ahead. */
  lemma PreparationFreezes(r: Registry, c: Candidate, now: Reading)
    requires PrepareSucceeds(r, c, now)
    ensures var t, seen := Prepare(r, c, now), ObserveClock(r, now);
      var j := FirstFree(seen.slots, 0);
      && j < |t.slots| == |seen.slots| && seen.slots[j].state == Free && t.slots[j].state == Writing
      && t.slots[j].identity == c.identity && t.slots[j].incarnation == seen.slots[j].incarnation
      && t.slots[j].validity.planExpiry == c.planExpiry && t.slots[j].validity.domain == seen.clock.domain
      && t.slots[j].validity.registrationExpiry == seen.records[c.identity.key.address].leaseExpiry
      && t.slots[j].validity.sourceExpiry == seen.records[c.identity.key.address].sourceLease
      && now.tick < c.planExpiry <= now.tick + r.limits.maxLease && t.slots[j].validity.Holds(now)
      && (forall k :: 0 <= k < |t.slots| && k != j ==> t.slots[k] == seen.slots[k])
      && t.planTop == c.identity.plan > seen.planTop
  {
    hide CandidateOk, FirstFree, StoreFrom, Content, Overlay, RetireWhere;
    RetireWhereOnly(r.(clock := r.clock.Observe(now)), Revoked, Every, 0);
  }

  /** A registration takes a free target address for a newer epoch of an open subscriber, exactly as claimed. */
  lemma RegistrationTakesFreeAddress(r: Registry, c: Registration, now: Reading)
    requires RegisterSucceeds(r, c, now)
    ensures var t, seen := Register(r, c, now), ObserveClock(r, now);
      var a := c.key.address;
      && a !in seen.records && Address.IsTarget(a) && a !in seen.conflicts
      && seen.subscribers[c.key.subscriber].open && c.key.epoch > seen.subscribers[c.key.subscriber].epochHigh
      && t.records == seen.records[a := Record(true, c, c.leaseExpiry, c.source, c.sourceExpiry, -1, 0)]
      && t.subscribers[c.key.subscriber].epochHigh == c.key.epoch && t.slots == seen.slots
      && |t.records| <= r.limits.maxRegistrations
  {
    hide Address.IsTarget, RetireWhere;
    RetireWhereOnly(r.(clock := r.clock.Observe(now)), Revoked, Every, 0);
  }
}
